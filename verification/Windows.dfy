/** Planning of closed notification windows. Times are whole microseconds since 1970-01-01 UTC. */
module Windows {
  import opened Basics

  const SECOND := 1_000_000

  datatype Window = Window(start: int, end: int)

  datatype WindowError = BadPolicy | Misaligned | ClockBehindCursor | Backlog

  /** `_floor_boundary_us`. */
  function FloorBoundary(value: int, cadence: int): int
    requires cadence > 0
  {
    value / (cadence * SECOND) * (cadence * SECOND)
  }

  predicate Aligned(t: int, cadence: int)
    requires cadence > 0
  {
    t % (cadence * SECOND) == 0
  }

  function Tiles(from: int, count: nat, cadence: int): (ws: seq<Window>)
    ensures |ws| == count
  {
    seq(count, i => Window((from + i * cadence) * SECOND, (from + (i + 1) * cadence) * SECOND))
  }

  /** `closed_notification_windows`, working in whole seconds as the code does. */
  function ClosedWindows(after: int, now: int, cadence: int, delay: int, maxWindows: int): Result<seq<Window>, WindowError> {
    if cadence <= 0 || delay < 0 || maxWindows <= 0 then Err(BadPolicy)
    else
      var cursorSeconds := after / SECOND;
      if after != cursorSeconds * SECOND || cursorSeconds % cadence != 0 then Err(Misaligned)
      else if now < after then Err(ClockBehindCursor)
      else
        var cutoffSeconds := (now - delay * SECOND) / SECOND;
        var finalizedEnd := cutoffSeconds / cadence * cadence;
        if finalizedEnd <= cursorSeconds then Ok([])
        else
          var count := (finalizedEnd - cursorSeconds) / cadence;
          if count > maxWindows then Err(Backlog)
          else
            DivPositive(finalizedEnd - cursorSeconds, cadence);
            Ok(Tiles(cursorSeconds, count, cadence))
  }

  lemma DivPositive(a: int, b: int)
    requires a >= 0 && b > 0
    ensures a / b >= 0
  {
  }

  /** The windows tile `[from, to)`: consecutive, each one cadence long, in order. */
  ghost predicate Tiling(ws: seq<Window>, from: int, to: int, cadence: int) {
    && (ws == [] ==> from == to)
    && (ws != [] ==> ws[0].start == from && ws[|ws| - 1].end == to)
    && (forall i | 0 <= i < |ws| :: ws[i].end == ws[i].start + cadence * SECOND)
    && (forall i, j | 0 <= i < |ws| && j == i + 1 < |ws| :: ws[j].start == ws[i].end)
  }

  // ----- Arithmetic -----

  lemma NestedFloor(x: int, c: int)
    requires c > 0
    ensures x / SECOND / c == x / (c * SECOND)
  {
    var q, r := x / SECOND, x % SECOND;
    var k, m := q / c, q % c;
    assert x == (k * c + m) * SECOND + r;
    assert x == k * (c * SECOND) + (m * SECOND + r);
    assert 0 <= m * SECOND + r < c * SECOND;
    QuotientUnique(x, c * SECOND, k, m * SECOND + r);
  }

  lemma AtLeastOne(a: int, d: int)
    requires a >= 1 && d > 0
    ensures a * d >= d
  {
    MulMonotone(1, a, d);
  }

  lemma QuotientUnique(x: int, d: int, q: int, r: int)
    requires d > 0 && x == q * d + r && 0 <= r < d
    ensures x / d == q && x % d == r
  {
    var q', r' := x / d, x % d;
    assert x == q' * d + r' && 0 <= r' < d;
    assert (q - q') * d == q * d - q' * d;
    if q > q' {
      AtLeastOne(q - q', d);
    } else if q < q' {
      assert (q' - q) * d == q' * d - q * d;
      AtLeastOne(q' - q, d);
    }
  }

  /** `FloorBoundary` is the greatest boundary not after the given time. */
  lemma FloorBoundaryGreatest(value: int, cadence: int)
    requires cadence > 0
    ensures Aligned(FloorBoundary(value, cadence), cadence)
    ensures FloorBoundary(value, cadence) <= value
    ensures forall b | Aligned(b, cadence) && b <= value :: b <= FloorBoundary(value, cadence)
  {
    var d := cadence * SECOND;
    var f := FloorBoundary(value, cadence);
    QuotientUnique(f, d, value / d, 0);
    forall b | Aligned(b, cadence) && b <= value ensures b <= f {
      assert b == b / d * d;
      DivMonotone(b, value, d);
      MulMonotone(b / d, value / d, d);
    }
  }

  lemma DivMonotone(a: int, b: int, d: int)
    requires d > 0 && a <= b
    ensures a / d <= b / d
  {
    var p, q := a / d, b / d;
    assert a == p * d + a % d && b == q * d + b % d;
    if p > q {
      assert (p - q) * d == p * d - q * d;
      AtLeastOne(p - q, d);
    }
  }

  lemma MulMonotone(a: int, b: int, d: int)
    requires d > 0 && a <= b
    ensures a * d <= b * d
  {
    assert (b - a) * d == b * d - a * d;
  }

  lemma MultipleStep(a: int, k: int, d: int)
    requires d > 0 && a % d == 0
    ensures (a + k * d) % d == 0
  {
    assert a == a / d * d;
    assert a + k * d == (a / d + k) * d + 0;
    QuotientUnique(a + k * d, d, a / d + k, 0);
  }

  // ----- Planning -----

  lemma MulAssoc(a: int, b: int, c: int)
    ensures a * b * c == a * (b * c)
  {
  }

  lemma AlignedIsSecondsAligned(t: int, c: int)
    requires c > 0
    ensures Aligned(t, c) <==> t == t / SECOND * SECOND && t / SECOND % c == 0
  {
    var q, r := t / SECOND, t % SECOND;
    var k, m := q / c, q % c;
    assert t == (k * c + m) * SECOND + r;
    assert t == k * (c * SECOND) + (m * SECOND + r);
    QuotientUnique(t, c * SECOND, k, m * SECOND + r);
  }

  lemma TilesTile(from: int, count: nat, cadence: int)
    requires cadence > 0
    ensures Tiling(Tiles(from, count, cadence), from * SECOND, (from + count * cadence) * SECOND, cadence)
  {
    var ws := Tiles(from, count, cadence);
    forall i | 0 <= i < |ws| ensures ws[i].end == ws[i].start + cadence * SECOND {
      assert (i + 1) * cadence == i * cadence + cadence;
    }
  }

  lemma {:induction false} TilingStarts(ws: seq<Window>, from: int, to: int, cadence: int, i: nat)
    requires Tiling(ws, from, to, cadence) && i < |ws|
    ensures ws[i].start == from + i * (cadence * SECOND)
  {
    if i > 0 {
      TilingStarts(ws, from, to, cadence, i - 1);
      assert ws[i].start == ws[i - 1].end;
      assert i * (cadence * SECOND) == (i - 1) * (cadence * SECOND) + cadence * SECOND;
    }
  }

  lemma TilingSpan(ws: seq<Window>, from: int, to: int, cadence: int)
    requires Tiling(ws, from, to, cadence)
    ensures to == from + |ws| * (cadence * SECOND)
  {
    if ws != [] {
      TilingStarts(ws, from, to, cadence, |ws| - 1);
      assert |ws| * (cadence * SECOND) == (|ws| - 1) * (cadence * SECOND) + cadence * SECOND;
    }
  }

  /** An interval has at most one tiling with a given cadence. */
  lemma TilingUnique(a: seq<Window>, b: seq<Window>, from: int, to: int, cadence: int)
    requires cadence > 0 && Tiling(a, from, to, cadence) && Tiling(b, from, to, cadence)
    ensures a == b
  {
    TilingSpan(a, from, to, cadence);
    TilingSpan(b, from, to, cadence);
    var d := cadence * SECOND;
    QuotientUnique(to - from, d, |a|, 0);
    QuotientUnique(to - from, d, |b|, 0);
    forall i | 0 <= i < |a| ensures a[i] == b[i] {
      TilingStarts(a, from, to, cadence, i);
      TilingStarts(b, from, to, cadence, i);
    }
  }

  lemma TilingAppend(a: seq<Window>, b: seq<Window>, from: int, mid: int, to: int, cadence: int)
    requires Tiling(a, from, mid, cadence) && Tiling(b, mid, to, cadence)
    ensures Tiling(a + b, from, to, cadence)
  {
    var ws := a + b;
    forall i, j | 0 <= i < |ws| && j == i + 1 < |ws| ensures ws[j].start == ws[i].end {
      if j < |a| {
      } else if i >= |a| {
        assert b[j - |a|].start == b[i - |a|].end;
      }
    }
  }

  lemma TilingAligned(ws: seq<Window>, from: int, to: int, cadence: int)
    requires cadence > 0 && Tiling(ws, from, to, cadence) && Aligned(from, cadence)
    ensures Aligned(to, cadence)
    ensures forall i | 0 <= i < |ws| :: Aligned(ws[i].start, cadence) && Aligned(ws[i].end, cadence)
  {
    var d := cadence * SECOND;
    TilingSpan(ws, from, to, cadence);
    MultipleStep(from, |ws|, d);
    forall i | 0 <= i < |ws| ensures Aligned(ws[i].start, cadence) && Aligned(ws[i].end, cadence) {
      TilingStarts(ws, from, to, cadence, i);
      MultipleStep(from, i, d);
      MultipleStep(from, i + 1, d);
      assert (i + 1) * d == i * d + d;
    }
  }

  /** The last finalized boundary: the greatest boundary not after `now - delay`. */
  function Horizon(now: int, cadence: int, delay: int): int
    requires cadence > 0
  {
    FloorBoundary(now - delay * SECOND, cadence)
  }

  lemma HorizonSeconds(now: int, cadence: int, delay: int)
    requires cadence > 0
    ensures (now - delay * SECOND) / SECOND / cadence * cadence * SECOND == Horizon(now, cadence, delay)
  {
    var x := now - delay * SECOND;
    NestedFloor(x, cadence);
    MulAssoc(x / SECOND / cadence, cadence, SECOND);
  }

  /** Every accepted plan is the tiling from the cursor to the horizon, and rejection means exactly one of three faults. */
  lemma PlanExact(after: int, now: int, cadence: int, delay: int, maxWindows: int)
    requires cadence > 0 && delay >= 0 && maxWindows > 0
    ensures var r, to := ClosedWindows(after, now, cadence, delay, maxWindows), Horizon(now, cadence, delay);
            && (r.Err? <==> !Aligned(after, cadence) || now < after || to > after + maxWindows * (cadence * SECOND))
            && (r.Ok? && to <= after ==> r.value == [])
            && (r.Ok? && to > after ==> Tiling(r.value, after, to, cadence) && |r.value| <= maxWindows)
            && (r.Ok? ==> forall i | 0 <= i < |r.value| :: Aligned(r.value[i].start, cadence) && Aligned(r.value[i].end, cadence))
  {
    AlignedIsSecondsAligned(after, cadence);
    if Aligned(after, cadence) && now >= after {
      var c := after / SECOND;
      var f := (now - delay * SECOND) / SECOND / cadence * cadence;
      HorizonSeconds(now, cadence, delay);
      var to := Horizon(now, cadence, delay);
      assert to == f * SECOND && after == c * SECOND;
      if f > c {
        CountExact(c, f, cadence, (now - delay * SECOND) / SECOND / cadence, maxWindows);
        var count := (f - c) / cadence;
        TilesTile(c, count, cadence);
        TilingAligned(Tiles(c, count, cadence), after, to, cadence);
      }
    }
  }

  lemma CountExact(c: int, f: int, cadence: int, k: int, maxWindows: int)
    requires cadence > 0 && maxWindows > 0
    requires c % cadence == 0 && f == k * cadence && f > c
    ensures (f - c) / cadence > 0
    ensures c + (f - c) / cadence * cadence == f
    ensures (f - c) / cadence > maxWindows <==> f * SECOND > c * SECOND + maxWindows * (cadence * SECOND)
  {
    var j := c / cadence;
    assert c == j * cadence;
    assert f - c == (k - j) * cadence + 0;
    QuotientUnique(f - c, cadence, k - j, 0);
    var n := k - j;
    assert (maxWindows * cadence) * SECOND == maxWindows * (cadence * SECOND);
    if n <= 0 {
      MulMonotone(n, 0, cadence);
    } else if n > maxWindows {
      MulMonotone(maxWindows + 1, n, cadence);
      assert (maxWindows + 1) * cadence == maxWindows * cadence + cadence;
    } else {
      MulMonotone(n, maxWindows, cadence);
    }
  }

  /** Where a plan that started at `after` ends. */
  function PlanEnd(after: int, ws: seq<Window>): int {
    if ws == [] then after else ws[|ws| - 1].end
  }

  /**
   * Catching up in two polls is the same as catching up in one: the plan at a later clock is the
   * plan at the earlier clock followed by the plan from where that one ended.
   */
  lemma PlanComposes(after: int, now1: int, now2: int, cadence: int, delay: int, maxWindows: int)
    requires now1 <= now2
    requires ClosedWindows(after, now1, cadence, delay, maxWindows).Ok?
    requires ClosedWindows(after, now2, cadence, delay, maxWindows).Ok?
    ensures var first := ClosedWindows(after, now1, cadence, delay, maxWindows).value;
            var second := ClosedWindows(PlanEnd(after, first), now2, cadence, delay, maxWindows);
            second.Ok? && ClosedWindows(after, now2, cadence, delay, maxWindows).value == first + second.value
  {
    PlanExact(after, now1, cadence, delay, maxWindows);
    PlanExact(after, now2, cadence, delay, maxWindows);
    var first := ClosedWindows(after, now1, cadence, delay, maxWindows).value;
    var whole := ClosedWindows(after, now2, cadence, delay, maxWindows).value;
    var to1, to2 := Horizon(now1, cadence, delay), Horizon(now2, cadence, delay);
    FloorBoundaryGreatest(now1 - delay * SECOND, cadence);
    FloorBoundaryGreatest(now2 - delay * SECOND, cadence);
    assert to1 <= to2;
    if to1 > after {
      PlanExact(to1, now2, cadence, delay, maxWindows);
      var second := ClosedWindows(to1, now2, cadence, delay, maxWindows).value;
      TilingAppend(first, second, after, to1, to2, cadence);
      TilingUnique(whole, first + second, after, to2, cadence);
    } else {
      assert first + whole == whole;
    }
  }
}
