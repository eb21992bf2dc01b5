/** Splitting request budgets across source jobs. */
module Budgets {
  import opened Basics

  // ----- Integers through double precision -----

  const TWO53 := 0x20_0000_0000_0000

  /** The spacing of doubles around `n`. */
  function Ulp(n: nat): (u: nat)
    ensures u >= 1
  {
    if n < TWO53 then 1 else 2 * Ulp(n / 2)
  }

  /** The double nearest to `n`, ties to even: `float(n)`. */
  function Round(n: nat): nat {
    var u := Ulp(n);
    var q, r := n / u, n % u;
    if 2 * r < u || (2 * r == u && q % 2 == 0) then q * u else (q + 1) * u
  }

  const TWO64 := 0x1_0000_0000_0000_0000
  const TWO256 := TWO64 * TWO64 * TWO64 * TWO64
  /** No double is this large. */
  const TWO1024 := TWO256 * TWO256 * TWO256 * TWO256

  /** The smallest positive double. */
  const TINY: real := 1.0 / (TWO1024 as real * 0x4_0000_0000_0000 as real)

  /** The first of the spacings `u`, `2u`, `4u`, … in which 53 bits reach `x`. */
  function Grid(x: real, u: real, steps: nat): (r: real)
    requires u > 0.0
    ensures r > 0.0
    decreases steps
  {
    if steps == 0 || x < u * TWO53 as real then u else Grid(x, 2.0 * u, steps - 1)
  }

  /** From the smallest spacing to the largest there are this many doublings, whatever the number. */
  function Binades(x: real): nat {
    2045
  }

  /** The spacing of doubles around a non-negative real, down to the smallest ones. */
  function Spacing(x: real): (u: real)
    ensures u > 0.0
  {
    Grid(x, TINY, Binades(x))
  }

  /** The double nearest to `x`, ties to even: what a division rounds to. */
  function Nearest(x: real): real {
    if x < 0.0 then -NearestUp(-x) else NearestUp(x)
  }

  function NearestUp(x: real): real {
    RoundTo(x, Spacing(x))
  }

  /** The nearest multiple of `u`, ties to even. */
  function RoundTo(x: real, u: real): real
    requires u > 0.0
  {
    HalfEven(x / u) as real * u
  }

  /** The nearest integer, ties to even. */
  function HalfEven(y: real): int {
    var q := y.Floor;
    var rest := y - q as real;
    if rest < 0.5 || (rest == 0.5 && q % 2 == 0) then q else q + 1
  }

  /** A multiple of the spacing around it. */
  predicate OnGrid(x: real) {
    IsMultiple(x, Spacing(x))
  }

  predicate IsMultiple(x: real, u: real)
    requires u > 0.0
  {
    (x / u).Floor as real == x / u
  }

  /** Scaling by `u`: `p` and `q` are `a` and `b` scaled. */
  lemma ScaleGap(a: real, b: real, half: real, u: real, p: real, q: real, g: real)
    requires u > 0.0 && a - b <= half && p == a * u && q == b * u && g == half * u
    ensures p - q <= g
  {
    assert (half - (a - b)) * u >= 0.0;
  }

  lemma ScaleClose(a: real, b: real, half: real, u: real, p: real, q: real, g: real)
    requires u > 0.0 && a - b <= half && b - a <= half && p == a * u && q == b * u && g == half * u
    ensures p - q <= g && q - p <= g
  {
    ScaleGap(a, b, half, u, p, q, g);
    ScaleGap(b, a, half, u, q, p, g);
  }

  lemma ScaleEqual(a: real, b: real, u: real, p: real, q: real)
    requires u > 0.0 && p == a * u && q == b * u
    ensures a == b <==> p == q
  {
    if a < b {
      assert (b - a) * u > 0.0;
    } else if b < a {
      assert (a - b) * u > 0.0;
    }
  }

  lemma RoundToExact(x: real, u: real)
    requires u > 0.0
    ensures RoundTo(x, u) == x <==> IsMultiple(x, u)
    ensures RoundTo(x, u) - x <= u / 2.0 && x - RoundTo(x, u) <= u / 2.0
  {
    var y := x / u;
    assert y * u == x;
    var n := HalfEven(y) as real;
    ScaleEqual(n, y, u, RoundTo(x, u), x);
    ScaleClose(n, y, 0.5, u, RoundTo(x, u), x, u / 2.0);
  }

  /** Rounding to a double is exact precisely on the grid, and otherwise off by at most half the spacing. */
  lemma NearestExact(x: real)
    requires x >= 0.0
    ensures Nearest(x) == x <==> OnGrid(x)
    ensures Nearest(x) - x <= Spacing(x) / 2.0 && x - Nearest(x) <= Spacing(x) / 2.0
  {
    RoundToExact(x, Spacing(x));
  }

  lemma DivMod(n: nat, u: nat)
    requires u >= 1
    ensures n == n / u * u + n % u && 0 <= n % u < u
  {
  }

  /** Conversion is exact precisely for the multiples of the spacing, and otherwise off by at most half of it. */
  lemma RoundExact(n: nat)
    ensures Round(n) == n <==> n % Ulp(n) == 0
    ensures 2 * (Round(n) - n) <= Ulp(n) && 2 * (n - Round(n)) <= Ulp(n)
  {
    var u := Ulp(n);
    var q, r := n / u, n % u;
    DivMod(n, u);
    assert (q + 1) * u == q * u + u;
  }

  lemma SmallIsExact(n: nat)
    requires n <= TWO53
    ensures Round(n) == n
  {
    if n == TWO53 {
      assert Ulp(TWO53 / 2) == 1;
      assert Ulp(n) == 2;
    } else {
      assert Ulp(n) == 1;
    }
    RoundExact(n);
  }

  /** The first integer that does not survive. */
  lemma FirstLoss()
    ensures Round(TWO53 + 1) == TWO53
  {
    assert Ulp((TWO53 + 1) / 2) == 1;
    assert Ulp(TWO53 + 1) == 2;
  }

  // ----- Budget values -----

  datatype BudgetError = NotANumber | Negative | TooLarge

  type Values = map<string, Json>

  predicate IsInteger(name: string) {
    name == "max_llm_calls" || name == "max_tokens" || name == "max_steps"
  }

  predicate IsQuota(name: string) {
    name == "max_llm_calls" || name == "max_steps"
  }

  /** `int(float(value))` with its checks. */
  function NonNegative(v: Json): Result<nat, BudgetError> {
    match v
    case JInt(n) =>
      if Round(if n < 0 then -n else n) >= TWO1024 then Err(TooLarge)
      else if n < 0 then Err(Negative)
      else Ok(Round(n))
    case JFloat(r) =>
      if r >= 0.0 then Ok(r.Floor)
      else if r > -1.0 then Ok(0)
      else Err(Negative)
    case _ => Err(NotANumber)
  }

  predicate IsNumber(v: Json) {
    v.JInt? || v.JFloat?
  }

  /** `float(value)`. */
  function AsFloat(v: Json): Result<real, BudgetError> {
    match v
    case JInt(n) =>
      if Round(if n < 0 then -n else n) >= TWO1024 then Err(TooLarge)
      else Ok(if n < 0 then -(Round(-n) as real) else Round(n) as real)
    case JFloat(r) => Ok(r)
    case _ => Err(NotANumber)
  }

  function Share(total: nat, count: nat, index: nat): nat
    requires count > 0
  {
    total / count + (if index < total % count then 1 else 0)
  }

  /** One budget value for job `index` of `count`. */
  function ShareOf(name: string, v: Json, count: nat, index: nat): Result<Json, BudgetError>
    requires count > 0
  {
    if !IsNumber(v) then Ok(v)
    else if IsInteger(name) then
      match NonNegative(v)
      case Ok(total) => Ok(JInt(Share(total, count, index)))
      case Err(e) => Err(e)
    else
      match AsFloat(v)
      case Ok(x) => Ok(JFloat(Nearest(x / count as real)))
      case Err(e) => Err(e)
  }

  predicate Divisible(name: string, v: Json) {
    IsNumber(v) ==> if IsInteger(name) then NonNegative(v).Ok? else AsFloat(v).Ok?
  }

  predicate AllDivisible(budgets: Values) {
    forall name | name in budgets :: Divisible(name, budgets[name])
  }

  /** What `partition_budgets` gives job `index` of `count`. */
  function Part(budgets: Values, count: nat, index: nat): Values
    requires AllDivisible(budgets)
  {
    if count == 0 then budgets
    else map name | name in budgets :: ShareOf(name, budgets[name], count, index).value
  }

  /** `partition_budgets`. */
  method PartitionBudgets(budgets: Values, count: int, index: nat) returns (r: Result<Values, BudgetError>)
    ensures r.Ok? <==> count <= 0 || AllDivisible(budgets)
    ensures r.Ok? && count > 0 ==> r.value == Part(budgets, count, index)
    ensures count <= 0 ==> r == Ok(budgets)
    ensures r.Ok? ==> r.value.Keys == budgets.Keys && forall name | name in budgets && !IsNumber(budgets[name]) :: r.value[name] == budgets[name]
  {
    if count <= 0 {
      return Ok(budgets);
    }
    var result: Values := map[];
    var pending := budgets.Keys;
    while pending != {}
      invariant pending <= budgets.Keys && result.Keys == budgets.Keys - pending
      invariant forall name | name in result ::
                  Divisible(name, budgets[name]) && result[name] == ShareOf(name, budgets[name], count, index).value
      decreases pending
    {
      var name :| name in pending;
      var share := ShareOf(name, budgets[name], count, index);
      if share.Err? {
        assert !Divisible(name, budgets[name]);
        return Err(share.error);
      }
      result := result[name := share.value];
      pending := pending - {name};
    }
    return Ok(result);
  }

  // ----- Shares -----

  function Shares(total: nat, count: nat): seq<int> {
    seq(count, i requires 0 <= i < count => Share(total, count, i))
  }

  lemma {:induction false} PrefixTotal(total: nat, count: nat, k: nat)
    requires count > 0 && k <= count
    ensures Sum(Shares(total, count)[..k]) == total / count * k + (if k < total % count then k else total % count)
  {
    if k == 0 {
      assert Shares(total, count)[..0] == [];
    } else {
      PrefixTotal(total, count, k - 1);
      var s := Shares(total, count);
      assert s[..k] == s[..k - 1] + [s[k - 1]];
      SumSnoc(s[..k - 1], s[k - 1]);
      assert total / count * k == total / count * (k - 1) + total / count;
    }
  }

  /** The shares add up, never increase from one job to the next, and differ by at most one. */
  lemma SharesConserve(total: nat, count: nat)
    requires count > 0
    ensures Sum(Shares(total, count)) == total
    ensures forall i, j | 0 <= i <= j < count ::
              Share(total, count, j) <= Share(total, count, i) <= Share(total, count, j) + 1
  {
    PrefixTotal(total, count, count);
    assert Shares(total, count)[..count] == Shares(total, count);
    DivMod(total, count);
  }

  lemma EnoughForAll(total: nat, count: nat, index: nat)
    requires 0 < count <= total
    ensures Share(total, count, index) >= 1
  {
    DivMod(total, count);
  }

  // ----- Limiting the sources -----

  function Min(a: nat, b: nat): nat {
    if a < b then a else b
  }

  predicate QuotaOk(budgets: Values, name: string) {
    name in budgets ==> NonNegative(budgets[name]).Ok?
  }

  /** A quota caps the number of jobs when it is set and positive. */
  function Cap(budgets: Values, name: string, n: nat): nat
    requires QuotaOk(budgets, name)
  {
    if name in budgets && NonNegative(budgets[name]).value > 0 then Min(n, NonNegative(budgets[name]).value) else n
  }

  predicate QuotasOk(budgets: Values) {
    QuotaOk(budgets, "max_llm_calls") && QuotaOk(budgets, "max_steps")
  }

  /** How many sources are queued. */
  function Allowed(budgets: Values, n: nat): nat
    requires QuotasOk(budgets)
  {
    Cap(budgets, "max_steps", Cap(budgets, "max_llm_calls", n))
  }

  const FirstOf: ((string, Json)) -> string := (p: (string, Json)) => p.0

  /** `limit_budgeted_sources`: the sources that are queued, and the ids of the rest. */
  function LimitSources(sources: seq<(string, Json)>, budgets: Values): Result<(seq<(string, Json)>, seq<string>), BudgetError> {
    if !QuotaOk(budgets, "max_llm_calls") then Err(NonNegative(budgets["max_llm_calls"]).error)
    else if !QuotaOk(budgets, "max_steps") then Err(NonNegative(budgets["max_steps"]).error)
    else
      var n := Allowed(budgets, |sources|);
      Ok((sources[..n], Map(FirstOf, sources[n..])))
  }

  /** Nothing is lost or reordered, and as many sources are queued as every positive quota allows. */
  lemma LimitPartitions(sources: seq<(string, Json)>, budgets: Values)
    requires QuotasOk(budgets)
    ensures var r := LimitSources(sources, budgets);
            && r.Ok? && r.value.0 <= sources
            && Map(FirstOf, r.value.0) + r.value.1 == Map(FirstOf, sources)
            && (forall name | IsQuota(name) && name in budgets && NonNegative(budgets[name]).value > 0 ::
                  |r.value.0| <= NonNegative(budgets[name]).value)
            && (r.value.1 != [] ==> exists name | IsQuota(name) && name in budgets && NonNegative(budgets[name]).value > 0 ::
                  |r.value.0| == NonNegative(budgets[name]).value)
  {
    var r := LimitSources(sources, budgets).value;
    if r.1 != [] {
      var calls := Cap(budgets, "max_llm_calls", |sources|);
      if calls == |r.0| {
        assert IsQuota("max_llm_calls") && "max_llm_calls" in budgets;
      } else {
        assert IsQuota("max_steps") && "max_steps" in budgets;
      }
    }
  }

  // ----- Queueing -----

  datatype SourceJob = SourceJob(source: string, request: Json, budgets: Values)

  /** The part of `maintain` that limits the sources and gives each job its share. */
  method Maintain(sources: seq<(string, Json)>, budgets: Values) returns (r: Result<(seq<SourceJob>, seq<string>), BudgetError>)
    ensures r.Ok? <==> QuotasOk(budgets) && (Allowed(budgets, |sources|) == 0 || AllDivisible(budgets))
    ensures r.Ok? ==> var n := Allowed(budgets, |sources|);
            && |r.value.0| == n && r.value.1 == Map(FirstOf, sources[n..])
            && forall i | 0 <= i < n :: r.value.0[i] == SourceJob(sources[i].0, sources[i].1, Part(budgets, n, i))
  {
    var limited := LimitSources(sources, budgets);
    if limited.Err? {
      return Err(limited.error);
    }
    var queued := limited.value.0;
    var jobs: seq<SourceJob> := [];
    for i := 0 to |queued|
      invariant |jobs| == i && (i > 0 ==> AllDivisible(budgets))
      invariant forall k | 0 <= k < i :: jobs[k] == SourceJob(sources[k].0, sources[k].1, Part(budgets, |queued|, k))
    {
      var share := PartitionBudgets(budgets, |queued|, i);
      if share.Err? {
        return Err(share.error);
      }
      jobs := jobs + [SourceJob(queued[i].0, queued[i].1, share.value)];
    }
    return Ok((jobs, limited.value.1));
  }

  /** The amounts of one integer budget that `n` jobs receive. */
  function Received(budgets: Values, n: nat, name: string): seq<Json>
    requires AllDivisible(budgets) && name in budgets
  {
    seq(n, i requires 0 <= i < n => Part(budgets, n, i)[name])
  }

  const IntOf: Json -> int := (v: Json) => if v.JInt? then v.n else 0

  /**
    * An integer budget of `total` split over `n > 0` jobs: the shares add up to `total` exactly when `total` is a
    * multiple of the spacing of doubles around it, so always up to 2^53.
    */
  lemma BudgetConserved(budgets: Values, n: nat, name: string, total: nat)
    requires AllDivisible(budgets) && n > 0 && IsInteger(name) && name in budgets && budgets[name] == JInt(total)
    ensures Sum(Map(IntOf, Received(budgets, n, name))) == Round(total)
    ensures Sum(Map(IntOf, Received(budgets, n, name))) == total <==> total % Ulp(total) == 0
    ensures total <= TWO53 ==> Sum(Map(IntOf, Received(budgets, n, name))) == total
  {
    assert Divisible(name, budgets[name]);
    assert NonNegative(budgets[name]) == Ok(Round(total));
    var received := Received(budgets, n, name);
    forall i | 0 <= i < n ensures received[i] == JInt(Share(Round(total), n, i)) {
    }
    assert Map(IntOf, received) == Shares(Round(total), n);
    SharesConserve(Round(total), n);
    RoundExact(total);
    if total <= TWO53 {
      SmallIsExact(total);
    }
  }

  /** `d` shares make up `amount` exactly when the even share is a multiple of `u`, and miss it by at most `u / 2` each. */
  ghost predicate SplitsTo(share: real, d: real, amount: real, u: real)
    requires d > 0.0 && u > 0.0
  {
    && (share * d == amount <==> IsMultiple(amount / d, u))
    && share * d - amount <= u / 2.0 * d && amount - share * d <= u / 2.0 * d
  }

  lemma EvenShares(d: real, amount: real, u: real)
    requires d > 0.0 && u > 0.0
    ensures SplitsTo(RoundTo(amount / d, u), d, amount, u)
  {
    var even := amount / d;
    var share := RoundTo(even, u);
    assert even * d == amount;
    RoundToExact(even, u);
    ScaleEqual(share, even, d, share * d, amount);
    ScaleClose(share, even, u / 2.0, d, share * d, amount, u / 2.0 * d);
  }

  function Magnitude(x: real): real {
    if x < 0.0 then -x else x
  }

  lemma QuotientIs(p: real, u: real, q: real)
    requires u > 0.0 && q * u == p
    ensures p / u == q
  {
    var r := p / u;
    assert r * u == p;
    ScaleEqual(r, q, u, p, p);
  }

  lemma QuotientNegated(p: real, u: real)
    requires u > 0.0
    ensures (-p) / u == -(p / u)
  {
    var q := p / u;
    assert q * u == p;
    assert -q * u == -(q * u);
    QuotientIs(-p, u, -q);
  }

  lemma WholeNegated(a: real)
    requires a.Floor as real == a
    ensures (-a).Floor as real == -a
  {
    var k := -a.Floor;
    assert k as real == -a;
    assert (k as real).Floor == k;
  }

  /** Rounding treats negative amounts like positive ones. */
  lemma SplitsToNegated(share: real, d: real, amount: real, u: real)
    requires d > 0.0 && u > 0.0 && SplitsTo(share, d, amount, u)
    ensures SplitsTo(-share, d, -amount, u)
  {
    QuotientNegated(amount, d);
    QuotientNegated(amount / d, u);
    var units := amount / d / u;
    if units.Floor as real == units {
      WholeNegated(units);
    } else if (-units).Floor as real == -units {
      WholeNegated(-units);
    }
    assert -share * d == -(share * d);
  }

  lemma NearestSplits(d: real, amount: real)
    requires d > 0.0
    ensures SplitsTo(Nearest(amount / d), d, amount, Spacing(Magnitude(amount / d)))
  {
    var x := amount / d;
    if x < 0.0 {
      QuotientNegated(amount, d);
      EvenShares(d, -amount, Spacing(-x));
      SplitsToNegated(RoundTo(-x, Spacing(-x)), d, -amount, Spacing(-x));
    } else {
      EvenShares(d, amount, Spacing(x));
    }
  }

  /**
    * Time and cost budgets are divided evenly. The shares together make up the request exactly when the even share is a
    * double, and otherwise miss it by at most half a spacing per job.
    */
  lemma EvenSharesConserve(budgets: Values, n: nat, name: string, i: nat, amount: real)
    requires AllDivisible(budgets) && i < n && !IsInteger(name) && name in budgets && budgets[name] == JFloat(amount)
    ensures Part(budgets, n, i)[name].JFloat?
    ensures SplitsTo(Part(budgets, n, i)[name].r, n as real, amount, Spacing(Magnitude(amount / n as real)))
  {
    NearestSplits(n as real, amount);
  }

  /** A whole number of seconds or cents is first converted to a double, which up to 2^53 changes nothing, and then divided in the same way. */
  lemma WholeSharesConserve(budgets: Values, n: nat, name: string, i: nat, whole: int)
    requires AllDivisible(budgets) && i < n && !IsInteger(name) && name in budgets && budgets[name] == JInt(whole)
    ensures var size: nat := if whole < 0 then -whole else whole;
            var amount := if whole < 0 then -(Round(size) as real) else Round(size) as real;
            && Part(budgets, n, i)[name].JFloat?
            && SplitsTo(Part(budgets, n, i)[name].r, n as real, amount, Spacing(Magnitude(amount / n as real)))
            && (amount == whole as real <==> size % Ulp(size) == 0)
            && (size <= TWO53 ==> amount == whole as real)
  {
    var size: nat := if whole < 0 then -whole else whole;
    var amount := if whole < 0 then -(Round(size) as real) else Round(size) as real;
    NearestSplits(n as real, amount);
    assert Divisible(name, budgets[name]);
    assert AsFloat(budgets[name]) == Ok(amount);
    RoundExact(size);
    if size <= TWO53 {
      SmallIsExact(size);
    }
  }

  /** A fractional request for an integer budget is cut to a whole number towards zero, which the shares add up to. */
  lemma FractionConserved(budgets: Values, n: nat, name: string, amount: real)
    requires AllDivisible(budgets) && n > 0 && IsInteger(name) && name in budgets && budgets[name] == JFloat(amount)
    ensures var total := Sum(Map(IntOf, Received(budgets, n, name)));
            amount > -1.0 && if amount < 0.0 then total == 0 else total as real <= amount < (total + 1) as real
  {
    assert Divisible(name, budgets[name]);
    var total: nat := if amount < 0.0 then 0 else amount.Floor;
    assert NonNegative(budgets[name]) == Ok(total);
    var received := Received(budgets, n, name);
    forall i | 0 <= i < n ensures received[i] == JInt(Share(total, n, i)) {
    }
    assert Map(IntOf, received) == Shares(total, n);
    SharesConserve(total, n);
  }

  /** A positive call or step quota gives every queued job at least one. */
  lemma QuotaReachesEveryJob(budgets: Values, sources: nat, name: string, index: nat)
    requires AllDivisible(budgets) && QuotasOk(budgets) && IsQuota(name) && name in budgets
    requires NonNegative(budgets[name]).value > 0 && index < Allowed(budgets, sources)
    ensures var part := Part(budgets, Allowed(budgets, sources), index);
            name in part && part[name].JInt? && part[name].n >= 1
  {
    assert Divisible(name, budgets[name]);
    assert IsNumber(budgets[name]);
    EnoughForAll(NonNegative(budgets[name]).value, Allowed(budgets, sources), index);
  }

  /** Above 2^53 a budget can lose a unit. */
  lemma LargeBudgetLoses()
    ensures var budgets: Values := map["max_tokens" := JInt(TWO53 + 1)];
            && AllDivisible(budgets)
            && Sum(Map(IntOf, Received(budgets, 1, "max_tokens"))) == TWO53
  {
    var budgets: Values := map["max_tokens" := JInt(TWO53 + 1)];
    FirstLoss();
    assert NonNegative(JInt(TWO53 + 1)) == Ok(TWO53);
    BudgetConserved(budgets, 1, "max_tokens", TWO53 + 1);
  }
}
