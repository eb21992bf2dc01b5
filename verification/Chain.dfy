/** Chains of archives: a base followed by increments. */
module Chains {
  import opened Basics
  import opened Archives
  import opened Captures

  function ChainEvents(chain: seq<Archive>): seq<Envelope> {
    if chain == [] then [] else ChainEvents(chain[..|chain| - 1]) + chain[|chain| - 1].events
  }

  predicate Linked(chain: seq<Archive>, i: nat)
    requires i < |chain|
  {
    var m := chain[i].manifest;
    && (if m.parentId != "" then i > 0 && m.parentId == chain[i - 1].manifest.archiveId else i == 0)
    && m.workspaceId == chain[0].manifest.workspaceId
    && (i > 0 ==> forall ns | ns in m.ranges :: m.ranges[ns].from == Watermark(chain[i - 1].manifest, ns) + 1)
  }

  /** The numbers 1, 2, 3, … in order. */
  ghost predicate FromOne(s: seq<int>) {
    forall i | 0 <= i < |s| :: s[i] == i + 1
  }

  ghost predicate FromOneIn(events: seq<Envelope>, ns: string) {
    FromOne(NumbersIn(events, ns))
  }

  /** The chains `load_chain` accepts. */
  ghost predicate ChainOk(h: Hasher, chain: seq<Archive>) {
    && chain != []
    && (forall a | a in chain :: Accepted(h, a))
    && (forall i | 0 <= i < |chain| :: Linked(chain, i))
    && (forall ns :: FromOneIn(ChainEvents(chain), ns))
  }

  lemma ChainSnoc(chain: seq<Archive>, a: Archive)
    ensures ChainEvents(chain + [a]) == ChainEvents(chain) + a.events
  {
    assert (chain + [a])[..|chain|] == chain;
  }

  lemma NumbersConcat(a: seq<Envelope>, b: seq<Envelope>, ns: string)
    ensures EventsIn(a + b, ns) == EventsIn(a, ns) + EventsIn(b, ns)
    ensures NumbersIn(a + b, ns) == NumbersIn(a, ns) + NumbersIn(b, ns)
  {
    FilterConcat(a, b, Within(ns));
  }

  lemma FromOnePrefix(a: seq<Envelope>, b: seq<Envelope>, ns: string)
    requires FromOneIn(a + b, ns)
    ensures FromOneIn(a, ns)
  {
    NumbersConcat(a, b, ns);
    assert forall i | 0 <= i < |NumbersIn(a, ns)| :: NumbersIn(a, ns)[i] == NumbersIn(a + b, ns)[i];
  }

  lemma {:induction false} ChainPrefix(chain: seq<Archive>, i: nat)
    requires i <= |chain|
    ensures exists rest :: ChainEvents(chain) == ChainEvents(chain[..i]) + rest
    decreases |chain| - i
  {
    if i == |chain| {
      assert chain[..i] == chain;
      assert ChainEvents(chain) == ChainEvents(chain[..i]) + [];
    } else {
      ChainPrefix(chain, i + 1);
      var rest :| ChainEvents(chain) == ChainEvents(chain[..i + 1]) + rest;
      assert chain[..i + 1] == chain[..i] + [chain[i]];
      ChainSnoc(chain[..i], chain[i]);
      assert ChainEvents(chain) == ChainEvents(chain[..i]) + (chain[i].events + rest);
    }
  }

  // ----- Loading -----

  /** What `prior_by_ns` holds after the events so far. */
  ghost predicate Tracks(events: seq<Envelope>, prior: map<string, int>, ns: string) {
    FromOneIn(events, ns) && (if ns in prior then prior[ns] else 0) == |NumbersIn(events, ns)|
  }

  ghost predicate Tracked(events: seq<Envelope>, prior: map<string, int>) {
    forall ns :: Tracks(events, prior, ns)
  }

  lemma TrackStep(events: seq<Envelope>, prior: map<string, int>, e: Envelope)
    requires Tracked(events, prior)
    ensures var last := if e.namespace in prior then prior[e.namespace] else 0;
            && (e.number == last + 1 ==> Tracked(events + [e], prior[e.namespace := e.number]))
            && (e.number != last + 1 ==> !FromOneIn(events + [e], e.namespace))
  {
    assert Tracks(events, prior, e.namespace);
    NumbersSnoc(events, e, e.namespace);
    var s := NumbersIn(events, e.namespace);
    assert (s + [e.number])[|s|] == e.number;
    if e.number == |s| + 1 {
      var events', prior' := events + [e], prior[e.namespace := e.number];
      forall ns ensures Tracks(events', prior', ns) {
        assert Tracks(events, prior, ns);
        NumbersSnoc(events, e, ns);
      }
    }
  }

  lemma BrokenStaysBroken(events: seq<Envelope>, more: seq<Envelope>, i: nat)
    requires i < |more| && !FromOneIn(events + more[..i] + [more[i]], more[i].namespace)
    ensures !FromOneIn(events + more, more[i].namespace)
  {
    var sofar, rest := events + more[..i] + [more[i]], more[i + 1..];
    assert events + more == sofar + rest;
    if FromOneIn(events + more, more[i].namespace) {
      FromOnePrefix(sofar, rest, more[i].namespace);
    }
  }

  /** No event lies before the range declared for its namespace. */
  predicate StartsInRange(ranges: map<string, Range>, events: seq<Envelope>) {
    forall e | e in events :: e.namespace in ranges && e.number >= ranges[e.namespace].from
  }

  lemma AcceptedStartsInRange(h: Hasher, a: Archive)
    requires Accepted(h, a)
    ensures StartsInRange(a.manifest.ranges, a.events)
  {
    forall e | e in a.events ensures e.number >= a.manifest.ranges[e.namespace].from {
      var r := a.manifest.ranges[e.namespace];
      assert RangeOk(a.events, a.manifest.watermarks, e.namespace, r);
      FilterMembers(a.events, Within(e.namespace));
      var rows := EventsIn(a.events, e.namespace);
      var i :| 0 <= i < |rows| && rows[i] == e;
      assert NumbersIn(a.events, e.namespace)[i] == e.number;
    }
  }

  /** The event loop of `load_chain` over one archive. */
  method AppendEvents(ranges: map<string, Range>, more: seq<Envelope>, events: seq<Envelope>, prior: map<string, int>)
    returns (r: Result<(seq<Envelope>, map<string, int>), ArchiveError>)
    requires StartsInRange(ranges, more) && Tracked(events, prior)
    ensures r.Ok? ==> r.value.0 == events + more && Tracked(r.value.0, r.value.1)
    ensures r.Err? ==> exists ns :: !FromOneIn(events + more, ns)
  {
    var all, last := events, prior;
    for i := 0 to |more|
      invariant all == events + more[..i]
      invariant Tracked(all, last)
    {
      var event := more[i];
      TrackStep(all, last, event);
      var before := if event.namespace in last then last[event.namespace] else 0;
      var start := if event.namespace in ranges then ranges[event.namespace].from else 1;
      if event.number < start || event.number != before + 1 {
        BrokenStaysBroken(events, more, i);
        return Err(GapOrOverlap);
      }
      last := last[event.namespace := event.number];
      all := all + [event];
    }
    return Ok((all, last));
  }

  /** The manifest loop of `load_chain`. */
  method CheckLinks(chain: seq<Archive>) returns (r: Result<(), ArchiveError>)
    ensures r.Ok? <==> forall i | 0 <= i < |chain| :: Linked(chain, i)
  {
    for i := 0 to |chain|
      invariant forall k | 0 <= k < i :: Linked(chain, k)
    {
      var m := chain[i].manifest;
      if m.parentId != "" {
        if i == 0 || m.parentId != chain[i - 1].manifest.archiveId {
          assert !Linked(chain, i);
          return Err(WrongParent);
        }
      } else if i != 0 {
        assert !Linked(chain, i);
        return Err(NotABase);
      }
      if m.workspaceId != chain[0].manifest.workspaceId {
        assert !Linked(chain, i);
        return Err(WorkspaceMismatch);
      }
      if i > 0 {
        var parent := chain[i - 1].manifest;
        var pending := m.ranges.Keys;
        while pending != {}
          invariant pending <= m.ranges.Keys
          invariant forall ns | ns in m.ranges && ns !in pending :: m.ranges[ns].from == Watermark(parent, ns) + 1
          decreases pending
        {
          var ns :| ns in pending;
          if m.ranges[ns].from != Watermark(parent, ns) + 1 {
            assert !Linked(chain, i);
            return Err(RangeDoesNotContinue);
          }
          pending := pending - {ns};
        }
      }
      assert Linked(chain, i);
    }
    return Ok(());
  }

  /** `load_chain` accepts exactly the chains that are linked and free of gaps and overlaps. */
  method LoadChain(h: Hasher, chain: seq<Archive>) returns (r: Result<(Manifest, seq<Envelope>), ArchiveError>)
    requires chain != []
    ensures r.Ok? <==> ChainOk(h, chain)
    ensures r.Ok? ==> r.value == (chain[|chain| - 1].manifest, ChainEvents(chain))
  {
    for i := 0 to |chain|
      invariant forall k | 0 <= k < i :: Accepted(h, chain[k])
    {
      var checked := VerifyArchive(h, chain[i]);
      if checked.Err? {
        assert chain[i] in chain;
        return Err(checked.error);
      }
    }
    var links := CheckLinks(chain);
    if links.Err? {
      return Err(links.error);
    }
    var events: seq<Envelope>, prior: map<string, int> := [], map[];
    for i := 0 to |chain|
      invariant events == ChainEvents(chain[..i]) && Tracked(events, prior)
    {
      ChainSnoc(chain[..i], chain[i]);
      assert chain[..i + 1] == chain[..i] + [chain[i]];
      ghost var sofar := ChainEvents(chain[..i + 1]);
      AcceptedStartsInRange(h, chain[i]);
      var step := AppendEvents(chain[i].manifest.ranges, chain[i].events, events, prior);
      if step.Err? {
        ghost var ns :| !FromOneIn(sofar, ns);
        ChainPrefix(chain, i + 1);
        ghost var rest :| ChainEvents(chain) == sofar + rest;
        if FromOneIn(ChainEvents(chain), ns) {
          FromOnePrefix(sofar, rest, ns);
        }
        return Err(step.error);
      }
      events, prior := step.value.0, step.value.1;
    }
    assert chain[..|chain|] == chain;
    forall ns ensures FromOneIn(ChainEvents(chain), ns) {
      assert Tracks(events, prior, ns);
    }
    return Ok((chain[|chain| - 1].manifest, events));
  }

  // ----- How far an accepted chain reaches -----

  /** The manifest states a range and a watermark for `ns`. */
  predicate Declares(m: Manifest, ns: string) {
    ns in m.ranges && ns in m.watermarks
  }

  /** Where the last unbroken stretch of archives that declare `ns` begins. */
  function StretchStart(chain: seq<Archive>, ns: string): (f: nat)
    requires chain != []
    ensures f < |chain|
    ensures forall i | f <= i < |chain| - 1 :: Declares(chain[i].manifest, ns)
    ensures f > 0 ==> !Declares(chain[f - 1].manifest, ns)
  {
    var n := |chain|;
    if n == 1 || !Declares(chain[n - 2].manifest, ns) then n - 1 else StretchStart(chain[..n - 1], ns)
  }

  lemma ChainOkPrefix(h: Hasher, chain: seq<Archive>)
    requires ChainOk(h, chain) && |chain| > 1
    ensures ChainOk(h, chain[..|chain| - 1])
  {
    var front, last := chain[..|chain| - 1], chain[|chain| - 1];
    forall i | 0 <= i < |front| ensures Linked(front, i) {
      assert Linked(chain, i);
    }
    forall ns ensures FromOneIn(ChainEvents(front), ns) {
      assert FromOneIn(ChainEvents(chain), ns);
      FromOnePrefix(ChainEvents(front), last.events, ns);
    }
  }

  function Total(chain: seq<Archive>, ns: string): int {
    |EventsIn(ChainEvents(chain), ns)|
  }

  lemma LastAdds(h: Hasher, chain: seq<Archive>, ns: string)
    requires ChainOk(h, chain) && Declares(chain[|chain| - 1].manifest, ns)
    ensures var last := chain[|chain| - 1].manifest;
            Total(chain, ns) == Total(chain[..|chain| - 1], ns) + last.watermarks[ns] - last.ranges[ns].from + 1
  {
    var last := chain[|chain| - 1];
    assert last in chain;
    var r := last.manifest.ranges[ns];
    assert RangeOk(last.events, last.manifest.watermarks, ns, r);
    NumbersConcat(ChainEvents(chain[..|chain| - 1]), last.events, ns);
    assert |EventsIn(last.events, ns)| == |NumbersIn(last.events, ns)| == r.to - r.from + 1;
  }

  /** The last stretch accounts for every event after its beginning. */
  lemma {:induction false} StretchCounts(h: Hasher, chain: seq<Archive>, ns: string)
    requires ChainOk(h, chain) && Declares(chain[|chain| - 1].manifest, ns)
    ensures var f, last := StretchStart(chain, ns), chain[|chain| - 1].manifest;
            && ns in chain[f].manifest.ranges
            && Total(chain, ns) == Total(chain[..f], ns) + last.watermarks[ns] - chain[f].manifest.ranges[ns].from + 1
  {
    LastAdds(h, chain, ns);
    var n := |chain|;
    if n > 1 && Declares(chain[n - 2].manifest, ns) {
      var front := chain[..n - 1];
      ChainOkPrefix(h, chain);
      StretchCounts(h, front, ns);
      assert Linked(chain, n - 1);
      assert front[..StretchStart(front, ns)] == chain[..StretchStart(front, ns)];
    }
  }

  /**
    * Every namespace of an accepted chain is numbered 1..k without gap or repeat. For a namespace the last manifest
    * declares, k is its final watermark exactly when its last stretch starts right after the events before it.
    */
  lemma ChainSound(h: Hasher, chain: seq<Archive>, ns: string)
    requires ChainOk(h, chain)
    ensures NumbersIn(ChainEvents(chain), ns) == Span(1, Total(chain, ns))
    ensures var last := chain[|chain| - 1].manifest;
            Declares(last, ns) ==>
              var f := StretchStart(chain, ns);
              && ns in chain[f].manifest.ranges
              && (Total(chain, ns) == last.watermarks[ns] <==> chain[f].manifest.ranges[ns].from == Total(chain[..f], ns) + 1)
  {
    assert FromOneIn(ChainEvents(chain), ns);
    if Declares(chain[|chain| - 1].manifest, ns) {
      StretchCounts(h, chain, ns);
    }
  }

  /** The namespace is declared without interruption once it appears, and is absent before. */
  predicate Uninterrupted(chain: seq<Archive>, ns: string)
    requires chain != []
  {
    var f := StretchStart(chain, ns);
    && (forall i | 0 <= i < f :: ns !in chain[i].manifest.ranges && ns !in chain[i].manifest.watermarks)
    && (f == 0 && ns in chain[0].manifest.ranges ==> chain[0].manifest.ranges[ns].from == 1)
  }

  lemma {:induction false} UndeclaredIsEmpty(h: Hasher, chain: seq<Archive>, ns: string)
    requires forall a | a in chain :: Accepted(h, a) && ns !in a.manifest.ranges
    ensures Total(chain, ns) == 0
  {
    if chain != [] {
      var front, last := chain[..|chain| - 1], chain[|chain| - 1];
      UndeclaredIsEmpty(h, front, ns);
      assert last in chain;
      FilterNone(last.events, Within(ns));
      NumbersConcat(ChainEvents(front), last.events, ns);
    }
  }

  /** When base ranges start at 1 and no namespace is dropped, an accepted chain reaches its final watermark. */
  lemma ChainReachesWatermark(h: Hasher, chain: seq<Archive>, ns: string)
    requires ChainOk(h, chain) && Declares(chain[|chain| - 1].manifest, ns) && Uninterrupted(chain, ns)
    ensures NumbersIn(ChainEvents(chain), ns) == Span(1, chain[|chain| - 1].manifest.watermarks[ns])
  {
    ChainSound(h, chain, ns);
    var f := StretchStart(chain, ns);
    forall a | a in chain[..f] ensures Accepted(h, a) && ns !in a.manifest.ranges {
    }
    UndeclaredIsEmpty(h, chain[..f], ns);
    assert Linked(chain, f);
  }

  /** A base whose one range is empty but starts past 1: accepted, yet its watermark counts events that are nowhere. */
  lemma WatermarkCanOverstate(h: Hasher)
    ensures var m := Manifest(2, "base", "", "w", map["ws:w:a" := 4], map["ws:w:a" := Range(5, 4)], 0, h.ofEvents([]), [], []);
            var chain := [Archive(m, [], [])];
            ChainOk(h, chain) && Total(chain, "ws:w:a") == 0 && m.watermarks["ws:w:a"] == 4
  {
    var m := Manifest(2, "base", "", "w", map["ws:w:a" := 4], map["ws:w:a" := Range(5, 4)], 0, h.ofEvents([]), [], []);
    var a := Archive(m, [], []);
    assert RangeOk(a.events, m.watermarks, "ws:w:a", Range(5, 4));
    assert Payloads(m) == map[];
    assert ChainEvents([]) == [];
    assert [a][..0] == [];
    assert ChainEvents([a]) == [];
  }
}
