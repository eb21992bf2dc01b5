/** Archiving growing logs as a base plus increments loses nothing. */
module RoundTrips {
  import opened Basics
  import opened Archives
  import opened Captures
  import opened Chains

  /** An append-only log without gaps: its events are numbered 1, 2, 3, … */
  ghost predicate WholeLog(log: seq<Envelope>, ns: string) {
    forall i | 0 <= i < |log| :: log[i].namespace == ns && log[i].number == i + 1
  }

  ghost predicate StageOk(stage: Stage) {
    && stage.id != "" && NoDup(stage.names) && PayloadFilesOk(stage)
    && (forall ns | ns in stage.logs :: WholeLog(stage.logs[ns], ns))
  }

  /** Namespaces are only added and logs only appended to. */
  ghost predicate Grows(earlier: Stage, later: Stage) {
    && (forall ns | ns in earlier.names :: ns in later.names)
    && (forall ns | ns in earlier.names :: LogOf(earlier.logs, ns) <= LogOf(later.logs, ns))
  }

  ghost predicate Growing(stages: seq<Stage>) {
    && stages != []
    && (forall i | 0 <= i < |stages| :: StageOk(stages[i]))
    && (forall i | 0 < i < |stages| :: Grows(stages[i - 1], stages[i]))
  }

  function Parent(chain: seq<Archive>): Option<Archive> {
    if chain == [] then None else Some(chain[|chain| - 1])
  }

  /** The base archive of the first stage and one increment for each later stage. */
  function MakeChain(h: Hasher, workspace: string, stages: seq<Stage>): (chain: seq<Archive>)
    ensures |chain| == |stages|
  {
    if stages == [] then []
    else
      var front := MakeChain(h, workspace, stages[..|stages| - 1]);
      front + [Capture(h, workspace, stages[|stages| - 1], Parent(front))]
  }

  /** The chain carries exactly the logs of `stage`. */
  ghost predicate Carries(chain: seq<Archive>, stage: Stage) {
    forall ns :: CarriesLog(chain, stage, ns)
  }

  ghost predicate CarriesLog(chain: seq<Archive>, stage: Stage, ns: string) {
    EventsIn(ChainEvents(chain), ns) == if ns in stage.names then LogOf(stage.logs, ns) else []
  }

  /** What is known of the chain's end: it is the capture of `stage`. */
  ghost predicate EndsAt(chain: seq<Archive>, workspace: string, stage: Stage) {
    && chain != []
    && var m := chain[|chain| - 1].manifest;
    && m.archiveId == stage.id && m.workspaceId == chain[0].manifest.workspaceId == workspace
    && m.watermarks.Keys == m.ranges.Keys == Elems(stage.names)
    && (forall ns | ns in stage.names :: m.watermarks[ns] == |LogOf(stage.logs, ns)|)
  }

  lemma WholeIsStored(stage: Stage)
    requires StageOk(stage)
    ensures Stored(stage.logs)
    ensures forall ns :: WholeLog(LogOf(stage.logs, ns), ns) && Latest(LogOf(stage.logs, ns)) == |LogOf(stage.logs, ns)|
  {
    forall ns ensures WholeLog(LogOf(stage.logs, ns), ns) && Latest(LogOf(stage.logs, ns)) == |LogOf(stage.logs, ns)| {
    }
    forall ns | ns in stage.logs ensures StoredLog(stage.logs[ns], ns) {
      assert WholeLog(stage.logs[ns], ns);
    }
  }

  /** Reading a whole log from `p + 1` gives what comes after its first `p` events. */
  lemma BetweenIsSuffix(log: seq<Envelope>, ns: string, p: nat)
    requires WholeLog(log, ns) && p <= |log|
    ensures Between(log, p + 1, |log|) == log[p..]
  {
    var f := Numbered(p + 1, |log|);
    var before, after := log[..p], log[p..];
    assert log == before + after;
    FilterConcat(before, after, f);
    forall e | e in before ensures !f(e) {
      var i :| 0 <= i < p && log[i] == e;
    }
    FilterNone(before, f);
    forall e | e in after ensures f(e) {
      var i :| 0 <= i < |after| && after[i] == e;
      assert e == log[p + i];
    }
    FilterAll(after, f);
  }

  lemma SuffixNumbers(log: seq<Envelope>, ns: string, p: nat)
    requires WholeLog(log, ns) && p <= |log|
    ensures Map(NumberOf, log[p..]) == Span(p + 1, |log|)
  {
    var after := log[p..];
    assert forall i | 0 <= i < |after| :: after[i] == log[p + i];
  }

  /** Where a parent archive of `earlier` stops, seen from a later stage. */
  lemma PriorOf(chain: seq<Archive>, workspace: string, earlier: Stage, later: Stage, ns: string)
    requires EndsAt(chain, workspace, earlier) && Grows(earlier, later)
    ensures Prior(Parent(chain), ns) == if ns in earlier.names then |LogOf(earlier.logs, ns)| else 0
    ensures ns in earlier.names ==> LogOf(earlier.logs, ns) <= LogOf(later.logs, ns)
  {
    assert ns in earlier.names <==> ns in Elems(earlier.names);
  }

  lemma ExportIsSuffix(chain: seq<Archive>, workspace: string, earlier: Stage, later: Stage, ns: string)
    requires EndsAt(chain, workspace, earlier) && Grows(earlier, later) && StageOk(later)
    ensures Readable(later.logs, Parent(chain), ns)
    ensures Exported(later.logs, Parent(chain), ns) == LogOf(later.logs, ns)[Prior(Parent(chain), ns)..]
  {
    WholeIsStored(later);
    PriorOf(chain, workspace, earlier, later, ns);
    var log, p := LogOf(later.logs, ns), Prior(Parent(chain), ns);
    assert WholeLog(log, ns) && 0 <= p <= |log|;
    assert RangeFor(later.logs, Parent(chain), ns) == Range(p + 1, |log|);
    BetweenIsSuffix(log, ns, p);
    SuffixNumbers(log, ns, p);
  }

  lemma PrefixAndRest<T>(a: seq<T>, b: seq<T>)
    requires a <= b
    ensures a + b[|a|..] == b
  {
  }

  lemma IncrementIn(h: Hasher, chain: seq<Archive>, workspace: string, earlier: Stage, later: Stage, ns: string)
    requires EndsAt(chain, workspace, earlier) && Grows(earlier, later) && StageOk(later)
    ensures ns in earlier.names ==> ns in later.names && LogOf(earlier.logs, ns) <= LogOf(later.logs, ns)
    ensures EventsIn(Capture(h, workspace, later, Parent(chain)).events, ns) ==
            if ns in earlier.names then LogOf(later.logs, ns)[|LogOf(earlier.logs, ns)|..]
            else if ns in later.names then LogOf(later.logs, ns) else []
  {
    WholeIsStored(later);
    ExportIn(later.logs, Parent(chain), later.names, ns);
    ExportIsSuffix(chain, workspace, earlier, later, ns);
    PriorOf(chain, workspace, earlier, later, ns);
    assert LogOf(later.logs, ns)[0..] == LogOf(later.logs, ns);
  }

  lemma ExtendCarries(h: Hasher, chain: seq<Archive>, workspace: string, earlier: Stage, later: Stage, ns: string)
    requires EndsAt(chain, workspace, earlier) && Grows(earlier, later) && StageOk(later)
    requires CarriesLog(chain, earlier, ns)
    ensures CarriesLog(chain + [Capture(h, workspace, later, Parent(chain))], later, ns)
  {
    var next := Capture(h, workspace, later, Parent(chain));
    ChainSnoc(chain, next);
    NumbersConcat(ChainEvents(chain), next.events, ns);
    IncrementIn(h, chain, workspace, earlier, later, ns);
    if ns in earlier.names {
      PrefixAndRest(LogOf(earlier.logs, ns), LogOf(later.logs, ns));
    }
  }

  lemma CaptureEnds(h: Hasher, chain: seq<Archive>, workspace: string, stage: Stage)
    requires StageOk(stage) && (chain != [] ==> chain[0].manifest.workspaceId == workspace)
    ensures EndsAt(chain + [Capture(h, workspace, stage, Parent(chain))], workspace, stage)
  {
    WholeIsStored(stage);
    var a := Capture(h, workspace, stage, Parent(chain));
    assert (chain + [a])[|chain|] == a;
    assert a.manifest.ranges.Keys == Elems(stage.names);
    assert a.manifest.watermarks.Keys == Elems(stage.names);
  }

  lemma CarriedIsFromOne(chain: seq<Archive>, stage: Stage, ns: string)
    requires StageOk(stage) && CarriesLog(chain, stage, ns)
    ensures FromOneIn(ChainEvents(chain), ns)
  {
    WholeIsStored(stage);
  }

  lemma ExtendLinked(chain: seq<Archive>, a: Archive, i: nat)
    requires i < |chain| && Linked(chain, i)
    ensures Linked(chain + [a], i)
  {
  }

  lemma LinkLast(h: Hasher, chain: seq<Archive>, workspace: string, earlier: Stage, later: Stage)
    requires EndsAt(chain, workspace, earlier) && earlier.id != ""
    ensures Linked(chain + [Capture(h, workspace, later, Parent(chain))], |chain|)
  {
  }

  lemma BaseExport(stage: Stage, ns: string)
    requires StageOk(stage)
    ensures Readable(stage.logs, None, ns) && Exported(stage.logs, None, ns) == LogOf(stage.logs, ns)
  {
    WholeIsStored(stage);
    var log := LogOf(stage.logs, ns);
    BetweenIsSuffix(log, ns, 0);
    SuffixNumbers(log, ns, 0);
    assert log[0..] == log;
  }

  lemma BaseCarries(h: Hasher, workspace: string, stage: Stage)
    requires StageOk(stage)
    ensures Carries([Capture(h, workspace, stage, None)], stage)
  {
    var a := Capture(h, workspace, stage, None);
    WholeIsStored(stage);
    ChainSnoc([], a);
    assert [] + [a] == [a];
    assert ChainEvents([a]) == a.events;
    forall ns ensures CarriesLog([a], stage, ns) {
      BaseExport(stage, ns);
      ExportIn(stage.logs, None, stage.names, ns);
    }
  }

  lemma BaseIsOne(h: Hasher, workspace: string, stage: Stage)
    ensures MakeChain(h, workspace, [stage]) == [Capture(h, workspace, stage, None)]
  {
    assert [stage][..0] == [];
  }

  lemma BaseAccepted(h: Hasher, workspace: string, stage: Stage)
    requires h.Faithful() && StageOk(stage)
    ensures Accepted(h, Capture(h, workspace, stage, None))
  {
    WholeIsStored(stage);
    forall ns | ns in stage.names ensures Readable(stage.logs, None, ns) {
      BaseExport(stage, ns);
    }
    CaptureAccepted(h, workspace, stage, None);
  }

  lemma BaseOk(h: Hasher, workspace: string, stage: Stage)
    requires h.Faithful() && StageOk(stage)
    ensures ChainOk(h, [Capture(h, workspace, stage, None)])
  {
    var chain := [Capture(h, workspace, stage, None)];
    BaseAccepted(h, workspace, stage);
    BaseCarries(h, workspace, stage);
    forall ns ensures FromOneIn(ChainEvents(chain), ns) {
      assert CarriesLog(chain, stage, ns);
      CarriedIsFromOne(chain, stage, ns);
    }
    assert Linked(chain, 0);
  }

  lemma BaseChain(h: Hasher, workspace: string, stage: Stage)
    requires h.Faithful() && StageOk(stage)
    ensures var chain := MakeChain(h, workspace, [stage]);
            ChainOk(h, chain) && Carries(chain, stage) && EndsAt(chain, workspace, stage)
    ensures forall ns :: Readable(stage.logs, None, ns)
  {
    BaseIsOne(h, workspace, stage);
    assert [] + [Capture(h, workspace, stage, None)] == [Capture(h, workspace, stage, None)];
    CaptureEnds(h, [], workspace, stage);
    BaseCarries(h, workspace, stage);
    BaseOk(h, workspace, stage);
    forall ns ensures Readable(stage.logs, None, ns) {
      BaseExport(stage, ns);
    }
  }

  lemma ExtendReadable(chain: seq<Archive>, workspace: string, earlier: Stage, later: Stage)
    requires EndsAt(chain, workspace, earlier) && StageOk(later) && Grows(earlier, later)
    ensures forall ns :: Readable(later.logs, Parent(chain), ns)
  {
    forall ns ensures Readable(later.logs, Parent(chain), ns) {
      ExportIsSuffix(chain, workspace, earlier, later, ns);
    }
  }

  lemma ExtendAccepted(h: Hasher, chain: seq<Archive>, workspace: string, earlier: Stage, later: Stage)
    requires h.Faithful() && EndsAt(chain, workspace, earlier) && StageOk(later) && Grows(earlier, later)
    ensures Accepted(h, Capture(h, workspace, later, Parent(chain)))
  {
    WholeIsStored(later);
    ExtendReadable(chain, workspace, earlier, later);
    CaptureAccepted(h, workspace, later, Parent(chain));
  }

  lemma ExtendLinks(h: Hasher, chain: seq<Archive>, workspace: string, earlier: Stage, later: Stage)
    requires EndsAt(chain, workspace, earlier) && earlier.id != ""
    requires forall i | 0 <= i < |chain| :: Linked(chain, i)
    ensures var longer := chain + [Capture(h, workspace, later, Parent(chain))];
            forall i | 0 <= i < |longer| :: Linked(longer, i)
  {
    var a := Capture(h, workspace, later, Parent(chain));
    var longer := chain + [a];
    forall i | 0 <= i < |longer| ensures Linked(longer, i) {
      if i < |chain| {
        ExtendLinked(chain, a, i);
      } else {
        LinkLast(h, chain, workspace, earlier, later);
      }
    }
  }

  lemma ExtendChain(h: Hasher, chain: seq<Archive>, workspace: string, earlier: Stage, later: Stage)
    requires h.Faithful() && ChainOk(h, chain) && Carries(chain, earlier) && EndsAt(chain, workspace, earlier)
    requires StageOk(earlier) && StageOk(later) && Grows(earlier, later)
    ensures var longer := chain + [Capture(h, workspace, later, Parent(chain))];
            ChainOk(h, longer) && Carries(longer, later)
  {
    var a := Capture(h, workspace, later, Parent(chain));
    var longer := chain + [a];
    ExtendAccepted(h, chain, workspace, earlier, later);
    ExtendLinks(h, chain, workspace, earlier, later);
    forall ns ensures CarriesLog(longer, later, ns) && FromOneIn(ChainEvents(longer), ns) {
      assert CarriesLog(chain, earlier, ns);
      ExtendCarries(h, chain, workspace, earlier, later, ns);
      CarriedIsFromOne(longer, later, ns);
    }
  }

  lemma GrowingPrefix(stages: seq<Stage>)
    requires Growing(stages) && |stages| > 1
    ensures Growing(stages[..|stages| - 1])
  {
    var front := stages[..|stages| - 1];
    forall i | 0 < i < |front| ensures Grows(front[i - 1], front[i]) {
      assert Grows(stages[i - 1], stages[i]);
    }
  }

  /** The archives of growing logs can all be made, form an accepted chain, and carry the final logs unchanged. */
  lemma {:induction false} ChainRoundTrip(h: Hasher, workspace: string, stages: seq<Stage>)
    requires h.Faithful() && Growing(stages)
    ensures var chain := MakeChain(h, workspace, stages);
            ChainOk(h, chain) && Carries(chain, stages[|stages| - 1]) && EndsAt(chain, workspace, stages[|stages| - 1])
    ensures var before, logs := MakeChain(h, workspace, stages[..|stages| - 1]), stages[|stages| - 1].logs;
            AllReadable(logs, Parent(before), stages[|stages| - 1].names)
  {
    var n := |stages|;
    if n == 1 {
      assert stages == [stages[0]];
      assert stages[..0] == [];
      BaseChain(h, workspace, stages[0]);
    } else {
      var front := stages[..n - 1];
      GrowingPrefix(stages);
      ChainRoundTrip(h, workspace, front);
      var chain := MakeChain(h, workspace, front);
      ExtendChain(h, chain, workspace, stages[n - 2], stages[n - 1]);
      ExtendReadable(chain, workspace, stages[n - 2], stages[n - 1]);
      CaptureEnds(h, chain, workspace, stages[n - 1]);
    }
  }

  /** Base plus increments carry what one full archive of the final logs carries. */
  lemma ChainEqualsFullArchive(h: Hasher, workspace: string, stages: seq<Stage>)
    requires h.Faithful() && Growing(stages)
    ensures var chain, full := MakeChain(h, workspace, stages), MakeChain(h, workspace, [stages[|stages| - 1]]);
            && ChainOk(h, full)
            && forall ns :: EventsIn(ChainEvents(chain), ns) == EventsIn(ChainEvents(full), ns)
  {
    var last := stages[|stages| - 1];
    var chain, full := MakeChain(h, workspace, stages), MakeChain(h, workspace, [last]);
    ChainRoundTrip(h, workspace, stages);
    BaseChain(h, workspace, last);
    forall ns ensures EventsIn(ChainEvents(chain), ns) == EventsIn(ChainEvents(full), ns) {
      assert CarriesLog(chain, last, ns) && CarriesLog(full, last, ns);
    }
  }
}
