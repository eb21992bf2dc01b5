/** What a restored target holds: the source logs, moved to the target workspace. */
module RestoreFacts {
  import opened Basics
  import opened Ordering
  import opened Archives
  import opened Captures
  import opened Chains
  import opened RoundTrips
  import opened Remaps
  import opened Namespaces
  import opened Restores

  lemma {:induction false} SortFixed(rows: seq<Envelope>)
    requires forall i, j | 0 <= i < j < |rows| :: rows[i].number <= rows[j].number
    ensures Sort(rows, ByNumber) == rows
  {
    if rows != [] {
      SortFixed(rows[1..]);
      assert rows == [rows[0]] + rows[1..];
    }
  }

  /** Sorting does nothing to rows that already count from 1. */
  lemma RowsInOrder(events: seq<Envelope>, ns: string)
    requires FromOneIn(events, ns)
    ensures Rows(events, ns) == EventsIn(events, ns) && CompleteRows(events, ns)
  {
    var rows := EventsIn(events, ns);
    assert forall i | 0 <= i < |rows| :: NumbersIn(events, ns)[i] == rows[i].number;
    SortFixed(rows);
  }

  /** All events belong to the workspace. */
  predicate BelongTo(events: seq<Envelope>, workspace: string) {
    forall e | e in events :: StartsWith(e.namespace, Prefix(workspace))
  }

  lemma RemapSame(ns: string, workspace: string)
    ensures RemapNamespace(ns, workspace, workspace) == ns
  {
    if StartsWith(ns, Prefix(workspace)) {
      PrefixedSplits(ns, workspace);
    }
  }

  lemma RemappedIn(events: seq<Envelope>, from: string, to: string, ns: string)
    requires BelongTo(events, from) && StartsWith(ns, Prefix(from))
    ensures EventsIn(Map(RemapEvent(from, to), events), RemapNamespace(ns, from, to)) ==
            Map(RemapEvent(from, to), EventsIn(events, ns))
  {
    forall e | e in events
      ensures Within(RemapNamespace(ns, from, to))(RemapEvent(from, to)(e)) == Within(ns)(e)
    {
      if RemapNamespace(e.namespace, from, to) == RemapNamespace(ns, from, to) {
        NamespaceInjective(e.namespace, ns, from, to);
      }
    }
    FilterMap(events, RemapEvent(from, to), Within(RemapNamespace(ns, from, to)), Within(ns));
  }

  /** Moving keeps the rows of each namespace together, in order. */
  lemma MovedIn(events: seq<Envelope>, from: string, to: string, ns: string)
    requires BelongTo(events, from) && StartsWith(ns, Prefix(from))
    ensures EventsIn(Moved(events, from, to), RemapNamespace(ns, from, to)) == Moved(EventsIn(events, ns), from, to)
  {
    if from == to {
      RemapSame(ns, from);
    } else {
      RemappedIn(events, from, to, ns);
    }
  }

  lemma MovedNumbers(rows: seq<Envelope>, from: string, to: string)
    ensures Map(NumberOf, Moved(rows, from, to)) == Map(NumberOf, rows)
  {
  }

  lemma MovedMember(events: seq<Envelope>, from: string, to: string, e: Envelope)
    requires e in Moved(events, from, to)
    ensures exists o | o in events :: e.namespace == RemapNamespace(o.namespace, from, to)
  {
    var i :| 0 <= i < |Moved(events, from, to)| && Moved(events, from, to)[i] == e;
    RemapSame(events[i].namespace, from);
    assert events[i] in events;
  }

  lemma MemberMoved(events: seq<Envelope>, from: string, to: string, o: Envelope)
    requires o in events
    ensures exists e | e in Moved(events, from, to) :: e.namespace == RemapNamespace(o.namespace, from, to)
  {
    var i :| 0 <= i < |events| && events[i] == o;
    RemapSame(o.namespace, from);
    assert Moved(events, from, to)[i] in Moved(events, from, to);
  }

  /** The rows a target namespace receives from events that count from 1 in every source namespace. */
  lemma MovedRows(events: seq<Envelope>, from: string, to: string, ns: string)
    requires BelongTo(events, from) && StartsWith(ns, Prefix(from)) && FromOneIn(events, ns)
    ensures var target := RemapNamespace(ns, from, to);
            && Rows(Moved(events, from, to), target) == Moved(EventsIn(events, ns), from, to)
            && CompleteRows(Moved(events, from, to), target)
  {
    MovedIn(events, from, to, ns);
    MovedNumbers(EventsIn(events, ns), from, to);
    RowsInOrder(Moved(events, from, to), RemapNamespace(ns, from, to));
  }

  lemma NoRows(events: seq<Envelope>, from: string, to: string, target: string)
    requires forall o | o in events :: RemapNamespace(o.namespace, from, to) != target
    ensures Rows(Moved(events, from, to), target) == [] && CompleteRows(Moved(events, from, to), target)
  {
    var moved := Moved(events, from, to);
    forall e | e in moved ensures e.namespace != target {
      MovedMember(events, from, to, e);
    }
    FilterNone(moved, Within(target));
  }

  /** Every target namespace gets complete rows from an accepted chain of one workspace. */
  lemma AlwaysComplete(events: seq<Envelope>, from: string, to: string, target: string)
    requires BelongTo(events, from) && forall ns :: FromOneIn(events, ns)
    ensures CompleteRows(Moved(events, from, to), target)
  {
    if o :| o in events && RemapNamespace(o.namespace, from, to) == target {
      MovedRows(events, from, to, o.namespace);
    } else {
      NoRows(events, from, to, target);
    }
  }

  /** What the emptiness check sees of a namespace: a log that begins with event 1, or backend data. A log that begins later passes for empty. */
  lemma OccupiedExactly(logs: Logs, graph: set<string>, ns: string)
    requires Stored(logs)
    ensures Occupied(logs, graph, ns) <==> (LogOf(logs, ns) != [] && LogOf(logs, ns)[0].number == 1) || ns in graph
  {
    var log, firsts := LogOf(logs, ns), Between(LogOf(logs, ns), 1, 1);
    FilterMembers(log, Numbered(1, 1));
    forall i | 0 <= i < |log| && log[i].number == 1 ensures i == 0 {
      assert log[0] in log;
    }
    assert log != [] ==> log[0] in log;
    assert firsts != [] ==> firsts[0] in firsts;
  }

  /** For an accepted chain of one workspace, the checks come down to support and emptiness of the target. */
  lemma RestorableExactly(h: Hasher, chain: seq<Archive>, from: string, to: string, logs: Logs, graph: set<string>, names: seq<string>)
    requires ChainOk(h, chain) && BelongTo(ChainEvents(chain), from)
    ensures Restorable(logs, graph, Moved(ChainEvents(chain), from, to), names) <==>
            && (forall o | o in ChainEvents(chain) :: RemapNamespace(o.namespace, from, to) in names)
            && (forall ns | ns in names :: !Occupied(logs, graph, ns))
  {
    var events := ChainEvents(chain);
    var moved := Moved(events, from, to);
    forall ns ensures CompleteRows(moved, ns) {
      AlwaysComplete(events, from, to, ns);
    }
    if forall o | o in events :: RemapNamespace(o.namespace, from, to) in names {
      forall e | e in moved ensures e.namespace in names {
        MovedMember(events, from, to, e);
      }
    }
    if forall e | e in moved :: e.namespace in names {
      forall o | o in events ensures RemapNamespace(o.namespace, from, to) in names {
        MemberMoved(events, from, to, o);
      }
    }
  }

  // ----- The round trip -----

  /** The stages archive the namespaces of `workspace`, with or without derived knowledge. */
  ghost predicate Of(stages: seq<Stage>, workspace: string) {
    forall s | s in stages :: s.names in {WorkspaceNames(workspace, false), WorkspaceNames(workspace, true)}
  }

  lemma CarriedBelong(chain: seq<Archive>, stage: Stage, workspace: string)
    requires Carries(chain, stage) && stage.names in {WorkspaceNames(workspace, false), WorkspaceNames(workspace, true)}
    ensures forall e | e in ChainEvents(chain) :: e.namespace in stage.names
    ensures BelongTo(ChainEvents(chain), workspace)
  {
    NamesDistinct(workspace, false);
    NamesDistinct(workspace, true);
    forall e | e in ChainEvents(chain) ensures e.namespace in stage.names {
      FilterMembers(ChainEvents(chain), Within(e.namespace));
      assert e in EventsIn(ChainEvents(chain), e.namespace);
      assert CarriesLog(chain, stage, e.namespace);
    }
  }

  /** The target workspace has a namespace for every namespace the chain holds events of. */
  lemma Supported(chain: seq<Archive>, stage: Stage, from: string, to: string, derived: bool)
    requires Carries(chain, stage)
    requires stage.names == WorkspaceNames(from, false) || (stage.names == WorkspaceNames(from, true) && derived)
    ensures forall o | o in ChainEvents(chain) :: RemapNamespace(o.namespace, from, to) in WorkspaceNames(to, derived)
  {
    CarriedBelong(chain, stage, from);
    forall o | o in ChainEvents(chain) ensures RemapNamespace(o.namespace, from, to) in WorkspaceNames(to, derived) {
      if derived && stage.names == WorkspaceNames(from, false) {
        MoreNames(from, o.namespace);
      }
      NamesRemap(from, to, derived, o.namespace);
    }
  }

  /**
    * Growing logs archived as a base plus increments and restored into an empty target: the chain is accepted, the
    * checks pass, and each namespace of the target receives exactly the final source log, moved to the target workspace:
    * as many rows, each with the number, id, entity, operation and time of its source event, and its payload remapped.
    */
  lemma RestoreRoundTrip(h: Hasher, from: string, to: string, stages: seq<Stage>, derived: bool, logs: Logs, graph: set<string>)
    requires h.Faithful() && Growing(stages) && Of(stages, from)
    requires stages[|stages| - 1].names == WorkspaceNames(from, true) ==> derived
    requires forall ns | ns in WorkspaceNames(to, derived) :: LogOf(logs, ns) == [] && ns !in graph
    ensures var chain, last := MakeChain(h, from, stages), stages[|stages| - 1];
            var moved := Moved(ChainEvents(chain), from, to);
            && ChainOk(h, chain) && chain[|chain| - 1].manifest.workspaceId == from
            && Restorable(logs, graph, moved, WorkspaceNames(to, derived))
            && forall ns | ns in last.names ::
                 StartsWith(ns, Prefix(from)) && MovedEach(LogOf(last.logs, ns), Rows(moved, Prefix(to) + ns[|Prefix(from)|..]), from, to)
  {
    var chain, last := MakeChain(h, from, stages), stages[|stages| - 1];
    assert last in stages;
    ChainRoundTrip(h, from, stages);
    CarriedBelong(chain, last, from);
    Supported(chain, last, from, to, derived);
    RestorableExactly(h, chain, from, to, logs, graph, WorkspaceNames(to, derived));
    NamesDistinct(from, false);
    NamesDistinct(from, true);
    var moved := Moved(ChainEvents(chain), from, to);
    forall ns | ns in last.names
      ensures StartsWith(ns, Prefix(from)) && MovedEach(LogOf(last.logs, ns), Rows(moved, Prefix(to) + ns[|Prefix(from)|..]), from, to)
    {
      assert CarriesLog(chain, last, ns);
      assert FromOneIn(ChainEvents(chain), ns);
      MovedRows(ChainEvents(chain), from, to, ns);
      MovedExact(LogOf(last.logs, ns), from, to);
    }
  }

  /** Nothing else is written: a namespace that is not one of the archived ones in the target workspace receives no rows. */
  lemma NothingElseRestored(h: Hasher, from: string, to: string, stages: seq<Stage>, target: string)
    requires h.Faithful() && Growing(stages) && Of(stages, from)
    requires forall ns | ns in stages[|stages| - 1].names && StartsWith(ns, Prefix(from)) :: Prefix(to) + ns[|Prefix(from)|..] != target
    ensures Rows(Moved(ChainEvents(MakeChain(h, from, stages)), from, to), target) == []
  {
    var chain, last := MakeChain(h, from, stages), stages[|stages| - 1];
    assert last in stages;
    ChainRoundTrip(h, from, stages);
    CarriedBelong(chain, last, from);
    NoRows(ChainEvents(chain), from, to, target);
  }

  lemma SameRows(a: seq<Envelope>, b: seq<Envelope>, from: string, to: string, target: string)
    requires BelongTo(a, from) && BelongTo(b, from)
    requires forall ns :: FromOneIn(a, ns) && EventsIn(a, ns) == EventsIn(b, ns)
    ensures Rows(Moved(a, from, to), target) == Rows(Moved(b, from, to), target)
  {
    forall e ensures e in a <==> e in b {
      FilterMembers(a, Within(e.namespace));
      FilterMembers(b, Within(e.namespace));
      assert e in EventsIn(a, e.namespace) <==> e in EventsIn(b, e.namespace);
    }
    if o :| o in a && RemapNamespace(o.namespace, from, to) == target {
      assert FromOneIn(a, o.namespace) && EventsIn(a, o.namespace) == EventsIn(b, o.namespace);
      MovedRows(a, from, to, o.namespace);
      MovedRows(b, from, to, o.namespace);
    } else {
      NoRows(a, from, to, target);
      NoRows(b, from, to, target);
    }
  }

  /** Restoring the chain writes, in every namespace, the rows that restoring one full archive writes. */
  lemma RestoreEqualsFullRestore(h: Hasher, from: string, to: string, stages: seq<Stage>, target: string)
    requires h.Faithful() && Growing(stages) && Of(stages, from)
    ensures var chain, full := MakeChain(h, from, stages), MakeChain(h, from, [stages[|stages| - 1]]);
            Rows(Moved(ChainEvents(chain), from, to), target) == Rows(Moved(ChainEvents(full), from, to), target)
  {
    var last := stages[|stages| - 1];
    assert last in stages;
    var chain, full := MakeChain(h, from, stages), MakeChain(h, from, [last]);
    ChainRoundTrip(h, from, stages);
    BaseChain(h, from, last);
    CarriedBelong(chain, last, from);
    CarriedBelong(full, last, from);
    var a, b := ChainEvents(chain), ChainEvents(full);
    forall ns ensures FromOneIn(a, ns) && EventsIn(a, ns) == EventsIn(b, ns) {
      assert CarriesLog(chain, last, ns) && CarriesLog(full, last, ns);
    }
    SameRows(a, b, from, to, target);
  }
}
