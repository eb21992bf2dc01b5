/** Restoring a chain of archives into an empty target. */
module Restores {
  import opened Basics
  import opened Ordering
  import opened Archives
  import opened Captures
  import opened Chains
  import opened Remaps
  import opened Namespaces
  import opened Artifacts

  const ByNumber: (Envelope, Envelope) -> bool := (a: Envelope, b: Envelope) => a.number <= b.number

  /** The events as the target workspace will hold them. */
  function Moved(events: seq<Envelope>, from: string, to: string): seq<Envelope> {
    if from == to then events else Map(RemapEvent(from, to), events)
  }

  /** Event by event, what moving means. */
  ghost predicate MovedEach(events: seq<Envelope>, moved: seq<Envelope>, from: string, to: string) {
    |moved| == |events| && forall k | 0 <= k < |events| :: IsMoved(events[k], moved[k], from, to)
  }

  lemma MovedExact(events: seq<Envelope>, from: string, to: string)
    ensures MovedEach(events, Moved(events, from, to), from, to)
  {
    forall k | 0 <= k < |events| ensures IsMoved(events[k], Moved(events, from, to)[k], from, to) {
      if from == to && StartsWith(events[k].namespace, Prefix(from)) {
        PrefixedSplits(events[k].namespace, from);
      }
    }
  }

  function TargetWorkspace(requested: string, source: string): string {
    if requested != "" then requested else source
  }

  /** The rows that go into one namespace of the target. */
  function Rows(events: seq<Envelope>, ns: string): seq<Envelope> {
    Sort(EventsIn(events, ns), ByNumber)
  }

  ghost predicate CompleteRows(events: seq<Envelope>, ns: string) {
    FromOne(Map(NumberOf, Rows(events, ns)))
  }

  /** Anything in the namespace that a restore would mix with. */
  predicate Occupied(logs: Logs, graph: set<string>, ns: string) {
    Between(LogOf(logs, ns), 1, 1) != [] || ns in graph
  }

  /** What the checks before any write demand. */
  ghost predicate Restorable(logs: Logs, graph: set<string>, events: seq<Envelope>, names: seq<string>) {
    && (forall e | e in events :: e.namespace in names)
    && (forall ns :: CompleteRows(events, ns))
    && (forall ns | ns in names :: !Occupied(logs, graph, ns))
  }

  function NamespacesOf(events: seq<Envelope>): set<string> {
    set e | e in events :: e.namespace
  }

  datatype Report = Report(archiveId: string, source: string, target: string, dryRun: bool, imported: nat, replayed: nat)

  // ----- Checks, none of which writes -----

  method MoveEvents(events: seq<Envelope>, from: string, to: string, names: seq<string>)
    returns (r: Result<seq<Envelope>, ArchiveError>)
    ensures r.Ok? <==> forall e | e in Moved(events, from, to) :: e.namespace in names
    ensures r.Ok? ==> r.value == Moved(events, from, to) && MovedEach(events, r.value, from, to)
  {
    MovedExact(events, from, to);
    var moved: seq<Envelope> := [];
    ghost var all := Moved(events, from, to);
    for i := 0 to |events|
      invariant moved == all[..i]
      invariant forall k | 0 <= k < i :: all[k].namespace in names
    {
      var event := if from != to then RemapEvent(from, to)(events[i]) else events[i];
      assert event == all[i];
      if event.namespace !in names {
        return Err(UnsupportedNamespace);
      }
      moved := moved + [event];
    }
    return Ok(moved);
  }

  ghost predicate Grouped(events: seq<Envelope>, groups: map<string, seq<Envelope>>) {
    forall ns :: GroupFor(events, groups, ns)
  }

  ghost predicate GroupFor(events: seq<Envelope>, groups: map<string, seq<Envelope>>, ns: string) {
    EventsIn(events, ns) == (if ns in groups then groups[ns] else []) && (ns in groups ==> groups[ns] != [])
  }

  method GroupByNamespace(events: seq<Envelope>) returns (groups: map<string, seq<Envelope>>)
    ensures Grouped(events, groups) && groups.Keys == NamespacesOf(events)
  {
    groups := map[];
    for i := 0 to |events|
      invariant Grouped(events[..i], groups) && groups.Keys == NamespacesOf(events[..i])
    {
      var event := events[i];
      var before := if event.namespace in groups then groups[event.namespace] else [];
      GroupStep(events[..i], groups, event);
      assert events[..i + 1] == events[..i] + [event];
      groups := groups[event.namespace := before + [event]];
    }
    assert events[..|events|] == events;
  }

  lemma GroupStep(events: seq<Envelope>, groups: map<string, seq<Envelope>>, e: Envelope)
    requires Grouped(events, groups)
    ensures Grouped(events + [e], groups[e.namespace := (if e.namespace in groups then groups[e.namespace] else []) + [e]])
  {
    var events' := events + [e];
    var groups' := groups[e.namespace := (if e.namespace in groups then groups[e.namespace] else []) + [e]];
    forall ns ensures GroupFor(events', groups', ns) {
      assert GroupFor(events, groups, ns);
      FilterSnoc(events, e, Within(ns));
    }
  }

  method CheckComplete(rows: seq<Envelope>) returns (ok: bool)
    ensures ok <==> FromOne(Map(NumberOf, rows))
  {
    var expected := 1;
    for i := 0 to |rows|
      invariant expected == i + 1
      invariant forall k | 0 <= k < i :: rows[k].number == k + 1
    {
      if rows[i].number != expected {
        assert Map(NumberOf, rows)[i] != i + 1;
        return false;
      }
      expected := expected + 1;
    }
    return true;
  }

  class Target {
    var logs: Logs
    /** The namespaces whose backend already holds nodes or edges. */
    var graph: set<string>
    /** The namespaces whose engine can rebuild its projections from events. */
    var replayable: set<string>
    /** Up to which event the projections of a namespace were rebuilt. */
    var replayed: map<string, int>

    /** Sorts every group and checks that it is complete and its namespace empty. */
    method CheckGroups(groups: map<string, seq<Envelope>>, ghost events: seq<Envelope>)
      returns (r: Result<map<string, seq<Envelope>>, ArchiveError>)
      requires Grouped(events, groups)
      ensures r.Ok? ==> && (forall ns :: CompleteRows(events, ns))
                        && r.value.Keys == groups.Keys && (forall ns | ns in groups :: r.value[ns] == Rows(events, ns))
      ensures r.Err? ==> (exists ns :: !CompleteRows(events, ns)) || (exists ns | ns in groups :: Occupied(logs, graph, ns))
    {
      var sorted: map<string, seq<Envelope>> := map[];
      var pending := groups.Keys;
      while pending != {}
        invariant pending <= groups.Keys && sorted.Keys == groups.Keys - pending
        invariant forall ns | ns in sorted :: sorted[ns] == Rows(events, ns) && CompleteRows(events, ns)
        decreases pending
      {
        var ns :| ns in pending;
        assert GroupFor(events, groups, ns);
        var rows := Sort(groups[ns], ByNumber);
        var ok := CheckComplete(rows);
        if !ok {
          assert !CompleteRows(events, ns);
          return Err(IncompleteRange);
        }
        if Between(LogOf(logs, ns), 1, 1) != [] {
          assert Occupied(logs, graph, ns);
          return Err(TargetNotEmpty);
        }
        sorted := sorted[ns := rows];
        pending := pending - {ns};
      }
      forall ns ensures CompleteRows(events, ns) {
        assert GroupFor(events, groups, ns);
      }
      return Ok(sorted);
    }

    /** `assert_target_empty`. */
    method CheckEmpty(names: seq<string>) returns (r: Result<(), ArchiveError>)
      ensures r.Ok? <==> forall ns | ns in names :: !Occupied(logs, graph, ns)
    {
      for i := 0 to |names|
        invariant forall k | 0 <= k < i :: !Occupied(logs, graph, names[k])
      {
        if Between(LogOf(logs, names[i]), 1, 1) != [] || names[i] in graph {
          assert Occupied(logs, graph, names[i]);
          return Err(TargetNotEmpty);
        }
      }
      return Ok(());
    }

    method WriteRows(ns: string, rows: seq<Envelope>)
      modifies this`logs
      ensures LogOf(logs, ns) == LogOf(old(logs), ns) + rows
      ensures forall other | other != ns :: LogOf(logs, other) == LogOf(old(logs), other)
    {
      for i := 0 to |rows|
        invariant LogOf(logs, ns) == LogOf(old(logs), ns) + rows[..i]
        invariant forall other | other != ns :: LogOf(logs, other) == LogOf(old(logs), other)
      {
        assert rows[..i + 1] == rows[..i] + [rows[i]];
        logs := logs[ns := LogOf(logs, ns) + [rows[i]]];
      }
      assert rows[..|rows|] == rows;
    }

    /** Appends every group to the log of its namespace. */
    method WriteGroups(groups: map<string, seq<Envelope>>)
      modifies this`logs
      ensures forall ns :: LogOf(logs, ns) == LogOf(old(logs), ns) + (if ns in groups then groups[ns] else [])
    {
      var pending := groups.Keys;
      while pending != {}
        invariant pending <= groups.Keys
        invariant forall ns | ns in groups && ns !in pending :: LogOf(logs, ns) == LogOf(old(logs), ns) + groups[ns]
        invariant forall ns | ns !in groups || ns in pending :: LogOf(logs, ns) == LogOf(old(logs), ns)
        decreases pending
      {
        var ns :| ns in pending;
        WriteRows(ns, groups[ns]);
        pending := pending - {ns};
      }
    }

    /** All the checks of `restore_archive` that come before its first write. */
    method Check(h: Hasher, chain: seq<Archive>, requested: string, derived: bool)
      returns (r: Result<(map<string, seq<Envelope>>, Report), ArchiveError>)
      requires chain != []
      ensures var source := chain[|chain| - 1].manifest.workspaceId;
              var target := TargetWorkspace(requested, source);
              var events := Moved(ChainEvents(chain), source, target);
              && (r.Ok? <==> ChainOk(h, chain) && Restorable(logs, graph, events, WorkspaceNames(target, derived)))
              && (r.Ok? ==> && r.value.1 == Report(chain[|chain| - 1].manifest.archiveId, source, target, true, |events|, 0)
                            && GroupsAreRows(events, r.value.0))
    {
      var loaded := LoadChain(h, chain);
      if loaded.Err? {
        return Err(loaded.error);
      }
      var source := loaded.value.0.workspaceId;
      var target := TargetWorkspace(requested, source);
      var names := WorkspaceNames(target, derived);
      var moved := MoveEvents(loaded.value.1, source, target, names);
      if moved.Err? {
        return Err(moved.error);
      }
      var events := moved.value;
      var groups := GroupByNamespace(events);
      var sorted := CheckGroups(groups, events);
      if sorted.Err? {
        return Err(sorted.error);
      }
      var empty := CheckEmpty(names);
      if empty.Err? {
        return Err(empty.error);
      }
      forall ns ensures Rows(events, ns) == if ns in sorted.value then sorted.value[ns] else [] {
        assert GroupFor(events, groups, ns);
      }
      return Ok((sorted.value, Report(loaded.value.0.archiveId, source, target, true, |events|, 0)));
    }

    /** The replay loop of `restore_archive`; it stops at the first engine that cannot replay. */
    method ReplayGroups(groups: map<string, seq<Envelope>>) returns (r: Result<nat, ArchiveError>)
      requires forall ns | ns in groups :: groups[ns] != []
      modifies this`replayed
      ensures r.Ok? <==> groups.Keys <= replayable
      ensures r.Ok? ==> r.value == |groups.Keys| && Replayed(old(replayed), groups, groups.Keys, replayed)
      ensures r.Err? ==> exists done | done <= groups.Keys :: Replayed(old(replayed), groups, done, replayed)
    {
      var count: nat, pending := 0, groups.Keys;
      while pending != {}
        invariant pending <= groups.Keys && count + |pending| == |groups.Keys|
        invariant groups.Keys - pending <= replayable
        invariant Replayed(old(replayed), groups, groups.Keys - pending, replayed)
        decreases pending
      {
        var ns :| ns in pending;
        if ns !in replayable {
          return Err(ReplayUnsupported);
        }
        var last := groups[ns][|groups[ns]| - 1].number;
        ReplayedStep(old(replayed), groups, pending, replayed, ns);
        replayed := replayed[ns := last];
        pending, count := pending - {ns}, count + 1;
      }
      assert groups.Keys - pending == groups.Keys;
      return Ok(count);
    }

    /** Writes the logs, then replays them. */
    method WriteAndReplay(groups: map<string, seq<Envelope>>, ghost events: seq<Envelope>) returns (r: Result<nat, ArchiveError>)
      requires GroupsAreRows(events, groups)
      modifies this`logs, this`replayed
      ensures forall ns :: LogOf(logs, ns) == LogOf(old(logs), ns) + Rows(events, ns)
      ensures r.Ok? <==> NamespacesOf(events) <= replayable
      ensures r.Ok? ==> r.value == |NamespacesOf(events)| && ReplayedAll(old(replayed), events, replayed)
    {
      WriteGroups(groups);
      CompleteGroups(events, groups);
      r := ReplayGroups(groups);
      if r.Ok? {
        ReplayedWhole(old(replayed), groups, replayed, events);
      }
    }

    /**
      * `restore_archive`. Without `apply`, or when a check fails, nothing changes; a failure among the artifacts
      * leaves the logs as they were. Once the artifacts are written, so are the logs: every namespace gains exactly its
      * rows, and replay follows, which can still fail.
      */
    method RestoreArchive(h: Hasher, chain: seq<Archive>, requested: string, derived: bool, apply: bool, directory: DataDirectory?)
      returns (r: Result<Report, ArchiveError>)
      requires chain != []
      modifies this`logs, this`replayed, directory
      ensures var source := chain[|chain| - 1].manifest.workspaceId;
              var target := TargetWorkspace(requested, source);
              var events := Moved(ChainEvents(chain), source, target);
              var checked := ChainOk(h, chain) && Restorable(old(logs), graph, events, WorkspaceNames(target, derived));
              var written := checked && apply && (directory != null ==> LayersOk(h, old(directory.files), chain));
              && (r.Ok? <==> checked && (apply ==> written && NamespacesOf(events) <= replayable))
              && (r.Ok? ==> r.value == Report(chain[|chain| - 1].manifest.archiveId, source, target, !apply, |events|,
                                              if apply then |NamespacesOf(events)| else 0))
              && (requested != "" ==> target == requested) && (requested == "" ==> target == source)
              && MovedEach(ChainEvents(chain), events, source, target)
              && (written ==> forall ns :: LogOf(logs, ns) == LogOf(old(logs), ns) + Rows(events, ns))
              && (written && directory != null ==> directory.files == Overlay(old(directory.files), AllMembers(chain)))
              && (!written ==> logs == old(logs) && replayed == old(replayed))
              && (!apply || !checked ==> directory != null ==> directory.files == old(directory.files))
              && (checked && apply && !written ==> directory != null && exists i | 0 <= i < |chain| ::
                    LayersUpTo(h, old(directory.files), chain, i) && WroteInLayer(h, old(directory.files), chain, i, directory.files))
              && (r.Ok? && apply ==> ReplayedAll(old(replayed), events, replayed))
      ensures directory != null ==> Protected(h, old(directory.files), directory.files, DeclaredEntries(chain))
    {
      MovedExact(ChainEvents(chain), chain[|chain| - 1].manifest.workspaceId, TargetWorkspace(requested, chain[|chain| - 1].manifest.workspaceId));
      var checked := Check(h, chain, requested, derived);
      if checked.Err? {
        return Err(checked.error);
      }
      var groups, report := checked.value.0, checked.value.1;
      if !apply {
        return Ok(report);
      }
      if directory != null {
        var layers := directory.RestoreLayers(h, chain);
        if layers.Err? {
          return Err(layers.error);
        }
      }
      var replay := WriteAndReplay(groups, Moved(ChainEvents(chain), report.source, report.target));
      if replay.Err? {
        return Err(replay.error);
      }
      return Ok(report.(dryRun := false, replayed := replay.value));
    }
  }

  function ReplayedTo(replayed: map<string, int>, ns: string): Option<int> {
    if ns in replayed then Some(replayed[ns]) else None
  }

  /** The namespaces in `done`, and no others, were replayed up to their last row. */
  ghost predicate Replayed(before: map<string, int>, groups: map<string, seq<Envelope>>, done: set<string>, after: map<string, int>)
    requires forall ns | ns in groups :: groups[ns] != []
  {
    forall ns :: ReplayedTo(after, ns) ==
                 if ns in done && ns in groups then Some(groups[ns][|groups[ns]| - 1].number) else ReplayedTo(before, ns)
  }

  lemma ReplayedStep(before: map<string, int>, groups: map<string, seq<Envelope>>, pending: set<string>, after: map<string, int>, ns: string)
    requires forall ns | ns in groups :: groups[ns] != []
    requires pending <= groups.Keys && ns in pending && Replayed(before, groups, groups.Keys - pending, after)
    ensures Replayed(before, groups, groups.Keys - (pending - {ns}), after[ns := groups[ns][|groups[ns]| - 1].number])
    ensures groups.Keys - (pending - {ns}) == groups.Keys - pending + {ns} && |pending - {ns}| == |pending| - 1
  {
  }

  /** Every namespace with events was replayed through its whole log, and no other namespace was touched. */
  ghost predicate ReplayedAll(before: map<string, int>, events: seq<Envelope>, after: map<string, int>) {
    forall ns ::
      ReplayedTo(after, ns) == if ns in NamespacesOf(events) then Some(|Rows(events, ns)|) else ReplayedTo(before, ns)
  }

  ghost predicate GroupsAreRows(events: seq<Envelope>, groups: map<string, seq<Envelope>>) {
    && groups.Keys == NamespacesOf(events)
    && (forall ns :: Rows(events, ns) == if ns in groups then groups[ns] else [])
    && (forall ns :: CompleteRows(events, ns))
  }

  /** No group is empty. */
  lemma CompleteGroups(events: seq<Envelope>, groups: map<string, seq<Envelope>>)
    requires GroupsAreRows(events, groups)
    ensures forall ns | ns in groups :: groups[ns] != []
  {
    forall ns | ns in groups ensures groups[ns] != [] {
      var e :| e in events && e.namespace == ns;
      FilterMembers(events, Within(ns));
      SortContents(EventsIn(events, ns), ByNumber);
      assert e in Rows(events, ns);
    }
  }

  /** Replay up to the last row is replay of the whole log, since rows count from 1. */
  lemma ReplayedWhole(before: map<string, int>, groups: map<string, seq<Envelope>>, after: map<string, int>, events: seq<Envelope>)
    requires GroupsAreRows(events, groups) && forall ns | ns in groups :: groups[ns] != []
    requires Replayed(before, groups, groups.Keys, after)
    ensures ReplayedAll(before, events, after)
  {
    forall ns ensures ReplayedTo(after, ns) ==
                      if ns in NamespacesOf(events) then Some(|Rows(events, ns)|) else ReplayedTo(before, ns)
    {
      assert CompleteRows(events, ns);
      var numbers := Map(NumberOf, Rows(events, ns));
      if ns in groups {
        assert numbers[|numbers| - 1] == |numbers|;
      }
    }
  }
}
