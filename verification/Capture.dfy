/** Making an archive from event logs, and the fact that what is made is accepted. */
module Captures {
  import opened Basics
  import opened Archives

  /** Event logs by namespace; a namespace that is absent has an empty log. */
  type Logs = map<string, seq<Envelope>>

  function LogOf(logs: Logs, ns: string): seq<Envelope> {
    if ns in logs then logs[ns] else []
  }

  /** What an event store keeps of one log: its own events, numbered upwards from 1 or later, gaps allowed. */
  ghost predicate StoredLog(log: seq<Envelope>, ns: string) {
    && (forall e | e in log :: e.namespace == ns && e.number >= 1)
    && (forall i, j | 0 <= i < j < |log| :: log[i].number < log[j].number)
  }

  ghost predicate Stored(logs: Logs) {
    forall ns | ns in logs :: StoredLog(logs[ns], ns)
  }

  /** `get_latest_entity_event_seq`. */
  function Latest(log: seq<Envelope>): int {
    if log == [] then 0 else log[|log| - 1].number
  }

  function Numbered(from: int, to: int): Envelope -> bool {
    (e: Envelope) => from <= e.number <= to
  }

  /** `iter_entity_event_envelopes` over `from..to`. */
  function Between(log: seq<Envelope>, from: int, to: int): seq<Envelope> {
    Filter(log, Numbered(from, to))
  }

  function Watermark(m: Manifest, ns: string): int {
    if ns in m.watermarks then m.watermarks[ns] else 0
  }

  /** Where the parent archive stopped. */
  function Prior(parent: Option<Archive>, ns: string): int {
    if parent.None? then 0 else Watermark(parent.value.manifest, ns)
  }

  function RangeFor(logs: Logs, parent: Option<Archive>, ns: string): Range {
    Range(Prior(parent, ns) + 1, Latest(LogOf(logs, ns)))
  }

  /**
    * What one archive is made from. `tree` holds the files copied from backend directories, if they are asked for, and
    * `snapshots` the files found under each of these directories, which may lie inside one another.
    */
  datatype Stage = Stage(
    id: string, names: seq<string>, logs: Logs, files: seq<Member>, snapshots: seq<seq<Member>>, tree: seq<Member>)

  function Exported(logs: Logs, parent: Option<Archive>, ns: string): seq<Envelope> {
    Between(LogOf(logs, ns), RangeFor(logs, parent, ns).from, RangeFor(logs, parent, ns).to)
  }

  function ExportAll(logs: Logs, parent: Option<Archive>, names: seq<string>): seq<Envelope> {
    if names == [] then []
    else ExportAll(logs, parent, names[..|names| - 1]) + Exported(logs, parent, names[|names| - 1])
  }

  function EntryOf(h: Hasher): Member -> Entry {
    (m: Member) => Entry(m.name, h.ofBytes(m.data))
  }

  function ListOf(h: Hasher): seq<Member> -> Option<seq<Entry>> {
    (files: seq<Member>) => Some(Map(EntryOf(h), files))
  }

  /** The per-file checksums of every backend directory. */
  function SnapshotLists(h: Hasher, snapshots: seq<seq<Member>>): seq<Option<seq<Entry>>> {
    Map(ListOf(h), snapshots)
  }

  function Watermarks(logs: Logs, names: seq<string>): map<string, int> {
    map ns | ns in names :: Latest(LogOf(logs, ns))
  }

  function Ranges(logs: Logs, parent: Option<Archive>, names: seq<string>): map<string, Range> {
    map ns | ns in names :: RangeFor(logs, parent, ns)
  }

  const VERSION := 2

  /** The archive of `stage` on top of `parent`. */
  function Capture(h: Hasher, workspace: string, stage: Stage, parent: Option<Archive>): Archive {
    var events := ExportAll(stage.logs, parent, stage.names);
    Archive(
      Manifest(VERSION, stage.id, if parent.Some? then parent.value.manifest.archiveId else "", workspace,
               Watermarks(stage.logs, stage.names), Ranges(stage.logs, parent, stage.names),
               |events|, h.ofEvents(events), Map(EntryOf(h), stage.files), SnapshotLists(h, stage.snapshots)),
      events, stage.files + stage.tree)
  }

  /** The history after the parent's watermark is there and has no gap. */
  predicate Readable(logs: Logs, parent: Option<Archive>, ns: string) {
    var r := RangeFor(logs, parent, ns);
    r.to >= r.from - 1 && Map(NumberOf, Exported(logs, parent, ns)) == Span(r.from, r.to)
  }

  predicate AllReadable(logs: Logs, parent: Option<Archive>, names: seq<string>) {
    forall ns | ns in names :: Readable(logs, parent, ns)
  }

  predicate OnePerName(members: seq<Member>) {
    forall i, j | 0 <= i < j < |members| :: members[i].name != members[j].name
  }

  /** Files as collected under the data directory: regular, under `artifacts/`, one per path. */
  predicate FilesOk(files: seq<Member>) {
    (forall m | m in files :: IsArtifact(m)) && OnePerName(files)
  }

  /** Copied backend files: regular, under `backend_snapshots/`, one per path, each listed under some directory or none. */
  predicate TreeOk(tree: seq<Member>, snapshots: seq<seq<Member>>) {
    && (forall m | m in tree :: m.regular && StartsWith(m.name, SNAPSHOTS)) && OnePerName(tree)
    && (forall i | 0 <= i < |snapshots| :: forall m | m in snapshots[i] :: m in tree)
  }

  predicate PayloadFilesOk(stage: Stage) {
    FilesOk(stage.files) && TreeOk(stage.tree, stage.snapshots)
  }

  // ----- What is made is accepted -----

  lemma {:induction false} ExportIn(logs: Logs, parent: Option<Archive>, names: seq<string>, ns: string)
    requires Stored(logs) && NoDup(names)
    ensures EventsIn(ExportAll(logs, parent, names), ns) == if ns in names then Exported(logs, parent, ns) else []
  {
    if names != [] {
      var front, last := names[..|names| - 1], names[|names| - 1];
      assert names == front + [last];
      ExportIn(logs, parent, front, ns);
      var rows := Exported(logs, parent, last);
      FilterConcat(ExportAll(logs, parent, front), rows, Within(ns));
      FilterMembers(LogOf(logs, last), Numbered(RangeFor(logs, parent, last).from, RangeFor(logs, parent, last).to));
      if ns == last {
        FilterAll(rows, Within(ns));
        assert ns !in front;
      } else {
        FilterNone(rows, Within(ns));
      }
    }
  }

  lemma {:induction false} ExportNames(logs: Logs, parent: Option<Archive>, names: seq<string>)
    requires Stored(logs)
    ensures forall e | e in ExportAll(logs, parent, names) :: e.namespace in names && e.number >= 1
  {
    if names != [] {
      var front, last := names[..|names| - 1], names[|names| - 1];
      ExportNames(logs, parent, front);
      FilterMembers(LogOf(logs, last), Numbered(RangeFor(logs, parent, last).from, RangeFor(logs, parent, last).to));
    }
  }

  ghost predicate EntriesFrom(h: Hasher, entries: seq<Entry>, pool: seq<Member>) {
    forall e | e in entries :: exists m | m in pool :: e == Entry(m.name, h.ofBytes(m.data))
  }

  /** Entries made from files with one name each are complete, consistent and say of each file what it holds. */
  lemma DeclaredFrom(h: Hasher, entries: seq<Entry>, pool: seq<Member>)
    requires h.Faithful() && EntriesFrom(h, entries, pool) && OnePerName(pool) && forall m | m in pool :: m.name != ""
    ensures Consistent(entries) && forall e | e in entries :: Complete(e)
    ensures forall m | m in pool && m.name in Declared(entries) :: Declared(entries)[m.name] == h.ofBytes(m.data)
    ensures forall path | path in Declared(entries) :: exists m | m in pool :: m.name == path
  {
    DeclaredMembers(entries);
    forall m | m in pool && m.name in Declared(entries) ensures Declared(entries)[m.name] == h.ofBytes(m.data) {
      assert Entry(m.name, Declared(entries)[m.name]) in entries;
    }
  }

  lemma FilesAreEntries(h: Hasher, files: seq<Member>)
    ensures EntriesFrom(h, Map(EntryOf(h), files), files)
  {
    var entries := Map(EntryOf(h), files);
    forall e | e in entries ensures exists m | m in files :: e == Entry(m.name, h.ofBytes(m.data)) {
      var i :| 0 <= i < |entries| && entries[i] == e;
      assert files[i] in files;
    }
  }

  lemma {:induction false} ListsAreEntries(h: Hasher, snapshots: seq<seq<Member>>, tree: seq<Member>)
    requires forall i | 0 <= i < |snapshots| :: forall m | m in snapshots[i] :: m in tree
    ensures EntriesFrom(h, SnapshotFiles(SnapshotLists(h, snapshots)), tree)
  {
    if snapshots != [] {
      var n := |snapshots| - 1;
      ListsAreEntries(h, snapshots[..n], tree);
      assert SnapshotLists(h, snapshots)[..n] == SnapshotLists(h, snapshots[..n]);
      FilesAreEntries(h, snapshots[n]);
    }
  }

  lemma PrefixesDiffer(name: string)
    requires StartsWith(name, ARTIFACTS)
    ensures !StartsWith(name, SNAPSHOTS)
  {
    assert ARTIFACTS[0] != SNAPSHOTS[0];
    assert name[..|ARTIFACTS|][0] == name[0];
  }

  /** Each half of the declared payloads is about its own half of the members. */
  lemma PayloadsOf(h: Hasher, stage: Stage, m: Member)
    requires h.Faithful() && PayloadFilesOk(stage)
    ensures var artifacts, copied := Declared(Map(EntryOf(h), stage.files)), Declared(SnapshotFiles(SnapshotLists(h, stage.snapshots)));
            && (m in stage.files ==> m.name !in copied && (m.name in artifacts ==> artifacts[m.name] == h.ofBytes(m.data)))
            && (m in stage.tree ==> m.name !in artifacts && (m.name in copied ==> copied[m.name] == h.ofBytes(m.data)))
  {
    FilesAreEntries(h, stage.files);
    DeclaredFrom(h, Map(EntryOf(h), stage.files), stage.files);
    ListsAreEntries(h, stage.snapshots, stage.tree);
    DeclaredFrom(h, SnapshotFiles(SnapshotLists(h, stage.snapshots)), stage.tree);
    forall x | x in stage.files ensures !StartsWith(x.name, SNAPSHOTS) {
      PrefixesDiffer(x.name);
    }
  }

  lemma CaptureEntries(h: Hasher, stage: Stage, manifest: Manifest)
    requires h.Faithful() && PayloadFilesOk(stage)
    requires manifest.artifacts == Map(EntryOf(h), stage.files) && manifest.snapshots == SnapshotLists(h, stage.snapshots)
    ensures EntriesOk(manifest)
    ensures forall path | path in Payloads(manifest) :: exists m | m in stage.files + stage.tree :: IsPayload(m) && m.name == path
  {
    FilesAreEntries(h, stage.files);
    DeclaredFrom(h, manifest.artifacts, stage.files);
    ListsAreEntries(h, stage.snapshots, stage.tree);
    DeclaredFrom(h, SnapshotFiles(manifest.snapshots), stage.tree);
    forall path | path in Payloads(manifest) ensures exists m | m in stage.files + stage.tree :: IsPayload(m) && m.name == path {
      if path in Declared(manifest.artifacts) {
        var m :| m in stage.files && m.name == path;
        assert m in stage.files + stage.tree;
      } else {
        var m :| m in stage.tree && m.name == path;
        assert m in stage.files + stage.tree;
      }
    }
  }

  lemma CapturePayloads(h: Hasher, stage: Stage, manifest: Manifest)
    requires h.Faithful() && PayloadFilesOk(stage)
    requires manifest.artifacts == Map(EntryOf(h), stage.files) && manifest.snapshots == SnapshotLists(h, stage.snapshots)
    ensures ArtifactsOk(h, manifest, stage.files + stage.tree)
  {
    CaptureEntries(h, stage, manifest);
    var declared, members := Payloads(manifest), stage.files + stage.tree;
    forall m | m in members ensures PayloadOk(h, declared, m) {
      PayloadsOf(h, stage, m);
    }
    forall path | path in declared ensures path in Present(declared, members) {
      var m :| m in members && IsPayload(m) && m.name == path;
    }
  }

  lemma FirstIsPositive(events: seq<Envelope>, ns: string, from: int, to: int)
    requires (forall e | e in events :: e.number >= 1) && NumbersIn(events, ns) == Span(from, to) && to >= from
    ensures from >= 1
  {
    FilterMembers(events, Within(ns));
    assert NumbersIn(events, ns)[0] == from;
    assert EventsIn(events, ns)[0] in events;
  }

  lemma CaptureRange(logs: Logs, parent: Option<Archive>, names: seq<string>, watermarks: map<string, int>, ns: string)
    requires Stored(logs) && NoDup(names) && ns in names && Readable(logs, parent, ns)
    requires ns in watermarks && watermarks[ns] == Latest(LogOf(logs, ns))
    ensures RangeOk(ExportAll(logs, parent, names), watermarks, ns, RangeFor(logs, parent, ns))
  {
    var events, r := ExportAll(logs, parent, names), RangeFor(logs, parent, ns);
    ExportIn(logs, parent, names, ns);
    if r.to >= r.from {
      ExportNames(logs, parent, names);
      FirstIsPositive(events, ns, r.from, r.to);
    }
  }

  /** Every archive that can be made is accepted. */
  lemma CaptureAccepted(h: Hasher, workspace: string, stage: Stage, parent: Option<Archive>)
    requires h.Faithful() && Stored(stage.logs) && NoDup(stage.names) && PayloadFilesOk(stage)
    requires AllReadable(stage.logs, parent, stage.names)
    ensures Accepted(h, Capture(h, workspace, stage, parent))
  {
    var a := Capture(h, workspace, stage, parent);
    ExportNames(stage.logs, parent, stage.names);
    forall ns | ns in a.manifest.ranges ensures RangeOk(a.events, a.manifest.watermarks, ns, a.manifest.ranges[ns]) {
      CaptureRange(stage.logs, parent, stage.names, a.manifest.watermarks, ns);
    }
    CapturePayloads(h, stage, a.manifest);
  }

  // ----- Counting -----

  function Among(names: set<string>): Envelope -> bool {
    (e: Envelope) => e.namespace in names
  }

  function RangeLength(ranges: map<string, Range>): string -> int {
    (ns: string) => if ns in ranges then ranges[ns].to - ranges[ns].from + 1 else 0
  }

  lemma {:induction false} FilterSplit(events: seq<Envelope>, names: set<string>, ns: string)
    requires ns !in names
    ensures |Filter(events, Among(names + {ns}))| == |Filter(events, Among(names))| + |EventsIn(events, ns)|
  {
    if events != [] {
      FilterSplit(events[1..], names, ns);
    }
  }

  lemma {:induction false} CountByNamespace(h: Hasher, a: Archive, names: seq<string>)
    requires Accepted(h, a) && NoDup(names) && forall ns | ns in names :: ns in a.manifest.ranges
    ensures |Filter(a.events, Among(Elems(names)))| == Sum(Map(RangeLength(a.manifest.ranges), names))
  {
    if names == [] {
      FilterNone(a.events, Among(Elems(names)));
    } else {
      var front, last := names[..|names| - 1], names[|names| - 1];
      assert names == front + [last];
      assert Elems(names) == Elems(front) + {last};
      assert last !in Elems(front);
      CountByNamespace(h, a, front);
      FilterSplit(a.events, Elems(front), last);
      assert RangeOk(a.events, a.manifest.watermarks, last, a.manifest.ranges[last]);
      var f := RangeLength(a.manifest.ranges);
      assert Map(f, names) == Map(f, front) + [f(last)];
      SumSnoc(Map(f, front), f(last));
      assert |EventsIn(a.events, last)| == |NumbersIn(a.events, last)|;
    }
  }

  /** An accepted archive holds, per declared namespace, exactly its range, and nothing besides. */
  lemma AcceptedIsExact(h: Hasher, a: Archive, names: seq<string>)
    requires Accepted(h, a) && NoDup(names) && Elems(names) == a.manifest.ranges.Keys
    ensures forall ns | ns in a.manifest.ranges ::
              NumbersIn(a.events, ns) == Span(a.manifest.ranges[ns].from, a.manifest.ranges[ns].to)
    ensures forall ns | ns !in a.manifest.ranges :: EventsIn(a.events, ns) == []
    ensures |a.events| == a.manifest.eventCount == Sum(Map(RangeLength(a.manifest.ranges), names))
  {
    forall ns | ns in a.manifest.ranges
      ensures NumbersIn(a.events, ns) == Span(a.manifest.ranges[ns].from, a.manifest.ranges[ns].to)
    {
      assert RangeOk(a.events, a.manifest.watermarks, ns, a.manifest.ranges[ns]);
    }
    forall ns | ns !in a.manifest.ranges ensures EventsIn(a.events, ns) == [] {
      FilterNone(a.events, Within(ns));
    }
    forall ns | ns in names ensures ns in a.manifest.ranges {
      assert ns in Elems(names);
    }
    CountByNamespace(h, a, names);
    forall e | e in a.events ensures Among(Elems(names))(e) {
    }
    FilterAll(a.events, Among(Elems(names)));
  }

  // ----- Creation -----

  predicate NoneBehind(logs: Logs, parent: Option<Archive>, names: seq<string>) {
    forall ns | ns in names :: Latest(LogOf(logs, ns)) >= Prior(parent, ns)
  }

  lemma NoneBehindSnoc(logs: Logs, parent: Option<Archive>, names: seq<string>, i: nat)
    requires i < |names| && NoneBehind(logs, parent, names[..i])
    ensures NoneBehind(logs, parent, names[..i + 1]) <==> Latest(LogOf(logs, names[i])) >= Prior(parent, names[i])
    ensures NoneBehind(logs, parent, names) ==> Latest(LogOf(logs, names[i])) >= Prior(parent, names[i])
  {
    assert names[..i + 1] == names[..i] + [names[i]];
  }

  lemma WatermarksSnoc(logs: Logs, parent: Option<Archive>, names: seq<string>, ns: string)
    ensures Watermarks(logs, names + [ns]) == Watermarks(logs, names)[ns := Latest(LogOf(logs, ns))]
    ensures Ranges(logs, parent, names + [ns]) == Ranges(logs, parent, names)[ns := RangeFor(logs, parent, ns)]
  {
  }

  /** The watermark loop of `create_archive`. */
  method FixWatermarks(stage: Stage, parent: Option<Archive>)
    returns (r: Result<(map<string, int>, map<string, Range>), ArchiveError>)
    ensures r.Ok? <==> NoneBehind(stage.logs, parent, stage.names)
    ensures r.Ok? ==> r.value == (Watermarks(stage.logs, stage.names), Ranges(stage.logs, parent, stage.names))
  {
    var watermarks: map<string, int>, ranges: map<string, Range> := map[], map[];
    for i := 0 to |stage.names|
      invariant watermarks == Watermarks(stage.logs, stage.names[..i])
      invariant ranges == Ranges(stage.logs, parent, stage.names[..i])
      invariant NoneBehind(stage.logs, parent, stage.names[..i])
    {
      var ns := stage.names[i];
      NoneBehindSnoc(stage.logs, parent, stage.names, i);
      assert stage.names[..i + 1] == stage.names[..i] + [ns];
      WatermarksSnoc(stage.logs, parent, stage.names[..i], ns);
      var end := Latest(LogOf(stage.logs, ns));
      var start := Prior(parent, ns) + 1;
      if end < start - 1 {
        return Err(BehindParent);
      }
      watermarks := watermarks[ns := end];
      ranges := ranges[ns := Range(start, end)];
    }
    assert stage.names[..|stage.names|] == stage.names;
    return Ok((watermarks, ranges));
  }

  lemma SpanPrefix(rows: seq<Envelope>, from: int, to: int, i: nat)
    requires i < |rows| && rows[i].number != from + i
    ensures Map(NumberOf, rows) != Span(from, to)
  {
    assert Map(NumberOf, rows)[i] == rows[i].number;
  }

  /** The export loop for one namespace. */
  method ExportNamespace(rows: seq<Envelope>, range: Range) returns (r: Result<seq<Envelope>, ArchiveError>)
    requires range.to >= range.from - 1
    ensures r.Ok? <==> Map(NumberOf, rows) == Span(range.from, range.to)
    ensures r.Ok? ==> r.value == rows
  {
    var expected := range.from;
    var written: seq<Envelope> := [];
    for i := 0 to |rows|
      invariant expected == range.from + i && written == rows[..i]
      invariant forall k | 0 <= k < i :: rows[k].number == range.from + k
    {
      if rows[i].number != expected {
        SpanPrefix(rows, range.from, range.to, i);
        return Err(HistoryGap);
      }
      written := written + [rows[i]];
      expected := expected + 1;
    }
    if expected != range.to + 1 {
      assert |Map(NumberOf, rows)| != |Span(range.from, range.to)|;
      return Err(WatermarkUnreadable);
    }
    return Ok(written);
  }

  lemma ExportSnoc(logs: Logs, parent: Option<Archive>, names: seq<string>, i: nat)
    requires i < |names|
    ensures ExportAll(logs, parent, names[..i + 1]) == ExportAll(logs, parent, names[..i]) + Exported(logs, parent, names[i])
  {
    assert names[..i + 1][..i] == names[..i];
  }

  lemma ReadableSnoc(logs: Logs, parent: Option<Archive>, names: seq<string>, i: nat)
    requires i < |names| && AllReadable(logs, parent, names[..i])
    ensures AllReadable(logs, parent, names[..i + 1]) <==> Readable(logs, parent, names[i])
    ensures AllReadable(logs, parent, names) ==> Readable(logs, parent, names[i])
  {
    assert names[..i + 1] == names[..i] + [names[i]];
  }

  /** One pass of the export loop: reads the range of one namespace. */
  method ReadNamespace(logs: Logs, parent: Option<Archive>, ns: string, range: Range)
    returns (r: Result<seq<Envelope>, ArchiveError>)
    requires range == RangeFor(logs, parent, ns) && range.to >= range.from - 1
    ensures r.Ok? <==> Readable(logs, parent, ns)
    ensures r.Ok? ==> r.value == Exported(logs, parent, ns)
  {
    r := ExportNamespace(Between(LogOf(logs, ns), range.from, range.to), range);
  }

  /** The export loop of `create_archive`. */
  method ExportNamespaces(stage: Stage, parent: Option<Archive>, ranges: map<string, Range>)
    returns (r: Result<seq<Envelope>, ArchiveError>)
    requires ranges == Ranges(stage.logs, parent, stage.names)
    requires NoneBehind(stage.logs, parent, stage.names)
    ensures r.Ok? <==> AllReadable(stage.logs, parent, stage.names)
    ensures r.Ok? ==> r.value == ExportAll(stage.logs, parent, stage.names)
  {
    var events: seq<Envelope> := [];
    for i := 0 to |stage.names|
      invariant events == ExportAll(stage.logs, parent, stage.names[..i])
      invariant AllReadable(stage.logs, parent, stage.names[..i])
    {
      var ns := stage.names[i];
      ExportSnoc(stage.logs, parent, stage.names, i);
      ReadableSnoc(stage.logs, parent, stage.names, i);
      var exported := ReadNamespace(stage.logs, parent, ns, ranges[ns]);
      if exported.Err? {
        return Err(exported.error);
      }
      events := events + exported.value;
    }
    assert stage.names[..|stage.names|] == stage.names;
    return Ok(events);
  }

  method DeclareFiles(h: Hasher, files: seq<Member>) returns (entries: seq<Entry>)
    ensures entries == Map(EntryOf(h), files)
  {
    entries := [];
    for i := 0 to |files|
      invariant |entries| == i
      invariant forall k | 0 <= k < i :: entries[k] == Entry(files[k].name, h.ofBytes(files[k].data))
    {
      entries := entries + [Entry(files[i].name, h.ofBytes(files[i].data))];
    }
  }

  method DeclareSnapshots(h: Hasher, snapshots: seq<seq<Member>>) returns (lists: seq<Option<seq<Entry>>>)
    ensures lists == SnapshotLists(h, snapshots)
  {
    lists := [];
    for i := 0 to |snapshots|
      invariant |lists| == i
      invariant forall k | 0 <= k < i :: lists[k] == Some(Map(EntryOf(h), snapshots[k]))
    {
      var entries := DeclareFiles(h, snapshots[i]);
      lists := lists + [Some(entries)];
    }
  }

  /** `create_archive`: succeeds exactly when the parent verifies and every history can be read up to its watermark. */
  method CreateArchive(h: Hasher, workspace: string, stage: Stage, parent: Option<Archive>)
    returns (r: Result<Archive, ArchiveError>)
    requires h.Faithful() && Stored(stage.logs) && NoDup(stage.names) && PayloadFilesOk(stage)
    ensures r.Ok? <==> && (parent.Some? ==> Accepted(h, parent.value))
                       && AllReadable(stage.logs, parent, stage.names)
    ensures r.Ok? ==> r.value == Capture(h, workspace, stage, parent) && Accepted(h, r.value)
  {
    if parent.Some? {
      var checked := VerifyArchive(h, parent.value);
      if checked.Err? {
        return Err(checked.error);
      }
    }
    var fixed := FixWatermarks(stage, parent);
    if fixed.Err? {
      ghost var ns :| ns in stage.names && Latest(LogOf(stage.logs, ns)) < Prior(parent, ns);
      assert !Readable(stage.logs, parent, ns);
      return Err(fixed.error);
    }
    var exported := ExportNamespaces(stage, parent, fixed.value.1);
    if exported.Err? {
      return Err(exported.error);
    }
    var events := exported.value;
    var entries := DeclareFiles(h, stage.files);
    var lists := DeclareSnapshots(h, stage.snapshots);
    CaptureAccepted(h, workspace, stage, parent);
    return Ok(Archive(
      Manifest(VERSION, stage.id, if parent.Some? then parent.value.manifest.archiveId else "", workspace,
               fixed.value.0, fixed.value.1, |events|, h.ofEvents(events), entries, lists),
      events, stage.files + stage.tree));
  }
}
