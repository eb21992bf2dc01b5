/** Portable archives: what one contains, when it is accepted, and how one is made. */
module Archives {
  import opened Basics

  datatype Envelope = Envelope(
    namespace: string, number: int, eventId: string, entityKind: string, entityId: string, op: string, payload: Json, createdAt: int)

  datatype Range = Range(from: int, to: int)

  datatype Entry = Entry(path: string, sha: string)

  /** `parentId` is empty for a base archive. `snapshots` holds the file list of each backend snapshot, if it has one. */
  datatype Manifest = Manifest(
    version: int, archiveId: string, parentId: string, workspaceId: string, watermarks: map<string, int>,
    ranges: map<string, Range>, eventCount: int, eventsSha: string, artifacts: seq<Entry>,
    snapshots: seq<Option<seq<Entry>>>)

  type Bytes = seq<bv8>

  datatype Member = Member(name: string, regular: bool, data: Bytes)

  datatype Archive = Archive(manifest: Manifest, events: seq<Envelope>, members: seq<Member>)

  /** SHA-256 over event lines and over file contents. */
  datatype Hasher = Hasher(ofEvents: seq<Envelope> -> string, ofBytes: Bytes -> string) {
    ghost predicate Faithful() {
      && (forall a, b | ofBytes(a) == ofBytes(b) :: a == b)
      && (forall a :: ofBytes(a) != "")
    }
  }

  datatype ArchiveError =
    | UnsupportedFormat | NonContiguous | CountMismatch | ChecksumMismatch | BadRange | WatermarkMismatch
    | EmptyRangeHasEvents | RangeMismatch | UndeclaredNamespace
    | EntryWithoutChecksum | ConflictingChecksums | PayloadMismatch | PayloadMissing
    | BehindParent | HistoryGap | WatermarkUnreadable
    | WrongParent | NotABase | WorkspaceMismatch | RangeDoesNotContinue | GapOrOverlap | EmptyChain
    | UnsupportedNamespace | IncompleteRange | TargetNotEmpty | UnsafePath | ArtifactMismatch | ArtifactDiffers | ArtifactMissing
    | ReplayUnsupported

  // ----- Events of one namespace -----

  function Within(ns: string): Envelope -> bool {
    (e: Envelope) => e.namespace == ns
  }

  const NumberOf: Envelope -> int := (e: Envelope) => e.number

  function EventsIn(events: seq<Envelope>, ns: string): seq<Envelope> {
    Filter(events, Within(ns))
  }

  function NumbersIn(events: seq<Envelope>, ns: string): seq<int> {
    Map(NumberOf, EventsIn(events, ns))
  }

  /** The numbers `from..to`, both included. */
  function Span(from: int, to: int): (s: seq<int>)
    ensures |s| == if to < from then 0 else to - from + 1
    ensures forall i | 0 <= i < |s| :: s[i] == from + i
  {
    if to < from then [] else seq(to - from + 1, i => from + i)
  }

  /** Consecutive numbers, starting at 1 or later. */
  ghost predicate Run(s: seq<int>) {
    forall i | 0 <= i < |s| :: s[i] == s[0] + i && s[i] >= 1
  }

  ghost predicate RunIn(events: seq<Envelope>, ns: string) {
    Run(NumbersIn(events, ns))
  }

  lemma NumbersSnoc(events: seq<Envelope>, e: Envelope, ns: string)
    ensures NumbersIn(events + [e], ns) == NumbersIn(events, ns) + (if e.namespace == ns then [e.number] else [])
  {
    FilterSnoc(events, e, Within(ns));
  }

  lemma RunSnoc(s: seq<int>, n: int)
    ensures Run(s + [n]) <==> Run(s) && (if s == [] then n >= 1 else n == s[|s| - 1] + 1)
  {
    var t := s + [n];
    assert t[|s|] == n;
    assert forall i | 0 <= i < |s| :: s[i] == t[i];
    if Run(t) {
      assert t[|s|] == t[0] + |s|;
    }
  }

  // ----- Acceptance -----

  predicate RangeOk(events: seq<Envelope>, watermarks: map<string, int>, ns: string, r: Range) {
    && r.to >= r.from - 1
    && (if ns in watermarks then watermarks[ns] else -1) == r.to
    && NumbersIn(events, ns) == Span(r.from, r.to)
    && (r.to >= r.from ==> r.from >= 1)
  }

  predicate Complete(e: Entry) {
    e.path != "" && e.sha != ""
  }

  /** No path is declared with two checksums. */
  predicate Consistent(entries: seq<Entry>) {
    forall a, b | a in entries && b in entries && Complete(a) && Complete(b) && a.path == b.path :: a.sha == b.sha
  }

  /** Declared checksums by path; a later entry replaces an earlier one. */
  function Declared(entries: seq<Entry>): map<string, string> {
    if entries == [] then map[]
    else
      var rest, last := Declared(entries[..|entries| - 1]), entries[|entries| - 1];
      if Complete(last) then rest[last.path := last.sha] else rest
  }

  function SnapshotFiles(snapshots: seq<Option<seq<Entry>>>): seq<Entry> {
    if snapshots == [] then []
    else
      var rest, last := SnapshotFiles(snapshots[..|snapshots| - 1]), snapshots[|snapshots| - 1];
      if last.Some? then rest + last.value else rest
  }

  const ARTIFACTS := "artifacts/"
  const SNAPSHOTS := "backend_snapshots/"

  predicate StartsWith(s: string, prefix: string) {
    |prefix| <= |s| && s[..|prefix|] == prefix
  }

  /** A member that is restored as an artifact file. */
  predicate IsArtifact(m: Member) {
    m.regular && StartsWith(m.name, ARTIFACTS)
  }

  predicate IsPayload(m: Member) {
    m.regular && (StartsWith(m.name, ARTIFACTS) || StartsWith(m.name, SNAPSHOTS))
  }

  /** Every declared path, with the checksum its payload must have. */
  function Payloads(m: Manifest): map<string, string> {
    Declared(m.artifacts) + Declared(SnapshotFiles(m.snapshots))
  }

  predicate EntriesOk(m: Manifest) {
    && (m.version >= 2 ==> forall e | e in m.artifacts :: Complete(e))
    && Consistent(m.artifacts)
    && (m.version >= 2 ==> forall s | s in m.snapshots :: s.Some?)
    && (forall e | e in SnapshotFiles(m.snapshots) :: Complete(e))
  }

  predicate PayloadOk(h: Hasher, declared: map<string, string>, m: Member) {
    IsPayload(m) && m.name in declared ==> h.ofBytes(m.data) == declared[m.name]
  }

  /** The paths of the declared payload members. */
  function Present(declared: map<string, string>, members: seq<Member>): set<string> {
    set m | m in members && IsPayload(m) && m.name in declared :: m.name
  }

  predicate ArtifactsOk(h: Hasher, manifest: Manifest, members: seq<Member>) {
    && EntriesOk(manifest)
    && (forall m | m in members :: PayloadOk(h, Payloads(manifest), m))
    && Payloads(manifest).Keys <= Present(Payloads(manifest), members)
  }

  /** The archives `verify_archive` accepts. */
  predicate Accepted(h: Hasher, a: Archive) {
    && (a.manifest.version == 1 || a.manifest.version == 2)
    && |a.events| == a.manifest.eventCount
    && h.ofEvents(a.events) == a.manifest.eventsSha
    && (forall ns | ns in a.manifest.ranges :: RangeOk(a.events, a.manifest.watermarks, ns, a.manifest.ranges[ns]))
    && (forall e | e in a.events :: e.namespace in a.manifest.ranges)
    && ArtifactsOk(h, a.manifest, a.members)
  }

  /** A manifest fixes the content: what differs from an accepted archive in an event or a declared file is not accepted. */
  lemma ManifestFixesContent(h: Hasher, a: Archive, b: Archive)
    requires Accepted(h, a) && Accepted(h, b) && a.manifest == b.manifest
    ensures |a.events| == |b.events| && h.ofEvents(a.events) == h.ofEvents(b.events)
    ensures forall m, n | m in a.members && n in b.members && IsPayload(m) && IsPayload(n) && m.name == n.name && m.name in Payloads(a.manifest) ::
              h.ofBytes(m.data) == h.ofBytes(n.data)
    ensures forall name | name in Payloads(a.manifest) ::
              (exists m | m in a.members :: m.regular && m.name == name) && exists n | n in b.members :: n.regular && n.name == name
  {
    var declared := Payloads(a.manifest);
    forall m, n | m in a.members && n in b.members && IsPayload(m) && IsPayload(n) && m.name == n.name && m.name in declared
      ensures h.ofBytes(m.data) == h.ofBytes(n.data)
    {
      assert PayloadOk(h, declared, m) && PayloadOk(h, declared, n);
    }
    forall name | name in declared
      ensures (exists m | m in a.members :: m.regular && m.name == name) && exists n | n in b.members :: n.regular && n.name == name
    {
      assert name in Present(declared, a.members) && name in Present(declared, b.members);
    }
  }

  /** In an accepted archive every artifact entry names a path and a checksum, and the file is there with that checksum unless a backend entry claims its path. */
  lemma EntriesArePresent(h: Hasher, a: Archive, e: Entry)
    requires Accepted(h, a) && a.manifest.version >= 2 && e in a.manifest.artifacts
    ensures e.path != "" && e.sha != ""
    ensures (forall other | other in SnapshotFiles(a.manifest.snapshots) :: other.path != e.path) ==>
              exists m | m in a.members :: m.regular && m.name == e.path && h.ofBytes(m.data) == e.sha
  {
    var entries, more, declared := a.manifest.artifacts, SnapshotFiles(a.manifest.snapshots), Payloads(a.manifest);
    assert Complete(e);
    if forall other | other in more :: other.path != e.path {
      DeclaredMembers(entries);
      DeclaredMembers(more);
      assert e.path !in Declared(more);
      assert declared[e.path] == Declared(entries)[e.path] == e.sha;
      assert e.path in Present(declared, a.members);
      var m :| m in a.members && IsPayload(m) && m.name == e.path;
      assert PayloadOk(h, declared, m);
    }
  }

  // ----- The scan -----

  /** What `first` and `previous` hold for one namespace after a scan that met no gap. */
  ghost predicate Marks(events: seq<Envelope>, first: map<string, int>, previous: map<string, int>, ns: string) {
    var s := NumbersIn(events, ns);
    Run(s) && if s == [] then ns !in first && ns !in previous
              else ns in first && ns in previous && first[ns] == s[0] && previous[ns] == s[|s| - 1]
  }

  ghost predicate Scanned(events: seq<Envelope>, first: map<string, int>, previous: map<string, int>) {
    forall ns :: Marks(events, first, previous, ns)
  }

  /** The event at hand continues the run of its namespace. */
  predicate Continues(previous: map<string, int>, e: Envelope) {
    if e.namespace in previous then e.number == previous[e.namespace] + 1 else e.number >= 1
  }

  lemma ScanStep(events: seq<Envelope>, first: map<string, int>, previous: map<string, int>, e: Envelope)
    requires Scanned(events, first, previous)
    ensures Continues(previous, e) ==>
              Scanned(events + [e], if e.namespace in first then first else first[e.namespace := e.number],
                      previous[e.namespace := e.number])
    ensures !Continues(previous, e) ==> !RunIn(events + [e], e.namespace)
  {
    assert Marks(events, first, previous, e.namespace);
    RunSnoc(NumbersIn(events, e.namespace), e.number);
    NumbersSnoc(events, e, e.namespace);
    if Continues(previous, e) {
      var first', previous' := if e.namespace in first then first else first[e.namespace := e.number],
                               previous[e.namespace := e.number];
      forall ns ensures Marks(events + [e], first', previous', ns) {
        assert Marks(events, first, previous, ns);
        NumbersSnoc(events, e, ns);
      }
    }
  }

  lemma RunPrefix(events: seq<Envelope>, i: nat, ns: string)
    requires i <= |events| && RunIn(events, ns)
    ensures RunIn(events[..i], ns)
    decreases |events| - i
  {
    if i < |events| {
      RunPrefix(events, i + 1, ns);
      assert events[..i + 1] == events[..i] + [events[i]];
      NumbersSnoc(events[..i], events[i], ns);
      RunSnoc(NumbersIn(events[..i], ns), events[i].number);
      assert events[i].namespace != ns ==> NumbersIn(events[..i + 1], ns) == NumbersIn(events[..i], ns);
    } else {
      assert events[..i] == events;
    }
  }

  /** The event loop of `verify_archive` accepts exactly the files in which every namespace runs without a gap. */
  method ScanEvents(events: seq<Envelope>) returns (ok: bool, first: map<string, int>, previous: map<string, int>)
    ensures ok <==> forall ns :: RunIn(events, ns)
    ensures ok ==> Scanned(events, first, previous)
  {
    first, previous := map[], map[];
    for i := 0 to |events|
      invariant Scanned(events[..i], first, previous)
    {
      var event := events[i];
      ghost var seen := events[..i + 1];
      assert seen == events[..i] + [event];
      ScanStep(events[..i], first, previous, event);
      var prior := if event.namespace in previous then previous[event.namespace] else 0;
      assert Marks(events[..i], first, previous, event.namespace);
      if event.number != prior + 1 && !(prior == 0 && event.number >= 1) {
        assert !RunIn(seen, event.namespace);
        if RunIn(events, event.namespace) {
          RunPrefix(events, i + 1, event.namespace);
        }
        return false, first, previous;
      }
      assert Continues(previous, event);
      previous := previous[event.namespace := event.number];
      first := if event.namespace in first then first else first[event.namespace := event.number];
    }
    assert events[..|events|] == events;
    forall ns ensures RunIn(events, ns) {
      assert Marks(events, first, previous, ns);
    }
    return true, first, previous;
  }

  /** The range loop of `verify_archive` compares a declared range with the first and last number seen. */
  lemma RangeByEnds(events: seq<Envelope>, first: map<string, int>, previous: map<string, int>, ns: string, r: Range)
    requires Scanned(events, first, previous) && r.to >= r.from - 1
    ensures NumbersIn(events, ns) == Span(r.from, r.to) && (r.to >= r.from ==> r.from >= 1) <==>
            if r.to == r.from - 1 then ns !in first
            else ns in first && ns in previous && first[ns] == r.from && previous[ns] == r.to
  {
    assert Marks(events, first, previous, ns);
    var s := NumbersIn(events, ns);
    if s != [] && r.to >= r.from && s[0] == r.from && s[|s| - 1] == r.to {
      assert s[|s| - 1] == s[0] + |s| - 1;
    }
  }

  lemma AcceptedIsRun(h: Hasher, a: Archive, ns: string)
    requires Accepted(h, a)
    ensures RunIn(a.events, ns)
  {
    if ns !in a.manifest.ranges {
      FilterNone(a.events, Within(ns));
    } else {
      assert RangeOk(a.events, a.manifest.watermarks, ns, a.manifest.ranges[ns]);
    }
  }

  lemma MarkedNamespaces(events: seq<Envelope>, first: map<string, int>, previous: map<string, int>)
    requires Scanned(events, first, previous)
    ensures forall ns :: ns in first <==> exists e | e in events :: e.namespace == ns
  {
    forall ns ensures ns in first <==> exists e | e in events :: e.namespace == ns {
      assert Marks(events, first, previous, ns);
      FilterMembers(events, Within(ns));
      if ns in first {
        assert EventsIn(events, ns)[0] in events;
      }
      if e :| e in events && e.namespace == ns {
        assert e in EventsIn(events, ns);
      }
    }
  }

  // ----- Payload verification -----

  lemma DeclaredSnoc(entries: seq<Entry>, e: Entry)
    ensures Declared(entries + [e]) == if Complete(e) then Declared(entries)[e.path := e.sha] else Declared(entries)
  {
    assert (entries + [e])[..|entries|] == entries;
  }

  lemma {:induction false} DeclaredMembers(entries: seq<Entry>)
    ensures forall e | e in entries && Complete(e) :: e.path in Declared(entries)
    ensures forall path | path in Declared(entries) :: Entry(path, Declared(entries)[path]) in entries && Complete(Entry(path, Declared(entries)[path]))
  {
    if entries != [] {
      DeclaredMembers(entries[..|entries| - 1]);
      assert entries == entries[..|entries| - 1] + [entries[|entries| - 1]];
    }
  }

  /** Reads the checksum entries of the manifest. */
  method ReadEntries(m: Manifest) returns (r: Result<map<string, string>, ArchiveError>)
    ensures r.Ok? <==> EntriesOk(m)
    ensures r.Ok? ==> r.value == Payloads(m)
  {
    var artifacts: map<string, string> := map[];
    for i := 0 to |m.artifacts|
      invariant artifacts == Declared(m.artifacts[..i])
      invariant Consistent(m.artifacts[..i])
      invariant m.version >= 2 ==> forall e | e in m.artifacts[..i] :: Complete(e)
    {
      var item := m.artifacts[i];
      assert m.artifacts[..i + 1] == m.artifacts[..i] + [item];
      DeclaredSnoc(m.artifacts[..i], item);
      DeclaredMembers(m.artifacts[..i]);
      if Complete(item) {
        if item.path in artifacts && artifacts[item.path] != item.sha {
          ghost var other := Entry(item.path, artifacts[item.path]);
          assert other in m.artifacts && Complete(other) && item in m.artifacts;
          return Err(ConflictingChecksums);
        }
        assert forall e | e in m.artifacts[..i] && Complete(e) && e.path == item.path ::
            e.path in artifacts && Entry(e.path, artifacts[e.path]) in m.artifacts[..i];
        artifacts := artifacts[item.path := item.sha];
      } else if m.version >= 2 {
        assert item in m.artifacts;
        return Err(EntryWithoutChecksum);
      }
    }
    assert m.artifacts[..|m.artifacts|] == m.artifacts;
    var files := ReadSnapshots(m);
    if files.Err? {
      return Err(files.error);
    }
    return Ok(artifacts + files.value);
  }

  lemma SnapshotFilesSnoc(s: seq<Option<seq<Entry>>>, x: Option<seq<Entry>>)
    ensures SnapshotFiles(s + [x]) == SnapshotFiles(s) + (if x.Some? then x.value else [])
  {
    assert (s + [x])[..|s|] == s;
  }

  lemma {:induction false} SnapshotFilesMembers(s: seq<Option<seq<Entry>>>, i: nat)
    requires i < |s| && s[i].Some?
    ensures forall e | e in s[i].value :: e in SnapshotFiles(s)
  {
    if i < |s| - 1 {
      SnapshotFilesMembers(s[..|s| - 1], i);
    }
  }

  /** The files of one snapshot entry, following the files `sofar`. */
  method ReadFiles(entries: seq<Entry>, before: map<string, string>, ghost sofar: seq<Entry>)
    returns (r: Result<map<string, string>, ArchiveError>)
    requires before == Declared(sofar)
    ensures r.Ok? <==> forall e | e in entries :: Complete(e)
    ensures r.Ok? ==> r.value == Declared(sofar + entries)
  {
    var files := before;
    assert sofar + entries[..0] == sofar;
    for j := 0 to |entries|
      invariant forall k | 0 <= k < j :: Complete(entries[k])
      invariant files == Declared(sofar + entries[..j])
    {
      var item := entries[j];
      if !Complete(item) {
        return Err(EntryWithoutChecksum);
      }
      assert sofar + entries[..j + 1] == (sofar + entries[..j]) + [item];
      DeclaredSnoc(sofar + entries[..j], item);
      files := files[item.path := item.sha];
    }
    assert entries[..|entries|] == entries;
    return Ok(files);
  }

  lemma SnapshotsSnoc(s: seq<Option<seq<Entry>>>, i: nat)
    requires i < |s|
    ensures SnapshotFiles(s[..i + 1]) == SnapshotFiles(s[..i]) + (if s[i].Some? then s[i].value else [])
    ensures s[i].None? ==> SnapshotFiles(s[..i + 1]) == SnapshotFiles(s[..i])
    ensures s[i].Some? ==> forall e | e in s[i].value :: e in SnapshotFiles(s)
  {
    assert s[..i + 1] == s[..i] + [s[i]];
    SnapshotFilesSnoc(s[..i], s[i]);
    if s[i].Some? {
      SnapshotFilesMembers(s, i);
    }
  }

  method ReadSnapshots(m: Manifest) returns (r: Result<map<string, string>, ArchiveError>)
    ensures r.Ok? <==> && (m.version >= 2 ==> forall s | s in m.snapshots :: s.Some?)
                       && (forall e | e in SnapshotFiles(m.snapshots) :: Complete(e))
    ensures r.Ok? ==> r.value == Declared(SnapshotFiles(m.snapshots))
  {
    var files: map<string, string> := map[];
    for i := 0 to |m.snapshots|
      invariant m.version >= 2 ==> forall k | 0 <= k < i :: m.snapshots[k].Some?
      invariant forall e | e in SnapshotFiles(m.snapshots[..i]) :: Complete(e)
      invariant files == Declared(SnapshotFiles(m.snapshots[..i]))
    {
      var entry := m.snapshots[i];
      SnapshotsSnoc(m.snapshots, i);
      if entry.None? {
        if m.version >= 2 {
          assert entry in m.snapshots;
          return Err(EntryWithoutChecksum);
        }
      } else {
        var read := ReadFiles(entry.value, files, SnapshotFiles(m.snapshots[..i]));
        if read.Err? {
          return Err(read.error);
        }
        files := read.value;
      }
    }
    assert m.snapshots[..|m.snapshots|] == m.snapshots;
    return Ok(files);
  }

  /** `verify_artifact_payloads`. */
  method VerifyPayloads(h: Hasher, manifest: Manifest, members: seq<Member>) returns (r: Result<(), ArchiveError>)
    ensures r.Ok? <==> ArtifactsOk(h, manifest, members)
  {
    var entries := ReadEntries(manifest);
    if entries.Err? {
      return Err(entries.error);
    }
    var declared := entries.value;
    var seen: set<string> := {};
    for i := 0 to |members|
      invariant forall m | m in members[..i] :: PayloadOk(h, declared, m)
      invariant seen == Present(declared, members[..i])
    {
      var member := members[i];
      assert members[..i + 1] == members[..i] + [member];
      if IsPayload(member) && member.name in declared {
        if h.ofBytes(member.data) != declared[member.name] {
          assert member in members && !PayloadOk(h, declared, member);
          return Err(PayloadMismatch);
        }
        seen := seen + {member.name};
      }
    }
    assert members[..|members|] == members;
    if declared.Keys - seen != {} {
      assert !(declared.Keys <= seen);
      return Err(PayloadMissing);
    }
    assert forall path | path in declared.Keys :: path in seen || path in declared.Keys - seen;
    return Ok(());
  }

  // ----- The whole verification -----

  /** The range loop of `verify_archive`. */
  method VerifyRanges(manifest: Manifest, events: seq<Envelope>, first: map<string, int>, previous: map<string, int>)
    returns (r: Result<(), ArchiveError>)
    requires Scanned(events, first, previous)
    ensures r.Ok? <==> forall ns | ns in manifest.ranges :: RangeOk(events, manifest.watermarks, ns, manifest.ranges[ns])
  {
    var pending := manifest.ranges.Keys;
    while pending != {}
      invariant pending <= manifest.ranges.Keys
      invariant forall ns | ns in manifest.ranges && ns !in pending :: RangeOk(events, manifest.watermarks, ns, manifest.ranges[ns])
      decreases pending
    {
      var ns :| ns in pending;
      var range := manifest.ranges[ns];
      if range.to < range.from - 1 {
        return Err(BadRange);
      }
      if (if ns in manifest.watermarks then manifest.watermarks[ns] else -1) != range.to {
        return Err(WatermarkMismatch);
      }
      RangeByEnds(events, first, previous, ns, range);
      if range.to == range.from - 1 {
        if ns in first {
          return Err(EmptyRangeHasEvents);
        }
      } else if !(ns in first && ns in previous && first[ns] == range.from && previous[ns] == range.to) {
        return Err(RangeMismatch);
      }
      pending := pending - {ns};
    }
    return Ok(());
  }

  /** `verify_archive` accepts exactly the accepted archives. */
  method VerifyArchive(h: Hasher, a: Archive) returns (r: Result<Manifest, ArchiveError>)
    ensures r.Ok? <==> Accepted(h, a)
    ensures r.Ok? ==> r.value == a.manifest
  {
    if a.manifest.version != 1 && a.manifest.version != 2 {
      return Err(UnsupportedFormat);
    }
    var ok, first, previous := ScanEvents(a.events);
    if !ok {
      if Accepted(h, a) {
        forall ns ensures RunIn(a.events, ns) { AcceptedIsRun(h, a, ns); }
      }
      return Err(NonContiguous);
    }
    if |a.events| != a.manifest.eventCount {
      return Err(CountMismatch);
    }
    if h.ofEvents(a.events) != a.manifest.eventsSha {
      return Err(ChecksumMismatch);
    }
    var ranges := VerifyRanges(a.manifest, a.events, first, previous);
    if ranges.Err? {
      return Err(ranges.error);
    }
    MarkedNamespaces(a.events, first, previous);
    if first.Keys - a.manifest.ranges.Keys != {} {
      ghost var ns :| ns in first.Keys - a.manifest.ranges.Keys;
      assert ns in first && ns !in a.manifest.ranges;
      return Err(UndeclaredNamespace);
    }
    assert forall ns | ns in first.Keys :: ns in a.manifest.ranges || ns in first.Keys - a.manifest.ranges.Keys;
    var payloads := VerifyPayloads(h, a.manifest, a.members);
    if payloads.Err? {
      return Err(payloads.error);
    }
    return Ok(a.manifest);
  }
}
