/** Restoring the artifact files of a chain of archives, layer over layer. */
module Artifacts {
  import opened Basics
  import opened Archives
  import opened Chains

  // ----- Destinations -----

  /** A path below the data directory, as its components. */
  type Path = seq<string>

  type Files = map<Path, Bytes>

  function Forward(name: string): string {
    Map(c => if c == '\\' then '/' else c, name)
  }

  /** The parts of `s` between slashes. */
  function Split(s: string): (parts: seq<string>)
    ensures parts != []
  {
    if s == "" then [""]
    else
      var rest := Split(s[1..]);
      if s[0] == '/' then [""] + rest else [[s[0]] + rest[0]] + rest[1..]
  }

  const Named: string -> bool := part => part != "" && part != "."

  /** `safe_relative_member(name, "artifacts")`; `None` where it raises. */
  function Destination(name: string): Option<Path> {
    var posix := Forward(name);
    var parts := Filter(Split(posix), Named);
    if StartsWith(posix, "/") || ".." in parts || parts == [] || parts[0] != "artifacts" then None else Some(parts[1..])
  }

  // ----- Parts of a name -----

  function Join(parts: seq<string>): string
    requires parts != []
  {
    if |parts| == 1 then parts[0] else parts[0] + "/" + Join(parts[1..])
  }

  lemma {:induction false} SplitFirst(part: string, rest: string)
    requires '/' !in part
    ensures Split(part + "/" + rest) == [part] + Split(rest)
  {
    var s := part + "/" + rest;
    if part == "" {
      assert s[1..] == rest;
    } else {
      assert s[0] == part[0] && s[1..] == part[1..] + "/" + rest;
      SplitFirst(part[1..], rest);
      assert part == [part[0]] + part[1..];
    }
  }

  lemma {:induction false} SplitWhole(part: string)
    requires '/' !in part
    ensures Split(part) == [part]
  {
    if part != "" {
      SplitWhole(part[1..]);
      assert part == [part[0]] + part[1..];
    }
  }

  lemma JoinLonger(c: char, rest: seq<string>)
    requires rest != []
    ensures Join([[c] + rest[0]] + rest[1..]) == [c] + Join(rest)
  {
    var parts := [[c] + rest[0]] + rest[1..];
    assert parts[1..] == rest[1..];
  }

  lemma {:induction false} JoinSplit(s: string)
    ensures Join(Split(s)) == s
    ensures forall part | part in Split(s) :: '/' !in part
  {
    if s != "" {
      JoinSplit(s[1..]);
      var parts, rest := Split(s), Split(s[1..]);
      assert s == [s[0]] + s[1..];
      assert rest[0] in rest && forall part | part in rest[1..] :: part in rest;
      if s[0] == '/' {
        assert parts[1..] == rest;
      } else {
        JoinLonger(s[0], rest);
      }
    }
  }

  lemma {:induction false} SplitJoin(parts: seq<string>)
    requires parts != [] && forall part | part in parts :: '/' !in part
    ensures Split(Join(parts)) == parts
  {
    assert parts[0] in parts;
    if |parts| == 1 {
      SplitWhole(parts[0]);
    } else {
      assert forall part | part in parts[1..] :: part in parts;
      SplitFirst(parts[0], Join(parts[1..]));
      SplitJoin(parts[1..]);
    }
  }

  /** The parts of a name are the one way to cut it at its slashes. */
  lemma SplitExact(s: string, parts: seq<string>)
    requires parts != []
    ensures parts == Split(s) <==> Join(parts) == s && forall part | part in parts :: '/' !in part
  {
    JoinSplit(s);
    if Join(parts) == s && forall part | part in parts :: '/' !in part {
      SplitJoin(parts);
    }
  }

  lemma {:induction false} JoinChars(parts: seq<string>, part: string, c: char)
    requires parts != [] && part in parts && c in part
    ensures c in Join(parts)
  {
    if part != parts[0] {
      JoinChars(parts[1..], part, c);
    }
  }

  lemma {:induction false} JoinHasOnly(parts: seq<string>, c: char)
    requires parts != [] && c in Join(parts) && c != '/'
    ensures exists part | part in parts :: c in part
  {
    if |parts| > 1 && c !in parts[0] {
      JoinHasOnly(parts[1..], c);
      assert forall part | part in parts[1..] :: part in parts;
    }
    assert parts[0] in parts;
  }

  // ----- What a destination is -----

  /** What comes before the first named part. */
  predicate Blank(part: string) {
    part == "" || part == "."
  }

  /** The first part of the name that says anything is the `i`-th, and it is `artifacts`. */
  predicate Leads(parts: seq<string>, i: int) {
    0 <= i < |parts| && parts[i] == "artifacts" && forall j | 0 <= j < i :: Blank(parts[j])
  }

  lemma {:induction false} FirstNamed(parts: seq<string>, i: nat)
    requires i < |parts| && Named(parts[i]) && forall j | 0 <= j < i :: Blank(parts[j])
    ensures Filter(parts, Named) == [parts[i]] + Filter(parts[i + 1..], Named)
  {
    if i > 0 {
      FirstNamed(parts[1..], i - 1);
      assert parts[1..][i..] == parts[i + 1..];
    }
  }

  lemma {:induction false} NamedPart(parts: seq<string>) returns (i: nat)
    requires Filter(parts, Named) != []
    ensures i < |parts| && Named(parts[i]) && forall j | 0 <= j < i :: Blank(parts[j])
  {
    if Named(parts[0]) {
      i := 0;
    } else {
      i := NamedPart(parts[1..]);
      assert forall j | 0 < j < i + 1 :: parts[j] == parts[1..][j - 1];
      i := i + 1;
    }
  }

  /** A name is refused exactly when it is absolute, steps up, or its first named part is not `artifacts`; otherwise the named parts that follow are kept. */
  lemma DestinationExact(name: string)
    ensures var parts := Split(Forward(name));
            && (Destination(name).Some? <==> !StartsWith(Forward(name), "/") && ".." !in parts && exists i :: Leads(parts, i))
            && (Destination(name).Some? ==>
                  forall i | Leads(parts, i) :: Destination(name).value == Filter(parts[i + 1..], Named))
  {
    var parts := Split(Forward(name));
    FilterMembers(parts, Named);
    forall i | Leads(parts, i) ensures Filter(parts, Named) == ["artifacts"] + Filter(parts[i + 1..], Named) {
      FirstNamed(parts, i);
    }
    if Filter(parts, Named) != [] {
      var i := NamedPart(parts);
      FirstNamed(parts, i);
      assert parts[i] == "artifacts" ==> Leads(parts, i);
    }
  }

  /** A destination stays below the data directory: plain, non-empty components and no step up. */
  lemma DestinationStaysInside(name: string)
    requires Destination(name).Some?
    ensures forall part | part in Destination(name).value ::
              part != "" && part != "." && part != ".." && '/' !in part && '\\' !in part
  {
    var all := Split(Forward(name));
    JoinSplit(Forward(name));
    FilterMembers(all, Named);
    var parts := Filter(all, Named);
    forall part | part in parts[1..] ensures part in parts && '\\' !in part {
      assert part in parts;
      if '\\' in part {
        JoinChars(all, part, '\\');
        assert false;
      }
    }
  }

  /** A file name as a file system gives it: not empty, no special name, no slash. */
  predicate Component(c: string) {
    c != "" && c != "." && c != ".." && '/' !in c
  }

  predicate Relative(path: Path) {
    path != [] && forall c | c in path :: Component(c)
  }

  predicate Plain(path: Path) {
    forall c | c in path :: '\\' !in c
  }

  lemma ForwardKeeps(s: string)
    requires '\\' !in s
    ensures Forward(s) == s
  {
    forall i | 0 <= i < |s| ensures Forward(s)[i] == s[i] {
      assert s[i] in s;
    }
  }

  lemma PlainName(path: Path)
    requires Relative(path) && Plain(path)
    ensures Forward(ARTIFACTS + Join(path)) == ARTIFACTS + Join(path)
    ensures !StartsWith(ARTIFACTS + Join(path), "/")
  {
    var name, parts := ARTIFACTS + Join(path), ["artifacts"] + path;
    assert parts[1..] == path && Join(parts) == name;
    if '\\' in name {
      JoinHasOnly(parts, '\\');
      assert false;
    }
    ForwardKeeps(name);
    assert name[0] == 'a';
  }

  lemma PlainParts(path: Path)
    requires Relative(path)
    ensures Split(ARTIFACTS + Join(path)) == ["artifacts"] + path
    ensures Filter(["artifacts"] + path, Named) == ["artifacts"] + path
  {
    assert forall c | c in path :: '/' !in c && Named(c);
    SplitFirst("artifacts", Join(path));
    assert ARTIFACTS + Join(path) == "artifacts" + "/" + Join(path);
    SplitJoin(path);
    FilterAll(["artifacts"] + path, Named);
  }

  lemma PlainDestination(path: Path)
    requires Relative(path) && Plain(path)
    ensures Destination(ARTIFACTS + Join(path)) == Some(path)
  {
    PlainName(path);
    PlainParts(path);
    var parts := ["artifacts"] + path;
    assert parts[0] == "artifacts" && parts[1..] == path && ".." !in path;
  }

  /** A file collected under its relative path goes back to that path exactly when no component contains a backslash. */
  lemma DestinationOfFile(path: Path)
    requires Relative(path)
    ensures Destination(ARTIFACTS + Join(path)) == Some(path) <==> Plain(path)
  {
    if Plain(path) {
      PlainDestination(path);
    } else if Destination(ARTIFACTS + Join(path)) == Some(path) {
      DestinationStaysInside(ARTIFACTS + Join(path));
    }
  }

  // ----- Writing members -----

  predicate Lands(m: Member, path: Path) {
    IsArtifact(m) && Destination(m.name) == Some(path)
  }

  /** The files after the artifact members are written in order. */
  function Overlay(files: Files, members: seq<Member>): Files {
    if members == [] then files
    else
      var rest, m := Overlay(files, members[..|members| - 1]), members[|members| - 1];
      if IsArtifact(m) && Destination(m.name).Some? then rest[Destination(m.name).value := m.data] else rest
  }

  /** The data of the last member that lands on a path. */
  function LastWrite(members: seq<Member>, path: Path): Option<Bytes> {
    if members == [] then None
    else
      var m := members[|members| - 1];
      if Lands(m, path) then Some(m.data) else LastWrite(members[..|members| - 1], path)
  }

  function FileAt(files: Files, path: Path): Option<Bytes> {
    if path in files then Some(files[path]) else None
  }

  lemma {:induction false} OverlayAt(files: Files, members: seq<Member>, path: Path)
    ensures FileAt(Overlay(files, members), path) ==
            if LastWrite(members, path).Some? then LastWrite(members, path) else FileAt(files, path)
  {
    if members != [] {
      OverlayAt(files, members[..|members| - 1], path);
    }
  }

  lemma OverlaySnoc(files: Files, members: seq<Member>, m: Member)
    ensures Overlay(files, members + [m]) ==
            if IsArtifact(m) && Destination(m.name).Some? then Overlay(files, members)[Destination(m.name).value := m.data]
            else Overlay(files, members)
  {
    assert (members + [m])[..|members|] == members;
  }

  lemma {:induction false} OverlayConcat(files: Files, a: seq<Member>, b: seq<Member>)
    ensures Overlay(files, a + b) == Overlay(Overlay(files, a), b)
  {
    if b == [] {
      assert a + b == a;
    } else {
      assert (a + b)[..|a + b| - 1] == a + b[..|b| - 1];
      OverlayConcat(files, a, b[..|b| - 1]);
    }
  }

  lemma {:induction false} LastWriteExists(members: seq<Member>, path: Path)
    ensures LastWrite(members, path).Some? <==> exists m | m in members :: Lands(m, path)
    ensures LastWrite(members, path).Some? ==>
              exists m | m in members :: Lands(m, path) && m.data == LastWrite(members, path).value
  {
    if members != [] {
      var front, m := members[..|members| - 1], members[|members| - 1];
      assert members == front + [m];
      LastWriteExists(front, path);
      assert Lands(m, path) ==> m in members;
    }
  }

  // ----- When a member may be written -----

  /** The target has no such file, or the same bytes, or what an earlier archive of the chain declared. */
  predicate MayWrite(h: Hasher, earlier: map<string, string>, files: Files, m: Member)
    requires Destination(m.name).Some?
  {
    var path := Destination(m.name).value;
    || path !in files
    || files[path] == m.data
    || (m.name in earlier && h.ofBytes(files[path]) == earlier[m.name])
  }

  predicate Allowed(h: Hasher, expected: map<string, string>, earlier: map<string, string>, files: Files, m: Member) {
    IsArtifact(m) ==>
      && Destination(m.name).Some?
      && (m.name in expected ==> h.ofBytes(m.data) == expected[m.name])
      && MayWrite(h, earlier, files, m)
  }

  /** Each member may be written onto what the members before it left. */
  predicate AllAllowed(h: Hasher, expected: map<string, string>, earlier: map<string, string>, files: Files, members: seq<Member>) {
    forall k | 0 <= k < |members| :: Allowed(h, expected, earlier, Overlay(files, members[..k]), members[k])
  }

  function ArtifactNames(members: seq<Member>): set<string> {
    set m | m in members && IsArtifact(m) :: m.name
  }

  /** The content of the file at `path` is what some entry declares for a name that goes there. */
  ghost predicate DeclaredContent(h: Hasher, declared: set<Entry>, path: Path, data: Bytes) {
    exists e | e in declared :: Destination(e.path) == Some(path) && h.ofBytes(data) == e.sha
  }

  /** No file disappears, and a file changes only if its content was what `declared` says of its own path. */
  ghost predicate Protected(h: Hasher, before: Files, after: Files, declared: set<Entry>) {
    forall path | path in before ::
      path in after && (DeclaredContent(h, declared, path, before[path]) || after[path] == before[path])
  }

  // ----- Layers -----

  /** The entries of one manifest by path; a later entry replaces an earlier one. */
  function Expected(entries: seq<Entry>): map<string, string> {
    if entries == [] then map[]
    else Expected(entries[..|entries| - 1])[entries[|entries| - 1].path := entries[|entries| - 1].sha]
  }

  /** What the last archive to declare a path declares for it. */
  function DeclaredBy(chain: seq<Archive>): map<string, string> {
    if chain == [] then map[]
    else DeclaredBy(chain[..|chain| - 1]) + Expected(chain[|chain| - 1].manifest.artifacts)
  }

  function AllMembers(chain: seq<Archive>): seq<Member> {
    if chain == [] then [] else AllMembers(chain[..|chain| - 1]) + chain[|chain| - 1].members
  }

  function EntriesOf(declared: map<string, string>): set<Entry> {
    set name | name in declared :: Entry(name, declared[name])
  }

  function DeclaredEntries(chain: seq<Archive>): set<Entry> {
    set a, e | a in chain && e in a.manifest.artifacts :: e
  }

  predicate Fits(h: Hasher, a: Archive, earlier: map<string, string>, below: Files) {
    && Accepted(h, a)
    && AllAllowed(h, Expected(a.manifest.artifacts), earlier, below, a.members)
    && Expected(a.manifest.artifacts).Keys <= ArtifactNames(a.members)
  }

  predicate LayerOk(h: Hasher, files: Files, chain: seq<Archive>, i: nat)
    requires i < |chain|
  {
    Fits(h, chain[i], DeclaredBy(chain[..i]), Overlay(files, AllMembers(chain[..i])))
  }

  /** Every layer may be written onto what the layers below left. */
  predicate LayersOk(h: Hasher, files: Files, chain: seq<Archive>) {
    forall i | 0 <= i < |chain| :: LayerOk(h, files, chain, i)
  }

  ghost predicate LayersUpTo(h: Hasher, files: Files, chain: seq<Archive>, n: nat)
    requires n <= |chain|
  {
    forall i | 0 <= i < n :: LayerOk(h, files, chain, i)
  }

  lemma LayersUpToStep(h: Hasher, files: Files, chain: seq<Archive>, n: nat)
    requires n < |chain| && LayersUpTo(h, files, chain, n)
    ensures LayersUpTo(h, files, chain, n + 1) <==> LayerOk(h, files, chain, n)
    ensures LayersOk(h, files, chain) ==> LayerOk(h, files, chain, n)
  {
  }

  lemma LayersAll(h: Hasher, files: Files, chain: seq<Archive>)
    requires LayersUpTo(h, files, chain, |chain|)
    ensures LayersOk(h, files, chain)
  {
  }

  lemma LayerSnoc(files: Files, chain: seq<Archive>, a: Archive)
    ensures AllMembers(chain + [a]) == AllMembers(chain) + a.members
    ensures Overlay(files, AllMembers(chain + [a])) == Overlay(Overlay(files, AllMembers(chain)), a.members)
    ensures DeclaredBy(chain + [a]) == DeclaredBy(chain) + Expected(a.manifest.artifacts)
  {
    assert (chain + [a])[..|chain|] == chain;
    OverlayConcat(files, AllMembers(chain), a.members);
  }

  lemma {:induction false} ExpectedMembers(entries: seq<Entry>, path: string)
    ensures path in Expected(entries) ==> Entry(path, Expected(entries)[path]) in entries
    ensures (exists e | e in entries :: e.path == path) ==> path in Expected(entries)
  {
    if entries != [] {
      ExpectedMembers(entries[..|entries| - 1], path);
      assert entries == entries[..|entries| - 1] + [entries[|entries| - 1]];
    }
  }

  /** What is declared so far is declared by some archive of the chain. */
  lemma {:induction false} EarlierIsDeclared(chain: seq<Archive>, i: nat)
    requires i <= |chain|
    ensures EntriesOf(DeclaredBy(chain[..i])) <= DeclaredEntries(chain)
  {
    if i > 0 {
      EarlierIsDeclared(chain, i - 1);
      var a := chain[i - 1];
      assert chain[..i][..i - 1] == chain[..i - 1];
      var before, declared := DeclaredBy(chain[..i - 1]), DeclaredBy(chain[..i]);
      forall name | name in declared ensures Entry(name, declared[name]) in DeclaredEntries(chain) {
        if name in Expected(a.manifest.artifacts) {
          ExpectedMembers(a.manifest.artifacts, name);
          assert a in chain;
        } else {
          assert Entry(name, before[name]) in EntriesOf(before);
        }
      }
    }
  }

  lemma ProtectedTwice(h: Hasher, a: Files, b: Files, c: Files, all: set<Entry>, some: set<Entry>)
    requires Protected(h, a, b, all) && Protected(h, b, c, some) && some <= all
    ensures Protected(h, a, c, all)
  {
    forall path | path in a && !DeclaredContent(h, all, path, a[path]) ensures path in c && c[path] == a[path] {
      assert b[path] == a[path];
      assert !DeclaredContent(h, some, path, b[path]);
    }
  }

  /** Where a layered restore leaves every path: the last member landing on it, or what was there before. */
  lemma LayeredRestore(h: Hasher, files: Files, chain: seq<Archive>, path: Path)
    requires LayersOk(h, files, chain)
    ensures var after, last := Overlay(files, AllMembers(chain)), LastWrite(AllMembers(chain), path);
            && (last.Some? <==> exists m | m in AllMembers(chain) :: Lands(m, path))
            && FileAt(after, path) == if last.Some? then last else FileAt(files, path)
  {
    OverlayAt(files, AllMembers(chain), path);
    LastWriteExists(AllMembers(chain), path);
  }

  /** Every artifact member is declared by its own archive, and different names go to different files. */
  ghost predicate FullyDeclared(chain: seq<Archive>) {
    && (forall a, m | a in chain && m in a.members && IsArtifact(m) :: m.name in Expected(a.manifest.artifacts))
    && (forall m, n | m in AllMembers(chain) && n in AllMembers(chain) && IsArtifact(m) && IsArtifact(n)
                      && Destination(m.name) == Destination(n.name) :: m.name == n.name)
  }

  lemma FullyDeclaredPrefix(chain: seq<Archive>)
    requires FullyDeclared(chain) && chain != []
    ensures FullyDeclared(chain[..|chain| - 1])
  {
    var front := chain[..|chain| - 1];
    forall m | m in AllMembers(front) ensures m in AllMembers(chain) {
    }
  }

  lemma LayersPrefix(h: Hasher, files: Files, chain: seq<Archive>)
    requires LayersOk(h, files, chain) && chain != []
    ensures LayersOk(h, files, chain[..|chain| - 1])
  {
    var front := chain[..|chain| - 1];
    forall i | 0 <= i < |front| ensures LayerOk(h, files, front, i) {
      assert LayerOk(h, files, chain, i);
      assert front[..i] == chain[..i];
    }
  }

  lemma MemberChecked(h: Hasher, files: Files, chain: seq<Archive>, m: Member)
    requires LayersOk(h, files, chain) && chain != [] && m in chain[|chain| - 1].members && IsArtifact(m)
    ensures Destination(m.name).Some?
    ensures var expected := Expected(chain[|chain| - 1].manifest.artifacts);
            m.name in expected ==> h.ofBytes(m.data) == expected[m.name]
  {
    var n := |chain| - 1;
    var a := chain[n];
    assert LayerOk(h, files, chain, n);
    var k :| 0 <= k < |a.members| && a.members[k] == m;
    assert Allowed(h, Expected(a.manifest.artifacts), DeclaredBy(chain[..n]),
                   Overlay(Overlay(files, AllMembers(chain[..n])), a.members[..k]), m);
  }

  // ----- What comes after the member a path was declared with -----

  /** Every archive carries what it declares. */
  predicate Supplied(chain: seq<Archive>) {
    forall a | a in chain :: Expected(a.manifest.artifacts).Keys <= ArtifactNames(a.members)
  }

  /** Where the last artifact with this name stands. */
  function LastNamed(members: seq<Member>, name: string): (k: nat)
    requires name in ArtifactNames(members)
    ensures k < |members| && IsArtifact(members[k]) && members[k].name == name
    ensures forall m | m in members[k + 1..] && IsArtifact(m) :: m.name != name
  {
    var n := |members| - 1;
    assert members == members[..n] + [members[n]];
    if IsArtifact(members[n]) && members[n].name == name then n
    else
      var k := LastNamed(members[..n], name);
      assert members[k + 1..] == members[..n][k + 1..] + [members[n]];
      k
  }

  /** The members that follow, in the whole chain, the last member `name` of the last archive that declares it. */
  function Later(chain: seq<Archive>, name: string): seq<Member>
    requires Supplied(chain) && name in DeclaredBy(chain)
  {
    var front, last := chain[..|chain| - 1], chain[|chain| - 1];
    if name in Expected(last.manifest.artifacts) then
      assert last in chain;
      last.members[LastNamed(last.members, name) + 1..]
    else Later(front, name) + last.members
  }

  /** A member that is not the archive's own declared `name`: another name, or an archive that does not declare it. */
  ghost predicate Intruder(chain: seq<Archive>, m: Member, name: string) {
    m.name != name || exists a | a in chain :: m in a.members && name !in Expected(a.manifest.artifacts)
  }

  lemma {:induction false} LaterAreIntruders(chain: seq<Archive>, name: string, m: Member)
    requires Supplied(chain) && name in DeclaredBy(chain) && m in Later(chain, name) && IsArtifact(m)
    ensures Intruder(chain, m, name) && m in AllMembers(chain)
  {
    var front, last := chain[..|chain| - 1], chain[|chain| - 1];
    assert last in chain;
    if name !in Expected(last.manifest.artifacts) && m !in last.members {
      LaterAreIntruders(front, name, m);
      if m.name == name {
        var a :| a in front && m in a.members && name !in Expected(a.manifest.artifacts);
        assert a in chain;
      }
    }
  }

  lemma LayersSupplied(h: Hasher, files: Files, chain: seq<Archive>)
    requires LayersOk(h, files, chain)
    ensures Supplied(chain)
  {
    forall a | a in chain ensures Expected(a.manifest.artifacts).Keys <= ArtifactNames(a.members) {
      var i :| 0 <= i < |chain| && chain[i] == a;
      assert LayerOk(h, files, chain, i);
    }
  }

  lemma SplitMembers(members: seq<Member>, k: nat)
    requires k < |members|
    ensures members == members[..k] + [members[k]] + members[k + 1..]
  {
  }

  lemma Reassociate<T>(a: seq<T>, b: seq<T>, x: T, c: seq<T>, d: seq<T>)
    ensures a + (b + [x] + c) == (a + b) + [x] + c
    ensures (b + [x] + c) + d == b + [x] + (c + d)
  {
  }

  /** The chain splits at the declared member, which has the declared checksum. */
  lemma {:induction false} SplitAtDeclared(h: Hasher, files: Files, chain: seq<Archive>, name: string)
    returns (before: seq<Member>, m: Member)
    requires LayersOk(h, files, chain) && Supplied(chain) && name in DeclaredBy(chain)
    ensures AllMembers(chain) == before + [m] + Later(chain, name)
    ensures IsArtifact(m) && m.name == name && Destination(name).Some? && h.ofBytes(m.data) == DeclaredBy(chain)[name]
  {
    var front, last := chain[..|chain| - 1], chain[|chain| - 1];
    assert last in chain;
    if name in Expected(last.manifest.artifacts) {
      var k := LastNamed(last.members, name);
      before, m := AllMembers(front) + last.members[..k], last.members[k];
      SplitMembers(last.members, k);
      Reassociate(AllMembers(front), last.members[..k], m, last.members[k + 1..], []);
      MemberChecked(h, files, chain, m);
    } else {
      LayersPrefix(h, files, chain);
      before, m := SplitAtDeclared(h, files, front, name);
      Reassociate([], before, m, Later(front, name), last.members);
    }
  }

  lemma {:induction false} LastWriteConcat(a: seq<Member>, b: seq<Member>, path: Path)
    ensures LastWrite(a + b, path) == if LastWrite(b, path).Some? then LastWrite(b, path) else LastWrite(a, path)
  {
    if b == [] {
      assert a + b == a;
    } else {
      assert (a + b)[..|a + b| - 1] == a + b[..|b| - 1];
      LastWriteConcat(a, b[..|b| - 1], path);
    }
  }

  lemma LastWriteOne(before: seq<Member>, m: Member, later: seq<Member>, path: Path)
    requires Lands(m, path)
    ensures LastWrite(before + [m] + later, path) == if LastWrite(later, path).Some? then LastWrite(later, path) else Some(m.data)
  {
    LastWriteConcat(before + [m], later, path);
    assert (before + [m])[..|before|] == before;
  }

  /**
    * After a layered restore a declared path holds the declared bytes exactly when no later member goes there, or the
    * last one that does carries those bytes too. All such members are undeclared or go by another name.
    */
  lemma DeclaredPathExact(h: Hasher, files: Files, chain: seq<Archive>, name: string, data: Bytes)
    requires h.Faithful() && LayersOk(h, files, chain) && name in DeclaredBy(chain) && h.ofBytes(data) == DeclaredBy(chain)[name]
    ensures Supplied(chain) && Destination(name).Some?
    ensures forall m | m in Later(chain, name) && Lands(m, Destination(name).value) :: Intruder(chain, m, name)
    ensures var path, later := Destination(name).value, Later(chain, name);
            FileAt(Overlay(files, AllMembers(chain)), path) == Some(data) <==>
            (forall m | m in later :: !Lands(m, path)) || LastWrite(later, path) == Some(data)
  {
    LayersSupplied(h, files, chain);
    var before, m := SplitAtDeclared(h, files, chain, name);
    var path, later := Destination(name).value, Later(chain, name);
    LastWriteOne(before, m, later, path);
    OverlayAt(files, AllMembers(chain), path);
    LastWriteExists(later, path);
    forall x | x in later && Lands(x, path) ensures Intruder(chain, x, name) {
      LaterAreIntruders(chain, name, x);
    }
  }

  /** In a fully declared chain nothing intrudes, so each declared path holds what the last archive to declare it declares. */
  lemma DeclaredPathsHold(h: Hasher, files: Files, chain: seq<Archive>, name: string)
    requires LayersOk(h, files, chain) && FullyDeclared(chain) && name in DeclaredBy(chain)
    ensures Destination(name).Some?
    ensures var file := FileAt(Overlay(files, AllMembers(chain)), Destination(name).value);
            file.Some? && h.ofBytes(file.value) == DeclaredBy(chain)[name]
  {
    LayersSupplied(h, files, chain);
    var before, m := SplitAtDeclared(h, files, chain, name);
    var path, later := Destination(name).value, Later(chain, name);
    assert m in AllMembers(chain);
    forall x | x in later ensures !Lands(x, path) {
      if Lands(x, path) {
        LaterAreIntruders(chain, name, x);
      }
    }
    LastWriteExists(later, path);
    LastWriteOne(before, m, later, path);
    OverlayAt(files, AllMembers(chain), path);
  }

  function OneFile(h: Hasher, id: string, parent: string, entries: seq<Entry>, m: Member): Archive {
    Archive(Manifest(2, id, parent, "w", map[], map[], 0, h.ofEvents([]), entries, []), [], [m])
  }

  lemma OneFileAccepted(h: Hasher, id: string, parent: string, entries: seq<Entry>, m: Member)
    requires h.Faithful() && IsArtifact(m) && entries in {[], [Entry(m.name, h.ofBytes(m.data))]}
    ensures Accepted(h, OneFile(h, id, parent, entries, m))
    ensures Expected(entries) == if entries == [] then map[] else map[m.name := h.ofBytes(m.data)]
  {
    var a := OneFile(h, id, parent, entries, m);
    assert m.name != "";
    assert SnapshotFiles([]) == [];
    if entries != [] {
      assert entries[..0] == [];
      assert Declared(entries) == map[m.name := h.ofBytes(m.data)];
      assert Expected(entries) == map[m.name := h.ofBytes(m.data)];
      assert m in a.members && IsPayload(m);
    }
    assert Payloads(a.manifest) == Declared(entries);
    assert EntriesOk(a.manifest);
  }

  lemma OneMember(h: Hasher, expected: map<string, string>, earlier: map<string, string>, files: Files, m: Member)
    requires IsArtifact(m) && Destination(m.name).Some?
    ensures AllAllowed(h, expected, earlier, files, [m]) <==> Allowed(h, expected, earlier, files, m)
    ensures Overlay(files, [m]) == files[Destination(m.name).value := m.data]
    ensures ArtifactNames([m]) == {m.name}
  {
    assert [m][..0] == [];
    assert [m][0] == m;
  }

  lemma LayersSnoc(h: Hasher, files: Files, chain: seq<Archive>, a: Archive)
    requires LayersOk(h, files, chain) && Fits(h, a, DeclaredBy(chain), Overlay(files, AllMembers(chain)))
    ensures LayersOk(h, files, chain + [a])
  {
    var longer := chain + [a];
    forall i | 0 <= i < |longer| ensures LayerOk(h, files, longer, i) {
      if i < |chain| {
        assert LayerOk(h, files, chain, i);
        assert longer[..i] == chain[..i];
      } else {
        assert longer[..i] == chain;
      }
    }
  }

  lemma LonelyLayer(files: Files, base: Archive)
    ensures AllMembers([]) == [] && AllMembers([base]) == base.members && Overlay(files, []) == files
    ensures DeclaredBy([]) == map[] && DeclaredBy([base]) == Expected(base.manifest.artifacts)
  {
    var empty: seq<Archive>, nothing: map<string, string> := [], map[];
    LayerSnoc(files, empty, base);
    assert empty + [base] == [base];
    assert nothing + Expected(base.manifest.artifacts) == Expected(base.manifest.artifacts);
  }

  lemma OneLayer(h: Hasher, files: Files, base: Archive)
    requires Fits(h, base, map[], files)
    ensures LayersOk(h, files, [base])
  {
    LonelyLayer(files, base);
    assert [base][..0] == [];
    assert LayerOk(h, files, [base], 0);
  }

  lemma TwoLayers(h: Hasher, files: Files, base: Archive, increment: Archive)
    requires Fits(h, base, map[], files)
    requires Fits(h, increment, Expected(base.manifest.artifacts), Overlay(files, base.members))
    ensures var chain := [base, increment];
            && LayersOk(h, files, chain)
            && Overlay(files, AllMembers(chain)) == Overlay(Overlay(files, base.members), increment.members)
            && DeclaredBy(chain) == Expected(base.manifest.artifacts) + Expected(increment.manifest.artifacts)
  {
    assert [base] + [increment] == [base, increment];
    OneLayer(h, files, base);
    LonelyLayer(files, base);
    LayerSnoc(files, [base], increment);
    LayersSnoc(h, files, [base], increment);
  }

  lemma EmptyChainOk(h: Hasher, base: Archive, increment: Archive)
    requires Accepted(h, base) && Accepted(h, increment) && base.events == increment.events == []
    requires base.manifest.parentId == "" && increment.manifest.parentId == base.manifest.archiveId != ""
    requires base.manifest.workspaceId == increment.manifest.workspaceId && increment.manifest.ranges == map[]
    ensures ChainOk(h, [base, increment])
  {
    var chain, none: seq<Archive> := [base, increment], [];
    assert chain == [base] + [increment] && [base] == none + [base];
    ChainSnoc([base], increment);
    ChainSnoc(none, base);
    assert ChainEvents(chain) == [];
    assert Linked(chain, 0) && Linked(chain, 1);
  }

  /** A later archive that carries a file without declaring it replaces what the base declared. */
  lemma UndeclaredMemberWins(h: Hasher, name: string, first: Bytes, second: Bytes)
    requires h.Faithful() && StartsWith(name, ARTIFACTS) && Destination(name).Some? && first != second
    ensures var base := OneFile(h, "a", "", [Entry(name, h.ofBytes(first))], Member(name, true, first));
            var increment := OneFile(h, "b", "a", [], Member(name, true, second));
            var chain := [base, increment];
            && ChainOk(h, chain) && LayersOk(h, map[], chain)
            && name in DeclaredBy(chain) && DeclaredBy(chain)[name] == h.ofBytes(first)
            && FileAt(Overlay(map[], AllMembers(chain)), Destination(name).value) == Some(second)
  {
    var m, n := Member(name, true, first), Member(name, true, second);
    var entries := [Entry(name, h.ofBytes(first))];
    OneFileAccepted(h, "a", "", entries, m);
    OneFileAccepted(h, "b", "a", [], n);
    OneMember(h, Expected(entries), map[], map[], m);
    OneMember(h, map[], Expected(entries), Overlay(map[], [m]), n);
    var base, increment := OneFile(h, "a", "", entries, m), OneFile(h, "b", "a", [], n);
    TwoLayers(h, map[], base, increment);
    EmptyChainOk(h, base, increment);
  }

  class DataDirectory {
    var files: Files

    /** The body of the member loop. */
    method RestoreMember(h: Hasher, m: Member, expected: map<string, string>, earlier: map<string, string>)
      returns (r: Result<bool, ArchiveError>)
      modifies this
      ensures r.Ok? <==> Allowed(h, expected, earlier, old(files), m)
      ensures r.Ok? ==> files == if IsArtifact(m) then old(files)[Destination(m.name).value := m.data] else old(files)
      ensures r.Err? || !m.regular || !("artifacts/" <= m.name) ==> files == old(files)
      ensures Protected(h, old(files), files, EntriesOf(earlier))
    {
      if !IsArtifact(m) {
        return Ok(false);
      }
      if Destination(m.name).None? {
        return Err(UnsafePath);
      }
      var path := Destination(m.name).value;
      if m.name in expected && h.ofBytes(m.data) != expected[m.name] {
        return Err(ArtifactMismatch);
      }
      if path in files {
        if files[path] == m.data {
          return Ok(false);
        }
        if m.name !in earlier || h.ofBytes(files[path]) != earlier[m.name] {
          return Err(ArtifactDiffers);
        }
        assert Entry(m.name, earlier[m.name]) in EntriesOf(earlier);
      }
      files := files[path := m.data];
      return Ok(true);
    }

    /** `restore_artifacts`. A failure leaves what was written before it. */
    method RestoreArtifacts(h: Hasher, members: seq<Member>, expected: map<string, string>, earlier: map<string, string>)
      returns (r: Result<nat, ArchiveError>)
      modifies this
      ensures r.Ok? <==> AllAllowed(h, expected, earlier, old(files), members) && expected.Keys <= ArtifactNames(members)
      ensures r.Ok? ==> files == Overlay(old(files), members) && r.value <= |members|
      ensures exists k | 0 <= k <= |members| :: WroteUpTo(h, expected, earlier, old(files), members, k, files)
      ensures Protected(h, old(files), files, EntriesOf(earlier))
    {
      var restored: nat, seen: set<string> := 0, {};
      WroteNothing(h, expected, earlier, files, members);
      for k := 0 to |members|
        invariant WroteUpTo(h, expected, earlier, old(files), members, k, files)
        invariant seen == ArtifactNames(members[..k])
        invariant restored <= k
        invariant Protected(h, old(files), files, EntriesOf(earlier))
      {
        var member := members[k];
        ghost var current := files;
        var step := RestoreMember(h, member, expected, earlier);
        WroteOneMore(h, expected, earlier, old(files), members, k, current);
        NamesSnoc(members, k);
        ProtectedTwice(h, old(files), current, files, EntriesOf(earlier), EntriesOf(earlier));
        if step.Err? {
          return Err(step.error);
        }
        if step.value {
          restored := restored + 1;
        }
        if IsArtifact(member) {
          seen := seen + {member.name};
        }
      }
      assert members[..|members|] == members;
      if expected.Keys - seen != {} {
        return Err(ArtifactMissing);
      }
      assert forall name | name in expected.Keys :: name in seen || name in expected.Keys - seen;
      return Ok(restored);
    }

    /** One archive of a chain that began on the files `start`. */
    method RestoreLayer(h: Hasher, chain: seq<Archive>, i: nat, previous: map<string, string>, ghost start: Files)
      returns (r: Result<map<string, string>, ArchiveError>)
      requires i < |chain| && previous == DeclaredBy(chain[..i]) && files == Overlay(start, AllMembers(chain[..i]))
      modifies this
      ensures r.Ok? <==> LayerOk(h, start, chain, i)
      ensures r.Ok? ==> files == Overlay(start, AllMembers(chain[..i + 1])) && r.value == DeclaredBy(chain[..i + 1])
      ensures WroteInLayer(h, start, chain, i, files)
      ensures Protected(h, old(files), files, DeclaredEntries(chain))
    {
      assert chain[..i + 1] == chain[..i] + [chain[i]];
      LayerSnoc(start, chain[..i], chain[i]);
      EarlierIsDeclared(chain, i);
      var expected := Expected(chain[i].manifest.artifacts);
      WroteNothing(h, expected, previous, files, chain[i].members);
      var checked := VerifyArchive(h, chain[i]);
      if checked.Err? {
        return Err(checked.error);
      }
      var layer := RestoreArtifacts(h, chain[i].members, expected, previous);
      if layer.Err? {
        return Err(layer.error);
      }
      return Ok(previous + expected);
    }

    /** The artifact loop of `restore_archive`: the archives of a chain, oldest first. */
    method RestoreLayers(h: Hasher, chain: seq<Archive>) returns (r: Result<(), ArchiveError>)
      modifies this
      ensures r.Ok? <==> LayersOk(h, old(files), chain)
      ensures r.Ok? ==> files == Overlay(old(files), AllMembers(chain))
      ensures r.Err? ==> exists i | 0 <= i < |chain| ::
                LayersUpTo(h, old(files), chain, i) && WroteInLayer(h, old(files), chain, i, files)
      ensures Protected(h, old(files), files, DeclaredEntries(chain))
    {
      var previous: map<string, string> := map[];
      for i := 0 to |chain|
        invariant previous == DeclaredBy(chain[..i])
        invariant files == Overlay(old(files), AllMembers(chain[..i]))
        invariant LayersUpTo(h, old(files), chain, i)
        invariant Protected(h, old(files), files, DeclaredEntries(chain))
      {
        ghost var before := files;
        LayersUpToStep(h, old(files), chain, i);
        var layer := RestoreLayer(h, chain, i, previous, old(files));
        ProtectedTwice(h, old(files), before, files, DeclaredEntries(chain), DeclaredEntries(chain));
        if layer.Err? {
          return Err(layer.error);
        }
        previous := layer.value;
      }
      assert chain[..|chain|] == chain;
      LayersAll(h, old(files), chain);
      return Ok(());
    }
  }

  /** The first `k` members were allowed and written, and nothing else. */
  ghost predicate WroteUpTo(h: Hasher, expected: map<string, string>, earlier: map<string, string>, before: Files,
                            members: seq<Member>, k: nat, after: Files)
    requires k <= |members|
  {
    AllAllowed(h, expected, earlier, before, members[..k]) && after == Overlay(before, members[..k])
  }

  /** The layers below the `i`-th are written, and of that one a beginning. */
  ghost predicate WroteInLayer(h: Hasher, before: Files, chain: seq<Archive>, i: nat, after: Files)
    requires i < |chain|
  {
    var a := chain[i];
    exists k | 0 <= k <= |a.members| ::
      WroteUpTo(h, Expected(a.manifest.artifacts), DeclaredBy(chain[..i]), Overlay(before, AllMembers(chain[..i])), a.members, k, after)
  }

  lemma WroteNothing(h: Hasher, expected: map<string, string>, earlier: map<string, string>, files: Files, members: seq<Member>)
    ensures WroteUpTo(h, expected, earlier, files, members, 0, files)
  {
  }

  lemma WroteOneMore(h: Hasher, expected: map<string, string>, earlier: map<string, string>, before: Files,
                     members: seq<Member>, k: nat, current: Files)
    requires k < |members| && WroteUpTo(h, expected, earlier, before, members, k, current)
    ensures Allowed(h, expected, earlier, current, members[k]) ==>
              WroteUpTo(h, expected, earlier, before, members, k + 1,
                        if IsArtifact(members[k]) then current[Destination(members[k].name).value := members[k].data] else current)
    ensures !Allowed(h, expected, earlier, current, members[k]) ==> !AllAllowed(h, expected, earlier, before, members)
  {
    assert members[..k + 1] == members[..k] + [members[k]];
    if Allowed(h, expected, earlier, current, members[k]) {
      OverlaySnoc(before, members[..k], members[k]);
      AllowedSnoc(h, expected, earlier, before, members[..k], members[k]);
    }
  }

  lemma NamesSnoc(members: seq<Member>, k: nat)
    requires k < |members|
    ensures ArtifactNames(members[..k + 1]) == ArtifactNames(members[..k]) + (if IsArtifact(members[k]) then {members[k].name} else {})
  {
    assert members[..k + 1] == members[..k] + [members[k]];
  }

  lemma AllowedSnoc(h: Hasher, expected: map<string, string>, earlier: map<string, string>, files: Files,
                    members: seq<Member>, m: Member)
    requires AllAllowed(h, expected, earlier, files, members) && Allowed(h, expected, earlier, Overlay(files, members), m)
    ensures AllAllowed(h, expected, earlier, files, members + [m])
  {
    var longer := members + [m];
    forall k | 0 <= k < |longer| ensures Allowed(h, expected, earlier, Overlay(files, longer[..k]), longer[k]) {
      if k < |members| {
        assert longer[..k] == members[..k];
      } else {
        assert longer[..k] == members;
      }
    }
  }
}
