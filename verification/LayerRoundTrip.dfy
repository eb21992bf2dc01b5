/** Artifact files archived as a base plus increments come back when the chain is restored. */
module LayerRoundTrips {
  import opened Basics
  import opened Archives
  import opened Captures
  import opened RoundTrips
  import opened Artifacts

  ghost predicate FileOf(stages: seq<Stage>, m: Member) {
    exists s | s in stages :: m in s.files
  }

  /** Every file has a destination, and different names have different destinations. */
  ghost predicate Portable(stages: seq<Stage>) {
    && (forall m | FileOf(stages, m) :: Destination(m.name).Some?)
    && (forall m, n | FileOf(stages, m) && FileOf(stages, n) && Destination(m.name) == Destination(n.name) :: m.name == n.name)
  }

  /** The file was collected from `path` below the data directory. */
  ghost predicate CollectedFrom(m: Member, path: Path) {
    m.regular && Relative(path) && m.name == ARTIFACTS + Join(path)
  }

  ghost predicate PlainFile(m: Member) {
    exists path :: CollectedFrom(m, path) && Plain(path)
  }

  /** Every file was collected from a path without backslashes. */
  ghost predicate PlainFiles(stages: seq<Stage>) {
    forall m | FileOf(stages, m) :: PlainFile(m)
  }

  /** A plain file lands on a path exactly when it was collected from there. */
  lemma PlainLands(m: Member, path: Path)
    requires PlainFile(m)
    ensures Lands(m, path) <==> CollectedFrom(m, path)
  {
    var home :| CollectedFrom(m, home) && Plain(home);
    PlainDestination(home);
    assert m.name[..|ARTIFACTS|] == ARTIFACTS;
    if CollectedFrom(m, path) {
      assert Join(path) == m.name[|ARTIFACTS|..] == Join(home);
      SplitJoin(path);
      SplitJoin(home);
    }
  }

  lemma PlainIsPortable(stages: seq<Stage>)
    requires PlainFiles(stages)
    ensures Portable(stages)
  {
    forall m | FileOf(stages, m) ensures Destination(m.name).Some? && CollectedFrom(m, Destination(m.name).value) {
      assert PlainFile(m);
      var home :| CollectedFrom(m, home) && Plain(home);
      PlainDestination(home);
    }
  }

  lemma ExpectedSnoc(h: Hasher, files: seq<Member>, m: Member)
    ensures Expected(Map(EntryOf(h), files + [m])) == Expected(Map(EntryOf(h), files))[m.name := h.ofBytes(m.data)]
  {
    var entries := Map(EntryOf(h), files + [m]);
    assert entries[..|files|] == Map(EntryOf(h), files) && entries[|files|] == Entry(m.name, h.ofBytes(m.data));
  }

  lemma FilesSplit(files: seq<Member>)
    requires FilesOk(files) && files != []
    ensures var front, last := files[..|files| - 1], files[|files| - 1];
            && files == front + [last] && FilesOk(front) && IsArtifact(last)
            && (forall m | m in front :: m.name != last.name)
            && (forall m | m in files :: m in front || m == last)
            && ArtifactNames(files) == ArtifactNames(front) + {last.name}
  {
    var n := |files| - 1;
    forall m | m in files[..n] ensures m.name != files[n].name {
      var j :| 0 <= j < n && files[j] == m;
    }
    NamesSnoc(files, n);
    assert files[..n + 1] == files;
    assert files[n] in files;
  }

  lemma {:induction false} ExpectedOfFiles(h: Hasher, files: seq<Member>)
    requires FilesOk(files)
    ensures Expected(Map(EntryOf(h), files)).Keys == ArtifactNames(files)
    ensures forall m | m in files :: m.name in Expected(Map(EntryOf(h), files)) &&
                                     Expected(Map(EntryOf(h), files))[m.name] == h.ofBytes(m.data)
  {
    if files != [] {
      var front, last := files[..|files| - 1], files[|files| - 1];
      FilesSplit(files);
      ExpectedOfFiles(h, front);
      ExpectedSnoc(h, front, last);
    }
  }

  /** Of the members of a captured archive only the collected files are artifacts. */
  lemma ArtifactsOfStage(stage: Stage)
    requires PayloadFilesOk(stage)
    ensures forall m | m in stage.files + stage.tree && IsArtifact(m) :: m in stage.files
    ensures ArtifactNames(stage.files + stage.tree) == ArtifactNames(stage.files)
  {
    forall m | m in stage.tree ensures !IsArtifact(m) {
      var i :| 0 <= i < |stage.tree| && stage.tree[i] == m;
      NotAnArtifact(stage, i);
    }
  }

  lemma {:induction false} ChainMembers(h: Hasher, workspace: string, stages: seq<Stage>, m: Member)
    requires forall s | s in stages :: PayloadFilesOk(s)
    requires m in AllMembers(MakeChain(h, workspace, stages)) && IsArtifact(m)
    ensures FileOf(stages, m)
  {
    if stages != [] {
      var front, last := stages[..|stages| - 1], stages[|stages| - 1];
      var chain := MakeChain(h, workspace, front);
      LayerSnoc(map[], chain, Capture(h, workspace, last, Parent(chain)));
      assert last in stages;
      ArtifactsOfStage(last);
      if m in AllMembers(chain) {
        ChainMembers(h, workspace, front, m);
        var s :| s in front && m in s.files;
        assert s in stages;
      }
    }
  }

  lemma {:induction false} ChainDeclares(h: Hasher, workspace: string, stages: seq<Stage>, a: Archive, m: Member)
    requires forall s | s in stages :: PayloadFilesOk(s)
    requires a in MakeChain(h, workspace, stages) && m in a.members && IsArtifact(m)
    ensures m.name in Expected(a.manifest.artifacts)
  {
    if stages != [] {
      var front, last := stages[..|stages| - 1], stages[|stages| - 1];
      assert last in stages;
      if a in MakeChain(h, workspace, front) {
        ChainDeclares(h, workspace, front, a, m);
      } else {
        ExpectedOfFiles(h, last.files);
        ArtifactsOfStage(last);
      }
    }
  }

  lemma MadeFullyDeclared(h: Hasher, workspace: string, stages: seq<Stage>)
    requires Portable(stages) && forall s | s in stages :: PayloadFilesOk(s)
    ensures FullyDeclared(MakeChain(h, workspace, stages))
  {
    var chain := MakeChain(h, workspace, stages);
    forall a, m | a in chain && m in a.members && IsArtifact(m) ensures m.name in Expected(a.manifest.artifacts) {
      ChainDeclares(h, workspace, stages, a, m);
    }
    forall m | m in AllMembers(chain) && IsArtifact(m) ensures FileOf(stages, m) {
      ChainMembers(h, workspace, stages, m);
    }
  }

  /** A name that any archive of a fully declared chain carries is declared. */
  lemma {:induction false} CarriedIsDeclared(chain: seq<Archive>, m: Member)
    requires FullyDeclared(chain) && m in AllMembers(chain) && IsArtifact(m)
    ensures m.name in DeclaredBy(chain)
  {
    if chain != [] {
      var front, last := chain[..|chain| - 1], chain[|chain| - 1];
      assert last in chain;
      if m !in last.members {
        FullyDeclaredPrefix(chain);
        CarriedIsDeclared(front, m);
      }
    }
  }

  /** What lies at the destination of `m` after a chain restored onto nothing is what the chain declares for its name. */
  lemma BelowIsDeclared(h: Hasher, chain: seq<Archive>, m: Member)
    requires LayersOk(h, map[], chain) && FullyDeclared(chain)
    requires IsArtifact(m) && Destination(m.name).Some?
    requires forall n | n in AllMembers(chain) && IsArtifact(n) && Destination(n.name) == Destination(m.name) :: n.name == m.name
    ensures var below, path := Overlay(map[], AllMembers(chain)), Destination(m.name).value;
            path in below ==> m.name in DeclaredBy(chain) && h.ofBytes(below[path]) == DeclaredBy(chain)[m.name]
  {
    var below, path := Overlay(map[], AllMembers(chain)), Destination(m.name).value;
    OverlayAt(map[], AllMembers(chain), path);
    if path in below {
      LastWriteExists(AllMembers(chain), path);
      var n :| n in AllMembers(chain) && Lands(n, path);
      CarriedIsDeclared(chain, n);
      DeclaredPathsHold(h, map[], chain, m.name);
    }
  }

  /** Earlier files of the same archive lie elsewhere. */
  lemma OthersElsewhere(below: Files, files: seq<Member>, k: nat)
    requires FilesOk(files) && k < |files| && Destination(files[k].name).Some?
    requires forall m, n | m in files && n in files && Destination(m.name) == Destination(n.name) :: m.name == n.name
    ensures FileAt(Overlay(below, files[..k]), Destination(files[k].name).value) == FileAt(below, Destination(files[k].name).value)
  {
    var path := Destination(files[k].name).value;
    forall m | m in files[..k] ensures !Lands(m, path) {
      var j :| 0 <= j < k && files[j] == m;
      assert m in files && files[k] in files;
    }
    LastWriteExists(files[..k], path);
    OverlayAt(below, files[..k], path);
  }

  lemma NextLayerAllowed(h: Hasher, chain: seq<Archive>, files: seq<Member>, k: nat)
    requires LayersOk(h, map[], chain) && FullyDeclared(chain) && FilesOk(files) && k < |files|
    requires forall m | m in files :: Destination(m.name).Some?
    requires forall m, n | m in files && n in files && Destination(m.name) == Destination(n.name) :: m.name == n.name
    requires forall m, n | m in files && n in AllMembers(chain) && IsArtifact(n) && Destination(n.name) == Destination(m.name) :: n.name == m.name
    ensures Allowed(h, Expected(Map(EntryOf(h), files)), DeclaredBy(chain),
                    Overlay(Overlay(map[], AllMembers(chain)), files[..k]), files[k])
  {
    var m := files[k];
    assert m in files;
    ExpectedOfFiles(h, files);
    BelowIsDeclared(h, chain, m);
    OthersElsewhere(Overlay(map[], AllMembers(chain)), files, k);
  }

  lemma NextLayerFits(h: Hasher, chain: seq<Archive>, a: Archive, stage: Stage)
    requires LayersOk(h, map[], chain) && FullyDeclared(chain) && PayloadFilesOk(stage) && Accepted(h, a)
    requires a.manifest.artifacts == Map(EntryOf(h), stage.files) && a.members == stage.files + stage.tree
    requires forall m | m in stage.files :: Destination(m.name).Some?
    requires forall m, n | m in stage.files && n in stage.files && Destination(m.name) == Destination(n.name) :: m.name == n.name
    requires forall m, n | m in stage.files && n in AllMembers(chain) && IsArtifact(n) && Destination(n.name) == Destination(m.name) :: n.name == m.name
    ensures Fits(h, a, DeclaredBy(chain), Overlay(map[], AllMembers(chain)))
  {
    ExpectedOfFiles(h, stage.files);
    ArtifactsOfStage(stage);
    var expected, below := Expected(a.manifest.artifacts), Overlay(map[], AllMembers(chain));
    forall k | 0 <= k < |stage.files|
      ensures Allowed(h, expected, DeclaredBy(chain), Overlay(below, stage.files[..k]), stage.files[k])
    {
      NextLayerAllowed(h, chain, stage.files, k);
    }
    TreeIsAllowed(h, expected, DeclaredBy(chain), below, stage);
  }

  /** Members that are no artifacts ask for nothing. */
  lemma TreeIsAllowed(h: Hasher, expected: map<string, string>, earlier: map<string, string>, below: Files, stage: Stage)
    requires PayloadFilesOk(stage) && AllAllowed(h, expected, earlier, below, stage.files)
    ensures AllAllowed(h, expected, earlier, below, stage.files + stage.tree)
  {
    var members, n := stage.files + stage.tree, |stage.files|;
    forall k | 0 <= k < |members| ensures Allowed(h, expected, earlier, Overlay(below, members[..k]), members[k]) {
      if k < n {
        assert members[..k] == stage.files[..k];
      } else {
        NotAnArtifact(stage, k - n);
      }
    }
  }

  lemma NotAnArtifact(stage: Stage, i: nat)
    requires PayloadFilesOk(stage) && i < |stage.tree|
    ensures !IsArtifact(stage.tree[i])
  {
    assert stage.tree[i] in stage.tree;
    if IsArtifact(stage.tree[i]) {
      PrefixesDiffer(stage.tree[i].name);
    }
  }

  lemma PortablePrefix(stages: seq<Stage>)
    requires Portable(stages) && stages != []
    ensures Portable(stages[..|stages| - 1])
  {
    var front := stages[..|stages| - 1];
    forall m | FileOf(front, m) ensures FileOf(stages, m) {
      var s :| s in front && m in s.files;
      assert s in stages;
    }
  }

  lemma LastMade(h: Hasher, workspace: string, stages: seq<Stage>)
    requires h.Faithful() && Growing(stages)
    ensures var chain := MakeChain(h, workspace, stages[..|stages| - 1]);
            var a := Capture(h, workspace, stages[|stages| - 1], Parent(chain));
            MakeChain(h, workspace, stages) == chain + [a] && Accepted(h, a)
  {
    ChainRoundTrip(h, workspace, stages);
    assert MakeChain(h, workspace, stages)[|stages| - 1] in MakeChain(h, workspace, stages);
  }

  lemma FilesOfStages(h: Hasher, workspace: string, stages: seq<Stage>, m: Member)
    requires stages != [] && (forall s | s in stages :: PayloadFilesOk(s)) && IsArtifact(m)
    requires m in stages[|stages| - 1].files || m in AllMembers(MakeChain(h, workspace, stages[..|stages| - 1]))
    ensures FileOf(stages, m)
  {
    if m in stages[|stages| - 1].files {
      assert stages[|stages| - 1] in stages;
    } else {
      ChainMembers(h, workspace, stages[..|stages| - 1], m);
      var s :| s in stages[..|stages| - 1] && m in s.files;
      assert s in stages;
    }
  }

  lemma NextStageFits(h: Hasher, workspace: string, stages: seq<Stage>)
    requires h.Faithful() && Growing(stages) && Portable(stages)
    requires LayersOk(h, map[], MakeChain(h, workspace, stages[..|stages| - 1]))
    ensures var chain := MakeChain(h, workspace, stages[..|stages| - 1]);
            Fits(h, Capture(h, workspace, stages[|stages| - 1], Parent(chain)), DeclaredBy(chain), Overlay(map[], AllMembers(chain)))
  {
    var front, last := stages[..|stages| - 1], stages[|stages| - 1];
    var chain := MakeChain(h, workspace, front);
    LastMade(h, workspace, stages);
    PortablePrefix(stages);
    forall s | s in stages ensures PayloadFilesOk(s) {
      var i :| 0 <= i < |stages| && stages[i] == s;
      assert StageOk(stages[i]);
    }
    MadeFullyDeclared(h, workspace, front);
    assert forall m | m in last.files :: IsArtifact(m);
    forall m | (m in last.files || m in AllMembers(chain)) && IsArtifact(m) ensures FileOf(stages, m) {
      FilesOfStages(h, workspace, stages, m);
    }
    NextLayerFits(h, chain, Capture(h, workspace, last, Parent(chain)), last);
  }

  /** Layers whose files go to different places never conflict. */
  lemma {:induction false} PortableLayersFit(h: Hasher, workspace: string, stages: seq<Stage>)
    requires h.Faithful() && Growing(stages) && Portable(stages)
    ensures LayersOk(h, map[], MakeChain(h, workspace, stages))
  {
    var front := stages[..|stages| - 1];
    if front != [] {
      GrowingPrefix(stages);
      PortablePrefix(stages);
      PortableLayersFit(h, workspace, front);
    }
    LastMade(h, workspace, stages);
    NextStageFits(h, workspace, stages);
    var chain := MakeChain(h, workspace, front);
    LayersSnoc(h, map[], chain, Capture(h, workspace, stages[|stages| - 1], Parent(chain)));
  }

  // ----- Files that come back to where they were -----

  /** Base plus increments, restored onto an empty directory, never conflict, however the files changed between stages. */
  lemma LayersAlwaysFit(h: Hasher, workspace: string, stages: seq<Stage>)
    requires h.Faithful() && Growing(stages) && PlainFiles(stages)
    ensures LayersOk(h, map[], MakeChain(h, workspace, stages))
  {
    PlainIsPortable(stages);
    PortableLayersFit(h, workspace, stages);
  }

  /** What the last stage that had a file at `path` had there. */
  ghost function LastCollected(stages: seq<Stage>, path: Path): Option<Bytes> {
    if stages == [] then None
    else
      var last := stages[|stages| - 1];
      if exists m | m in last.files :: CollectedFrom(m, path) then
        var m :| m in last.files && CollectedFrom(m, path);
        Some(m.data)
      else LastCollected(stages[..|stages| - 1], path)
  }

  /** One layer leaves at `path` what its stage had there, or what was there. */
  lemma LayerAt(stage: Stage, below: Files, path: Path)
    requires PayloadFilesOk(stage) && forall m | m in stage.files :: PlainFile(m)
    ensures var after := FileAt(Overlay(below, stage.files + stage.tree), path);
            && (forall m | m in stage.files && CollectedFrom(m, path) :: after == Some(m.data))
            && ((forall m | m in stage.files :: !CollectedFrom(m, path)) ==> after == FileAt(below, path))
  {
    var members := stage.files + stage.tree;
    ArtifactsOfStage(stage);
    OverlayAt(below, members, path);
    LastWriteExists(members, path);
    forall m | m in members && Lands(m, path) ensures m in stage.files && CollectedFrom(m, path) {
      PlainLands(m, path);
    }
    forall m | m in stage.files && CollectedFrom(m, path) ensures Lands(m, path) && m in members {
      PlainLands(m, path);
    }
    forall m, n | m in stage.files && n in stage.files && m.name == n.name ensures m == n {
      SameNameSameFile(stage.files, m, n);
    }
  }

  lemma SameNameSameFile(files: seq<Member>, m: Member, n: Member)
    requires OnePerName(files) && m in files && n in files && m.name == n.name
    ensures m == n
  {
    var i :| 0 <= i < |files| && files[i] == m;
    var j :| 0 <= j < |files| && files[j] == n;
    if i < j || j < i {
      assert files[i].name == files[j].name;
    }
  }

  /**
    * The whole directory after restoring a base plus increments onto nothing: at every path, what the last stage that
    * had a file there had, and nothing where no stage had one. So files deleted between stages come back too.
    */
  lemma {:induction false} DirectoryRestored(h: Hasher, workspace: string, stages: seq<Stage>, path: Path)
    requires PlainFiles(stages) && forall s | s in stages :: PayloadFilesOk(s)
    ensures FileAt(Overlay(map[], AllMembers(MakeChain(h, workspace, stages))), path) == LastCollected(stages, path)
  {
    if stages != [] {
      var front, last := stages[..|stages| - 1], stages[|stages| - 1];
      var chain := MakeChain(h, workspace, front);
      assert last in stages;
      forall m | FileOf(front, m) || m in last.files ensures FileOf(stages, m) {
        if FileOf(front, m) {
          var s :| s in front && m in s.files;
          assert s in stages;
        }
      }
      DirectoryRestored(h, workspace, front, path);
      LayerSnoc(map[], chain, Capture(h, workspace, last, Parent(chain)));
      LayerAt(last, Overlay(map[], AllMembers(chain)), path);
    }
  }

  /** After the restore every file of the last stage is where it was, with its bytes. */
  lemma FilesComeBack(h: Hasher, workspace: string, stages: seq<Stage>, m: Member, path: Path)
    requires h.Faithful() && Growing(stages) && PlainFiles(stages)
    requires m in stages[|stages| - 1].files && CollectedFrom(m, path)
    ensures LayersOk(h, map[], MakeChain(h, workspace, stages))
    ensures FileAt(Overlay(map[], AllMembers(MakeChain(h, workspace, stages))), path) == Some(m.data)
  {
    LayersAlwaysFit(h, workspace, stages);
    var last := stages[|stages| - 1];
    assert last in stages;
    forall s | s in stages ensures PayloadFilesOk(s) {
      var i :| 0 <= i < |stages| && stages[i] == s;
      assert StageOk(stages[i]);
    }
    DirectoryRestored(h, workspace, stages, path);
    forall n | n in last.files && CollectedFrom(n, path) ensures n == m {
      SameNameSameFile(last.files, m, n);
    }
  }

  /** Nothing is ever restored to a path with a backslash, so a file collected from one does not come back there. */
  lemma BackslashIsLost(h: Hasher, workspace: string, stages: seq<Stage>, path: Path)
    requires !Plain(path)
    ensures FileAt(Overlay(map[], AllMembers(MakeChain(h, workspace, stages))), path) == None
  {
    var members := AllMembers(MakeChain(h, workspace, stages));
    OverlayAt(map[], members, path);
    LastWriteExists(members, path);
    if m :| m in members && Lands(m, path) {
      DestinationStaysInside(m.name);
    }
  }

  /** Two different files of one data directory whose names lead to the same place. */
  lemma BackslashCollides()
    ensures var (a, b) := (["uploads", "x\\y"], ["uploads", "x", "y"]);
            Relative(a) && Relative(b) && a != b && Destination(ARTIFACTS + Join(a)) == Destination(ARTIFACTS + Join(b)) == Some(b)
  {
    var a, b := ["uploads", "x\\y"], ["uploads", "x", "y"];
    assert a[0] == "uploads" && a[1] == "x\\y" && |a| != |b|;
    assert a[1..] == ["x\\y"] && b[1..] == ["x", "y"] && b[1..][1..] == ["y"];
    assert Join(a) == "uploads/x\\y";
    assert Join(b) == "uploads/x/y" by {
      assert Join(b[1..]) == "x/y";
    }
    PlainDestination(b);
    ForwardKeeps(ARTIFACTS + Join(b));
    assert Forward(ARTIFACTS + Join(a)) == ARTIFACTS + Join(b) == Forward(ARTIFACTS + Join(b));
  }
}
