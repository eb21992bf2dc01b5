/** Reading one notification window from several source adapters. */
module SourceCollections {
  import opened Basics
  import opened Ordering
  import opened Text
  import opened Digests

  /** `held` is what the adapter has for its sources in the window; `read` is what it answers under a limit. */
  datatype Adapter = Adapter(name: string, listed: seq<string>, held: seq<string> -> seq<Event>, read: (seq<string>, nat) -> seq<Event>)

  datatype SourceError =
    | BadBound | BadSourceIds | TooManySources | BadSource | DuplicateSource | SourcesChanged | Denied | Overflow | OutOfScope

  /** `islice`. */
  function Cut<T>(s: seq<T>, n: nat): seq<T> {
    if |s| <= n then s else s[..n]
  }

  /** Up to its limit the adapter answers with what it holds, in order. */
  ghost predicate HonoursLimit(a: Adapter) {
    forall owned, n :: Cut(a.read(owned, n), n) == Cut(a.held(owned), n)
  }

  function SourcesOf(a: Adapter): seq<string> {
    Map(Stripped, a.listed)
  }

  function AllSources(adapters: seq<Adapter>): seq<string> {
    if adapters == [] then [] else AllSources(adapters[..|adapters| - 1]) + SourcesOf(adapters[|adapters| - 1])
  }

  predicate NoneBlank(s: seq<string>) {
    forall x | x in s :: !Blank(x)
  }

  predicate ListedOk(a: Adapter) {
    NoneBlank(a.listed)
  }

  /** Every source has a name, no two adapters share one, and there are not too many. */
  predicate OwnershipOk(adapters: seq<Adapter>, maxSources: nat) {
    && (forall i | 0 <= i < |adapters| :: ListedOk(adapters[i]))
    && NoDup(AllSources(adapters))
    && |AllSources(adapters)| <= maxSources
  }

  /** The map names, for every listed source, the adapter that lists it. */
  ghost predicate Owners(adapters: seq<Adapter>, ownership: map<string, string>) {
    && ownership.Keys == Elems(AllSources(adapters))
    && forall i | 0 <= i < |adapters| :: OwnedIn(adapters[i], ownership)
  }

  ghost predicate OwnedIn(a: Adapter, ownership: map<string, string>) {
    forall s | s in SourcesOf(a) :: s in ownership && ownership[s] == a.name
  }

  lemma SourcesSnoc(adapters: seq<Adapter>, a: Adapter)
    ensures AllSources(adapters + [a]) == AllSources(adapters) + SourcesOf(a)
  {
    assert (adapters + [a])[..|adapters|] == adapters;
  }

  lemma NoDupSnoc<T>(a: seq<T>, x: T)
    requires NoDup(a)
    ensures NoDup(a + [x]) <==> x !in a
  {
    if x in a {
      var i :| 0 <= i < |a| && a[i] == x;
      assert (a + [x])[i] == (a + [x])[|a|];
    }
  }

  lemma {:induction false} SourcesPrefix(adapters: seq<Adapter>, i: nat)
    requires i <= |adapters|
    ensures exists rest :: AllSources(adapters) == AllSources(adapters[..i]) + rest
    decreases |adapters| - i
  {
    if i == |adapters| {
      assert adapters[..i] == adapters;
      assert AllSources(adapters) == AllSources(adapters[..i]) + [];
    } else {
      SourcesPrefix(adapters, i + 1);
      var rest :| AllSources(adapters) == AllSources(adapters[..i + 1]) + rest;
      assert adapters[..i + 1] == adapters[..i] + [adapters[i]];
      SourcesSnoc(adapters[..i], adapters[i]);
      assert AllSources(adapters) == AllSources(adapters[..i]) + (SourcesOf(adapters[i]) + rest);
    }
  }

  /** A fault among the first adapters is a fault of the whole list. */
  lemma FaultStays(adapters: seq<Adapter>, maxSources: nat, i: nat)
    requires i <= |adapters| && OwnershipOk(adapters, maxSources)
    ensures OwnershipOk(adapters[..i], maxSources)
  {
    SourcesPrefix(adapters, i);
    var rest :| AllSources(adapters) == AllSources(adapters[..i]) + rest;
    NoDupParts(AllSources(adapters[..i]), rest);
  }

  /** What the ownership loop has recorded of one adapter. */
  ghost predicate Recorded(before: map<string, string>, name: string, sources: seq<string>, ownership: map<string, string>) {
    && ownership.Keys == before.Keys + Elems(sources)
    && (forall s | s in before && s !in sources :: ownership[s] == before[s])
    && (forall s | s in sources :: s in ownership && ownership[s] == name)
  }

  lemma RecordedSnoc(before: map<string, string>, name: string, sources: seq<string>, ownership: map<string, string>, s: string)
    requires Recorded(before, name, sources, ownership)
    ensures Recorded(before, name, sources + [s], ownership[s := name])
  {
  }

  lemma SourceSnoc(sofar: seq<string>, own: seq<string>, j: nat)
    requires j < |own| && NoDup(sofar + own[..j])
    ensures NoDup(sofar + own[..j + 1]) <==> own[j] !in sofar + own[..j]
    ensures NoDup(sofar + own) ==> NoDup(sofar + own[..j + 1])
    ensures Elems(sofar + own[..j + 1]) == Elems(sofar + own[..j]) + {own[j]}
  {
    assert sofar + own[..j + 1] == (sofar + own[..j]) + [own[j]];
    NoDupSnoc(sofar + own[..j], own[j]);
    if NoDup(sofar + own) {
      assert sofar + own == (sofar + own[..j + 1]) + own[j + 1..];
      NoDupParts(sofar + own[..j + 1], own[j + 1..]);
    }
  }

  /** The ownership loop after `j` sources of one adapter, following the sources `sofar`. */
  ghost predicate Recording(before: map<string, string>, name: string, sofar: seq<string>, own: seq<string>, j: nat,
                            ownership: map<string, string>)
    requires j <= |own|
  {
    && Recorded(before, name, own[..j], ownership)
    && NoDup(sofar + own[..j])
    && ownership.Keys == Elems(sofar + own[..j])
  }

  lemma RecordStart(before: map<string, string>, name: string, sofar: seq<string>, own: seq<string>)
    requires NoDup(sofar) && before.Keys == Elems(sofar)
    ensures Recording(before, name, sofar, own, 0, before)
  {
    assert sofar + own[..0] == sofar;
  }

  lemma RecordFresh(before: map<string, string>, name: string, sofar: seq<string>, own: seq<string>, j: nat,
                    ownership: map<string, string>)
    requires j < |own| && Recording(before, name, sofar, own, j, ownership) && own[j] !in ownership
    ensures Recording(before, name, sofar, own, j + 1, ownership[own[j] := name])
    ensures |ownership[own[j] := name].Keys| == |sofar| + j + 1
  {
    var after := ownership[own[j] := name];
    assert own[j] !in Elems(sofar + own[..j]);
    SourceSnoc(sofar, own, j);
    assert Recorded(before, name, own[..j + 1], after) by {
      RecordedSnoc(before, name, own[..j], ownership, own[j]);
      assert own[..j + 1] == own[..j] + [own[j]];
    }
    assert after.Keys == ownership.Keys + {own[j]} == Elems(sofar + own[..j + 1]);
    NoDupCard(sofar + own[..j + 1]);
  }

  lemma RecordClash(before: map<string, string>, name: string, sofar: seq<string>, own: seq<string>, j: nat,
                    ownership: map<string, string>)
    requires j < |own| && Recording(before, name, sofar, own, j, ownership) && own[j] in ownership
    ensures !NoDup(sofar + own)
  {
    assert own[j] in Elems(sofar + own[..j]);
    SourceSnoc(sofar, own, j);
  }

  lemma RecordEnd(before: map<string, string>, name: string, sofar: seq<string>, own: seq<string>, ownership: map<string, string>)
    requires Recording(before, name, sofar, own, |own|, ownership)
    ensures Recorded(before, name, own, ownership) && NoDup(sofar + own)
  {
    assert own[..|own|] == own;
  }

  ghost predicate NamedTo(listed: seq<string>, j: nat)
    requires j <= |listed|
  {
    forall k | 0 <= k < j :: !Blank(listed[k])
  }

  lemma NamedSnoc(listed: seq<string>, j: nat)
    requires j < |listed| && NamedTo(listed, j)
    ensures NamedTo(listed, j + 1) <==> !Blank(listed[j])
    ensures NoneBlank(listed) ==> !Blank(listed[j])
  {
  }

  lemma NamedAll(listed: seq<string>)
    requires NamedTo(listed, |listed|)
    ensures NoneBlank(listed)
  {
  }

  /** The ownership loop over one adapter, after the sources `sofar`. */
  method RecordAdapter(name: string, listed: seq<string>, maxSources: nat, before: map<string, string>, ghost sofar: seq<string>)
    returns (r: Result<map<string, string>, SourceError>)
    requires NoDup(sofar) && |sofar| <= maxSources && before.Keys == Elems(sofar)
    ensures r.Ok? <==> && NoneBlank(listed) && NoDup(sofar + Map(Stripped, listed))
                       && |sofar| + |listed| <= maxSources
    ensures r.Ok? ==> Recorded(before, name, Map(Stripped, listed), r.value)
  {
    ghost var own := Map(Stripped, listed);
    var sources := Cut(listed, maxSources + 1);
    if |sources| > maxSources {
      return Err(TooManySources);
    }
    var ownership := before;
    RecordStart(before, name, sofar, own);
    for j := 0 to |sources|
      invariant Recording(before, name, sofar, own, j, ownership)
      invariant |sofar| + j <= maxSources
      invariant NamedTo(listed, j)
    {
      NamedSnoc(listed, j);
      if Blank(sources[j]) {
        return Err(BadSource);
      }
      var source := Strip(sources[j]);
      assert source == own[j];
      if source in ownership {
        RecordClash(before, name, sofar, own, j, ownership);
        return Err(DuplicateSource);
      }
      RecordFresh(before, name, sofar, own, j, ownership);
      ownership := ownership[source := name];
      if |ownership.Keys| > maxSources {
        return Err(TooManySources);
      }
    }
    NamedAll(listed);
    RecordEnd(before, name, sofar, own, ownership);
    return Ok(ownership);
  }

  lemma OwnershipSnoc(adapters: seq<Adapter>, i: nat, maxSources: nat)
    requires i < |adapters| && OwnershipOk(adapters[..i], maxSources)
    ensures OwnershipOk(adapters[..i + 1], maxSources) <==>
            && ListedOk(adapters[i]) && NoDup(AllSources(adapters[..i]) + SourcesOf(adapters[i]))
            && |AllSources(adapters[..i])| + |adapters[i].listed| <= maxSources
  {
    assert adapters[..i + 1] == adapters[..i] + [adapters[i]];
    SourcesSnoc(adapters[..i], adapters[i]);
    if OwnershipOk(adapters[..i + 1], maxSources) {
      assert ListedOk(adapters[..i + 1][i]);
    } else if ListedOk(adapters[i]) {
      forall k | 0 <= k <= i ensures ListedOk(adapters[k]) {
        if k < i {
          assert ListedOk(adapters[..i][k]);
        }
      }
    }
  }

  lemma {:induction false} SourceListed(adapters: seq<Adapter>, k: nat, s: string)
    requires k < |adapters| && s in SourcesOf(adapters[k])
    ensures s in AllSources(adapters)
  {
    if k < |adapters| - 1 {
      SourceListed(adapters[..|adapters| - 1], k, s);
    }
  }

  lemma OwnersSnoc(adapters: seq<Adapter>, i: nat, before: map<string, string>, after: map<string, string>)
    requires i < |adapters| && Owners(adapters[..i], before)
    requires NoDup(AllSources(adapters[..i]) + SourcesOf(adapters[i]))
    requires Recorded(before, adapters[i].name, SourcesOf(adapters[i]), after)
    ensures Owners(adapters[..i + 1], after)
  {
    assert adapters[..i + 1] == adapters[..i] + [adapters[i]];
    SourcesSnoc(adapters[..i], adapters[i]);
    forall k | 0 <= k <= i ensures OwnedIn(adapters[k], after) {
      if k < i {
        assert OwnedIn(adapters[..i][k], before);
        forall s | s in SourcesOf(adapters[k]) ensures s in after && after[s] == adapters[k].name {
          SourceListed(adapters[..i], k, s);
          NoDupParts(AllSources(adapters[..i]), SourcesOf(adapters[i]));
        }
      }
    }
  }

  /** `_source_ownership`: every source gets exactly the adapter that lists it. */
  method SourceOwnership(adapters: seq<Adapter>, maxSources: nat) returns (r: Result<map<string, string>, SourceError>)
    ensures r.Ok? <==> OwnershipOk(adapters, maxSources)
    ensures r.Ok? ==> Owners(adapters, r.value)
  {
    var ownership: map<string, string> := map[];
    for i := 0 to |adapters|
      invariant OwnershipOk(adapters[..i], maxSources)
      invariant Owners(adapters[..i], ownership)
    {
      OwnershipSnoc(adapters, i, maxSources);
      var step := RecordAdapter(adapters[i].name, adapters[i].listed, maxSources, ownership, AllSources(adapters[..i]));
      if step.Err? {
        if OwnershipOk(adapters, maxSources) {
          FaultStays(adapters, maxSources, i + 1);
        }
        return Err(step.error);
      }
      OwnersSnoc(adapters, i, ownership, step.value);
      ownership := step.value;
    }
    assert adapters[..|adapters|] == adapters;
    return Ok(ownership);
  }

  // ----- Which adapter owns what -----

  /** The sources an adapter is asked about, in order. */
  function Owned(a: Adapter): seq<string> {
    Sort(SourcesOf(a), Lex)
  }

  function OwnedSet(ownership: map<string, string>, name: string): set<string> {
    set s | s in ownership && ownership[s] == name
  }

  predicate DistinctNames(adapters: seq<Adapter>) {
    forall i, j | 0 <= i < j < |adapters| :: adapters[i].name != adapters[j].name
  }

  lemma {:induction false} ListedSource(adapters: seq<Adapter>, s: string)
    requires s in AllSources(adapters)
    ensures exists k | 0 <= k < |adapters| :: s in SourcesOf(adapters[k])
  {
    if adapters != [] {
      var front, last := adapters[..|adapters| - 1], adapters[|adapters| - 1];
      if s in SourcesOf(last) {
        assert s in SourcesOf(adapters[|adapters| - 1]);
      } else {
        ListedSource(front, s);
        var k :| 0 <= k < |front| && s in SourcesOf(front[k]);
        assert s in SourcesOf(adapters[k]);
      }
    }
  }

  /** Ownership gives each adapter exactly the sources it lists. */
  lemma OwnedExactly(adapters: seq<Adapter>, ownership: map<string, string>, i: nat)
    requires i < |adapters| && DistinctNames(adapters) && Owners(adapters, ownership)
    ensures OwnedSet(ownership, adapters[i].name) == Elems(SourcesOf(adapters[i]))
  {
    assert OwnedIn(adapters[i], ownership);
    forall s | s in OwnedSet(ownership, adapters[i].name) ensures s in SourcesOf(adapters[i]) {
      assert s in Elems(AllSources(adapters));
      ListedSource(adapters, s);
      var k :| 0 <= k < |adapters| && s in SourcesOf(adapters[k]);
      assert OwnedIn(adapters[k], ownership);
    }
  }

  lemma {:induction false} OwnNoDup(adapters: seq<Adapter>, i: nat)
    requires i < |adapters| && NoDup(AllSources(adapters))
    ensures NoDup(SourcesOf(adapters[i]))
  {
    var front, last := adapters[..|adapters| - 1], adapters[|adapters| - 1];
    var sofar, own := AllSources(front), SourcesOf(last);
    assert AllSources(adapters) == sofar + own;
    if i < |front| {
      NoDupParts(sofar, own);
      OwnNoDup(front, i);
    } else {
      forall a, b | 0 <= a < b < |own| ensures own[a] != own[b] {
        assert (sofar + own)[|sofar| + a] != (sofar + own)[|sofar| + b];
      }
    }
  }

  /** The sources of one adapter, sorted. */
  method SortedOwned(ownership: map<string, string>, name: string) returns (owned: seq<string>)
    ensures SortedListing(owned, OwnedSet(ownership, name), Lex)
  {
    var found: seq<string> := [];
    var pending := OwnedSet(ownership, name);
    while pending != {}
      invariant pending <= OwnedSet(ownership, name)
      invariant Elems(found) == OwnedSet(ownership, name) - pending
      invariant NoDup(found)
      decreases pending
    {
      var s :| s in pending;
      assert s !in Elems(found);
      NoDupSnoc(found, s);
      assert Elems(found + [s]) == Elems(found) + {s};
      found := found + [s];
      pending := pending - {s};
    }
    LexOn(Elems(found));
    SortSorted(found, Lex);
    SortContents(found, Lex);
    SortNoDup(found, Lex);
    return Sort(found, Lex);
  }

  lemma OwnedIsListing(adapters: seq<Adapter>, maxSources: nat, ownership: map<string, string>, i: nat, owned: seq<string>)
    requires i < |adapters| && DistinctNames(adapters) && OwnershipOk(adapters, maxSources) && Owners(adapters, ownership)
    requires SortedListing(owned, OwnedSet(ownership, adapters[i].name), Lex)
    ensures owned == Owned(adapters[i])
  {
    var own := SourcesOf(adapters[i]);
    OwnedExactly(adapters, ownership, i);
    OwnNoDup(adapters, i);
    LexOn(Elems(own));
    SortSorted(own, Lex);
    SortContents(own, Lex);
    SortNoDup(own, Lex);
    NoDupSameElems(owned, Sort(own, Lex));
    SortedUnique(owned, Sort(own, Lex), Lex);
  }

  // ----- Reading -----

  function HeldBy(a: Adapter): seq<Event> {
    if Owned(a) == [] then [] else a.held(Owned(a))
  }

  /** Everything the adapters hold for their own sources, in adapter order. */
  function Everything(adapters: seq<Adapter>): seq<Event> {
    if adapters == [] then [] else Everything(adapters[..|adapters| - 1]) + HeldBy(adapters[|adapters| - 1])
  }

  predicate InScope(workspace: string, authorized: string -> bool, e: Event) {
    e.workspaceId == workspace && authorized(e.sourceId)
  }

  lemma EverythingSnoc(adapters: seq<Adapter>, i: nat)
    requires i < |adapters|
    ensures Everything(adapters[..i + 1]) == Everything(adapters[..i]) + HeldBy(adapters[i])
  {
    assert adapters[..i + 1][..i] == adapters[..i];
  }

  lemma {:induction false} EverythingPrefix(adapters: seq<Adapter>, i: nat)
    requires i <= |adapters|
    ensures Everything(adapters[..i]) <= Everything(adapters)
    decreases |adapters| - i
  {
    if i == |adapters| {
      assert adapters[..i] == adapters;
    } else {
      EverythingPrefix(adapters, i + 1);
      EverythingSnoc(adapters, i);
    }
  }

  /** The events a window read may return: few enough and all in scope. */
  predicate Admissible(workspace: string, authorized: string -> bool, maxEvents: int, events: seq<Event>) {
    |events| <= maxEvents && forall e | e in events :: InScope(workspace, authorized, e)
  }

  lemma InadmissibleStays(workspace: string, authorized: string -> bool, maxEvents: int, adapters: seq<Adapter>, i: nat)
    requires i < |adapters| && !Admissible(workspace, authorized, maxEvents, Everything(adapters[..i]) + HeldBy(adapters[i]))
    ensures !Admissible(workspace, authorized, maxEvents, Everything(adapters))
  {
    EverythingSnoc(adapters, i);
    EverythingPrefix(adapters, i + 1);
    var some, all := Everything(adapters[..i + 1]), Everything(adapters);
    if |some| <= maxEvents {
      var e :| e in some && !InScope(workspace, authorized, e);
      assert e in all;
    }
  }

  /** One adapter's batch, read with room for one event more than may still be taken. */
  method ReadAdapter(a: Adapter, owned: seq<string>, workspace: string, authorized: string -> bool, maxEvents: nat, events: seq<Event>)
    returns (r: Result<seq<Event>, SourceError>)
    requires HonoursLimit(a) && Admissible(workspace, authorized, maxEvents, events)
    ensures r.Ok? <==> Admissible(workspace, authorized, maxEvents, events + a.held(owned))
    ensures r.Ok? ==> r.value == events + a.held(owned)
  {
    var room := maxEvents - |events|;
    var batch := Cut(a.read(owned, room + 1), room + 1);
    assert batch == Cut(a.held(owned), room + 1);
    if |batch| > room {
      return Err(Overflow);
    }
    assert batch == a.held(owned);
    var all := events;
    for i := 0 to |batch|
      invariant all == events + batch[..i]
      invariant forall e | e in all :: InScope(workspace, authorized, e)
    {
      if batch[i].workspaceId != workspace {
        assert batch[i] in events + batch && !InScope(workspace, authorized, batch[i]);
        return Err(OutOfScope);
      }
      if !authorized(batch[i].sourceId) {
        assert batch[i] in events + batch && !InScope(workspace, authorized, batch[i]);
        return Err(Denied);
      }
      all := all + [batch[i]];
    }
    return Ok(all);
  }

  /** The adapter loop of `read_window`. */
  method ReadAdapters(adapters: seq<Adapter>, maxSources: nat, ownership: map<string, string>, workspace: string,
                      authorized: string -> bool, maxEvents: nat)
    returns (r: Result<seq<Event>, SourceError>)
    requires DistinctNames(adapters) && OwnershipOk(adapters, maxSources) && Owners(adapters, ownership)
    requires forall i | 0 <= i < |adapters| :: HonoursLimit(adapters[i])
    ensures r.Ok? <==> Admissible(workspace, authorized, maxEvents, Everything(adapters))
    ensures r.Ok? ==> r.value == Everything(adapters)
  {
    var events: seq<Event> := [];
    for i := 0 to |adapters|
      invariant events == Everything(adapters[..i])
      invariant Admissible(workspace, authorized, maxEvents, events)
    {
      EverythingSnoc(adapters, i);
      var owned := SortedOwned(ownership, adapters[i].name);
      OwnedIsListing(adapters, maxSources, ownership, i, owned);
      if owned != [] {
        var batch := ReadAdapter(adapters[i], owned, workspace, authorized, maxEvents, events);
        if batch.Err? {
          InadmissibleStays(workspace, authorized, maxEvents, adapters, i);
          return Err(batch.error);
        }
        events := batch.value;
      }
    }
    assert adapters[..|adapters|] == adapters;
    return Ok(events);
  }

  predicate SourceIdsOk(ids: seq<string>, maxSources: nat) {
    |ids| <= maxSources && NoneBlank(ids) && NoDup(ids)
  }

  method CheckSourceIds(ids: seq<string>, maxSources: nat) returns (ok: bool)
    ensures ok <==> SourceIdsOk(ids, maxSources)
  {
    if |ids| > maxSources || exists s | s in ids :: Blank(s) {
      return false;
    }
    DistinctByCard(ids);
    return |Elems(ids)| == |ids|;
  }

  /** `len(set(ids)) == len(ids)` says that there are no repeats. */
  lemma {:induction false} DistinctByCard<T>(s: seq<T>)
    ensures |Elems(s)| <= |s|
    ensures |Elems(s)| == |s| <==> NoDup(s)
  {
    if s == [] {
      assert Elems(s) == {};
    } else {
      var front, last := s[..|s| - 1], s[|s| - 1];
      assert s == front + [last];
      DistinctByCard(front);
      assert Elems(s) == Elems(front) + {last};
      if NoDup(front) {
        NoDupSnoc(front, last);
      } else if NoDup(s) {
        NoDupParts(front, [last]);
      }
    }
  }

  /** `read_window`: returns everything the adapters hold for the sources asked about, or fails; it never truncates. */
  method ReadWindow(adapters: seq<Adapter>, maxSources: nat, ids: seq<string>, workspace: string,
                    authorized: string -> bool, maxEvents: int)
    returns (r: Result<seq<Event>, SourceError>)
    requires DistinctNames(adapters) && forall i | 0 <= i < |adapters| :: HonoursLimit(adapters[i])
    ensures r.Ok? <==>
            && maxEvents >= 1 && SourceIdsOk(ids, maxSources) && OwnershipOk(adapters, maxSources)
            && Elems(ids) == Elems(AllSources(adapters)) && (forall s | s in ids :: authorized(s))
            && Admissible(workspace, authorized, maxEvents, Everything(adapters))
    ensures r.Ok? ==> r.value == Everything(adapters)
  {
    if maxEvents < 1 {
      return Err(BadBound);
    }
    var idsOk := CheckSourceIds(ids, maxSources);
    if !idsOk {
      return Err(BadSourceIds);
    }
    var ownership := SourceOwnership(adapters, maxSources);
    if ownership.Err? {
      return Err(ownership.error);
    }
    if Elems(ids) != ownership.value.Keys {
      return Err(SourcesChanged);
    }
    if exists s | s in ids :: !authorized(s) {
      return Err(Denied);
    }
    r := ReadAdapters(adapters, maxSources, ownership.value, workspace, authorized, maxEvents);
  }
}
