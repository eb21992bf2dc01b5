/** Compaction of routine items loses nothing. */
module Compaction {
  import opened Basics
  import opened Ordering
  import opened Text
  import opened Platforms
  import opened Digests
  import opened Delivery

  lemma {:induction false} DedupFacts<T>(s: seq<T>)
    ensures NoDup(Dedup(s)) && Elems(Dedup(s)) == Elems(s)
    ensures NoDup(s) ==> Dedup(s) == s
  {
    if s != [] {
      DedupFacts(s[1..]);
      assert s == [s[0]] + s[1..];
      assert Elems(s) == {s[0]} + Elems(s[1..]);
      if s[0] in s[1..] {
        assert s[0] in Elems(s[1..]);
      } else {
        assert s[0] !in Elems(Dedup(s[1..]));
        assert Elems([s[0]] + Dedup(s[1..])) == {s[0]} + Elems(Dedup(s[1..]));
      }
    }
  }

  lemma {:induction false} CardNoDup<T>(s: seq<T>)
    requires |Elems(s)| == |s|
    ensures NoDup(s)
  {
    if s != [] {
      assert s == [s[0]] + s[1..];
      assert Elems(s) == {s[0]} + Elems(s[1..]);
      ElemsCard(s[1..]);
      assert s[0] !in Elems(s[1..]);
      CardNoDup(s[1..]);
    }
  }

  /** In a valid item, references and event ids are in bijection. */
  lemma RefsInjective(it: DigestItem)
    requires ValidItem(it)
    ensures NoDup(it.refs)
    ensures forall r, s | r in it.refs && s in it.refs && r.event == s.event :: r == s
  {
    NoDupCard(it.eventIds);
    ElemsCard(it.refs);
    ImageCard(EventOfRef, Elems(it.refs));
    assert Image(EventOfRef, Elems(it.refs)) == Elems(it.eventIds) by {
      forall id | id in Elems(it.eventIds) ensures id in Image(EventOfRef, Elems(it.refs)) {
        assert id in set r | r in it.refs :: r.event;
        var r :| r in it.refs && r.event == id;
        assert r in Elems(it.refs) && EventOfRef(r) == id;
      }
    }
    CardNoDup(it.refs);
    assert forall r | r in it.refs :: r in Elems(it.refs);
  }

  ghost predicate ItemsOk(ws: string, items: seq<DigestItem>) {
    && (forall it | it in items :: ValidItem(it) && it.workspaceId == ws && !it.urgent && !IsUrgent(it.severity))
    && NoDup(ItemIds(items)) && NoDup(EventIds(items))
  }

  lemma RoutineOk(d: Digest)
    requires ValidDigest(d)
    ensures ItemsOk(d.workspaceId, d.routine)
  {
    var f := (it: DigestItem) => it.eventIds;
    assert Map(f, Items(d)) == Map(f, d.routine) + Map(f, d.urgent);
    FlattenConcat(Map(f, d.routine), Map(f, d.urgent));
    NoDupParts(EventIds(d.routine), EventIds(d.urgent));
    assert ItemIds(Items(d)) == ItemIds(d.routine) + ItemIds(d.urgent);
    NoDupParts(ItemIds(d.routine), ItemIds(d.urgent));
    assert forall it | it in d.routine :: it in Items(d);
  }

  /** References of different items differ, so the flattened reference list has no repeats. */
  lemma AllRefsNoDup(ws: string, items: seq<DigestItem>)
    requires ItemsOk(ws, items)
    ensures NoDup(AllRefs(items)) && |AllRefs(items)| == |EventIds(items)|
    ensures forall r :: r in AllRefs(items) <==> exists it | it in items :: r in it.refs
  {
    var ids := Map((it: DigestItem) => it.eventIds, items);
    var refs := Map((it: DigestItem) => it.refs, items);
    forall i | 0 <= i < |refs| ensures NoDup(refs[i]) {
      RefsInjective(items[i]);
    }
    forall i, j, r | 0 <= i < j < |refs| && r in refs[i] ensures r !in refs[j] {
      RefEventIn(items[i], r);
      FlattenDisjoint(ids, i, j, r.event);
      if r in refs[j] {
        RefEventIn(items[j], r);
      }
    }
    FlattenNoDup(refs);
    FlattenLength(ids);
    FlattenLength(refs);
    assert Map((x: seq<string>) => |x|, ids) == Map((x: seq<Ref>) => |x|, refs) by {
      assert forall i | 0 <= i < |items| :: ValidItem(items[i]);
    }
    forall r ensures r in AllRefs(items) <==> exists it | it in items :: r in it.refs {
      FlattenMember(refs, r);
      if it :| it in items && r in it.refs {
        var i :| 0 <= i < |items| && items[i] == it;
        assert r in refs[i];
      }
    }
  }

  lemma RefEventIn(it: DigestItem, r: Ref)
    requires ValidItem(it) && r in it.refs
    ensures r.event in it.eventIds
  {
    assert r.event in (set s | s in it.refs :: s.event);
    assert r.event in Elems(it.eventIds);
  }

  lemma EventInItems(items: seq<DigestItem>, id: string)
    ensures id in EventIds(items) <==> exists it | it in items :: id in it.eventIds
  {
    var ids := Map((it: DigestItem) => it.eventIds, items);
    FlattenMember(ids, id);
    if it :| it in items && id in it.eventIds {
      var i :| 0 <= i < |items| && items[i] == it;
      assert id in ids[i];
    }
  }

  lemma {:induction false} MaxItemSeverityMember(items: seq<DigestItem>)
    requires items != []
    ensures exists it | it in items :: it.severity == MaxItemSeverity(items)
    ensures forall it | it in items :: Rank(it.severity) <= Rank(MaxItemSeverity(items))
  {
    if |items| == 1 {
      assert items[0] in items;
    } else {
      MaxItemSeverityMember(items[1..]);
      var it :| it in items[1..] && it.severity == MaxItemSeverity(items[1..]);
      assert it in items && items[0] in items;
      assert items == [items[0]] + items[1..];
    }
  }

  lemma RollupHeadVisible(logical: nat, groups: nat)
    ensures Visible(RollupHead(logical, groups)) && Trimmed(RollupHead(logical, groups))
  {
    DecimalPlain(logical);
    DecimalTrimmed(logical);
    assert Visible(Decimal(logical)) by {
      assert !Space(Decimal(logical)[0]);
    }
    CountedPlain(" routine updates across ", groups, " groups");
    VisibleAppend(Decimal(logical), Counted(" routine updates across ", groups, " groups"));
  }

  lemma CopyNotePlain(n: nat)
    ensures Plain(CopyNote(n)) && !Space(CopyNote(n)[|CopyNote(n)| - 1])
  {
    if n == 1 {
      CountedPlain("; ", n, " duplicate copy suppressed");
    } else {
      CountedPlain("; ", n, " duplicate copies suppressed");
    }
  }

  lemma RollupSummaryVisible(logical: nat, groups: nat, duplicates: nat, action: bool)
    ensures Visible(RollupSummary(logical, groups, duplicates, action))
    ensures Trimmed(RollupSummary(logical, groups, duplicates, action))
  {
    RollupHeadVisible(logical, groups);
    CopyNotePlain(duplicates);
    var head := RollupHead(logical, groups);
    VisibleAppend(head, CopyNote(duplicates));
    var copies := if duplicates == 0 then head else head + CopyNote(duplicates);
    VisibleAppend(copies, "; some require action");
  }

  lemma {:induction false} DecimalTrimmed(n: nat)
    ensures !Space(Decimal(n)[|Decimal(n)| - 1])
  {
  }

  lemma {:induction false} TotalsSplit(items: seq<DigestItem>)
    requires forall it | it in items :: ValidItem(it)
    ensures TotalLogical(items) >= |items| && TotalDuplicates(items) >= 0
    ensures TotalLogical(items) + TotalDuplicates(items) == |EventIds(items)|
  {
    var l := (it: DigestItem) => it.logical;
    var d := (it: DigestItem) => it.duplicates;
    var e := (it: DigestItem) => it.eventIds;
    if items != [] {
      assert items[0] in items;
      TotalsSplit(items[1..]);
      assert Map(l, items)[1..] == Map(l, items[1..]);
      assert Map(d, items)[1..] == Map(d, items[1..]);
      assert Map(e, items)[1..] == Map(e, items[1..]);
    }
  }

  /** The rolled-up item passes every check of the item's constructor; this needs items not to share events. */
  lemma RollupValid(p: Platform, items: seq<DigestItem>, ws: string, start: int, end: int)
    requires p.CleanRollupIds() && ItemsOk(ws, items) && |items| > DETAIL_LIMIT
    ensures var c := CompactRoutine(p, items, ws, start, end)[0];
            && ValidItem(c) && !IsUrgent(c.severity) && Clean(c.itemId) && Trimmed(c.summary)
            && Elems(c.eventIds) == Elems(EventIds(items)) && Elems(c.refs) == Elems(AllRefs(items))
  {
    var c := CompactRoutine(p, items, ws, start, end)[0];
    AllRefsNoDup(ws, items);
    TotalsSplit(items);
    RollupSummaryVisible(NatOf(TotalLogical(items)), |items|, NatOf(TotalDuplicates(items)), c.actionRequired);
    MaxItemSeverityMember(items);
    DedupFacts(EventIds(items));
    DedupFacts(AllRefs(items));
    SortContents(EventIds(items), Lex);
    SortContents(AllRefs(items), RefOrder);
    SortNoDup(EventIds(items), Lex);
    assert items[0] in items;
    RollupStrings(items, c);
  }

  lemma RollupStrings(items: seq<DigestItem>, c: DigestItem)
    requires forall it | it in items :: ValidItem(it)
    requires Elems(c.eventIds) == Elems(EventIds(items)) && Elems(c.refs) == Elems(AllRefs(items))
    requires forall r :: r in AllRefs(items) <==> exists it | it in items :: r in it.refs
    ensures forall id | id in c.eventIds :: !Blank(id)
    ensures forall r | r in c.refs :: ValidRef(r)
    ensures (set r | r in c.refs :: r.event) == Elems(c.eventIds)
  {
    forall id | id in c.eventIds ensures !Blank(id) {
      assert id in Elems(c.eventIds);
      EventInItems(items, id);
    }
    forall r | r in c.refs ensures ValidRef(r) && r.event in c.eventIds {
      assert r in Elems(c.refs);
      var it :| it in items && r in it.refs;
      RefEventIn(it, r);
      EventInItems(items, r.event);
      assert r.event in Elems(EventIds(items));
    }
    forall id | id in c.eventIds ensures exists r | r in c.refs :: r.event == id {
      assert id in Elems(c.eventIds);
      EventInItems(items, id);
      var it :| it in items && id in it.eventIds;
      assert ValidItem(it) && id in Elems(it.eventIds);
      var r :| r in it.refs && r.event == id;
      assert r in Elems(AllRefs(items));
      assert r in Elems(c.refs);
    }
  }

  lemma HeadIs(logical: nat, groups: nat)
    ensures RollupHead(logical, groups) == Decimal(logical) + " routine updates across " + Decimal(groups) + " groups"
  {
  }

  lemma CopyNoteIs(duplicates: nat)
    ensures CopyNote(duplicates) ==
            "; " + Decimal(duplicates) + (if duplicates == 1 then " duplicate copy suppressed" else " duplicate copies suppressed")
  {
  }

  lemma RollupText(logical: nat, groups: nat, duplicates: nat, action: bool)
    ensures RollupSummary(logical, groups, duplicates, action) ==
            Decimal(logical) + " routine updates across " + Decimal(groups) + " groups" +
            (if duplicates == 0 then ""
             else "; " + Decimal(duplicates) + (if duplicates == 1 then " duplicate copy suppressed" else " duplicate copies suppressed")) +
            (if action then "; some require action" else "")
  {
    HeadIs(logical, groups);
    CopyNoteIs(duplicates);
    var head := RollupHead(logical, groups);
    assert head + "" == head;
    assert (head + CopyNote(duplicates)) + "" == head + CopyNote(duplicates);
  }

  /** What the rollup says of the items it replaces. */
  lemma RollupSays(p: Platform, items: seq<DigestItem>, ws: string, start: int, end: int)
    requires ItemsOk(ws, items) && |items| > DETAIL_LIMIT
    ensures var c := CompactRoutine(p, items, ws, start, end)[0];
            && (c.actionRequired <==> exists it | it in items :: it.actionRequired)
            && (exists it | it in items :: it.severity == c.severity) && (forall it | it in items :: NoMoreSevere(it.severity, c.severity))
            && c.logical == TotalLogical(items) >= 0 && c.duplicates == TotalDuplicates(items) >= 0
            && c.summary ==
               Decimal(c.logical) + " routine updates across " + Decimal(|items|) + " groups" +
               (if c.duplicates == 0 then ""
                else "; " + Decimal(c.duplicates) + (if c.duplicates == 1 then " duplicate copy suppressed" else " duplicate copies suppressed")) +
               (if c.actionRequired then "; some require action" else "")
  {
    var c := CompactRoutine(p, items, ws, start, end)[0];
    TotalsSplit(items);
    MaxItemSeverityMember(items);
    RollupText(c.logical, |items|, c.duplicates, c.actionRequired);
  }

  /**
   * Compaction conserves: the compacted routine digest is valid, refers to the same events through
   * the same evidence, and reports the same totals.
   */
  lemma CompactionConserves(p: Platform, d: Digest)
    requires p.CleanRollupIds() && ValidDigest(d)
    ensures var c := CompactRoutine(p, d.routine, d.workspaceId, d.start, d.end);
            && ValidDigest(Digest(d.workspaceId, d.start, d.end, c, []))
            && |c| <= DETAIL_LIMIT && (c == [] <==> d.routine == [])
            && Elems(EventIds(c)) == Elems(EventIds(d.routine))
            && Elems(AllRefs(c)) == Elems(AllRefs(d.routine))
            && TotalLogical(c) == TotalLogical(d.routine)
            && TotalDuplicates(c) == TotalDuplicates(d.routine)
  {
    RoutineOk(d);
    var c := CompactRoutine(p, d.routine, d.workspaceId, d.start, d.end);
    var part := Digest(d.workspaceId, d.start, d.end, c, []);
    assert Items(part) == c;
    if |d.routine| > DETAIL_LIMIT {
      RollupValid(p, d.routine, d.workspaceId, d.start, d.end);
      SingletonTotals(c[0]);
      assert c == [c[0]];
    }
  }

  lemma SingletonTotals(it: DigestItem)
    ensures EventIds([it]) == it.eventIds && AllRefs([it]) == it.refs
    ensures TotalLogical([it]) == it.logical && TotalDuplicates([it]) == it.duplicates
  {
    var e := Map((x: DigestItem) => x.eventIds, [it]);
    var r := Map((x: DigestItem) => x.refs, [it]);
    var l := Map((x: DigestItem) => x.logical, [it]);
    var d := Map((x: DigestItem) => x.duplicates, [it]);
    assert e == [it.eventIds] && r == [it.refs] && l == [it.logical] && d == [it.duplicates];
    assert Flatten(e) == e[0] + Flatten(e[1..]) && Flatten(r) == r[0] + Flatten(r[1..]);
    assert Sum(l) == l[0] + Sum(l[1..]) && Sum(d) == d[0] + Sum(d[1..]);
  }
}
