/** What every item and every digest built from a consistent set of events satisfies. */
module DigestFacts {
  import opened Basics
  import opened Ordering
  import opened Text
  import opened Platforms
  import opened Digests

  // ----- Items -----

  lemma SummaryVisible(title: string, logical: nat, total: nat)
    requires Visible(title) && logical <= total
    ensures Visible(Summary(title, logical, total))
    ensures Trimmed(title) ==> Trimmed(Summary(title, logical, total))
  {
    if logical > 1 {
      CountedPlain(" (", logical, " updates)");
      VisibleAppend(title, Counted(" (", logical, " updates)"));
      if total > logical {
        CountedPlain(" plus ", total - logical, " duplicate copies");
        VisibleAppend(title + Counted(" (", logical, " updates)"), Counted(" plus ", total - logical, " duplicate copies"));
      }
    } else if total > 1 {
      CountedPlain(" (", total, " copies)");
      VisibleAppend(title, Counted(" (", total, " copies)"));
    }
  }

  lemma {:induction false} LatestMember(s: seq<Event>)
    requires s != []
    ensures Latest(s) in s
  {
    if |s| > 1 {
      LatestMember(s[1..]);
    }
  }

  lemma {:induction false} MaxSeverityMember(s: seq<Event>)
    requires s != []
    ensures exists e | e in s :: e.severity == MaxSeverity(s)
    ensures forall e | e in s :: Rank(e.severity) <= Rank(MaxSeverity(s))
  {
    if |s| == 1 {
      assert s[0] in s;
    } else {
      MaxSeverityMember(s[1..]);
      var e :| e in s[1..] && e.severity == MaxSeverity(s[1..]);
      assert e in s && s[0] in s;
      assert s == [s[0]] + s[1..];
    }
  }

  /** The events of one group: one workspace, distinct ids. */
  ghost predicate GroupOk(ws: string, events: seq<Event>) {
    && events != [] && NoDup(events) && Consistent(Elems(events))
    && forall e | e in events :: ValidEvent(e) && e.workspaceId == ws
  }

  lemma SortedGroup(ws: string, events: seq<Event>)
    requires GroupOk(ws, events)
    ensures var s := Sort(events, IdOrder);
            && GroupOk(ws, s) && Elems(s) == Elems(events) && |s| == |events|
            && NoDup(Map((e: Event) => e.eventId, s))
  {
    SortContents(events, IdOrder);
    SortNoDup(events, IdOrder);
    var s := Sort(events, IdOrder);
    var ids := Map((e: Event) => e.eventId, s);
    forall i, j | 0 <= i < j < |ids| ensures ids[i] != ids[j] {
      assert s[i] in Elems(s) && s[j] in Elems(s);
      assert s[i] != s[j];
    }
  }

  /** The item's event ids and evidence references are exactly those of the group. */
  lemma ItemContents(p: Platform, ws: string, start: int, end: int, key: string, events: seq<Event>, urgent: bool)
    requires events != []
    ensures forall id :: id in MakeItem(p, ws, start, end, key, events, urgent).eventIds <==>
                         exists e | e in events :: e.eventId == id
    ensures forall r :: r in MakeItem(p, ws, start, end, key, events, urgent).refs <==>
                        exists e | e in events :: RefOf(e) == r
  {
    var it := MakeItem(p, ws, start, end, key, events, urgent);
    var s := Sort(events, IdOrder);
    SortContents(events, IdOrder);
    forall id ensures id in it.eventIds <==> exists e | e in events :: e.eventId == id {
      if id in it.eventIds {
        var i :| 0 <= i < |s| && s[i].eventId == id;
        assert s[i] in events;
      }
      if e :| e in events && e.eventId == id {
        var i :| 0 <= i < |s| && s[i] == e;
        assert it.eventIds[i] == id;
      }
    }
    forall r ensures r in it.refs <==> exists e | e in events :: RefOf(e) == r {
      if r in it.refs {
        var i :| 0 <= i < |s| && RefOf(s[i]) == r;
        assert s[i] in events;
      }
      if e :| e in events && RefOf(e) == r {
        var i :| 0 <= i < |s| && s[i] == e;
        assert it.refs[i] == r;
      }
    }
  }

  /** Constructing the item of a group never fails: every check of the item's constructor holds. */
  lemma ItemFacts(p: Platform, ws: string, start: int, end: int, key: string, events: seq<Event>, urgent: bool)
    requires p.CleanItemIds() && GroupOk(ws, events)
    ensures var it := MakeItem(p, ws, start, end, key, events, urgent);
            && ValidItem(it) && it.workspaceId == ws && it.urgent == urgent
            && it.itemId == p.itemId(ws, start, end, key)
            && |it.eventIds| == |events|
            && it.logical + it.duplicates == |events|
            && (exists e | e in events :: e.severity == it.severity)
            && (forall e | e in events :: Rank(e.severity) <= Rank(it.severity))
  {
    var it := MakeItem(p, ws, start, end, key, events, urgent);
    var s := Sort(events, IdOrder);
    SortedGroup(ws, events);
    LogicalAtMost(s);
    LatestMember(s);
    MaxSeverityMember(s);
    SummaryVisible(Latest(s).title, |LogicalKeys(s)|, |s|);
    SortContents(events, IdOrder);
    assert Identifier(ws) by { assert s[0] in s; }
    RefsMatchIds(s, it);
    assert Clean(p.itemId(ws, start, end, key));
  }

  lemma RefsMatchIds(s: seq<Event>, it: DigestItem)
    requires it.eventIds == Map((e: Event) => e.eventId, s) && it.refs == Map((e: Event) => RefOf(e), s)
    requires forall e | e in s :: ValidEvent(e)
    ensures (set r | r in it.refs :: r.event) == Elems(it.eventIds)
    ensures forall r | r in it.refs :: ValidRef(r)
    ensures forall id | id in it.eventIds :: !Blank(id)
  {
    var left := set r | r in it.refs :: r.event;
    forall id | id in left ensures id in it.eventIds {
      var r :| r in it.refs && r.event == id;
      var i :| 0 <= i < |it.refs| && it.refs[i] == r;
      assert it.eventIds[i] == id;
    }
    forall id | id in it.eventIds ensures id in left {
      var i :| 0 <= i < |it.eventIds| && it.eventIds[i] == id;
      assert it.refs[i] in it.refs && it.refs[i].event == id;
    }
    forall r | r in it.refs ensures ValidRef(r) {
      var i :| 0 <= i < |it.refs| && it.refs[i] == r;
      assert s[i] in s;
    }
    forall id | id in it.eventIds ensures !Blank(id) {
      var i :| 0 <= i < |it.eventIds| && it.eventIds[i] == id;
      assert s[i] in s;
    }
  }

  /** The item of a group does not depend on the order the group was collected in. */
  lemma ItemOrderFree(p: Platform, ws: string, start: int, end: int, key: string, a: seq<Event>, b: seq<Event>, urgent: bool)
    requires a != [] && NoDup(a) && NoDup(b) && Elems(a) == Elems(b) && Consistent(Elems(a))
    ensures b != []
    ensures MakeItem(p, ws, start, end, key, a, urgent) == MakeItem(p, ws, start, end, key, b, urgent)
  {
    assert a[0] in Elems(b);
    OrdersOn(Elems(a));
    SortOfElems(a, b, IdOrder);
  }

  // ----- Group keys -----

  /** Across the two lanes and within them, equal group keys of distinct events mean the same non-`event:` key. */
  lemma KeysSeparateLanes(e: Event, f: Event)
    requires GroupKey(e) == GroupKey(f) && IsUrgent(e.severity) != IsUrgent(f.severity)
    ensures e.eventId == f.eventId
  {
    var u, r := if IsUrgent(e.severity) then e else f, if IsUrgent(e.severity) then f else e;
    assert "duplicate:"[0] == 'd' && "duplicate:"[1] == 'u';
    assert "dedupe:"[0] == 'd' && "dedupe:"[1] == 'e';
    assert GroupKey(u)[0] == GroupKey(r)[0] && GroupKey(u)[1] == GroupKey(r)[1];
    assert GroupKey(u) == "event:" + u.eventId && GroupKey(r) == "event:" + r.eventId;
    assert u.eventId == GroupKey(u)[6..] && r.eventId == GroupKey(r)[6..];
  }

  lemma UrgentKeyDecides(e: Event, f: Event)
    requires GroupKey(e) == GroupKey(f) && IsUrgent(e.severity) && IsUrgent(f.severity)
    ensures LogicalKey(e) == LogicalKey(f)
    ensures e.duplicateKey.None? || f.duplicateKey.None? ==> e.eventId == f.eventId
  {
    assert "duplicate:"[0] == 'd' && "event:"[0] == 'e';
    assert GroupKey(e)[0] == GroupKey(f)[0];
    if e.duplicateKey.Some? {
      assert e.duplicateKey.value == GroupKey(e)[10..];
      assert f.duplicateKey.value == GroupKey(f)[10..];
    } else {
      assert e.eventId == GroupKey(e)[6..];
      assert f.eventId == GroupKey(f)[6..];
    }
  }

  // ----- Digests -----

  /** The events a batch contributes: one workspace, valid, ids not reused for different events. */
  ghost predicate BatchOk(ws: string, u: set<Event>) {
    Consistent(u) && forall e | e in u :: ValidEvent(e) && e.workspaceId == ws
  }

  lemma GroupListOk(ws: string, u: set<Event>, urgent: bool, key: string)
    requires BatchOk(ws, u) && key in LaneKeys(u, urgent)
    ensures GroupOk(ws, GroupList(u, urgent, key))
    ensures forall e :: e in GroupList(u, urgent, key) <==> e in u && IsUrgent(e.severity) == urgent && GroupKey(e) == key
  {
    GroupNonEmpty(u, urgent, key);
    var s := GroupList(u, urgent, key);
    forall e ensures e in s <==> e in u && IsUrgent(e.severity) == urgent && GroupKey(e) == key {
      assert e in s <==> e in Elems(s);
    }
  }

  /** All copies in an urgent group count as the same logical event. */
  lemma UrgentKeysAgree(ws: string, u: set<Event>, key: string, g: seq<Event>, k: string)
    requires BatchOk(ws, u) && key in LaneKeys(u, true) && g == GroupList(u, true, key) && g != []
    requires k in LogicalKeys(g)
    ensures k == LogicalKey(g[0])
  {
    GroupListOk(ws, u, true, key);
    var e :| e in Elems(g) && Logical(e) == k;
    assert e in g && g[0] in g;
    UrgentKeyDecides(e, g[0]);
  }

  /** An urgent item is one logical event, whatever copies of it arrived. */
  lemma UrgentIsOneLogicalEvent(p: Platform, ws: string, start: int, end: int, u: set<Event>, key: string)
    requires BatchOk(ws, u) && key in LaneKeys(u, true)
    ensures ItemFor(p, ws, start, end, u, true, key).logical == 1
  {
    GroupListOk(ws, u, true, key);
    var g := GroupList(u, true, key);
    var s := Sort(g, IdOrder);
    SortContents(g, IdOrder);
    assert LogicalKeys(s) == LogicalKeys(g);
    forall k | k in LogicalKeys(g) ensures k == LogicalKey(g[0]) {
      UrgentKeysAgree(ws, u, key, g, k);
    }
    assert LogicalKey(g[0]) in LogicalKeys(g) by { assert g[0] in Elems(g); }
    assert LogicalKeys(g) == {LogicalKey(g[0])};
  }

  lemma LanesDisjoint(u: set<Event>)
    requires Consistent(u)
    ensures LaneKeys(u, false) !! LaneKeys(u, true)
  {
    forall k | k in LaneKeys(u, false) ensures k !in LaneKeys(u, true) {
      var e :| e in u && IsUrgent(e.severity) == false && GroupKey(e) == k;
      forall f | f in u && IsUrgent(f.severity) ensures GroupKey(f) != k {
        if GroupKey(f) == k {
          KeysSeparateLanes(e, f);
        }
      }
    }
  }

  /** The group keys of both lanes, in the order of the digest's items. */
  ghost function AllKeys(u: set<Event>): seq<string> {
    KeyList(u, false) + KeyList(u, true)
  }

  ghost function LaneAt(u: set<Event>, k: nat): bool {
    k >= |KeyList(u, false)|
  }

  lemma AllKeysNoDup(u: set<Event>)
    requires Consistent(u)
    ensures NoDup(AllKeys(u))
    ensures forall k | 0 <= k < |AllKeys(u)| :: AllKeys(u)[k] in LaneKeys(u, LaneAt(u, k))
  {
    LanesDisjoint(u);
    var a, b := KeyList(u, false), KeyList(u, true);
    forall x | x in a ensures x !in b {
      assert x in Elems(a);
      assert x in b ==> x in Elems(b);
    }
    NoDupConcat(a, b);
    forall k | 0 <= k < |AllKeys(u)| ensures AllKeys(u)[k] in LaneKeys(u, LaneAt(u, k)) {
      if k < |a| {
        assert a[k] in Elems(a);
      } else {
        assert b[k - |a|] in Elems(b);
      }
    }
  }

  /** The k-th item of the digest is the item of the k-th group. */
  lemma ItemAt(p: Platform, ws: string, start: int, end: int, u: set<Event>, k: nat)
    requires BatchOk(ws, u) && k < |AllKeys(u)|
    ensures |Items(DigestOf(p, ws, start, end, u))| == |AllKeys(u)|
    ensures AllKeys(u)[k] in LaneKeys(u, LaneAt(u, k))
    ensures Items(DigestOf(p, ws, start, end, u))[k] == ItemFor(p, ws, start, end, u, LaneAt(u, k), AllKeys(u)[k])
    ensures forall id :: id in Items(DigestOf(p, ws, start, end, u))[k].eventIds <==>
              exists e | e in u :: e.eventId == id && IsUrgent(e.severity) == LaneAt(u, k) && GroupKey(e) == AllKeys(u)[k]
    ensures forall r :: r in Items(DigestOf(p, ws, start, end, u))[k].refs <==>
              exists e | e in u :: RefOf(e) == r && IsUrgent(e.severity) == LaneAt(u, k) && GroupKey(e) == AllKeys(u)[k]
  {
    AllKeysNoDup(u);
    var lane, key := LaneAt(u, k), AllKeys(u)[k];
    GroupListOk(ws, u, lane, key);
    ItemContents(p, ws, start, end, key, GroupList(u, lane, key), lane);
  }

  lemma ItemValidAt(p: Platform, ws: string, start: int, end: int, u: set<Event>, k: nat)
    requires p.CleanItemIds() && BatchOk(ws, u) && k < |AllKeys(u)|
    ensures |Items(DigestOf(p, ws, start, end, u))| == |AllKeys(u)|
    ensures var it := Items(DigestOf(p, ws, start, end, u))[k];
            && ValidItem(it) && it.workspaceId == ws && it.urgent == IsUrgent(it.severity) == LaneAt(u, k)
  {
    AllKeysNoDup(u);
    var lane, key := LaneAt(u, k), AllKeys(u)[k];
    GroupListOk(ws, u, lane, key);
    ItemFacts(p, ws, start, end, key, GroupList(u, lane, key), lane);
  }

  lemma {:induction false} EventAtMostOneItem(p: Platform, ws: string, start: int, end: int, u: set<Event>, i: nat, j: nat, id: string)
    requires BatchOk(ws, u) && i < |AllKeys(u)| && j < |AllKeys(u)|
    requires |Items(DigestOf(p, ws, start, end, u))| == |AllKeys(u)|
    requires id in Items(DigestOf(p, ws, start, end, u))[i].eventIds
    requires id in Items(DigestOf(p, ws, start, end, u))[j].eventIds
    ensures i == j
  {
    ItemAt(p, ws, start, end, u, i);
    ItemAt(p, ws, start, end, u, j);
    AllKeysNoDup(u);
    var e :| e in u && e.eventId == id && GroupKey(e) == AllKeys(u)[i];
    var f :| f in u && f.eventId == id && GroupKey(f) == AllKeys(u)[j];
    assert e == f;
  }

  lemma ItemIdAt(p: Platform, ws: string, start: int, end: int, u: set<Event>, d: Digest, k: nat)
    requires BatchOk(ws, u) && d == DigestOf(p, ws, start, end, u) && k < |Items(d)|
    ensures |Items(d)| == |AllKeys(u)| && Items(d)[k].itemId == p.itemId(ws, start, end, AllKeys(u)[k])
  {
    assert |Items(d)| == |AllKeys(u)|;
    ItemAt(p, ws, start, end, u, k);
  }

  lemma ItemOkAt(p: Platform, ws: string, start: int, end: int, u: set<Event>, d: Digest, k: nat)
    requires p.CleanItemIds() && BatchOk(ws, u) && d == DigestOf(p, ws, start, end, u) && k < |Items(d)|
    ensures ValidItem(Items(d)[k]) && Items(d)[k].workspaceId == ws
    ensures Items(d)[k].urgent == IsUrgent(Items(d)[k].severity) == LaneAt(u, k)
  {
    assert |Items(d)| == |AllKeys(u)|;
    ItemValidAt(p, ws, start, end, u, k);
  }

  lemma ItemIdsDistinct(p: Platform, ws: string, start: int, end: int, u: set<Event>, d: Digest)
    requires p.ItemIdsIdentify() && BatchOk(ws, u) && d == DigestOf(p, ws, start, end, u)
    ensures NoDup(ItemIds(Items(d)))
  {
    AllKeysNoDup(u);
    var items, keys := Items(d), AllKeys(u);
    forall i, j | 0 <= i < j < |items| ensures ItemIds(items)[i] != ItemIds(items)[j] {
      ItemIdAt(p, ws, start, end, u, d, i);
      ItemIdAt(p, ws, start, end, u, d, j);
      assert keys[i] != keys[j];
    }
  }

  lemma EventIdsDistinct(p: Platform, ws: string, start: int, end: int, u: set<Event>, d: Digest)
    requires BatchOk(ws, u) && d == DigestOf(p, ws, start, end, u)
    ensures NoDup(EventIds(Items(d)))
  {
    var items := Items(d);
    assert |items| == |AllKeys(u)|;
    var parts := Map((it: DigestItem) => it.eventIds, items);
    forall i | 0 <= i < |parts| ensures NoDup(parts[i]) {
      ItemAt(p, ws, start, end, u, i);
      GroupListOk(ws, u, LaneAt(u, i), AllKeys(u)[i]);
      SortedGroup(ws, GroupList(u, LaneAt(u, i), AllKeys(u)[i]));
    }
    forall i, j, x | 0 <= i < j < |parts| && x in parts[i] ensures x !in parts[j] {
      if x in parts[j] {
        EventAtMostOneItem(p, ws, start, end, u, i, j, x);
      }
    }
    FlattenNoDup(parts);
  }

  /** Constructing the digest never fails: every check of its constructor holds. */
  lemma DigestIsValid(p: Platform, ws: string, start: int, end: int, u: set<Event>)
    requires p.GoodItemIds() && BatchOk(ws, u) && start < end && !Blank(ws)
    ensures ValidDigest(DigestOf(p, ws, start, end, u))
  {
    var d := DigestOf(p, ws, start, end, u);
    forall k | 0 <= k < |Items(d)|
      ensures ValidItem(Items(d)[k]) && Items(d)[k].workspaceId == ws
      ensures Items(d)[k].urgent == IsUrgent(Items(d)[k].severity) == LaneAt(u, k)
    {
      ItemOkAt(p, ws, start, end, u, d, k);
    }
    LanesAreClassified(d, u);
    ItemIdsDistinct(p, ws, start, end, u, d);
    EventIdsDistinct(p, ws, start, end, u, d);
  }

  lemma LanesAreClassified(d: Digest, u: set<Event>)
    requires |d.routine| == |KeyList(u, false)|
    requires forall k | 0 <= k < |Items(d)| :: Items(d)[k].urgent == IsUrgent(Items(d)[k].severity) == LaneAt(u, k)
    ensures forall it | it in d.routine :: !it.urgent && !IsUrgent(it.severity)
    ensures forall it | it in d.urgent :: it.urgent && IsUrgent(it.severity)
  {
    forall it | it in d.routine ensures !it.urgent && !IsUrgent(it.severity) {
      var k :| 0 <= k < |d.routine| && d.routine[k] == it;
      assert Items(d)[k] == it;
    }
    forall it | it in d.urgent ensures it.urgent && IsUrgent(it.severity) {
      var k :| 0 <= k < |d.urgent| && d.urgent[k] == it;
      assert Items(d)[|d.routine| + k] == it;
    }
  }

  /** Position of the item an event belongs to. */
  ghost predicate Holds(d: Digest, k: nat, e: Event) {
    k < |Items(d)| && RefOf(e) in Items(d)[k].refs && e.eventId in Items(d)[k].eventIds
  }

  /** Both carry the same copy key, if urgent, or the same topic, if not. */
  predicate SharedKey(e: Event, f: Event) {
    if IsUrgent(e.severity) then e.duplicateKey.Some? && e.duplicateKey == f.duplicateKey
    else e.dedupeKey.Some? && e.dedupeKey == f.dedupeKey
  }

  /** Events that are reported together: the same lane, and the same event or a shared key. */
  predicate SameGroup(e: Event, f: Event) {
    IsUrgent(e.severity) == IsUrgent(f.severity) && (e == f || SharedKey(e, f))
  }

  lemma PrefixCancels(prefix: string, a: string, b: string)
    ensures prefix + a == prefix + b <==> a == b
  {
    assert (prefix + a)[|prefix|..] == a && (prefix + b)[|prefix|..] == b;
  }

  /** Group keys are equal exactly for events that are reported together. */
  lemma GroupKeyExact(e: Event, f: Event)
    requires IsUrgent(e.severity) == IsUrgent(f.severity) && (e.eventId == f.eventId ==> e == f)
    ensures GroupKey(e) == GroupKey(f) <==> SameGroup(e, f)
  {
    var own := if IsUrgent(e.severity) then "duplicate:" else "dedupe:";
    var x, y := if IsUrgent(e.severity) then e.duplicateKey else e.dedupeKey, if IsUrgent(e.severity) then f.duplicateKey else f.dedupeKey;
    assert own[0] == 'd' && "event:"[0] == 'e';
    assert GroupKey(e)[0] == (if x.Some? then 'd' else 'e') && GroupKey(f)[0] == (if y.Some? then 'd' else 'e');
    if x.Some? && y.Some? {
      PrefixCancels(own, x.value, y.value);
    }
    PrefixCancels("event:", e.eventId, f.eventId);
  }

  lemma KeyPosition(u: set<Event>, e: Event) returns (k: nat)
    requires Consistent(u) && e in u
    ensures k < |AllKeys(u)| && AllKeys(u)[k] == GroupKey(e) && LaneAt(u, k) == IsUrgent(e.severity)
  {
    var lane := IsUrgent(e.severity);
    assert GroupKey(e) in LaneKeys(u, lane);
    var ks := KeyList(u, lane);
    assert GroupKey(e) in Elems(ks);
    var i :| 0 <= i < |ks| && ks[i] == GroupKey(e);
    k := if lane then |KeyList(u, false)| + i else i;
  }

  /**
   * The items partition the events: each event is in exactly one item, in the lane its severity
   * asks for, and two events share an item exactly when they are reported together.
   */
  lemma DigestPartition(p: Platform, ws: string, start: int, end: int, u: set<Event>, d: Digest, e: Event) returns (k: nat)
    requires BatchOk(ws, u) && e in u
    requires d == DigestOf(p, ws, start, end, u)
    ensures Holds(d, k, e) && (k >= |d.routine| <==> e.severity == High || e.severity == Critical)
    ensures forall j: nat | Holds(d, j, e) :: j == k
    ensures forall f | f in u :: Holds(d, k, f) <==> SameGroup(e, f)
  {
    k := KeyPosition(u, e);
    AllKeysNoDup(u);
    forall j: nat, f | j < |AllKeys(u)| && f in u
      ensures Holds(d, j, f) <==> IsUrgent(f.severity) == LaneAt(u, j) && GroupKey(f) == AllKeys(u)[j]
    {
      HoldsByKey(p, ws, start, end, u, j, f);
    }
    assert |Items(d)| == |AllKeys(u)|;
    forall f | f in u ensures Holds(d, k, f) <==> SameGroup(e, f) {
      if IsUrgent(e.severity) == IsUrgent(f.severity) {
        GroupKeyExact(e, f);
      }
    }
  }

  lemma HoldsByKey(p: Platform, ws: string, start: int, end: int, u: set<Event>, k: nat, e: Event)
    requires BatchOk(ws, u) && e in u && k < |AllKeys(u)|
    ensures Holds(DigestOf(p, ws, start, end, u), k, e) <==> IsUrgent(e.severity) == LaneAt(u, k) && GroupKey(e) == AllKeys(u)[k]
  {
    ItemAt(p, ws, start, end, u, k);
    var it := Items(DigestOf(p, ws, start, end, u))[k];
    if e.eventId in it.eventIds {
      var f :| f in u && f.eventId == e.eventId && IsUrgent(f.severity) == LaneAt(u, k) && GroupKey(f) == AllKeys(u)[k];
      assert f == e;
    }
  }

  lemma DigestEventIds(p: Platform, ws: string, start: int, end: int, u: set<Event>, d: Digest, id: string)
    requires BatchOk(ws, u) && d == DigestOf(p, ws, start, end, u)
    ensures id in EventIds(Items(d)) <==> exists e | e in u :: e.eventId == id
  {
    var parts := Map((it: DigestItem) => it.eventIds, Items(d));
    FlattenMember(parts, id);
    if id in EventIds(Items(d)) {
      var k :| 0 <= k < |parts| && id in parts[k];
      ItemAt(p, ws, start, end, u, k);
    }
    if e :| e in u && e.eventId == id {
      var k := DigestPartition(p, ws, start, end, u, d, e);
      assert id in parts[k];
    }
  }

  lemma DigestIdSet(p: Platform, ws: string, start: int, end: int, u: set<Event>, d: Digest)
    requires BatchOk(ws, u) && d == DigestOf(p, ws, start, end, u)
    ensures |Elems(EventIds(Items(d)))| == |u|
  {
    var ids := EventIds(Items(d));
    var idOf := (e: Event) => e.eventId;
    forall id ensures id in Elems(ids) <==> id in Image(idOf, u) {
      DigestEventIds(p, ws, start, end, u, d, id);
      if e :| e in u && e.eventId == id {
        assert idOf(e) == id;
      }
    }
    assert Elems(ids) == Image(idOf, u);
    ImageCard(idOf, u);
  }

  /** In any valid digest the counts add up to the number of distinct events it refers to. */
  lemma CountsAddUp(d: Digest)
    requires ValidDigest(d)
    ensures Sum(Map((it: DigestItem) => it.logical + it.duplicates, Items(d))) == |Elems(EventIds(Items(d)))|
  {
    NoDupCard(EventIds(Items(d)));
    FlattenLength(Map((it: DigestItem) => it.eventIds, Items(d)));
    CountsAreLengths(Items(d));
  }

  /** The event ids of a digest's items are as many as the events. */
  lemma DigestSize(p: Platform, ws: string, start: int, end: int, u: set<Event>, d: Digest)
    requires BatchOk(ws, u) && d == DigestOf(p, ws, start, end, u)
    ensures |EventIds(Items(d))| == |u|
  {
    EventIdsDistinct(p, ws, start, end, u, d);
    NoDupCard(EventIds(Items(d)));
    DigestIdSet(p, ws, start, end, u, d);
  }

  lemma UrgentItemsSingle(p: Platform, ws: string, start: int, end: int, u: set<Event>, d: Digest)
    requires BatchOk(ws, u) && d == DigestOf(p, ws, start, end, u)
    ensures forall it | it in d.urgent :: it.logical == 1
  {
    forall it | it in d.urgent ensures it.logical == 1 {
      var k :| 0 <= k < |d.urgent| && d.urgent[k] == it;
      var key := KeyList(u, true)[k];
      assert key in Elems(KeyList(u, true));
      UrgentIsOneLogicalEvent(p, ws, start, end, u, key);
    }
  }

  /** No event is lost or counted twice, and every urgent item is one logical event. */
  lemma DigestCounts(p: Platform, ws: string, start: int, end: int, u: set<Event>, d: Digest)
    requires p.GoodItemIds() && BatchOk(ws, u) && start < end && !Blank(ws)
    requires d == DigestOf(p, ws, start, end, u)
    ensures Sum(Map((it: DigestItem) => it.logical + it.duplicates, Items(d))) == |u|
    ensures forall it | it in d.urgent :: it.logical == 1
  {
    DigestIsValid(p, ws, start, end, u);
    CountsAddUp(d);
    DigestIdSet(p, ws, start, end, u, d);
    UrgentItemsSingle(p, ws, start, end, u, d);
  }

  lemma CountsAreLengths(items: seq<DigestItem>)
    requires forall it | it in items :: ValidItem(it)
    ensures Map((it: DigestItem) => it.logical + it.duplicates, items)
            == Map((x: seq<string>) => |x|, Map((it: DigestItem) => it.eventIds, items))
  {
    assert forall i | 0 <= i < |items| :: ValidItem(items[i]);
  }
}
