/** What each item of a digest says about the events it stands for. */
module DigestItems {
  import opened Basics
  import opened Ordering
  import opened Text
  import opened Platforms
  import opened Digests
  import opened DigestFacts
  import opened DigestBuilder

  // ----- The latest event -----

  lemma ByTimeTotal(a: Event, b: Event)
    ensures ByTime(a, b) || ByTime(b, a)
  {
    LexTotal(a.eventId, b.eventId);
  }

  lemma ByTimeTransitive(a: Event, b: Event, c: Event)
    requires ByTime(a, b) && ByTime(b, c)
    ensures ByTime(a, c)
  {
    if a.occurredAt == b.occurredAt == c.occurredAt {
      LexTransitive(a.eventId, b.eventId, c.eventId);
    }
  }

  lemma {:induction false} LatestIsLast(s: seq<Event>)
    requires s != []
    ensures Latest(s) in s && forall f | f in s :: ByTime(f, Latest(s))
  {
    assert s == [s[0]] + s[1..];
    ByTimeTotal(s[0], s[0]);
    if |s| > 1 {
      var rest := Latest(s[1..]);
      LatestIsLast(s[1..]);
      ByTimeTotal(s[0], rest);
      forall f | f in s ensures ByTime(f, Latest(s)) {
        if f in s[1..] && Latest(s) == s[0] {
          ByTimeTransitive(f, rest, s[0]);
        }
      }
    }
  }

  /** No event of the group came later. */
  ghost predicate IsLatest(e: Event, group: set<Event>) {
    e in group && forall f | f in group :: ByTime(f, e)
  }

  // ----- Items -----

  /** What follows the title: how many updates and copies of them there are. */
  ghost function CountNote(logical: nat, duplicates: nat): string {
    if logical > 1 then
      " (" + Decimal(logical) + " updates)" + (if duplicates > 0 then " plus " + Decimal(duplicates) + " duplicate copies" else "")
    else if duplicates > 0 then " (" + Decimal(logical + duplicates) + " copies)"
    else ""
  }

  /** The item is headed by the title of `e`, and counts updates and copies after it. */
  ghost predicate HeadedBy(it: DigestItem, e: Event) {
    it.logical >= 1 && it.duplicates >= 0 && it.summary == e.title + CountNote(it.logical, it.duplicates)
  }

  /** The item is headed by the title of the group's latest event. */
  ghost predicate Headed(it: DigestItem, group: set<Event>) {
    exists e | IsLatest(e, group) :: HeadedBy(it, e)
  }

  predicate RefersTo(r: Ref, e: Event) {
    r.source == e.sourceId && r.revision == e.revisionId && r.event == e.eventId
  }

  /** The item refers to exactly the events of the group and counts each once. */
  ghost predicate Lists(it: DigestItem, group: set<Event>) {
    && (forall r :: r in it.refs <==> exists f | f in group :: RefersTo(r, f))
    && |it.eventIds| == |group| && it.logical + it.duplicates == |group|
    && (it.logical == |Image(ToUnderlying, group)| <==> !Clash(group))
  }

  /** The item is as severe as the most severe event, and asks for action if one does. */
  ghost predicate Weighs(it: DigestItem, group: set<Event>) {
    && (it.actionRequired <==> exists f | f in group :: f.actionRequired)
    && (exists f | f in group :: f.severity == it.severity) && (forall f | f in group :: NoMoreSevere(f.severity, it.severity))
  }

  /** Everything an item says, in terms of the events it stands for. */
  ghost predicate Describes(it: DigestItem, group: set<Event>) {
    Lists(it, group) && Weighs(it, group) && Headed(it, group)
  }

  lemma SummaryIs(title: string, logical: nat, total: nat)
    requires 1 <= logical <= total
    ensures Summary(title, logical, total) == title + CountNote(logical, total - logical)
  {
  }

  lemma HeadedFrom(it: DigestItem, e: Event, logical: nat, total: nat)
    requires 1 <= logical <= total && it.logical == logical && it.duplicates == total - logical && it.summary == Summary(e.title, logical, total)
    ensures HeadedBy(it, e)
  {
    SummaryIs(e.title, logical, total);
  }

  lemma MadeItemHeaded(p: Platform, ws: string, start: int, end: int, key: string, events: seq<Event>, urgent: bool)
    requires events != [] && NoDup(events)
    ensures Headed(MakeItem(p, ws, start, end, key, events, urgent), Elems(events))
  {
    var it, s := MakeItem(p, ws, start, end, key, events, urgent), Sort(events, IdOrder);
    SortContents(events, IdOrder);
    LatestIsLast(s);
    LogicalAtMost(s);
    HeadedFrom(it, Latest(s), |LogicalKeys(s)|, |s|);
    assert IsLatest(Latest(s), Elems(events));
  }

  lemma MadeItemWeighs(p: Platform, ws: string, start: int, end: int, key: string, events: seq<Event>, urgent: bool)
    requires events != []
    ensures Weighs(MakeItem(p, ws, start, end, key, events, urgent), Elems(events))
  {
    var it, s := MakeItem(p, ws, start, end, key, events, urgent), Sort(events, IdOrder);
    SortContents(events, IdOrder);
    MaxSeverityMember(s);
    assert forall f :: f in s <==> f in Elems(events);
    assert forall a, b :: Rank(a) <= Rank(b) <==> NoMoreSevere(a, b);
  }

  lemma MadeItemLists(p: Platform, ws: string, start: int, end: int, key: string, events: seq<Event>, urgent: bool)
    requires events != [] && NoDup(events)
    ensures Lists(MakeItem(p, ws, start, end, key, events, urgent), Elems(events))
  {
    var it, s := MakeItem(p, ws, start, end, key, events, urgent), Sort(events, IdOrder);
    SortContents(events, IdOrder);
    NoDupCard(events);
    LogicalAtMost(s);
    LogicalCountExact(s);
    ItemContents(p, ws, start, end, key, events, urgent);
    assert forall f :: f in events <==> f in Elems(events);
    assert forall r, f: Event :: RefersTo(r, f) <==> RefOf(f) == r;
  }

  lemma MadeItemDescribes(p: Platform, ws: string, start: int, end: int, key: string, events: seq<Event>, urgent: bool)
    requires events != [] && NoDup(events)
    ensures Describes(MakeItem(p, ws, start, end, key, events, urgent), Elems(events))
  {
    MadeItemLists(p, ws, start, end, key, events, urgent);
    MadeItemWeighs(p, ws, start, end, key, events, urgent);
    MadeItemHeaded(p, ws, start, end, key, events, urgent);
  }

  /** The events reported together with `e`. */
  ghost function GroupOf(u: set<Event>, e: Event): set<Event> {
    set f | f in u && SameGroup(e, f)
  }

  lemma GroupIsByKey(u: set<Event>, e: Event)
    requires Consistent(u) && e in u
    ensures Group(u, IsUrgent(e.severity), GroupKey(e)) == GroupOf(u, e)
  {
    forall f | f in u && IsUrgent(e.severity) == IsUrgent(f.severity) ensures GroupKey(e) == GroupKey(f) <==> SameGroup(e, f) {
      GroupKeyExact(e, f);
    }
  }

  /** Every event is in exactly one item, and that item describes exactly the events reported together with it. */
  lemma DigestItemExact(p: Platform, ws: string, start: int, end: int, u: set<Event>, d: Digest, e: Event) returns (k: nat)
    requires BatchOk(ws, u) && e in u && d == DigestOf(p, ws, start, end, u)
    ensures Holds(d, k, e) && forall j: nat | Holds(d, j, e) :: j == k
    ensures Describes(Items(d)[k], GroupOf(u, e))
  {
    k := KeyPosition(u, e);
    var lane, key := IsUrgent(e.severity), GroupKey(e);
    var other := DigestPartition(p, ws, start, end, u, d, e);
    HoldsByKey(p, ws, start, end, u, k, e);
    ItemAt(p, ws, start, end, u, k);
    GroupIsByKey(u, e);
    GroupNonEmpty(u, lane, key);
    MadeItemDescribes(p, ws, start, end, key, GroupList(u, lane, key), lane);
  }

  lemma KeysOrdered(u: set<Event>, i: nat, j: nat)
    requires i <= j < |AllKeys(u)| && LaneAt(u, i) == LaneAt(u, j)
    ensures LexLe(AllKeys(u)[i], AllKeys(u)[j])
  {
    var routine, urgent, n := KeyList(u, false), KeyList(u, true), |KeyList(u, false)|;
    LexTotal(AllKeys(u)[i], AllKeys(u)[i]);
    assert Sorted(routine, Lex) && Sorted(urgent, Lex);
    if i < j && i >= n {
      assert Lex(urgent[i - n], urgent[j - n]);
    } else if i < j {
      assert Lex(routine[i], routine[j]);
    }
  }

  /** Within a lane the items stand in the order of their group keys. */
  lemma ItemsOrdered(p: Platform, ws: string, start: int, end: int, u: set<Event>, d: Digest, i: nat, j: nat, e: Event, f: Event)
    requires BatchOk(ws, u) && d == DigestOf(p, ws, start, end, u) && e in u && f in u
    requires Holds(d, i, e) && Holds(d, j, f) && IsUrgent(e.severity) == IsUrgent(f.severity) && i <= j
    ensures LexLe(GroupKey(e), GroupKey(f))
  {
    var k := KeyPosition(u, e);
    ItemAt(p, ws, start, end, u, k);
    HoldsByKey(p, ws, start, end, u, i, e);
    HoldsByKey(p, ws, start, end, u, j, f);
    KeysOrdered(u, i, j);
  }
}
