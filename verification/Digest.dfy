/** Notification events, digest items and digests, with the checks their constructors make. */
module Digests {
  import opened Basics
  import opened Ordering
  import opened Text
  import opened Platforms

  datatype Severity = Info | Normal | High | Critical

  function Rank(s: Severity): nat {
    match s
    case Info => 0
    case Normal => 1
    case High => 2
    case Critical => 3
  }

  /** `a` is as severe as `b` or less: info, normal, high, critical. */
  predicate NoMoreSevere(a: Severity, b: Severity) {
    match b
    case Info => a == Info
    case Normal => a == Info || a == Normal
    case High => a != Critical
    case Critical => true
  }

  predicate IsUrgent(s: Severity) {
    s.High? || s.Critical?
  }

  datatype Event = Event(
    eventId: string, workspaceId: string, sourceId: string, revisionId: string,
    occurredAt: int, title: string, severity: Severity,
    dedupeKey: Option<string>, actionRequired: bool, duplicateKey: Option<string>)

  datatype Ref = Ref(source: string, revision: string, event: string)

  datatype DigestItem = DigestItem(
    itemId: string, workspaceId: string, summary: string, severity: Severity, actionRequired: bool,
    eventIds: seq<string>, refs: seq<Ref>, urgent: bool, logical: int, duplicates: int)

  datatype Digest = Digest(workspaceId: string, start: int, end: int, routine: seq<DigestItem>, urgent: seq<DigestItem>)

  predicate Identifier(s: string) {
    !Blank(s) && ControlFree(s)
  }

  /** What constructing a `NotificationEvent` guarantees. */
  predicate ValidEvent(e: Event) {
    && Identifier(e.eventId) && Identifier(e.workspaceId) && Identifier(e.sourceId) && Identifier(e.revisionId)
    && Visible(e.title)
    && (e.dedupeKey.Some? ==> Identifier(e.dedupeKey.value))
    && (e.duplicateKey.Some? ==> Identifier(e.duplicateKey.value))
  }

  function RefOf(e: Event): Ref {
    Ref(e.sourceId, e.revisionId, e.eventId)
  }

  predicate ValidRef(r: Ref) {
    !Blank(r.source) && !Blank(r.revision) && !Blank(r.event)
  }

  /** What constructing a `NotificationDigestItem` guarantees. */
  predicate ValidItem(it: DigestItem) {
    && Identifier(it.itemId) && Identifier(it.workspaceId) && Visible(it.summary)
    && it.eventIds != []
    && (forall id | id in it.eventIds :: !Blank(id))
    && NoDup(it.eventIds)
    && (forall r | r in it.refs :: ValidRef(r))
    && |it.refs| == |it.eventIds|
    && (set r | r in it.refs :: r.event) == Elems(it.eventIds)
    && it.logical >= 1 && it.duplicates >= 0
    && it.logical + it.duplicates == |it.eventIds|
  }

  /** The constructor: display text is sanitised first, then everything is checked. */
  function NewItem(raw: DigestItem): Option<DigestItem> {
    var it := raw.(summary := SafeDisplay(raw.summary));
    if ValidItem(it) then Some(it) else None
  }

  function Items(d: Digest): seq<DigestItem> {
    d.routine + d.urgent
  }

  function ItemIds(items: seq<DigestItem>): seq<string> {
    Map((it: DigestItem) => it.itemId, items)
  }

  function EventIds(items: seq<DigestItem>): seq<string> {
    Flatten(Map((it: DigestItem) => it.eventIds, items))
  }

  /** What constructing a `NotificationDigest` from constructed items guarantees. */
  predicate ValidDigest(d: Digest) {
    && !Blank(d.workspaceId)
    && d.start < d.end
    && (forall it | it in Items(d) :: ValidItem(it) && it.workspaceId == d.workspaceId)
    && (forall it | it in d.routine :: !it.urgent && !IsUrgent(it.severity))
    && (forall it | it in d.urgent :: it.urgent && IsUrgent(it.severity))
    && NoDup(ItemIds(Items(d)))
    && NoDup(EventIds(Items(d)))
  }

  // ----- One group of events becomes one item -----

  predicate ById(a: Event, b: Event) {
    if a.eventId == b.eventId then LexLe(a.sourceId, b.sourceId) else LexLe(a.eventId, b.eventId)
  }

  predicate ByTime(a: Event, b: Event) {
    a.occurredAt < b.occurredAt || (a.occurredAt == b.occurredAt && LexLe(a.eventId, b.eventId))
  }

  const IdOrder: (Event, Event) -> bool := (a, b) => ById(a, b)
  const TimeOrder: (Event, Event) -> bool := (a, b) => ByTime(a, b)

  /** Python's `max(..., key=(occurred_at, event_id))`: the first of the greatest. */
  function Latest(s: seq<Event>): Event
    requires s != []
  {
    if |s| == 1 then s[0]
    else
      var rest := Latest(s[1..]);
      if ByTime(rest, s[0]) then s[0] else rest
  }

  function MaxSeverity(s: seq<Event>): Severity
    requires s != []
  {
    if |s| == 1 then s[0].severity
    else
      var rest := MaxSeverity(s[1..]);
      if Rank(rest) <= Rank(s[0].severity) then s[0].severity else rest
  }

  /** The identity under which copies of one underlying event are counted once. */
  function LogicalKey(e: Event): string {
    if e.duplicateKey.Some? then e.duplicateKey.value else "event:" + e.eventId
  }

  const Logical: Event -> string := e => LogicalKey(e)

  function LogicalKeys(s: seq<Event>): set<string> {
    Image(Logical, Elems(s))
  }

  function GroupKey(e: Event): string {
    if IsUrgent(e.severity) then
      if e.duplicateKey.Some? then "duplicate:" + e.duplicateKey.value else "event:" + e.eventId
    else
      if e.dedupeKey.Some? then "dedupe:" + e.dedupeKey.value else "event:" + e.eventId
  }

  function Summary(title: string, logical: nat, total: nat): string
    requires logical <= total
  {
    if logical > 1 then
      var updates := title + Counted(" (", logical, " updates)");
      if total > logical then updates + Counted(" plus ", total - logical, " duplicate copies") else updates
    else if total > 1 then title + Counted(" (", total, " copies)")
    else title
  }

  lemma LogicalAtMost(s: seq<Event>)
    ensures |LogicalKeys(s)| <= |s|
    ensures s != [] ==> |LogicalKeys(s)| >= 1
  {
    ImageCard(Logical, Elems(s));
    ElemsCard(s);
    if s != [] {
      assert s[0] in Elems(s);
      assert LogicalKey(s[0]) in LogicalKeys(s);
    }
  }

  lemma {:induction false} ElemsCard<T>(s: seq<T>)
    ensures |Elems(s)| <= |s|
  {
    if s == [] {
      assert Elems(s) == {};
    } else {
      ElemsCard(s[1..]);
      assert s == [s[0]] + s[1..];
      assert Elems(s) == {s[0]} + Elems(s[1..]);
    }
  }

  /** `_make_item`. */
  function MakeItem(p: Platform, ws: string, start: int, end: int, key: string, events: seq<Event>, urgent: bool): DigestItem
    requires events != []
  {
    var s := Sort(events, IdOrder);
    SortContents(events, IdOrder);
    LogicalAtMost(s);
    var n := |LogicalKeys(s)|;
    DigestItem(
      p.itemId(ws, start, end, key), ws, Summary(Latest(s).title, n, |s|), MaxSeverity(s),
      exists e | e in s :: e.actionRequired,
      Map((e: Event) => e.eventId, s), Map((e: Event) => RefOf(e), s), urgent, n, |s| - n)
  }

  // ----- The digest of a set of events -----

  /** An event id names one event. */
  ghost predicate Consistent(u: set<Event>) {
    forall e, f | e in u && f in u && e.eventId == f.eventId :: e == f
  }

  lemma OrdersOn(u: set<Event>)
    requires Consistent(u)
    ensures TotalOn(IdOrder, u)
  {
    forall e, f | e in u && f in u && ById(e, f) && ById(f, e) ensures e == f {
      if e.eventId != f.eventId {
        LexAntisymmetric(e.eventId, f.eventId);
      }
    }
    forall e, f, g | e in u && f in u && g in u && ById(e, f) && ById(f, g) ensures ById(e, g) {
      if e != f && f != g {
        LexTransitive(e.eventId, f.eventId, g.eventId);
        if e.eventId == g.eventId {
          LexAntisymmetric(e.eventId, f.eventId);
        }
      }
    }
    forall e, f | e in u && f in u ensures ById(e, f) || ById(f, e) {
      LexTotal(e.eventId, f.eventId);
      LexTotal(e.sourceId, f.sourceId);
    }
  }

  ghost function LaneKeys(u: set<Event>, urgent: bool): set<string> {
    set e | e in u && IsUrgent(e.severity) == urgent :: GroupKey(e)
  }

  ghost function Group(u: set<Event>, urgent: bool, key: string): set<Event> {
    set e | e in u && IsUrgent(e.severity) == urgent && GroupKey(e) == key
  }

  ghost function KeyList(u: set<Event>, urgent: bool): seq<string> {
    LexOn(LaneKeys(u, urgent));
    Listing(LaneKeys(u, urgent), Lex)
  }

  ghost function GroupList(u: set<Event>, urgent: bool, key: string): (s: seq<Event>)
    requires Consistent(u)
    ensures NoDup(s) && Elems(s) == Group(u, urgent, key)
  {
    OrdersOn(Group(u, urgent, key));
    Listing(Group(u, urgent, key), IdOrder)
  }

  lemma GroupNonEmpty(u: set<Event>, urgent: bool, key: string)
    requires Consistent(u) && key in LaneKeys(u, urgent)
    ensures GroupList(u, urgent, key) != []
  {
    var e :| e in u && IsUrgent(e.severity) == urgent && GroupKey(e) == key;
    assert e in Elems(GroupList(u, urgent, key));
  }

  ghost function ItemFor(p: Platform, ws: string, start: int, end: int, u: set<Event>, urgent: bool, key: string): DigestItem
    requires Consistent(u) && key in LaneKeys(u, urgent)
  {
    GroupNonEmpty(u, urgent, key);
    MakeItem(p, ws, start, end, key, GroupList(u, urgent, key), urgent)
  }

  ghost function LaneItems(p: Platform, ws: string, start: int, end: int, u: set<Event>, urgent: bool): (items: seq<DigestItem>)
    requires Consistent(u)
    ensures |items| == |KeyList(u, urgent)|
    ensures forall i | 0 <= i < |items| ::
              KeyList(u, urgent)[i] in LaneKeys(u, urgent)
              && items[i] == ItemFor(p, ws, start, end, u, urgent, KeyList(u, urgent)[i])
  {
    var ks := KeyList(u, urgent);
    assert forall i | 0 <= i < |ks| :: ks[i] in Elems(ks);
    seq(|ks|, i requires 0 <= i < |ks| => ItemFor(p, ws, start, end, u, urgent, ks[i]))
  }

  /** The digest of a batch depends on the set of its events only. */
  ghost function DigestOf(p: Platform, ws: string, start: int, end: int, u: set<Event>): Digest
    requires Consistent(u)
  {
    Digest(ws, start, end, LaneItems(p, ws, start, end, u, false), LaneItems(p, ws, start, end, u, true))
  }
}
