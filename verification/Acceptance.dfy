/** Exactly which written jobs a worker accepts, and what it reads from them. */
module Acceptance {
  import opened Basics
  import opened Ordering
  import opened Text
  import opened Platforms
  import opened Digests
  import opened DigestFacts
  import opened DigestBuilder
  import opened Delivery
  import opened Compaction
  import opened Codec
  import opened Evidence

  // ----- What trimming on the way in makes of a digest -----

  function TrimRef(r: Ref): Ref {
    Ref(Strip(r.source), Strip(r.revision), Strip(r.event))
  }

  const Retrim: Ref -> Ref := (r: Ref) => TrimRef(r)

  function TrimItem(it: DigestItem): DigestItem {
    it.(itemId := Strip(it.itemId), workspaceId := Strip(it.workspaceId), summary := Strip(it.summary),
        eventIds := Map(Stripped, it.eventIds), refs := Map(Retrim, it.refs))
  }

  const Trimming: DigestItem -> DigestItem := (it: DigestItem) => TrimItem(it)

  function TrimDigest(d: Digest): Digest {
    d.(routine := Map(Trimming, d.routine), urgent := Map(Trimming, d.urgent))
  }

  predicate PrintableRef(r: Ref) {
    ControlFree(r.source) && ControlFree(r.revision) && ControlFree(r.event)
  }

  predicate Printable(it: DigestItem) {
    (forall id | id in it.eventIds :: ControlFree(id)) && AllPrintable(it.refs)
  }

  /** The workspace and every event id are trimmed. */
  predicate TrimmedIds(it: DigestItem) {
    Trimmed(it.workspaceId) && forall id | id in it.eventIds :: Trimmed(id)
  }

  lemma {:induction false} RequireAllTrims(ids: seq<string>)
    ensures RequireAll(ids) == if forall id | id in ids :: Identifier(id) then Some(Map(Stripped, ids)) else None
  {
    if ids != [] {
      RequireAllTrims(ids[1..]);
      assert ids == [ids[0]] + ids[1..];
      assert Map(Stripped, ids) == [Strip(ids[0])] + Map(Stripped, ids[1..]);
      assert ids[0] in ids;
    }
  }

  lemma ParseRefTrims(p: Platform, r: Ref)
    requires ValidRef(r)
    ensures ParseRef(p, RefJson(r)) == if PrintableRef(r) then Some(TrimRef(r)) else None
  {
  }

  predicate AllPrintable(refs: seq<Ref>) {
    forall r | r in refs :: PrintableRef(r)
  }

  const IsPrintable: Ref -> bool := (r: Ref) => PrintableRef(r)

  lemma ParseRefsTrims(p: Platform, refs: seq<Ref>)
    requires forall r | r in refs :: ValidRef(r)
    ensures ParseRefs(p, Map(QuoteRef, refs)) == if AllPrintable(refs) then Some(Map(Retrim, refs)) else None
  {
    forall r | r in refs ensures RefParser(p)(QuoteRef(r)) == if IsPrintable(r) then Some(Retrim(r)) else None {
      ParseRefTrims(p, r);
    }
    ListAccepted(refs, QuoteRef, RefParser(p), IsPrintable, Retrim);
  }

  /** The ids agree with the trimmed ids of the references exactly when they are trimmed already. */
  lemma IdsMatchTrimmedRefs(it: DigestItem)
    requires ValidItem(it)
    ensures Sort(it.eventIds, Lex) == Sort(Map(EventOfRef, Map(Retrim, it.refs)), Lex) <==>
            forall id | id in it.eventIds :: Trimmed(id)
  {
    var ids, events := it.eventIds, Map(EventOfRef, Map(Retrim, it.refs));
    if Sort(ids, Lex) == Sort(events, Lex) {
      SortContents(ids, Lex);
      SortContents(events, Lex);
      forall id | id in ids ensures Trimmed(id) {
        assert id in events;
        var i :| 0 <= i < |events| && events[i] == id;
        StripIsTrimmed(it.refs[i].event);
      }
    }
    if forall id | id in ids :: Trimmed(id) {
      forall i | 0 <= i < |events| ensures events[i] == Map(EventOfRef, it.refs)[i] {
        RefEventIn(it, it.refs[i]);
        StripFixed(it.refs[i].event);
      }
      assert events == Map(EventOfRef, it.refs);
      IdsMatchRefs(it);
    }
  }

  lemma TrimmedIdsStay(it: DigestItem)
    requires ValidItem(it) && TrimmedIds(it)
    ensures TrimItem(it).eventIds == it.eventIds && TrimItem(it).workspaceId == it.workspaceId
    ensures Map(EventOfRef, TrimItem(it).refs) == Map(EventOfRef, it.refs)
  {
    StripFixed(it.workspaceId);
    forall i | 0 <= i < |it.eventIds| ensures Strip(it.eventIds[i]) == it.eventIds[i] {
      StripFixed(it.eventIds[i]);
    }
    forall i | 0 <= i < |it.refs| ensures Strip(it.refs[i].event) == it.refs[i].event {
      RefEventIn(it, it.refs[i]);
      StripFixed(it.refs[i].event);
    }
  }

  lemma EventsOfRefs(refs: seq<Ref>)
    ensures (set r | r in refs :: r.event) == Elems(Map(EventOfRef, refs))
  {
    forall id | id in Elems(Map(EventOfRef, refs)) ensures id in (set r | r in refs :: r.event) {
      var i :| 0 <= i < |refs| && refs[i].event == id;
      assert refs[i] in refs;
    }
    forall r | r in refs ensures r.event in Map(EventOfRef, refs) {
      var i :| 0 <= i < |refs| && refs[i] == r;
      assert Map(EventOfRef, refs)[i] == r.event;
    }
  }

  lemma TrimmedItemValid(it: DigestItem)
    requires ValidItem(it) && TrimmedIds(it)
    ensures ValidItem(TrimItem(it)) && DisplaySafe(TrimItem(it).summary)
  {
    TrimmedIdsStay(it);
    StripIsTrimmed(it.itemId);
    StripIsTrimmed(it.summary);
    StripSafe(it.summary);
    var t := TrimItem(it);
    forall r | r in t.refs ensures ValidRef(r) {
      var i :| 0 <= i < |it.refs| && TrimRef(it.refs[i]) == r;
      assert it.refs[i] in it.refs;
      StripIsTrimmed(it.refs[i].source);
      StripIsTrimmed(it.refs[i].revision);
      StripIsTrimmed(it.refs[i].event);
    }
    EventsOfRefs(t.refs);
    EventsOfRefs(it.refs);
  }

  lemma EncodedItemFrom(p: Platform, it: DigestItem, evidence: seq<Ref>)
    requires ValidItem(it)
    ensures ItemFrom(p, ItemJson(it).fields, it.urgent, it.workspaceId, it.eventIds, evidence) ==
            var ids := RequireAll(it.eventIds);
            if ids.None? then None
            else
              var item := NewItem(TrimItem(it).(eventIds := ids.value, refs := evidence));
              if item.None? || item.value.workspaceId != it.workspaceId then None else item
  {
    ItemFields(it);
    SeverityRoundTrip(it.severity);
    StrOfString(p, it.itemId);
    StrOfString(p, it.workspaceId);
    StrOfString(p, it.summary);
  }

  /** What decoding an encoded item comes down to. */
  lemma ParseEncodedItem(p: Platform, it: DigestItem)
    requires ValidItem(it)
    ensures ParseItem(p, ItemJson(it), it.urgent, it.workspaceId) ==
            var refs, ids := ParseRefs(p, Map(QuoteRef, it.refs)), RequireAll(it.eventIds);
            if refs.None? || ids.None? || Sort(it.eventIds, Lex) != Sort(Map(EventOfRef, refs.value), Lex) then None
            else
              var item := NewItem(TrimItem(it).(eventIds := ids.value, refs := refs.value));
              if item.None? || item.value.workspaceId != it.workspaceId then None else item
  {
    ItemFields(it);
    ParseStringsQuoted(it.eventIds);
    var refs := ParseRefs(p, Map(QuoteRef, it.refs));
    if refs.Some? {
      EncodedItemFrom(p, it, refs.value);
    }
  }

  /** A printable valid item is read back trimmed, exactly when its workspace and event ids are trimmed. */
  lemma ItemAccepted(p: Platform, it: DigestItem)
    requires ValidItem(it) && Printable(it)
    ensures ParseItem(p, ItemJson(it), it.urgent, it.workspaceId) == if TrimmedIds(it) then Some(TrimItem(it)) else None
  {
    ParseEncodedItem(p, it);
    ParseRefsTrims(p, it.refs);
    RequireAllTrims(it.eventIds);
    IdsMatchTrimmedRefs(it);
    StripFixed(it.workspaceId);
    if TrimmedIds(it) {
      TrimmedItemValid(it);
      SafeDisplayFixed(TrimItem(it).summary);
    }
  }

  // ----- Digests and jobs -----

  predicate AllTrimmed(d: Digest) {
    forall it | it in Items(d) :: TrimmedIds(it)
  }

  /** The strings a scheduler writes are printable, and its item ids clean. */
  predicate Written(d: Digest) {
    forall it | it in Items(d) :: Printable(it) && Clean(it.itemId)
  }

  lemma {:induction false} ListAccepted<T>(items: seq<T>, quote: T -> Json, parse: Json -> Option<T>, ok: T -> bool, out: T -> T)
    requires forall x | x in items :: parse(quote(x)) == if ok(x) then Some(out(x)) else None
    ensures ParseAll(Map(quote, items), parse) == if forall x | x in items :: ok(x) then Some(Map(out, items)) else None
  {
    if items != [] {
      var n := |items| - 1;
      assert items[n] in items && items == items[..n] + [items[n]];
      ListAccepted(items[..n], quote, parse, ok, out);
      assert Map(quote, items)[..n] == Map(quote, items[..n]);
      assert Map(out, items) == Map(out, items[..n]) + [out(items[n])];
    }
  }

  const HasTrimmedIds: DigestItem -> bool := (it: DigestItem) => TrimmedIds(it)

  lemma LaneAccepted(p: Platform, items: seq<DigestItem>, urgent: bool, ws: string)
    requires forall it | it in items :: ValidItem(it) && Printable(it) && it.workspaceId == ws && it.urgent == urgent
    ensures ParseItems(p, Map(QuoteItem, items), urgent, ws) ==
            if forall it | it in items :: TrimmedIds(it) then Some(Map(Trimming, items)) else None
  {
    forall it | it in items
      ensures ItemParser(p, urgent, ws)(QuoteItem(it)) == if HasTrimmedIds(it) then Some(Trimming(it)) else None
    {
      ItemAccepted(p, it);
    }
    ListAccepted(items, QuoteItem, ItemParser(p, urgent, ws), HasTrimmedIds, Trimming);
  }

  lemma TrimmedItemStays(it: DigestItem)
    requires ValidItem(it) && Clean(it.itemId) && TrimmedIds(it)
    ensures ValidItem(TrimItem(it)) && TrimItem(it).eventIds == it.eventIds
    ensures TrimItem(it).itemId == it.itemId && TrimItem(it).workspaceId == it.workspaceId
    ensures TrimItem(it).urgent == it.urgent && TrimItem(it).severity == it.severity
  {
    TrimmedItemValid(it);
    TrimmedIdsStay(it);
    StripFixed(it.itemId);
  }

  lemma TrimmedLane(items: seq<DigestItem>, urgent: bool, ws: string)
    requires forall it | it in items :: ValidItem(it) && Clean(it.itemId) && TrimmedIds(it)
    requires forall it | it in items :: it.workspaceId == ws && it.urgent == IsUrgent(it.severity) == urgent
    ensures forall t | t in Map(Trimming, items) ::
              ValidItem(t) && t.workspaceId == ws && t.urgent == IsUrgent(t.severity) == urgent
  {
    var ts := Map(Trimming, items);
    forall t | t in ts ensures ValidItem(t) && t.workspaceId == ws && t.urgent == IsUrgent(t.severity) == urgent {
      var k :| 0 <= k < |ts| && ts[k] == t;
      assert items[k] in items;
      TrimmedItemStays(items[k]);
    }
  }

  lemma TrimmedIdentities(items: seq<DigestItem>)
    requires forall it | it in items :: ValidItem(it) && Clean(it.itemId) && TrimmedIds(it)
    ensures ItemIds(Map(Trimming, items)) == ItemIds(items) && EventIds(Map(Trimming, items)) == EventIds(items)
  {
    var ts, f := Map(Trimming, items), (it: DigestItem) => it.eventIds;
    forall k | 0 <= k < |items| ensures ts[k].eventIds == items[k].eventIds && ts[k].itemId == items[k].itemId {
      TrimmedItemStays(items[k]);
    }
    assert Map(f, ts) == Map(f, items);
  }

  lemma LanesOf(d: Digest)
    requires ValidDigest(d) && Written(d) && AllTrimmed(d)
    ensures forall it | it in d.routine :: ValidItem(it) && Clean(it.itemId) && TrimmedIds(it)
                                           && it.workspaceId == d.workspaceId && it.urgent == IsUrgent(it.severity) == false
    ensures forall it | it in d.urgent :: ValidItem(it) && Clean(it.itemId) && TrimmedIds(it)
                                          && it.workspaceId == d.workspaceId && it.urgent == IsUrgent(it.severity) == true
  {
    assert forall it | it in d.routine :: it in Items(d);
    assert forall it | it in d.urgent :: it in Items(d);
  }

  lemma TrimmedLanes(d: Digest)
    requires ValidDigest(d) && Written(d) && AllTrimmed(d)
    ensures forall t | t in TrimDigest(d).routine :: ValidItem(t) && t.workspaceId == d.workspaceId && !t.urgent && !IsUrgent(t.severity)
    ensures forall t | t in TrimDigest(d).urgent :: ValidItem(t) && t.workspaceId == d.workspaceId && t.urgent && IsUrgent(t.severity)
  {
    LanesOf(d);
    TrimmedLane(d.routine, false, d.workspaceId);
    TrimmedLane(d.urgent, true, d.workspaceId);
  }

  lemma ItemsOfTrimmed(d: Digest)
    ensures Items(TrimDigest(d)) == Map(Trimming, Items(d))
  {
  }

  lemma TrimmedDigestValid(d: Digest)
    requires ValidDigest(d) && Written(d) && AllTrimmed(d)
    ensures ValidDigest(TrimDigest(d))
  {
    var t := TrimDigest(d);
    TrimmedLanes(d);
    assert NoDup(ItemIds(Items(t))) && NoDup(EventIds(Items(t))) by {
      ItemsOfTrimmed(d);
      TrimmedIdentities(Items(d));
    }
    assert forall it | it in Items(t) :: it in t.routine || it in t.urgent;
  }

  lemma DigestAccepted(p: Platform, d: Digest)
    requires p.TimesSurvive() && ValidDigest(d) && Written(d)
    ensures ParseDigest(p, DigestJson(p, d), d.workspaceId) == if AllTrimmed(d) then Some(TrimDigest(d)) else None
  {
    assert forall it | it in d.routine :: it in Items(d);
    assert forall it | it in d.urgent :: it in Items(d);
    ParseDigestLanes(p, d);
    LaneAccepted(p, d.routine, false, d.workspaceId);
    LaneAccepted(p, d.urgent, true, d.workspaceId);
    if AllTrimmed(d) {
      TrimmedDigestValid(d);
    }
  }

  lemma JobAccepted(p: Platform, recipient: string, part: Part)
    requires p.TimesSurvive() && ValidDigest(part.digest) && WellSplit(part) && Written(part.digest) && Clean(recipient)
    ensures ParseJob(p, JobFor(p, recipient, part), part.digest.workspaceId) ==
            if AllTrimmed(part.digest) then Some((recipient, TrimDigest(part.digest))) else None
  {
    PayloadFields(p, recipient, part);
    ClassesDiffer();
    RequiredKeeps(recipient);
    StrOfString(p, recipient);
    StrOfString(p, part.digest.workspaceId);
    DigestAccepted(p, part.digest);
  }

  // ----- Jobs written for a batch of events -----

  lemma ItemIdsOfPart(p: Platform, ws: string, start: int, end: int, u: set<Event>, d: Digest, i: nat, it: DigestItem)
    requires p.GoodItemIds() && p.CleanRollupIds() && BatchOk(ws, u) && start < end && !Blank(ws)
    requires d == DigestOf(p, ws, start, end, u) && i < |Parts(p, d)| && it in Items(Parts(p, d)[i].digest)
    ensures Clean(it.itemId)
  {
    PartItems(p, d, i, it);
    if it in Items(d) {
      var k :| 0 <= k < |Items(d)| && Items(d)[k] == it;
      ItemIdAt(p, ws, start, end, u, d, k);
    } else {
      DigestIsValid(p, ws, start, end, u);
      RoutineOk(d);
      RollupValid(p, d.routine, ws, start, end);
    }
  }

  lemma PrintablePart(p: Platform, ws: string, start: int, end: int, u: set<Event>, d: Digest, i: nat, it: DigestItem)
    requires p.GoodItemIds() && p.CleanRollupIds() && BatchOk(ws, u) && start < end && !Blank(ws)
    requires d == DigestOf(p, ws, start, end, u) && i < |Parts(p, d)| && it in Items(Parts(p, d)[i].digest) && ValidItem(it)
    ensures Printable(it)
  {
    var items := Items(Parts(p, d)[i].digest);
    var k :| 0 <= k < |items| && items[k] == it;
    forall r | r in it.refs ensures PrintableRef(r) {
      RefInItems(items, r);
      OnlyBatchEvidence(p, ws, start, end, u, d, i, r);
    }
    forall id | id in it.eventIds ensures ControlFree(id) {
      assert id in Elems(it.eventIds);
      var r :| r in it.refs && r.event == id;
    }
  }

  lemma PartWritten(p: Platform, ws: string, start: int, end: int, u: set<Event>, d: Digest, i: nat)
    requires p.GoodItemIds() && p.CleanRollupIds() && BatchOk(ws, u) && start < end && !Blank(ws)
    requires d == DigestOf(p, ws, start, end, u) && i < |Parts(p, d)|
    ensures ValidDigest(Parts(p, d)[i].digest) && WellSplit(Parts(p, d)[i]) && Written(Parts(p, d)[i].digest)
    ensures Parts(p, d)[i].digest.workspaceId == ws
  {
    DigestIsValid(p, ws, start, end, u);
    PartsValid(p, d, i);
    forall it | it in Items(Parts(p, d)[i].digest) ensures Printable(it) && Clean(it.itemId) {
      ItemIdsOfPart(p, ws, start, end, u, d, i, it);
      PrintablePart(p, ws, start, end, u, d, i, it);
    }
  }

  lemma AllTrimmedMeans(d: Digest)
    requires ValidDigest(d) && Items(d) != []
    ensures AllTrimmed(d) <==> Trimmed(d.workspaceId) && forall id | id in EventIds(Items(d)) :: Trimmed(id)
  {
    assert Items(d)[0] in Items(d);
    forall id ensures id in EventIds(Items(d)) <==> exists it | it in Items(d) :: id in it.eventIds {
      EventInItems(Items(d), id);
    }
  }

  /**
   * A job written for a batch of valid events is accepted exactly when the workspace and every event id it
   * carries are trimmed; what is read differs from what was written only by trimming.
   */
  lemma WrittenJobAccepted(p: Platform, recipient: string, ws: string, start: int, end: int, u: set<Event>, d: Digest, i: nat)
    requires p.GoodItemIds() && p.CleanRollupIds() && p.TimesSurvive()
    requires BatchOk(ws, u) && start < end && !Blank(ws) && Clean(recipient)
    requires d == DigestOf(p, ws, start, end, u) && i < |Parts(p, d)|
    ensures var part := Parts(p, d)[i].digest;
            ParseJob(p, JobsFor(p, recipient, d)[i], ws) ==
            if Trimmed(ws) && forall id | id in EventIds(Items(part)) :: Trimmed(id) then Some((recipient, TrimDigest(part))) else None
  {
    PartWritten(p, ws, start, end, u, d, i);
    JobAccepted(p, recipient, Parts(p, d)[i]);
    AllTrimmedMeans(Parts(p, d)[i].digest);
  }

  ghost predicate SourceAt(items: seq<DigestItem>, k: nat, n: nat, s: string) {
    k < |items| && n < |items[k].refs| && items[k].refs[n].source == s
  }

  lemma SourceExists(d: Digest, s: string)
    ensures s in Sources(d) <==> exists k: nat, n: nat :: SourceAt(Items(d), k, n, s)
  {
    var items := Items(d);
    if s in Sources(d) {
      var r :| r in AllRefs(items) && r.source == s;
      RefInItems(items, r);
      var k: nat :| k < |items| && r in items[k].refs;
      var n: nat :| n < |items[k].refs| && items[k].refs[n] == r;
      assert SourceAt(items, k, n, s);
    }
    if k: nat, n: nat :| SourceAt(items, k, n, s) {
      RefInItems(items, items[k].refs[n]);
    }
  }

  lemma TrimmedSource(d: Digest, k: nat, n: nat, s: string)
    ensures SourceAt(Items(TrimDigest(d)), k, n, s) <==>
            k < |Items(d)| && n < |Items(d)[k].refs| && Strip(Items(d)[k].refs[n].source) == s
  {
    ItemsOfTrimmed(d);
  }

  /** The access check on delivery asks about the trimmed sources, not those that were checked when the job was written. */
  lemma RecheckedSources(d: Digest)
    ensures Sources(TrimDigest(d)) == Image(Stripped, Sources(d))
  {
    var t := TrimDigest(d);
    forall s ensures s in Sources(t) <==> s in Image(Stripped, Sources(d)) {
      SourceExists(t, s);
      if s in Sources(t) {
        var k: nat, n: nat :| SourceAt(Items(t), k, n, s);
        TrimmedSource(d, k, n, s);
        var x := Items(d)[k].refs[n].source;
        assert SourceAt(Items(d), k, n, x);
        SourceExists(d, x);
      }
      if s in Image(Stripped, Sources(d)) {
        var x :| x in Sources(d) && Strip(x) == s;
        SourceExists(d, x);
        var k: nat, n: nat :| SourceAt(Items(d), k, n, x);
        TrimmedSource(d, k, n, s);
      }
    }
  }

  /** An event whose id is not trimmed is enqueued, and the one job that carries it is refused for good. */
  lemma UntrimmedEventIsLost(p: Platform, recipient: string, ws: string, start: int, end: int, u: set<Event>, d: Digest, e: Event)
    returns (i: nat)
    requires p.GoodItemIds() && p.CleanRollupIds() && p.TimesSurvive()
    requires BatchOk(ws, u) && start < end && !Blank(ws) && Clean(recipient)
    requires d == DigestOf(p, ws, start, end, u) && e in u && !Trimmed(e.eventId)
    ensures i < |Parts(p, d)| && RefOf(e) in EvidenceOf(Parts(p, d)[i])
    ensures forall j: nat | j < |Parts(p, d)| && RefOf(e) in EvidenceOf(Parts(p, d)[j]) :: j == i
    ensures ParseJob(p, JobsFor(p, recipient, d)[i], ws) == None
  {
    i := ExactlyOneJob(p, ws, start, end, u, d, e);
    PartWritten(p, ws, start, end, u, d, i);
    var items := Items(Parts(p, d)[i].digest);
    RefInItems(items, RefOf(e));
    var k :| 0 <= k < |items| && RefOf(e) in items[k].refs;
    assert items[k] in items;
    RefEventIn(items[k], RefOf(e));
    EventInItems(items, e.eventId);
    WrittenJobAccepted(p, recipient, ws, start, end, u, d, i);
  }

  /** Such an event is valid and its batch accepted. */
  lemma UntrimmedIdIsAccepted()
    ensures var e := Event(" a", "w", "s", "r", 0, "t", Normal, None, false, None);
            && ValidEvent(e) && !Trimmed(e.eventId) && BatchOk("w", {e})
            && Acceptable([e], "w", 0, 1, (ws, source) => true, 1)
  {
    var e := Event(" a", "w", "s", "r", 0, "t", Normal, None, false, None);
    PlainNames();
    assert !Space(" a"[1]) && Space(" a"[0]);
    assert Elems([e]) == {e};
  }
}
