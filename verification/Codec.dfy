/** A digest written to the queue comes back unchanged exactly when its strings are clean. */
module Codec {
  import opened Basics
  import opened Ordering
  import opened Text
  import opened Platforms
  import opened Digests
  import opened Delivery
  import opened Compaction

  predicate CleanRef(r: Ref) {
    Clean(r.source) && Clean(r.revision) && Clean(r.event)
  }

  /** Every string of the item is trimmed and free of control characters. */
  predicate CleanItem(it: DigestItem) {
    && Clean(it.itemId) && Clean(it.workspaceId) && Clean(it.summary)
    && (forall id | id in it.eventIds :: Clean(id))
    && (forall r | r in it.refs :: CleanRef(r))
  }

  predicate CleanDigest(d: Digest) {
    forall it | it in Items(d) :: CleanItem(it)
  }

  // ----- Lists of strings and references -----

  lemma ParseStringsQuoted(ids: seq<string>)
    ensures ParseStrings(Map(Quote, ids)) == Some(ids)
  {
    ListRoundTrip(ids, Quote, AsString);
  }

  lemma {:induction false} RequireAllKeeps(ids: seq<string>)
    ensures RequireAll(ids) == Some(ids) <==> forall id | id in ids :: Clean(id)
    ensures RequireAll(ids).Some? ==> |RequireAll(ids).value| == |ids|
  {
    if ids != [] {
      RequireAllKeeps(ids[1..]);
      RequiredKeeps(ids[0]);
      assert ids == [ids[0]] + ids[1..];
    }
  }

  lemma ParseRefQuoted(p: Platform, r: Ref)
    ensures ParseRef(p, RefJson(r)) == Some(r) <==> CleanRef(r)
  {
    RequiredKeeps(r.source);
    RequiredKeeps(r.revision);
    RequiredKeeps(r.event);
  }

  lemma ParseRefsQuoted(p: Platform, refs: seq<Ref>)
    ensures ParseRefs(p, Map(QuoteRef, refs)) == Some(refs) <==> forall r | r in refs :: CleanRef(r)
  {
    ListRoundTrip(refs, QuoteRef, RefParser(p));
    forall r | r in refs ensures RefParser(p)(QuoteRef(r)) == Some(r) <==> CleanRef(r) {
      ParseRefQuoted(p, r);
    }
  }

  lemma IdsMatchRefs(it: DigestItem)
    requires ValidItem(it)
    ensures Sort(it.eventIds, Lex) == Sort(Map(EventOfRef, it.refs), Lex)
  {
    RefsInjective(it);
    var events := Map(EventOfRef, it.refs);
    forall i, j | 0 <= i < j < |events| ensures events[i] != events[j] {
      assert it.refs[i] in it.refs && it.refs[j] in it.refs && it.refs[i] != it.refs[j];
    }
    forall id ensures id in Elems(events) <==> id in Elems(it.eventIds) {
      if id in events {
        var i :| 0 <= i < |events| && events[i] == id;
        RefEventIn(it, it.refs[i]);
      }
      if id in Elems(it.eventIds) {
        var r :| r in it.refs && r.event == id;
        var i :| 0 <= i < |it.refs| && it.refs[i] == r;
        assert events[i] == id;
      }
    }
    assert Elems(events) == Elems(it.eventIds);
    LexOn(Elems(it.eventIds));
    SortOfElems(it.eventIds, events, Lex);
  }

  // ----- Items -----

  /** What the parser reads back from a serialised item. */
  lemma ItemFields(it: DigestItem)
    ensures var f := ItemJson(it).fields;
            && Get(f, "item_id") == JStr(it.itemId) && Get(f, "workspace_id") == JStr(it.workspaceId)
            && Get(f, "summary") == JStr(it.summary) && Get(f, "severity") == JStr(SeverityName(it.severity))
            && Get(f, "action_required") == JBool(it.actionRequired) && Get(f, "urgent") == JBool(it.urgent)
    ensures var f := ItemJson(it).fields;
            && Get(f, "source_event_ids") == JList(Map(Quote, it.eventIds))
            && Get(f, "evidence_refs") == JList(Map(QuoteRef, it.refs))
            && "logical_event_count" in f && f["logical_event_count"] == JInt(it.logical)
            && "duplicate_copy_count" in f && f["duplicate_copy_count"] == JInt(it.duplicates)
  {
  }

  lemma SeverityRoundTrip(s: Severity)
    ensures ParseSeverity(JStr(SeverityName(s))) == Some(s)
  {
  }

  lemma NewItemKeeps(it: DigestItem)
    requires ValidItem(it)
    ensures NewItem(it) == Some(it)
  {
    SafeDisplayFixed(it.summary);
  }

  lemma StrOfString(p: Platform, s: string)
    ensures StrOrEmpty(p, JStr(s)) == s
  {
  }

  /** A valid item is read back as it was written exactly when its strings are clean. */
  lemma ItemRoundTrip(p: Platform, it: DigestItem)
    requires ValidItem(it)
    ensures ParseItem(p, ItemJson(it), it.urgent, it.workspaceId) == Some(it) <==> CleanItem(it)
  {
    ItemFields(it);
    SeverityRoundTrip(it.severity);
    ParseStringsQuoted(it.eventIds);
    ParseRefsQuoted(p, it.refs);
    RequireAllKeeps(it.eventIds);
    RequiredKeeps(it.itemId);
    RequiredKeeps(it.workspaceId);
    RequiredKeeps(it.summary);
    StrOfString(p, it.itemId);
    StrOfString(p, it.workspaceId);
    StrOfString(p, it.summary);
    IdsMatchRefs(it);
    NewItemKeeps(it);
    if ParseItem(p, ItemJson(it), it.urgent, it.workspaceId) == Some(it) {
      ParsedIsClean(p, it);
    }
  }

  lemma ParsedIsClean(p: Platform, it: DigestItem)
    requires ValidItem(it) && ParseItem(p, ItemJson(it), it.urgent, it.workspaceId) == Some(it)
    ensures Required(it.itemId) == Some(it.itemId) && Required(it.workspaceId) == Some(it.workspaceId)
    ensures RequireAll(it.eventIds) == Some(it.eventIds) && ParseRefs(p, Map(QuoteRef, it.refs)) == Some(it.refs)
    ensures Required(it.summary).Some? && Clean(it.summary)
  {
    ItemFields(it);
    SeverityRoundTrip(it.severity);
    ParseStringsQuoted(it.eventIds);
    StrOfString(p, it.itemId);
    StrOfString(p, it.workspaceId);
    StrOfString(p, it.summary);
    var summary := Required(it.summary).value;
    assert SafeDisplay(summary) == it.summary;
    RequiredIsClean(it.summary);
    StripSafe(it.summary);
    SafeDisplayFixed(summary);
  }

  lemma StripSafe(s: string)
    requires DisplaySafe(s)
    ensures DisplaySafe(Strip(s))
  {
    TrimSafe(s);
    TrimRightSafe(TrimLeft(s));
  }

  lemma {:induction false} TrimSafe(s: string)
    requires DisplaySafe(s)
    ensures DisplaySafe(TrimLeft(s))
  {
    if s != [] && Space(s[0]) {
      TrimSafe(s[1..]);
    }
  }

  lemma {:induction false} TrimRightSafe(s: string)
    requires DisplaySafe(s)
    ensures DisplaySafe(TrimRight(s))
  {
    if s != [] && Space(s[|s| - 1]) {
      TrimRightSafe(s[..|s| - 1]);
    }
  }

  // ----- Digests -----

  lemma SnocIsWhole<T>(init: Option<seq<T>>, last: Option<T>, items: seq<T>)
    requires items != [] && (init.Some? ==> |init.value| == |items| - 1)
    ensures (if init.Some? && last.Some? then Some(init.value + [last.value]) else None) == Some(items) <==>
            init == Some(items[..|items| - 1]) && last == Some(items[|items| - 1])
  {
    var n := |items| - 1;
    assert items == items[..n] + [items[n]];
    if init.Some? && last.Some? && init.value + [last.value] == items {
      assert (init.value + [last.value])[..n] == init.value;
      assert (init.value + [last.value])[n] == last.value;
    }
  }

  /** A list is decoded to what was encoded exactly when each of its elements is. */
  lemma {:induction false} ListRoundTrip<T>(items: seq<T>, quote: T -> Json, parse: Json -> Option<T>)
    ensures ParseAll(Map(quote, items), parse) == Some(items) <==> forall x | x in items :: parse(quote(x)) == Some(x)
    ensures var parsed := ParseAll(Map(quote, items), parse); parsed.Some? ==> |parsed.value| == |items|
  {
    if items != [] {
      var n := |items| - 1;
      ListRoundTrip(items[..n], quote, parse);
      assert Map(quote, items)[..n] == Map(quote, items[..n]);
      SnocIsWhole(ParseAll(Map(quote, items[..n]), parse), parse(quote(items[n])), items);
      assert items == items[..n] + [items[n]];
    }
  }

  lemma ItemsRoundTrip(p: Platform, items: seq<DigestItem>, urgent: bool, ws: string)
    requires forall it | it in items :: ValidItem(it) && it.workspaceId == ws && it.urgent == urgent
    ensures ParseItems(p, Map(QuoteItem, items), urgent, ws) == Some(items) <==> forall it | it in items :: CleanItem(it)
  {
    var parse := ItemParser(p, urgent, ws);
    ListRoundTrip(items, QuoteItem, parse);
    forall it | it in items ensures parse(QuoteItem(it)) == Some(it) <==> CleanItem(it) {
      ItemRoundTrip(p, it);
    }
  }

  lemma DigestFields(p: Platform, d: Digest)
    ensures var f := DigestJson(p, d).fields;
            && Get(f, "workspace_id") == JStr(d.workspaceId)
            && Get(f, "window_start") == JStr(p.isoformat(d.start)) && Get(f, "window_end") == JStr(p.isoformat(d.end))
            && Get(f, "routine") == JList(Map(QuoteItem, d.routine)) && Get(f, "urgent") == JList(Map(QuoteItem, d.urgent))
  {
  }

  /** Decoding an encoded digest comes down to decoding its two lanes. */
  lemma ParseDigestLanes(p: Platform, d: Digest)
    requires p.TimesSurvive() && d.start < d.end
    ensures var routine := ParseItems(p, Map(QuoteItem, d.routine), false, d.workspaceId);
            var urgent := ParseItems(p, Map(QuoteItem, d.urgent), true, d.workspaceId);
            ParseDigest(p, DigestJson(p, d), d.workspaceId) ==
            if routine.None? || urgent.None? then None
            else
              var parsed := Digest(d.workspaceId, d.start, d.end, routine.value, urgent.value);
              if ValidDigest(parsed) then Some(parsed) else None
  {
    DigestFields(p, d);
    StrOfString(p, d.workspaceId);
  }

  lemma LanesRoundTrip(p: Platform, d: Digest)
    requires ValidDigest(d)
    ensures (ParseItems(p, Map(QuoteItem, d.routine), false, d.workspaceId) == Some(d.routine) &&
             ParseItems(p, Map(QuoteItem, d.urgent), true, d.workspaceId) == Some(d.urgent)) <==> CleanDigest(d)
  {
    assert forall it | it in d.routine :: it in Items(d);
    assert forall it | it in d.urgent :: it in Items(d);
    ItemsRoundTrip(p, d.routine, false, d.workspaceId);
    ItemsRoundTrip(p, d.urgent, true, d.workspaceId);
  }

  /** Encoding and decoding a valid digest gives it back exactly when all its strings are clean. */
  lemma DigestRoundTrip(p: Platform, d: Digest)
    requires p.TimesSurvive() && ValidDigest(d)
    ensures ParseDigest(p, DigestJson(p, d), d.workspaceId) == Some(d) <==> CleanDigest(d)
  {
    ParseDigestLanes(p, d);
    LanesRoundTrip(p, d);
  }

  // ----- Jobs -----

  lemma PayloadFields(p: Platform, recipient: string, part: Part)
    ensures var f := Payload(p, recipient, part);
            && Get(f, "job_type") == JStr(JOB_KIND) && Get(f, "workspace_id") == JStr(part.digest.workspaceId)
            && Get(f, "recipient_id") == JStr(recipient) && Get(f, "delivery_class") == JStr(ClassName(part.urgent))
            && Get(f, "digest") == DigestJson(p, part.digest)
  {
  }

  lemma ClassesDiffer()
    ensures JStr("routine") != JStr("urgent")
  {
    assert "routine"[0] != "urgent"[0];
  }

  /** A job carries one urgent item or routine items only. */
  predicate WellSplit(part: Part) {
    if part.urgent then part.digest.routine == [] && |part.digest.urgent| == 1
    else part.digest.urgent == [] && part.digest.routine != []
  }

  /** What a worker reads from a job the scheduler wrote. */
  lemma JobRoundTrip(p: Platform, recipient: string, part: Part)
    requires p.TimesSurvive() && ValidDigest(part.digest) && WellSplit(part) && Clean(recipient)
    ensures ParseJob(p, JobFor(p, recipient, part), part.digest.workspaceId) == Some((recipient, part.digest))
            <==> CleanDigest(part.digest)
  {
    PayloadFields(p, recipient, part);
    ClassesDiffer();
    RequiredKeeps(recipient);
    StrOfString(p, recipient);
    StrOfString(p, part.digest.workspaceId);
    DigestRoundTrip(p, part.digest);
  }

  lemma PartsValid(p: Platform, d: Digest, i: nat)
    requires p.CleanRollupIds() && ValidDigest(d) && i < |Parts(p, d)|
    ensures ValidDigest(Parts(p, d)[i].digest) && WellSplit(Parts(p, d)[i])
    ensures Parts(p, d)[i].digest.workspaceId == d.workspaceId
  {
    if i < |d.urgent| {
      var one := Parts(p, d)[i].digest;
      assert Items(one) == [d.urgent[i]];
      assert d.urgent[i] in Items(d) && d.urgent[i] in d.urgent;
      SingletonTotals(d.urgent[i]);
    } else {
      CompactionConserves(p, d);
    }
  }

  /** Urgent items come first, each in a job of its own in the urgent namespace, and the routine items together in the other. */
  lemma UrgentJobsApart(p: Platform, recipient: string, d: Digest, i: nat)
    requires i < |Parts(p, d)|
    ensures var part, job := Parts(p, d)[i], JobsFor(p, recipient, d)[i];
            && UrgentNamespace(d.workspaceId) != RoutineNamespace(d.workspaceId)
            && (i < |d.urgent| ==> part.digest.urgent == [d.urgent[i]] && part.digest.routine == []
                                   && job.namespace == UrgentNamespace(d.workspaceId))
            && (i >= |d.urgent| ==> i == |d.urgent| && d.routine != [] && part.digest.urgent == []
                                    && job.namespace == RoutineNamespace(d.workspaceId))
            && part.digest.workspaceId == d.workspaceId && part.digest.start == d.start && part.digest.end == d.end
    ensures |Parts(p, d)| == |d.urgent| + (if d.routine == [] then 0 else 1)
  {
    assert |UrgentNamespace(d.workspaceId)| != |RoutineNamespace(d.workspaceId)|;
  }

  /**
   * Through the queue and back: every job written for a valid digest is accepted by the worker and
   * decodes to the same recipient and the same part, exactly when that part's strings are clean.
   */
  lemma QueueRoundTrip(p: Platform, recipient: string, d: Digest, i: nat)
    requires p.CleanRollupIds() && p.TimesSurvive() && ValidDigest(d) && Clean(recipient) && i < |Parts(p, d)|
    ensures ParseJob(p, JobsFor(p, recipient, d)[i], d.workspaceId) == Some((recipient, Parts(p, d)[i].digest))
            <==> CleanDigest(Parts(p, d)[i].digest)
  {
    PartsValid(p, d, i);
    JobRoundTrip(p, recipient, Parts(p, d)[i]);
  }

  // ----- What a worker accepts at all -----

  lemma {:induction false} ParseAllEach<T>(values: seq<Json>, parse: Json -> Option<T>)
    requires ParseAll(values, parse).Some?
    ensures |ParseAll(values, parse).value| == |values|
    ensures forall i | 0 <= i < |values| :: parse(values[i]) == Some(ParseAll(values, parse).value[i])
  {
    if values != [] {
      ParseAllEach(values[..|values| - 1], parse);
    }
  }

  lemma {:induction false} RequireAllClean(ids: seq<string>)
    requires RequireAll(ids).Some?
    ensures forall id | id in RequireAll(ids).value :: Clean(id)
  {
    if ids != [] {
      RequireAllClean(ids[1..]);
      RequiredIsClean(ids[0]);
    }
  }

  /** All but the summary, which is sanitised after trimming. */
  predicate CleanButSummary(it: DigestItem) {
    && Clean(it.itemId) && Clean(it.workspaceId)
    && (forall id | id in it.eventIds :: Clean(id))
    && (forall r | r in it.refs :: CleanRef(r))
  }

  lemma ParsedRefsClean(p: Platform, values: seq<Json>)
    requires ParseRefs(p, values).Some?
    ensures forall r | r in ParseRefs(p, values).value :: CleanRef(r)
  {
    ParseAllEach(values, RefParser(p));
    var refs := ParseRefs(p, values).value;
    forall i | 0 <= i < |refs| ensures CleanRef(refs[i]) {
      assert ParseRef(p, values[i]) == Some(refs[i]);
      var items := values[i].items;
      RequiredIsClean(PyStr(p, items[0]));
      RequiredIsClean(PyStr(p, items[1]));
      RequiredIsClean(PyStr(p, items[2]));
    }
  }

  lemma ParsedItemSound(p: Platform, value: Json, urgent: bool, ws: string)
    requires ParseItem(p, value, urgent, ws).Some?
    ensures var it := ParseItem(p, value, urgent, ws).value;
            ValidItem(it) && CleanButSummary(it) && it.workspaceId == ws && it.urgent == urgent
  {
    var f := value.fields;
    ParsedRefsClean(p, Get(f, "evidence_refs").items);
    RequireAllClean(ParseStrings(Get(f, "source_event_ids").items).value);
    RequiredIsClean(StrOrEmpty(p, Get(f, "item_id")));
    RequiredIsClean(StrOrEmpty(p, Get(f, "workspace_id")));
  }

  lemma ParsedItemsSound(p: Platform, values: seq<Json>, urgent: bool, ws: string)
    requires ParseItems(p, values, urgent, ws).Some?
    ensures forall it | it in ParseItems(p, values, urgent, ws).value :: CleanButSummary(it)
  {
    ParseAllEach(values, ItemParser(p, urgent, ws));
    var items := ParseItems(p, values, urgent, ws).value;
    forall i | 0 <= i < |items| ensures CleanButSummary(items[i]) {
      ParsedItemSound(p, values[i], urgent, ws);
    }
  }

  lemma ParsedDigestSound(p: Platform, raw: Json, ws: string)
    requires ParseDigest(p, raw, ws).Some?
    ensures var d := ParseDigest(p, raw, ws).value;
            ValidDigest(d) && d.workspaceId == ws && forall it | it in Items(d) :: CleanButSummary(it)
  {
    ParsedItemsSound(p, Get(raw.fields, "routine").items, false, ws);
    ParsedItemsSound(p, Get(raw.fields, "urgent").items, true, ws);
  }

  /** Where a job of this kind may stand, and for whom. */
  predicate Addressed(job: Job, recipient: string, urgent: bool, ws: string) {
    && job.jobKind == JOB_KIND
    && (job.namespace == RoutineNamespace(ws) || (urgent && job.namespace == UrgentNamespace(ws)))
    && ((job.entityKind == "notification_delivery" && job.entityId == job.jobId)
        || (job.entityKind == "notification_recipient" && job.entityId == recipient))
  }

  /**
   * Whatever job a worker accepts, written by the scheduler or not, stands in a queue of the workspace and yields a
   * valid digest of that workspace with one urgent item or routine items only, for a clean recipient.
   */
  lemma ParsedJobSound(p: Platform, job: Job, ws: string)
    requires ParseJob(p, job, ws).Some?
    ensures var (recipient, d) := ParseJob(p, job, ws).value;
            && Clean(recipient) && ValidDigest(d) && d.workspaceId == ws && (forall it | it in Items(d) :: CleanButSummary(it))
            && WellSplit(Part(d.urgent != [], d)) && Addressed(job, recipient, d.urgent != [], ws)
  {
    ParsedDigestSound(p, Get(job.payload, "digest"), ws);
    RequiredIsClean(StrOrEmpty(p, Get(job.payload, "recipient_id")));
  }
}
