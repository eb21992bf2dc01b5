/** Queue payloads: compaction of routine items, serialisation, and the parsing a delivery worker does. */
module Delivery {
  import opened Basics
  import opened Ordering
  import opened Text
  import opened Platforms
  import opened Digests

  // ----- Compaction -----

  const DETAIL_LIMIT := 5

  function Dedup<T(==)>(s: seq<T>): seq<T> {
    if s == [] then []
    else if s[0] in s[1..] then Dedup(s[1..])
    else [s[0]] + Dedup(s[1..])
  }

  function AllRefs(items: seq<DigestItem>): seq<Ref> {
    Flatten(Map((it: DigestItem) => it.refs, items))
  }

  predicate RefLe(a: Ref, b: Ref) {
    if a.source != b.source then LexLe(a.source, b.source)
    else if a.revision != b.revision then LexLe(a.revision, b.revision)
    else LexLe(a.event, b.event)
  }

  const RefOrder: (Ref, Ref) -> bool := (a, b) => RefLe(a, b)

  function MaxItemSeverity(items: seq<DigestItem>): Severity
    requires items != []
  {
    if |items| == 1 then items[0].severity
    else
      var rest := MaxItemSeverity(items[1..]);
      if Rank(rest) <= Rank(items[0].severity) then items[0].severity else rest
  }

  function RollupHead(logical: nat, groups: nat): string {
    Decimal(logical) + Counted(" routine updates across ", groups, " groups")
  }

  function CopyNote(duplicates: nat): string {
    if duplicates == 1 then Counted("; ", duplicates, " duplicate copy suppressed")
    else Counted("; ", duplicates, " duplicate copies suppressed")
  }

  function RollupSummary(logical: nat, groups: nat, duplicates: nat, action: bool): string {
    var head := RollupHead(logical, groups);
    var copies := if duplicates == 0 then head else head + CopyNote(duplicates);
    if action then copies + "; some require action" else copies
  }

  function TotalLogical(items: seq<DigestItem>): int {
    Sum(Map((it: DigestItem) => it.logical, items))
  }

  function TotalDuplicates(items: seq<DigestItem>): int {
    Sum(Map((it: DigestItem) => it.duplicates, items))
  }

  function NatOf(n: int): nat {
    if n < 0 then 0 else n
  }

  /** `_compact_routine_items`. */
  function CompactRoutine(p: Platform, items: seq<DigestItem>, ws: string, start: int, end: int): seq<DigestItem> {
    if |items| <= DETAIL_LIMIT then items
    else
      var logical, duplicates := TotalLogical(items), TotalDuplicates(items);
      var action := exists it | it in items :: it.actionRequired;
      [DigestItem(
         p.rollupId(ws, start, end, Sort(ItemIds(items), Lex)), ws,
         RollupSummary(NatOf(logical), |items|, NatOf(duplicates), action),
         MaxItemSeverity(items), action,
         Sort(Dedup(EventIds(items)), Lex), Sort(Dedup(AllRefs(items)), RefOrder),
         false, logical, duplicates)]
  }

  // ----- Serialisation -----

  function SeverityName(s: Severity): string {
    match s
    case Info => "info"
    case Normal => "normal"
    case High => "high"
    case Critical => "critical"
  }

  function ParseSeverity(j: Json): Option<Severity> {
    if j == JStr("info") then Some(Info)
    else if j == JStr("normal") then Some(Normal)
    else if j == JStr("high") then Some(High)
    else if j == JStr("critical") then Some(Critical)
    else None
  }

  function RefJson(r: Ref): Json {
    JList([JStr(r.source), JStr(r.revision), JStr(r.event)])
  }

  const Quote: string -> Json := s => JStr(s)
  const QuoteRef: Ref -> Json := r => RefJson(r)

  function ItemJson(it: DigestItem): Json {
    JObj(map[
      "item_id" := JStr(it.itemId),
      "workspace_id" := JStr(it.workspaceId),
      "summary" := JStr(it.summary),
      "severity" := JStr(SeverityName(it.severity)),
      "action_required" := JBool(it.actionRequired),
      "source_event_ids" := JList(Map(Quote, it.eventIds)),
      "evidence_refs" := JList(Map(QuoteRef, it.refs)),
      "urgent" := JBool(it.urgent),
      "logical_event_count" := JInt(it.logical),
      "duplicate_copy_count" := JInt(it.duplicates)])
  }

  const QuoteItem: DigestItem -> Json := it => ItemJson(it)

  /** `_serialize_digest`. */
  function DigestJson(p: Platform, d: Digest): Json {
    JObj(map[
      "workspace_id" := JStr(d.workspaceId),
      "window_start" := JStr(p.isoformat(d.start)),
      "window_end" := JStr(p.isoformat(d.end)),
      "routine" := JList(Map(QuoteItem, d.routine)),
      "urgent" := JList(Map(QuoteItem, d.urgent))])
  }

  // ----- Parsing; every malformed shape is `None` -----

  predicate Falsy(j: Json) {
    match j
    case JNull => true
    case JBool(b) => !b
    case JInt(n) => n == 0
    case JFloat(r) => r == 0.0
    case JStr(s) => s == ""
    case JList(items) => items == []
    case JObj(fields) => fields == map[]
  }

  function PyStr(p: Platform, j: Json): string {
    if j.JStr? then j.s else p.str(j)
  }

  /** `str(value or "")`. */
  function StrOrEmpty(p: Platform, j: Json): string {
    if Falsy(j) then "" else PyStr(p, j)
  }

  /** Decodes a list, or nothing if one of its elements is malformed. */
  function ParseAll<T>(values: seq<Json>, parse: Json -> Option<T>): Option<seq<T>> {
    if values == [] then Some([])
    else
      var init, last := ParseAll(values[..|values| - 1], parse), parse(values[|values| - 1]);
      if init.Some? && last.Some? then Some(init.value + [last.value]) else None
  }

  const AsString: Json -> Option<string> := (j: Json) => if j.JStr? then Some(j.s) else None

  function ParseStrings(items: seq<Json>): Option<seq<string>> {
    ParseAll(items, AsString)
  }

  function RequireAll(ids: seq<string>): Option<seq<string>> {
    if ids == [] then Some([])
    else
      var first, rest := Required(ids[0]), RequireAll(ids[1..]);
      if first.Some? && rest.Some? then Some([first.value] + rest.value) else None
  }

  function ParseRef(p: Platform, j: Json): Option<Ref> {
    if j.JList? && |j.items| == 3 then
      var a, b, c := Required(PyStr(p, j.items[0])), Required(PyStr(p, j.items[1])), Required(PyStr(p, j.items[2]));
      if a.Some? && b.Some? && c.Some? then Some(Ref(a.value, b.value, c.value)) else None
    else None
  }

  function RefParser(p: Platform): Json -> Option<Ref> {
    (j: Json) => ParseRef(p, j)
  }

  function ParseRefs(p: Platform, items: seq<Json>): Option<seq<Ref>> {
    ParseAll(items, RefParser(p))
  }

  const EventOfRef: Ref -> string := (r: Ref) => r.event

  /** The item of a parsed mapping, once its ids and references are decoded and agree. */
  function ItemFrom(p: Platform, f: map<string, Json>, urgent: bool, ws: string, eventIds: seq<string>, evidence: seq<Ref>): Option<DigestItem> {
    var logical := if "logical_event_count" in f then f["logical_event_count"] else JInt(|eventIds|);
    var duplicates := if "duplicate_copy_count" in f then f["duplicate_copy_count"] else JInt(0);
    var severity := ParseSeverity(Get(f, "severity"));
    var itemId := Required(StrOrEmpty(p, Get(f, "item_id")));
    var itemWs := Required(StrOrEmpty(p, Get(f, "workspace_id")));
    var summary := Required(StrOrEmpty(p, Get(f, "summary")));
    var trimmedIds := RequireAll(eventIds);
    if !Get(f, "action_required").JBool? || Get(f, "urgent") != JBool(urgent) then None
    else if !logical.JInt? || !duplicates.JInt? || severity.None? then None
    else if itemId.None? || itemWs.None? || summary.None? || trimmedIds.None? then None
    else
      var item := NewItem(DigestItem(itemId.value, itemWs.value, summary.value, severity.value,
                                     Get(f, "action_required").b, trimmedIds.value, evidence,
                                     urgent, logical.n, duplicates.n));
      if item.None? || item.value.workspaceId != ws then None else item
  }

  function ParseItem(p: Platform, value: Json, urgent: bool, ws: string): Option<DigestItem> {
    if !value.JObj? then None
    else
      var f := value.fields;
      var refs, ids := Get(f, "evidence_refs"), Get(f, "source_event_ids");
      if !refs.JList? || !ids.JList? then None
      else
        var eventIds, evidence := ParseStrings(ids.items), ParseRefs(p, refs.items);
        if eventIds.None? || evidence.None? then None
        else if Sort(eventIds.value, Lex) != Sort(Map(EventOfRef, evidence.value), Lex) then None
        else ItemFrom(p, f, urgent, ws, eventIds.value, evidence.value)
  }

  function ItemParser(p: Platform, urgent: bool, ws: string): Json -> Option<DigestItem> {
    (j: Json) => ParseItem(p, j, urgent, ws)
  }

  function ParseItems(p: Platform, values: seq<Json>, urgent: bool, ws: string): Option<seq<DigestItem>> {
    ParseAll(values, ItemParser(p, urgent, ws))
  }

  function ParseTime(p: Platform, j: Json): Option<int> {
    if j.JStr? then p.fromIso(j.s) else None
  }

  /** `_deserialize_digest`. */
  function ParseDigest(p: Platform, raw: Json, ws: string): Option<Digest> {
    if !raw.JObj? || StrOrEmpty(p, Get(raw.fields, "workspace_id")) != ws then None
    else
      var f := raw.fields;
      var start, end := ParseTime(p, Get(f, "window_start")), ParseTime(p, Get(f, "window_end"));
      if start.None? || end.None? || start.value >= end.value then None
      else if !Get(f, "routine").JList? || !Get(f, "urgent").JList? then None
      else
        var routine := ParseItems(p, Get(f, "routine").items, false, ws);
        var urgent := ParseItems(p, Get(f, "urgent").items, true, ws);
        if routine.None? || urgent.None? then None
        else
          var d := Digest(ws, start.value, end.value, routine.value, urgent.value);
          if ValidDigest(d) then Some(d) else None
  }

  lemma {:induction false} ParseAllPrefix<T>(values: seq<Json>, parse: Json -> Option<T>, i: nat)
    requires i <= |values| && ParseAll(values[..i], parse).None?
    ensures ParseAll(values, parse).None?
    decreases |values| - i
  {
    if i == |values| {
      assert values[..i] == values;
    } else {
      assert values[..i + 1][..i] == values[..i];
      ParseAllPrefix(values, parse, i + 1);
    }
  }

  /** The item loop of `_deserialize_digest` for one lane. */
  method DeserializeItems(p: Platform, values: seq<Json>, urgent: bool, ws: string) returns (r: Option<seq<DigestItem>>)
    ensures r == ParseItems(p, values, urgent, ws)
  {
    var parse := ItemParser(p, urgent, ws);
    var parsed: seq<DigestItem> := [];
    for i := 0 to |values|
      invariant ParseAll(values[..i], parse) == Some(parsed)
    {
      var item := parse(values[i]);
      assert values[..i + 1][..i] == values[..i];
      if item.None? {
        ParseAllPrefix(values, parse, i + 1);
        return None;
      }
      parsed := parsed + [item.value];
    }
    assert values[..|values|] == values;
    return Some(parsed);
  }

  // ----- Jobs -----

  const JOB_KIND := "notification_delivery"

  datatype Job = Job(jobId: string, namespace: string, entityKind: string, entityId: string, jobKind: string, payload: map<string, Json>)

  function RoutineNamespace(ws: string): string {
    "ws:" + ws + ":notification_jobs"
  }

  function UrgentNamespace(ws: string): string {
    "ws:" + ws + ":urgent_notification_jobs"
  }

  /** `_parse_job`. */
  function ParseJob(p: Platform, job: Job, ws: string): Option<(string, Digest)> {
    var f := job.payload;
    var urgentClass := Get(f, "delivery_class") == JStr("urgent");
    if Get(f, "job_type") != JStr(JOB_KIND) then None
    else if StrOrEmpty(p, Get(f, "workspace_id")) != ws then None
    else if job.namespace != RoutineNamespace(ws) && !(urgentClass && job.namespace == UrgentNamespace(ws)) then None
    else
      var recipient := Required(StrOrEmpty(p, Get(f, "recipient_id")));
      if recipient.None? then None
      else if !(job.entityKind == "notification_delivery" && job.entityId == job.jobId)
           && !(job.entityKind == "notification_recipient" && job.entityId == recipient.value) then None
      else if job.jobKind != JOB_KIND then None
      else
        var digest := ParseDigest(p, Get(f, "digest"), ws);
        if digest.None? then None
        else if urgentClass then
          if |digest.value.urgent| == 1 && digest.value.routine == [] then Some((recipient.value, digest.value)) else None
        else if Get(f, "delivery_class") == JStr("routine") then
          if digest.value.urgent == [] && digest.value.routine != [] then Some((recipient.value, digest.value)) else None
        else None
  }

  datatype Part = Part(urgent: bool, digest: Digest)

  /** How a digest is split for delivery: urgent items alone and first, then one routine digest. */
  function Parts(p: Platform, d: Digest): seq<Part> {
    seq(|d.urgent|, i requires 0 <= i < |d.urgent| => Part(true, Digest(d.workspaceId, d.start, d.end, [], [d.urgent[i]])))
    + (if d.routine == [] then []
       else [Part(false, Digest(d.workspaceId, d.start, d.end, CompactRoutine(p, d.routine, d.workspaceId, d.start, d.end), []))])
  }

  function ClassName(urgent: bool): string {
    if urgent then "urgent" else "routine"
  }

  function Payload(p: Platform, recipient: string, part: Part): map<string, Json> {
    map[
      "job_type" := JStr(JOB_KIND),
      "workspace_id" := JStr(part.digest.workspaceId),
      "recipient_id" := JStr(recipient),
      "delivery_class" := JStr(ClassName(part.urgent)),
      "digest" := DigestJson(p, part.digest)]
  }

  function JobFor(p: Platform, recipient: string, part: Part): Job {
    var payload := Payload(p, recipient, part);
    var ws := part.digest.workspaceId;
    var id := p.jobId(ws, recipient, ClassName(part.urgent), JObj(payload));
    Job(id, if part.urgent then UrgentNamespace(ws) else RoutineNamespace(ws), "notification_delivery", id, JOB_KIND, payload)
  }

  /** The jobs `enqueue_digest` prepares, in order. */
  function JobsFor(p: Platform, recipient: string, d: Digest): (jobs: seq<Job>)
    ensures |jobs| == |Parts(p, d)|
    ensures forall i | 0 <= i < |jobs| :: jobs[i] == JobFor(p, recipient, Parts(p, d)[i])
  {
    seq(|Parts(p, d)|, i requires 0 <= i < |Parts(p, d)| => JobFor(p, recipient, Parts(p, d)[i]))
  }

  // ----- Authorisation and preparation -----

  const MAX_PAYLOAD_BYTES := 256 * 1024

  datatype EnqueueError = BadRecipient | BadRetries | RecipientDenied | NoSources | SourceDenied | TooLarge

  function Sources(d: Digest): set<string> {
    set r | r in AllRefs(Items(d)) :: r.source
  }

  /** `_authorize`: `None` when access is granted. */
  function Authorize(recipient: string, d: Digest, recipientOk: (string, string) -> bool, sourceOk: (string, string, string) -> bool): Option<EnqueueError> {
    if !recipientOk(d.workspaceId, recipient) then Some(RecipientDenied)
    else if Sources(d) == {} then Some(NoSources)
    else if exists s | s in Sources(d) :: !sourceOk(d.workspaceId, recipient, s) then Some(SourceDenied)
    else None
  }

  /** Everything `enqueue_digest` does before it touches the queue. */
  function Prepare(p: Platform, recipient: string, d: Digest, recipientOk: (string, string) -> bool,
                   sourceOk: (string, string, string) -> bool, maxRetries: int): Result<seq<Job>, EnqueueError> {
    var r := Required(recipient);
    if r.None? then Err(BadRecipient)
    else if maxRetries < 1 then Err(BadRetries)
    else
      var denied := Authorize(r.value, d, recipientOk, sourceOk);
      if denied.Some? then Err(denied.value)
      else
        var jobs := JobsFor(p, r.value, d);
        if exists j | j in jobs :: p.size(JObj(j.payload)) > MAX_PAYLOAD_BYTES then Err(TooLarge)
        else Ok(jobs)
  }
}
