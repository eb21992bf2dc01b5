/** From the events of a window to its delivery jobs: nothing lost, nothing sent twice, replay is harmless. */
module Evidence {
  import opened Basics
  import opened Ordering
  import opened Text
  import opened Platforms
  import opened Digests
  import opened DigestFacts
  import opened Delivery
  import opened Compaction
  import opened Codec

  /** The evidence references a part carries. */
  function EvidenceOf(part: Part): seq<Ref> {
    AllRefs(Items(part.digest))
  }

  lemma RefInItems(items: seq<DigestItem>, r: Ref)
    ensures r in AllRefs(items) <==> exists k :: 0 <= k < |items| && r in items[k].refs
  {
    var refs := Map((it: DigestItem) => it.refs, items);
    FlattenMember(refs, r);
    if k :| 0 <= k < |items| && r in items[k].refs {
      assert r in refs[k];
    }
  }

  /** Which references each part carries, in terms of the digest's items. */
  lemma PartEvidence(p: Platform, d: Digest, i: nat, r: Ref)
    requires p.CleanRollupIds() && ValidDigest(d) && i < |Parts(p, d)|
    ensures i < |d.urgent| ==> (r in EvidenceOf(Parts(p, d)[i]) <==> r in d.urgent[i].refs)
    ensures i >= |d.urgent| ==> (r in EvidenceOf(Parts(p, d)[i]) <==> exists k :: 0 <= k < |d.routine| && r in d.routine[k].refs)
  {
    var part := Parts(p, d)[i];
    if i < |d.urgent| {
      assert Items(part.digest) == [d.urgent[i]];
      SingletonTotals(d.urgent[i]);
    } else {
      CompactionConserves(p, d);
      assert Items(part.digest) == part.digest.routine;
      assert r in AllRefs(part.digest.routine) <==> r in Elems(AllRefs(part.digest.routine));
      assert r in AllRefs(d.routine) <==> r in Elems(AllRefs(d.routine));
      RefInItems(d.routine, r);
    }
  }

  /** The index of the part that carries the k-th item. */
  function PartOf(d: Digest, k: nat): nat {
    if k < |d.routine| then |d.urgent| else k - |d.routine|
  }

  /** Some item that travels in part `i` carries the reference. */
  ghost predicate Carried(d: Digest, i: nat, r: Ref) {
    exists k: nat :: k < |Items(d)| && PartOf(d, k) == i && r in Items(d)[k].refs
  }

  lemma CarriedByLane(d: Digest, i: nat, r: Ref)
    requires i < |d.urgent| || (i == |d.urgent| && d.routine != [])
    ensures i < |d.urgent| ==> (Carried(d, i, r) <==> r in d.urgent[i].refs)
    ensures i == |d.urgent| ==> (Carried(d, i, r) <==> exists k :: 0 <= k < |d.routine| && r in d.routine[k].refs)
  {
    if i < |d.urgent| {
      assert Items(d)[|d.routine| + i] == d.urgent[i] && PartOf(d, |d.routine| + i) == i;
    } else {
      if k :| 0 <= k < |d.routine| && r in d.routine[k].refs {
        assert Items(d)[k] == d.routine[k] && PartOf(d, k) == i;
      }
      if Carried(d, i, r) {
        var k: nat :| k < |Items(d)| && PartOf(d, k) == i && r in Items(d)[k].refs;
        assert k < |d.routine| && Items(d)[k] == d.routine[k];
      }
    }
  }

  lemma RefInPart(p: Platform, d: Digest, i: nat, r: Ref)
    requires p.CleanRollupIds() && ValidDigest(d) && i < |Parts(p, d)|
    ensures r in EvidenceOf(Parts(p, d)[i]) <==> Carried(d, i, r)
  {
    PartEvidence(p, d, i, r);
    CarriedByLane(d, i, r);
  }

  /** A part with evidence of `e` comes from an item that holds `e`. */
  lemma EvidenceIsHeld(p: Platform, d: Digest, j: nat, e: Event) returns (k: nat)
    requires p.CleanRollupIds() && ValidDigest(d) && j < |Parts(p, d)| && RefOf(e) in EvidenceOf(Parts(p, d)[j])
    ensures Holds(d, k, e) && PartOf(d, k) == j
  {
    RefInPart(p, d, j, RefOf(e));
    k :| k < |Items(d)| && PartOf(d, k) == j && RefOf(e) in Items(d)[k].refs;
    assert Items(d)[k] in Items(d);
    RefEventIn(Items(d)[k], RefOf(e));
  }

  /** An event held by one item is in the evidence of one part. */
  lemma JobOfItem(p: Platform, d: Digest, k: nat, e: Event) returns (i: nat)
    requires p.CleanRollupIds() && ValidDigest(d) && Holds(d, k, e) && forall j: nat | Holds(d, j, e) :: j == k
    ensures i < |Parts(p, d)| && RefOf(e) in EvidenceOf(Parts(p, d)[i])
    ensures forall j: nat | j < |Parts(p, d)| && RefOf(e) in EvidenceOf(Parts(p, d)[j]) :: j == i
    ensures i < |d.urgent| <==> k >= |d.routine|
  {
    i := PartOf(d, k);
    RefInPart(p, d, i, RefOf(e));
    forall j: nat | j < |Parts(p, d)| && RefOf(e) in EvidenceOf(Parts(p, d)[j]) ensures j == i {
      var other := EvidenceIsHeld(p, d, j, e);
    }
  }

  /** Every event of an accepted batch is in the evidence of exactly one of the window's jobs. */
  lemma ExactlyOneJob(p: Platform, ws: string, start: int, end: int, u: set<Event>, d: Digest, e: Event) returns (i: nat)
    requires p.GoodItemIds() && p.CleanRollupIds() && BatchOk(ws, u) && start < end && !Blank(ws) && e in u
    requires d == DigestOf(p, ws, start, end, u)
    ensures i < |Parts(p, d)| && RefOf(e) in EvidenceOf(Parts(p, d)[i])
    ensures forall j: nat | j < |Parts(p, d)| && RefOf(e) in EvidenceOf(Parts(p, d)[j]) :: j == i
    ensures i < |d.urgent| <==> IsUrgent(e.severity)
  {
    DigestIsValid(p, ws, start, end, u);
    var k := DigestPartition(p, ws, start, end, u, d, e);
    i := JobOfItem(p, d, k, e);
  }

  /** Nothing else is sent: every reference in a job is that of an event of the batch. */
  lemma OnlyBatchEvidence(p: Platform, ws: string, start: int, end: int, u: set<Event>, d: Digest, i: nat, r: Ref)
    requires p.GoodItemIds() && p.CleanRollupIds() && BatchOk(ws, u) && start < end && !Blank(ws)
    requires d == DigestOf(p, ws, start, end, u)
    requires i < |Parts(p, d)| && r in EvidenceOf(Parts(p, d)[i])
    ensures exists e | e in u :: RefOf(e) == r
  {
    DigestIsValid(p, ws, start, end, u);
    RefInPart(p, d, i, r);
    var k: nat :| k < |Items(d)| && PartOf(d, k) == i && r in Items(d)[k].refs;
    ItemAt(p, ws, start, end, u, k);
  }

  // ----- Job ids -----

  lemma SamePayloadSameItem(p: Platform, recipient: string, a: Part, b: Part)
    requires Payload(p, recipient, a) == Payload(p, recipient, b) && |a.digest.urgent| == |b.digest.urgent| == 1
    ensures a.digest.urgent[0].itemId == b.digest.urgent[0].itemId
  {
    PayloadFields(p, recipient, a);
    PayloadFields(p, recipient, b);
    DigestFields(p, a.digest);
    DigestFields(p, b.digest);
    var x, y := Map(QuoteItem, a.digest.urgent), Map(QuoteItem, b.digest.urgent);
    assert x[0] == y[0];
    ItemFields(a.digest.urgent[0]);
    ItemFields(b.digest.urgent[0]);
  }

  lemma ItemFloatFree(it: DigestItem)
    ensures FloatFree(ItemJson(it))
  {
    var ids, refs := JList(Map(Quote, it.eventIds)), JList(Map(QuoteRef, it.refs));
    assert FloatFree(ids);
    forall i | 0 <= i < |it.refs| ensures FloatFree(refs.items[i]) {
      assert refs.items[i] == RefJson(it.refs[i]);
    }
    assert FloatFree(refs);
    var f := ItemJson(it).fields;
    forall k | k in f ensures FloatFree(f[k]) {
    }
  }

  lemma PayloadFloatFree(p: Platform, recipient: string, part: Part)
    ensures FloatFree(JObj(Payload(p, recipient, part)))
  {
    var d := part.digest;
    forall it: DigestItem ensures FloatFree(QuoteItem(it)) {
      ItemFloatFree(it);
    }
    var routine, urgent := JList(Map(QuoteItem, d.routine)), JList(Map(QuoteItem, d.urgent));
    assert FloatFree(routine) && FloatFree(urgent);
    var f := DigestJson(p, d).fields;
    forall k | k in f ensures FloatFree(f[k]) {
    }
    assert FloatFree(DigestJson(p, d));
  }

  lemma SameIdSameContent(p: Platform, r: string, a: Part, r': string, b: Part)
    requires p.JobIdsIdentify() && JobFor(p, r, a).jobId == JobFor(p, r', b).jobId
    ensures a.urgent == b.urgent && r == r' && Payload(p, r, a) == Payload(p, r', b)
    ensures JobFor(p, r, a) == JobFor(p, r', b)
  {
    PayloadFloatFree(p, r, a);
    PayloadFloatFree(p, r', b);
    assert ClassName(a.urgent) == ClassName(b.urgent);
    assert "urgent"[0] != "routine"[0];
    assert JObj(Payload(p, r, a)) == JObj(Payload(p, r', b));
  }

  /** The jobs of one digest have distinct ids, so none overwrites or suppresses another. */
  lemma JobIdsDistinct(p: Platform, recipient: string, d: Digest, i: nat, j: nat)
    requires p.JobIdsIdentify() && ValidDigest(d) && i < |Parts(p, d)| && j < |Parts(p, d)|
    requires JobsFor(p, recipient, d)[i].jobId == JobsFor(p, recipient, d)[j].jobId
    ensures i == j
  {
    var a, b := Parts(p, d)[i], Parts(p, d)[j];
    SameIdSameContent(p, recipient, a, recipient, b);
    if i < |d.urgent| {
      SamePayloadSameItem(p, recipient, a, b);
      UrgentIdsDistinct(d, i, j);
    }
  }

  lemma UrgentIdsDistinct(d: Digest, i: nat, j: nat)
    requires ValidDigest(d) && i < |d.urgent| && j < |d.urgent| && d.urgent[i].itemId == d.urgent[j].itemId
    ensures i == j
  {
    var ids := ItemIds(Items(d));
    assert ids[|d.routine| + i] == d.urgent[i].itemId && ids[|d.routine| + j] == d.urgent[j].itemId;
  }

  // ----- The queue, keyed by job id -----

  /** A job id already present keeps its job. */
  function PutJob(q: map<string, Job>, job: Job): map<string, Job> {
    if job.jobId in q then q else q[job.jobId := job]
  }

  /** One atomic enqueue of several jobs, in order. */
  function PutJobs(q: map<string, Job>, jobs: seq<Job>): map<string, Job> {
    if jobs == [] then q else PutJob(PutJobs(q, jobs[..|jobs| - 1]), jobs[|jobs| - 1])
  }

  lemma {:induction false} PutJobsFacts(q: map<string, Job>, jobs: seq<Job>)
    ensures forall id | id in q :: id in PutJobs(q, jobs) && PutJobs(q, jobs)[id] == q[id]
    ensures forall id :: id in PutJobs(q, jobs) <==> id in q || exists i :: 0 <= i < |jobs| && jobs[i].jobId == id
  {
    if jobs != [] {
      var n := |jobs| - 1;
      PutJobsFacts(q, jobs[..n]);
      forall id ensures id in PutJobs(q, jobs) <==> id in q || exists i :: 0 <= i < |jobs| && jobs[i].jobId == id {
        if i :| 0 <= i < |jobs| && jobs[i].jobId == id {
          assert i < n ==> jobs[..n][i].jobId == id;
        }
        if id in PutJobs(q, jobs[..n]) && id !in q {
          var i :| 0 <= i < n && jobs[..n][i].jobId == id;
          assert jobs[i].jobId == id;
        }
      }
    }
  }

  lemma {:induction false} PutJobsConcat(q: map<string, Job>, a: seq<Job>, b: seq<Job>)
    ensures PutJobs(q, a + b) == PutJobs(PutJobs(q, a), b)
  {
    if b == [] {
      assert a + b == a;
    } else {
      assert (a + b)[..|a + b| - 1] == a + b[..|b| - 1];
      PutJobsConcat(q, a, b[..|b| - 1]);
    }
  }

  lemma {:induction false} PutPresent(q: map<string, Job>, jobs: seq<Job>)
    requires forall i | 0 <= i < |jobs| :: jobs[i].jobId in q
    ensures PutJobs(q, jobs) == q
  {
    if jobs != [] {
      var n := |jobs| - 1;
      assert forall i | 0 <= i < n :: jobs[..n][i] == jobs[i];
      PutPresent(q, jobs[..n]);
    }
  }

  /** Replaying a window, in the same or any later queue that kept its jobs, changes nothing. */
  lemma ReplayIsHarmless(q: map<string, Job>, q': map<string, Job>, jobs: seq<Job>)
    requires forall id | id in PutJobs(q, jobs) :: id in q'
    ensures PutJobs(q', jobs) == q'
  {
    PutJobsFacts(q, jobs);
    PutPresent(q', jobs);
  }

  ghost predicate Genuine(p: Platform, job: Job) {
    exists recipient, part :: job == JobFor(p, recipient, part)
  }

  /** A queue whose entries are what their ids say: the id of a job is the hash of its own content. */
  ghost predicate Authentic(p: Platform, q: map<string, Job>) {
    forall id | id in q :: q[id].jobId == id && Genuine(p, q[id])
  }

  ghost predicate AllGenuine(p: Platform, jobs: seq<Job>) {
    forall i | 0 <= i < |jobs| :: Genuine(p, jobs[i])
  }

  lemma GenuineUnique(p: Platform, a: Job, b: Job)
    requires p.JobIdsIdentify() && Genuine(p, a) && Genuine(p, b) && a.jobId == b.jobId
    ensures a == b
  {
    var r, x :| a == JobFor(p, r, x);
    var r', y :| b == JobFor(p, r', y);
    SameIdSameContent(p, r, x, r', y);
  }

  /** Job ids identify job contents. */
  ghost predicate IdsIdentify(p: Platform) {
    forall a, b | Genuine(p, a) && Genuine(p, b) && a.jobId == b.jobId :: a == b
  }

  lemma GenuineIdsIdentify(p: Platform)
    requires p.JobIdsIdentify()
    ensures IdsIdentify(p)
  {
    forall a, b | Genuine(p, a) && Genuine(p, b) && a.jobId == b.jobId ensures a == b {
      GenuineUnique(p, a, b);
    }
  }

  lemma PutGenuine(p: Platform, q: map<string, Job>, job: Job)
    requires IdsIdentify(p) && Authentic(p, q) && Genuine(p, job)
    ensures Authentic(p, PutJob(q, job)) && job.jobId in PutJob(q, job) && PutJob(q, job)[job.jobId] == job
    ensures forall id | id in q :: id in PutJob(q, job) && PutJob(q, job)[id] == q[id]
  {
  }

  ghost predicate Present(q: map<string, Job>, jobs: seq<Job>) {
    forall i | 0 <= i < |jobs| :: jobs[i].jobId in q && q[jobs[i].jobId] == jobs[i]
  }

  /** In such a queue every job that was put is present with exactly its own content. */
  lemma {:induction false} PostedIntact(p: Platform, q: map<string, Job>, jobs: seq<Job>)
    requires IdsIdentify(p) && Authentic(p, q) && AllGenuine(p, jobs)
    ensures Authentic(p, PutJobs(q, jobs)) && Present(PutJobs(q, jobs), jobs)
  {
    if jobs != [] {
      var n := |jobs| - 1;
      var init, job := jobs[..n], jobs[n];
      assert AllGenuine(p, init) && Genuine(p, job);
      PostedIntact(p, q, init);
      PutGenuine(p, PutJobs(q, init), job);
      PresentSnoc(PutJobs(q, init), PutJobs(q, jobs), init, job);
      assert init + [job] == jobs;
    }
  }

  lemma PresentSnoc(q: map<string, Job>, q': map<string, Job>, init: seq<Job>, job: Job)
    requires Present(q, init) && job.jobId in q' && q'[job.jobId] == job
    requires forall id | id in q :: id in q' && q'[id] == q[id]
    ensures Present(q', init + [job])
  {
  }

  lemma JobsAreGenuine(p: Platform, recipient: string, d: Digest)
    ensures AllGenuine(p, JobsFor(p, recipient, d))
  {
  }

  // ----- Clean events make clean jobs -----

  predicate CleanEvent(e: Event) {
    Clean(e.eventId) && Clean(e.workspaceId) && Clean(e.sourceId) && Clean(e.revisionId) && Trimmed(e.title)
  }

  lemma CleanSummary(p: Platform, ws: string, start: int, end: int, key: string, g: seq<Event>, urgent: bool)
    requires GroupOk(ws, g) && forall e | e in g :: CleanEvent(e)
    ensures Clean(MakeItem(p, ws, start, end, key, g, urgent).summary)
  {
    var s := Sort(g, IdOrder);
    SortContents(g, IdOrder);
    LatestMember(s);
    LogicalAtMost(s);
    SummaryVisible(Latest(s).title, |LogicalKeys(s)|, |s|);
  }

  lemma CleanItems(p: Platform, ws: string, start: int, end: int, u: set<Event>, k: nat)
    requires p.CleanItemIds() && BatchOk(ws, u) && k < |AllKeys(u)| && forall e | e in u :: CleanEvent(e)
    ensures |Items(DigestOf(p, ws, start, end, u))| == |AllKeys(u)|
    ensures CleanItem(Items(DigestOf(p, ws, start, end, u))[k])
  {
    ItemAt(p, ws, start, end, u, k);
    var it := Items(DigestOf(p, ws, start, end, u))[k];
    var lane, key := LaneAt(u, k), AllKeys(u)[k];
    GroupListOk(ws, u, lane, key);
    var g := GroupList(u, lane, key);
    CleanSummary(p, ws, start, end, key, g, lane);
    assert Clean(it.itemId) && Clean(ws) by {
      assert Clean(p.itemId(ws, start, end, key));
      assert g[0] in g;
    }
    assert forall id | id in it.eventIds :: Clean(id);
    assert forall r | r in it.refs :: CleanRef(r);
  }

  /** Every job written for a batch of clean events is accepted by the worker and decodes to what was sent. */
  lemma CleanEventsDecode(p: Platform, recipient: string, ws: string, start: int, end: int, u: set<Event>, d: Digest, i: nat)
    requires p.GoodItemIds() && p.CleanRollupIds() && p.TimesSurvive() && BatchOk(ws, u) && start < end && !Blank(ws) && Clean(recipient)
    requires forall e | e in u :: CleanEvent(e)
    requires d == DigestOf(p, ws, start, end, u) && i < |Parts(p, d)|
    ensures ParseJob(p, JobsFor(p, recipient, d)[i], ws) == Some((recipient, Parts(p, d)[i].digest))
  {
    DigestIsValid(p, ws, start, end, u);
    forall it | it in Items(d) ensures CleanItem(it) {
      var k :| 0 <= k < |Items(d)| && Items(d)[k] == it;
      CleanItems(p, ws, start, end, u, k);
    }
    CleanParts(p, d, i);
    QueueRoundTrip(p, recipient, d, i);
  }

  /** The items of a part are items of the digest, or the one item that replaces its routine items. */
  lemma PartItems(p: Platform, d: Digest, i: nat, it: DigestItem)
    requires i < |Parts(p, d)| && it in Items(Parts(p, d)[i].digest)
    ensures it in Items(d) ||
            (|d.routine| > DETAIL_LIMIT && it == CompactRoutine(p, d.routine, d.workspaceId, d.start, d.end)[0])
  {
    var part := Parts(p, d)[i].digest;
    if i < |d.urgent| {
      assert Items(part) == [d.urgent[i]];
      assert d.urgent[i] in d.urgent;
    } else {
      assert Items(part) == part.routine;
    }
  }

  lemma RollupIsClean(p: Platform, d: Digest)
    requires p.CleanRollupIds() && ValidDigest(d) && |d.routine| > DETAIL_LIMIT
    requires forall it | it in Items(d) :: CleanItem(it)
    ensures CleanItem(CompactRoutine(p, d.routine, d.workspaceId, d.start, d.end)[0])
  {
    RoutineOk(d);
    RollupValid(p, d.routine, d.workspaceId, d.start, d.end);
    AllRefsNoDup(d.workspaceId, d.routine);
    assert forall it | it in d.routine :: it in Items(d);
    CleanRollup(d.routine, CompactRoutine(p, d.routine, d.workspaceId, d.start, d.end)[0]);
  }

  lemma CleanParts(p: Platform, d: Digest, i: nat)
    requires p.CleanRollupIds() && ValidDigest(d) && i < |Parts(p, d)|
    requires forall it | it in Items(d) :: CleanItem(it)
    ensures CleanDigest(Parts(p, d)[i].digest)
  {
    forall it | it in Items(Parts(p, d)[i].digest) ensures CleanItem(it) {
      PartItems(p, d, i, it);
      if it !in Items(d) {
        RollupIsClean(p, d);
      }
    }
  }

  lemma CleanRollup(items: seq<DigestItem>, c: DigestItem)
    requires items != [] && forall it | it in items :: CleanItem(it)
    requires Elems(c.eventIds) == Elems(EventIds(items)) && Elems(c.refs) == Elems(AllRefs(items))
    requires forall r :: r in AllRefs(items) <==> exists it | it in items :: r in it.refs
    requires Clean(c.itemId) && Visible(c.summary) && Trimmed(c.summary) && c.workspaceId == items[0].workspaceId
    ensures CleanItem(c)
  {
    forall id | id in c.eventIds ensures Clean(id) {
      assert id in Elems(c.eventIds);
      EventInItems(items, id);
    }
    forall r | r in c.refs ensures CleanRef(r) {
      assert r in Elems(c.refs);
    }
    assert items[0] in items;
  }
}
