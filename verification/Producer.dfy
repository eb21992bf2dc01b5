/** `NotificationWindowProducer.produce_once` and `enqueue_digest`, shown to be runs of the production protocol. */
module ProducerLoop {
  import opened Basics
  import opened Text
  import opened Platforms
  import opened Windows
  import opened Schedules
  import opened Digests
  import opened DigestFacts
  import opened DigestBuilder
  import opened Delivery
  import opened Evidence
  import opened Production

  datatype ProduceError =
    | RecipientNotAuthorized
    | Planning(window: WindowError)
    | TooManySources | BadSource | RepeatedSource | SourceNotAuthorized
    | Digesting(digest: DigestError)
    | Enqueueing(enqueue: EnqueueError)
    | CursorChanged

  datatype Outcome = Outcome(windows: nat, considered: nat, jobIds: seq<string>, cursor: Option<int>)

  const IdOf: Job -> string := (j: Job) => j.jobId

  // ----- What a producer makes of the events it reads -----

  /** The events of a window can be digested and its jobs enqueued. */
  ghost predicate Postable(p: Platform, s: Schedule, window: Window, events: seq<Event>,
                           recipientOk: (string, string) -> bool, sourceOk: (string, string, string) -> bool) {
    && Acceptable(events, s.workspaceId, window.start, window.end, SourceAuth(s, sourceOk), s.maxEvents)
    && (events != [] ==> Prepare(p, s.recipientId, WindowDigest(p, KeyOf(s), window, events), recipientOk, sourceOk, 5).Ok?)
  }

  /** Only events of the schedule's own workspace and of sources its recipient may see are ever posted. */
  lemma PostableIsAuthorized(p: Platform, s: Schedule, window: Window, events: seq<Event>,
                             recipientOk: (string, string) -> bool, sourceOk: (string, string, string) -> bool)
    requires Postable(p, s, window, events, recipientOk, sourceOk)
    ensures forall e | e in events ::
              e.workspaceId == s.workspaceId && sourceOk(s.workspaceId, s.recipientId, e.sourceId)
              && window.start <= e.occurredAt < window.end
    ensures |events| <= s.maxEvents
  {
  }

  ghost predicate AllPostable(p: Platform, s: Schedule, windows: seq<Window>, read: Window -> seq<Event>,
                              recipientOk: (string, string) -> bool, sourceOk: (string, string, string) -> bool) {
    forall i | 0 <= i < |windows| :: Postable(p, s, windows[i], read(windows[i]), recipientOk, sourceOk)
  }

  ghost predicate AllConsistent(windows: seq<Window>, read: Window -> seq<Event>) {
    forall i | 0 <= i < |windows| :: Consistent(Elems(read(windows[i])))
  }

  ghost function RecordsOf(s: Schedule, windows: seq<Window>, read: Window -> seq<Event>): seq<Record> {
    seq(|windows|, i requires 0 <= i < |windows| => Record(KeyOf(s), windows[i], read(windows[i])))
  }

  /** The jobs made from the events of a window. */
  ghost function JobsMade(p: Platform, s: Schedule): (Window, seq<Event>) -> seq<Job> {
    (w: Window, events: seq<Event>) => if Consistent(Elems(events)) then WindowJobs(p, KeyOf(s), w, events) else []
  }

  lemma JobsMadeAre(p: Platform, s: Schedule, w: Window, events: seq<Event>)
    requires Consistent(Elems(events))
    ensures JobsMade(p, s)(w, events) == WindowJobs(p, KeyOf(s), w, events)
  {
  }

  /** The jobs of a window made from what was read for it. */
  ghost function JobsRead(p: Platform, s: Schedule, read: Window -> seq<Event>): Window -> seq<Job> {
    (w: Window) => JobsMade(p, s)(w, read(w))
  }

  function JobsOf(jobs: Window -> seq<Job>, windows: seq<Window>): seq<Job> {
    if windows == [] then [] else JobsOf(jobs, windows[..|windows| - 1]) + jobs(windows[|windows| - 1])
  }

  /** How many distinct events were read. */
  ghost function EventsRead(windows: seq<Window>, read: Window -> seq<Event>): nat {
    if windows == [] then 0 else EventsRead(windows[..|windows| - 1], read) + |Elems(read(windows[|windows| - 1]))|
  }

  /** What a call has recorded, enqueued and counted so far. */
  datatype Progress = Progress(records: seq<Record>, queue: map<string, Job>, jobIds: seq<string>, considered: nat)

  ghost function Further(start: Progress, records: seq<Record>, jobs: seq<Job>, considered: nat): Progress {
    Progress(start.records + records, PutJobs(start.queue, jobs), start.jobIds + Map(IdOf, jobs), start.considered + considered)
  }

  lemma NoFurther(start: Progress)
    ensures Further(start, [], [], 0) == start
  {
    var none: seq<Job> := [];
    assert Map(IdOf, none) == [];
    assert start.records + [] == start.records && start.jobIds + [] == start.jobIds;
  }

  lemma Associate<T>(a: seq<T>, b: seq<T>, c: seq<T>)
    ensures a + b + c == a + (b + c)
  {
  }

  lemma FurtherTwice(start: Progress, records: seq<Record>, jobs: seq<Job>, considered: nat, r: Record, more: seq<Job>, n: nat)
    ensures Further(Further(start, records, jobs, considered), [r], more, n) == Further(start, records + [r], jobs + more, considered + n)
  {
    PutJobsConcat(start.queue, jobs, more);
    MapConcat(IdOf, jobs, more);
    Associate(start.jobIds, Map(IdOf, jobs), Map(IdOf, more));
    Associate(start.records, records, [r]);
  }

  /** Progress after the first `k` windows, each with exactly the events read for it; there is none past an inconsistent one. */
  ghost function ProgressAt(p: Platform, s: Schedule, windows: seq<Window>, read: Window -> seq<Event>, k: nat, start: Progress): Option<Progress>
    requires k <= |windows|
  {
    if !AllConsistent(windows[..k], read) then None
    else Some(Further(start, RecordsOf(s, windows[..k], read), JobsOf(JobsRead(p, s, read), windows[..k]), EventsRead(windows[..k], read)))
  }

  lemma NoProgress(p: Platform, s: Schedule, windows: seq<Window>, read: Window -> seq<Event>, start: Progress)
    ensures ProgressAt(p, s, windows, read, 0, start) == Some(start)
  {
    assert windows[..0] == [];
    assert RecordsOf(s, [], read) == [];
    NoFurther(start);
  }

  lemma WindowsSnoc(jobs: Window -> seq<Job>, windows: seq<Window>, read: Window -> seq<Event>, k: nat)
    requires k < |windows|
    ensures JobsOf(jobs, windows[..k + 1]) == JobsOf(jobs, windows[..k]) + jobs(windows[k])
    ensures EventsRead(windows[..k + 1], read) == EventsRead(windows[..k], read) + |Elems(read(windows[k]))|
    ensures AllConsistent(windows[..k + 1], read) <==> AllConsistent(windows[..k], read) && Consistent(Elems(read(windows[k])))
  {
    var longer := windows[..k + 1];
    assert longer[..k] == windows[..k] && longer[k] == windows[k];
    assert forall i | 0 <= i < k :: longer[i] == windows[..k][i];
  }

  lemma RecordsSnoc(s: Schedule, windows: seq<Window>, read: Window -> seq<Event>, k: nat)
    requires k < |windows|
    ensures RecordsOf(s, windows[..k + 1], read) == RecordsOf(s, windows[..k], read) + [Record(KeyOf(s), windows[k], read(windows[k]))]
  {
  }

  lemma FurtherSnoc(start: Progress, jobs: Window -> seq<Job>, s: Schedule, windows: seq<Window>, read: Window -> seq<Event>, k: nat)
    requires k < |windows|
    ensures Further(start, RecordsOf(s, windows[..k + 1], read), JobsOf(jobs, windows[..k + 1]), EventsRead(windows[..k + 1], read)) ==
            Further(Further(start, RecordsOf(s, windows[..k], read), JobsOf(jobs, windows[..k]), EventsRead(windows[..k], read)),
                    [Record(KeyOf(s), windows[k], read(windows[k]))], jobs(windows[k]), |Elems(read(windows[k]))|)
  {
    WindowsSnoc(jobs, windows, read, k);
    RecordsSnoc(s, windows, read, k);
    FurtherTwice(start, RecordsOf(s, windows[..k], read), JobsOf(jobs, windows[..k]), EventsRead(windows[..k], read),
                 Record(KeyOf(s), windows[k], read(windows[k])), jobs(windows[k]), |Elems(read(windows[k]))|);
  }

  /** One more window. */
  lemma ProgressSnoc(p: Platform, s: Schedule, windows: seq<Window>, read: Window -> seq<Event>, k: nat, start: Progress, now: Progress)
    requires k < |windows| && ProgressAt(p, s, windows, read, k, start) == Some(now) && Consistent(Elems(read(windows[k])))
    ensures ProgressAt(p, s, windows, read, k + 1, start) ==
            Some(Further(now, [Record(KeyOf(s), windows[k], read(windows[k]))],
                         JobsRead(p, s, read)(windows[k]), |Elems(read(windows[k]))|))
  {
    WindowsSnoc(JobsRead(p, s, read), windows, read, k);
    FurtherSnoc(start, JobsRead(p, s, read), s, windows, read, k);
  }

  lemma FurtherIs(now: Progress, r: Record, jobs: seq<Job>, n: nat, after: Progress)
    requires after.records == now.records + [r] && after.queue == PutJobs(now.queue, jobs)
    requires after.jobIds == now.jobIds + Map(IdOf, jobs) && after.considered == now.considered + n
    ensures Further(now, [r], jobs, n) == after
  {
  }

  /** Posting a window records it and enqueues its jobs. */
  ghost predicate Posts(p: Platform, s: Schedule, w: Window, events: seq<Event>, records: seq<Record>, queue: map<string, Job>,
                        records': seq<Record>, queue': map<string, Job>) {
    records' == records + [Record(KeyOf(s), w, events)] && queue' == PutJobs(queue, JobsMade(p, s)(w, events))
  }

  /** What a window adds to the progress of a call. */
  ghost predicate Adds(p: Platform, s: Schedule, w: Window, events: seq<Event>, now: Progress, after: Progress) {
    && Posts(p, s, w, events, now.records, now.queue, after.records, after.queue)
    && after.jobIds == now.jobIds + Map(IdOf, JobsMade(p, s)(w, events)) && after.considered == now.considered + |Elems(events)|
  }

  lemma ProgressNext(p: Platform, s: Schedule, windows: seq<Window>, read: Window -> seq<Event>, k: nat, start: Progress, now: Progress, after: Progress)
    requires k < |windows| && ProgressAt(p, s, windows, read, k, start) == Some(now) && Consistent(Elems(read(windows[k])))
    requires Adds(p, s, windows[k], read(windows[k]), now, after)
    ensures ProgressAt(p, s, windows, read, k + 1, start) == Some(after)
  {
    ProgressSnoc(p, s, windows, read, k, start, now);
    assert JobsRead(p, s, read)(windows[k]) == JobsMade(p, s)(windows[k], read(windows[k]));
    FurtherIs(now, Record(KeyOf(s), windows[k], read(windows[k])), JobsRead(p, s, read)(windows[k]), |Elems(read(windows[k]))|, after);
  }

  lemma ProgressMade(p: Platform, s: Schedule, windows: seq<Window>, read: Window -> seq<Event>, k: nat, start: Progress, now: Progress,
                     records: seq<Record>, queue: map<string, Job>)
    requires k < |windows| && ProgressAt(p, s, windows, read, k, start) == Some(now) && Consistent(Elems(read(windows[k])))
    requires Posts(p, s, windows[k], read(windows[k]), now.records, now.queue, records, queue)
    ensures Reached(ProgressAt(p, s, windows, read, k + 1, start), records, queue)
  {
    var jobs := JobsMade(p, s)(windows[k], read(windows[k]));
    ProgressNext(p, s, windows, read, k, start, now,
                 Progress(records, queue, now.jobIds + Map(IdOf, jobs), now.considered + |Elems(read(windows[k]))|));
  }

  ghost function PostableAt(p: Platform, s: Schedule, windows: seq<Window>, read: Window -> seq<Event>,
                            recipientOk: (string, string) -> bool, sourceOk: (string, string, string) -> bool): nat -> bool {
    (k: nat) => k < |windows| && Postable(p, s, windows[k], read(windows[k]), recipientOk, sourceOk)
  }

  /** The first of `i`, `i + 1`, … below `n` that is not `ok`, or `n`. */
  ghost function FirstBad(ok: nat -> bool, i: nat, n: nat): (k: nat)
    requires i <= n
    ensures i <= k <= n
    decreases n - i
  {
    if i < n && ok(i) then FirstBad(ok, i + 1, n) else i
  }

  lemma {:induction false} NoneBad(ok: nat -> bool, i: nat, n: nat)
    requires i <= n
    ensures FirstBad(ok, i, n) == n <==> forall k | i <= k < n :: ok(k)
    decreases n - i
  {
    if i < n {
      NoneBad(ok, i + 1, n);
    }
  }

  /** From the `i`-th on, the first window that cannot be posted, or their number. */
  ghost function FirstRefused(p: Platform, s: Schedule, windows: seq<Window>, i: nat, read: Window -> seq<Event>,
                              recipientOk: (string, string) -> bool, sourceOk: (string, string, string) -> bool): (k: nat)
    requires i <= |windows|
    ensures i <= k <= |windows|
  {
    FirstBad(PostableAt(p, s, windows, read, recipientOk, sourceOk), i, |windows|)
  }

  lemma NoneRefused(p: Platform, s: Schedule, windows: seq<Window>, read: Window -> seq<Event>,
                    recipientOk: (string, string) -> bool, sourceOk: (string, string, string) -> bool)
    ensures FirstRefused(p, s, windows, 0, read, recipientOk, sourceOk) == |windows| <==>
            AllPostable(p, s, windows, read, recipientOk, sourceOk)
  {
    var ok := PostableAt(p, s, windows, read, recipientOk, sourceOk);
    NoneBad(ok, 0, |windows|);
    assert forall k: nat | k < |windows| :: ok(k) <==> Postable(p, s, windows[k], read(windows[k]), recipientOk, sourceOk);
  }

  lemma NextRefused(p: Platform, s: Schedule, windows: seq<Window>, i: nat, read: Window -> seq<Event>,
                    recipientOk: (string, string) -> bool, sourceOk: (string, string, string) -> bool)
    requires i < |windows|
    ensures var first := FirstRefused(p, s, windows, i, read, recipientOk, sourceOk);
            && (first > i <==> Postable(p, s, windows[i], read(windows[i]), recipientOk, sourceOk))
            && (first > i ==> first == FirstRefused(p, s, windows, i + 1, read, recipientOk, sourceOk))
  {
    var ok := PostableAt(p, s, windows, read, recipientOk, sourceOk);
    assert ok(i) <==> Postable(p, s, windows[i], read(windows[i]), recipientOk, sourceOk);
  }

  function CursorOrStart(t: Tables, s: Schedule): int {
    if CursorAt(t, KeyOf(s)).Some? then CursorAt(t, KeyOf(s)).value else s.startAt
  }

  predicate SourcesOk(s: Schedule, sources: seq<string>, sourceOk: (string, string, string) -> bool) {
    && |sources| <= s.maxSources && (forall x | x in sources :: !Blank(x)) && NoDup(sources)
    && forall x | x in sources :: sourceOk(s.workspaceId, s.recipientId, x)
  }

  /** Every check on the way through the planned windows passes. */
  ghost predicate WindowsOk(p: Platform, s: Schedule, t: Tables, windows: seq<Window>, sources: seq<string>, read: Window -> seq<Event>,
                            recipientOk: (string, string) -> bool, sourceOk: (string, string, string) -> bool) {
    && SourcesOk(s, sources, sourceOk) && AllPostable(p, s, windows, read, recipientOk, sourceOk)
    && Fenced(t, KeyOf(s), Revision(s))
  }

  /** How many windows a call posts: up to the first it cannot post, but only one if the fence does not let it advance. */
  ghost function PostedWindows(p: Platform, s: Schedule, t: Tables, windows: seq<Window>, read: Window -> seq<Event>,
                               recipientOk: (string, string) -> bool, sourceOk: (string, string, string) -> bool): (k: nat)
    ensures k <= |windows|
  {
    var refused := FirstRefused(p, s, windows, 0, read, recipientOk, sourceOk);
    if refused > 0 && !Fenced(t, KeyOf(s), Revision(s)) then 1 else refused
  }

  /** Records and queue are as far as `progress` says. */
  ghost predicate Reached(progress: Option<Progress>, records: seq<Record>, queue: map<string, Job>) {
    progress.Some? && records == progress.value.records && queue == progress.value.queue
  }

  /** When `produce_once` succeeds, and what it then reports. */
  ghost predicate Verdict(p: Platform, s: Schedule, t: Tables, now: int, sources: seq<string>, read: Window -> seq<Event>,
                          recipientOk: (string, string) -> bool, sourceOk: (string, string, string) -> bool, r: Result<Outcome, ProduceError>) {
    var plan := Plan(t, s, now);
    if !s.enabled then r == Ok(Outcome(0, 0, [], None))
    else if !recipientOk(s.workspaceId, s.recipientId) then r == Err(RecipientNotAuthorized)
    else if plan.Err? then r == Err(Planning(plan.error))
    else if plan.value == [] then r == Ok(Outcome(0, 0, [], Some(CursorOrStart(t, s))))
    else
      && (r.Ok? <==> WindowsOk(p, s, t, plan.value, sources, read, recipientOk, sourceOk))
      && (r.Ok? ==> r.value.windows == |plan.value| && r.value.cursor == Some(Horizon(now, s.cadence, s.delay)))
  }

  /** What `produce_once` leaves behind. */
  ghost predicate Effect(p: Platform, s: Schedule, w: World, now: int, sources: seq<string>, read: Window -> seq<Event>,
                         recipientOk: (string, string) -> bool, sourceOk: (string, string, string) -> bool, r: Result<Outcome, ProduceError>, after: World) {
    var plan := Plan(w.tables, s, now);
    var start := Progress(w.records, w.queue, [], 0);
    if !s.enabled || !recipientOk(s.workspaceId, s.recipientId) || plan.Err? || plan.value == [] then
      after == w.(producers := after.producers)
    else if r.Ok? then
      && ProgressAt(p, s, plan.value, read, |plan.value|, start) == Some(Progress(after.records, after.queue, r.value.jobIds, r.value.considered))
      && CursorAt(after.tables, KeyOf(s)) == r.value.cursor
    else
      var k := if SourcesOk(s, sources, sourceOk) then PostedWindows(p, s, w.tables, plan.value, read, recipientOk, sourceOk) else 0;
      Reached(ProgressAt(p, s, plan.value, read, k, start), after.records, after.queue)
  }

  lemma PlanFacts(t: Tables, s: Schedule, now: int)
    requires ValidSchedule(s) && Plan(t, s, now).Ok?
    ensures var windows := Plan(t, s, now).value;
            && Consecutive(windows)
            && (windows != [] ==> windows[0].start == CursorOrStart(t, s) && windows[|windows| - 1].end == Horizon(now, s.cadence, s.delay))
  {
    PlanExact(CursorOrStart(t, s), now, s.cadence, s.delay, s.maxWindows);
    var windows := Plan(t, s, now).value;
    forall i | 0 <= i < |windows| ensures windows[i].start < windows[i].end {
      assert windows[i].end == windows[i].start + s.cadence * SECOND;
    }
  }

  /** Windows that follow one another without a gap. */
  ghost predicate Consecutive(windows: seq<Window>) {
    && (forall i | 0 <= i < |windows| :: windows[i].start < windows[i].end)
    && (forall i, j | 0 <= i && j == i + 1 < |windows| :: windows[j].start == windows[i].end)
  }

  lemma ConsecutiveAt(windows: seq<Window>, i: nat)
    requires Consecutive(windows) && i < |windows|
    ensures windows[i].start < windows[i].end && (i > 0 ==> windows[i].start == windows[i - 1].end)
  {
    if i > 0 {
      var j := i - 1;
      assert i == j + 1 && windows[i].start == windows[j].end;
    }
  }

  lemma ArrivesSnoc(p: Platform, w: World, trace: seq<Action>, now: World, a: Action)
    requires Arrives(p, w, trace) == Some(now) && Enabled(p, now, a)
    ensures Arrives(p, w, trace + [a]) == Some(Apply(p, now, a))
  {
    assert (trace + [a])[..|trace|] == trace;
  }

  lemma EmptyWindowHasNoJobs(p: Platform, key: Key, w: Window)
    ensures Consistent(Elems<Event>([])) && WindowJobs(p, key, w, []) == []
    ensures Items(WindowDigest(p, key, w, [])) == []
  {
    assert Elems<Event>([]) == {};
    assert LaneKeys({}, false) == {} && LaneKeys({}, true) == {};
    var d := WindowDigest(p, key, w, []);
    assert Elems(KeyList({}, false)) == {} && Elems(KeyList({}, true)) == {};
    NoDupCard(KeyList({}, false));
    NoDupCard(KeyList({}, true));
    assert Parts(p, d) == [];
  }

  lemma NonEmptyWindowHasItems(p: Platform, key: Key, w: Window, events: seq<Event>)
    requires Consistent(Elems(events)) && events != []
    ensures Items(WindowDigest(p, key, w, events)) != []
  {
    var u := Elems(events);
    var e := events[0];
    assert e in u && GroupKey(e) in LaneKeys(u, IsUrgent(e.severity));
    assert GroupKey(e) in Elems(KeyList(u, IsUrgent(e.severity)));
  }

  /** Why and how a digested window becomes a `Post` step. */
  lemma PreparedAreWindowJobs(p: Platform, s: Schedule, window: Window, events: seq<Event>,
                              recipientOk: (string, string) -> bool, sourceOk: (string, string, string) -> bool)
    requires Consistent(Elems(events))
    ensures var prepared := Prepare(p, s.recipientId, WindowDigest(p, KeyOf(s), window, events), recipientOk, sourceOk, 5);
            prepared.Ok? ==> prepared.value == WindowJobs(p, KeyOf(s), window, events)
  {
  }

  lemma PostStep(p: Platform, w: World, pid: nat, pr: Producer, window: Window, events: seq<Event>,
                 recipientOk: (string, string) -> bool, sourceOk: (string, string, string) -> bool, w': World)
    requires pid in w.producers && w.producers[pid] == pr && !pr.posted && pr.remaining != [] && pr.remaining[0] == window
    requires forall e | e in events :: ValidEvent(e)
    requires Acceptable(events, pr.schedule.workspaceId, window.start, window.end, SourceAuth(pr.schedule, sourceOk), pr.schedule.maxEvents)
    requires events != [] ==>
               Prepare(p, pr.schedule.recipientId, WindowDigest(p, KeyOf(pr.schedule), window, events), recipientOk, sourceOk, 5).Ok?
    requires w' == w.(queue := PutJobs(w.queue, WindowJobs(p, KeyOf(pr.schedule), window, events)),
                      records := w.records + [Record(KeyOf(pr.schedule), window, events)],
                      producers := w.producers[pid := pr.(posted := true)])
    ensures Enabled(p, w, Post(pid, events, recipientOk, sourceOk))
    ensures w' == Apply(p, w, Post(pid, events, recipientOk, sourceOk))
  {
  }

  class NotificationService {
    const store: ScheduleStore
    var queue: map<string, Job>
    ghost var history: set<Schedule>
    ghost var producers: map<nat, Producer>
    ghost var records: seq<Record>
    ghost var origins: map<Key, int>

    ghost function State(): World
      reads this, store
    {
      World(store.State(), history, queue, producers, records, origins)
    }

    constructor (store: ScheduleStore)
      requires store.State() == Tables(map[], map[])
      ensures this.store == store && State() == EMPTY
    {
      this.store := store;
      queue := map[];
      history, producers, records, origins := {}, map[], [], map[];
    }

    /** `enqueue_digest`: everything is checked first, then all jobs are put in one transaction. */
    method EnqueueDigest(p: Platform, recipient: string, d: Digest, recipientOk: (string, string) -> bool,
                         sourceOk: (string, string, string) -> bool, maxRetries: int)
      returns (r: Result<seq<string>, EnqueueError>)
      modifies this`queue
      ensures var prepared := Prepare(p, recipient, d, recipientOk, sourceOk, maxRetries);
              && (prepared.Err? ==> r == Err(prepared.error) && queue == old(queue))
              && (prepared.Ok? ==> r.Ok? && r.value == Map(IdOf, prepared.value)
                                   && queue == PutJobs(old(queue), prepared.value))
    {
      var prepared := Prepare(p, recipient, d, recipientOk, sourceOk, maxRetries);
      if prepared.Err? {
        return Err(prepared.error);
      }
      var ids := PutAll(prepared.value);
      return Ok(ids);
    }

    method PutAll(jobs: seq<Job>) returns (ids: seq<string>)
      modifies this`queue
      ensures ids == Map(IdOf, jobs) && queue == PutJobs(old(queue), jobs)
    {
      ids := [];
      for i := 0 to |jobs|
        invariant queue == PutJobs(old(queue), jobs[..i])
        invariant |ids| == i && forall k | 0 <= k < i :: ids[k] == jobs[k].jobId
      {
        assert jobs[..i + 1][..i] == jobs[..i];
        queue := PutJob(queue, jobs[i]);
        ids := ids + [jobs[i].jobId];
      }
      assert jobs[..|jobs|] == jobs;
    }

    /** Saving through the service is the protocol's `Save` step. */
    method SaveSchedule(p: Platform, s: Schedule, expected: Option<int>, reset: bool) returns (r: Result<Schedule, StoreError>)
      requires ValidSchedule(s)
      modifies this, store
      ensures r.Err? ==> State() == old(State())
      ensures r.Ok? ==> Enabled(p, old(State()), Save(s, expected, reset))
                        && State() == Apply(p, old(State()), Save(s, expected, reset))
    {
      r := store.SaveSchedule(s, expected, reset);
      if r.Ok? {
        history := history + {r.value};
      }
    }

    /** Digest one window and enqueue its jobs; on any failure the queue is as it was. */
    method DigestAndEnqueue(p: Platform, s: Schedule, window: Window, events: seq<Event>,
                            recipientOk: (string, string) -> bool, sourceOk: (string, string, string) -> bool)
      returns (r: Result<(seq<string>, nat), ProduceError>)
      requires forall e | e in events :: ValidEvent(e)
      modifies this`queue
      ensures r.Ok? <==> Postable(p, s, window, events, recipientOk, sourceOk)
      ensures r.Err? ==> queue == old(queue)
      ensures r.Ok? ==> queue == PutJobs(old(queue), WindowJobs(p, KeyOf(s), window, events))
      ensures r.Ok? ==> r.value == (Map(IdOf, WindowJobs(p, KeyOf(s), window, events)), |Elems(events)|)
    {
      var digest := BuildNotificationDigest(p, events, s.workspaceId, window.start, window.end, SourceAuth(s, sourceOk), s.maxEvents);
      if digest.Err? {
        return Err(Digesting(digest.error));
      }
      ghost var key := KeyOf(s);
      assert digest.value == WindowDigest(p, key, window, events);
      var considered := |EventIds(digest.value.routine + digest.value.urgent)|;
      DigestSize(p, s.workspaceId, window.start, window.end, Elems(events), digest.value);
      EmptyWindowHasNoJobs(p, key, window);
      if digest.value.routine == [] && digest.value.urgent == [] {
        if events != [] {
          NonEmptyWindowHasItems(p, key, window, events);
        }
        return Ok(([], considered));
      }
      PreparedAreWindowJobs(p, s, window, events, recipientOk, sourceOk);
      assert events != [];
      var enqueued := EnqueueDigest(p, s.recipientId, digest.value, recipientOk, sourceOk, 5);
      if enqueued.Err? {
        return Err(Enqueueing(enqueued.error));
      }
      return Ok((enqueued.value, considered));
    }

    /** The same as one step of a running producer. */
    method PostWindow(p: Platform, ghost pid: nat, s: Schedule, window: Window, events: seq<Event>,
                      recipientOk: (string, string) -> bool, sourceOk: (string, string, string) -> bool)
      returns (r: Result<(seq<string>, nat), ProduceError>)
      requires forall e | e in events :: ValidEvent(e)
      requires pid in producers && !producers[pid].posted && producers[pid].schedule == s
      requires producers[pid].remaining != [] && producers[pid].remaining[0] == window
      modifies this
      ensures r.Ok? <==> Postable(p, s, window, events, recipientOk, sourceOk)
      ensures r.Err? ==> State() == old(State())
      ensures r.Ok? ==> Enabled(p, old(State()), Post(pid, events, recipientOk, sourceOk))
                        && State() == Apply(p, old(State()), Post(pid, events, recipientOk, sourceOk))
      ensures r.Ok? ==> r.value == (Map(IdOf, WindowJobs(p, KeyOf(s), window, events)), |Elems(events)|)
    {
      ghost var w, pr := State(), producers[pid];
      r := DigestAndEnqueue(p, s, window, events, recipientOk, sourceOk);
      if r.Ok? {
        records := records + [Record(KeyOf(s), window, events)];
        producers := producers[pid := pr.(posted := true)];
        PostStep(p, w, pid, pr, window, events, recipientOk, sourceOk, State());
      }
    }

    /** Advance the cursor over a posted window: the protocol's `Advance` step, whether or not it succeeds. */
    method AdvanceCursor(p: Platform, ghost pid: nat, s: Schedule, stored: Option<int>, window: Window) returns (ok: bool)
      requires pid in producers && producers[pid].posted && producers[pid].schedule == s && producers[pid].stored == stored
      requires producers[pid].remaining != [] && producers[pid].remaining[0] == window
      requires stored.Some? ==> stored.value < window.end
      modifies this, store
      ensures Enabled(p, old(State()), Advance(pid)) && State() == Apply(p, old(State()), Advance(pid))
      ensures ok <==> Fenced(old(State()).tables, KeyOf(s), Revision(s)) && CursorAt(old(State()).tables, KeyOf(s)) == stored
      ensures ok ==> CursorAt(State().tables, KeyOf(s)) == Some(window.end)
      ensures ok ==> pid in producers
                     && producers[pid] == Producer(s, Some(window.end), old(producers[pid].remaining)[1..], false)
      ensures records == old(records) && queue == old(queue) && store.schedules == old(store.schedules)
    {
      ghost var pr := producers[pid];
      var result := store.CompareAndSetCursor(KeyOf(s), stored, window.end, if s.revision > 0 then Some(s.revision) else None);
      ok := result == Ok(true);
      if ok {
        if stored.None? {
          origins := origins[KeyOf(s) := window.start];
        }
        producers := producers[pid := pr.(stored := Some(window.end), remaining := pr.remaining[1..], posted := false)];
      } else {
        producers := producers - {pid};
      }
    }

    /** `PostWindow` as the next step of a run. */
    method PostNext(p: Platform, ghost pid: nat, s: Schedule, window: Window, events: seq<Event>,
                    recipientOk: (string, string) -> bool, sourceOk: (string, string, string) -> bool, ghost w0: World, ghost before: seq<Action>)
      returns (r: Result<(seq<string>, nat), ProduceError>, ghost trace: seq<Action>)
      requires forall e | e in events :: ValidEvent(e)
      requires pid in producers && !producers[pid].posted && producers[pid].schedule == s
      requires producers[pid].remaining != [] && producers[pid].remaining[0] == window
      requires Arrives(p, w0, before) == Some(State())
      modifies this
      ensures Arrives(p, w0, trace) == Some(State()) && State().tables == old(State()).tables
      ensures r.Ok? <==> Postable(p, s, window, events, recipientOk, sourceOk)
      ensures r.Ok? ==> Posts(p, s, window, events, old(records), old(queue), records, queue)
      ensures r.Ok? ==> r.value == (Map(IdOf, JobsMade(p, s)(window, events)), |Elems(events)|)
      ensures r.Ok? ==> pid in producers && producers[pid] == old(producers[pid]).(posted := true)
      ensures r.Err? ==> State() == old(State()).(producers := State().producers)
    {
      ghost var now := State();
      r := PostWindow(p, pid, s, window, events, recipientOk, sourceOk);
      if r.Err? {
        trace := Finish(p, w0, pid, before);
        return;
      }
      JobsMadeAre(p, s, window, events);
      ArrivesSnoc(p, w0, before, now, Post(pid, events, recipientOk, sourceOk));
      trace := before + [Post(pid, events, recipientOk, sourceOk)];
    }

    /** `AdvanceCursor` as the next step of a run. */
    method AdvanceNext(p: Platform, ghost pid: nat, s: Schedule, stored: Option<int>, window: Window, ghost w0: World, ghost before: seq<Action>)
      returns (ok: bool, ghost trace: seq<Action>)
      requires pid in producers && producers[pid].posted && producers[pid].schedule == s && producers[pid].stored == stored
      requires producers[pid].remaining != [] && producers[pid].remaining[0] == window
      requires stored.Some? ==> stored.value < window.end
      requires Arrives(p, w0, before) == Some(State())
      modifies this, store
      ensures Arrives(p, w0, trace) == Some(State())
      ensures ok <==> Fenced(old(State()).tables, KeyOf(s), Revision(s)) && CursorAt(old(State()).tables, KeyOf(s)) == stored
      ensures ok ==> CursorAt(State().tables, KeyOf(s)) == Some(window.end)
      ensures ok ==> pid in producers
                     && producers[pid] == Producer(s, Some(window.end), old(producers[pid].remaining)[1..], false)
      ensures records == old(records) && queue == old(queue) && store.schedules == old(store.schedules)
    {
      ghost var now := State();
      ok := AdvanceCursor(p, pid, s, stored, window);
      ArrivesSnoc(p, w0, before, now, Advance(pid));
      trace := before + [Advance(pid)];
    }

    /** One window of the loop in `produce_once`: post it, then advance over it. */
    method ProduceWindow(p: Platform, ghost pid: nat, s: Schedule, stored: Option<int>, window: Window, events: seq<Event>,
                         recipientOk: (string, string) -> bool, sourceOk: (string, string, string) -> bool,
                         jobIds: seq<string>, considered: nat, ghost w0: World, ghost before: seq<Action>)
      returns (r: Result<(seq<string>, nat), ProduceError>, ghost trace: seq<Action>)
      requires forall e | e in events :: ValidEvent(e)
      requires pid in producers && producers[pid].remaining != [] && producers[pid].remaining[0] == window
      requires producers[pid] == Producer(s, stored, producers[pid].remaining, false)
      requires stored.Some? ==> stored.value < window.end
      requires Arrives(p, w0, before) == Some(State())
      modifies this, store
      ensures Arrives(p, w0, trace) == Some(State()) && store.schedules == old(store.schedules)
      ensures r.Ok? <==> && Postable(p, s, window, events, recipientOk, sourceOk)
                         && Fenced(old(State()).tables, KeyOf(s), Revision(s)) && CursorAt(old(State()).tables, KeyOf(s)) == stored
      ensures if Postable(p, s, window, events, recipientOk, sourceOk) then
                Posts(p, s, window, events, old(records), old(queue), records, queue)
              else records == old(records) && queue == old(queue)
      ensures r.Ok? ==> Adds(p, s, window, events, Progress(old(records), old(queue), jobIds, considered),
                             Progress(records, queue, r.value.0, r.value.1))
      ensures r.Ok? ==> CursorAt(State().tables, KeyOf(s)) == Some(window.end)
      ensures r.Ok? ==> pid in producers
                        && producers[pid] == Producer(s, Some(window.end), old(producers[pid].remaining)[1..], false)
    {
      var posted;
      posted, trace := PostNext(p, pid, s, window, events, recipientOk, sourceOk, w0, before);
      if posted.Err? {
        return Err(posted.error), trace;
      }
      var ok;
      ok, trace := AdvanceNext(p, pid, s, stored, window, w0, trace);
      if !ok {
        return Err(CursorChanged), trace;
      }
      var ids: seq<string>, count: nat := jobIds + posted.value.0, considered + posted.value.1;
      r := Ok((ids, count));
    }

    /** The `i`-th pass of the loop, with the events read for that window. */
    method ProduceNext(p: Platform, ghost pid: nat, s: Schedule, stored: Option<int>, windows: seq<Window>, i: nat, read: Window -> seq<Event>,
                       recipientOk: (string, string) -> bool, sourceOk: (string, string, string) -> bool,
                       jobIds: seq<string>, considered: nat, ghost start: Progress, ghost w0: World, ghost before: seq<Action>)
      returns (r: Result<(seq<string>, nat), ProduceError>, ghost trace: seq<Action>)
      requires i < |windows| && ProgressAt(p, s, windows, read, i, start) == Some(Progress(records, queue, jobIds, considered))
      requires forall e | e in read(windows[i]) :: ValidEvent(e)
      requires pid in producers && producers[pid] == Producer(s, stored, windows[i..], false)
      requires CursorAt(State().tables, KeyOf(s)) == stored && (stored.Some? ==> stored.value < windows[i].end)
      requires Arrives(p, w0, before) == Some(State())
      modifies this, store
      ensures Arrives(p, w0, trace) == Some(State()) && store.schedules == old(store.schedules)
      ensures r.Ok? <==> FirstRefused(p, s, windows, i, read, recipientOk, sourceOk) > i && Fenced(old(State()).tables, KeyOf(s), Revision(s))
      ensures FirstRefused(p, s, windows, i, read, recipientOk, sourceOk) > i ==>
                FirstRefused(p, s, windows, i, read, recipientOk, sourceOk) == FirstRefused(p, s, windows, i + 1, read, recipientOk, sourceOk)
      ensures r.Ok? ==> ProgressAt(p, s, windows, read, i + 1, start) == Some(Progress(records, queue, r.value.0, r.value.1))
      ensures r.Err? ==> var k := if FirstRefused(p, s, windows, i, read, recipientOk, sourceOk) > i then i + 1 else i;
                         Reached(ProgressAt(p, s, windows, read, k, start), records, queue)
      ensures r.Ok? ==> CursorAt(State().tables, KeyOf(s)) == Some(windows[i].end)
      ensures r.Ok? ==> pid in producers && producers[pid] == Producer(s, Some(windows[i].end), windows[i + 1..], false)
    {
      ghost var now := Progress(records, queue, jobIds, considered);
      NextRefused(p, s, windows, i, read, recipientOk, sourceOk);
      assert windows[i..][1..] == windows[i + 1..];
      r, trace := ProduceWindow(p, pid, s, stored, windows[i], read(windows[i]), recipientOk, sourceOk, jobIds, considered, w0, before);
      if r.Ok? {
        ProgressNext(p, s, windows, read, i, start, now, Progress(records, queue, r.value.0, r.value.1));
      } else if Postable(p, s, windows[i], read(windows[i]), recipientOk, sourceOk) {
        ProgressMade(p, s, windows, read, i, start, now, records, queue);
      }
    }

    /** The loop of `produce_once` over planned windows. */
    method RunWindows(p: Platform, ghost pid: nat, s: Schedule, first: Option<int>, windows: seq<Window>, read: Window -> seq<Event>,
                      recipientOk: (string, string) -> bool, sourceOk: (string, string, string) -> bool,
                      ghost start: Progress, ghost w0: World, ghost before: seq<Action>)
      returns (r: Result<(seq<string>, nat), ProduceError>, ghost trace: seq<Action>)
      requires windows != [] && Consecutive(windows) && start == Progress(records, queue, [], 0)
      requires forall w: Window, e | e in read(w) :: ValidEvent(e)
      requires pid in producers && producers[pid] == Producer(s, first, windows, false)
      requires CursorAt(State().tables, KeyOf(s)) == first && (first.Some? ==> first.value == windows[0].start)
      requires Arrives(p, w0, before) == Some(State())
      modifies this, store
      ensures Arrives(p, w0, trace) == Some(State())
      ensures r.Ok? <==> && FirstRefused(p, s, windows, 0, read, recipientOk, sourceOk) == |windows|
                         && Fenced(old(State()).tables, KeyOf(s), Revision(s))
      ensures r.Ok? ==> && ProgressAt(p, s, windows, read, |windows|, start) == Some(Progress(records, queue, r.value.0, r.value.1))
                        && CursorAt(State().tables, KeyOf(s)) == Some(windows[|windows| - 1].end) && pid in producers
      ensures r.Err? ==> var k := PostedWindows(p, s, old(State()).tables, windows, read, recipientOk, sourceOk);
                         Reached(ProgressAt(p, s, windows, read, k, start), records, queue)
    {
      trace := before;
      var stored, considered: nat, jobIds: seq<string> := first, 0, [];
      NoProgress(p, s, windows, read, start);
      for i := 0 to |windows|
        invariant Arrives(p, w0, trace) == Some(State())
        invariant pid in producers && producers[pid] == Producer(s, stored, windows[i..], false)
        invariant stored == (if i == 0 then first else Some(windows[i - 1].end)) && CursorAt(State().tables, KeyOf(s)) == stored
        invariant ProgressAt(p, s, windows, read, i, start) == Some(Progress(records, queue, jobIds, considered))
        invariant FirstRefused(p, s, windows, 0, read, recipientOk, sourceOk) == FirstRefused(p, s, windows, i, read, recipientOk, sourceOk)
        invariant store.schedules == old(store.schedules)
        invariant i > 0 ==> Fenced(old(State()).tables, KeyOf(s), Revision(s))
      {
        ConsecutiveAt(windows, i);
        var next;
        next, trace := ProduceNext(p, pid, s, stored, windows, i, read, recipientOk, sourceOk, jobIds, considered, start, w0, trace);
        if next.Err? {
          return Err(next.error), trace;
        }
        jobIds, considered, stored := next.value.0, next.value.1, Some(windows[i].end);
      }
      return Ok((jobIds, considered)), trace;
    }

    /** The loop and the end of the call. */
    method ProduceWindows(p: Platform, ghost pid: nat, s: Schedule, first: Option<int>, windows: seq<Window>, read: Window -> seq<Event>,
                          recipientOk: (string, string) -> bool, sourceOk: (string, string, string) -> bool,
                          ghost w0: World, ghost before: seq<Action>)
      returns (r: Result<Outcome, ProduceError>, ghost trace: seq<Action>)
      requires windows != [] && Consecutive(windows)
      requires forall w: Window, e | e in read(w) :: ValidEvent(e)
      requires pid in producers && producers[pid] == Producer(s, first, windows, false)
      requires CursorAt(State().tables, KeyOf(s)) == first && (first.Some? ==> first.value == windows[0].start)
      requires Arrives(p, w0, before) == Some(State())
      modifies this, store
      ensures Arrives(p, w0, trace) == Some(State())
      ensures r.Ok? <==> AllPostable(p, s, windows, read, recipientOk, sourceOk) && Fenced(old(State()).tables, KeyOf(s), Revision(s))
      ensures r.Ok? ==> && ProgressAt(p, s, windows, read, |windows|, Progress(old(records), old(queue), [], 0))
                           == Some(Progress(records, queue, r.value.jobIds, r.value.considered))
                        && r.value.windows == |windows|
                        && r.value.cursor == CursorAt(State().tables, KeyOf(s)) == Some(windows[|windows| - 1].end)
      ensures r.Err? ==> var k := PostedWindows(p, s, old(State()).tables, windows, read, recipientOk, sourceOk);
                         Reached(ProgressAt(p, s, windows, read, k, Progress(old(records), old(queue), [], 0)), records, queue)
    {
      NoneRefused(p, s, windows, read, recipientOk, sourceOk);
      var run;
      run, trace := RunWindows(p, pid, s, first, windows, read, recipientOk, sourceOk, Progress(records, queue, [], 0), w0, before);
      if run.Err? {
        return Err(run.error), trace;
      }
      trace := Finish(p, w0, pid, trace);
      return Ok(Outcome(|windows|, run.value.1, run.value.0, Some(windows[|windows| - 1].end))), trace;
    }

    /**
     * `produce_once`. The events of each window are what `read` returns for it. Everything the call
     * does to the tables and the queue is a run of the protocol, whatever it returns. It succeeds
     * exactly when the schedule is disabled or every check along the way passes, and then has recorded
     * and enqueued exactly the events it read; a failure leaves a known number of windows so treated.
     */
    method ProduceOnce(p: Platform, s: Schedule, now: int, sources: seq<string>, read: Window -> seq<Event>,
                       recipientOk: (string, string) -> bool, sourceOk: (string, string, string) -> bool, ghost pid: nat)
      returns (r: Result<Outcome, ProduceError>, ghost trace: seq<Action>)
      requires ValidSchedule(s) && pid !in producers
      requires forall w: Window, e | e in read(w) :: ValidEvent(e)
      modifies this, store
      ensures Arrives(p, old(State()), trace) == Some(State())
      ensures Verdict(p, s, old(State()).tables, now, sources, read, recipientOk, sourceOk, r)
      ensures Effect(p, s, old(State()), now, sources, read, recipientOk, sourceOk, r, State())
    {
      trace := [];
      ghost var w0 := State();
      if !s.enabled {
        return Ok(Outcome(0, 0, [], None)), trace;
      }
      if !recipientOk(s.workspaceId, s.recipientId) {
        return Err(RecipientNotAuthorized), trace;
      }
      var stored := store.GetCursor(KeyOf(s));
      var cursor := if stored.Some? then stored.value else s.startAt;
      var plan := ClosedWindows(cursor, now, s.cadence, s.delay, s.maxWindows);
      if plan.Err? {
        return Err(Planning(plan.error)), trace;
      }
      PlanFacts(w0.tables, s, now);
      trace := Start(p, w0, pid, s, now, stored, plan.value);
      r, trace := RunPlan(p, pid, s, stored, cursor, plan.value, sources, read, recipientOk, sourceOk, w0, trace);
    }

    /** What `produce_once` does once the windows are planned. */
    method RunPlan(p: Platform, ghost pid: nat, s: Schedule, stored: Option<int>, cursor: int, windows: seq<Window>, sources: seq<string>,
                   read: Window -> seq<Event>, recipientOk: (string, string) -> bool, sourceOk: (string, string, string) -> bool,
                   ghost w0: World, ghost before: seq<Action>)
      returns (r: Result<Outcome, ProduceError>, ghost trace: seq<Action>)
      requires Consecutive(windows)
      requires forall w: Window, e | e in read(w) :: ValidEvent(e)
      requires pid in producers && producers[pid] == Producer(s, stored, windows, false)
      requires CursorAt(State().tables, KeyOf(s)) == stored && (windows != [] && stored.Some? ==> stored.value == windows[0].start)
      requires Arrives(p, w0, before) == Some(State())
      modifies this, store
      ensures Arrives(p, w0, trace) == Some(State())
      ensures windows == [] ==> r == Ok(Outcome(0, 0, [], Some(cursor))) && State() == old(State()).(producers := State().producers)
      ensures windows != [] ==>
                (r.Ok? <==> WindowsOk(p, s, old(State()).tables, windows, sources, read, recipientOk, sourceOk))
      ensures r.Ok? && windows != [] ==>
                && ProgressAt(p, s, windows, read, |windows|, Progress(old(records), old(queue), [], 0))
                   == Some(Progress(records, queue, r.value.jobIds, r.value.considered))
                && r.value.windows == |windows|
                && r.value.cursor == CursorAt(State().tables, KeyOf(s)) == Some(windows[|windows| - 1].end)
      ensures r.Err? ==> var k := if SourcesOk(s, sources, sourceOk) then PostedWindows(p, s, old(State()).tables, windows, read, recipientOk, sourceOk) else 0;
                         Reached(ProgressAt(p, s, windows, read, k, Progress(old(records), old(queue), [], 0)), records, queue)
    {
      if windows == [] {
        trace := Finish(p, w0, pid, before);
        return Ok(Outcome(0, 0, [], Some(cursor))), trace;
      }
      var refused := CheckSources(s, sources, sourceOk);
      if refused.Some? {
        NoProgress(p, s, windows, read, Progress(records, queue, [], 0));
        trace := Finish(p, w0, pid, before);
        return Err(refused.value), trace;
      }
      r, trace := ProduceWindows(p, pid, s, stored, windows, read, recipientOk, sourceOk, w0, before);
    }

    ghost method Start(p: Platform, w0: World, pid: nat, s: Schedule, now: int, stored: Option<int>, windows: seq<Window>)
      returns (trace: seq<Action>)
      requires State() == w0 && Enabled(p, w0, Begin(pid, s, now))
      requires stored == CursorAt(w0.tables, KeyOf(s)) && Plan(w0.tables, s, now) == Ok(windows)
      modifies this`producers
      ensures Arrives(p, w0, trace) == Some(State())
      ensures producers == old(producers)[pid := Producer(s, stored, windows, false)]
    {
      ArrivesSnoc(p, w0, [], w0, Begin(pid, s, now));
      trace := [] + [Begin(pid, s, now)];
      producers := producers[pid := Producer(s, stored, windows, false)];
    }

    /** The producer's call is over. */
    ghost method Finish(p: Platform, w0: World, pid: nat, trace: seq<Action>) returns (longer: seq<Action>)
      requires pid in producers && Arrives(p, w0, trace) == Some(State())
      modifies this`producers
      ensures Arrives(p, w0, longer) == Some(State())
      ensures State() == old(State()).(producers := State().producers)
    {
      ArrivesSnoc(p, w0, trace, State(), Stop(pid));
      longer := trace + [Stop(pid)];
      producers := producers - {pid};
    }

    /** The source list is bounded, well formed, free of repeats and authorised. */
    method CheckSources(s: Schedule, sources: seq<string>, sourceOk: (string, string, string) -> bool) returns (fault: Option<ProduceError>)
      ensures fault.None? <==> SourcesOk(s, sources, sourceOk)
    {
      if |sources| > s.maxSources { return Some(TooManySources); }
      if exists x | x in sources :: Blank(x) { return Some(BadSource); }
      if !NoDup(sources) { return Some(RepeatedSource); }
      for i := 0 to |sources|
        invariant forall j | 0 <= j < i :: sourceOk(s.workspaceId, s.recipientId, sources[j])
      {
        if !sourceOk(s.workspaceId, s.recipientId, sources[i]) { return Some(SourceNotAuthorized); }
      }
      return None;
    }
  }
}
