/**
 * Window production as a protocol. Any number of producers, each working from a schedule it read at
 * some time, interleave with schedule saves; any producer may stop at any point, in particular
 * between enqueueing a window's jobs and advancing the cursor.
 */
module Production {
  import opened Basics
  import opened Text
  import opened Platforms
  import opened Windows
  import opened Schedules
  import opened Digests
  import opened DigestFacts
  import opened DigestBuilder
  import opened Delivery
  import opened Evidence

  /** A running `produce_once`: what it read, and how far it has come. */
  datatype Producer = Producer(schedule: Schedule, stored: Option<int>, remaining: seq<Window>, posted: bool)

  /** A window that was read, digested and enqueued. */
  datatype Record = Record(key: Key, window: Window, events: seq<Event>)

  datatype World = World(
    tables: Tables, history: set<Schedule>, queue: map<string, Job>,
    producers: map<nat, Producer>, records: seq<Record>, origins: map<Key, int>)

  datatype Action =
    | Save(saved: Schedule, expected: Option<int>, reset: bool)
    | Begin(pid: nat, schedule: Schedule, now: int)
    | Post(pid: nat, events: seq<Event>, recipientOk: (string, string) -> bool, sourceOk: (string, string, string) -> bool)
    | Advance(pid: nat)
    | Stop(pid: nat)

  const EMPTY := World(Tables(map[], map[]), {}, map[], map[], [], map[])

  function From(p: Producer): int {
    if p.stored.Some? then p.stored.value else p.schedule.startAt
  }

  function Plan(t: Tables, s: Schedule, now: int): Result<seq<Window>, WindowError> {
    var cursor := CursorAt(t, KeyOf(s));
    ClosedWindows(if cursor.Some? then cursor.value else s.startAt, now, s.cadence, s.delay, s.maxWindows)
  }

  function SourceAuth(s: Schedule, sourceOk: (string, string, string) -> bool): (string, string) -> bool {
    (ws: string, source: string) => ws == s.workspaceId && sourceOk(s.workspaceId, s.recipientId, source)
  }

  ghost function WindowDigest(p: Platform, key: Key, w: Window, events: seq<Event>): Digest
    requires Consistent(Elems(events))
  {
    DigestOf(p, key.workspace, w.start, w.end, Elems(events))
  }

  /** The jobs of a window; none when the window was empty. */
  ghost function WindowJobs(p: Platform, key: Key, w: Window, events: seq<Event>): seq<Job>
    requires Consistent(Elems(events))
  {
    JobsFor(p, Strip(key.recipient), WindowDigest(p, key, w, events))
  }

  function Revision(s: Schedule): Option<int> {
    if s.revision > 0 then Some(s.revision) else None
  }

  /** A producer may hold any valid schedule: the stored one, an outdated one, or one that was never saved. */
  ghost predicate Enabled(p: Platform, w: World, a: Action) {
    match a
    case Save(s, expected, reset) => ValidSchedule(s) && SaveFault(w.tables, s, expected, reset).None?
    case Begin(pid, s, now) =>
      pid !in w.producers && ValidSchedule(s) && s.enabled && Plan(w.tables, s, now).Ok?
    case Post(pid, events, recipientOk, sourceOk) =>
      && pid in w.producers && !w.producers[pid].posted && w.producers[pid].remaining != []
      && (forall e | e in events :: ValidEvent(e))
      && var s, window := w.producers[pid].schedule, w.producers[pid].remaining[0];
         && Acceptable(events, s.workspaceId, window.start, window.end, SourceAuth(s, sourceOk), s.maxEvents)
         && (events != [] ==> Prepare(p, s.recipientId, WindowDigest(p, KeyOf(s), window, events), recipientOk, sourceOk, 5).Ok?)
    case Advance(pid) => pid in w.producers && w.producers[pid].posted && w.producers[pid].remaining != []
    case Stop(pid) => pid in w.producers
  }

  ghost function Apply(p: Platform, w: World, a: Action): World
    requires Enabled(p, w, a)
  {
    match a
    case Save(s, expected, reset) =>
      w.(tables := Saved(w.tables, s, reset), history := w.history + {SavedRow(w.tables, s)})
    case Begin(pid, s, now) =>
      w.(producers := w.producers[pid := Producer(s, CursorAt(w.tables, KeyOf(s)), Plan(w.tables, s, now).value, false)])
    case Post(pid, events, recipientOk, sourceOk) =>
      var pr := w.producers[pid];
      var key, window := KeyOf(pr.schedule), pr.remaining[0];
      w.(queue := PutJobs(w.queue, WindowJobs(p, key, window, events)),
         records := w.records + [Record(key, window, events)],
         producers := w.producers[pid := pr.(posted := true)])
    case Advance(pid) =>
      var pr := w.producers[pid];
      var key, window := KeyOf(pr.schedule), pr.remaining[0];
      var (tables, changed) := Cas(w.tables, key, pr.stored, window.end, Revision(pr.schedule));
      if changed then
        w.(tables := tables,
           origins := if pr.stored.None? then w.origins[key := window.start] else w.origins,
           producers := w.producers[pid := pr.(stored := Some(window.end), remaining := pr.remaining[1..], posted := false)])
      else w.(producers := w.producers - {pid})
    case Stop(pid) => w.(producers := w.producers - {pid})
  }

  /** `actions` is a possible run from `w`. */
  ghost predicate Legal(p: Platform, w: World, actions: seq<Action>)
    decreases |actions|, 0
  {
    actions != [] ==>
      Legal(p, w, actions[..|actions| - 1]) && Enabled(p, Exec(p, w, actions[..|actions| - 1]), actions[|actions| - 1])
  }

  ghost function Exec(p: Platform, w: World, actions: seq<Action>): World
    requires Legal(p, w, actions)
    decreases |actions|, 1
  {
    if actions == [] then w
    else Apply(p, Exec(p, w, actions[..|actions| - 1]), actions[|actions| - 1])
  }

  /** Where a run leads, if it is possible. */
  ghost function Arrives(p: Platform, w: World, actions: seq<Action>): Option<World> {
    if Legal(p, w, actions) then Some(Exec(p, w, actions)) else None
  }

  // ----- No gap -----

  ghost predicate Covers(r: Record, key: Key, t: int) {
    r.key == key && r.window.start <= t < r.window.end
  }

  ghost predicate Covered(records: seq<Record>, key: Key, t: int) {
    exists i :: 0 <= i < |records| && Covers(records[i], key, t)
  }

  /** A record's window was read consistently and all its jobs are in the queue, with their own content. */
  ghost predicate RecordOk(p: Platform, q: map<string, Job>, r: Record) {
    && BatchOk(r.key.workspace, Elems(r.events)) && r.window.start < r.window.end && !Blank(r.key.workspace)
    && (forall e | e in r.events :: r.window.start <= e.occurredAt < r.window.end)
    && Present(q, WindowJobs(p, r.key, r.window, r.events))
  }

  ghost predicate RecordsOk(p: Platform, w: World) {
    Authentic(p, w.queue) && forall i | 0 <= i < |w.records| :: RecordOk(p, w.queue, w.records[i])
  }

  ghost predicate Recorded(records: seq<Record>, key: Key, window: Window) {
    exists i :: 0 <= i < |records| && records[i].key == key && records[i].window == window
  }

  ghost predicate ProducerOk(w: World, pr: Producer) {
    && ValidSchedule(pr.schedule)
    && Tiling(pr.remaining, From(pr), PlanEnd(From(pr), pr.remaining), pr.schedule.cadence)
    && (pr.posted ==> pr.remaining != [] && Recorded(w.records, KeyOf(pr.schedule), pr.remaining[0]))
  }

  ghost predicate ProducersOk(w: World) {
    forall pid | pid in w.producers :: ProducerOk(w, w.producers[pid])
  }

  /** Between the start a cursor row was created from and its present value there is no unprocessed instant. */
  ghost predicate NoGaps(w: World) {
    forall key | key in w.tables.cursors ::
      key in w.origins && forall t | w.origins[key] <= t < w.tables.cursors[key] :: Covered(w.records, key, t)
  }

  ghost predicate Inv(p: Platform, w: World) {
    RecordsOk(p, w) && ProducersOk(w) && NoGaps(w)
  }

  lemma PlanTiles(t: Tables, s: Schedule, now: int)
    requires ValidSchedule(s) && Plan(t, s, now).Ok?
    ensures var pr := Producer(s, CursorAt(t, KeyOf(s)), Plan(t, s, now).value, false);
            Tiling(pr.remaining, From(pr), PlanEnd(From(pr), pr.remaining), s.cadence)
  {
    var pr := Producer(s, CursorAt(t, KeyOf(s)), Plan(t, s, now).value, false);
    PlanExact(From(pr), now, s.cadence, s.delay, s.maxWindows);
  }

  lemma TilingTail(ws: seq<Window>, from: int, cadence: int)
    requires ws != [] && Tiling(ws, from, PlanEnd(from, ws), cadence)
    ensures ws[0] == Window(from, from + cadence * SECOND)
    ensures Tiling(ws[1..], ws[0].end, PlanEnd(ws[0].end, ws[1..]), cadence)
  {
    var t := ws[1..];
    forall i, j | 0 <= i < |t| && j == i + 1 < |t| ensures t[j].start == t[i].end {
      assert ws[j + 1].start == ws[i + 1].end;
    }
  }

  lemma CoveredMonotone(records: seq<Record>, r: Record, key: Key, t: int)
    requires Covered(records, key, t)
    ensures Covered(records + [r], key, t)
  {
    var i :| 0 <= i < |records| && Covers(records[i], key, t);
    assert (records + [r])[i] == records[i];
  }

  lemma RecordedMonotone(records: seq<Record>, r: Record, key: Key, window: Window)
    requires Recorded(records, key, window)
    ensures Recorded(records + [r], key, window)
  {
    var i :| 0 <= i < |records| && records[i].key == key && records[i].window == window;
    assert (records + [r])[i] == records[i];
  }

  // What every step keeps of the running producers; nothing is asked of the library for this.

  lemma BeginKeepsProducers(p: Platform, w: World, a: Action)
    requires a.Begin? && Enabled(p, w, a) && ProducersOk(w)
    ensures ProducersOk(Apply(p, w, a))
  {
    var w' := Apply(p, w, a);
    PlanTiles(w.tables, a.schedule, a.now);
    forall pid | pid in w'.producers ensures ProducerOk(w', w'.producers[pid]) {
      if pid != a.pid {
        assert ProducerOk(w, w.producers[pid]);
      }
    }
  }

  lemma PostKeepsProducers(p: Platform, w: World, a: Action)
    requires a.Post? && Enabled(p, w, a) && ProducersOk(w)
    ensures ProducersOk(Apply(p, w, a))
  {
    var w', n := Apply(p, w, a), |w.records|;
    forall pid | pid in w'.producers ensures ProducerOk(w', w'.producers[pid]) {
      assert ProducerOk(w, w.producers[pid]);
      if pid == a.pid {
        assert w'.records[n].window == w'.producers[pid].remaining[0];
      } else if w.producers[pid].posted {
        RecordedMonotone(w.records, w'.records[n], KeyOf(w.producers[pid].schedule), w.producers[pid].remaining[0]);
      }
    }
  }

  lemma AdvanceKeepsProducer(p: Platform, w: World, a: Action, pid: nat)
    requires a.Advance? && Enabled(p, w, a) && ProducersOk(w) && pid in Apply(p, w, a).producers
    ensures ProducerOk(Apply(p, w, a), Apply(p, w, a).producers[pid])
  {
    var pr := w.producers[a.pid];
    assert ProducerOk(w, pr) && ProducerOk(w, w.producers[pid]);
    if pid == a.pid {
      TilingTail(pr.remaining, From(pr), pr.schedule.cadence);
    }
  }

  lemma StepKeepsProducers(p: Platform, w: World, a: Action)
    requires Enabled(p, w, a) && ProducersOk(w)
    ensures ProducersOk(Apply(p, w, a))
  {
    if a.Begin? {
      BeginKeepsProducers(p, w, a);
    } else if a.Post? {
      PostKeepsProducers(p, w, a);
    } else {
      var w' := Apply(p, w, a);
      forall pid | pid in w'.producers ensures ProducerOk(w', w'.producers[pid]) {
        if a.Advance? {
          AdvanceKeepsProducer(p, w, a, pid);
        } else {
          assert ProducerOk(w, w.producers[pid]);
        }
      }
    }
  }

  lemma {:induction false} RunKeepsProducers(p: Platform, w: World, actions: seq<Action>)
    requires ProducersOk(w) && Legal(p, w, actions)
    ensures ProducersOk(Exec(p, w, actions))
  {
    if actions != [] {
      var n := |actions| - 1;
      RunKeepsProducers(p, w, actions[..n]);
      StepKeepsProducers(p, Exec(p, w, actions[..n]), actions[n]);
    }
  }

  // What every step keeps of the records: their jobs stay in the queue.

  lemma RecordStays(p: Platform, q: map<string, Job>, q': map<string, Job>, r: Record)
    requires RecordOk(p, q, r) && forall id | id in q :: id in q' && q'[id] == q[id]
    ensures RecordOk(p, q', r)
  {
  }

  lemma PostedJobsArePresent(p: Platform, q: map<string, Job>, r: Record)
    requires p.JobIdsIdentify() && Authentic(p, q) && BatchOk(r.key.workspace, Elems(r.events))
    requires r.window.start < r.window.end && !Blank(r.key.workspace)
    requires forall e | e in r.events :: r.window.start <= e.occurredAt < r.window.end
    ensures var q' := PutJobs(q, WindowJobs(p, r.key, r.window, r.events));
            && Authentic(p, q') && RecordOk(p, q', r)
            && forall id | id in q :: id in q' && q'[id] == q[id]
  {
    var jobs := WindowJobs(p, r.key, r.window, r.events);
    JobsAreGenuine(p, Strip(r.key.recipient), WindowDigest(p, r.key, r.window, r.events));
    GenuineIdsIdentify(p);
    PostedIntact(p, q, jobs);
    PutJobsFacts(q, jobs);
  }

  lemma PostKeepsRecords(p: Platform, q: map<string, Job>, records: seq<Record>, r: Record)
    requires p.JobIdsIdentify() && Authentic(p, q) && forall i | 0 <= i < |records| :: RecordOk(p, q, records[i])
    requires BatchOk(r.key.workspace, Elems(r.events)) && r.window.start < r.window.end && !Blank(r.key.workspace)
    requires forall e | e in r.events :: r.window.start <= e.occurredAt < r.window.end
    ensures var after, longer := PutJobs(q, WindowJobs(p, r.key, r.window, r.events)), records + [r];
            Authentic(p, after) && forall i | 0 <= i < |longer| :: RecordOk(p, after, longer[i])
  {
    var after, longer := PutJobs(q, WindowJobs(p, r.key, r.window, r.events)), records + [r];
    PostedJobsArePresent(p, q, r);
    forall i | 0 <= i < |longer| ensures RecordOk(p, after, longer[i]) {
      if i < |records| {
        RecordStays(p, q, after, records[i]);
      }
    }
  }

  lemma StepKeepsRecords(p: Platform, w: World, a: Action)
    requires p.JobIdsIdentify() && Enabled(p, w, a) && RecordsOk(p, w) && ProducersOk(w)
    ensures RecordsOk(p, Apply(p, w, a))
  {
    if a.Post? {
      var pr := w.producers[a.pid];
      assert ProducerOk(w, pr);
      TilingTail(pr.remaining, From(pr), pr.schedule.cadence);
      PostKeepsRecords(p, w.queue, w.records, Record(KeyOf(pr.schedule), pr.remaining[0], a.events));
    }
  }

  // What every step keeps of the cursors: nothing behind them is uncovered.

  lemma SaveKeepsNoGaps(p: Platform, w: World, a: Action)
    requires a.Save? && Enabled(p, w, a) && NoGaps(w)
    ensures NoGaps(Apply(p, w, a))
  {
    var w' := Apply(p, w, a);
    forall key | key in w'.tables.cursors
      ensures key in w'.origins && forall t | w'.origins[key] <= t < w'.tables.cursors[key] :: Covered(w'.records, key, t)
    {
      SaveNeverAdvances(w.tables, a.saved, a.reset, key);
    }
  }

  lemma PostKeepsNoGaps(p: Platform, w: World, a: Action)
    requires a.Post? && Enabled(p, w, a) && NoGaps(w)
    ensures NoGaps(Apply(p, w, a))
  {
    var w' := Apply(p, w, a);
    forall key, t | key in w'.tables.cursors && w'.origins[key] <= t < w'.tables.cursors[key]
      ensures Covered(w'.records, key, t)
    {
      CoveredMonotone(w.records, w'.records[|w.records|], key, t);
    }
  }

  /** The heart of the argument: a successful compare-and-set extends the covered interval by the posted window. */
  lemma ExtendCover(records: seq<Record>, key: Key, window: Window, from: int, t: int)
    requires Recorded(records, key, window)
    requires forall t | from <= t < window.start :: Covered(records, key, t)
    requires from <= t < window.end
    ensures Covered(records, key, t)
  {
    if t >= window.start {
      var i :| 0 <= i < |records| && records[i].key == key && records[i].window == window;
      assert Covers(records[i], key, t);
    }
  }

  lemma AdvanceKeepsNoGaps(p: Platform, w: World, a: Action)
    requires a.Advance? && Enabled(p, w, a) && NoGaps(w) && ProducerOk(w, w.producers[a.pid])
    ensures NoGaps(Apply(p, w, a))
  {
    var w' := Apply(p, w, a);
    var pr := w.producers[a.pid];
    var key, window := KeyOf(pr.schedule), pr.remaining[0];
    TilingTail(pr.remaining, From(pr), pr.schedule.cadence);
    forall k | k in w'.tables.cursors
      ensures k in w'.origins && forall t | w'.origins[k] <= t < w'.tables.cursors[k] :: Covered(w'.records, k, t)
    {
      if k == key && Cas(w.tables, key, pr.stored, window.end, Revision(pr.schedule)).1 {
        forall t | w'.origins[k] <= t < w'.tables.cursors[k] ensures Covered(w'.records, k, t) {
          ExtendCover(w.records, key, window, w'.origins[k], t);
        }
      }
    }
  }

  lemma StepKeepsInv(p: Platform, w: World, a: Action)
    requires p.JobIdsIdentify() && Enabled(p, w, a) && Inv(p, w)
    ensures Inv(p, Apply(p, w, a))
  {
    StepKeepsRecords(p, w, a);
    StepKeepsProducers(p, w, a);
    match a
    case Save(_, _, _) => SaveKeepsNoGaps(p, w, a);
    case Post(_, _, _, _) => PostKeepsNoGaps(p, w, a);
    case Advance(_) =>
      assert ProducerOk(w, w.producers[a.pid]);
      AdvanceKeepsNoGaps(p, w, a);
    case _ =>
  }

  lemma {:induction false} RunKeepsInv(p: Platform, w: World, actions: seq<Action>)
    requires p.JobIdsIdentify() && Inv(p, w) && Legal(p, w, actions)
    ensures Inv(p, Exec(p, w, actions))
  {
    if actions != [] {
      var n := |actions| - 1;
      RunKeepsInv(p, w, actions[..n]);
      StepKeepsInv(p, Exec(p, w, actions[..n]), actions[n]);
    }
  }

  /**
   * No gap, in every run: an instant the cursor has passed lies in a window whose events were read,
   * digested and enqueued, and all of that window's jobs are in the queue.
   */
  lemma NoGap(p: Platform, actions: seq<Action>, key: Key, t: int) returns (r: Record)
    requires p.JobIdsIdentify() && Legal(p, EMPTY, actions)
    requires key in Exec(p, EMPTY, actions).tables.cursors
    ensures key in Exec(p, EMPTY, actions).origins
    ensures var w := Exec(p, EMPTY, actions);
            w.origins[key] <= t < w.tables.cursors[key] ==>
              r in w.records && Covers(r, key, t) && RecordOk(p, w.queue, r)
  {
    var w := Exec(p, EMPTY, actions);
    RunKeepsInv(p, EMPTY, actions);
    r := Record(key, Window(0, 0), []);
    if w.origins[key] <= t < w.tables.cursors[key] {
      assert Covered(w.records, key, t);
      var i :| 0 <= i < |w.records| && Covers(w.records[i], key, t);
      r := w.records[i];
    }
  }

  /** Every event read for a recorded window is in the evidence of exactly one of the window's jobs, and that job is in the queue. */
  lemma RecordedEventSentOnce(p: Platform, q: map<string, Job>, r: Record, e: Event) returns (i: nat)
    requires p.GoodItemIds() && p.CleanRollupIds() && RecordOk(p, q, r) && e in r.events
    ensures var d := WindowDigest(p, r.key, r.window, r.events);
            var jobs := WindowJobs(p, r.key, r.window, r.events);
            && i < |jobs| && jobs[i].jobId in q && q[jobs[i].jobId] == jobs[i]
            && RefOf(e) in EvidenceOf(Parts(p, d)[i])
            && (forall j: nat | j < |jobs| && RefOf(e) in EvidenceOf(Parts(p, d)[j]) :: j == i)
  {
    assert e in Elems(r.events);
    i := ExactlyOneJob(p, r.key.workspace, r.window.start, r.window.end, Elems(r.events),
                       WindowDigest(p, r.key, r.window, r.events), e);
  }
}
