/** The maintenance worker's poll loop. */
module Workers {
  import opened Basics

  datatype Job = Job(id: string, mode: string)

  datatype Modes = Modes(request: bool, background: bool)

  datatype Failure = ContextWindow | Other

  /** What the one call made for a job did: whether it raised, and which modes its callbacks switched off. */
  datatype Answer = Answer(failure: Option<Failure>, requestOff: bool, backgroundOff: bool)

  /** The call made for a job that was reached. */
  datatype Call = Requeue | Handle

  datatype Disposition = Paused | Handled | FailedFinally | RetriedOrFailed

  datatype Step = Step(job: Job, call: Call, disposition: Disposition)

  datatype End = QueueEmpty | FairSlice | Raised

  function ClaimLimit(fair: bool): nat {
    if fair then 1 else 50
  }

  predicate Background(job: Job) {
    job.mode == "background"
  }

  predicate Disabled(modes: Modes, job: Job) {
    if Background(job) then !modes.background else !modes.request
  }

  /** A context-window failure switches both modes off; callbacks only ever switch modes off. */
  function After(modes: Modes, a: Answer): Modes {
    if a.failure == Some(ContextWindow) then Modes(false, false)
    else Modes(modes.request && !a.requestOff, modes.background && !a.backgroundOff)
  }

  function Dispose(modes: Modes, job: Job, a: Answer): Step {
    var call := if Disabled(modes, job) then Requeue else Handle;
    Step(job, call,
         match a.failure
         case None => if call == Requeue then Paused else Handled
         case Some(ContextWindow) => FailedFinally
         case Some(Other) => RetriedOrFailed)
  }

  /** The poll ends after this step. */
  predicate Stops(fair: bool, s: Step) {
    s.disposition == RetriedOrFailed || (fair && s.disposition == Handled)
  }

  /** The modes before the `n`-th job. */
  function ModesAt(start: Modes, answers: nat -> Answer, n: nat): Modes {
    if n == 0 then start else After(ModesAt(start, answers, n - 1), answers(n - 1))
  }

  predicate Follows(start: Modes, answers: nat -> Answer, s: Step, n: nat) {
    s == Dispose(ModesAt(start, answers, n), s.job, answers(n))
  }

  /** What a poll does to the jobs it reaches: one step each, in order, none after a step that ends the poll. */
  ghost predicate Poll(fair: bool, start: Modes, answers: nat -> Answer, log: seq<Step>) {
    && (forall i | 0 <= i < |log| :: Follows(start, answers, log[i], i))
    && (forall i | 0 <= i < |log| - 1 :: !Stops(fair, log[i]))
  }

  const JobOf: Step -> Job := (s: Step) => s.job

  function Jobs(log: seq<Step>): seq<Job> {
    Map(JobOf, log)
  }

  /** The claims up to the first empty one. */
  function Taken(claims: seq<seq<Job>>): seq<seq<Job>> {
    if claims == [] || claims[0] == [] then [] else [claims[0]] + Taken(claims[1..])
  }

  lemma {:induction false} TakenPrefix(claims: seq<seq<Job>>, n: nat)
    requires n <= |claims| && forall i | 0 <= i < n :: claims[i] != []
    ensures n == |claims| || claims[n] == [] ==> Taken(claims) == claims[..n]
  {
    if n > 0 {
      TakenPrefix(claims[1..], n - 1);
      assert claims[..n] == [claims[0]] + claims[1..][..n - 1];
    }
  }

  class MaintenanceWorker {
    const fair: bool
    var requestEnabled: bool
    var backgroundEnabled: bool

    ghost function Enabled(): Modes
      reads this
    {
      Modes(requestEnabled, backgroundEnabled)
    }

    /** The body of the job loop. */
    method Process(job: Job, answer: Answer) returns (s: Step)
      modifies this
      ensures s == Dispose(old(Enabled()), job, answer) && Enabled() == After(old(Enabled()), answer)
    {
      var disabled := (Background(job) && !backgroundEnabled) || (!Background(job) && !requestEnabled);
      var call := if disabled then Requeue else Handle;
      requestEnabled := requestEnabled && !answer.requestOff;
      backgroundEnabled := backgroundEnabled && !answer.backgroundOff;
      if answer.failure == Some(ContextWindow) {
        backgroundEnabled := false;
        requestEnabled := false;
        return Step(job, call, FailedFinally);
      }
      if answer.failure == Some(Other) {
        return Step(job, call, RetriedOrFailed);
      }
      return Step(job, call, if disabled then Paused else Handled);
    }

    /** The job loop over one batch, continuing the poll `before`. */
    method ProcessBatch(jobs: seq<Job>, answers: nat -> Answer, before: seq<Step>, ghost start: Modes)
      returns (log: seq<Step>, stopped: bool, reached: nat)
      requires Poll(fair, start, answers, before) && Open(fair, before) && Enabled() == ModesAt(start, answers, |before|)
      modifies this
      ensures Poll(fair, start, answers, log) && Enabled() == ModesAt(start, answers, |log|)
      ensures stopped <==> !Open(fair, log)
      ensures reached <= |jobs| && |log| == |before| + reached && Jobs(log) == Jobs(before) + jobs[..reached]
      ensures if stopped then reached > 0 else reached == |jobs|
    {
      log := before;
      for i := 0 to |jobs|
        invariant |log| == |before| + i
        invariant Jobs(log) == Jobs(before) + jobs[..i]
        invariant Poll(fair, start, answers, log)
        invariant Open(fair, log)
        invariant Enabled() == ModesAt(start, answers, |log|)
      {
        ghost var sofar, n := log, |log|;
        var s := Process(jobs[i], answers(|log|));
        assert Follows(start, answers, s, n);
        assert Enabled() == ModesAt(start, answers, n + 1);
        PollSnoc(fair, start, answers, sofar, s);
        log := log + [s];
        assert Jobs(log) == Jobs(before) + jobs[..i + 1] by {
          assert jobs[..i + 1] == jobs[..i] + [jobs[i]];
        }
        assert Open(fair, log) <==> !Stops(fair, s);
        if Stops(fair, s) {
          return log, true, i + 1;
        }
      }
      return log, false, |jobs|;
    }

    /**
      * `process_pending_jobs`. `claims` are the batches the queue hands out, ended by an empty one; `leased` are the
      * claimed jobs the poll did not reach.
      */
    method ProcessPendingJobs(claims: seq<seq<Job>>, answers: nat -> Answer)
      returns (log: seq<Step>, end: End, leased: seq<Job>)
      modifies this
      ensures Poll(fair, old(Enabled()), answers, log)
      ensures Enabled() == ModesAt(old(Enabled()), answers, |log|)
      ensures end == QueueEmpty <==> Open(fair, log)
      ensures end == QueueEmpty ==> Jobs(log) == Flatten(Taken(claims)) && leased == []
      ensures end != QueueEmpty ==> Leaves(claims, log, leased)
      ensures end == Raised <==> log != [] && log[|log| - 1].disposition == RetriedOrFailed
      ensures end == FairSlice && (forall c | c in claims :: |c| <= ClaimLimit(fair)) ==> leased == []
    {
      log := [];
      ghost var start := Enabled();
      for k := 0 to |claims|
        invariant Poll(fair, start, answers, log) && Open(fair, log)
        invariant Enabled() == ModesAt(start, answers, |log|)
        invariant Reached(claims, k, log)
      {
        if claims[k] == [] {
          ReachedAll(claims, k, log);
          return log, QueueEmpty, [];
        }
        ghost var before := log;
        var stopped, reached;
        log, stopped, reached := ProcessBatch(claims[k], answers, log, start);
        ReachedNext(claims, k, before, log, reached);
        if stopped {
          return log, if log[|log| - 1].disposition == RetriedOrFailed then Raised else FairSlice, claims[k][reached..];
        }
      }
      ReachedAll(claims, |claims|, log);
      return log, QueueEmpty, [];
    }
  }

  /** Nothing so far ends the poll. */
  predicate Open(fair: bool, log: seq<Step>) {
    log != [] ==> !Stops(fair, log[|log| - 1])
  }

  /** The poll reached all batches but a proper end of the last one claimed. */
  ghost predicate Leaves(claims: seq<seq<Job>>, log: seq<Step>, leased: seq<Job>) {
    exists k | 0 <= k < |claims| :: LeavesIn(claims, k, log, leased)
  }

  ghost predicate LeavesIn(claims: seq<seq<Job>>, k: nat, log: seq<Step>, leased: seq<Job>)
    requires k < |claims|
  {
    Jobs(log) + leased == Flatten(claims[..k + 1]) && |leased| < |claims[k]|
  }

  /** The poll has been through the first `k` batches. */
  ghost predicate Reached(claims: seq<seq<Job>>, k: nat, log: seq<Step>)
    requires k <= |claims|
  {
    Jobs(log) == Flatten(claims[..k]) && forall i | 0 <= i < k :: claims[i] != []
  }

  lemma ReachedAll(claims: seq<seq<Job>>, k: nat, log: seq<Step>)
    requires k <= |claims| && Reached(claims, k, log) && (k == |claims| || claims[k] == [])
    ensures Jobs(log) == Flatten(Taken(claims))
  {
    TakenPrefix(claims, k);
  }

  lemma ReachedNext(claims: seq<seq<Job>>, k: nat, before: seq<Step>, log: seq<Step>, reached: nat)
    requires k < |claims| && claims[k] != [] && Reached(claims, k, before)
    requires reached <= |claims[k]| && Jobs(log) == Jobs(before) + claims[k][..reached]
    ensures reached > 0 ==> Leaves(claims, log, claims[k][reached..])
    ensures reached == |claims[k]| ==> Reached(claims, k + 1, log)
    ensures claims[k] in claims
  {
    assert claims[..k + 1] == claims[..k] + [claims[k]];
    FlattenSnoc(claims[..k], claims[k]);
    assert claims[k] == claims[k][..reached] + claims[k][reached..];
    if reached > 0 {
      assert LeavesIn(claims, k, log, claims[k][reached..]);
    }
  }

  lemma PollSnoc(fair: bool, start: Modes, answers: nat -> Answer, log: seq<Step>, s: Step)
    requires Poll(fair, start, answers, log) && Open(fair, log)
    requires Follows(start, answers, s, |log|)
    ensures Poll(fair, start, answers, log + [s])
    ensures Jobs(log + [s]) == Jobs(log) + [s.job]
  {
  }

  // ----- What every poll keeps -----

  lemma {:induction false} ModesOnlySwitchOff(start: Modes, answers: nat -> Answer, i: nat, j: nat)
    requires i <= j
    ensures ModesAt(start, answers, j).request ==> ModesAt(start, answers, i).request
    ensures ModesAt(start, answers, j).background ==> ModesAt(start, answers, i).background
    decreases j - i
  {
    if i < j {
      ModesOnlySwitchOff(start, answers, i, j - 1);
    }
  }

  /** No job is handled after a context-window failure in the same poll; every later one is put back. */
  lemma NothingHandledAfterContextFailure(fair: bool, start: Modes, answers: nat -> Answer, log: seq<Step>, i: nat, j: nat)
    requires Poll(fair, start, answers, log) && i < j < |log| && log[i].disposition == FailedFinally
    ensures log[j].call == Requeue && log[j].disposition != Handled
  {
    assert Follows(start, answers, log[i], i);
    assert ModesAt(start, answers, i + 1) == After(ModesAt(start, answers, i), answers(i)) == Modes(false, false);
    ModesOnlySwitchOff(start, answers, i + 1, j);
    assert Follows(start, answers, log[j], j);
  }

  /** A fair poll handles at most one job. */
  lemma FairPollHandlesOnce(start: Modes, answers: nat -> Answer, log: seq<Step>, i: nat, j: nat)
    requires Poll(true, start, answers, log) && i < j < |log| && log[i].call == Handle
    ensures log[j].call == Requeue
  {
    assert Follows(start, answers, log[i], i);
    assert !Stops(true, log[i]);
    NothingHandledAfterContextFailure(true, start, answers, log, i, j);
  }

  /** A job is handled exactly when its own mode is on at that moment, and then ends as handled unless its call raised. */
  lemma HandledExactlyWhenOn(fair: bool, start: Modes, answers: nat -> Answer, log: seq<Step>, i: nat)
    requires Poll(fair, start, answers, log) && i < |log|
    ensures var modes := ModesAt(start, answers, i);
            log[i].call == Handle <==> if log[i].job.mode == "background" then modes.background else modes.request
    ensures log[i].disposition == Handled <==> log[i].call == Handle && answers(i).failure == None
    ensures log[i].disposition == Paused <==> log[i].call == Requeue && answers(i).failure == None
    ensures log[i].disposition == FailedFinally <==> answers(i).failure == Some(ContextWindow)
    ensures log[i].disposition == RetriedOrFailed <==> answers(i).failure == Some(Other)
  {
    assert Follows(start, answers, log[i], i);
  }

  /** Once a mode is off, its jobs are put back for the rest of the poll. */
  lemma PausedModeStaysPaused(fair: bool, start: Modes, answers: nat -> Answer, log: seq<Step>, i: nat, j: nat)
    requires Poll(fair, start, answers, log) && i < j < |log| && log[i].call == Requeue
    requires Background(log[i].job) == Background(log[j].job)
    ensures log[j].call == Requeue
  {
    ModesOnlySwitchOff(start, answers, i, j);
    assert Follows(start, answers, log[i], i);
    assert Follows(start, answers, log[j], j);
  }
}
