/**
 * Delivery as a protocol over the shared job queue: any number of workers claim jobs under leases,
 * recheck access, call the channel adapter and acknowledge. Leases expire, claims go stale, workers
 * crash, and access answers may differ from pass to pass.
 */
module DeliveryProtocol {
  import opened Basics
  import opened Digests
  import opened Delivery

  /** How a worker reads a job in a workspace: recipient and digest, or nothing for a malformed job. */
  type Parser = (Job, string) -> Option<(string, Digest)>

  datatype Status = Pending | Doing | Done | Failed

  datatype Row = Row(job: Job, status: Status, token: nat, leaseUntil: int)

  /** The access answers one pass over one job received. */
  datatype Access = Access(recipientOk: (string, string) -> bool, sourceOk: (string, string, string) -> bool)

  /** How an access callback failed: denying by exception, complaining about its arguments, or for any other reason. */
  datatype Cause = Forbidden | Malformed | Unavailable

  datatype Phase = Claimed | Cleared(recipient: string, digest: Digest, access: Access) | Sent

  /** A worker's hold on a job, known by its claim token. */
  datatype Claim = Claim(ws: string, job: Job, phase: Phase)

  /** One call of the adapter. */
  datatype Attempt = Attempt(token: nat, ws: string, jobId: string, recipient: string, digest: Digest, access: Access, returned: bool)

  datatype World = World(rows: map<string, Row>, clock: int, nextToken: nat, claims: map<nat, Claim>, log: seq<Attempt>, refused: set<nat>)

  datatype Action =
    | Put(job: Job)
    | Tick(elapsed: nat)
    | Take(ws: string, jobId: string, lease: nat)
    | Check(token: nat, access: Access)
    | CheckRaised(token: nat, cause: Cause, final: bool)
    | Send(token: nat, returned: bool, final: bool)
    | Acknowledge(token: nat)
    | Crash(token: nat)

  const EMPTY := World(map[], 0, 0, map[], [], {})

  predicate Claimable(row: Row, clock: int) {
    row.status.Pending? || (row.status.Doing? && row.leaseUntil <= clock)
  }

  predicate InWorkspace(job: Job, ws: string) {
    job.namespace == RoutineNamespace(ws) || job.namespace == UrgentNamespace(ws)
  }

  /** Status changes take effect only for the current claim of a job still in progress. */
  function Settle(rows: map<string, Row>, id: string, token: nat, status: Status): map<string, Row> {
    if id in rows && rows[id].status.Doing? && rows[id].token == token then rows[id := rows[id].(status := status)] else rows
  }

  function RetryStatus(final: bool): Status {
    if final then Failed else Pending
  }

  /** Only a failure that is neither a denial nor a complaint leaves the job to be tried again. */
  function RaisedStatus(cause: Cause, final: bool): Status {
    if cause.Unavailable? then RetryStatus(final) else Failed
  }

  ghost predicate Enabled(w: World, a: Action) {
    match a
    case Put(job) => job.jobId !in w.rows
    case Tick(_) => true
    case Take(ws, id, lease) => id in w.rows && Claimable(w.rows[id], w.clock) && InWorkspace(w.rows[id].job, ws)
    case Check(token, _) => token in w.claims && w.claims[token].phase.Claimed?
    case CheckRaised(token, _, _) => token in w.claims && w.claims[token].phase.Claimed?
    case Send(token, _, _) => token in w.claims && w.claims[token].phase.Cleared?
    case Acknowledge(token) => token in w.claims && w.claims[token].phase.Sent?
    case Crash(token) => token in w.claims
  }

  ghost function Apply(parse: Parser, w: World, a: Action): World
    requires Enabled(w, a)
  {
    match a
    case Put(job) => w.(rows := w.rows[job.jobId := Row(job, Pending, 0, 0)])
    case Tick(elapsed) => w.(clock := w.clock + elapsed)
    case Take(ws, id, lease) =>
      w.(rows := w.rows[id := w.rows[id].(status := Doing, token := w.nextToken, leaseUntil := w.clock + lease)],
         claims := w.claims[w.nextToken := Claim(ws, w.rows[id].job, Claimed)], nextToken := w.nextToken + 1)
    case Check(token, access) =>
      var c := w.claims[token];
      var parsed := parse(c.job, c.ws);
      if parsed.Some? && Authorize(parsed.value.0, parsed.value.1, access.recipientOk, access.sourceOk).None? then
        w.(claims := w.claims[token := c.(phase := Cleared(parsed.value.0, parsed.value.1, access))])
      else
        w.(rows := Settle(w.rows, c.job.jobId, token, Failed), claims := w.claims - {token}, refused := w.refused + {token})
    case CheckRaised(token, cause, final) =>
      w.(rows := Settle(w.rows, w.claims[token].job.jobId, token, RaisedStatus(cause, final)), claims := w.claims - {token},
         refused := if cause.Unavailable? then w.refused else w.refused + {token})
    case Send(token, returned, final) =>
      var c := w.claims[token];
      var attempt := Attempt(token, c.ws, c.job.jobId, c.phase.recipient, c.phase.digest, c.phase.access, returned);
      if returned then w.(log := w.log + [attempt], claims := w.claims[token := c.(phase := Sent)])
      else w.(log := w.log + [attempt], rows := Settle(w.rows, c.job.jobId, token, RetryStatus(final)), claims := w.claims - {token})
    case Acknowledge(token) =>
      w.(rows := Settle(w.rows, w.claims[token].job.jobId, token, Done), claims := w.claims - {token})
    case Crash(token) => w.(claims := w.claims - {token})
  }

  ghost predicate Legal(parse: Parser, w: World, actions: seq<Action>)
    decreases |actions|, 0
  {
    actions != [] ==>
      Legal(parse, w, actions[..|actions| - 1]) && Enabled(Exec(parse, w, actions[..|actions| - 1]), actions[|actions| - 1])
  }

  ghost function Exec(parse: Parser, w: World, actions: seq<Action>): World
    requires Legal(parse, w, actions)
    decreases |actions|, 1
  {
    if actions == [] then w
    else Apply(parse, Exec(parse, w, actions[..|actions| - 1]), actions[|actions| - 1])
  }

  /** Where a run leads, if it is possible. */
  ghost function Arrives(parse: Parser, w: World, actions: seq<Action>): Option<World> {
    if Legal(parse, w, actions) then Some(Exec(parse, w, actions)) else None
  }

  // ----- Invariant -----

  /** Access was granted for the recipient and for every source the digest refers to, of which there is at least one. */
  ghost predicate Granted(recipient: string, d: Digest, access: Access) {
    && access.recipientOk(d.workspaceId, recipient)
    && AllRefs(Items(d)) != []
    && forall r | r in AllRefs(Items(d)) :: access.sourceOk(d.workspaceId, recipient, r.source)
  }

  /** The access check passes exactly when access is granted. */
  lemma AuthorizeMeansGranted(recipient: string, d: Digest, access: Access)
    ensures Authorize(recipient, d, access.recipientOk, access.sourceOk).None? <==> Granted(recipient, d, access)
  {
    var refs := AllRefs(Items(d));
    assert forall r | r in refs :: r.source in Sources(d);
    if Sources(d) != {} {
      var s :| s in Sources(d);
      var r :| r in refs && r.source == s;
    }
    if refs != [] {
      assert refs[0] in refs;
    }
  }

  ghost predicate ClaimOk(parse: Parser, w: World, token: nat, c: Claim) {
    && token < w.nextToken && token !in w.refused
    && c.job.jobId in w.rows && w.rows[c.job.jobId].job == c.job
    && (c.phase.Cleared? ==> parse(c.job, c.ws) == Some((c.phase.recipient, c.phase.digest))
                             && Granted(c.phase.recipient, c.phase.digest, c.phase.access))
    && (c.phase.Sent? ==> Returned(w.log, c.job.jobId))
  }

  ghost predicate Returned(log: seq<Attempt>, id: string) {
    exists i :: 0 <= i < |log| && log[i].jobId == id && log[i].returned
  }

  ghost predicate AttemptOk(parse: Parser, w: World, x: Attempt) {
    && x.token < w.nextToken && x.token !in w.refused
    && x.jobId in w.rows && parse(w.rows[x.jobId].job, x.ws) == Some((x.recipient, x.digest))
    && Granted(x.recipient, x.digest, x.access)
  }

  ghost predicate RowsOk(w: World) {
    forall id | id in w.rows :: w.rows[id].job.jobId == id && (w.rows[id].status.Done? ==> Returned(w.log, id))
  }

  ghost predicate ClaimsOk(parse: Parser, w: World) {
    forall t | t in w.claims :: ClaimOk(parse, w, t, w.claims[t])
  }

  ghost predicate LogOk(parse: Parser, w: World) {
    forall i | 0 <= i < |w.log| :: AttemptOk(parse, w, w.log[i])
  }

  /** A claim whose adapter call is on record is past its check. */
  ghost predicate LogClaimsOk(w: World) {
    forall i | 0 <= i < |w.log| :: w.log[i].token in w.claims ==> w.claims[w.log[i].token].phase.Sent?
  }

  ghost predicate Inv(parse: Parser, w: World) {
    RowsOk(w) && ClaimsOk(parse, w) && LogOk(parse, w) && LogClaimsOk(w) && (forall t | t in w.refused :: t < w.nextToken)
  }

  /** A step that keeps the immutable parts: jobs stay, logs and refusals only grow as allowed. */
  ghost predicate Extends(w: World, w': World) {
    && w.nextToken <= w'.nextToken && |w.log| <= |w'.log| && w.log == w'.log[..|w.log|]
    && (forall id | id in w.rows :: id in w'.rows && w'.rows[id].job == w.rows[id].job)
  }

  lemma ReturnedGrows(log: seq<Attempt>, log': seq<Attempt>, id: string)
    requires Returned(log, id) && |log| <= |log'| && log == log'[..|log|]
    ensures Returned(log', id)
  {
    var i :| 0 <= i < |log| && log[i].jobId == id && log[i].returned;
    assert log'[i] == log[i];
  }

  /** Claims that are not touched by a step stay in order. */
  lemma ClaimFrame(parse: Parser, w: World, w': World, t: nat, c: Claim)
    requires Extends(w, w') && ClaimOk(parse, w, t, c) && t !in w'.refused
    ensures ClaimOk(parse, w', t, c)
  {
    if c.phase.Sent? {
      ReturnedGrows(w.log, w'.log, c.job.jobId);
    }
  }

  /** Recorded attempts stay in order as long as no attempt's token is refused afterwards. */
  lemma LogFrame(parse: Parser, w: World, w': World)
    requires Extends(w, w') && LogOk(parse, w)
    requires forall i | 0 <= i < |w.log| :: w.log[i].token !in w'.refused
    ensures forall i | 0 <= i < |w.log| :: AttemptOk(parse, w', w'.log[i])
  {
    forall i | 0 <= i < |w.log| ensures AttemptOk(parse, w', w'.log[i]) {
      assert w'.log[i] == w.log[i];
      assert AttemptOk(parse, w, w.log[i]);
    }
  }

  lemma RowsFrame(w: World, w': World)
    requires Extends(w, w') && RowsOk(w)
    requires forall id | id in w'.rows && id !in w.rows :: w'.rows[id].job.jobId == id && !w'.rows[id].status.Done?
    requires forall id | id in w.rows && w'.rows[id].status.Done? && !w.rows[id].status.Done? :: Returned(w'.log, id)
    ensures RowsOk(w')
  {
    forall id | id in w'.rows ensures w'.rows[id].job.jobId == id && (w'.rows[id].status.Done? ==> Returned(w'.log, id)) {
      if id in w.rows && w.rows[id].status.Done? {
        ReturnedGrows(w.log, w'.log, id);
      }
    }
  }

  lemma QuietStep(parse: Parser, w: World, a: Action)
    requires Inv(parse, w) && Enabled(w, a) && (a.Put? || a.Tick? || a.Take? || a.Crash?)
    ensures Inv(parse, Apply(parse, w, a))
  {
    var w' := Apply(parse, w, a);
    assert Extends(w, w');
    RowsFrame(w, w');
    forall i | 0 <= i < |w.log| ensures w.log[i].token !in w'.refused {
      assert AttemptOk(parse, w, w.log[i]);
    }
    LogFrame(parse, w, w');
    forall t | t in w'.claims ensures ClaimOk(parse, w', t, w'.claims[t]) {
      if t in w.claims {
        assert t != w.nextToken by { assert ClaimOk(parse, w, t, w.claims[t]); }
        ClaimFrame(parse, w, w', t, w.claims[t]);
      }
    }
  }

  lemma CheckStep(parse: Parser, w: World, a: Action)
    requires Inv(parse, w) && Enabled(w, a) && (a.Check? || a.CheckRaised?)
    ensures Inv(parse, Apply(parse, w, a))
  {
    var w' := Apply(parse, w, a);
    var c := w.claims[a.token];
    assert ClaimOk(parse, w, a.token, c);
    assert Extends(w, w');
    RowsFrame(w, w');
    forall i | 0 <= i < |w.log| ensures w.log[i].token !in w'.refused {
      assert AttemptOk(parse, w, w.log[i]);
    }
    LogFrame(parse, w, w');
    forall t | t in w'.claims ensures ClaimOk(parse, w', t, w'.claims[t]) {
      assert ClaimOk(parse, w, t, w.claims[t]);
      if t == a.token {
        var parsed := parse(c.job, c.ws);
        AuthorizeMeansGranted(parsed.value.0, parsed.value.1, a.access);
      } else {
        ClaimFrame(parse, w, w', t, w.claims[t]);
      }
    }
  }

  lemma SameRefusals(parse: Parser, w: World, w': World)
    requires Extends(w, w') && LogOk(parse, w) && w'.refused == w.refused
    ensures forall i | 0 <= i < |w.log| :: AttemptOk(parse, w', w'.log[i])
  {
    forall i | 0 <= i < |w.log| ensures w.log[i].token !in w'.refused {
      assert AttemptOk(parse, w, w.log[i]);
    }
    LogFrame(parse, w, w');
  }

  lemma SendKeepsClaims(parse: Parser, w: World, w': World, a: Action)
    requires Inv(parse, w) && Enabled(w, a) && a.Send? && w' == Apply(parse, w, a)
    ensures Extends(w, w') && ClaimsOk(parse, w') && LogClaimsOk(w')
  {
    var c, n := w.claims[a.token], |w.log|;
    forall t | t in w'.claims ensures ClaimOk(parse, w', t, w'.claims[t]) {
      assert ClaimOk(parse, w, t, w.claims[t]);
      if t == a.token {
        assert w'.log[n].jobId == c.job.jobId && w'.log[n].returned;
      } else {
        ClaimFrame(parse, w, w', t, w.claims[t]);
      }
    }
  }

  lemma SendStep(parse: Parser, w: World, a: Action)
    requires Inv(parse, w) && Enabled(w, a) && a.Send?
    ensures Inv(parse, Apply(parse, w, a))
  {
    var w' := Apply(parse, w, a);
    SendKeepsClaims(parse, w, w', a);
    RowsFrame(w, w');
    SameRefusals(parse, w, w');
    assert ClaimOk(parse, w, a.token, w.claims[a.token]);
    assert AttemptOk(parse, w', w'.log[|w.log|]);
  }

  lemma AcknowledgeStep(parse: Parser, w: World, a: Action)
    requires Inv(parse, w) && Enabled(w, a) && a.Acknowledge?
    ensures Inv(parse, Apply(parse, w, a))
  {
    var w' := Apply(parse, w, a);
    var c := w.claims[a.token];
    assert ClaimOk(parse, w, a.token, c);
    assert Extends(w, w');
    RowsFrame(w, w');
    SameRefusals(parse, w, w');
    forall t | t in w'.claims ensures ClaimOk(parse, w', t, w'.claims[t]) {
      ClaimFrame(parse, w, w', t, w.claims[t]);
    }
  }

  lemma {:induction false} RunKeepsInv(parse: Parser, w: World, actions: seq<Action>)
    requires Inv(parse, w) && Legal(parse, w, actions)
    ensures Inv(parse, Exec(parse, w, actions))
  {
    if actions != [] {
      var n := |actions| - 1;
      var before, a := Exec(parse, w, actions[..n]), actions[n];
      RunKeepsInv(parse, w, actions[..n]);
      match a
      case Check(_, _) => CheckStep(parse, before, a);
      case CheckRaised(_, _, _) => CheckStep(parse, before, a);
      case Send(_, _, _) => SendStep(parse, before, a);
      case Acknowledge(_) => AcknowledgeStep(parse, before, a);
      case Put(_) => QuietStep(parse, before, a);
      case Tick(_) => QuietStep(parse, before, a);
      case Take(_, _, _) => QuietStep(parse, before, a);
      case Crash(_) => QuietStep(parse, before, a);
    }
  }

  // ----- Safety over all runs -----

  /**
   * A job is done only if the adapter returned normally for it, and every call of the adapter was
   * made for a job that parsed, in a pass that was granted access to the recipient and to every
   * source of the digest.
   */
  lemma DoneWasDelivered(parse: Parser, actions: seq<Action>, id: string) returns (x: Attempt)
    requires Legal(parse, EMPTY, actions)
    requires var rows := Exec(parse, EMPTY, actions).rows; id in rows && rows[id].status.Done?
    ensures var w := Exec(parse, EMPTY, actions);
            && x in w.log && x.jobId == id && x.returned
            && parse(w.rows[id].job, x.ws) == Some((x.recipient, x.digest))
            && Granted(x.recipient, x.digest, x.access)
  {
    RunKeepsInv(parse, EMPTY, actions);
    var w := Exec(parse, EMPTY, actions);
    assert Returned(w.log, id);
    var i :| 0 <= i < |w.log| && w.log[i].jobId == id && w.log[i].returned;
    x := w.log[i];
    assert AttemptOk(parse, w, w.log[i]);
  }

  /** The adapter is never called in a pass that was refused, nor for a job that does not parse. */
  lemma RefusedNeverSent(parse: Parser, actions: seq<Action>, x: Attempt)
    requires Legal(parse, EMPTY, actions) && x in Exec(parse, EMPTY, actions).log
    ensures var w := Exec(parse, EMPTY, actions);
            && x.token !in w.refused && x.jobId in w.rows
            && parse(w.rows[x.jobId].job, x.ws) == Some((x.recipient, x.digest))
            && Granted(x.recipient, x.digest, x.access)
  {
    RunKeepsInv(parse, EMPTY, actions);
    var w := Exec(parse, EMPTY, actions);
    var i :| 0 <= i < |w.log| && w.log[i] == x;
    assert AttemptOk(parse, w, w.log[i]);
  }

  /** The job is in one of the two notification queues of the workspace. */
  predicate Queued(job: Job, ws: string) {
    job.namespace == "ws:" + ws + ":notification_jobs" || job.namespace == "ws:" + ws + ":urgent_notification_jobs"
  }

  ghost predicate InOwnQueue(w: World) {
    && (forall t | t in w.claims :: Queued(w.claims[t].job, w.claims[t].ws))
    && (forall i | 0 <= i < |w.log| :: w.log[i].jobId in w.rows && Queued(w.rows[w.log[i].jobId].job, w.log[i].ws))
  }

  lemma StepInOwnQueue(parse: Parser, w: World, a: Action)
    requires Inv(parse, w) && Enabled(w, a) && InOwnQueue(w)
    ensures InOwnQueue(Apply(parse, w, a))
  {
    var w' := Apply(parse, w, a);
    assert a.Send? ==> ClaimOk(parse, w, a.token, w.claims[a.token]);
    forall i | 0 <= i < |w'.log| ensures w'.log[i].jobId in w'.rows && Queued(w'.rows[w'.log[i].jobId].job, w'.log[i].ws) {
      if i < |w.log| {
        assert w'.log[i] == w.log[i];
      }
    }
  }

  lemma {:induction false} RunInOwnQueue(parse: Parser, actions: seq<Action>)
    requires Legal(parse, EMPTY, actions)
    ensures InOwnQueue(Exec(parse, EMPTY, actions))
  {
    if actions != [] {
      var front := actions[..|actions| - 1];
      RunInOwnQueue(parse, front);
      RunKeepsInv(parse, EMPTY, front);
      StepInOwnQueue(parse, Exec(parse, EMPTY, front), actions[|actions| - 1]);
    }
  }

  /** Nothing crosses workspaces: the adapter is called for a workspace only with jobs from its own two queues. */
  lemma SentFromOwnQueue(parse: Parser, actions: seq<Action>, x: Attempt)
    requires Legal(parse, EMPTY, actions) && x in Exec(parse, EMPTY, actions).log
    ensures var w := Exec(parse, EMPTY, actions); x.jobId in w.rows && Queued(w.rows[x.jobId].job, x.ws)
  {
    RunInOwnQueue(parse, actions);
  }

  /** A job is readable in at most one workspace. */
  ghost predicate FixesWorkspace(parse: Parser) {
    forall job, ws, ws' | parse(job, ws).Some? && parse(job, ws').Some? :: ws == ws'
  }

  /** All calls under one idempotency key carry the same recipient and the same digest, however often the job is retried. */
  lemma IdempotencyKeyFixesContent(parse: Parser, actions: seq<Action>, x: Attempt, y: Attempt)
    requires FixesWorkspace(parse) && Legal(parse, EMPTY, actions)
    requires x in Exec(parse, EMPTY, actions).log && y in Exec(parse, EMPTY, actions).log && x.jobId == y.jobId
    ensures x.ws == y.ws && x.recipient == y.recipient && x.digest == y.digest
  {
    RefusedNeverSent(parse, actions, x);
    RefusedNeverSent(parse, actions, y);
  }

  /** Done and failed are final: no stale claim can undo an acknowledgement or revive a failed job. */
  lemma {:induction false} TerminalIsStable(parse: Parser, w: World, actions: seq<Action>, id: string)
    requires Legal(parse, w, actions) && id in w.rows && (w.rows[id].status.Done? || w.rows[id].status.Failed?)
    ensures id in Exec(parse, w, actions).rows && Exec(parse, w, actions).rows[id] == w.rows[id]
  {
    if actions != [] {
      TerminalIsStable(parse, w, actions[..|actions| - 1], id);
    }
  }

  /** A step taken under the claim `token` that can settle its job. */
  predicate ActsFor(a: Action, token: nat) {
    (a.Check? || a.CheckRaised? || a.Send? || a.Acknowledge?) && a.token == token
  }

  lemma {:induction false} ClockOnlyAdvances(parse: Parser, w: World, actions: seq<Action>)
    requires Legal(parse, w, actions)
    ensures w.clock <= Exec(parse, w, actions).clock
  {
    if actions != [] {
      ClockOnlyAdvances(parse, w, actions[..|actions| - 1]);
    }
  }

  lemma LeaseStep(parse: Parser, w: World, a: Action, id: string)
    requires Enabled(w, a) && id in w.rows && w.rows[id].status.Doing? && w.clock < w.rows[id].leaseUntil && !ActsFor(a, w.rows[id].token)
    ensures id in Apply(parse, w, a).rows && Apply(parse, w, a).rows[id] == w.rows[id]
  {
  }

  /** Until its lease runs out a claimed job is nobody else's: only its own claim can change its row. */
  lemma {:induction false} LeaseIsExclusive(parse: Parser, w: World, actions: seq<Action>, id: string)
    requires Legal(parse, w, actions) && id in w.rows && w.rows[id].status.Doing?
    requires Exec(parse, w, actions).clock < w.rows[id].leaseUntil
    requires forall a | a in actions :: !ActsFor(a, w.rows[id].token)
    ensures id in Exec(parse, w, actions).rows && Exec(parse, w, actions).rows[id] == w.rows[id]
  {
    if actions != [] {
      var front, last := actions[..|actions| - 1], actions[|actions| - 1];
      var before := Exec(parse, w, front);
      ClockOnlyAdvances(parse, before, [last]);
      assert [last][..0] == [] && Exec(parse, before, [last]) == Apply(parse, before, last);
      LeaseIsExclusive(parse, w, front, id);
      LeaseStep(parse, before, last, id);
    }
  }

  /** A claim token that is no longer current changes nothing in the queue. */
  lemma StaleTokenIsHarmless(parse: Parser, w: World, a: Action)
    requires Enabled(w, a) && (a.Check? || a.CheckRaised? || a.Send? || a.Acknowledge?)
    requires var id := w.claims[a.token].job.jobId; id in w.rows ==> w.rows[id].token != a.token
    ensures Apply(parse, w, a).rows == w.rows
  {
  }
}
