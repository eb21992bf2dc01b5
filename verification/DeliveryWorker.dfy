/** `process_pending_jobs`, shown to be a run of the delivery protocol, and what the protocol means for real jobs. */
module DeliveryWorker {
  import opened Basics
  import opened Text
  import opened Platforms
  import opened Digests
  import opened Delivery
  import opened Codec
  import opened DeliveryProtocol

  datatype Verdict = Delivered | StaleClaim | Denied | Invalid | AuthorizationUnavailable | DeliveryFailed

  datatype Outcome = Outcome(jobId: string, verdict: Verdict)

  /** What happens to one job in one pass: the access answers or how they failed, and whether the adapter returns. */
  datatype Reply = Reply(access: Access, raised: Option<Cause>, returned: bool, final: bool)

  function RaisedVerdict(cause: Cause): Verdict {
    match cause
    case Forbidden => Denied
    case Malformed => Invalid
    case Unavailable => AuthorizationUnavailable
  }

  /** A claimed job as the queue hands it out. */
  datatype Held = Held(token: nat, job: Job)

  function ParserOf(p: Platform): Parser {
    (job: Job, ws: string) => ParseJob(p, job, ws)
  }

  lemma ArrivesSnoc(parse: Parser, w: World, trace: seq<Action>, now: World, a: Action)
    requires Arrives(parse, w, trace) == Some(now) && Enabled(now, a)
    ensures Arrives(parse, w, trace + [a]) == Some(Apply(parse, now, a))
  {
    assert (trace + [a])[..|trace|] == trace;
  }

  // ----- What becomes of a claimed job -----

  /** The adapter is called exactly for a job that parses, in a pass whose access checks answer and grant everything. */
  ghost predicate Delivers(parse: Parser, ws: string, job: Job, reply: Reply) {
    && parse(job, ws).Some? && reply.raised.None?
    && Granted(parse(job, ws).value.0, parse(job, ws).value.1, reply.access)
  }

  /** The calls of the adapter for one claimed job: one or none. */
  ghost function AttemptsFor(parse: Parser, ws: string, h: Held, reply: Reply): seq<Attempt> {
    if Delivers(parse, ws, h.job, reply) then
      var (recipient, digest) := parse(h.job, ws).value;
      [Attempt(h.token, ws, h.job.jobId, recipient, digest, reply.access, reply.returned)]
    else []
  }

  /**
   * The status a claimed job is given: done when the adapter returned; when it did not, or when access could not be
   * checked, pending for another try or, after the last, failed; failed when the job is malformed or access is denied.
   */
  ghost function StatusFor(parse: Parser, ws: string, job: Job, reply: Reply): Status {
    if Delivers(parse, ws, job, reply) && reply.returned then Done
    else if Delivers(parse, ws, job, reply) || (parse(job, ws).Some? && reply.raised == Some(Unavailable)) then
      if reply.final then Failed else Pending
    else Failed
  }

  /** What is reported of a claimed job; `current` says whether the claim still holds. */
  ghost function VerdictFor(parse: Parser, ws: string, job: Job, reply: Reply, current: bool): Verdict {
    var parsed := parse(job, ws);
    if parsed.None? || reply.raised == Some(Malformed) then Invalid
    else if reply.raised == Some(Unavailable) then AuthorizationUnavailable
    else if reply.raised == Some(Forbidden) || !reply.access.recipientOk(parsed.value.1.workspaceId, parsed.value.0) then Denied
    else if AllRefs(Items(parsed.value.1)) == [] then Invalid
    else if !Granted(parsed.value.0, parsed.value.1, reply.access) then Denied
    else if !reply.returned then DeliveryFailed
    else if current then Delivered else StaleClaim
  }

  predicate Current(rows: map<string, Row>, id: string, token: nat) {
    id in rows && rows[id].status.Doing? && rows[id].token == token
  }

  lemma NoSourcesMeansNoRefs(d: Digest)
    ensures Sources(d) == {} <==> AllRefs(Items(d)) == []
  {
    var refs := AllRefs(Items(d));
    if refs != [] {
      assert refs[0] in refs && refs[0].source in Sources(d);
    }
  }

  /** The check of a claimed job does not clear it. */
  ghost predicate Refuses(parse: Parser, ws: string, job: Job, access: Access) {
    parse(job, ws).Some? ==> Authorize(parse(job, ws).value.0, parse(job, ws).value.1, access.recipientOk, access.sourceOk).Some?
  }

  // ----- What becomes of a batch -----

  /** One outcome per job, in the order of `ids`, each what the job and its reply determine. */
  ghost predicate Verdicts(parse: Parser, ws: string, ids: seq<string>, before: map<string, Row>, replies: string -> Reply, done: seq<Outcome>) {
    && |done| <= |ids|
    && forall j | 0 <= j < |done| ::
         ids[j] in before && done[j] == Outcome(ids[j], VerdictFor(parse, ws, before[ids[j]].job, replies(ids[j]), true))
  }

  lemma VerdictsStep(parse: Parser, ws: string, ids: seq<string>, k: nat, before: map<string, Row>, replies: string -> Reply,
                     done: seq<Outcome>, more: seq<Outcome>)
    requires 0 < k == |done| + 1 <= |ids| && Verdicts(parse, ws, ids, before, replies, done) && ids[k - 1] in before
    requires more == done + [Outcome(ids[k - 1], VerdictFor(parse, ws, before[ids[k - 1]].job, replies(ids[k - 1]), true))]
    ensures Verdicts(parse, ws, ids, before, replies, more)
  {
  }

  /** The first `k` of the claimed jobs have the given status, under consecutive tokens and one lease; all other rows are as before. */
  ghost predicate RowsAt(ids: seq<string>, k: nat, status: Status, before: map<string, Row>, first: nat, until: int, rows: map<string, Row>) {
    && k <= |ids| && rows.Keys == before.Keys
    && (forall id | id in before && id !in ids[..k] :: rows[id] == before[id])
    && (forall j | 0 <= j < k :: ids[j] in before && rows[ids[j]] == Row(before[ids[j]].job, status, first + j, until))
  }

  lemma RowsAtStep(ids: seq<string>, i: nat, status: Status, before: map<string, Row>, first: nat, until: int, rows: map<string, Row>, row: Row)
    requires NoDup(ids) && i < |ids| && RowsAt(ids, i, status, before, first, until, rows) && ids[i] in before
    requires row == Row(before[ids[i]].job, status, first + i, until)
    ensures RowsAt(ids, i + 1, status, before, first, until, rows[ids[i] := row])
  {
    assert ids[..i + 1] == ids[..i] + [ids[i]];
    forall j | 0 <= j < i ensures ids[j] != ids[i] {
    }
  }

  /** The row of a claimed job, settled or still in progress. */
  ghost function RowFor(parse: Parser, ws: string, job: Job, reply: Reply, settled: bool, token: nat, until: int): Row {
    Row(job, if settled then StatusFor(parse, ws, job, reply) else Doing, token, until)
  }

  /** The first `k` claimed jobs are settled as they should be, the others still in progress; all other rows are as before. */
  ghost predicate Statuses(parse: Parser, ws: string, ids: seq<string>, k: nat, before: map<string, Row>, replies: string -> Reply,
                           first: nat, until: int, rows: map<string, Row>) {
    && k <= |ids| && rows.Keys == before.Keys
    && (forall id | id in before && id !in ids :: rows[id] == before[id])
    && forall j | 0 <= j < |ids| ::
         ids[j] in before && rows[ids[j]] == RowFor(parse, ws, before[ids[j]].job, replies(ids[j]), j < k, first + j, until)
  }

  lemma StatusesStart(parse: Parser, ws: string, ids: seq<string>, before: map<string, Row>, replies: string -> Reply,
                      first: nat, until: int, rows: map<string, Row>)
    requires RowsAt(ids, |ids|, Doing, before, first, until, rows)
    ensures Statuses(parse, ws, ids, 0, before, replies, first, until, rows)
  {
    assert ids[..|ids|] == ids;
  }

  /** Settling a job whose turn it is settles just that. */
  lemma StatusesStep(parse: Parser, ws: string, ids: seq<string>, k: nat, before: map<string, Row>, replies: string -> Reply,
                     first: nat, until: int, rows: map<string, Row>, rows': map<string, Row>)
    requires NoDup(ids) && 0 < k <= |ids| && ids[k - 1] in before && Statuses(parse, ws, ids, k - 1, before, replies, first, until, rows)
    requires rows' == Settle(rows, ids[k - 1], first + k - 1, StatusFor(parse, ws, before[ids[k - 1]].job, replies(ids[k - 1])))
    ensures Current(rows, ids[k - 1], first + k - 1)
    ensures Statuses(parse, ws, ids, k, before, replies, first, until, rows')
  {
    var i := k - 1;
    assert ids[i] in ids;
    forall j | 0 <= j < |ids| && j != i ensures ids[j] != ids[i] {
    }
  }

  /** The calls of the adapter for the first `k` jobs. */
  ghost function AllAttempts(parse: Parser, ws: string, ids: seq<string>, before: map<string, Row>, replies: string -> Reply, first: nat, k: nat): seq<Attempt>
    requires k <= |ids| && forall id | id in ids :: id in before
  {
    if k == 0 then []
    else
      assert ids[k - 1] in ids;
      AllAttempts(parse, ws, ids, before, replies, first, k - 1) +
      AttemptsFor(parse, ws, Held(first + k - 1, before[ids[k - 1]].job), replies(ids[k - 1]))
  }

  // ----- A batch, job by job -----

  /** The rows after the first `k` claims. */
  ghost function Claiming(ids: seq<string>, k: nat, before: map<string, Row>, first: nat, until: int): map<string, Row>
    requires k <= |ids| && forall id | id in ids :: id in before
  {
    if k == 0 then before
    else
      assert ids[k - 1] in ids;
      Claiming(ids, k - 1, before, first, until)[ids[k - 1] := Row(before[ids[k - 1]].job, Doing, first + k - 1, until)]
  }

  /** The rows, the calls of the adapter so far, and the outcomes of the batch. */
  datatype Batch = Batch(rows: map<string, Row>, log: seq<Attempt>, outcomes: seq<Outcome>)

  /** A batch after its first `k` jobs. */
  ghost function Working(parse: Parser, ws: string, ids: seq<string>, k: nat, before: map<string, Row>, log: seq<Attempt>,
                         replies: string -> Reply, first: nat, until: int): Batch
    requires k <= |ids| && forall id | id in ids :: id in before
  {
    if k == 0 then Batch(Claiming(ids, |ids|, before, first, until), log, [])
    else
      assert ids[k - 1] in ids;
      ProcessedOne(parse, ws, Working(parse, ws, ids, k - 1, before, log, replies, first, until),
                   Held(first + k - 1, before[ids[k - 1]].job), ids[k - 1], replies(ids[k - 1]))
  }

  ghost function ProcessedOne(parse: Parser, ws: string, b: Batch, h: Held, id: string, reply: Reply): Batch {
    Batch(Settle(b.rows, id, h.token, StatusFor(parse, ws, h.job, reply)),
          b.log + AttemptsFor(parse, ws, h, reply),
          b.outcomes + [Outcome(id, VerdictFor(parse, ws, h.job, reply, Current(b.rows, id, h.token)))])
  }

  lemma ClaimingStep(ids: seq<string>, i: nat, before: map<string, Row>, first: nat, until: int, rows: map<string, Row>, rows': map<string, Row>)
    requires i < |ids| && (forall id | id in ids :: id in before) && ids[i] in before
    requires rows == Claiming(ids, i, before, first, until) && rows' == rows[ids[i] := Row(before[ids[i]].job, Doing, first + i, until)]
    ensures rows' == Claiming(ids, i + 1, before, first, until)
  {
  }

  lemma WorkingStep(parse: Parser, ws: string, ids: seq<string>, i: nat, before: map<string, Row>, log: seq<Attempt>,
                    replies: string -> Reply, first: nat, until: int, b: Batch, b': Batch)
    requires i < |ids| && (forall id | id in ids :: id in before) && ids[i] in before
    requires b == Working(parse, ws, ids, i, before, log, replies, first, until)
    requires b' == ProcessedOne(parse, ws, b, Held(first + i, before[ids[i]].job), ids[i], replies(ids[i]))
    ensures b' == Working(parse, ws, ids, i + 1, before, log, replies, first, until)
  {
  }

  lemma {:induction false} ClaimingRows(ids: seq<string>, k: nat, before: map<string, Row>, first: nat, until: int)
    requires NoDup(ids) && k <= |ids| && forall id | id in ids :: id in before
    ensures RowsAt(ids, k, Doing, before, first, until, Claiming(ids, k, before, first, until))
  {
    if k > 0 {
      assert ids[k - 1] in ids;
      ClaimingRows(ids, k - 1, before, first, until);
      RowsAtStep(ids, k - 1, Doing, before, first, until, Claiming(ids, k - 1, before, first, until),
                 Row(before[ids[k - 1]].job, Doing, first + k - 1, until));
    }
  }

  /** `b` is what the first `k` jobs come to. */
  ghost predicate Accounts(parse: Parser, ws: string, ids: seq<string>, k: nat, before: map<string, Row>, log: seq<Attempt>,
                           replies: string -> Reply, first: nat, until: int, b: Batch)
    requires k <= |ids| && forall id | id in ids :: id in before
  {
    && |b.outcomes| == k && Verdicts(parse, ws, ids, before, replies, b.outcomes)
    && Statuses(parse, ws, ids, k, before, replies, first, until, b.rows)
    && b.log == log + AllAttempts(parse, ws, ids, before, replies, first, k)
  }

  lemma BatchStart(parse: Parser, ws: string, ids: seq<string>, before: map<string, Row>, log: seq<Attempt>,
                   replies: string -> Reply, first: nat, until: int)
    requires NoDup(ids) && forall id | id in ids :: id in before
    ensures Accounts(parse, ws, ids, 0, before, log, replies, first, until, Working(parse, ws, ids, 0, before, log, replies, first, until))
  {
    ClaimingRows(ids, |ids|, before, first, until);
    StatusesStart(parse, ws, ids, before, replies, first, until, Claiming(ids, |ids|, before, first, until));
  }

  lemma ProcessedOneExact(parse: Parser, ws: string, ids: seq<string>, k: nat, before: map<string, Row>, log: seq<Attempt>,
                          replies: string -> Reply, first: nat, until: int, b: Batch, b': Batch)
    requires NoDup(ids) && 0 < k <= |ids| && (forall id | id in ids :: id in before) && ids[k - 1] in before
    requires Accounts(parse, ws, ids, k - 1, before, log, replies, first, until, b)
    requires b' == ProcessedOne(parse, ws, b, Held(first + k - 1, before[ids[k - 1]].job), ids[k - 1], replies(ids[k - 1]))
    ensures Accounts(parse, ws, ids, k, before, log, replies, first, until, b')
  {
    StatusesStep(parse, ws, ids, k, before, replies, first, until, b.rows, b'.rows);
    VerdictsStep(parse, ws, ids, k, before, replies, b.outcomes, b'.outcomes);
  }

  /**
   * What a batch comes to, job by job: every job is called for exactly when its content, its
   * workspace and its access answers say so, in the order of the claims; its row gets the status
   * and its outcome the verdict they determine; no other row is touched.
   */
  lemma {:induction false} BatchExact(parse: Parser, ws: string, ids: seq<string>, k: nat, before: map<string, Row>, log: seq<Attempt>,
                                      replies: string -> Reply, first: nat, until: int)
    requires NoDup(ids) && k <= |ids| && forall id | id in ids :: id in before
    ensures Accounts(parse, ws, ids, k, before, log, replies, first, until, Working(parse, ws, ids, k, before, log, replies, first, until))
  {
    if k == 0 {
      BatchStart(parse, ws, ids, before, log, replies, first, until);
    } else {
      assert ids[k - 1] in ids;
      BatchExact(parse, ws, ids, k - 1, before, log, replies, first, until);
      ProcessedOneExact(parse, ws, ids, k, before, log, replies, first, until,
                        Working(parse, ws, ids, k - 1, before, log, replies, first, until),
                        Working(parse, ws, ids, k, before, log, replies, first, until));
    }
  }

  lemma HeldIs(ids: seq<string>, held: seq<Held>, i: nat, first: nat, before: map<string, Row>)
    requires i < |held| && HandedOut(held, ids, first, before) && forall id | id in before :: before[id].job.jobId == id
    ensures held[i] == Held(first + i, before[ids[i]].job) && held[i].job.jobId == ids[i]
  {
  }

  /** A job whose turn has not come is as it was. */
  lemma NotYetClaimed(ids: seq<string>, i: nat, before: map<string, Row>, first: nat, until: int)
    requires NoDup(ids) && i < |ids| && (forall id | id in ids :: id in before)
    ensures ids[i] in before && ids[i] in Claiming(ids, i, before, first, until)
    ensures Claiming(ids, i, before, first, until)[ids[i]] == before[ids[i]]
  {
    ClaimingRows(ids, i, before, first, until);
    assert ids[i] !in ids[..i] && ids[i] in ids;
  }

  /** Jobs are handed out in order, under consecutive tokens. */
  ghost predicate HandedOut(held: seq<Held>, ids: seq<string>, first: nat, before: map<string, Row>) {
    |held| <= |ids| && forall j | 0 <= j < |held| :: ids[j] in before && held[j] == Held(first + j, before[ids[j]].job)
  }

  /** The claims from the `i`-th on are held and unchecked. */
  ghost predicate StillHeld(held: seq<Held>, i: nat, claims: map<nat, Claim>, ws: string) {
    forall j | i <= j < |held| ::
      held[j].token in claims && claims[held[j].token] == Claim(ws, held[j].job, Claimed)
  }

  /** Where claiming stands: jobs handed out, claims held under tokens already given. */
  ghost predicate ClaimedSo(held: seq<Held>, ids: seq<string>, ws: string, first: nat, before: map<string, Row>, claims: map<nat, Claim>) {
    && HandedOut(held, ids, first, before) && StillHeld(held, 0, claims, ws)
    && forall t | t in claims :: t < first + |held|
  }

  lemma ClaimOneMore(held: seq<Held>, ids: seq<string>, ws: string, first: nat, before: map<string, Row>, claims: map<nat, Claim>,
                     h: Held, claims': map<nat, Claim>)
    requires ClaimedSo(held, ids, ws, first, before, claims) && |held| < |ids| && ids[|held|] in before
    requires h == Held(first + |held|, before[ids[|held|]].job) && claims' == claims[h.token := Claim(ws, h.job, Claimed)]
    ensures ClaimedSo(held + [h], ids, ws, first, before, claims')
  {
  }

  lemma ReleaseOne(held: seq<Held>, i: nat, ids: seq<string>, first: nat, before: map<string, Row>, claims: map<nat, Claim>, ws: string,
                   claims': map<nat, Claim>)
    requires HandedOut(held, ids, first, before) && i < |held| && StillHeld(held, i, claims, ws) && claims' == claims - {held[i].token}
    ensures StillHeld(held, i + 1, claims', ws)
  {
    assert held[i].token == first + i;
    forall j | i < j < |held|
      ensures held[j].token in claims'
      ensures claims'[held[j].token] == Claim(ws, held[j].job, Claimed)
    {
      assert held[j].token == first + j;
    }
  }

  /** Urgent jobs come first, and routine ones are asked for when those leave room. */
  function HandedFor(limit: int, urgentIds: seq<string>, routineIds: seq<string>): seq<string> {
    if |urgentIds| < limit then urgentIds + routineIds else urgentIds
  }

  class WorkerQueue {
    var rows: map<string, Row>
    var clock: int
    var nextToken: nat
    ghost var claims: map<nat, Claim>
    ghost var log: seq<Attempt>
    ghost var refused: set<nat>

    ghost function State(): World
      reads this
    {
      World(rows, clock, nextToken, claims, log, refused)
    }

    constructor ()
      ensures State() == EMPTY
    {
      rows, clock, nextToken := map[], 0, 0;
      claims, log, refused := map[], [], {};
    }

    /** One job of `queue.claim`: the job gets a fresh token and a lease. */
    method TakeJob(parse: Parser, ws: string, id: string, lease: nat, ghost w0: World, ghost before: seq<Action>)
      returns (h: Held, ghost trace: seq<Action>)
      requires Enabled(State(), Take(ws, id, lease))
      requires Arrives(parse, w0, before) == Some(State())
      modifies this
      ensures Arrives(parse, w0, trace) == Some(State())
      ensures h == Held(old(nextToken), old(rows[id].job))
      ensures rows == old(rows)[id := Row(h.job, Doing, h.token, clock + lease)]
      ensures claims == old(claims)[h.token := Claim(ws, h.job, Claimed)] && nextToken == old(nextToken) + 1
      ensures clock == old(clock) && log == old(log)
    {
      ArrivesSnoc(parse, w0, before, State(), Take(ws, id, lease));
      trace := before + [Take(ws, id, lease)];
      h := Held(nextToken, rows[id].job);
      claims := claims[nextToken := Claim(ws, rows[id].job, Claimed)];
      rows := rows[id := rows[id].(status := Doing, token := nextToken, leaseUntil := clock + lease)];
      nextToken := nextToken + 1;
    }

    /** `mark_done`, `mark_failed` and `retry_or_fail` act only for the current claim. */
    method Mark(id: string, token: nat, status: Status) returns (current: bool)
      modifies this`rows
      ensures rows == Settle(old(rows), id, token, status)
      ensures current <==> id in old(rows) && old(rows)[id].status.Doing? && old(rows)[id].token == token
    {
      current := id in rows && rows[id].status.Doing? && rows[id].token == token;
      if current {
        rows := rows[id := rows[id].(status := status)];
      }
    }

    /** An access callback raised. */
    method SettleRaised(parse: Parser, ws: string, h: Held, cause: Cause, final: bool, ghost w0: World, ghost before: seq<Action>)
      returns (ghost trace: seq<Action>)
      requires h.token in claims && claims[h.token] == Claim(ws, h.job, Claimed)
      requires Arrives(parse, w0, before) == Some(State())
      modifies this
      ensures Arrives(parse, w0, trace) == Some(State()) && claims == old(claims) - {h.token} && log == old(log) && clock == old(clock)
      ensures rows == Settle(old(rows), h.job.jobId, h.token, RaisedStatus(cause, final))
    {
      ArrivesSnoc(parse, w0, before, State(), CheckRaised(h.token, cause, final));
      trace := before + [CheckRaised(h.token, cause, final)];
      var _ := Mark(h.job.jobId, h.token, RaisedStatus(cause, final));
      claims := claims - {h.token};
      refused := if cause.Unavailable? then refused else refused + {h.token};
    }

    /** The job is malformed or access is denied. */
    method SettleRefused(parse: Parser, ws: string, h: Held, access: Access, ghost w0: World, ghost before: seq<Action>)
      returns (ghost trace: seq<Action>)
      requires h.token in claims && claims[h.token] == Claim(ws, h.job, Claimed)
      requires Refuses(parse, ws, h.job, access)
      requires Arrives(parse, w0, before) == Some(State())
      modifies this
      ensures Arrives(parse, w0, trace) == Some(State()) && claims == old(claims) - {h.token} && log == old(log) && clock == old(clock)
      ensures rows == Settle(old(rows), h.job.jobId, h.token, Failed)
    {
      ArrivesSnoc(parse, w0, before, State(), Check(h.token, access));
      trace := before + [Check(h.token, access)];
      var _ := Mark(h.job.jobId, h.token, Failed);
      claims, refused := claims - {h.token}, refused + {h.token};
    }

    /** The adapter call and the acknowledgement, after a check that passed. */
    method Deliver(parse: Parser, ws: string, h: Held, recipient: string, digest: Digest, reply: Reply, ghost w0: World, ghost before: seq<Action>)
      returns (verdict: Verdict, ghost trace: seq<Action>)
      requires h.token in claims && claims[h.token] == Claim(ws, h.job, Cleared(recipient, digest, reply.access))
      requires Arrives(parse, w0, before) == Some(State())
      modifies this
      ensures Arrives(parse, w0, trace) == Some(State()) && claims == old(claims) - {h.token} && clock == old(clock)
      ensures log == old(log) + [Attempt(h.token, ws, h.job.jobId, recipient, digest, reply.access, reply.returned)]
      ensures rows == Settle(old(rows), h.job.jobId, h.token, if reply.returned then Done else RetryStatus(reply.final))
      ensures verdict == if !reply.returned then DeliveryFailed
                         else if Current(old(rows), h.job.jobId, h.token) then Delivered else StaleClaim
    {
      ArrivesSnoc(parse, w0, before, State(), Send(h.token, reply.returned, reply.final));
      trace := before + [Send(h.token, reply.returned, reply.final)];
      log := log + [Attempt(h.token, ws, h.job.jobId, recipient, digest, reply.access, reply.returned)];
      if !reply.returned {
        var _ := Mark(h.job.jobId, h.token, RetryStatus(reply.final));
        claims := claims - {h.token};
        return DeliveryFailed, trace;
      }
      claims := claims[h.token := Claim(ws, h.job, Sent)];
      ArrivesSnoc(parse, w0, trace, State(), Acknowledge(h.token));
      trace := trace + [Acknowledge(h.token)];
      var acknowledged := Mark(h.job.jobId, h.token, Done);
      claims := claims - {h.token};
      return if acknowledged then Delivered else StaleClaim, trace;
    }

    /** The access check passed. */
    ghost method Clear(parse: Parser, ws: string, h: Held, recipient: string, digest: Digest, access: Access, w0: World, before: seq<Action>)
      returns (trace: seq<Action>)
      requires h.token in claims && claims[h.token] == Claim(ws, h.job, Claimed)
      requires parse(h.job, ws) == Some((recipient, digest)) && Authorize(recipient, digest, access.recipientOk, access.sourceOk).None?
      requires Arrives(parse, w0, before) == Some(State())
      modifies this`claims
      ensures Arrives(parse, w0, trace) == Some(State())
      ensures claims == old(claims)[h.token := Claim(ws, h.job, Cleared(recipient, digest, access))]
    {
      ArrivesSnoc(parse, w0, before, State(), Check(h.token, access));
      trace := before + [Check(h.token, access)];
      claims := claims[h.token := Claim(ws, h.job, Cleared(recipient, digest, access))];
    }

    /**
     * The body of the loop for one claimed job: parse it, check access, call the adapter, settle the job.
     * Everything follows from what the job parses to and what the callbacks did.
     */
    method ProcessJob(parse: Parser, ws: string, h: Held, reply: Reply, ghost w0: World, ghost before: seq<Action>)
      returns (verdict: Verdict, ghost trace: seq<Action>)
      requires h.token in claims && claims[h.token] == Claim(ws, h.job, Claimed)
      requires Arrives(parse, w0, before) == Some(State())
      modifies this
      ensures Arrives(parse, w0, trace) == Some(State()) && claims == old(claims) - {h.token} && clock == old(clock)
      ensures log == old(log) + AttemptsFor(parse, ws, h, reply)
      ensures rows == Settle(old(rows), h.job.jobId, h.token, StatusFor(parse, ws, h.job, reply))
      ensures verdict == VerdictFor(parse, ws, h.job, reply, Current(old(rows), h.job.jobId, h.token))
    {
      var parsed := parse(h.job, ws);
      if parsed.None? {
        trace := SettleRefused(parse, ws, h, reply.access, w0, before);
        return Invalid, trace;
      }
      if reply.raised.Some? {
        trace := SettleRaised(parse, ws, h, reply.raised.value, reply.final, w0, before);
        return RaisedVerdict(reply.raised.value), trace;
      }
      var recipient, digest := parsed.value.0, parsed.value.1;
      var fault := Authorize(recipient, digest, reply.access.recipientOk, reply.access.sourceOk);
      AuthorizeMeansGranted(recipient, digest, reply.access);
      NoSourcesMeansNoRefs(digest);
      if fault.Some? {
        trace := SettleRefused(parse, ws, h, reply.access, w0, before);
        return if fault.value.NoSources? then Invalid else Denied, trace;
      }
      trace := Clear(parse, ws, h, recipient, digest, reply.access, w0, before);
      verdict, trace := Deliver(parse, ws, h, recipient, digest, reply, w0, trace);
    }

    /** Claim the jobs the queue hands out, in order. */
    method ClaimAll(parse: Parser, ws: string, ids: seq<string>, lease: nat, ghost w0: World, ghost before: seq<Action>)
      returns (held: seq<Held>, ghost trace: seq<Action>)
      requires NoDup(ids) && forall id | id in ids :: id in rows && Claimable(rows[id], clock) && InWorkspace(rows[id].job, ws)
      requires forall t | t in claims :: t < nextToken
      requires Arrives(parse, w0, before) == Some(State())
      modifies this
      ensures Arrives(parse, w0, trace) == Some(State())
      ensures |held| == |ids| && ClaimedSo(held, ids, ws, old(nextToken), old(rows), claims)
      ensures clock == old(clock) && log == old(log)
      ensures rows == Claiming(ids, |ids|, old(rows), old(nextToken), clock + lease)
    {
      held, trace := [], before;
      for i := 0 to |ids|
        invariant Arrives(parse, w0, trace) == Some(State())
        invariant nextToken == old(nextToken) + i && clock == old(clock) && log == old(log)
        invariant |held| == i && ClaimedSo(held, ids, ws, old(nextToken), old(rows), claims)
        invariant rows == Claiming(ids, i, old(rows), old(nextToken), clock + lease)
      {
        assert ids[i] in ids;
        held, trace := ClaimNext(parse, ws, ids, lease, held, w0, trace, old(rows), old(nextToken));
      }
    }

    method ClaimNext(parse: Parser, ws: string, ids: seq<string>, lease: nat, held: seq<Held>, ghost w0: World, ghost before: seq<Action>,
                     ghost rows0: map<string, Row>, ghost first: nat)
      returns (more: seq<Held>, ghost trace: seq<Action>)
      requires |held| < |ids| && NoDup(ids) && (forall id | id in ids :: id in rows0) && nextToken == first + |held|
      requires ids[|held|] in rows0 && Claimable(rows0[ids[|held|]], clock) && InWorkspace(rows0[ids[|held|]].job, ws)
      requires ClaimedSo(held, ids, ws, first, rows0, claims) && rows == Claiming(ids, |held|, rows0, first, clock + lease)
      requires Arrives(parse, w0, before) == Some(State())
      modifies this
      ensures Arrives(parse, w0, trace) == Some(State())
      ensures |more| == |held| + 1 && ClaimedSo(more, ids, ws, first, rows0, claims)
      ensures rows == Claiming(ids, |held| + 1, rows0, first, clock + lease)
      ensures nextToken == old(nextToken) + 1 && clock == old(clock) && log == old(log)
    {
      NotYetClaimed(ids, |held|, rows0, first, clock + lease);
      var h;
      h, trace := TakeJob(parse, ws, ids[|held|], lease, w0, before);
      ClaimOneMore(held, ids, ws, first, rows0, old(claims), h, claims);
      ClaimingStep(ids, |held|, rows0, first, clock + lease, old(rows), rows);
      more := held + [h];
    }

    /** Claim what the queue hands out and run every claimed job through the loop. */
    method ClaimAndProcess(parse: Parser, ws: string, ids: seq<string>, lease: nat, replies: string -> Reply)
      returns (done: seq<Outcome>, ghost trace: seq<Action>)
      requires NoDup(ids) && forall id | id in ids :: id in rows && Claimable(rows[id], clock) && InWorkspace(rows[id].job, ws)
      requires forall t | t in claims :: t < nextToken
      requires forall id | id in rows :: rows[id].job.jobId == id
      modifies this
      ensures Arrives(parse, old(State()), trace) == Some(State())
      ensures Batch(rows, log, done) == Working(parse, ws, ids, |ids|, old(rows), old(log), replies, old(nextToken), old(clock) + lease)
    {
      var held;
      held, trace := ClaimAll(parse, ws, ids, lease, old(State()), []);
      done, trace := ProcessAll(parse, ws, ids, held, replies, old(State()), trace, old(rows), old(nextToken), old(clock) + lease);
    }

    /**
     * `process_pending_jobs`. `urgentIds` and `routineIds` are what the queue hands out for the two
     * namespaces; routine jobs are asked for only when urgent ones leave room. The call is a run of
     * the protocol, and what becomes of each claimed job, urgent ones first, is determined: the calls
     * of the adapter, the status of its row, and the verdict reported.
     */
    method ProcessPendingJobs(parse: Parser, workspace: string, limit: int, lease: int, urgentIds: seq<string>, routineIds: seq<string>,
                              replies: string -> Reply)
      returns (outcomes: Option<seq<Outcome>>, ghost trace: seq<Action>)
      requires |urgentIds| <= NatOf(limit) && |routineIds| <= NatOf(limit - |urgentIds|)
      requires NoDup(HandedFor(limit, urgentIds, routineIds)) && (forall t | t in claims :: t < nextToken)
      requires Required(workspace).Some? ==>
                 forall id | id in HandedFor(limit, urgentIds, routineIds) ::
                   id in rows && Claimable(rows[id], clock) && InWorkspace(rows[id].job, Required(workspace).value)
      requires forall id | id in rows :: rows[id].job.jobId == id
      modifies this
      ensures Arrives(parse, old(State()), trace) == Some(State())
      ensures outcomes.None? <==> Required(workspace).None? || limit < 1 || lease < 1
      ensures outcomes.None? ==> State() == old(State())
      ensures outcomes.Some? ==>
                var ids, ws := HandedFor(limit, urgentIds, routineIds), Required(workspace).value;
                && |ids| <= limit && ids == urgentIds + routineIds && (forall id | id in ids :: id in old(rows))
                && Batch(rows, log, outcomes.value) ==
                   Working(parse, ws, ids, |ids|, old(rows), old(log), replies, old(nextToken), old(clock) + lease)
    {
      trace := [];
      var required := Required(workspace);
      if required.None? || limit < 1 || lease < 1 {
        return None, trace;
      }
      var done;
      done, trace := ClaimAndProcess(parse, required.value, HandedFor(limit, urgentIds, routineIds), lease, replies);
      return Some(done), trace;
    }

    /** The loop of `process_pending_jobs` over freshly claimed jobs. */
    method ProcessAll(parse: Parser, ws: string, ids: seq<string>, held: seq<Held>, replies: string -> Reply,
                      ghost w0: World, ghost before: seq<Action>, ghost rows0: map<string, Row>, ghost first: nat, ghost until: int)
      returns (done: seq<Outcome>, ghost trace: seq<Action>)
      requires |held| == |ids| && HandedOut(held, ids, first, rows0) && StillHeld(held, 0, claims, ws)
      requires (forall id | id in ids :: id in rows0) && forall id | id in rows0 :: rows0[id].job.jobId == id
      requires rows == Claiming(ids, |ids|, rows0, first, until)
      requires Arrives(parse, w0, before) == Some(State())
      modifies this
      ensures Arrives(parse, w0, trace) == Some(State())
      ensures Batch(rows, log, done) == Working(parse, ws, ids, |ids|, rows0, old(log), replies, first, until)
    {
      done, trace := [], before;
      for i := 0 to |held|
        invariant Arrives(parse, w0, trace) == Some(State())
        invariant Batch(rows, log, done) == Working(parse, ws, ids, i, rows0, old(log), replies, first, until)
        invariant StillHeld(held, i, claims, ws)
      {
        var h := held[i];
        HeldIs(ids, held, i, first, rows0);
        ghost var claims0, b := claims, Batch(rows, log, done);
        var verdict;
        verdict, trace := ProcessJob(parse, ws, h, replies(h.job.jobId), w0, trace);
        ReleaseOne(held, i, ids, first, rows0, claims0, ws, claims);
        done := done + [Outcome(h.job.jobId, verdict)];
        WorkingStep(parse, ws, ids, i, rows0, old(log), replies, first, until, b, Batch(rows, log, done));
      }
    }
  }

  // ----- What is enqueued -----

  ghost predicate AllFit(p: Platform, recipient: string, parts: seq<Part>) {
    forall part | part in parts :: p.size(JObj(Payload(p, recipient, part))) <= MAX_PAYLOAD_BYTES
  }

  lemma FitExactly(p: Platform, recipient: string, d: Digest)
    ensures AllFit(p, recipient, Parts(p, d)) <==> forall j | j in JobsFor(p, recipient, d) :: p.size(JObj(j.payload)) <= MAX_PAYLOAD_BYTES
  {
    var parts, jobs := Parts(p, d), JobsFor(p, recipient, d);
    forall i | 0 <= i < |parts| ensures jobs[i].payload == Payload(p, recipient, parts[i]) {
      assert jobs[i] == JobFor(p, recipient, parts[i]);
    }
    assert (forall j | j in jobs :: p.size(JObj(j.payload)) <= MAX_PAYLOAD_BYTES) <==>
           (forall i | 0 <= i < |jobs| :: p.size(JObj(jobs[i].payload)) <= MAX_PAYLOAD_BYTES);
    assert AllFit(p, recipient, parts) <==> forall i | 0 <= i < |parts| :: p.size(JObj(Payload(p, recipient, parts[i]))) <= MAX_PAYLOAD_BYTES;
  }

  /** A digest is enqueued exactly when access to it is granted, the arguments are in order and every payload fits. */
  lemma PrepareExact(p: Platform, recipient: string, d: Digest, access: Access, maxRetries: int)
    ensures var prepared := Prepare(p, recipient, d, access.recipientOk, access.sourceOk, maxRetries);
            && (prepared.Ok? <==> && Required(recipient).Some? && maxRetries >= 1 && Granted(Required(recipient).value, d, access)
                                  && AllFit(p, Required(recipient).value, Parts(p, d)))
            && (prepared.Ok? ==> prepared.value == JobsFor(p, Required(recipient).value, d))
  {
    if Required(recipient).Some? {
      AuthorizeMeansGranted(Required(recipient).value, d, access);
      FitExactly(p, Required(recipient).value, d);
    }
  }

  // ----- What the protocol means for jobs the scheduler wrote -----

  lemma RealParserFixesWorkspace(p: Platform)
    ensures FixesWorkspace(ParserOf(p))
  {
    forall job, ws, ws' | ParseJob(p, job, ws).Some? && ParseJob(p, job, ws').Some? ensures ws == ws' {
      ParseNamesWorkspace(p, job, ws);
      ParseNamesWorkspace(p, job, ws');
    }
  }

  lemma ParseNamesWorkspace(p: Platform, job: Job, ws: string)
    requires ParseJob(p, job, ws).Some?
    ensures ws == StrOrEmpty(p, Get(job.payload, "workspace_id"))
  {
  }

  /** End to end: whatever is delivered under the id of a job written for a clean part is that part, to that recipient. */
  lemma DeliveredIsWhatWasWritten(p: Platform, actions: seq<Action>, x: Attempt, recipient: string, part: Part)
    requires p.TimesSurvive() && ValidDigest(part.digest) && WellSplit(part) && CleanDigest(part.digest) && Clean(recipient)
    requires Legal(ParserOf(p), EMPTY, actions) && x in Exec(ParserOf(p), EMPTY, actions).log
    requires var rows := Exec(ParserOf(p), EMPTY, actions).rows; x.jobId in rows && rows[x.jobId].job == JobFor(p, recipient, part)
    ensures x.recipient == recipient && x.digest == part.digest && x.ws == part.digest.workspaceId
  {
    RefusedNeverSent(ParserOf(p), actions, x);
    JobRoundTrip(p, recipient, part);
    ParseNamesWorkspace(p, JobFor(p, recipient, part), x.ws);
    ParseNamesWorkspace(p, JobFor(p, recipient, part), part.digest.workspaceId);
  }
}
