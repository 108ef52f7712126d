/** What the job table and its event log add up to over every run. */
module JobAccounting {
  import opened Common
  import opened ReviewJobs
  import Registry

  // ---- events -----------------------------------------------------------------------------

  function Acknowledgements(log: seq<Entry>, id: JobId): nat {
    if log == [] then 0
    else
      var e := log[|log| - 1];
      Acknowledgements(log[..|log| - 1], id) + (if e.Acknowledged? && e.job == id then 1 else 0)
  }

  function Requeues(log: seq<Entry>, id: JobId): nat {
    if log == [] then 0
    else
      var e := log[|log| - 1];
      Requeues(log[..|log| - 1], id) + (if e.Requeued? && e.job == id then 1 else 0)
  }

  /** Retry-scheduled events after the last requeue of `id`. */
  function RetriesSinceRequeue(log: seq<Entry>, id: JobId): nat {
    if log == [] then 0
    else
      var e := log[|log| - 1];
      if e.Requeued? && e.job == id then 0
      else RetriesSinceRequeue(log[..|log| - 1], id) + (if e.RetryScheduled? && e.job == id then 1 else 0)
  }

  ghost predicate RowAccounted(db: Db, id: JobId)
    requires id in db.jobs
  {
    var job := db.jobs[id];
    && Acknowledgements(db.log, id) + (if Active(job) then 1 else 0) <= 1 + Requeues(db.log, id)
    && RetriesSinceRequeue(db.log, id) + (if job.status == Running then 1 else 0) <= job.attempts
    && RetriesSinceRequeue(db.log, id) <= MAX_ATTEMPTS - 1
  }

  ghost predicate NoEvents(log: seq<Entry>, id: JobId) {
    Acknowledgements(log, id) == Requeues(log, id) == RetriesSinceRequeue(log, id) == 0
  }

  ghost predicate Balanced(db: Db, id: JobId) {
    if id in db.jobs then RowAccounted(db, id) else NoEvents(db.log, id)
  }

  ghost predicate Accounted(db: Db) {
    forall id: JobId :: Balanced(db, id)
  }

  lemma CountsAppend(log: seq<Entry>, e: Entry, id: JobId)
    ensures Acknowledgements(log + [e], id) ==
              Acknowledgements(log, id) + (if e.Acknowledged? && e.job == id then 1 else 0)
    ensures Requeues(log + [e], id) == Requeues(log, id) + (if e.Requeued? && e.job == id then 1 else 0)
    ensures RetriesSinceRequeue(log + [e], id) ==
              if e.Requeued? && e.job == id then 0
              else RetriesSinceRequeue(log, id) + (if e.RetryScheduled? && e.job == id then 1 else 0)
  {
    assert (log + [e])[..|log|] == log;
  }

  lemma QuietOpKeepsBalanced(db: Db, op: Op, id: JobId)
    requires Balanced(db, id) && Fresh(db, op) && Apply(db, op).log == db.log
    ensures Balanced(Apply(db, op), id)
  {
  }

  lemma EnqueueKeepsBalanced(db: Db, op: Op, id: JobId)
    requires Balanced(db, id) && Fresh(db, op) && op.DoEnqueue? && Apply(db, op).log != db.log
    ensures Balanced(Apply(db, op), id)
  {
    CountsAppend(db.log, Enqueued(op.newId, op.identity.value.pr), id);
  }

  lemma ClaimKeepsBalanced(db: Db, op: Op, id: JobId)
    requires Balanced(db, id) && (op.DoWorkerClaim? || op.DoRunnerClaim?) && Apply(db, op).log != db.log
    ensures Balanced(Apply(db, op), id)
  {
    CountsAppend(db.log, if op.DoWorkerClaim? then ClaimedByWorker(op.pick, op.worker)
                 else ClaimedByRunner(op.pick, op.runner, op.token), id);
  }

  lemma FailKeepsBalanced(db: Db, op: Op, id: JobId)
    requires Balanced(db, id) && op.DoWorkerFail? && Apply(db, op).log != db.log
    ensures Balanced(Apply(db, op), id)
  {
    CountsAppend(db.log, if db.jobs[op.job].attempts >= MAX_ATTEMPTS then DeadLettered(op.job)
                 else RetryScheduled(op.job), id);
  }

  lemma AcknowledgeKeepsBalanced(db: Db, op: Op, id: JobId)
    requires Balanced(db, id) && op.DoAcknowledge? && Apply(db, op).log != db.log
    ensures Balanced(Apply(db, op), id)
  {
    CountsAppend(db.log, Acknowledged(op.job, op.runner, op.token, op.ack.succeeded), id);
  }

  lemma RequeueKeepsBalanced(db: Db, op: Op, id: JobId)
    requires Balanced(db, id) && op.DoRequeue? && Apply(db, op).log != db.log
    ensures Balanced(Apply(db, op), id)
  {
    CountsAppend(db.log, Requeued(op.job), id);
  }

  lemma ApplyKeepsBalanced(db: Db, op: Op, id: JobId)
    requires Balanced(db, id) && Fresh(db, op)
    ensures Balanced(Apply(db, op), id)
  {
    if Apply(db, op).log == db.log {
      QuietOpKeepsBalanced(db, op, id);
    } else {
      match op
      case DoEnqueue(_, _, _, _) => EnqueueKeepsBalanced(db, op, id);
      case DoWorkerClaim(_, _) => ClaimKeepsBalanced(db, op, id);
      case DoRunnerClaim(_, _, _) => ClaimKeepsBalanced(db, op, id);
      case DoWorkerFail(_, _, _) => FailKeepsBalanced(db, op, id);
      case DoAcknowledge(_, _, _, _) => AcknowledgeKeepsBalanced(db, op, id);
      case DoRequeue(_) => RequeueKeepsBalanced(db, op, id);
      case _ =>
    }
  }

  lemma ApplyKeepsAccounted(db: Db, op: Op)
    requires Accounted(db) && Fresh(db, op)
    ensures Accounted(Apply(db, op))
  {
    forall id: JobId
      ensures Balanced(Apply(db, op), id)
    {
      ApplyKeepsBalanced(db, op, id);
    }
  }

  lemma {:induction false} RunKeepsAccounted(db: Db, ops: seq<Op>)
    requires Accounted(db) && Legal(db, ops)
    ensures Accounted(Run(db, ops))
    decreases ops
  {
    if ops != [] {
      ApplyKeepsAccounted(db, ops[0]);
      RunKeepsAccounted(Apply(db, ops[0]), ops[1..]);
    }
  }

  /** Over every run: a job's acknowledged events, plus one while it is pending or running, never
      exceed one plus its requeues; and since its last requeue it was retried at most
      `MAX_ATTEMPTS - 1` times. */
  lemma EventAccounting(start: Db, ops: seq<Op>, id: JobId)
    requires Initial(start) && Legal(start, ops)
    ensures var db := Run(start, ops);
            && Acknowledgements(db.log, id) + (if id in db.jobs && Active(db.jobs[id]) then 1 else 0)
               <= 1 + Requeues(db.log, id)
            && RetriesSinceRequeue(db.log, id) <= MAX_ATTEMPTS - 1
  {
    assert forall any: JobId :: NoEvents(start.log, any);
    RunKeepsAccounted(start, ops);
    assert Balanced(Run(start, ops), id);
  }

  /** Claim, let the lease run out, claim again: `n` takeovers in a row. */
  function Takeovers(n: nat): seq<Op> {
    if n == 0 then [] else [DoWorkerClaim("worker", "job"), Tick(300)] + Takeovers(n - 1)
  }

  lemma {:induction false} TakeoversRaiseAttempts(db: Db, n: nat)
    requires WorkerEligible(db, "job")
    ensures Legal(db, Takeovers(n))
    ensures WorkerEligible(Run(db, Takeovers(n)), "job")
    ensures Run(db, Takeovers(n)).jobs["job"].attempts == db.jobs["job"].attempts + n
    ensures forall op | op in Takeovers(n) :: !op.DoRequeue?
    decreases n
  {
    if n != 0 {
      var round := [DoWorkerClaim("worker", "job"), Tick(300)];
      var mid := Apply(db, round[0]);
      var next := Apply(mid, round[1]);
      assert round == [round[0]] + [round[1]];
      assert Run(db, round) == next by {
        assert round[1..] == [round[1]] && [round[1]][1..] == [];
      }
      assert Legal(db, round) by {
        assert round[1..] == [round[1]] && [round[1]][1..] == [];
      }
      TakeoversRaiseAttempts(next, n - 1);
      RunAppend(db, round, Takeovers(n - 1));
    }
  }

  /** `attempts` has no bound: lease takeovers raise it past any number without one requeue. */
  lemma AttemptsUnbounded(start: Db, n: nat)
    requires Initial(start)
    ensures exists ops: seq<Op> ::
              && Legal(start, ops)
              && (forall op | op in ops :: !op.DoRequeue?)
              && "job" in Run(start, ops).jobs
              && Run(start, ops).jobs["job"].attempts == n
  {
    var first := [DoEnqueue("delivery", true, None, "job")];
    var db := Apply(start, first[0]);
    assert Run(start, first) == db && Legal(start, first) by {
      assert first[1..] == [];
    }
    TakeoversRaiseAttempts(db, n);
    RunAppend(start, first, Takeovers(n));
    assert forall op | op in first + Takeovers(n) :: !op.DoRequeue?;
  }

  // ---- one active job per pull request ----------------------------------------------------

  /** The job most recently enqueued for a pull request. */
  function LatestEnqueued(log: seq<Entry>, pr: PullRequest): Option<JobId> {
    if log == [] then None
    else
      var e := log[|log| - 1];
      if e.Enqueued? && e.pr == pr then Some(e.job) else LatestEnqueued(log[..|log| - 1], pr)
  }

  lemma LatestEnqueuedAppend(log: seq<Entry>, e: Entry, pr: PullRequest)
    ensures LatestEnqueued(log + [e], pr) == if e.Enqueued? && e.pr == pr then Some(e.job) else LatestEnqueued(log, pr)
  {
    assert (log + [e])[..|log|] == log;
  }

  ghost predicate LatestIfActive(db: Db, id: JobId)
    requires id in db.jobs
  {
    var job := db.jobs[id];
    Active(job) && job.target.Some? ==> LatestEnqueued(db.log, job.target.value.pr) == Some(id)
  }

  /** Every pending or running job is the most recently enqueued one of its pull request. */
  ghost predicate OnlyLatestActive(db: Db) {
    forall id | id in db.jobs :: LatestIfActive(db, id)
  }

  ghost predicate AtMostOneActive(db: Db) {
    forall a, b | a in db.jobs && b in db.jobs && Active(db.jobs[a]) && Active(db.jobs[b])
                  && db.jobs[a].target.Some? && ForPullRequest(db.jobs[b], db.jobs[a].target.value.pr) :: a == b
  }

  lemma EnqueueKeepsLatest(db: Db, op: Op, id: JobId)
    requires (id in db.jobs ==> LatestIfActive(db, id)) && op.DoEnqueue? && id in Apply(db, op).jobs
    ensures LatestIfActive(Apply(db, op), id)
  {
    var db' := Apply(db, op);
    var target := db'.jobs[id].target;
    if target.Some? && db'.log != db.log {
      LatestEnqueuedAppend(db.log, Enqueued(op.newId, op.identity.value.pr), target.value.pr);
    }
  }

  /** Every other transaction but a requeue activates nothing that was inactive and keeps its target. */
  lemma NothingActivated(db: Db, op: Op, id: JobId)
    requires !op.DoRequeue? && !op.DoEnqueue? && id in Apply(db, op).jobs && Active(Apply(db, op).jobs[id])
    ensures id in db.jobs && Active(db.jobs[id]) && Apply(db, op).jobs[id].target == db.jobs[id].target
  {
  }

  /** Only an enqueue changes which job of a pull request is the latest. */
  lemma LatestUnchanged(db: Db, op: Op, pr: PullRequest)
    requires !op.DoEnqueue?
    ensures LatestEnqueued(Apply(db, op).log, pr) == LatestEnqueued(db.log, pr)
  {
    var log' := Apply(db, op).log;
    if log' != db.log {
      var e := OneQuietEntry(db, op);
      LatestEnqueuedAppend(db.log, e, pr);
    }
  }

  lemma OneQuietEntry(db: Db, op: Op) returns (e: Entry)
    requires !op.DoEnqueue? && Apply(db, op).log != db.log
    ensures !e.Enqueued? && Apply(db, op).log == db.log + [e]
  {
    match op
    case DoWorkerClaim(worker, pick) => e := ClaimedByWorker(pick, worker);
    case DoRunnerClaim(runner, token, pick) => e := ClaimedByRunner(pick, runner, token);
    case DoWorkerFail(job, _, _) =>
      e := if db.jobs[job].attempts >= MAX_ATTEMPTS then DeadLettered(job) else RetryScheduled(job);
    case DoAcknowledge(job, runner, token, ack) => e := Acknowledged(job, runner, token, ack.succeeded);
    case DoRequeue(job) => e := Requeued(job);
  }

  lemma OtherOpsKeepLatest(db: Db, op: Op, id: JobId)
    requires (id in db.jobs ==> LatestIfActive(db, id)) && !op.DoRequeue? && !op.DoEnqueue? && id in Apply(db, op).jobs
    ensures LatestIfActive(Apply(db, op), id)
  {
    if Active(Apply(db, op).jobs[id]) && Apply(db, op).jobs[id].target.Some? {
      NothingActivated(db, op, id);
      LatestUnchanged(db, op, db.jobs[id].target.value.pr);
    }
  }

  lemma ApplyKeepsOnlyLatest(db: Db, op: Op)
    requires OnlyLatestActive(db) && !op.DoRequeue?
    ensures OnlyLatestActive(Apply(db, op))
  {
    forall id | id in Apply(db, op).jobs
      ensures LatestIfActive(Apply(db, op), id)
    {
      assert id in db.jobs ==> LatestIfActive(db, id);
      if op.DoEnqueue? {
        EnqueueKeepsLatest(db, op, id);
      } else {
        OtherOpsKeepLatest(db, op, id);
      }
    }
  }

  lemma {:induction false} RunKeepsOnlyLatest(db: Db, ops: seq<Op>)
    requires OnlyLatestActive(db)
    requires forall op | op in ops :: !op.DoRequeue?
    ensures OnlyLatestActive(Run(db, ops))
    decreases ops
  {
    if ops != [] {
      ApplyKeepsOnlyLatest(db, ops[0]);
      RunKeepsOnlyLatest(Apply(db, ops[0]), ops[1..]);
    }
  }

  /** Without manual requeues, each pull request has at most one pending or running job, and it is
      the one enqueued last. */
  lemma OneActiveJob(start: Db, ops: seq<Op>, pr: PullRequest, a: JobId, b: JobId)
    requires Initial(start)
    requires forall op | op in ops :: !op.DoRequeue?
    requires a in Run(start, ops).jobs && Active(Run(start, ops).jobs[a]) && ForPullRequest(Run(start, ops).jobs[a], pr)
    requires b in Run(start, ops).jobs && Active(Run(start, ops).jobs[b]) && ForPullRequest(Run(start, ops).jobs[b], pr)
    ensures a == b && LatestEnqueued(Run(start, ops).log, pr) == Some(a)
  {
    RunKeepsOnlyLatest(start, ops);
    assert LatestIfActive(Run(start, ops), a) && LatestIfActive(Run(start, ops), b);
  }

  lemma OnlyLatestMeansOne(db: Db)
    requires OnlyLatestActive(db)
    ensures AtMostOneActive(db)
  {
    forall a, b | a in db.jobs && b in db.jobs && Active(db.jobs[a]) && Active(db.jobs[b])
                  && db.jobs[a].target.Some? && ForPullRequest(db.jobs[b], db.jobs[a].target.value.pr)
      ensures a == b
    {
      assert LatestIfActive(db, a) && LatestIfActive(db, b);
    }
  }

  /** Some other job of the pull request is pending or running. */
  predicate OtherActive(db: Db, id: JobId)
    requires id in db.jobs
  {
    var target := db.jobs[id].target;
    target.Some? && exists other | other in db.jobs && other != id ::
      Active(db.jobs[other]) && ForPullRequest(db.jobs[other], target.value.pr)
  }

  predicate LatestOfItsOwn(db: Db, id: JobId)
    requires id in db.jobs
  {
    db.jobs[id].target.Some? ==> LatestEnqueued(db.log, db.jobs[id].target.value.pr) == Some(id)
  }

  /** A requeue that goes through beside another active job of the pull request. */
  predicate Crowds(db: Db, op: Op) { op.DoRequeue? && Requeue(db, op.job).1 && OtherActive(db, op.job) }

  /** A requeue that goes through for a job that is not the latest of its pull request. */
  predicate Revives(db: Db, op: Op) { op.DoRequeue? && Requeue(db, op.job).1 && !LatestOfItsOwn(db, op.job) }

  lemma RequeuedRow(db: Db, id: JobId)
    requires Requeue(db, id).1
    ensures var db' := Requeue(db, id).0;
            && id in db.jobs && !Active(db.jobs[id])
            && db'.jobs.Keys == db.jobs.Keys && Active(db'.jobs[id]) && db'.jobs[id].target == db.jobs[id].target
            && (forall other | other in db.jobs && other != id :: db'.jobs[other] == db.jobs[other])
  {
  }

  /** When a requeue goes through, it leaves at most one active job exactly when no other job of the pull
      request is active; and the latest one only, exactly when the requeued job is the latest. */
  lemma RequeueExactly(db: Db, id: JobId)
    requires AtMostOneActive(db) && Requeue(db, id).1
    ensures AtMostOneActive(Requeue(db, id).0) <==> !OtherActive(db, id)
    ensures OnlyLatestActive(db) ==> (OnlyLatestActive(Requeue(db, id).0) <==> LatestOfItsOwn(db, id))
  {
    RequeuedRow(db, id);
    RequeueCrowdsExactly(db, Requeue(db, id).0, id);
    if OnlyLatestActive(db) {
      RequeueRevivesExactly(db, id);
    }
  }

  lemma RequeueCrowdsExactly(db: Db, db': Db, id: JobId)
    requires AtMostOneActive(db) && id in db.jobs && !Active(db.jobs[id])
    requires db'.jobs.Keys == db.jobs.Keys && Active(db'.jobs[id]) && db'.jobs[id].target == db.jobs[id].target
    requires forall other | other in db.jobs && other != id :: db'.jobs[other] == db.jobs[other]
    ensures AtMostOneActive(db') <==> !OtherActive(db, id)
  {
    if OtherActive(db, id) {
      var other :| other in db.jobs && other != id && Active(db.jobs[other])
                   && ForPullRequest(db.jobs[other], db.jobs[id].target.value.pr);
      assert Active(db'.jobs[id]) && Active(db'.jobs[other]);
    } else {
      forall a, b | a in db'.jobs && b in db'.jobs && Active(db'.jobs[a]) && Active(db'.jobs[b])
                    && db'.jobs[a].target.Some? && ForPullRequest(db'.jobs[b], db'.jobs[a].target.value.pr)
        ensures a == b
      {
        assert a == id ==> !(b != id);
        assert b == id ==> !(a != id);
      }
    }
  }

  lemma RequeueRevivesExactly(db: Db, id: JobId)
    requires OnlyLatestActive(db) && Requeue(db, id).1
    ensures OnlyLatestActive(Requeue(db, id).0) <==> LatestOfItsOwn(db, id)
  {
    var db' := Requeue(db, id).0;
    RequeuedRow(db, id);
    forall pr
      ensures LatestEnqueued(db'.log, pr) == LatestEnqueued(db.log, pr)
    {
      LatestEnqueuedAppend(db.log, Requeued(id), pr);
    }
    forall other | other in db.jobs && other != id
      ensures LatestIfActive(db', other)
    {
      assert LatestIfActive(db, other);
    }
    assert LatestIfActive(db', id) <==> LatestOfItsOwn(db, id);
  }

  /** What is active after an enqueue: the new job, and what was active for other pull requests. */
  lemma ActiveAfterEnqueue(db: Db, op: Op, id: JobId)
    requires op.DoEnqueue? && Fresh(db, op) && id in Apply(db, op).jobs && Active(Apply(db, op).jobs[id])
             && Apply(db, op) != db
    ensures id != op.newId ==> id in db.jobs && Active(db.jobs[id]) && Apply(db, op).jobs[id] == db.jobs[id]
    ensures id != op.newId && op.newId in Apply(db, op).jobs && Apply(db, op).jobs[op.newId].target.Some? ==>
              !ForPullRequest(db.jobs[id], Apply(db, op).jobs[op.newId].target.value.pr)
  {
  }

  lemma EnqueueKeepsOneActive(db: Db, op: Op)
    requires AtMostOneActive(db) && op.DoEnqueue? && Fresh(db, op)
    ensures AtMostOneActive(Apply(db, op))
  {
    var db' := Apply(db, op);
    if db' != db {
      forall a, b | a in db'.jobs && b in db'.jobs && Active(db'.jobs[a]) && Active(db'.jobs[b])
                    && db'.jobs[a].target.Some? && ForPullRequest(db'.jobs[b], db'.jobs[a].target.value.pr)
        ensures a == b
      {
        ActiveAfterEnqueue(db, op, a);
        ActiveAfterEnqueue(db, op, b);
      }
    }
  }

  /** One step from any database with at most one active job per pull request. */
  lemma StepKeepsOneActive(db: Db, op: Op)
    requires AtMostOneActive(db) && Fresh(db, op)
    ensures AtMostOneActive(Apply(db, op)) <==> !Crowds(db, op)
  {
    var db' := Apply(db, op);
    if op.DoEnqueue? {
      EnqueueKeepsOneActive(db, op);
    } else if op.DoRequeue? {
      if Requeue(db, op.job).1 {
        RequeueExactly(db, op.job);
      }
    } else {
      forall a, b | a in db'.jobs && b in db'.jobs && Active(db'.jobs[a]) && Active(db'.jobs[b])
                    && db'.jobs[a].target.Some? && ForPullRequest(db'.jobs[b], db'.jobs[a].target.value.pr)
        ensures a == b
      {
        NothingActivated(db, op, a);
        NothingActivated(db, op, b);
      }
    }
  }

  /** The same for the stronger property. */
  lemma StepKeepsOnlyLatest(db: Db, op: Op)
    requires OnlyLatestActive(db) && Fresh(db, op)
    ensures OnlyLatestActive(Apply(db, op)) <==> !Revives(db, op)
  {
    if op.DoRequeue? {
      if Requeue(db, op.job).1 {
        RequeueRevivesExactly(db, op.job);
      }
    } else {
      ApplyKeepsOnlyLatest(db, op);
    }
  }

  /** The states of a run, its first and its last included. */
  ghost predicate Along(db: Db, ops: seq<Op>, holds: Db -> bool) {
    forall k | 0 <= k <= |ops| :: holds(Run(db, ops[..k]))
  }

  ghost predicate Nowhere(db: Db, ops: seq<Op>, bad: (Db, Op) -> bool) {
    forall k | 0 <= k < |ops| :: !bad(Run(db, ops[..k]), ops[k])
  }

  lemma PrefixRuns(db: Db, ops: seq<Op>)
    requires ops != []
    ensures Run(db, ops[..0]) == db
    ensures forall k | 0 < k <= |ops| :: Run(db, ops[..k]) == Run(Apply(db, ops[0]), ops[1..][..k - 1])
  {
    forall k | 0 < k <= |ops|
      ensures Run(db, ops[..k]) == Run(Apply(db, ops[0]), ops[1..][..k - 1])
    {
      assert ops[..k][0] == ops[0] && ops[..k][1..] == ops[1..][..k - 1];
    }
  }

  lemma AlongStep(db: Db, ops: seq<Op>, holds: Db -> bool)
    requires ops != []
    ensures Along(db, ops, holds) <==> holds(db) && Along(Apply(db, ops[0]), ops[1..], holds)
  {
    PrefixRuns(db, ops);
    var rest := ops[1..];
    if Along(db, ops, holds) {
      assert holds(Run(db, ops[..0]));
      forall k | 0 <= k <= |rest|
        ensures holds(Run(Apply(db, ops[0]), rest[..k]))
      {
        assert holds(Run(db, ops[..k + 1]));
      }
    }
    if holds(db) && Along(Apply(db, ops[0]), rest, holds) {
      forall k | 0 <= k <= |ops|
        ensures holds(Run(db, ops[..k]))
      {
        if k > 0 {
          assert holds(Run(Apply(db, ops[0]), rest[..k - 1]));
        }
      }
    }
  }

  lemma NowhereStep(db: Db, ops: seq<Op>, bad: (Db, Op) -> bool)
    requires ops != []
    ensures Nowhere(db, ops, bad) <==> !bad(db, ops[0]) && Nowhere(Apply(db, ops[0]), ops[1..], bad)
  {
    PrefixRuns(db, ops);
    var rest := ops[1..];
    if Nowhere(db, ops, bad) {
      assert !bad(Run(db, ops[..0]), ops[0]);
      forall k | 0 <= k < |rest|
        ensures !bad(Run(Apply(db, ops[0]), rest[..k]), rest[k])
      {
        assert !bad(Run(db, ops[..k + 1]), ops[k + 1]);
      }
    }
    if !bad(db, ops[0]) && Nowhere(Apply(db, ops[0]), rest, bad) {
      forall k | 0 <= k < |ops|
        ensures !bad(Run(db, ops[..k]), ops[k])
      {
        if k > 0 {
          assert !bad(Run(Apply(db, ops[0]), rest[..k - 1]), rest[k - 1]);
        }
      }
    }
  }

  /** If every legal step from a good state is good unless it is bad, a run is good throughout exactly when it
      has no bad step. */
  lemma {:induction false} GoodThroughout(db: Db, ops: seq<Op>, holds: Db -> bool, bad: (Db, Op) -> bool)
    requires holds(db) && Legal(db, ops)
    requires forall d, op | holds(d) && Fresh(d, op) :: holds(Apply(d, op)) <==> !bad(d, op)
    ensures Along(db, ops, holds) <==> Nowhere(db, ops, bad)
    decreases ops
  {
    if ops != [] {
      var next := Apply(db, ops[0]);
      AlongStep(db, ops, holds);
      NowhereStep(db, ops, bad);
      if holds(next) {
        GoodThroughout(next, ops[1..], holds, bad);
      } else {
        assert !Along(next, ops[1..], holds) by {
          assert !holds(Run(next, ops[1..][..0]));
        }
      }
    }
  }

  /** Over a whole run each pull request has at most one active job throughout, exactly when every requeue
      that goes through finds no other active job of its pull request. */
  lemma OneActiveExactly(start: Db, ops: seq<Op>)
    requires Initial(start) && Legal(start, ops)
    ensures Along(start, ops, db => AtMostOneActive(db)) <==> Nowhere(start, ops, (db, op) => Crowds(db, op))
  {
    forall db, op | AtMostOneActive(db) && Fresh(db, op)
      ensures AtMostOneActive(Apply(db, op)) <==> !Crowds(db, op)
    {
      StepKeepsOneActive(db, op);
    }
    GoodThroughout(start, ops, db => AtMostOneActive(db), (db, op) => Crowds(db, op));
  }

  /** And only the latest one, exactly when every such requeue is of its pull request's latest job. */
  lemma OnlyLatestExactly(start: Db, ops: seq<Op>)
    requires Initial(start) && Legal(start, ops)
    ensures Along(start, ops, db => OnlyLatestActive(db)) <==> Nowhere(start, ops, (db, op) => Revives(db, op))
  {
    forall db, op | OnlyLatestActive(db) && Fresh(db, op)
      ensures OnlyLatestActive(Apply(db, op)) <==> !Revives(db, op)
    {
      StepKeepsOnlyLatest(db, op);
    }
    GoodThroughout(start, ops, db => OnlyLatestActive(db), (db, op) => Revives(db, op));
  }

  // ---- redelivery -------------------------------------------------------------------------

  lemma {:induction false} DeliveriesGrow(db: Db, ops: seq<Op>)
    ensures db.deliveries <= Run(db, ops).deliveries
    decreases ops
  {
    if ops != [] {
      DeliveriesGrow(Apply(db, ops[0]), ops[1..]);
    }
  }

  /** Once a delivery id went through enqueue or cancel, replaying it through either, at any later
      point and with any payload, changes nothing. */
  lemma RedeliveryChangesNothing(db: Db, first: Op, between: seq<Op>, again: Op)
    requires (first.DoEnqueue? && first.isPullRequest) || first.DoCancel?
    requires again.DoEnqueue? || again.DoCancel?
    requires again.delivery == first.delivery
    ensures var later := Run(Apply(db, first), between);
            Apply(later, again) == later
  {
    assert first.delivery in Apply(db, first).deliveries;
    DeliveriesGrow(Apply(db, first), between);
  }

  // ---- why the requeue hypothesis is needed -------------------------------------------------

  const REPOSITORY := Registry.GitHubRepository(7, 11)

  function ExampleTables(): Registry.Tables {
    Registry.Tables(map[7 := false], map[REPOSITORY := "repo"],
                    map["runner" := Registry.Runner("laptop", Sha256("credential"), false)],
                    {Registry.Assignment("repo", "runner")})
  }

  function ExamplePullRequest(): PullRequest { PullRequest(REPOSITORY, 1) }

  /** The job failed by its runner, before the newer head arrives. */
  lemma ExampleFailedJob(start: Db)
    requires Initial(start) && start.registry == ExampleTables()
    ensures var db1 := Apply(start, DoEnqueue("d1", true, Some(Target(ExamplePullRequest(), "head1")), "old"));
            var db2 := Apply(db1, DoRunnerClaim("runner", "token", "old"));
            var db3 := Apply(db2, DoAcknowledge("old", "runner", "token", Acknowledgement(false, None, "hash")));
            && db1.log == [Enqueued("old", ExamplePullRequest())]
            && db3.jobs.Keys == {"old"} && db3.deliveries == {"d1"} && db3.registry == ExampleTables()
            && db3.jobs["old"].status == Failed
            && db3.jobs["old"].target == Some(Target(ExamplePullRequest(), "head1"))
  {
    var db1 := Apply(start, DoEnqueue("d1", true, Some(Target(ExamplePullRequest(), "head1")), "old"));
    assert RunnerEligible(db1, "old", "runner");
  }

  lemma ExampleFresh(start: Db)
    requires Initial(start) && start.registry == ExampleTables()
    ensures var op0 := DoEnqueue("d1", true, Some(Target(ExamplePullRequest(), "head1")), "old");
            Fresh(start, op0) && Fresh(Apply(start, op0), DoRunnerClaim("runner", "token", "old"))
  {
    ExampleFailedJob(start);
  }

  lemma ExampleLegal(start: Db, op0: Op, op1: Op, op2: Op, op3: Op, op4: Op)
    requires Fresh(start, op0) && Fresh(Apply(start, op0), op1) && op2.DoAcknowledge? && op3.DoEnqueue?
             && op4.DoRequeue?
    requires op3.newId !in Apply(Apply(Apply(start, op0), op1), op2).jobs
    ensures Legal(start, [op0, op1, op2, op3, op4])
  {
    FiveSteps(start, op0, op1, op2, op3, op4);
  }

  /** A failed job requeued after a newer head was enqueued: two active jobs for one pull request. */
  lemma RequeueMakesTwoActive(start: Db) returns (ops: seq<Op>)
    requires Initial(start) && start.registry == ExampleTables()
    ensures Legal(start, ops) && !AtMostOneActive(Run(start, ops))
  {
    var pr := ExamplePullRequest();
    var op0 := DoEnqueue("d1", true, Some(Target(pr, "head1")), "old");
    var op1 := DoRunnerClaim("runner", "token", "old");
    var op2 := DoAcknowledge("old", "runner", "token", Acknowledgement(false, None, "hash"));
    var op3 := DoEnqueue("d2", true, Some(Target(pr, "head2")), "new");
    var op4 := DoRequeue("old");
    ops := [op0, op1, op2, op3, op4];
    var db3 := Apply(Apply(Apply(start, op0), op1), op2);
    assert Legal(start, ops) by {
      ExampleFresh(start);
      ExampleFailedJob(start);
      ExampleLegal(start, op0, op1, op2, op3, op4);
    }
    assert !AtMostOneActive(Apply(Apply(db3, op3), op4)) by {
      ExampleFailedJob(start);
      ExampleTwoActive(db3);
    }
    FiveSteps(start, op0, op1, op2, op3, op4);
  }

  lemma ExampleTwoActive(db: Db)
    requires db.jobs.Keys == {"old"} && db.deliveries == {"d1"} && db.registry == ExampleTables()
    requires db.jobs["old"].status == Failed
    requires db.jobs["old"].target == Some(Target(ExamplePullRequest(), "head1"))
    ensures var next := Apply(db, DoEnqueue("d2", true, Some(Target(ExamplePullRequest(), "head2")), "new"));
            !AtMostOneActive(Apply(next, DoRequeue("old")))
  {
    assert "head1" != "head2" by { assert "head1"[4] != "head2"[4]; }
    assert "d2" != "d1" && "old" != "new";
    NewHeadThenRequeue(db, "d2", "old", "new", Target(ExamplePullRequest(), "head1"),
                       Target(ExamplePullRequest(), "head2"));
  }

  /** A failed job, then a newer head of its pull request, then a requeue of the failed job. */
  lemma NewHeadThenRequeue(db: Db, delivery: string, older: JobId, newer: JobId, first: Target, second: Target)
    requires db.jobs.Keys == {older} && db.jobs[older].status == Failed && db.jobs[older].target == Some(first)
    requires older != newer && first != second && first.pr == second.pr && delivery !in db.deliveries
    requires second.pr.repository.installation in db.registry.installations
    ensures var next := Apply(db, DoEnqueue(delivery, true, Some(second), newer));
            !AtMostOneActive(Apply(next, DoRequeue(older)))
  {
    var next := Apply(db, DoEnqueue(delivery, true, Some(second), newer));
    assert next.jobs.Keys == {older, newer};
    assert next.jobs[older] == db.jobs[older] && next.jobs[newer] == NewJob(db.now, Some(second));
    assert !HeadConflict(next.jobs, older);
    RequeuedRow(next, older);
    var last := Apply(next, DoRequeue(older));
    assert Active(last.jobs[older]) && Active(last.jobs[newer]);
  }

  lemma FiveSteps(db: Db, op0: Op, op1: Op, op2: Op, op3: Op, op4: Op)
    ensures Run(db, [op0, op1, op2, op3, op4]) == Apply(Apply(Apply(Apply(Apply(db, op0), op1), op2), op3), op4)
    ensures var d1 := Apply(db, op0); var d2 := Apply(d1, op1); var d3 := Apply(d2, op2); var d4 := Apply(d3, op3);
            Fresh(db, op0) && Fresh(d1, op1) && Fresh(d2, op2) && Fresh(d3, op3) && Fresh(d4, op4) ==>
              Legal(db, [op0, op1, op2, op3, op4])
  {
    var d1 := Apply(db, op0); var d2 := Apply(d1, op1); var d3 := Apply(d2, op2); var d4 := Apply(d3, op3);
    assert [op0, op1, op2, op3, op4][1..] == [op1, op2, op3, op4];
    assert [op1, op2, op3, op4][1..] == [op2, op3, op4];
    assert [op2, op3, op4][1..] == [op3, op4];
    assert [op3, op4][1..] == [op4];
    assert [op4][1..] == [];
    assert Run(d4, [op4]) == Apply(d4, op4);
    assert Run(d3, [op3, op4]) == Apply(d4, op4);
    assert Run(d2, [op2, op3, op4]) == Apply(d4, op4);
    assert Fresh(d4, op4) ==> Legal(d4, [op4]);
    assert Fresh(d3, op3) && Fresh(d4, op4) ==> Legal(d3, [op3, op4]);
    assert Fresh(d2, op2) && Fresh(d3, op3) && Fresh(d4, op4) ==> Legal(d2, [op2, op3, op4]);
  }
}
