/** The life of a job as its owner and its waiting claimants see it: which transaction moves it where, for how long a
    lease holds, and when it can be claimed again. */
module JobLifecycle {
  import opened Common
  import opened ReviewJobs
  import opened LeaseFencing
  import opened AckReplay
  import Registry

  // ---- the state machine -------------------------------------------------------------------------

  /** The moves of the `status` column. */
  predicate Moves(from: Status, to: Status, op: Op) {
    match op
    case DoEnqueue(_, _, _, _) => from in {Pending, Running} && to == Superseded
    case DoCancel(_, _) => from in {Pending, Running} && to == Cancelled
    case DoWorkerClaim(_, _) => from == Pending && to == Running
    case DoRunnerClaim(_, _, _) => from == Pending && to == Running
    case DoWorkerComplete(_, _) => from == Running && to == Succeeded
    case DoWorkerFail(_, _, _) => from == Running && to in {Pending, Failed}
    case DoAcknowledge(_, _, _, ack) => from == Running && to == if ack.succeeded then Succeeded else Failed
    case DoRequeue(_) => from == Failed && to == Pending
    case DoPush(_, _, stopped) => to == if stopped then StoppedEarly else Completed
    case _ => false
  }

  /** A job changes its status only along these moves. */
  lemma StatusOnlyMoves(db: Db, op: Op, id: JobId)
    requires id in db.jobs && Fresh(db, op)
    ensures id in Apply(db, op).jobs
    ensures var from, to := db.jobs[id].status, Apply(db, op).jobs[id].status;
            from == to || Moves(from, to, op)
  {
  }

  // ---- supersede, cancel, push -------------------------------------------------------------------

  /** A delivery that enqueues a job for a pull request of a known installation: the new job waits and can be claimed
      at once, no other job of the pull request is left active, and a runner working on one is told at its next
      heartbeat that its lease is gone. */
  lemma EnqueueSupersedes(db: Db, delivery: string, target: Target, newId: JobId, id: JobId, runner: RunnerId,
                          token: Token)
    requires delivery !in db.deliveries && newId !in db.jobs
             && target.pr.repository.installation in db.registry.installations
    ensures var (next, answer) := Enqueue(db, delivery, true, Some(target), newId);
            && answer == EnqueuedJob && newId in next.jobs
            && next.jobs[newId].status == Pending && next.jobs[newId].target == Some(target)
            && next.jobs[newId].attempts == 0 && WorkerEligible(next, newId)
            && (forall other | other in next.jobs && other != newId && ForPullRequest(next.jobs[other], target.pr) ::
                  next.jobs[other].status !in {Pending, Running})
            && (LeaseHolds(db, id, runner, token) && ForPullRequest(db.jobs[id], target.pr) ==>
                  next.jobs[id].status == Superseded && Heartbeat(next, id, runner, token).1 == LeaseInvalid)
  {
  }

  /** A delivery whose pull request or installation is unknown still leaves a job, which workers may claim and no
      runner ever is given. */
  lemma UnknownIsForWorkers(db: Db, delivery: string, identity: Option<Target>, newId: JobId, runner: RunnerId)
    requires delivery !in db.deliveries && newId !in db.jobs
    requires identity.None? || identity.value.pr.repository.installation !in db.registry.installations
    ensures var (next, answer) := Enqueue(db, delivery, true, identity, newId);
            && answer == EnqueuedJob && newId in next.jobs && next.jobs[newId].target == None
            && WorkerEligible(next, newId) && !RunnerEligible(next, newId, runner)
            && (forall other | other in db.jobs :: next.jobs[other] == db.jobs[other])
  {
  }

  /** A cancelled pull request: none of its jobs is active any more, and a runner working on one is told so. */
  lemma CancelTellsTheRunner(db: Db, delivery: string, pr: PullRequest, id: JobId, runner: RunnerId, token: Token)
    requires delivery !in db.deliveries
    ensures var (next, cancelled) := Cancel(db, delivery, pr);
            && cancelled && next.jobs.Keys == db.jobs.Keys
            && (forall other | other in next.jobs && ForPullRequest(next.jobs[other], pr) ::
                  next.jobs[other].status !in {Pending, Running})
            && (LeaseHolds(db, id, runner, token) && ForPullRequest(db.jobs[id], pr) ==>
                  next.jobs[id].status == Cancelled && Heartbeat(next, id, runner, token) == (next, LeaseCancelled))
  {
  }

  /** A pushed summary says how its review ended, and the job is never taken up again. */
  lemma PushEndsTheJob(db: Db, id: JobId, target: Target, stopped: bool, rest: seq<Op>)
    requires Legal(Push(db, id, target, stopped), rest)
    ensures var next := Push(db, id, target, stopped);
            && id in next.jobs && next.jobs[id].target == Some(target)
            && next.jobs[id].status == (if stopped then StoppedEarly else Completed)
            && !WorkerEligible(Run(next, rest), id) && !Requeue(Run(next, rest), id).1
  {
    RunKeepsOver(Push(db, id, target, stopped), rest, id);
  }

  // ---- leases in time ----------------------------------------------------------------------------

  function Wait(db: Db, seconds: nat): Db { Apply(db, Tick(seconds)) }

  /** A runner's claim holds for 300 seconds, and not longer; until then nobody else is given the job. */
  lemma ClaimLasts(db: Db, runner: RunnerId, token: Token, id: JobId, seconds: nat)
    requires RunnerClaim(db, runner, token, id).1
    ensures var next := RunnerClaim(db, runner, token, id).0;
            && (LeaseHolds(Wait(next, seconds), id, runner, token) <==> seconds < 300)
            && (WorkerEligible(Wait(next, seconds), id) <==> seconds >= 300)
            && next.jobs[id].attempts == db.jobs[id].attempts + 1
  {
  }

  /** So does a worker's claim, and a renewal starts the time again. */
  lemma WorkerClaimLasts(db: Db, worker: WorkerId, id: JobId, seconds: nat)
    requires WorkerEligible(db, id)
    ensures var next := WorkerClaim(db, worker, id);
            && (WorkerEligible(Wait(next, seconds), id) <==> seconds >= 300)
            && (WorkerRenew(Wait(next, seconds), id, worker).1 <==> seconds < 300)
            && next.jobs[id].attempts == db.jobs[id].attempts + 1
  {
  }

  lemma RenewalLasts(db: Db, id: JobId, worker: WorkerId, seconds: nat)
    requires WorkerRenew(db, id, worker).1
    ensures var next := WorkerRenew(db, id, worker).0;
            WorkerEligible(Wait(next, seconds), id) <==> seconds >= 300
  {
  }

  lemma HeartbeatLasts(db: Db, id: JobId, runner: RunnerId, token: Token, seconds: nat)
    requires LeaseHolds(db, id, runner, token)
    ensures var (next, answer) := Heartbeat(db, id, runner, token);
            answer == LeaseActive && (LeaseHolds(Wait(next, seconds), id, runner, token) <==> seconds < 300)
  {
  }

  /** No claim takes a lease that is held. */
  lemma ClaimsSpareHeldLeases(db: Db, op: Op, id: JobId, runner: RunnerId, token: Token)
    requires LeaseHolds(db, id, runner, token) && (op.DoWorkerClaim? || op.DoRunnerClaim?)
    ensures LeaseHolds(Apply(db, op), id, runner, token)
  {
  }

  /** What a claim gives, the token broker honours, unless the installation is unknown or revoked by then. */
  lemma ClaimIsAuthorized(db: Db, runner: RunnerId, token: Token, id: JobId)
    requires RunnerClaim(db, runner, token, id).1
    ensures var next := RunnerClaim(db, runner, token, id).0;
            var installation := db.jobs[id].target.value.pr.repository.installation;
            TokenIssued(next, id, runner, token) <==>
              installation in db.registry.installations && !db.registry.installations[installation]
  {
  }

  /** An acknowledgement under the lease stores how the review ended and its error class, ends the lease, and keeps
      the rest of the row and all other rows. */
  lemma AcknowledgementStores(db: Db, id: JobId, runner: RunnerId, token: Token, ack: Acknowledgement)
    requires LeaseHolds(db, id, runner, token)
    ensures var (next, accepted) := Acknowledge(db, id, runner, token, ack);
            && accepted && next.jobs.Keys == db.jobs.Keys
            && next.jobs[id].lastError == ack.errorClass && next.jobs[id].lockedUntil == None
            && next.jobs[id].status == (if ack.succeeded then Succeeded else Failed)
            && next.jobs[id].target == db.jobs[id].target && next.jobs[id].attempts == db.jobs[id].attempts
            && (forall other | other in db.jobs && other != id :: next.jobs[other] == db.jobs[other])
  {
  }

  // ---- a worker's end of a job -------------------------------------------------------------------

  /** A worker that owns a running job. */
  predicate WorksOn(db: Db, id: JobId, worker: WorkerId) {
    id in db.jobs && db.jobs[id].status == Running && db.jobs[id].lockedBy == Some(WorkerOwner(worker))
  }

  /** Only the owner completes a job; then it has succeeded and is never taken up again. */
  lemma CompletionIsFinal(db: Db, id: JobId, worker: WorkerId, rest: seq<Op>)
    ensures WorkerComplete(db, id, worker).1 <==> WorksOn(db, id, worker)
    ensures !WorksOn(db, id, worker) ==> WorkerComplete(db, id, worker).0 == db
    ensures WorksOn(db, id, worker) && Legal(WorkerComplete(db, id, worker).0, rest) ==>
              var next := WorkerComplete(db, id, worker).0;
              && id in next.jobs && next.jobs[id].status == Succeeded
              && !WorkerEligible(Run(next, rest), id) && !Requeue(Run(next, rest), id).1
  {
    if WorksOn(db, id, worker) && Legal(WorkerComplete(db, id, worker).0, rest) {
      RunKeepsOver(WorkerComplete(db, id, worker).0, rest, id);
    }
  }

  /** Only the owner fails a job. Before the third attempt it can be claimed again after 60 seconds, and not sooner;
      at the third it is dead until somebody requeues it. The error is kept. */
  lemma FailureRetriesTwice(db: Db, id: JobId, worker: WorkerId, error: string, seconds: nat)
    ensures WorkerFail(db, id, worker, error).1 <==> WorksOn(db, id, worker)
    ensures !WorksOn(db, id, worker) ==> WorkerFail(db, id, worker, error).0 == db
    ensures WorksOn(db, id, worker) ==>
              var next := WorkerFail(db, id, worker, error).0;
              && next.jobs.Keys == db.jobs.Keys && next.jobs[id].lastError == Some(error)
              && next.jobs[id].attempts == db.jobs[id].attempts
              && (WorkerEligible(Wait(next, seconds), id) <==> db.jobs[id].attempts < 3 && seconds >= 60)
              && (next.jobs[id].status == Failed <==> db.jobs[id].attempts >= 3)
  {
  }

  /** A requeued job starts over: no attempts, no error, no owner, and it can be claimed at once. */
  lemma RequeueStartsOver(db: Db, id: JobId)
    requires Requeue(db, id).1
    ensures var next := Requeue(db, id).0;
            && id in db.jobs && db.jobs[id].status == Failed
            && next.jobs[id].status == Pending && next.jobs[id].attempts == 0 && next.jobs[id].lastError == None
            && next.jobs[id].lockedBy == None && WorkerEligible(next, id)
            && next.jobs[id].target == db.jobs[id].target
            && (forall other | other in db.jobs && other != id :: next.jobs[other] == db.jobs[other])
  {
  }
}
