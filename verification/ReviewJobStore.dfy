/** The hosted job store as the program runs it: transactions that update the tables in place.
    Every method is proved equal to its transaction function, so all run theorems apply to it. */
module ReviewJobStore {
  import opened Common
  import opened ReviewJobs
  import Registry

  class Store {
    var now: Time
    var registry: Registry.Tables
    var jobs: map<JobId, Job>
    var deliveries: set<string>
    ghost var log: seq<Entry>

    ghost function View(): Db
      reads this
    {
      Db(now, registry, jobs, deliveries, log)
    }

    constructor (now: Time, registry: Registry.Tables)
      ensures Initial(View()) && View().now == now && View().registry == registry
    {
      this.now, this.registry := now, registry;
      jobs, deliveries, log := map[], {}, [];
    }

    method EnqueueReviewJob(delivery: string, isPullRequest: bool, identity: Option<Target>, newId: JobId)
      returns (result: EnqueueResult)
      modifies this
      ensures (View(), result) == Enqueue(old(View()), delivery, isPullRequest, identity, newId)
    {
      if !isPullRequest {
        return Ignored;
      }
      if delivery in deliveries {
        return Duplicate;
      }
      deliveries := deliveries + {delivery};
      if identity.None? || identity.value.pr.repository.installation !in registry.installations {
        jobs := jobs[newId := NewJob(now, None)];
        return EnqueuedJob;
      }
      UpdateActive(identity.value.pr, Superseded);
      jobs := jobs[newId := NewJob(now, identity)];
      log := log + [Enqueued(newId, identity.value.pr)];
      return EnqueuedJob;
    }

    /** `update review_jobs set status = ... where <pull request> and status in ('pending', 'running')`. */
    method UpdateActive(pr: PullRequest, status: Status)
      modifies this`jobs
      ensures jobs == SetStatus(old(jobs), pr, status)
    {
      var todo := jobs.Keys;
      while todo != {}
        invariant Updating(old(jobs), jobs, todo, pr, status)
        decreases |todo|
      {
        var id :| id in todo;
        UpdatingStep(old(jobs), jobs, todo, pr, status, id);
        if Active(jobs[id]) && ForPullRequest(jobs[id], pr) {
          jobs := jobs[id := jobs[id].(status := status)];
        }
        todo := todo - {id};
      }
      assert jobs.Keys == SetStatus(old(jobs), pr, status).Keys;
    }

    method CancelReviewJob(delivery: string, pr: PullRequest) returns (cancelled: bool)
      modifies this
      ensures (View(), cancelled) == Cancel(old(View()), delivery, pr)
    {
      if delivery in deliveries {
        return false;
      }
      deliveries := deliveries + {delivery};
      UpdateActive(pr, Cancelled);
      return true;
    }

    /** `order by available_at asc, created_at asc ... limit 1` over the rows no other transaction has
        locked: an unlocked candidate that no unlocked candidate precedes, or none at all. */
    method NextJob(candidates: set<JobId>, locked: set<JobId>) returns (pick: Option<JobId>)
      requires candidates <= jobs.Keys
      ensures pick.None? <==> candidates <= locked
      ensures pick.Some? ==> pick.value in candidates - locked
      ensures pick.Some? ==> forall id | id in candidates - locked :: NoLater(jobs[pick.value], jobs[id])
    {
      var todo := candidates - locked;
      pick := None;
      while todo != {}
        invariant todo <= candidates - locked
        invariant pick.None? ==> todo == candidates - locked
        invariant pick.Some? ==> pick.value in candidates - locked
        invariant pick.Some? ==> forall id | id in candidates - locked - todo :: NoLater(jobs[pick.value], jobs[id])
        decreases |todo|
      {
        var id :| id in todo;
        if pick.None? || Precedes(jobs[id], jobs[pick.value]) {
          pick := Some(id);
        }
        todo := todo - {id};
      }
      assert candidates - locked == {} <==> candidates <= locked by {
        assert forall id | id in candidates && id !in locked :: id in candidates - locked;
      }
    }

    method ClaimReviewJob(worker: WorkerId, locked: set<JobId>) returns (claimed: Option<JobId>)
      modifies this
      ensures claimed.None? ==> View() == old(View()) && forall id | WorkerEligible(View(), id) :: id in locked
      ensures claimed.Some? ==>
                && claimed.value !in locked
                && WorkerEligible(old(View()), claimed.value)
                && View() == WorkerClaim(old(View()), worker, claimed.value)
                && forall id | WorkerEligible(old(View()), id) && id !in locked ::
                     NoLater(old(jobs)[claimed.value], old(jobs)[id])
    {
      var due := set id | id in jobs && Due(jobs[id], now);
      claimed := NextJob(due, locked);
      assert forall id | WorkerEligible(View(), id) :: id in due;
      if claimed.Some? {
        var id := claimed.value;
        jobs := jobs[id := jobs[id].(status := Running,
                                     lockedBy := Some(WorkerOwner(worker)),
                                     lockedUntil := Some(now + LEASE_INTERVAL),
                                     attempts := jobs[id].attempts + 1)];
        log := log + [ClaimedByWorker(id, worker)];
      }
    }

    method ClaimJob(runner: RunnerId, token: Token, locked: set<JobId>) returns (claimed: Option<JobId>)
      modifies this
      ensures claimed.None? ==>
                && View() == old(View())
                && (Registry.ActiveRunner(registry, runner) ==>
                      forall id | RunnerEligible(View(), id, runner) :: id in locked)
      ensures claimed.Some? ==>
                && claimed.value !in locked
                && RunnerClaim(old(View()), runner, token, claimed.value) == (View(), true)
                && forall id | RunnerEligible(old(View()), id, runner) && id !in locked ::
                     NoLater(old(jobs)[claimed.value], old(jobs)[id])
    {
      if runner !in registry.runners || registry.runners[runner].revoked {
        return None;
      }
      var due := set id | && id in jobs && Due(jobs[id], now) && jobs[id].target.Some?
                          && Registry.Assigned(registry, jobs[id].target.value.pr.repository, runner);
      claimed := NextJob(due, locked);
      assert forall id | RunnerEligible(View(), id, runner) :: id in due;
      if claimed.Some? {
        var id := claimed.value;
        jobs := jobs[id := jobs[id].(status := Running,
                                     lockedBy := Some(RunnerOwner(runner)),
                                     leaseHash := Some(Sha256(token)),
                                     lockedUntil := Some(now + LEASE_INTERVAL),
                                     attempts := jobs[id].attempts + 1)];
        log := log + [ClaimedByRunner(id, runner, token)];
      }
    }

    method HeartbeatJob(runner: RunnerId, id: JobId, token: Token) returns (lease: LeaseState)
      modifies this
      ensures (View(), lease) == Heartbeat(old(View()), id, runner, token)
    {
      if id !in jobs || !LockedBy(jobs[id], runner, token) {
        return LeaseInvalid;
      }
      if jobs[id].status == Running && jobs[id].lockedUntil.Some? && jobs[id].lockedUntil.value > now {
        jobs := jobs[id := jobs[id].(lockedUntil := Some(now + LEASE_INTERVAL))];
        return LeaseActive;
      }
      return if jobs[id].status == Cancelled then LeaseCancelled else LeaseInvalid;
    }

    method AcknowledgeJob(runner: RunnerId, id: JobId, token: Token, ack: Acknowledgement) returns (accepted: bool)
      modifies this
      ensures (View(), accepted) == Acknowledge(old(View()), id, runner, token, ack)
    {
      if id !in jobs || !LockedBy(jobs[id], runner, token) {
        return false;
      }
      if jobs[id].status in {Succeeded, Failed} {
        return true;
      }
      if jobs[id].status != Running || jobs[id].lockedUntil.None? || jobs[id].lockedUntil.value <= now {
        return false;
      }
      jobs := jobs[id := jobs[id].(status := if ack.succeeded then Succeeded else Failed,
                                   lastError := ack.errorClass,
                                   lockedUntil := None)];
      log := log + [Acknowledged(id, runner, token, ack.succeeded)];
      return true;
    }

    method RenewReviewJobLease(id: JobId, worker: WorkerId) returns (renewed: bool)
      modifies this
      ensures (View(), renewed) == WorkerRenew(old(View()), id, worker)
    {
      renewed := id in jobs && jobs[id].status == Running && jobs[id].lockedBy == Some(WorkerOwner(worker))
                 && jobs[id].lockedUntil.Some? && jobs[id].lockedUntil.value > now;
      if renewed {
        jobs := jobs[id := jobs[id].(lockedUntil := Some(now + LEASE_INTERVAL))];
      }
    }

    method CompleteReviewJob(id: JobId, worker: WorkerId) returns (completed: bool)
      modifies this
      ensures (View(), completed) == WorkerComplete(old(View()), id, worker)
    {
      completed := id in jobs && jobs[id].status == Running && jobs[id].lockedBy == Some(WorkerOwner(worker));
      if completed {
        jobs := jobs[id := jobs[id].(status := Succeeded, lockedBy := None, lockedUntil := None)];
      }
    }

    method FailReviewJob(id: JobId, worker: WorkerId, error: string) returns (failed: bool)
      modifies this
      ensures (View(), failed) == WorkerFail(old(View()), id, worker, error)
    {
      failed := id in jobs && jobs[id].status == Running && jobs[id].lockedBy == Some(WorkerOwner(worker));
      if failed {
        var dead := jobs[id].attempts >= MAX_ATTEMPTS;
        jobs := jobs[id := jobs[id].(status := if dead then Failed else Pending,
                                     availableAt := if dead then jobs[id].availableAt else now + RETRY_INTERVAL,
                                     lockedBy := None,
                                     lockedUntil := None,
                                     lastError := Some(error))];
        log := log + [if dead then DeadLettered(id) else RetryScheduled(id)];
      }
    }

    method RequeueReviewJob(id: JobId) returns (requeued: bool)
      modifies this
      ensures (View(), requeued) == Requeue(old(View()), id)
    {
      requeued := id in jobs && jobs[id].status == Failed && !HeadConflict(jobs, id);
      if requeued {
        jobs := jobs[id := jobs[id].(status := Pending, attempts := 0, lastError := None, lockedBy := None,
                                     lockedUntil := None, availableAt := now)];
        log := log + [Requeued(id)];
      }
    }

    method SavePushedReviewSummary(id: JobId, target: Target, stopped: bool)
      modifies this
      ensures View() == Push(old(View()), id, target, stopped)
    {
      if id !in jobs {
        jobs := jobs[id := NewJob(now, None)];
      }
      jobs := jobs[id := jobs[id].(status := if stopped then StoppedEarly else Completed, target := Some(target))];
    }
  }

  /** The claim order of the queue. */
  /** First by the time it is available, then by the time it was created. */
  predicate NoLater(a: Job, b: Job) {
    a.availableAt <= b.availableAt && (a.availableAt == b.availableAt ==> a.createdAt <= b.createdAt)
  }

  predicate Precedes(a: Job, b: Job) {
    a.availableAt < b.availableAt || (a.availableAt == b.availableAt && a.createdAt < b.createdAt)
  }

  /** The rows still to do are untouched, the others updated. */
  ghost predicate Updating(before: map<JobId, Job>, now: map<JobId, Job>, todo: set<JobId>, pr: PullRequest,
                           status: Status) {
    && todo <= now.Keys && now.Keys == before.Keys
    && (forall id | id in todo :: now[id] == before[id])
    && (forall id | id in now && id !in todo :: now[id] == UpdatedRow(before[id], pr, status))
  }

  lemma UpdatingStep(before: map<JobId, Job>, now: map<JobId, Job>, todo: set<JobId>, pr: PullRequest, status: Status,
                     id: JobId)
    requires Updating(before, now, todo, pr, status) && id in todo
    ensures var row := UpdatedRow(now[id], pr, status);
            Updating(before, now[id := row], todo - {id}, pr, status) && (row == now[id] ==> now[id := row] == now)
  {
  }
}
