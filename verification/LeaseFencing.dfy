/** Which (runner, token) pair the lease protocol obeys, in every reachable database. */
module LeaseFencing {
  import opened Common
  import opened ReviewJobs
  import Registry

  /** The lease of `id` is open for this pair right now. */
  predicate LeaseHolds(db: Db, id: JobId, runner: RunnerId, token: Token) {
    && id in db.jobs
    && db.jobs[id].status == Running
    && LockedBy(db.jobs[id], runner, token)
    && db.jobs[id].lockedUntil.Some?
    && db.now < db.jobs[id].lockedUntil.value
  }

  /** The three runner-facing entry points agree on the lease: a heartbeat renews, an
      acknowledgement changes the database, and the token broker passes its lease check, exactly
      while the lease holds. */
  lemma EntryPointsAgree(db: Db, id: JobId, runner: RunnerId, token: Token, ack: Acknowledgement)
    ensures Heartbeat(db, id, runner, token).1 == LeaseActive <==> LeaseHolds(db, id, runner, token)
    ensures Acknowledge(db, id, runner, token, ack).0 != db <==> LeaseHolds(db, id, runner, token)
    ensures TokenIssued(db, id, runner, token) <==>
              && LeaseHolds(db, id, runner, token)
              && db.jobs[id].target.Some?
              && Registry.AuthorizeRepository(db.registry, db.jobs[id].target.value.pr.repository, runner).Granted?
    ensures !LeaseHolds(db, id, runner, token) ==> Heartbeat(db, id, runner, token).0 == db
  {
    if LeaseHolds(db, id, runner, token) {
      assert |Acknowledge(db, id, runner, token, ack).0.log| == |db.log| + 1;
    }
  }

  /** The last claim in the log that names `id`. */
  function LatestClaim(log: seq<Entry>, id: JobId): Option<Entry> {
    if log == [] then None
    else
      var last := log[|log| - 1];
      if (last.ClaimedByRunner? || last.ClaimedByWorker?) && last.job == id then Some(last)
      else LatestClaim(log[..|log| - 1], id)
  }

  lemma LatestClaimAppend(log: seq<Entry>, e: Entry, id: JobId)
    ensures LatestClaim(log + [e], id) ==
              if (e.ClaimedByRunner? || e.ClaimedByWorker?) && e.job == id then Some(e) else LatestClaim(log, id)
  {
    assert (log + [e])[..|log|] == log;
  }

  /** A running row is locked by its latest claimant, and a runner's row carries that claim's token. */
  ghost predicate RowMatchesLatestClaim(db: Db, id: JobId)
    requires id in db.jobs
  {
    db.jobs[id].status == Running ==>
      && db.jobs[id].lockedUntil.Some?
      && match LatestClaim(db.log, id)
         case Some(ClaimedByRunner(_, runner, token)) => LockedBy(db.jobs[id], runner, token)
         case Some(ClaimedByWorker(_, worker)) => db.jobs[id].lockedBy == Some(WorkerOwner(worker))
         case _ => false
  }

  ghost predicate Fenced(db: Db) {
    forall id | id in db.jobs :: RowMatchesLatestClaim(db, id)
  }

  lemma ApplyKeepsFenced(db: Db, op: Op)
    requires Fenced(db)
    ensures Fenced(Apply(db, op))
  {
    forall id | id in Apply(db, op).jobs
      ensures RowMatchesLatestClaim(Apply(db, op), id)
    {
      assert id in db.jobs ==> RowMatchesLatestClaim(db, id);
      ApplyKeepsMatch(db, op, id);
    }
  }

  lemma ApplyKeepsMatch(db: Db, op: Op, id: JobId)
    requires (id in db.jobs ==> RowMatchesLatestClaim(db, id)) && id in Apply(db, op).jobs
    ensures RowMatchesLatestClaim(Apply(db, op), id)
  {
    if op.DoWorkerClaim? {
      WorkerClaimKeepsMatch(db, op.worker, op.pick, id);
    } else if op.DoRunnerClaim? {
      RunnerClaimKeepsMatch(db, op.runner, op.token, op.pick, id);
    } else if Apply(db, op).jobs[id].status == Running {
      NoClaimLogged(db, op, id);
      StillRunning(db, op, id);
    }
  }

  lemma WorkerClaimKeepsMatch(db: Db, worker: WorkerId, pick: JobId, id: JobId)
    requires (id in db.jobs ==> RowMatchesLatestClaim(db, id)) && id in WorkerClaim(db, worker, pick).jobs
    ensures RowMatchesLatestClaim(WorkerClaim(db, worker, pick), id)
  {
    LatestClaimAppend(db.log, ClaimedByWorker(pick, worker), id);
  }

  lemma RunnerClaimKeepsMatch(db: Db, runner: RunnerId, token: Token, pick: JobId, id: JobId)
    requires (id in db.jobs ==> RowMatchesLatestClaim(db, id)) && id in RunnerClaim(db, runner, token, pick).0.jobs
    ensures RowMatchesLatestClaim(RunnerClaim(db, runner, token, pick).0, id)
  {
    LatestClaimAppend(db.log, ClaimedByRunner(pick, runner, token), id);
  }

  /** A row that runs after any other transaction ran before, for the same owner and token. */
  lemma StillRunning(db: Db, op: Op, id: JobId)
    requires !op.DoWorkerClaim? && !op.DoRunnerClaim? && id in Apply(db, op).jobs
             && Apply(db, op).jobs[id].status == Running
    ensures id in db.jobs && db.jobs[id].status == Running
    ensures var job := Apply(db, op).jobs[id];
            && job.lockedBy == db.jobs[id].lockedBy && job.leaseHash == db.jobs[id].leaseHash
            && (db.jobs[id].lockedUntil.Some? ==> job.lockedUntil.Some?)
  {
  }

  /** Only claims change which claim is the latest. */
  lemma NoClaimLogged(db: Db, op: Op, id: JobId)
    requires !op.DoWorkerClaim? && !op.DoRunnerClaim?
    ensures LatestClaim(Apply(db, op).log, id) == LatestClaim(db.log, id)
  {
    var log' := Apply(db, op).log;
    if log' != db.log {
      assert log' == db.log + [log'[|db.log|]];
      LatestClaimAppend(db.log, log'[|db.log|], id);
    }
  }

  lemma {:induction false} RunKeepsFenced(db: Db, ops: seq<Op>)
    requires Fenced(db)
    ensures Fenced(Run(db, ops))
    decreases ops
  {
    if ops != [] {
      ApplyKeepsFenced(db, ops[0]);
      RunKeepsFenced(Apply(db, ops[0]), ops[1..]);
    }
  }

  /** Fencing over whole runs: in every reachable database the lease holds for a pair exactly when
      that pair was minted by the job's latest claim, the row is still running and unexpired. In
      particular a worker claim, which leaves the old token hash in the row, shuts the old pair out. */
  lemma LeaseIsLatestClaim(start: Db, ops: seq<Op>, id: JobId, runner: RunnerId, token: Token)
    requires Initial(start)
    ensures var db := Run(start, ops);
            LeaseHolds(db, id, runner, token) <==>
              && id in db.jobs
              && LatestClaim(db.log, id) == Some(ClaimedByRunner(id, runner, token))
              && db.jobs[id].status == Running
              && db.jobs[id].lockedUntil.Some?
              && db.now < db.jobs[id].lockedUntil.value
  {
    RunKeepsFenced(start, ops);
    var db := Run(start, ops);
    if id in db.jobs {
      assert RowMatchesLatestClaim(db, id);
      LatestClaimNamesJob(db.log, id);
    }
  }

  lemma LatestClaimNamesJob(log: seq<Entry>, id: JobId)
    ensures LatestClaim(log, id).Some? ==> LatestClaim(log, id).value.job == id
  {
  }

  lemma MintedAppend(log: seq<Entry>, e: Entry, token: Token)
    ensures Minted(log + [e], token) <==> Minted(log, token) || (e.ClaimedByRunner? && e.token == token)
  {
    var log' := log + [e];
    if Minted(log, token) {
      var i :| 0 <= i < |log| && log[i].ClaimedByRunner? && log[i].token == token;
      assert log'[i] == log[i];
    }
    assert log'[|log|] == e;
    if Minted(log', token) {
      var i :| 0 <= i < |log'| && log'[i].ClaimedByRunner? && log'[i].token == token;
      assert i < |log| ==> log[i] == log'[i];
    }
  }

  /** One transaction never opens a lease for a token that had already been handed out. */
  lemma ApplyOpensOnlyFreshTokens(db: Db, op: Op, id: JobId, runner: RunnerId, token: Token)
    requires Fresh(db, op) && Minted(db.log, token)
    requires LeaseHolds(Apply(db, op), id, runner, token)
    ensures LeaseHolds(db, id, runner, token)
  {
  }

  lemma ApplyKeepsMinted(db: Db, op: Op, token: Token)
    requires Minted(db.log, token)
    ensures Minted(Apply(db, op).log, token)
  {
    var log' := Apply(db, op).log;
    if log' != db.log {
      assert log' == db.log + [log'[|db.log|]];
      MintedAppend(db.log, log'[|db.log|], token);
    }
  }

  /** A pair that has been minted and does not hold the lease never holds it again, whatever
      happens: expiry and every other way of losing a lease are final. */
  lemma {:induction false} ClosedLeaseStaysClosed(db: Db, ops: seq<Op>, id: JobId, runner: RunnerId, token: Token)
    requires Legal(db, ops) && Minted(db.log, token)
    requires !LeaseHolds(db, id, runner, token)
    ensures !LeaseHolds(Run(db, ops), id, runner, token)
    decreases ops
  {
    if ops != [] {
      if LeaseHolds(Apply(db, ops[0]), id, runner, token) {
        ApplyOpensOnlyFreshTokens(db, ops[0], id, runner, token);
      }
      ApplyKeepsMinted(db, ops[0], token);
      ClosedLeaseStaysClosed(Apply(db, ops[0]), ops[1..], id, runner, token);
    }
  }

  /** The transactions that take a job away from whoever holds its lease. */
  predicate TakesAway(db: Db, op: Op, id: JobId)
    requires id in db.jobs
  {
    var job := db.jobs[id];
    match op
    case DoWorkerClaim(_, pick) => pick == id && Due(job, db.now)
    case DoRunnerClaim(runner, _, pick) =>
      pick == id && RunnerEligible(db, id, runner) && Registry.ActiveRunner(db.registry, runner)
    case DoEnqueue(delivery, isPullRequest, identity, _) =>
      && isPullRequest && delivery !in db.deliveries
      && identity.Some? && identity.value.pr.repository.installation in db.registry.installations
      && ForPullRequest(job, identity.value.pr)
    case DoCancel(delivery, pr) => delivery !in db.deliveries && ForPullRequest(job, pr)
    case DoRequeue(target) => target == id && Requeue(db, id).1
    case DoPush(target, _, _) => target == id
    case DoAcknowledge(target, runner, token, _) => target == id && LeaseHolds(db, id, runner, token)
    case Tick(seconds) => job.lockedUntil.Some? && job.lockedUntil.value <= db.now + seconds
    case _ => false
  }
}
