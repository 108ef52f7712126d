/** What the daemon does with a job, told from what the control plane holds when the call is served: which jobs are
    reviewed and handed over, which are abandoned, and how a result that did not land at first does later. */
module RunnerOutcomes {
  import opened Common
  import opened ReviewJobs
  import opened LeaseFencing
  import opened AckReplay
  import opened Runner
  import Registry

  // ---- the next call -----------------------------------------------------------------------------

  predicate Arrives(n: Node) { !Sky(n).requestLost && !Sky(n).replyLost }

  /** The credential presented is the stored one, and the runner is not revoked. */
  predicate Accepted(n: Node) {
    var registry := Run(n.db, Sky(n).before).registry;
    Sky(n).credentialKnown && n.me in registry.runners && !registry.runners[n.me].revoked
  }

  /** The hosted database at the moment the call is served. */
  function Hosted(n: Node): Db { Run(Run(n.db, Sky(n).before), Sky(n).between) }

  /** The runner still holds the lease of a local job when the control plane looks. */
  predicate StillMine(n: Node, job: LocalJob) {
    Arrives(n) && Accepted(n) && LeaseHolds(Hosted(n), job.id, n.me, job.token)
  }

  /** The results handed over, in order. */
  function HandedIn(ledger: seq<Fate>): seq<Fate> {
    if ledger == [] then []
    else HandedIn(ledger[..|ledger| - 1]) + if ledger[|ledger| - 1].Handed? then [ledger[|ledger| - 1]] else []
  }

  lemma HandedAppend(ledger: seq<Fate>, f: Fate)
    ensures HandedIn(ledger + [f]) == HandedIn(ledger) + if f.Handed? then [f] else []
  {
    assert (ledger + [f])[..|ledger|] == ledger;
  }

  // ---- completing a job hands over one result ----------------------------------------------------

  lemma AckHandsNothing(n: Node, id: JobId, token: Token, result: Acknowledgement)
    ensures HandedIn(CallAck(n, id, token, result).0.ledger) == HandedIn(n.ledger)
  {
    HandedAppend(n.ledger, Landed(id, token));
    assert n.ledger + [] == n.ledger;
  }

  lemma LandHandsNothing(n: Node, job: JobId, result: Acknowledgement)
    ensures HandedIn(Land(n, job, result).0.ledger) == HandedIn(n.ledger)
  {
    var (m, reply) := CallClaim(n);
    if reply.JobEnvelope? && reply.id == job {
      AckHandsNothing(m, job, reply.token, result);
    } else if !reply.ClaimLost? {
      assert Land(n, job, result).0.ledger == n.ledger + [Released(job, reply)];
      HandedAppend(n.ledger, Released(job, reply));
    }
  }

  lemma CompleteHandsOne(n: Node, job: JobId, token: Token, result: Acknowledgement)
    ensures HandedIn(CompleteJob(n, job, token, result).0.ledger) == HandedIn(n.ledger) + [Handed(job, token, result)]
  {
    var handed := n.(ledger := n.ledger + [Handed(job, token, result)]);
    HandedAppend(n.ledger, Handed(job, token, result));
    AckHandsNothing(handed, job, token, result);
    var (k, reply) := CallAck(handed, job, token, result);
    match reply
    case AckOk =>
    case AckDenied => LandHandsNothing(RecordPending(k, job, token, result, InvalidOrExpired), job, result);
    case AckLost =>
    case AckUnauthorized => HandedAppend(k.ledger, Escaped(job, token, result));
  }

  lemma ReviewHands(n: Node, id: JobId, token: Token, executor: Executor)
    ensures HandedIn(ReviewAndComplete(n, id, token, executor).0.ledger) ==
              HandedIn(n.ledger)
              + if executor(id, token).Reviewed? then [Handed(id, token, executor(id, token).result)] else []
  {
    if executor(id, token).Reviewed? {
      CompleteHandsOne(n, id, token, executor(id, token).result);
    }
  }

  // ---- recovery ----------------------------------------------------------------------------------

  /** One claimed job found at start-up. If its heartbeat is answered and the lease is still held, what the executor
      makes of it is handed over. If the heartbeat is answered and the lease is not held, the job is abandoned
      locally and nothing is handed over. If the heartbeat is lost, the job stays as it is. */
  lemma RecoveredExactly(n: Node, job: LocalJob, executor: Executor)
    ensures var n' := RecoverOne(n, job, executor).0;
            && (StillMine(n, job) && executor(job.id, job.token).Reviewed? ==>
                  && |n'.ledger| > |n.ledger| && n.ledger <= n'.ledger
                  && n'.ledger[|n.ledger|] == Handed(job.id, job.token, executor(job.id, job.token).result))
            && (Arrives(n) && !StillMine(n, job) ==>
                  && n'.ledger == n.ledger && n'.pending == n.pending && |n'.jobs| == |n.jobs|
                  && forall i | 0 <= i < |n.jobs| ::
                       n'.jobs[i] == if n.jobs[i].id == job.id then n.jobs[i].(status := LocalAbandoned) else n.jobs[i])
            && (!Arrives(n) ==> n'.ledger == n.ledger && n'.pending == n.pending && n'.jobs == n.jobs)
  {
    BeatTells(n, job);
    if StillMine(n, job) && executor(job.id, job.token).Reviewed? {
      CompleteStartsHanded(CallBeat(n, job.id, job.token).0, job.id, job.token, executor(job.id, job.token).result);
    }
  }

  lemma BeatTells(n: Node, job: LocalJob)
    ensures var (m, reply) := CallBeat(n, job.id, job.token);
            && m.ledger == n.ledger && m.pending == n.pending && m.jobs == n.jobs
            && (reply == Lease(LeaseActive) <==> StillMine(n, job))
            && (reply.BeatLost? <==> !Arrives(n))
  {
    var token := job.token;
    EntryPointsAgree(Hosted(n), job.id, n.me, token, Acknowledgement(true, None, ""));
  }

  lemma CompleteStartsHanded(n: Node, job: JobId, token: Token, result: Acknowledgement)
    ensures var last := CompleteJob(n, job, token, result).0.ledger;
            n.ledger <= last && |last| > |n.ledger| && last[|n.ledger|] == Handed(job, token, result)
  {
    var handed := n.(ledger := n.ledger + [Handed(job, token, result)]);
    var (k, reply) := CallAck(handed, job, token, result);
    assert handed.ledger <= k.ledger;
    if reply.AckDenied? {
      LandNeverEscapes(RecordPending(k, job, token, result, InvalidOrExpired), job, result);
    }
  }

  /** What recovery owes: the executor's result for each listed job whose lease is held when its turn comes, up to
      the first exception. */
  ghost function Owed(n: Node, listed: seq<LocalJob>, executor: Executor): seq<Fate>
    decreases listed
  {
    if listed == [] then []
    else
      var job := listed[0];
      var mine := if StillMine(n, job) && executor(job.id, job.token).Reviewed?
                  then [Handed(job.id, job.token, executor(job.id, job.token).result)] else [];
      var (n', raised) := RecoverOne(n, job, executor);
      mine + if raised then [] else Owed(n', listed[1..], executor)
  }

  lemma RecoverOneHands(n: Node, job: LocalJob, executor: Executor)
    ensures HandedIn(RecoverOne(n, job, executor).0.ledger) ==
              HandedIn(n.ledger)
              + if StillMine(n, job) && executor(job.id, job.token).Reviewed?
                then [Handed(job.id, job.token, executor(job.id, job.token).result)] else []
  {
    BeatTells(n, job);
    ReviewHands(CallBeat(n, job.id, job.token).0, job.id, job.token, executor);
    assert HandedIn(n.ledger) + [] == HandedIn(n.ledger);
  }

  /** One recovery hands over exactly what it owes. */
  lemma {:induction false} RecoverHandsExactly(n: Node, listed: seq<LocalJob>, executor: Executor)
    ensures HandedIn(Recover(n, listed, executor).0.ledger) == HandedIn(n.ledger) + Owed(n, listed, executor)
    decreases listed
  {
    if listed != [] {
      var job := listed[0];
      var (n', raised) := RecoverOne(n, job, executor);
      var mine := if StillMine(n, job) && executor(job.id, job.token).Reviewed?
                  then [Handed(job.id, job.token, executor(job.id, job.token).result)] else [];
      assert HandedIn(n'.ledger) == HandedIn(n.ledger) + mine by {
        RecoverOneHands(n, job, executor);
      }
      if !raised {
        var rest := Owed(n', listed[1..], executor);
        RecoverHandsExactly(n', listed[1..], executor);
        Associate(HandedIn(n.ledger), mine, rest);
      }
    }
  }

  lemma Associate(a: seq<Fate>, b: seq<Fate>, c: seq<Fate>)
    ensures a + b + c == a + (b + c) && b + [] == b
  {
  }

  // ---- polling -----------------------------------------------------------------------------------

  /** The row the database picks is due and assigned to this runner. */
  predicate Claimable(n: Node) {
    Arrives(n) && Accepted(n) && Registry.ActiveRunner(Hosted(n).registry, n.me)
      && RunnerEligible(Hosted(n), Sky(n).pick, n.me)
  }

  /** One poll hands over the executor's result for the claimed job, under the token of that claim, and nothing
      when polling has stopped or nothing is claimed. */
  lemma PollHandsExactly(n: Node, executor: Executor)
    ensures var w := Sky(n);
            HandedIn(ProcessOnce(n, executor).0.ledger) ==
              HandedIn(n.ledger)
              + if !n.stopNewWork && Claimable(n) && executor(w.pick, w.token).Reviewed?
                then [Handed(w.pick, w.token, executor(w.pick, w.token).result)] else []
  {
    var (m, reply) := CallClaim(n);
    assert m.ledger == n.ledger;
    assert reply.JobEnvelope? <==> Claimable(n);
    assert reply.JobEnvelope? ==> reply == JobEnvelope(Sky(n).pick, Sky(n).token);
    assert HandedIn(n.ledger) + [] == HandedIn(n.ledger);
    if !n.stopNewWork && reply.JobEnvelope? {
      ReviewHands(m.(jobs := RecordClaimed(m.jobs, reply.id, reply.token)), reply.id, reply.token, executor);
    }
  }

  /** A runner told that it is revoked stops: every later poll does nothing at all. A credential that is merely not
      recognised does not stop it. */
  lemma RevokedStopsPolling(n: Node, executor: Executor, later: Executor)
    requires !n.stopNewWork && Arrives(n) && !Accepted(n)
    ensures var n' := ProcessOnce(n, executor).0;
            && n'.ledger == n.ledger && n'.jobs == n.jobs && n'.pending == n.pending
            && (n'.stopNewWork <==> Sky(n).credentialKnown && n.me in Run(n.db, Sky(n).before).registry.runners)
            && (n'.stopNewWork ==> ProcessOnce(n', later) == (n', false))
  {
  }

  // ---- a result that did not land at first -------------------------------------------------------

  /** What `complete_job` leaves behind, by what became of its call. */
  lemma CompleteOutcomes(n: Node, job: JobId, token: Token, result: Acknowledgement)
    ensures var (n', raised) := CompleteJob(n, job, token, result);
            var kept := LeaseHolds(Hosted(n), job, n.me, token) || Finished(Hosted(n), job, n.me, token);
            && (!Arrives(n) ==>
                  && raised && n'.jobs == n.jobs
                  && n'.pending == n.pending + [PendingAck(n.nextRow, job, token, result, NetworkUnreachable, 0)])
            && (Arrives(n) && !Accepted(n) ==> raised && n'.jobs == n.jobs && n'.pending == n.pending)
            && (Arrives(n) && Accepted(n) && kept ==>
                  && !raised && n'.pending == n.pending && |n'.jobs| == |n.jobs|
                  && forall i | 0 <= i < |n.jobs| ::
                       n'.jobs[i] == if n.jobs[i].id == job then n.jobs[i].(status := LocalCompleted) else n.jobs[i])
  {
    AcceptedExactly(Hosted(n), job, n.me, token, result);
  }

  lemma AcceptedExactly(db: Db, id: JobId, runner: RunnerId, token: Token, ack: Acknowledgement)
    ensures Acknowledge(db, id, runner, token, ack).1 <==>
              LeaseHolds(db, id, runner, token) || Finished(db, id, runner, token)
  {
  }

  /** Replaying one entry that was not reachable before. */
  lemma ReplayOutcomes(n: Node, e: PendingAck)
    requires e.reason == NetworkUnreachable
    ensures var (n', raised) := ReplayOne(n, e);
            var kept := LeaseHolds(Hosted(n), e.job, n.me, e.token) || Finished(Hosted(n), e.job, n.me, e.token);
            && (Arrives(n) && Accepted(n) && kept ==>
                  && !raised && n'.jobs == SetLocal(n.jobs, e.job, LocalCompleted)
                  && forall p :: p in n'.pending <==> p in n.pending && p.rowId != e.rowId)
            && (!Arrives(n) || (Accepted(n) && !kept) ==>
                  && !raised && n'.jobs == n.jobs && |n'.pending| == |n.pending|
                  && forall i | 0 <= i < |n.pending| ::
                       n'.pending[i] == if n.pending[i].rowId == e.rowId
                                        then n.pending[i].(attempts := n.pending[i].attempts + 1) else n.pending[i])
            && (Arrives(n) && !Accepted(n) ==> raised && n'.jobs == n.jobs && n'.pending == n.pending)
  {
    AcceptedExactly(Hosted(n), e.job, n.me, e.token, e.result);
    DropRowFacts(n.pending, e.rowId);
  }

  /** A result denied because its lease had run out lands through a re-claim: when the same job is handed out again and
      its new lease is still held at the acknowledgement, the job is finished under the new token with this very
      result, the local job is completed and its entries are gone. */
  lemma ReclaimLandsResult(n: Node, job: JobId, result: Acknowledgement)
    requires Claimable(n) && Sky(n).pick == job
    requires var claimed := CallClaim(n).0;
             && Arrives(claimed) && Accepted(claimed)
             && LeaseHolds(Hosted(claimed), job, n.me, Sky(n).token)
    ensures var (n', raised) := Land(n, job, result);
            && !raised
            && FinishedAs(n'.db, job, n.me, Sky(n).token, result.succeeded)
            && n'.jobs == SetLocal(n.jobs, job, LocalCompleted)
            && (forall p :: p in n'.pending <==> p in n.pending && p.job != job)
  {
    DropJobFacts(n.pending, job);
  }

  lemma LostReplayLands(n: Node, e: PendingAck)
    requires e.reason == NetworkUnreachable && Arrives(n) && Accepted(n)
    requires LeaseHolds(Hosted(n), e.job, n.me, e.token) || Finished(Hosted(n), e.job, n.me, e.token)
    ensures var (n', raised) := ReplayOne(n, e);
            && !raised && n'.jobs == SetLocal(n.jobs, e.job, LocalCompleted) && Finished(n'.db, e.job, n.me, e.token)
            && forall p :: p in n'.pending <==> p in n.pending && p.rowId != e.rowId
  {
    ReplayOutcomes(n, e);
    AcceptedExactly(Hosted(n), e.job, n.me, e.token, e.result);
  }

  /** The local table after a claim: a new job is added as claimed under its token, a known one stays as it is. */
  function WithClaimed(jobs: seq<LocalJob>, id: JobId, token: Token): seq<LocalJob> {
    if forall i | 0 <= i < |jobs| :: jobs[i].id != id then jobs + [LocalJob(id, token, LocalClaimed)] else jobs
  }

  /** A poll without an executor only records the claimed job. */
  lemma PollRecordsClaim(n: Node, executor: Executor)
    requires !n.stopNewWork && Claimable(n) && executor(Sky(n).pick, Sky(n).token).NoExecutor?
    ensures var (n', raised) := ProcessOnce(n, executor);
            !raised && n'.jobs == WithClaimed(n.jobs, Sky(n).pick, Sky(n).token) && n'.pending == n.pending
  {
  }

  /** A re-claim that does not give the job back gives it up: its entries go and the local job is completed. If the
      runner is told that it is revoked, it takes no new work; if it is given another job, that one is recorded. */
  lemma LandGivesUp(n: Node, job: JobId, result: Acknowledgement)
    requires Arrives(n) && !(Claimable(n) && Sky(n).pick == job)
    ensures var (n', raised) := Land(n, job, result);
            var known := Sky(n).credentialKnown && n.me in Run(n.db, Sky(n).before).registry.runners;
            var before := if Claimable(n) then WithClaimed(n.jobs, Sky(n).pick, Sky(n).token) else n.jobs;
            && !raised
            && (forall p :: p in n'.pending <==> p in n.pending && p.job != job)
            && n'.stopNewWork == (n.stopNewWork || (!Accepted(n) && known))
            && |n'.jobs| == |before|
            && (forall i | 0 <= i < |before| ::
                  n'.jobs[i] == if before[i].id == job then before[i].(status := LocalCompleted) else before[i])
  {
    DropJobFacts(n.pending, job);
    ClaimTells(n);
  }

  lemma ClaimTells(n: Node)
    ensures var (m, reply) := CallClaim(n);
            && m.jobs == n.jobs && m.pending == n.pending && m.stopNewWork == n.stopNewWork
            && (reply.ClaimLost? <==> !Arrives(n))
            && (reply.AuthDenied? <==> Arrives(n) && !Accepted(n))
            && (reply.JobEnvelope? <==> Claimable(n))
            && (reply.JobEnvelope? ==> reply == JobEnvelope(Sky(n).pick, Sky(n).token))
            && (reply.AuthDenied? ==>
                  reply.revoked == (Sky(n).credentialKnown && n.me in Run(n.db, Sky(n).before).registry.runners))
  {
  }

  /** A re-claim whose request or reply is lost leaves everything for the next attempt. */
  lemma LandDeferred(n: Node, job: JobId, result: Acknowledgement)
    requires !Arrives(n)
    ensures var (n', raised) := Land(n, job, result);
            !raised && n'.pending == n.pending && n'.jobs == n.jobs && n'.ledger == n.ledger
            && n'.stopNewWork == n.stopNewWork
  {
  }

  lemma SomeMember(pending: seq<PendingAck>)
    ensures pending != [] ==> exists p :: p in pending
  {
    if pending != [] {
      assert pending[0] in pending;
    }
  }

  /** A lost acknowledgement, then a replay: whether or not the first request arrived, if the lease is still held or the
      job already finished under it when the replay is served, the table is empty again, the local job completed and the
      job finished under its token. */
  lemma LostThenReplayed(n: Node, job: JobId, token: Token, result: Acknowledgement)
    requires n.pending == [] && !Arrives(n)
    requires var lost := CompleteJob(n, job, token, result).0;
             && Arrives(lost) && Accepted(lost)
             && (LeaseHolds(Hosted(lost), job, n.me, token) || Finished(Hosted(lost), job, n.me, token))
    ensures var lost := CompleteJob(n, job, token, result).0;
            var (n', raised) := Replay(lost, lost.pending);
            && |lost.pending| == 1 && !raised && n'.pending == []
            && n'.jobs == SetLocal(n.jobs, job, LocalCompleted)
            && Finished(n'.db, job, n.me, token)
  {
    var lost := CompleteJob(n, job, token, result).0;
    CompleteOutcomes(n, job, token, result);
    var e := PendingAck(n.nextRow, job, token, result, NetworkUnreachable, 0);
    assert lost.pending == [e] && [e][1..] == [];
    LostReplayLands(lost, e);
    var n' := ReplayOne(lost, e).0;
    assert forall p :: p !in n'.pending;
    SomeMember(n'.pending);
    assert Replay(lost, lost.pending) == Replay(n', []);
  }
}
