/** Hosted facts the runner's recovery relies on. */
module AckReplay {
  import opened Common
  import opened ReviewJobs
  import opened LeaseFencing

  /** A finished row that still names a runner and a token was finished by that pair's acknowledgement: a
      succeeded one by a successful acknowledgement, a failed one by a failed one. */
  ghost predicate SettledByAck(db: Db, id: JobId)
    requires id in db.jobs
  {
    forall runner, token | LockedBy(db.jobs[id], runner, token) ::
      && (db.jobs[id].status == Succeeded ==> Acknowledged(id, runner, token, true) in db.log)
      && (db.jobs[id].status == Failed ==> Acknowledged(id, runner, token, false) in db.log)
  }

  /** The acknowledgement a finished row stands for. */
  predicate FinishedAs(db: Db, id: JobId, runner: RunnerId, token: Token, succeeded: bool) {
    && id in db.jobs && LockedBy(db.jobs[id], runner, token)
    && db.jobs[id].status == if succeeded then Succeeded else Failed
  }

  ghost predicate Settled(db: Db) {
    forall id | id in db.jobs :: SettledByAck(db, id)
  }

  lemma LogGrows(db: Db, op: Op)
    ensures db.log <= Apply(db, op).log
  {
  }

  lemma ApplyKeepsSettled(db: Db, op: Op)
    requires Settled(db)
    ensures Settled(Apply(db, op))
  {
    var db' := Apply(db, op);
    LogGrows(db, op);
    forall id, runner, token, ok | FinishedAs(db', id, runner, token, ok)
      ensures Acknowledged(id, runner, token, ok) in db'.log
    {
      if FinishedAs(db, id, runner, token, ok) {
        assert SettledByAck(db, id);
      } else {
        NewlyFinished(db, op, id, runner, token, ok);
      }
    }
    forall id | id in db'.jobs
      ensures SettledByAck(db', id)
    {
      forall runner, token | LockedBy(db'.jobs[id], runner, token)
        ensures db'.jobs[id].status == Succeeded ==> Acknowledged(id, runner, token, true) in db'.log
        ensures db'.jobs[id].status == Failed ==> Acknowledged(id, runner, token, false) in db'.log
      {
        assert db'.jobs[id].status == Succeeded ==> FinishedAs(db', id, runner, token, true);
        assert db'.jobs[id].status == Failed ==> FinishedAs(db', id, runner, token, false);
      }
    }
  }

  /** Only its own acknowledgement finishes a job for a pair. */
  lemma NewlyFinished(db: Db, op: Op, id: JobId, runner: RunnerId, token: Token, ok: bool)
    requires FinishedAs(Apply(db, op), id, runner, token, ok) && !FinishedAs(db, id, runner, token, ok)
    ensures Acknowledged(id, runner, token, ok) in Apply(db, op).log
  {
  }

  lemma {:induction false} RunKeepsSettled(db: Db, ops: seq<Op>)
    requires Settled(db)
    ensures Settled(Run(db, ops)) && db.log <= Run(db, ops).log
    decreases ops
  {
    if ops != [] {
      ApplyKeepsSettled(db, ops[0]);
      LogGrows(db, ops[0]);
      RunKeepsSettled(Apply(db, ops[0]), ops[1..]);
    }
  }

  /** An accepted acknowledgement always has its event in the log, written now or before. */
  lemma AcceptedIsLogged(db: Db, id: JobId, runner: RunnerId, token: Token, ack: Acknowledgement)
    requires Settled(db) && Acknowledge(db, id, runner, token, ack).1
    ensures AckLogged(Acknowledge(db, id, runner, token, ack).0.log, id, runner, token)
  {
    assert SettledByAck(db, id);
  }

  // ---- replaying a landed acknowledgement -----------------------------------------------------

  /** A requeue that goes through, or a pushed summary, hits the job somewhere in `ops`. */
  predicate Overturned(db: Db, ops: seq<Op>, id: JobId)
    decreases ops
  {
    ops != [] && (Overturns(db, ops[0], id) || Overturned(Apply(db, ops[0]), ops[1..], id))
  }

  predicate Overturns(db: Db, op: Op, id: JobId) {
    (op.DoRequeue? && op.job == id && Requeue(db, id).1) || (op.DoPush? && op.job == id)
  }

  predicate Finished(db: Db, id: JobId, runner: RunnerId, token: Token) {
    id in db.jobs && LockedBy(db.jobs[id], runner, token) && db.jobs[id].status in {Succeeded, Failed}
  }

  predicate ShutOut(db: Db, id: JobId, runner: RunnerId, token: Token) {
    && id in db.jobs && Minted(db.log, token)
    && !(LockedBy(db.jobs[id], runner, token) && db.jobs[id].status in {Running, Succeeded, Failed})
  }

  lemma ApplyKeepsShutOut(db: Db, op: Op, id: JobId, runner: RunnerId, token: Token)
    requires ShutOut(db, id, runner, token) && Fresh(db, op)
    ensures ShutOut(Apply(db, op), id, runner, token)
  {
    ApplyKeepsMinted(db, op, token);
  }

  lemma {:induction false} ShutOutForever(db: Db, ops: seq<Op>, id: JobId, runner: RunnerId, token: Token)
    requires ShutOut(db, id, runner, token) && Legal(db, ops)
    ensures ShutOut(Run(db, ops), id, runner, token)
    decreases ops
  {
    if ops != [] {
      ApplyKeepsShutOut(db, ops[0], id, runner, token);
      ShutOutForever(Apply(db, ops[0]), ops[1..], id, runner, token);
    }
  }

  lemma FinishedStep(db: Db, op: Op, id: JobId, runner: RunnerId, token: Token)
    requires Finished(db, id, runner, token) && Minted(db.log, token) && Fresh(db, op)
    ensures Minted(Apply(db, op).log, token)
    ensures if Overturns(db, op, id) then ShutOut(Apply(db, op), id, runner, token)
              else Finished(Apply(db, op), id, runner, token)
  {
    ApplyKeepsMinted(db, op, token);
  }

  lemma {:induction false} FinishedUntilOverturned(db: Db, ops: seq<Op>, id: JobId, runner: RunnerId, token: Token)
    requires Finished(db, id, runner, token) && Minted(db.log, token) && Legal(db, ops)
    ensures Finished(Run(db, ops), id, runner, token) <==> !Overturned(db, ops, id)
    ensures Overturned(db, ops, id) ==> ShutOut(Run(db, ops), id, runner, token)
    decreases ops
  {
    if ops != [] {
      var next := Apply(db, ops[0]);
      FinishedStep(db, ops[0], id, runner, token);
      if Overturns(db, ops[0], id) {
        ShutOutForever(next, ops[1..], id, runner, token);
      } else {
        FinishedUntilOverturned(next, ops[1..], id, runner, token);
      }
    }
  }

  /** An acknowledgement landed but its reply was lost. Sending it again, after anything else the
      control plane did, is accepted and changes nothing exactly when no requeue went through for
      the job and no summary was pushed over it in between; otherwise it is denied. */
  lemma ReplayOfLandedAck(db: Db, between: seq<Op>, id: JobId, runner: RunnerId, token: Token,
                          ack: Acknowledgement, again: Acknowledgement)
    requires LeaseHolds(db, id, runner, token) && Minted(db.log, token)
    requires Legal(Acknowledge(db, id, runner, token, ack).0, between)
    ensures var landed := Acknowledge(db, id, runner, token, ack).0;
            var later := Run(landed, between);
            Acknowledge(later, id, runner, token, again) == (later, !Overturned(landed, between, id))
  {
    var landed := Acknowledge(db, id, runner, token, ack).0;
    assert landed == Apply(db, DoAcknowledge(id, runner, token, ack));
    ApplyKeepsMinted(db, DoAcknowledge(id, runner, token, ack), token);
    FinishedUntilOverturned(landed, between, id, runner, token);
  }

  // ---- a lease that was taken away --------------------------------------------------------------

  /** A pair that was minted, does not hold the lease and did not finish the job. */
  predicate Lost(db: Db, id: JobId, runner: RunnerId, token: Token) {
    Minted(db.log, token) && !LeaseHolds(db, id, runner, token) && !Finished(db, id, runner, token)
  }

  lemma ApplyKeepsLost(db: Db, op: Op, id: JobId, runner: RunnerId, token: Token)
    requires Lost(db, id, runner, token) && Fresh(db, op)
    ensures Lost(Apply(db, op), id, runner, token)
  {
    if LeaseHolds(Apply(db, op), id, runner, token) {
      ApplyOpensOnlyFreshTokens(db, op, id, runner, token);
    }
    ApplyKeepsMinted(db, op, token);
  }

  lemma {:induction false} RunKeepsLost(db: Db, ops: seq<Op>, id: JobId, runner: RunnerId, token: Token)
    requires Lost(db, id, runner, token) && Legal(db, ops)
    ensures Lost(Run(db, ops), id, runner, token)
    decreases ops
  {
    if ops != [] {
      ApplyKeepsLost(db, ops[0], id, runner, token);
      RunKeepsLost(Apply(db, ops[0]), ops[1..], id, runner, token);
    }
  }

  /** Lost is lost: in every continuation the pair's acknowledgement is denied, its heartbeat does not renew,
      it gets no token, and none of the three writes anything. */
  lemma LostIsDenied(db: Db, rest: seq<Op>, id: JobId, runner: RunnerId, token: Token, ack: Acknowledgement)
    requires Lost(db, id, runner, token) && Legal(db, rest)
    ensures var later := Run(db, rest);
            && Acknowledge(later, id, runner, token, ack) == (later, false)
            && Heartbeat(later, id, runner, token).0 == later
            && Heartbeat(later, id, runner, token).1 != LeaseActive
            && !TokenIssued(later, id, runner, token)
  {
    RunKeepsLost(db, rest, id, runner, token);
    EntryPointsAgree(Run(db, rest), id, runner, token, ack);
  }

  /** After a step that takes the job away, only the pair whose own acknowledgement was that step, or had
      finished the job before, counts as having finished it. */
  lemma FinishedAfter(db: Db, op: Op, id: JobId, runner: RunnerId, token: Token)
    requires id in db.jobs && TakesAway(db, op, id) && Fresh(db, op) && Minted(db.log, token)
    ensures !LeaseHolds(Apply(db, op), id, runner, token)
    ensures Finished(Apply(db, op), id, runner, token) <==>
              || (op.DoAcknowledge? && op.runner == runner && op.token == token)
              || (!op.DoRequeue? && !op.DoPush? && Finished(db, id, runner, token))
  {
  }

  /** Re-claim, supersede, cancel, requeue, pushed summary, acknowledgement or expiry: afterwards, in any
      continuation, a pair minted before renews nothing, gets no token and changes nothing by
      acknowledging. That acknowledgement is denied, unless the pair itself finished the job: then
      it is answered as a replay, exactly until a requeue or a pushed summary overturns the job. */
  lemma TakenAwayForever(db: Db, op: Op, rest: seq<Op>, id: JobId, runner: RunnerId, token: Token,
                         ack: Acknowledgement)
    requires id in db.jobs && TakesAway(db, op, id)
    requires Legal(db, [op] + rest) && Minted(db.log, token)
    ensures var next, later := Apply(db, op), Run(db, [op] + rest);
            && Heartbeat(later, id, runner, token).1 != LeaseActive
            && !TokenIssued(later, id, runner, token)
            && Acknowledge(later, id, runner, token, ack) ==
                 (later, Finished(next, id, runner, token) && !Overturned(next, rest, id))
    ensures Finished(Apply(db, op), id, runner, token) <==>
              || (op.DoAcknowledge? && op.runner == runner && op.token == token)
              || (!op.DoRequeue? && !op.DoPush? && Finished(db, id, runner, token))
  {
    assert ([op] + rest)[0] == op && ([op] + rest)[1..] == rest;
    var next := Apply(db, op);
    ApplyKeepsMinted(db, op, token);
    FinishedAfter(db, op, id, runner, token);
    ClosedLeaseStaysClosed(next, rest, id, runner, token);
    EntryPointsAgree(Run(next, rest), id, runner, token, ack);
    if Finished(next, id, runner, token) {
      FinishedUntilOverturned(next, rest, id, runner, token);
    } else {
      LostIsDenied(next, rest, id, runner, token, ack);
    }
  }

  // ---- what an acknowledgement decides -----------------------------------------------------------

  /** Over: neither waiting, nor running, nor failed, so no requeue takes it up again. */
  predicate Over(db: Db, id: JobId) { id in db.jobs && db.jobs[id].status !in {Pending, Running, Failed} }

  lemma ApplyKeepsOver(db: Db, op: Op, id: JobId)
    requires Over(db, id) && Fresh(db, op)
    ensures Over(Apply(db, op), id)
  {
  }

  lemma {:induction false} RunKeepsOver(db: Db, ops: seq<Op>, id: JobId)
    requires Over(db, id) && Legal(db, ops)
    ensures Over(Run(db, ops), id)
    decreases ops
  {
    if ops != [] {
      ApplyKeepsOver(db, ops[0], id);
      RunKeepsOver(Apply(db, ops[0]), ops[1..], id);
    }
  }

  /** A successful acknowledgement under the lease ends the job for good: in every continuation it is neither
      requeued nor claimed. */
  lemma SuccessIsFinal(db: Db, id: JobId, runner: RunnerId, token: Token, ack: Acknowledgement, rest: seq<Op>)
    requires LeaseHolds(db, id, runner, token) && ack.succeeded
    requires Legal(Acknowledge(db, id, runner, token, ack).0, rest)
    ensures var later := Run(Acknowledge(db, id, runner, token, ack).0, rest);
            && !Requeue(later, id).1
            && !WorkerEligible(later, id)
            && (forall other :: !RunnerEligible(later, id, other))
  {
    RunKeepsOver(Acknowledge(db, id, runner, token, ack).0, rest, id);
  }

  /** A failed one leaves it to a manual requeue, which goes through exactly when no other pending or running job
      has the same pull request and head. */
  lemma FailureAwaitsRequeue(db: Db, id: JobId, runner: RunnerId, token: Token, ack: Acknowledgement)
    requires LeaseHolds(db, id, runner, token) && !ack.succeeded
    ensures var next := Acknowledge(db, id, runner, token, ack).0;
            && !WorkerEligible(next, id)
            && (Requeue(next, id).1 <==>
                  db.jobs[id].target.None?
                  || forall other | other in db.jobs && other != id && db.jobs[other].target == db.jobs[id].target ::
                       db.jobs[other].status !in {Pending, Running})
  {
    var next := Acknowledge(db, id, runner, token, ack).0;
    assert forall other | other in db.jobs && other != id :: next.jobs[other] == db.jobs[other];
  }
}
