/** `RunnerDaemon` and its two local tables, composed with the hosted job table over a network that
    may lose any request and any reply. The network is a script: one `Weather` per remote call. */
module Runner {
  import opened Common
  import opened ReviewJobs
  import opened AckReplay
  import Registry
  import LeaseFencing

  // ---- one remote call ------------------------------------------------------------------------

  /** What happens around one call: transactions of everyone else before it and between its
      authentication and its own transaction, the losses, whether the presented credential is the
      stored one, and, for a claim, the generated token and the row the database picks. */
  datatype Weather = Weather(
    before: seq<Op>, between: seq<Op>,
    requestLost: bool, replyLost: bool, credentialKnown: bool,
    token: Token, pick: JobId)

  const BLACKOUT := Weather([], [], true, true, false, "", "")

  datatype ClaimReply = JobEnvelope(id: JobId, token: Token) | NoJob | AuthDenied(revoked: bool) | ClaimLost
  datatype AckReply = AckOk | AckDenied | AckUnauthorized | AckLost
  datatype BeatReply = Lease(state: LeaseState) | BeatLost

  predicate Authenticated(db: Db, me: RunnerId, w: Weather) {
    w.credentialKnown && Registry.ActiveRunner(db.registry, me)
  }

  function SendClaim(db: Db, me: RunnerId, w: Weather): (Db, ClaimReply) {
    var db := Run(db, w.before);
    if w.requestLost then (db, ClaimLost)
    else if !Authenticated(db, me, w) then
      (db, if w.replyLost then ClaimLost else AuthDenied(w.credentialKnown && me in db.registry.runners))
    else
      var (db, claimed) := RunnerClaim(Run(db, w.between), me, w.token, w.pick);
      (db, if w.replyLost then ClaimLost else if claimed then JobEnvelope(w.pick, w.token) else NoJob)
  }

  function SendAck(db: Db, me: RunnerId, w: Weather, id: JobId, token: Token, result: Acknowledgement): (Db, AckReply) {
    var db := Run(db, w.before);
    if w.requestLost then (db, AckLost)
    else if !Authenticated(db, me, w) then (db, if w.replyLost then AckLost else AckUnauthorized)
    else
      var (db, accepted) := Acknowledge(Run(db, w.between), id, me, token, result);
      (db, if w.replyLost then AckLost else if accepted then AckOk else AckDenied)
  }

  /** A refused credential reads as `invalid_or_expired`: the client's fallback. */
  function SendBeat(db: Db, me: RunnerId, w: Weather, id: JobId, token: Token): (Db, BeatReply) {
    var db := Run(db, w.before);
    if w.requestLost then (db, BeatLost)
    else if !Authenticated(db, me, w) then (db, if w.replyLost then BeatLost else Lease(LeaseInvalid))
    else
      var (db, state) := Heartbeat(Run(db, w.between), id, me, token);
      (db, if w.replyLost then BeatLost else Lease(state))
  }

  // ---- the local store --------------------------------------------------------------------------

  datatype LocalStatus = LocalClaimed | LocalCompleted | LocalAbandoned
  datatype LocalJob = LocalJob(id: JobId, token: Token, status: LocalStatus)
  datatype Reason = InvalidOrExpired | NetworkUnreachable
  datatype PendingAck = PendingAck(
    rowId: nat, job: JobId, token: Token, result: Acknowledgement, reason: Reason, attempts: nat)

  /** History of the results this runner produced; nothing reads it. */
  datatype Fate =
    | Handed(job: JobId, token: Token, result: Acknowledgement)   // given to complete_job
    | Landed(job: JobId, token: Token)                            // an acknowledge call returned normally
    | Released(job: JobId, answer: ClaimReply)                    // a re-claim gave the job up
    | Escaped(job: JobId, token: Token, result: Acknowledgement)  // an HTTP status error left complete_job

  datatype Node = Node(
    me: RunnerId, db: Db, net: seq<Weather>,
    jobs: seq<LocalJob>, pending: seq<PendingAck>, nextRow: nat,
    stopNewWork: bool, ledger: seq<Fate>)

  function SetLocal(jobs: seq<LocalJob>, id: JobId, status: LocalStatus): seq<LocalJob> {
    seq(|jobs|, i requires 0 <= i < |jobs| => if jobs[i].id == id then jobs[i].(status := status) else jobs[i])
  }

  /** `insert or ignore`: a job already known locally keeps its old token and status. */
  function RecordClaimed(jobs: seq<LocalJob>, id: JobId, token: Token): seq<LocalJob> {
    if exists i | 0 <= i < |jobs| :: jobs[i].id == id then jobs else jobs + [LocalJob(id, token, LocalClaimed)]
  }

  function ClaimedJobs(jobs: seq<LocalJob>): seq<LocalJob> {
    if jobs == [] then []
    else (if jobs[0].status == LocalClaimed then [jobs[0]] else []) + ClaimedJobs(jobs[1..])
  }

  function DropRow(pending: seq<PendingAck>, rowId: nat): seq<PendingAck> {
    if pending == [] then []
    else (if pending[0].rowId == rowId then [] else [pending[0]]) + DropRow(pending[1..], rowId)
  }

  function DropJob(pending: seq<PendingAck>, job: JobId): seq<PendingAck> {
    if pending == [] then []
    else (if pending[0].job == job then [] else [pending[0]]) + DropJob(pending[1..], job)
  }

  function BumpRow(pending: seq<PendingAck>, rowId: nat): seq<PendingAck> {
    seq(|pending|, i requires 0 <= i < |pending| =>
      if pending[i].rowId == rowId then pending[i].(attempts := pending[i].attempts + 1) else pending[i])
  }

  // ---- the daemon -------------------------------------------------------------------------------

  function Sky(n: Node): Weather { if n.net == [] then BLACKOUT else n.net[0] }
  function Later(n: Node): seq<Weather> { if n.net == [] then [] else n.net[1..] }

  function CallClaim(n: Node): (Node, ClaimReply) {
    var (db, reply) := SendClaim(n.db, n.me, Sky(n));
    (n.(db := db, net := Later(n)), reply)
  }

  function CallAck(n: Node, id: JobId, token: Token, result: Acknowledgement): (Node, AckReply) {
    var (db, reply) := SendAck(n.db, n.me, Sky(n), id, token, result);
    (n.(db := db, net := Later(n), ledger := n.ledger + (if reply.AckOk? then [Landed(id, token)] else [])), reply)
  }

  function CallBeat(n: Node, id: JobId, token: Token): (Node, BeatReply) {
    var (db, reply) := SendBeat(n.db, n.me, Sky(n), id, token);
    (n.(db := db, net := Later(n)), reply)
  }

  function RecordPending(n: Node, job: JobId, token: Token, result: Acknowledgement, reason: Reason): Node {
    n.(pending := n.pending + [PendingAck(n.nextRow, job, token, result, reason, 0)], nextRow := n.nextRow + 1)
  }

  function MarkPendingTerminal(n: Node, job: JobId): Node {
    n.(jobs := SetLocal(n.jobs, job, LocalCompleted), pending := DropJob(n.pending, job))
  }

  function GiveUp(n: Node, job: JobId, answer: ClaimReply): Node {
    MarkPendingTerminal(n.(ledger := n.ledger + [Released(job, answer)]), job)
  }

  /** `_land_pending_result`; the flag says an exception left it. */
  function Land(n: Node, job: JobId, result: Acknowledgement): (Node, bool) {
    var (n, reply) := CallClaim(n);
    match reply
    case ClaimLost => (n, false)
    case AuthDenied(revoked) => (GiveUp(n.(stopNewWork := n.stopNewWork || revoked), job, reply), false)
    case NoJob => (GiveUp(n, job, reply), false)
    case JobEnvelope(id, token) =>
      if id == job then
        var (n, acked) := CallAck(n, job, token, result);
        (if acked.AckOk? then MarkPendingTerminal(n, job) else n, acked.AckUnauthorized?)
      else
        (GiveUp(n.(jobs := RecordClaimed(n.jobs, id, token)), job, reply), false)
  }

  /** `complete_job`; the flag says an exception left it. */
  function CompleteJob(n: Node, job: JobId, token: Token, result: Acknowledgement): (Node, bool) {
    var (n, reply) := CallAck(n.(ledger := n.ledger + [Handed(job, token, result)]), job, token, result);
    match reply
    case AckOk => (n.(jobs := SetLocal(n.jobs, job, LocalCompleted)), false)
    case AckDenied => Land(RecordPending(n, job, token, result, InvalidOrExpired), job, result)
    case AckLost => (RecordPending(n, job, token, result, NetworkUnreachable), true)
    case AckUnauthorized => (n.(ledger := n.ledger + [Escaped(job, token, result)]), true)
  }

  /** `replay_pending_acknowledgements` over the rows listed when it started. */
  function Replay(n: Node, listed: seq<PendingAck>): (Node, bool)
    decreases listed
  {
    if listed == [] then (n, false)
    else
      var (n, raised) := ReplayOne(n, listed[0]);
      if raised then (n, true) else Replay(n, listed[1..])
  }

  function ReplayOne(n: Node, e: PendingAck): (Node, bool) {
    if e.reason.InvalidOrExpired? then Land(n, e.job, e.result)
    else
      var (n, reply) := CallAck(n, e.job, e.token, e.result);
      match reply
      case AckOk => (n.(pending := DropRow(n.pending, e.rowId), jobs := SetLocal(n.jobs, e.job, LocalCompleted)), false)
      case AckDenied => (n.(pending := BumpRow(n.pending, e.rowId)), false)
      case AckLost => (n.(pending := BumpRow(n.pending, e.rowId)), false)
      case AckUnauthorized => (n, true)
  }

  /** What the injected executor does with a job. */
  datatype Review = NoExecutor | ReviewRaises | Reviewed(result: Acknowledgement)
  type Executor = (JobId, Token) -> Review

  function ReviewAndComplete(n: Node, id: JobId, token: Token, executor: Executor): (Node, bool) {
    match executor(id, token)
    case NoExecutor => (n, false)
    case ReviewRaises => (n, true)
    case Reviewed(result) => CompleteJob(n, id, token, result)
  }

  /** `recover` over the claimed jobs listed when it started. */
  function Recover(n: Node, listed: seq<LocalJob>, executor: Executor): (Node, bool)
    decreases listed
  {
    if listed == [] then (n, false)
    else
      var (n, raised) := RecoverOne(n, listed[0], executor);
      if raised then (n, true) else Recover(n, listed[1..], executor)
  }

  function RecoverOne(n: Node, job: LocalJob, executor: Executor): (Node, bool) {
    var (n, reply) := CallBeat(n, job.id, job.token);
    if reply.BeatLost? then (n, false)
    else if !reply.state.LeaseActive? then (n.(jobs := SetLocal(n.jobs, job.id, LocalAbandoned)), false)
    else ReviewAndComplete(n, job.id, job.token, executor)
  }

  function ProcessOnce(n: Node, executor: Executor): (Node, bool) {
    if n.stopNewWork then (n, false)
    else
      var (n, reply) := CallClaim(n);
      match reply
      case ClaimLost => (n, false)
      case NoJob => (n, false)
      case AuthDenied(revoked) => (n.(stopNewWork := revoked), false)
      case JobEnvelope(id, token) =>
        ReviewAndComplete(n.(jobs := RecordClaimed(n.jobs, id, token)), id, token, executor)
  }

  // ---- where every result ends up ---------------------------------------------------------------

  /** From position `from` on, an acknowledgement for `job` landed or a re-claim released it. */
  ghost predicate Discharged(ledger: seq<Fate>, from: nat, job: JobId) {
    exists k | from <= k < |ledger| :: (ledger[k].Landed? || ledger[k].Released?) && ledger[k].job == job
  }

  ghost predicate Stored(pending: seq<PendingAck>, job: JobId, token: Token, result: Acknowledgement) {
    exists i | 0 <= i < |pending| :: pending[i].job == job && pending[i].token == token && pending[i].result == result
  }

  ghost predicate EscapedAfter(ledger: seq<Fate>, from: nat, h: Fate)
    requires h.Handed?
  {
    exists k | from <= k < |ledger| :: ledger[k] == Escaped(h.job, h.token, h.result)
  }

  /** The result handed over at position `i` is in the pending table, or afterwards its job landed,
      was released by a re-claim, or the call escaped with an HTTP status error. */
  ghost predicate AccountedFor(n: Node, i: nat)
    requires i < |n.ledger| && n.ledger[i].Handed?
  {
    var h := n.ledger[i];
    || Stored(n.pending, h.job, h.token, h.result)
    || Discharged(n.ledger, i, h.job)
    || EscapedAfter(n.ledger, i, h)
  }

  /** Every landing is backed by an acknowledged event of this runner in the hosted log, and every
      release by a claim that was answered with a denial, no job, or some other job. */
  ghost predicate Justified(n: Node, i: nat)
    requires i < |n.ledger|
  {
    match n.ledger[i]
    case Landed(job, token) => AckLogged(n.db.log, job, n.me, token)
    case Released(job, answer) => answer.NoJob? || answer.AuthDenied? || (answer.JobEnvelope? && answer.id != job)
    case _ => true
  }

  ghost predicate DistinctRows(n: Node) {
    && (forall i | 0 <= i < |n.pending| :: n.pending[i].rowId < n.nextRow)
    && (forall i, j | 0 <= i < j < |n.pending| :: n.pending[i].rowId != n.pending[j].rowId)
  }

  /** The daemon's invariant; `open` is a ledger position still being worked on, or -1. */
  ghost predicate Sound(n: Node, open: int) {
    && Settled(n.db)
    && DistinctRows(n)
    && (forall i | 0 <= i < |n.ledger| :: Justified(n, i))
    && (forall i | 0 <= i < |n.ledger| && n.ledger[i].Handed? && i != open :: AccountedFor(n, i))
  }

  /** Nothing stored is forgotten and the ledger and hosted log only grow. */
  ghost predicate Extends(n: Node, n': Node) {
    && n'.me == n.me && n.ledger <= n'.ledger && n.db.log <= n'.db.log
    && (forall i | 0 <= i < |n.pending| ::
          var p := n.pending[i];
          Stored(n'.pending, p.job, p.token, p.result) || Discharged(n'.ledger, |n.ledger|, p.job))
  }

  lemma AccountedForExtends(n: Node, n': Node, i: nat)
    requires Extends(n, n') && i < |n.ledger| && n.ledger[i].Handed? && AccountedFor(n, i)
    ensures AccountedFor(n', i)
  {
    var h := n.ledger[i];
    assert n'.ledger[i] == h;
    if Stored(n.pending, h.job, h.token, h.result) {
      var k :| 0 <= k < |n.pending| && n.pending[k].job == h.job && n.pending[k].token == h.token
          && n.pending[k].result == h.result;
      assert Stored(n'.pending, h.job, h.token, h.result) || Discharged(n'.ledger, |n.ledger|, h.job);
    } else if Discharged(n.ledger, i, h.job) {
      var k :| i <= k < |n.ledger| && (n.ledger[k].Landed? || n.ledger[k].Released?) && n.ledger[k].job == h.job;
      assert n'.ledger[k] == n.ledger[k];
    } else {
      var k :| i <= k < |n.ledger| && n.ledger[k] == Escaped(h.job, h.token, h.result);
      assert n'.ledger[k] == n.ledger[k];
    }
  }

  /** The proof step used throughout: extend, justify the new ledger entries, keep rows distinct. */
  lemma SoundExtends(n: Node, n': Node, open: int)
    requires Sound(n, open) && Extends(n, n') && Settled(n'.db) && DistinctRows(n')
    requires forall i | |n.ledger| <= i < |n'.ledger| :: Justified(n', i)
    requires forall i | |n.ledger| <= i < |n'.ledger| && n'.ledger[i].Handed? && i != open :: AccountedFor(n', i)
    ensures Sound(n', open)
  {
    forall i | 0 <= i < |n'.ledger|
      ensures Justified(n', i)
    {
      if i < |n.ledger| {
        assert Justified(n, i) && n'.ledger[i] == n.ledger[i];
      }
    }
    forall i | 0 <= i < |n'.ledger| && n'.ledger[i].Handed? && i != open
      ensures AccountedFor(n', i)
    {
      if i < |n.ledger| {
        assert n'.ledger[i] == n.ledger[i];
        AccountedForExtends(n, n', i);
      }
    }
  }

  lemma SamePendingExtends(n: Node, n': Node)
    requires n'.me == n.me && n.ledger <= n'.ledger && n.db.log <= n'.db.log && n'.pending == n.pending
    ensures Extends(n, n')
  {
    forall i | 0 <= i < |n.pending|
      ensures Stored(n'.pending, n.pending[i].job, n.pending[i].token, n.pending[i].result)
    {
      assert n'.pending[i] == n.pending[i];
    }
  }

  // ---- remote calls keep the invariant ----------------------------------------------------------

  lemma SendKeepsSettled(db: Db, me: RunnerId, w: Weather, id: JobId, token: Token, result: Acknowledgement)
    requires Settled(db)
    ensures Settled(SendClaim(db, me, w).0) && db.log <= SendClaim(db, me, w).0.log
    ensures Settled(SendBeat(db, me, w, id, token).0) && db.log <= SendBeat(db, me, w, id, token).0.log
    ensures Settled(SendAck(db, me, w, id, token, result).0) && db.log <= SendAck(db, me, w, id, token, result).0.log
    ensures SendAck(db, me, w, id, token, result).1.AckOk? ==>
              AckLogged(SendAck(db, me, w, id, token, result).0.log, id, me, token)
  {
    RunKeepsSettled(db, w.before);
    var db1 := Run(db, w.before);
    RunKeepsSettled(db1, w.between);
    var db2 := Run(db1, w.between);
    OwnStepsKeepSettled(db2, me, w, id, token, result);
  }

  lemma OwnStepsKeepSettled(db: Db, me: RunnerId, w: Weather, id: JobId, token: Token, result: Acknowledgement)
    requires Settled(db)
    ensures Settled(RunnerClaim(db, me, w.token, w.pick).0) && db.log <= RunnerClaim(db, me, w.token, w.pick).0.log
    ensures Settled(Heartbeat(db, id, me, token).0) && db.log <= Heartbeat(db, id, me, token).0.log
    ensures Settled(Acknowledge(db, id, me, token, result).0) && db.log <= Acknowledge(db, id, me, token, result).0.log
    ensures Acknowledge(db, id, me, token, result).1 ==>
              AckLogged(Acknowledge(db, id, me, token, result).0.log, id, me, token)
  {
    OwnStepKeepsSettled(db, DoRunnerClaim(me, w.token, w.pick), RunnerClaim(db, me, w.token, w.pick).0);
    OwnStepKeepsSettled(db, DoHeartbeat(id, me, token), Heartbeat(db, id, me, token).0);
    OwnStepKeepsSettled(db, DoAcknowledge(id, me, token, result), Acknowledge(db, id, me, token, result).0);
    if Acknowledge(db, id, me, token, result).1 {
      AcceptedIsLogged(db, id, me, token, result);
    }
  }

  lemma OwnStepKeepsSettled(db: Db, op: Op, next: Db)
    requires Settled(db) && next == Apply(db, op)
    ensures Settled(next) && db.log <= next.log
  {
    ApplyKeepsSettled(db, op);
    LogGrows(db, op);
  }

  lemma CallAckKeepsSound(n: Node, open: int, id: JobId, token: Token, result: Acknowledgement)
    requires Sound(n, open)
    ensures Sound(CallAck(n, id, token, result).0, open)
  {
    var n' := CallAck(n, id, token, result).0;
    SendKeepsSettled(n.db, n.me, Sky(n), id, token, result);
    SamePendingExtends(n, n');
    SoundExtends(n, n', open);
  }

  lemma CallClaimKeepsSound(n: Node, open: int)
    requires Sound(n, open)
    ensures Sound(CallClaim(n).0, open)
  {
    SendKeepsSettled(n.db, n.me, Sky(n), "", "", Acknowledgement(true, None, ""));
    SamePendingExtends(n, CallClaim(n).0);
    SoundExtends(n, CallClaim(n).0, open);
  }

  lemma CallBeatKeepsSound(n: Node, open: int, id: JobId, token: Token)
    requires Sound(n, open)
    ensures Sound(CallBeat(n, id, token).0, open)
  {
    SendKeepsSettled(n.db, n.me, Sky(n), id, token, Acknowledgement(true, None, ""));
    SamePendingExtends(n, CallBeat(n, id, token).0);
    SoundExtends(n, CallBeat(n, id, token).0, open);
  }

  // ---- local writes keep the invariant ----------------------------------------------------------

  lemma {:induction false} DropJobFacts(pending: seq<PendingAck>, job: JobId)
    ensures forall i | 0 <= i < |pending| && pending[i].job != job :: pending[i] in DropJob(pending, job)
    ensures forall p | p in DropJob(pending, job) :: p in pending && p.job != job
  {
    if pending != [] {
      DropJobFacts(pending[1..], job);
      forall i | 0 <= i < |pending| && pending[i].job != job
        ensures pending[i] in DropJob(pending, job)
      {
        if i > 0 {
          assert pending[1..][i - 1] == pending[i];
        }
      }
    }
  }

  lemma {:induction false} DropRowFacts(pending: seq<PendingAck>, rowId: nat)
    ensures forall i | 0 <= i < |pending| && pending[i].rowId != rowId :: pending[i] in DropRow(pending, rowId)
    ensures forall p | p in DropRow(pending, rowId) :: p in pending && p.rowId != rowId
  {
    if pending != [] {
      DropRowFacts(pending[1..], rowId);
      forall i | 0 <= i < |pending| && pending[i].rowId != rowId
        ensures pending[i] in DropRow(pending, rowId)
      {
        if i > 0 {
          assert pending[1..][i - 1] == pending[i];
        }
      }
    }
  }

  ghost predicate Distinct(pending: seq<PendingAck>) {
    forall i, j | 0 <= i < j < |pending| :: pending[i].rowId != pending[j].rowId
  }

  lemma DistinctTail(pending: seq<PendingAck>)
    requires pending != [] && Distinct(pending)
    ensures Distinct(pending[1..])
    ensures forall p | p in pending[1..] :: p.rowId != pending[0].rowId
  {
    forall p | p in pending[1..]
      ensures p.rowId != pending[0].rowId
    {
      var i :| 0 <= i < |pending[1..]| && pending[1..][i] == p;
      assert pending[i + 1] == p;
    }
  }

  lemma {:induction false} DropJobDistinct(pending: seq<PendingAck>, job: JobId)
    requires Distinct(pending)
    ensures Distinct(DropJob(pending, job))
  {
    if pending != [] {
      DistinctTail(pending);
      DropJobDistinct(pending[1..], job);
      DropJobFacts(pending[1..], job);
    }
  }

  lemma {:induction false} DropRowDistinct(pending: seq<PendingAck>, rowId: nat)
    requires Distinct(pending)
    ensures Distinct(DropRow(pending, rowId))
  {
    if pending != [] {
      DistinctTail(pending);
      DropRowDistinct(pending[1..], rowId);
      DropRowFacts(pending[1..], rowId);
    }
  }

  /** Entries may be dropped once the ledger ends with their job's discharge. */
  lemma MarkTerminalKeepsSound(n: Node, open: int, job: JobId)
    requires Sound(n, open) && n.ledger != []
    requires var last := n.ledger[|n.ledger| - 1]; (last.Landed? || last.Released?) && last.job == job
    ensures Sound(MarkPendingTerminal(n, job), open)
  {
    var n' := MarkPendingTerminal(n, job);
    DropJobFacts(n.pending, job);
    DropJobDistinct(n.pending, job);
    forall i | 0 <= i < |n'.ledger| && n'.ledger[i].Handed? && i != open
      ensures AccountedFor(n', i)
    {
      var h := n.ledger[i];
      assert AccountedFor(n, i);
      if h.job == job {
        assert Discharged(n'.ledger, i, job) by { assert n'.ledger[|n.ledger| - 1].job == job; }
      } else if Stored(n.pending, h.job, h.token, h.result) {
        var k :| 0 <= k < |n.pending| && n.pending[k].job == h.job && n.pending[k].token == h.token
            && n.pending[k].result == h.result;
        assert n.pending[k] in n'.pending;
      }
    }
    assert forall i | 0 <= i < |n'.ledger| :: Justified(n, i) ==> Justified(n', i);
  }

  lemma GiveUpKeepsSound(n: Node, open: int, job: JobId, answer: ClaimReply)
    requires Sound(n, open)
    requires answer.NoJob? || answer.AuthDenied? || (answer.JobEnvelope? && answer.id != job)
    ensures Sound(GiveUp(n, job, answer), open)
  {
    var m := n.(ledger := n.ledger + [Released(job, answer)]);
    SamePendingExtends(n, m);
    SoundExtends(n, m, open);
    MarkTerminalKeepsSound(m, open, job);
  }

  lemma LocalFieldsIrrelevant(n: Node, m: Node, open: int)
    requires Sound(n, open)
    requires m == n.(jobs := m.jobs, stopNewWork := m.stopNewWork)
    ensures Sound(m, open)
  {
    SamePendingExtends(n, m);
    SoundExtends(n, m, open);
  }

  lemma LandKeepsSound(n: Node, job: JobId, result: Acknowledgement)
    requires Sound(n, -1)
    ensures Sound(Land(n, job, result).0, -1)
  {
    CallClaimKeepsSound(n, -1);
    var (m, reply) := CallClaim(n);
    match reply
    case ClaimLost =>
    case NoJob => GiveUpKeepsSound(m, -1, job, reply);
    case AuthDenied(revoked) =>
      var m' := m.(stopNewWork := m.stopNewWork || revoked);
      LocalFieldsIrrelevant(m, m', -1);
      GiveUpKeepsSound(m', -1, job, reply);
    case JobEnvelope(id, token) =>
      if id == job {
        CallAckKeepsSound(m, -1, job, token, result);
        var (k, acked) := CallAck(m, job, token, result);
        if acked.AckOk? {
          MarkTerminalKeepsSound(k, -1, job);
        }
      } else {
        var m' := m.(jobs := RecordClaimed(m.jobs, id, token));
        LocalFieldsIrrelevant(m, m', -1);
        GiveUpKeepsSound(m', -1, job, reply);
      }
  }

  /** Storing the result closes the open ledger position. */
  lemma RecordClosesPosition(n: Node, open: nat, job: JobId, token: Token, result: Acknowledgement, reason: Reason)
    requires Sound(n, open) && open < |n.ledger| && n.ledger[open] == Handed(job, token, result)
    ensures Sound(RecordPending(n, job, token, result, reason), -1)
  {
    var n' := RecordPending(n, job, token, result, reason);
    assert n'.pending[|n.pending|] == PendingAck(n.nextRow, job, token, result, reason, 0);
    forall i | 0 <= i < |n.pending|
      ensures Stored(n'.pending, n.pending[i].job, n.pending[i].token, n.pending[i].result)
    {
      assert n'.pending[i] == n.pending[i];
    }
    assert Extends(n, n');
    SoundExtends(n, n', open);
    assert AccountedFor(n', open);
  }

  lemma CompleteJobKeepsSound(n: Node, job: JobId, token: Token, result: Acknowledgement)
    requires Sound(n, -1)
    ensures Sound(CompleteJob(n, job, token, result).0, -1)
  {
    var open := |n.ledger|;
    var m := n.(ledger := n.ledger + [Handed(job, token, result)]);
    SamePendingExtends(n, m);
    assert Sound(n, open);
    SoundExtends(n, m, open);
    CallAckKeepsSound(m, open, job, token, result);
    var (k, reply) := CallAck(m, job, token, result);
    assert k.ledger[open] == Handed(job, token, result);
    match reply
    case AckOk =>
      assert k.ledger[|k.ledger| - 1] == Landed(job, token);
      assert AccountedFor(k, open);
      assert Sound(k, -1);
      LocalFieldsIrrelevant(k, CompleteJob(n, job, token, result).0, -1);
    case AckDenied =>
      RecordClosesPosition(k, open, job, token, result, InvalidOrExpired);
      LandKeepsSound(RecordPending(k, job, token, result, InvalidOrExpired), job, result);
    case AckLost =>
      RecordClosesPosition(k, open, job, token, result, NetworkUnreachable);
    case AckUnauthorized =>
      var k' := k.(ledger := k.ledger + [Escaped(job, token, result)]);
      SamePendingExtends(k, k');
      SoundExtends(k, k', open);
      assert k'.ledger[|k.ledger|] == Escaped(job, token, result);
      assert AccountedFor(k', open);
  }

  lemma BumpKeepsSound(n: Node, rowId: nat)
    requires Sound(n, -1)
    ensures Sound(n.(pending := BumpRow(n.pending, rowId)), -1)
  {
    var n' := n.(pending := BumpRow(n.pending, rowId));
    forall i | 0 <= i < |n.pending|
      ensures Stored(n'.pending, n.pending[i].job, n.pending[i].token, n.pending[i].result)
    {
      assert n'.pending[i].job == n.pending[i].job;
    }
    assert Extends(n, n');
    SoundExtends(n, n', -1);
  }

  /** The listed row and the stored row with its id are the same result. */
  ghost predicate Matches(pending: seq<PendingAck>, e: PendingAck) {
    forall p | p in pending && p.rowId == e.rowId :: p.job == e.job
  }

  lemma DropRowKeepsSound(n: Node, e: PendingAck)
    requires Sound(n, -1) && Matches(n.pending, e) && n.ledger != []
    requires var last := n.ledger[|n.ledger| - 1]; last.Landed? && last.job == e.job
    ensures Sound(n.(pending := DropRow(n.pending, e.rowId)), -1)
  {
    var n' := n.(pending := DropRow(n.pending, e.rowId));
    DropRowFacts(n.pending, e.rowId);
    DropRowDistinct(n.pending, e.rowId);
    forall i | 0 <= i < |n'.ledger| && n'.ledger[i].Handed?
      ensures AccountedFor(n', i)
    {
      var h := n.ledger[i];
      assert AccountedFor(n, i);
      if h.job == e.job {
        assert Discharged(n'.ledger, i, e.job) by { assert n'.ledger[|n.ledger| - 1].job == e.job; }
      } else if Stored(n.pending, h.job, h.token, h.result) {
        var k :| 0 <= k < |n.pending| && n.pending[k].job == h.job && n.pending[k].token == h.token
            && n.pending[k].result == h.result;
        assert n.pending[k] in n.pending && n.pending[k].rowId != e.rowId;
        assert n.pending[k] in n'.pending;
      }
    }
    assert forall i | 0 <= i < |n'.ledger| :: Justified(n, i) ==> Justified(n', i);
  }

  lemma ReplayOneKeepsSound(n: Node, e: PendingAck)
    requires Sound(n, -1) && Matches(n.pending, e)
    ensures Sound(ReplayOne(n, e).0, -1)
  {
    if e.reason.InvalidOrExpired? {
      LandKeepsSound(n, e.job, e.result);
    } else {
      CallAckKeepsSound(n, -1, e.job, e.token, e.result);
      var (m, reply) := CallAck(n, e.job, e.token, e.result);
      match reply
      case AckOk =>
        DropRowKeepsSound(m, e);
        LocalFieldsIrrelevant(m.(pending := DropRow(m.pending, e.rowId)), ReplayOne(n, e).0, -1);
      case AckDenied => BumpKeepsSound(m, e.rowId);
      case AckLost => BumpKeepsSound(m, e.rowId);
      case AckUnauthorized =>
    }
  }

  /** Replaying only removes or bumps rows, so the snapshot keeps matching the table. */
  lemma ReplayOneKeepsMatches(n: Node, e: PendingAck, other: PendingAck)
    requires Matches(n.pending, other)
    ensures Matches(ReplayOne(n, e).0.pending, other)
  {
    DropJobFacts(n.pending, e.job);
    DropRowFacts(n.pending, e.rowId);
    BumpKeepsMatches(n.pending, e.rowId, other);
  }

  lemma BumpKeepsMatches(pending: seq<PendingAck>, rowId: nat, other: PendingAck)
    requires Matches(pending, other)
    ensures Matches(BumpRow(pending, rowId), other)
  {
    var bumped := BumpRow(pending, rowId);
    forall p | p in bumped && p.rowId == other.rowId
      ensures p.job == other.job
    {
      var i :| 0 <= i < |bumped| && bumped[i] == p;
      assert pending[i] in pending && pending[i].rowId == other.rowId;
    }
  }

  lemma {:induction false} ReplayKeepsSound(n: Node, listed: seq<PendingAck>)
    requires Sound(n, -1)
    requires forall e | e in listed :: Matches(n.pending, e)
    ensures Sound(Replay(n, listed).0, -1)
    decreases listed
  {
    if listed != [] {
      ReplayOneKeepsSound(n, listed[0]);
      var (m, raised) := ReplayOne(n, listed[0]);
      if !raised {
        forall e | e in listed[1..]
          ensures Matches(m.pending, e)
        {
          assert e in listed;
          ReplayOneKeepsMatches(n, listed[0], e);
        }
        ReplayKeepsSound(m, listed[1..]);
      }
    }
  }

  lemma OwnRowsMatch(n: Node)
    requires DistinctRows(n)
    ensures forall e | e in n.pending :: Matches(n.pending, e)
  {
    forall e, p | e in n.pending && p in n.pending && p.rowId == e.rowId
      ensures p.job == e.job
    {
      var i :| 0 <= i < |n.pending| && n.pending[i] == e;
      var j :| 0 <= j < |n.pending| && n.pending[j] == p;
      assert i == j;
    }
  }

  lemma ReviewKeepsSound(n: Node, id: JobId, token: Token, executor: Executor)
    requires Sound(n, -1)
    ensures Sound(ReviewAndComplete(n, id, token, executor).0, -1)
  {
    if executor(id, token).Reviewed? {
      CompleteJobKeepsSound(n, id, token, executor(id, token).result);
    }
  }

  lemma {:induction false} RecoverKeepsSound(n: Node, listed: seq<LocalJob>, executor: Executor)
    requires Sound(n, -1)
    ensures Sound(Recover(n, listed, executor).0, -1)
    decreases listed
  {
    if listed != [] {
      var job := listed[0];
      CallBeatKeepsSound(n, -1, job.id, job.token);
      var (m, reply) := CallBeat(n, job.id, job.token);
      if reply.Lease? && !reply.state.LeaseActive? {
        LocalFieldsIrrelevant(m, m.(jobs := SetLocal(m.jobs, job.id, LocalAbandoned)), -1);
      } else if reply.Lease? {
        ReviewKeepsSound(m, job.id, job.token, executor);
      }
      var (k, raised) := RecoverOne(n, job, executor);
      if !raised {
        RecoverKeepsSound(k, listed[1..], executor);
      }
    }
  }

  lemma ProcessOnceKeepsSound(n: Node, executor: Executor)
    requires Sound(n, -1)
    ensures Sound(ProcessOnce(n, executor).0, -1)
  {
    if !n.stopNewWork {
      CallClaimKeepsSound(n, -1);
      var (m, reply) := CallClaim(n);
      if reply.AuthDenied? {
        LocalFieldsIrrelevant(m, m.(stopNewWork := reply.revoked), -1);
      } else if reply.JobEnvelope? {
        var m' := m.(jobs := RecordClaimed(m.jobs, reply.id, reply.token));
        LocalFieldsIrrelevant(m, m', -1);
        ReviewKeepsSound(m', reply.id, reply.token, executor);
      }
    }
  }

  // ---- whole runs of the daemon -----------------------------------------------------------------

  datatype Call = DoProcessOnce(executor: Executor) | DoRecover(executor: Executor) | DoReplay

  function Perform(n: Node, call: Call): Node {
    match call
    case DoProcessOnce(executor) => ProcessOnce(n, executor).0
    case DoRecover(executor) => Recover(n, ClaimedJobs(n.jobs), executor).0
    case DoReplay => Replay(n, n.pending).0
  }

  function PerformAll(n: Node, calls: seq<Call>): Node
    decreases calls
  {
    if calls == [] then n else PerformAll(Perform(n, calls[0]), calls[1..])
  }

  lemma {:induction false} RunsStaySound(n: Node, calls: seq<Call>)
    requires Sound(n, -1)
    ensures Sound(PerformAll(n, calls), -1)
    decreases calls
  {
    if calls != [] {
      PerformKeepsSound(n, calls[0]);
      RunsStaySound(Perform(n, calls[0]), calls[1..]);
    }
  }

  lemma PerformKeepsSound(n: Node, call: Call)
    requires Sound(n, -1)
    ensures Sound(Perform(n, call), -1)
  {
    match call
    case DoProcessOnce(executor) => ProcessOnceKeepsSound(n, executor);
    case DoRecover(executor) => RecoverKeepsSound(n, ClaimedJobs(n.jobs), executor);
    case DoReplay =>
      OwnRowsMatch(n);
      ReplayKeepsSound(n, n.pending);
  }

  /** A runner that has just been installed, against any history of the control plane. */
  predicate FreshNode(n: Node, start: Db, history: seq<Op>) {
    && Initial(start) && n.db == Run(start, history)
    && n.jobs == [] && n.pending == [] && n.ledger == []
  }

  /** No result is lost: whatever the network, the control plane and the other actors do, and in any
      order of `process_once`, `recover` and `replay_pending_acknowledgements`, every result handed to
      `complete_job` is still in the pending table, or afterwards an acknowledgement of its job by
      this runner is in the hosted log, or a re-claim was answered with a denial, no job or a
      different job, or the acknowledge call was refused the credential and escaped. */
  lemma NoResultIsLost(n: Node, start: Db, history: seq<Op>, calls: seq<Call>, i: nat)
    requires FreshNode(n, start, history)
    requires i < |PerformAll(n, calls).ledger| && PerformAll(n, calls).ledger[i].Handed?
    ensures var n' := PerformAll(n, calls);
            var h := n'.ledger[i];
            || Stored(n'.pending, h.job, h.token, h.result)
            || (exists k | i <= k < |n'.ledger| ::
                  n'.ledger[k].Landed? && n'.ledger[k].job == h.job
                  && AckLogged(n'.db.log, h.job, n'.me, n'.ledger[k].token))
            || (exists k | i <= k < |n'.ledger| ::
                  n'.ledger[k].Released? && n'.ledger[k].job == h.job
                  && (n'.ledger[k].answer.NoJob? || n'.ledger[k].answer.AuthDenied?
                      || (n'.ledger[k].answer.JobEnvelope? && n'.ledger[k].answer.id != h.job)))
            || EscapedAfter(n'.ledger, i, h)
  {
    assert Settled(start);
    RunKeepsSettled(start, history);
    RunsStaySound(n, calls);
    var n' := PerformAll(n, calls);
    var h := n'.ledger[i];
    assert AccountedFor(n', i);
    if Discharged(n'.ledger, i, h.job) {
      var k :| i <= k < |n'.ledger| && (n'.ledger[k].Landed? || n'.ledger[k].Released?) && n'.ledger[k].job == h.job;
      assert Justified(n', k);
    }
  }

  /** When exactly a result slips past the pending table: the acknowledge request arrived, the control
      plane refused the credential, and that refusal reached the runner. */
  lemma EscapesExactlyWhenRefused(n: Node, job: JobId, token: Token, result: Acknowledgement)
    ensures var w := Sky(n);
            EscapedAfter(CompleteJob(n, job, token, result).0.ledger, |n.ledger|, Handed(job, token, result)) <==>
              !w.requestLost && !w.replyLost && !Authenticated(Run(n.db, w.before), n.me, w)
  {
    var handed := n.(ledger := n.ledger + [Handed(job, token, result)]);
    var (k, reply) := CallAck(handed, job, token, result);
    var last := CompleteJob(n, job, token, result).0;
    match reply
    case AckOk => assert last.ledger == n.ledger + [Handed(job, token, result), Landed(job, token)];
    case AckDenied =>
      var recorded := RecordPending(k, job, token, result, InvalidOrExpired);
      assert recorded.ledger == n.ledger + [Handed(job, token, result)];
      LandNeverEscapes(recorded, job, result);
    case AckLost => assert last.ledger == n.ledger + [Handed(job, token, result)];
    case AckUnauthorized => assert last.ledger[|n.ledger| + 1] == Escaped(job, token, result);
  }

  lemma LandNeverEscapes(n: Node, job: JobId, result: Acknowledgement)
    ensures var last := Land(n, job, result).0;
            n.ledger <= last.ledger && forall i | |n.ledger| <= i < |last.ledger| :: !last.ledger[i].Escaped?
  {
  }

  /** A run in which that happens: a job is enqueued, claimed and reviewed, and the runner is revoked before
      its acknowledge call. The result is in no table, and no acknowledgement of it was ever logged. */
  lemma RefusedResultIsLost(start: Db, me: RunnerId, target: Target, job: JobId, token: Token,
                            revoked: Registry.Tables, result: Acknowledgement)
    returns (n: Node, history: seq<Op>, executor: Executor)
    requires Initial(start) && Registry.ActiveRunner(start.registry, me) && !Registry.ActiveRunner(revoked, me)
    requires target.pr.repository.installation in start.registry.installations
    requires Registry.Assigned(start.registry, target.pr.repository, me)
    ensures FreshNode(n, start, history) && Legal(start, history)
    ensures var n' := PerformAll(n, [DoProcessOnce(executor)]);
            && n'.ledger == [Handed(job, token, result), Escaped(job, token, result)]
            && n'.pending == []
            && !AckLogged(n'.db.log, job, me, token)
  {
    var enqueue := DoEnqueue("delivery", true, Some(target), job);
    history := [enqueue];
    var db1 := Apply(start, enqueue);
    assert history[1..] == [] && Run(start, history) == db1;
    executor := (_, _) => Reviewed(result);
    var claim := Weather([], [], false, false, true, token, job);
    var ack := Weather([ChangeRegistry(revoked)], [], false, false, true, "", "");
    n := Node(me, db1, [claim, ack], [], [], 0, false, []);
    ClaimedFirst(start, db1, me, target, job, token);
    PolledThenRefused(n, executor, job, token, result, revoked);
    assert [DoProcessOnce(executor)][1..] == [];
    assert PerformAll(n, [DoProcessOnce(executor)]) == ProcessOnce(n, executor).0;
  }

  lemma PolledThenRefused(n: Node, executor: Executor, job: JobId, token: Token, result: Acknowledgement,
                          revoked: Registry.Tables)
    requires !n.stopNewWork && n.ledger == [] && n.pending == [] && executor(job, token) == Reviewed(result)
    requires CallClaim(n).1 == JobEnvelope(job, token)
    requires |n.net| == 2 && n.net[1].before == [ChangeRegistry(revoked)] && !n.net[1].requestLost
             && !n.net[1].replyLost
    requires !Registry.ActiveRunner(revoked, n.me)
    ensures var n' := ProcessOnce(n, executor).0;
            && n'.ledger == [Handed(job, token, result), Escaped(job, token, result)]
            && n'.pending == [] && n'.db.log == CallClaim(n).0.db.log
  {
    var n1 := CallClaim(n).0;
    var n2 := n1.(jobs := RecordClaimed(n1.jobs, job, token));
    assert n2.net[0] == n.net[1] && n2.ledger == [] && n2.me == n.me;
    EscapesAtOnce(n2, job, token, result, revoked);
  }

  lemma ClaimedFirst(start: Db, db: Db, me: RunnerId, target: Target, job: JobId, token: Token)
    requires Initial(start) && db == Apply(start, DoEnqueue("delivery", true, Some(target), job))
    requires Registry.ActiveRunner(start.registry, me) && Registry.Assigned(start.registry, target.pr.repository, me)
    requires target.pr.repository.installation in start.registry.installations
    ensures RunnerClaim(db, me, token, job).1
    ensures RunnerClaim(db, me, token, job).0.log == [Enqueued(job, target.pr), ClaimedByRunner(job, me, token)]
  {
    assert job in db.jobs && RunnerEligible(db, job, me);
  }

  lemma EscapesAtOnce(n: Node, job: JobId, token: Token, result: Acknowledgement, revoked: Registry.Tables)
    requires n.net != [] && n.net[0].before == [ChangeRegistry(revoked)] && !n.net[0].requestLost && !n.net[0].replyLost
    requires !Registry.ActiveRunner(revoked, n.me)
    ensures var n' := CompleteJob(n, job, token, result).0;
            && n'.ledger == n.ledger + [Handed(job, token, result), Escaped(job, token, result)]
            && n'.pending == n.pending && n'.db.log == n.db.log
  {
    var before := n.net[0].before;
    assert before[1..] == [] && Run(n.db, before) == Apply(n.db, ChangeRegistry(revoked));
    assert n.ledger + [Handed(job, token, result)] + [] == n.ledger + [Handed(job, token, result)];
  }

  // ---- a landed acknowledgement whose reply was lost --------------------------------------------

  /** The first acknowledgement landed, its reply was lost, so the result sits in the table. If no
      requeue went through and no summary was pushed for the job since, the replay is accepted: the
      entry is cleared, the local job is completed, and nothing hosted changes by the call itself. */
  lemma LostReplyIsRecovered(n: Node, job: JobId, token: Token, result: Acknowledgement, e: PendingAck, db: Db,
                             quiet: seq<Op>)
    requires e.reason == NetworkUnreachable && e.job == job && e.token == token && e.result == result
    requires LeaseFencing.LeaseHolds(db, job, n.me, token) && Minted(db.log, token)
    requires n.db == Acknowledge(db, job, n.me, token, result).0
    requires var w := Sky(n);
             && quiet == w.before + w.between && Legal(n.db, quiet)
             && !w.requestLost && !w.replyLost && Authenticated(Run(n.db, w.before), n.me, w)
    ensures var n' := ReplayOne(n, e).0;
            if Overturned(n.db, quiet, job)
            then n'.pending == BumpRow(n.pending, e.rowId) && n'.db == Run(n.db, quiet)
            else && n'.db == Run(n.db, quiet)
                 && n'.pending == DropRow(n.pending, e.rowId)
                 && n'.jobs == SetLocal(n.jobs, job, LocalCompleted)
  {
    var w := Sky(n);
    RunAppend(n.db, w.before, w.between);
    ReplayOfLandedAck(db, quiet, job, n.me, token, result, result);
  }
}
