/** The `review_jobs` row as a state machine. Every SQL transaction that touches a row is one
    function on the database value; `Apply` runs one transaction and `Run` a whole history. */
module ReviewJobs {
  import opened Common
  import Registry

  const LEASE_INTERVAL: Time := 300
  const RETRY_INTERVAL: Time := 60
  const MAX_ATTEMPTS := 3

  type JobId = string
  type RunnerId = Registry.RunnerId
  type WorkerId = string
  type Token = string

  /** `review_jobs.locked_by`. Worker ids and runner ids never coincide. */
  datatype Owner = RunnerOwner(runner: RunnerId) | WorkerOwner(worker: WorkerId)

  datatype Status =
    | Pending | Running | Succeeded | Failed
    | Superseded | Cancelled | Completed | StoppedEarly

  datatype PullRequest = PullRequest(repository: Registry.GitHubRepository, number: int)
  datatype Target = Target(pr: PullRequest, headSha: string)

  datatype Job = Job(
    status: Status,
    target: Option<Target>,
    lockedBy: Option<Owner>,
    leaseHash: Option<Hash>,
    lockedUntil: Option<Time>,
    attempts: nat,
    availableAt: Time,
    createdAt: Time,
    lastError: Option<string>)

  datatype Acknowledgement = Acknowledgement(succeeded: bool, errorClass: Option<string>, resultHash: string)

  /** `Acknowledged`, `RetryScheduled` and `DeadLettered` are the rows of `agent_events`; the other
      entries are history variables that no transaction reads. */
  datatype Entry =
    | Acknowledged(job: JobId, runner: RunnerId, token: Token, succeeded: bool)
    | RetryScheduled(job: JobId)
    | DeadLettered(job: JobId)
    | ClaimedByRunner(job: JobId, runner: RunnerId, token: Token)
    | ClaimedByWorker(job: JobId, worker: WorkerId)
    | Requeued(job: JobId)
    | Enqueued(job: JobId, pr: PullRequest)

  datatype Db = Db(
    now: Time,
    registry: Registry.Tables,
    jobs: map<JobId, Job>,
    deliveries: set<string>,
    log: seq<Entry>)

  // ---- the transactions -------------------------------------------------------------------

  predicate Active(job: Job) { job.status == Pending || job.status == Running }

  predicate ForPullRequest(job: Job, pr: PullRequest) {
    job.target.Some? && job.target.value.pr == pr
  }

  /** The `where` clause both claims share. A null `locked_until` is not due. */
  predicate Due(job: Job, now: Time) {
    || (job.status == Pending && job.availableAt <= now)
    || (job.status == Running && job.lockedUntil.Some? && job.lockedUntil.value <= now)
  }

  predicate WorkerEligible(db: Db, id: JobId) {
    id in db.jobs && Due(db.jobs[id], db.now)
  }

  predicate RunnerEligible(db: Db, id: JobId, runner: RunnerId) {
    && WorkerEligible(db, id)
    && db.jobs[id].target.Some?
    && Registry.Assigned(db.registry, db.jobs[id].target.value.pr.repository, runner)
  }

  function NewJob(now: Time, target: Option<Target>): Job {
    Job(Pending, target, None, None, None, 0, now, now, None)
  }

  function SetStatus(jobs: map<JobId, Job>, pr: PullRequest, status: Status): map<JobId, Job> {
    map id | id in jobs :: UpdatedRow(jobs[id], pr, status)
  }

  function UpdatedRow(job: Job, pr: PullRequest, status: Status): Job {
    if Active(job) && ForPullRequest(job, pr) then job.(status := status) else job
  }

  datatype EnqueueResult = EnqueuedJob | Duplicate | Ignored

  /** `enqueue_review_job`; `newId` is the generated row id. */
  function Enqueue(db: Db, delivery: string, isPullRequest: bool, identity: Option<Target>, newId: JobId)
    : (Db, EnqueueResult)
  {
    if !isPullRequest then (db, Ignored)
    else if delivery in db.deliveries then (db, Duplicate)
    else
      var db := db.(deliveries := db.deliveries + {delivery});
      if identity.None? || identity.value.pr.repository.installation !in db.registry.installations then
        (db.(jobs := db.jobs[newId := NewJob(db.now, None)]), EnqueuedJob)
      else
        var pr := identity.value.pr;
        (db.(jobs := SetStatus(db.jobs, pr, Superseded)[newId := NewJob(db.now, identity)],
             log := db.log + [Enqueued(newId, pr)]),
         EnqueuedJob)
  }

  /** `cancel_review_job`; the flag is false for a duplicate delivery. */
  function Cancel(db: Db, delivery: string, pr: PullRequest): (Db, bool) {
    if delivery in db.deliveries then (db, false)
    else (db.(deliveries := db.deliveries + {delivery}, jobs := SetStatus(db.jobs, pr, Cancelled)), true)
  }

  /** `claim_review_job` on the row the database picked; the old `lease_token_hash` stays. */
  function WorkerClaim(db: Db, worker: WorkerId, pick: JobId): Db {
    if !WorkerEligible(db, pick) then db
    else
      var job := db.jobs[pick];
      db.(jobs := db.jobs[pick := job.(status := Running,
                                       lockedBy := Some(WorkerOwner(worker)),
                                       lockedUntil := Some(db.now + LEASE_INTERVAL),
                                       attempts := job.attempts + 1)],
          log := db.log + [ClaimedByWorker(pick, worker)])
  }

  predicate OwnedByWorker(db: Db, id: JobId, worker: WorkerId) {
    && id in db.jobs
    && db.jobs[id].status == Running
    && db.jobs[id].lockedBy == Some(WorkerOwner(worker))
  }

  function WorkerRenew(db: Db, id: JobId, worker: WorkerId): (Db, bool) {
    if && OwnedByWorker(db, id, worker)
       && db.jobs[id].lockedUntil.Some? && db.jobs[id].lockedUntil.value > db.now
    then (db.(jobs := db.jobs[id := db.jobs[id].(lockedUntil := Some(db.now + LEASE_INTERVAL))]), true)
    else (db, false)
  }

  function WorkerComplete(db: Db, id: JobId, worker: WorkerId): (Db, bool) {
    if OwnedByWorker(db, id, worker)
    then (db.(jobs := db.jobs[id := db.jobs[id].(status := Succeeded, lockedBy := None, lockedUntil := None)]), true)
    else (db, false)
  }

  /** `fail_review_job`: retry while attempts are left, otherwise dead. */
  function WorkerFail(db: Db, id: JobId, worker: WorkerId, error: string): (Db, bool) {
    if !OwnedByWorker(db, id, worker) then (db, false)
    else
      var job := db.jobs[id].(lockedBy := None, lockedUntil := None, lastError := Some(error));
      if job.attempts >= MAX_ATTEMPTS
      then (db.(jobs := db.jobs[id := job.(status := Failed)], log := db.log + [DeadLettered(id)]), true)
      else (db.(jobs := db.jobs[id := job.(status := Pending, availableAt := db.now + RETRY_INTERVAL)],
                log := db.log + [RetryScheduled(id)]), true)
  }

  /** `claim_job`; `token` is the freshly generated lease token, the flag says a job was handed out. */
  function RunnerClaim(db: Db, runner: RunnerId, token: Token, pick: JobId): (Db, bool) {
    if !Registry.ActiveRunner(db.registry, runner) || !RunnerEligible(db, pick, runner) then (db, false)
    else
      var job := db.jobs[pick];
      (db.(jobs := db.jobs[pick := job.(status := Running,
                                        lockedBy := Some(RunnerOwner(runner)),
                                        leaseHash := Some(Sha256(token)),
                                        lockedUntil := Some(db.now + LEASE_INTERVAL),
                                        attempts := job.attempts + 1)],
           log := db.log + [ClaimedByRunner(pick, runner, token)]), true)
  }

  predicate LockedBy(job: Job, runner: RunnerId, token: Token) {
    job.lockedBy == Some(RunnerOwner(runner)) && job.leaseHash == Some(Sha256(token))
  }

  datatype LeaseState = LeaseActive | LeaseCancelled | LeaseInvalid

  function Heartbeat(db: Db, id: JobId, runner: RunnerId, token: Token): (Db, LeaseState) {
    if && id in db.jobs && db.jobs[id].status == Running && LockedBy(db.jobs[id], runner, token)
       && db.jobs[id].lockedUntil.Some? && db.jobs[id].lockedUntil.value > db.now
    then (db.(jobs := db.jobs[id := db.jobs[id].(lockedUntil := Some(db.now + LEASE_INTERVAL))]), LeaseActive)
    else if id in db.jobs && db.jobs[id].status == Cancelled && LockedBy(db.jobs[id], runner, token)
    then (db, LeaseCancelled)
    else (db, LeaseInvalid)
  }

  /** `acknowledge_job`; the flag is false when it raises `JobProtocolDenied`. */
  function Acknowledge(db: Db, id: JobId, runner: RunnerId, token: Token, ack: Acknowledgement): (Db, bool) {
    if id !in db.jobs then (db, false)
    else
      var job := db.jobs[id];
      if !LockedBy(job, runner, token) then (db, false)
      else if job.status == Succeeded || job.status == Failed then (db, true)
      else if job.status != Running || job.lockedUntil.None? then (db, false)
      else if job.lockedUntil.value <= db.now then (db, false)
      else
        (db.(jobs := db.jobs[id := job.(status := if ack.succeeded then Succeeded else Failed,
                                        lastError := ack.errorClass,
                                        lockedUntil := None)],
             log := db.log + [Acknowledged(id, runner, token, ack.succeeded)]), true)
  }

  /** The unique index on active rows with one pull request and head. */
  predicate HeadConflict(jobs: map<JobId, Job>, id: JobId)
    requires id in jobs
  {
    && jobs[id].target.Some?
    && exists other | other in jobs :: other != id && Active(jobs[other]) && jobs[other].target == jobs[id].target
  }

  /** `requeue_review_job`; refused unless the row is failed and its head has no active row. */
  function Requeue(db: Db, id: JobId): (Db, bool) {
    if id !in db.jobs || db.jobs[id].status != Failed || HeadConflict(db.jobs, id) then (db, false)
    else
      (db.(jobs := db.jobs[id := db.jobs[id].(status := Pending, attempts := 0, lastError := None,
                                              lockedBy := None, lockedUntil := None, availableAt := db.now)],
           log := db.log + [Requeued(id)]), true)
  }

  /** `save_pushed_review_summary` on the job row: insert, or overwrite status and target. */
  function Push(db: Db, id: JobId, target: Target, stopped: bool): Db {
    var status := if stopped then StoppedEarly else Completed;
    var row := if id in db.jobs then db.jobs[id] else NewJob(db.now, None);
    db.(jobs := db.jobs[id := row.(status := status, target := Some(target))])
  }

  /** `issue_job_token`: the lease check, then a live authorization; it writes nothing. */
  predicate TokenIssued(db: Db, id: JobId, runner: RunnerId, token: Token) {
    && id in db.jobs
    && var job := db.jobs[id];
    && LockedBy(job, runner, token)
    && job.status == Running && job.lockedUntil.Some?
    && !(job.lockedUntil.value <= db.now)
    && job.target.Some?
    && Registry.AuthorizeRepository(db.registry, job.target.value.pr.repository, runner).Granted?
  }

  /** The log holds an acknowledgement of the job by this pair, successful or not. */
  predicate AckLogged(log: seq<Entry>, id: JobId, runner: RunnerId, token: Token) {
    Acknowledged(id, runner, token, true) in log || Acknowledged(id, runner, token, false) in log
  }

  // ---- histories --------------------------------------------------------------------------

  datatype Op =
    | Tick(seconds: nat)
    | ChangeRegistry(tables: Registry.Tables)
    | DoEnqueue(delivery: string, isPullRequest: bool, identity: Option<Target>, newId: JobId)
    | DoCancel(delivery: string, pr: PullRequest)
    | DoWorkerClaim(worker: WorkerId, pick: JobId)
    | DoWorkerRenew(job: JobId, worker: WorkerId)
    | DoWorkerComplete(job: JobId, worker: WorkerId)
    | DoWorkerFail(job: JobId, worker: WorkerId, error: string)
    | DoRunnerClaim(runner: RunnerId, token: Token, pick: JobId)
    | DoHeartbeat(job: JobId, runner: RunnerId, token: Token)
    | DoAcknowledge(job: JobId, runner: RunnerId, token: Token, ack: Acknowledgement)
    | DoRequeue(job: JobId)
    | DoPush(job: JobId, target: Target, stopped: bool)

  function Apply(db: Db, op: Op): Db {
    match op
    case Tick(seconds) => db.(now := db.now + seconds)
    case ChangeRegistry(tables) => db.(registry := tables)
    case DoEnqueue(delivery, isPullRequest, identity, newId) => Enqueue(db, delivery, isPullRequest, identity, newId).0
    case DoCancel(delivery, pr) => Cancel(db, delivery, pr).0
    case DoWorkerClaim(worker, pick) => WorkerClaim(db, worker, pick)
    case DoWorkerRenew(job, worker) => WorkerRenew(db, job, worker).0
    case DoWorkerComplete(job, worker) => WorkerComplete(db, job, worker).0
    case DoWorkerFail(job, worker, error) => WorkerFail(db, job, worker, error).0
    case DoRunnerClaim(runner, token, pick) => RunnerClaim(db, runner, token, pick).0
    case DoHeartbeat(job, runner, token) => Heartbeat(db, job, runner, token).0
    case DoAcknowledge(job, runner, token, ack) => Acknowledge(db, job, runner, token, ack).0
    case DoRequeue(job) => Requeue(db, job).0
    case DoPush(job, target, stopped) => Push(db, job, target, stopped)
  }

  /** The token was handed out by some earlier runner claim. */
  predicate Minted(log: seq<Entry>, token: Token) {
    exists i | 0 <= i < |log| :: log[i].ClaimedByRunner? && log[i].token == token
  }

  /** Generated lease tokens and generated row ids are new. */
  predicate Fresh(db: Db, op: Op) {
    match op
    case DoRunnerClaim(_, token, _) => !Minted(db.log, token)
    case DoEnqueue(_, _, _, newId) => newId !in db.jobs
    case _ => true
  }

  function Run(db: Db, ops: seq<Op>): Db
    decreases ops
  {
    if ops == [] then db else Run(Apply(db, ops[0]), ops[1..])
  }

  predicate Legal(db: Db, ops: seq<Op>)
    decreases ops
  {
    ops == [] || (Fresh(db, ops[0]) && Legal(Apply(db, ops[0]), ops[1..]))
  }

  predicate Initial(db: Db) {
    db.jobs == map[] && db.deliveries == {} && db.log == []
  }

  lemma {:induction false} RunAppend(db: Db, a: seq<Op>, b: seq<Op>)
    ensures Run(db, a + b) == Run(Run(db, a), b)
    ensures Legal(db, a + b) <==> Legal(db, a) && Legal(Run(db, a), b)
    decreases a
  {
    if a == [] {
      assert a + b == b;
    } else {
      assert (a + b)[0] == a[0] && (a + b)[1..] == a[1..] + b;
      RunAppend(Apply(db, a[0]), a[1..], b);
    }
  }
}
