/** Runner pairing and repository assignment: create, approve, exchange and revoke as transactions on
    the registry tables. */
module Pairing {
  import opened Common
  import opened Registry

  const CODE_LIFETIME: Time := 600

  /** What an approval stored; `covered` is the verified access at that moment, a history variable. */
  datatype Approval = Approval(installation: int, repositories: seq<RepositoryId>, covered: set<int>)

  datatype Code = Code(
    deviceName: string, challenge: Hash, createdAt: Time, approval: Option<Approval>, exchanged: bool)

  /** `minted` lists, per exchange, the code and the runner it created; nothing reads it. */
  datatype State = State(now: Time, tables: Tables, codes: map<Hash, Code>, minted: seq<(Hash, RunnerId)>)

  datatype Access = Access(installation: int, repositories: set<int>)

  datatype Approved = Granted(repositories: seq<RepositoryId>) | ApprovalDenied(reason: PairingDenial)
  datatype PairingDenial =
    | InvalidOrExpiredCode | UnknownInstallation | RevokedInstallation | RepositoryNotInInstallation
  datatype Exchanged = Credential(runner: RunnerId, secret: string) | InvalidCode | Refused(repository: RepositoryId)
  datatype Status = PendingApproval | Exchangeable | InvalidOrExpired

  // ---- the transactions -------------------------------------------------------------------------

  predicate Alive(s: State, code: Code) { code.createdAt > s.now - CODE_LIFETIME }

  function Create(s: State, deviceName: string, challenge: Hash, secret: string): State {
    s.(codes := s.codes[Sha256(secret) := Code(deviceName, challenge, s.now, None, false)])
  }

  /** `_upsert_repository`, with the generated id for a new row. */
  function Upsert(t: Tables, repo: GitHubRepository, newId: RepositoryId): Tables {
    if repo in t.repositories then t else t.(repositories := t.repositories[repo := newId])
  }

  function UpsertAll(t: Tables, installation: int, ids: seq<int>, newIds: seq<RepositoryId>): Tables
    requires |ids| == |newIds|
    decreases ids
  {
    if ids == [] then t
    else UpsertAll(Upsert(t, GitHubRepository(installation, ids[0]), newIds[0]), installation, ids[1..], newIds[1..])
  }

  /** The row ids of the listed repositories, after the upserts. */
  function RowIds(t: Tables, installation: int, ids: seq<int>): seq<RepositoryId>
    requires forall i | 0 <= i < |ids| :: GitHubRepository(installation, ids[i]) in t.repositories
  {
    seq(|ids|, i requires 0 <= i < |ids| => t.repositories[GitHubRepository(installation, ids[i])])
  }

  lemma {:induction false} UpsertAllRegisters(t: Tables, installation: int, ids: seq<int>, newIds: seq<RepositoryId>)
    requires |ids| == |newIds|
    ensures forall i | 0 <= i < |ids| ::
              GitHubRepository(installation, ids[i]) in UpsertAll(t, installation, ids, newIds).repositories
    ensures forall repo | repo in t.repositories ::
              && repo in UpsertAll(t, installation, ids, newIds).repositories
              && UpsertAll(t, installation, ids, newIds).repositories[repo] == t.repositories[repo]
    ensures UpsertAll(t, installation, ids, newIds).(repositories := t.repositories) == t
    decreases ids
  {
    if ids != [] {
      var t' := Upsert(t, GitHubRepository(installation, ids[0]), newIds[0]);
      UpsertAllRegisters(t', installation, ids[1..], newIds[1..]);
      assert GitHubRepository(installation, ids[0]) in t'.repositories;
    }
  }

  /** `approve_pairing_by_hash`; `newIds` are the ids generated for rows that do not exist yet. */
  function Approve(s: State, codeHash: Hash, access: Access, ids: seq<int>, newIds: seq<RepositoryId>)
    : (State, Approved)
    requires |ids| == |newIds|
  {
    if codeHash !in s.codes || s.codes[codeHash].approval.Some? || !Alive(s, s.codes[codeHash]) then
      (s, ApprovalDenied(InvalidOrExpiredCode))
    else if access.installation !in s.tables.installations then (s, ApprovalDenied(PairingDenial.UnknownInstallation))
    else if s.tables.installations[access.installation] then (s, ApprovalDenied(PairingDenial.RevokedInstallation))
    else if exists i | 0 <= i < |ids| :: ids[i] !in access.repositories then
      (s, ApprovalDenied(RepositoryNotInInstallation))
    else
      UpsertAllRegisters(s.tables, access.installation, ids, newIds);
      var tables := UpsertAll(s.tables, access.installation, ids, newIds);
      var rows := RowIds(tables, access.installation, ids);
      var approval := Approval(access.installation, rows, access.repositories);
      (s.(tables := tables, codes := s.codes[codeHash := s.codes[codeHash].(approval := Some(approval))]),
       Approved.Granted(rows))
  }

  predicate Held(assignments: set<Assignment>, repository: RepositoryId) {
    exists a | a in assignments :: a.repository == repository
  }

  /** The assignment loop of an exchange; a conflict names the repository that is taken. */
  datatype Assigned = AllAssigned(assignments: set<Assignment>) | Conflict(repository: RepositoryId)

  function AssignAll(assignments: set<Assignment>, repositories: seq<RepositoryId>, runner: RunnerId): Assigned
    decreases repositories
  {
    if repositories == [] then AllAssigned(assignments)
    else if Held(assignments, repositories[0]) then Conflict(repositories[0])
    else AssignAll(assignments + {Assignment(repositories[0], runner)}, repositories[1..], runner)
  }

  /** The `where` clause of the exchange. */
  predicate Redeemable(s: State, codeHash: Hash, proofHash: Hash) {
    && codeHash in s.codes
    && s.codes[codeHash].challenge == proofHash
    && s.codes[codeHash].approval.Some? && !s.codes[codeHash].exchanged
    && Alive(s, s.codes[codeHash])
  }

  /** `exchange_pairing_code`; `runner` and `secret` are generated. */
  function Exchange(s: State, code: string, proof: string, runner: RunnerId, secret: string): (State, Exchanged) {
    var hash := Sha256(code);
    if !Redeemable(s, hash, Sha256(proof)) then (s, InvalidCode)
    else
      var row := s.codes[hash];
      match AssignAll(s.tables.assignments, row.approval.value.repositories, runner)
      case Conflict(repository) => (s, Refused(repository))
      case AllAssigned(assignments) =>
        var runners := s.tables.runners[runner := Runner(row.deviceName, Sha256(secret), false)];
        (s.(tables := s.tables.(runners := runners, assignments := assignments),
            codes := s.codes[hash := row.(exchanged := true)],
            minted := s.minted + [(hash, runner)]),
         Credential(runner, secret))
  }

  function StatusOf(s: State, code: string, challenge: Hash): Status {
    var hash := Sha256(code);
    if hash !in s.codes || s.codes[hash].challenge != challenge || !Alive(s, s.codes[hash]) || s.codes[hash].exchanged
    then InvalidOrExpired
    else if s.codes[hash].approval.Some? then Exchangeable
    else PendingApproval
  }

  /** `revoke_runner`: the row stays, its assignments go. */
  function Revoke(s: State, runner: RunnerId): State {
    var runners := if runner in s.tables.runners
                   then s.tables.runners[runner := s.tables.runners[runner].(revoked := true)] else s.tables.runners;
    s.(tables := s.tables.(runners := runners, assignments := set a | a in s.tables.assignments && a.runner != runner))
  }

  // ---- histories --------------------------------------------------------------------------------

  datatype Op =
    | Tick(seconds: nat)
    | SetInstallation(installation: int, revoked: bool)
    | RegisterRepository(repo: GitHubRepository, newId: RepositoryId)
    | CreateCode(deviceName: string, challenge: Hash, secret: string)
    | ApproveCode(codeHash: Hash, access: Access, ids: seq<int>, newIds: seq<RepositoryId>)
    | ExchangeCode(code: string, proof: string, runner: RunnerId, secret: string)
    | RevokeRunner(runner: RunnerId)

  predicate Fits(op: Op) { op.ApproveCode? ==> |op.ids| == |op.newIds| }

  function Apply(s: State, op: Op): State
    requires Fits(op)
  {
    match op
    case Tick(seconds) => s.(now := s.now + seconds)
    case SetInstallation(installation, revoked) =>
      s.(tables := s.tables.(installations := s.tables.installations[installation := revoked]))
    case RegisterRepository(repo, newId) => s.(tables := Upsert(s.tables, repo, newId))
    case CreateCode(deviceName, challenge, secret) => Create(s, deviceName, challenge, secret)
    case ApproveCode(codeHash, access, ids, newIds) => Approve(s, codeHash, access, ids, newIds).0
    case ExchangeCode(code, proof, runner, secret) => Exchange(s, code, proof, runner, secret).0
    case RevokeRunner(runner) => Revoke(s, runner)
  }

  /** Generated codes and runner ids are new. */
  predicate Fresh(s: State, op: Op) {
    && Fits(op)
    && (op.CreateCode? ==> Sha256(op.secret) !in s.codes)
    && (op.ExchangeCode? ==> op.runner !in s.tables.runners)
  }

  predicate Legal(s: State, ops: seq<Op>)
    decreases ops
  {
    ops == [] || (Fresh(s, ops[0]) && Legal(Apply(s, ops[0]), ops[1..]))
  }

  function Run(s: State, ops: seq<Op>): State
    requires Legal(s, ops)
    decreases ops
  {
    if ops == [] then s else Run(Apply(s, ops[0]), ops[1..])
  }

  predicate Initial(s: State) {
    s.tables.runners == map[] && s.tables.assignments == {} && s.codes == map[] && s.minted == []
  }
}
