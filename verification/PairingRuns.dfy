/** What every history of pairing, exchange and revocation keeps. */
module PairingRuns {
  import opened Common
  import opened Registry
  import opened Pairing

  // ---- one exchange -----------------------------------------------------------------------------

  ghost predicate Distinct(repositories: seq<RepositoryId>) {
    forall i, j | 0 <= i < j < |repositories| :: repositories[i] != repositories[j]
  }

  /** The assignments of a runner to the listed repositories. */
  function AssignmentsOf(repositories: seq<RepositoryId>, runner: RunnerId): set<Assignment> {
    set r | r in repositories :: Assignment(r, runner)
  }

  /** The loop assigns everything exactly when nothing is listed twice and nothing is held. */
  lemma {:induction false} AssignAllExactly(assignments: set<Assignment>, repositories: seq<RepositoryId>,
                                            runner: RunnerId)
    ensures AssignAll(assignments, repositories, runner).AllAssigned? <==>
              Distinct(repositories) && forall r | r in repositories :: !Held(assignments, r)
    ensures AssignAll(assignments, repositories, runner).AllAssigned? ==>
              AssignAll(assignments, repositories, runner).assignments ==
                assignments + AssignmentsOf(repositories, runner)
    decreases repositories
  {
    if repositories != [] {
      var head, rest := repositories[0], repositories[1..];
      assert repositories == [head] + rest;
      if !Held(assignments, head) {
        var more := assignments + {Assignment(head, runner)};
        AssignAllExactly(more, rest, runner);
        HeldMore(assignments, head, runner);
        assert Distinct(repositories) <==> Distinct(rest) && head !in rest by {
          DistinctHead(head, rest);
        }
        assert AssignmentsOf(repositories, runner) == {Assignment(head, runner)} + AssignmentsOf(rest, runner);
      } else {
        assert head in repositories;
      }
    }
  }

  lemma HeldMore(assignments: set<Assignment>, head: RepositoryId, runner: RunnerId)
    ensures forall r :: Held(assignments + {Assignment(head, runner)}, r) <==> r == head || Held(assignments, r)
  {
    var more := assignments + {Assignment(head, runner)};
    forall r
      ensures Held(more, r) <==> r == head || Held(assignments, r)
    {
      assert Assignment(head, runner) in more;
      if Held(assignments, r) {
        var a :| a in assignments && a.repository == r;
        assert a in more;
      }
    }
  }

  lemma DistinctHead(head: RepositoryId, rest: seq<RepositoryId>)
    ensures Distinct([head] + rest) <==> Distinct(rest) && head !in rest
  {
    var all := [head] + rest;
    assert forall i | 0 <= i < |rest| :: all[i + 1] == rest[i];
    if Distinct(all) {
      forall i, j | 0 <= i < j < |rest|
        ensures rest[i] != rest[j]
      {
        assert all[i + 1] != all[j + 1];
      }
      forall i | 0 <= i < |rest|
        ensures rest[i] != head
      {
        assert all[0] != all[i + 1];
      }
    }
  }

  /** The exchange answers, completely: invalid exactly when the code cannot be redeemed with this proof;
      a credential exactly when additionally the approval lists no repository twice and none of
      them is held; and anything but a credential leaves the whole state unchanged. */
  lemma ExchangeAnswers(s: State, code: string, proof: string, runner: RunnerId, secret: string)
    ensures var (s', answer) := Exchange(s, code, proof, runner, secret);
            var ok := Redeemable(s, Sha256(code), Sha256(proof));
            && (answer.InvalidCode? <==> !ok)
            && (answer.Credential? <==>
                  && ok && Distinct(s.codes[Sha256(code)].approval.value.repositories)
                  && forall r | r in s.codes[Sha256(code)].approval.value.repositories ::
                    !Held(s.tables.assignments, r))
            && (!answer.Credential? ==> s' == s)
  {
    if Redeemable(s, Sha256(code), Sha256(proof)) {
      AssignAllExactly(s.tables.assignments, s.codes[Sha256(code)].approval.value.repositories, runner);
    }
  }

  /** The status says exchangeable exactly when an exchange with the matching proof would not be told
      that the code is invalid or expired. */
  lemma StatusPredictsExchange(s: State, code: string, proof: string, runner: RunnerId, secret: string)
    ensures StatusOf(s, code, Sha256(proof)) == Exchangeable <==>
              !Exchange(s, code, proof, runner, secret).1.InvalidCode?
  {
    ExchangeAnswers(s, code, proof, runner, secret);
  }

  // ---- invariants -------------------------------------------------------------------------------

  /** Each repository has at most one holder, and holders are not revoked. */
  ghost predicate OneActiveHolder(t: Tables) {
    && (forall a, b | a in t.assignments && b in t.assignments && a.repository == b.repository :: a == b)
    && (forall a | a in t.assignments :: ActiveRunner(t, a.runner))
  }

  function Mints(minted: seq<(Hash, RunnerId)>, code: Hash): nat {
    if minted == [] then 0 else (if minted[|minted| - 1].0 == code then 1 else 0) + Mints(minted[..|minted| - 1], code)
  }

  lemma MintsAppend(minted: seq<(Hash, RunnerId)>, e: (Hash, RunnerId), code: Hash)
    ensures Mints(minted + [e], code) == Mints(minted, code) + (if e.0 == code then 1 else 0)
  {
    assert (minted + [e])[..|minted|] == minted;
  }

  /** A code has minted one runner if it was exchanged and none otherwise. */
  ghost predicate MintedOnce(s: State, code: Hash) {
    Mints(s.minted, code) == if code in s.codes && s.codes[code].exchanged then 1 else 0
  }

  /** Approved repositories are rows of the approved installation, inside the access that was verified. */
  ghost predicate WithinAccess(t: Tables, a: Approval) {
    forall r | r in a.repositories ::
      exists g | g in a.covered ::
        GitHubRepository(a.installation, g) in t.repositories
          && t.repositories[GitHubRepository(a.installation, g)] == r
  }

  ghost predicate ApprovalsWithinAccess(s: State) {
    forall code | code in s.codes && s.codes[code].approval.Some? ::
      WithinAccess(s.tables, s.codes[code].approval.value)
  }

  lemma AssigningKeepsHolders(t: Tables, repositories: seq<RepositoryId>, runner: RunnerId, row: Runner)
    requires OneActiveHolder(t) && runner !in t.runners && !row.revoked
    requires AssignAll(t.assignments, repositories, runner).AllAssigned?
    ensures OneActiveHolder(t.(runners := t.runners[runner := row],
                               assignments := AssignAll(t.assignments, repositories, runner).assignments))
  {
    AssignAllExactly(t.assignments, repositories, runner);
    var t' := t.(runners := t.runners[runner := row],
                 assignments := AssignAll(t.assignments, repositories, runner).assignments);
    forall a, b | a in t'.assignments && b in t'.assignments && a.repository == b.repository
      ensures a == b
    {
      assert a in t.assignments ==> Held(t.assignments, a.repository);
      assert b in t.assignments ==> Held(t.assignments, b.repository);
    }
  }

  lemma ApplyKeepsHolders(s: State, op: Op)
    requires OneActiveHolder(s.tables) && Fresh(s, op)
    ensures OneActiveHolder(Apply(s, op).tables)
  {
    match op
    case ExchangeCode(code, proof, runner, secret) =>
      if Exchange(s, code, proof, runner, secret).1.Credential? {
        var row := s.codes[Sha256(code)];
        AssigningKeepsHolders(s.tables, row.approval.value.repositories, runner,
                              Runner(row.deviceName, Sha256(secret), false));
      }
    case ApproveCode(codeHash, access, ids, newIds) =>
      UpsertAllRegisters(s.tables, access.installation, ids, newIds);
    case RevokeRunner(runner) =>
      var t, t' := s.tables, Revoke(s, runner).tables;
      forall a | a in t'.assignments
        ensures ActiveRunner(t', a.runner)
      {
        assert a in t.assignments && a.runner != runner;
      }
    case _ =>
  }

  lemma ApplyKeepsMintedOnce(s: State, op: Op, code: Hash)
    requires MintedOnce(s, code) && Fresh(s, op)
    ensures MintedOnce(Apply(s, op), code)
  {
    var s' := Apply(s, op);
    if op.ExchangeCode? && s'.minted != s.minted {
      MintsAppend(s.minted, (Sha256(op.code), op.runner), code);
    }
  }

  lemma WithinAccessStays(t: Tables, t': Tables, a: Approval)
    requires WithinAccess(t, a)
    requires forall repo | repo in t.repositories ::
               repo in t'.repositories && t'.repositories[repo] == t.repositories[repo]
    ensures WithinAccess(t', a)
  {
    forall r | r in a.repositories
      ensures exists g | g in a.covered ::
                GitHubRepository(a.installation, g) in t'.repositories
                  && t'.repositories[GitHubRepository(a.installation, g)] == r
    {
      var g :| g in a.covered && GitHubRepository(a.installation, g) in t.repositories
               && t.repositories[GitHubRepository(a.installation, g)] == r;
      assert GitHubRepository(a.installation, g) in t'.repositories;
    }
  }

  lemma ApprovedWithinAccess(s: State, codeHash: Hash, access: Access, ids: seq<int>, newIds: seq<RepositoryId>)
    requires |ids| == |newIds| && Approve(s, codeHash, access, ids, newIds).1.Granted?
    ensures var s' := Approve(s, codeHash, access, ids, newIds).0;
            WithinAccess(s'.tables, s'.codes[codeHash].approval.value)
  {
    UpsertAllRegisters(s.tables, access.installation, ids, newIds);
    var s' := Approve(s, codeHash, access, ids, newIds).0;
    var a := s'.codes[codeHash].approval.value;
    forall r | r in a.repositories
      ensures exists g | g in a.covered ::
                GitHubRepository(a.installation, g) in s'.tables.repositories
                && s'.tables.repositories[GitHubRepository(a.installation, g)] == r
    {
      var i :| 0 <= i < |ids| && a.repositories[i] == r;
      assert ids[i] in access.repositories;
      assert GitHubRepository(a.installation, ids[i]) in s'.tables.repositories;
    }
  }

  lemma RepositoriesOnlyGrow(s: State, op: Op)
    requires Fits(op)
    ensures forall repo | repo in s.tables.repositories ::
              repo in Apply(s, op).tables.repositories
                && Apply(s, op).tables.repositories[repo] == s.tables.repositories[repo]
  {
    if op.ApproveCode? {
      UpsertAllRegisters(s.tables, op.access.installation, op.ids, op.newIds);
    }
  }

  lemma ApplyKeepsWithinAccess(s: State, op: Op)
    requires ApprovalsWithinAccess(s) && Fresh(s, op)
    ensures ApprovalsWithinAccess(Apply(s, op))
  {
    var s' := Apply(s, op);
    RepositoriesOnlyGrow(s, op);
    forall code | code in s'.codes && s'.codes[code].approval.Some?
      ensures WithinAccess(s'.tables, s'.codes[code].approval.value)
    {
      if code in s.codes && s'.codes[code].approval == s.codes[code].approval {
        WithinAccessStays(s.tables, s'.tables, s.codes[code].approval.value);
      } else {
        ApprovedWithinAccess(s, op.codeHash, op.access, op.ids, op.newIds);
      }
    }
  }

  ghost predicate Sound(s: State) {
    OneActiveHolder(s.tables) && ApprovalsWithinAccess(s) && forall code :: MintedOnce(s, code)
  }

  lemma {:induction false} RunKeepsSound(s: State, ops: seq<Op>)
    requires Sound(s) && Legal(s, ops)
    ensures Sound(Run(s, ops))
    decreases ops
  {
    if ops != [] {
      var s' := Apply(s, ops[0]);
      ApplyKeepsHolders(s, ops[0]);
      ApplyKeepsWithinAccess(s, ops[0]);
      forall code
        ensures MintedOnce(s', code)
      {
        ApplyKeepsMintedOnce(s, ops[0], code);
      }
      RunKeepsSound(s', ops[1..]);
    }
  }

  // ---- theorems ---------------------------------------------------------------------------------

  /** Over every run: each code has created at most one runner; each repository has at most one holder, who
      is not revoked; and every approval stays inside the access verified for it. */
  lemma PairingIsSound(start: State, ops: seq<Op>, code: Hash)
    requires Initial(start) && Legal(start, ops)
    ensures var s := Run(start, ops);
            Mints(s.minted, code) <= 1 && OneActiveHolder(s.tables) && ApprovalsWithinAccess(s)
  {
    RunKeepsSound(start, ops);
    assert MintedOnce(Run(start, ops), code);
  }

  /** The repositories a runner holds. */
  function RepositoriesOf(t: Tables, runner: RunnerId): set<RepositoryId> {
    set a | a in t.assignments && a.runner == runner :: a.repository
  }

  /** At exchange, a runner gets exactly the approved repositories, all inside the verified access, and
      no other runner's repositories change. */
  lemma ExchangeGrantsExactlyApproved(start: State, ops: seq<Op>, code: string, proof: string, runner: RunnerId,
                                      secret: string)
    requires Initial(start) && Legal(start, ops)
    requires var s := Run(start, ops);
             runner !in s.tables.runners && Exchange(s, code, proof, runner, secret).1.Credential?
    ensures var s := Run(start, ops);
            var s' := Exchange(s, code, proof, runner, secret).0;
            var a := s.codes[Sha256(code)].approval.value;
            && RepositoriesOf(s'.tables, runner) == (set r | r in a.repositories)
            && WithinAccess(s'.tables, a)
            && forall other | other != runner :: RepositoriesOf(s'.tables, other) == RepositoriesOf(s.tables, other)
  {
    RunKeepsSound(start, ops);
    var s := Run(start, ops);
    var s' := Exchange(s, code, proof, runner, secret).0;
    var a := s.codes[Sha256(code)].approval.value;
    AssignAllExactly(s.tables.assignments, a.repositories, runner);
    assert forall x | x in s.tables.assignments :: x.runner != runner by {
      assert forall x | x in s.tables.assignments :: ActiveRunner(s.tables, x.runner);
    }
    forall r | r in a.repositories
      ensures r in RepositoriesOf(s'.tables, runner)
    {
      assert Assignment(r, runner) in s'.tables.assignments;
    }
    forall other, r | other != runner && r in RepositoriesOf(s.tables, other)
      ensures r in RepositoriesOf(s'.tables, other)
    {
      assert Assignment(r, other) in s'.tables.assignments;
    }
    WithinAccessStays(s.tables, s'.tables, a);
  }

  /** Listing a repository twice in an approval makes the code useless: its status says exchangeable, and
      every exchange is refused, whoever holds what. */
  lemma RepeatedRepositoryIsNeverExchanged(s: State, code: string, proof: string, runner: RunnerId, secret: string)
    requires Redeemable(s, Sha256(code), Sha256(proof)) && !Distinct(s.codes[Sha256(code)].approval.value.repositories)
    ensures StatusOf(s, code, Sha256(proof)) == Exchangeable && Exchange(s, code, proof, runner, secret).1.Refused?
  {
    ExchangeAnswers(s, code, proof, runner, secret);
  }

  /** A run that ends there: a code is created and approved for one repository listed twice. */
  lemma RepeatedRepositoryRun(start: State, deviceName: string, secret: string, proof: string, access: Access, id: int,
                              row: RepositoryId)
    returns (ops: seq<Op>)
    requires Initial(start) && id in access.repositories
    ensures Legal(start, ops)
    ensures var s := Run(start, ops);
            StatusOf(s, secret, Sha256(proof)) == Exchangeable &&
            forall runner, credential :: Exchange(s, secret, proof, runner, credential).1.Refused?
  {
    var op0 := SetInstallation(access.installation, false);
    var op1 := CreateCode(deviceName, Sha256(proof), secret);
    var op2 := ApproveCode(Sha256(secret), access, [id, id], [row, row]);
    ops := [op0, op1, op2];
    var s1 := Apply(start, op0);
    var s2 := Apply(s1, op1);
    var s3 := Apply(s2, op2);
    ThreeSteps(start, op0, op1, op2);
    ApprovedTwice(s2, Sha256(secret), access, id, row);
    forall runner, credential
      ensures Exchange(s3, secret, proof, runner, credential).1.Refused?
    {
      RepeatedRepositoryIsNeverExchanged(s3, secret, proof, runner, credential);
    }
  }

  lemma ThreeSteps(s: State, op0: Op, op1: Op, op2: Op)
    requires Fresh(s, op0) && Fresh(Apply(s, op0), op1) && Fresh(Apply(Apply(s, op0), op1), op2)
    ensures Legal(s, [op0, op1, op2]) && Run(s, [op0, op1, op2]) == Apply(Apply(Apply(s, op0), op1), op2)
  {
    assert [op0, op1, op2][1..] == [op1, op2] && [op1, op2][1..] == [op2] && [op2][1..] == [];
    var s1 := Apply(s, op0);
    var s2 := Apply(s1, op1);
    var s3 := Apply(s2, op2);
    assert Legal(s3, []) && Run(s3, []) == s3;
    assert Legal(s2, [op2]) && Run(s2, [op2]) == Run(s3, [op2][1..]);
    assert Legal(s1, [op1, op2]) && Run(s1, [op1, op2]) == Run(s2, [op1, op2][1..]);
  }

  lemma ApprovedTwice(s: State, code: Hash, access: Access, id: int, row: RepositoryId)
    requires code in s.codes && s.codes[code].approval.None? && Alive(s, s.codes[code])
    requires access.installation in s.tables.installations && !s.tables.installations[access.installation]
    requires id in access.repositories
    ensures var s' := Approve(s, code, access, [id, id], [row, row]).0;
            && code in s'.codes && s'.codes[code] == s.codes[code].(approval := s'.codes[code].approval)
              && s'.now == s.now
            && s'.codes[code].approval.Some?
            && !Distinct(s'.codes[code].approval.value.repositories)
  {
    var ids, newIds := [id, id], [row, row];
    var tables := UpsertAll(s.tables, access.installation, ids, newIds);
    UpsertAllRegisters(s.tables, access.installation, ids, newIds);
    var rows := RowIds(tables, access.installation, ids);
    assert ids[0] == ids[1] && rows[0] == rows[1];
    assert Approve(s, code, access, ids, newIds).0.codes[code].approval.value.repositories == rows;
  }

  /** Revoking the holder frees a repository: a redeemable code for it alone then exchanges. */
  lemma RevocationFrees(s: State, holder: RunnerId, code: string, proof: string, runner: RunnerId, secret: string)
    requires OneActiveHolder(s.tables) && Redeemable(s, Sha256(code), Sha256(proof))
    requires Distinct(s.codes[Sha256(code)].approval.value.repositories)
    requires forall a | a in s.tables.assignments
             && a.repository in s.codes[Sha256(code)].approval.value.repositories ::
               a.runner == holder
    ensures Exchange(Revoke(s, holder), code, proof, runner, secret).1.Credential?
  {
    ExchangeAnswers(Revoke(s, holder), code, proof, runner, secret);
  }
}
