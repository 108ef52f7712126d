/** Pairing as the program runs it: transactions that update the tables in place, with a loop of
    assignments that is rolled back on a conflict. Every method is proved equal to its function. */
module PairingStore {
  import opened Common
  import opened Registry
  import opened Pairing

  class Store {
    var now: Time
    var tables: Tables
    var codes: map<Hash, Code>
    ghost var minted: seq<(Hash, RunnerId)>

    ghost function View(): State
      reads this
    {
      State(now, tables, codes, minted)
    }

    constructor (now: Time, installations: map<int, bool>, repositories: map<GitHubRepository, RepositoryId>)
      ensures Initial(View()) && View().now == now
    {
      this.now := now;
      tables := Tables(installations, repositories, map[], {});
      codes, minted := map[], [];
    }

    method CreatePairingCode(deviceName: string, challenge: Hash, secret: string)
      modifies this
      ensures View() == Create(old(View()), deviceName, challenge, secret)
    {
      codes := codes[Sha256(secret) := Code(deviceName, challenge, now, None, false)];
    }

    method ApprovePairingByHash(codeHash: Hash, access: Access, ids: seq<int>, newIds: seq<RepositoryId>)
      returns (answer: Approved)
      requires |ids| == |newIds|
      modifies this
      ensures (View(), answer) == Approve(old(View()), codeHash, access, ids, newIds)
    {
      if codeHash !in codes || codes[codeHash].approval.Some? || codes[codeHash].createdAt <= now - CODE_LIFETIME {
        return ApprovalDenied(InvalidOrExpiredCode);
      }
      if access.installation !in tables.installations {
        return ApprovalDenied(PairingDenial.UnknownInstallation);
      }
      if tables.installations[access.installation] {
        return ApprovalDenied(PairingDenial.RevokedInstallation);
      }
      for i := 0 to |ids|
        invariant forall k | 0 <= k < i :: ids[k] in access.repositories
        invariant View() == old(View())
      {
        if ids[i] !in access.repositories {
          return ApprovalDenied(RepositoryNotInInstallation);
        }
      }
      var rows := UpsertRepositories(access.installation, ids, newIds);
      var approval := Approval(access.installation, rows, access.repositories);
      codes := codes[codeHash := codes[codeHash].(approval := Some(approval))];
      return Approved.Granted(rows);
    }

    /** The upserts of an approval; a row keeps the id it already has. */
    method UpsertRepositories(installation: int, ids: seq<int>, newIds: seq<RepositoryId>)
      returns (rows: seq<RepositoryId>)
      requires |ids| == |newIds|
      modifies this`tables
      ensures tables == UpsertAll(old(tables), installation, ids, newIds)
      ensures forall i | 0 <= i < |ids| :: GitHubRepository(installation, ids[i]) in tables.repositories
      ensures rows == RowIds(tables, installation, ids)
    {
      rows := [];
      ghost var all := UpsertAll(tables, installation, ids, newIds);
      UpsertAllRegisters(tables, installation, ids, newIds);
      for i := 0 to |ids|
        invariant UpsertAll(tables, installation, ids[i..], newIds[i..]) == all
        invariant |rows| == i
        invariant forall k | 0 <= k < i ::
                    && GitHubRepository(installation, ids[k]) in tables.repositories
                    && rows[k] == tables.repositories[GitHubRepository(installation, ids[k])]
      {
        var repo := GitHubRepository(installation, ids[i]);
        assert ids[i..][1..] == ids[i + 1..] && newIds[i..][1..] == newIds[i + 1..];
        if repo !in tables.repositories {
          tables := tables.(repositories := tables.repositories[repo := newIds[i]]);
        }
        rows := rows + [tables.repositories[repo]];
      }
    }

    method ExchangePairingCode(code: string, proof: string, runner: RunnerId, secret: string)
      returns (answer: Exchanged)
      modifies this
      ensures (View(), answer) == Exchange(old(View()), code, proof, runner, secret)
    {
      var hash := Sha256(code);
      if hash !in codes || codes[hash].challenge != Sha256(proof) || codes[hash].approval.None?
         || codes[hash].exchanged || codes[hash].createdAt <= now - CODE_LIFETIME {
        return InvalidCode;
      }
      var row := codes[hash];
      var savepoint := tables;
      tables := tables.(runners := tables.runners[runner := Runner(row.deviceName, Sha256(secret), false)]);
      var repositories := row.approval.value.repositories;
      ghost var outcome := AssignAll(tables.assignments, repositories, runner);
      for i := 0 to |repositories|
        invariant tables == savepoint.(
                              runners := savepoint.runners[runner := Runner(row.deviceName, Sha256(secret), false)],
                              assignments := tables.assignments)
        invariant AssignAll(tables.assignments, repositories[i..], runner) == outcome
        invariant now == old(now) && codes == old(codes) && minted == old(minted)
      {
        assert repositories[i..][1..] == repositories[i + 1..];
        if Held(tables.assignments, repositories[i]) {
          tables := savepoint;
          return Refused(repositories[i]);
        }
        tables := tables.(assignments := tables.assignments + {Assignment(repositories[i], runner)});
      }
      codes := codes[hash := row.(exchanged := true)];
      minted := minted + [(hash, runner)];
      return Credential(runner, secret);
    }

    method PairingStatus(code: string, challenge: Hash) returns (status: Status)
      ensures status == StatusOf(View(), code, challenge)
    {
      var hash := Sha256(code);
      if hash !in codes || codes[hash].challenge != challenge || codes[hash].createdAt <= now - CODE_LIFETIME {
        return InvalidOrExpired;
      }
      if codes[hash].exchanged {
        return InvalidOrExpired;
      }
      return if codes[hash].approval.Some? then Exchangeable else PendingApproval;
    }

    method RevokeRunner(runner: RunnerId)
      modifies this
      ensures View() == Revoke(old(View()), runner)
    {
      if runner in tables.runners {
        tables := tables.(runners := tables.runners[runner := tables.runners[runner].(revoked := true)]);
      }
      tables := tables.(assignments := set a | a in tables.assignments && a.runner != runner);
    }
  }
}
