/** The daemon as the program runs it: an object that updates its local tables in place. Every
    method is proved equal to its function in `Runner`, so the run theorems there apply to it. */
module RunnerDaemon {
  import opened Common
  import opened ReviewJobs
  import opened Runner

  class Daemon {
    const me: RunnerId
    var db: Db                    // the control plane, reached only through the three remote calls
    var net: seq<Weather>
    var jobs: seq<LocalJob>
    var pending: seq<PendingAck>
    var nextRow: nat
    var stopNewWork: bool
    ghost var ledger: seq<Fate>

    ghost function View(): Node
      reads this
    {
      Node(me, db, net, jobs, pending, nextRow, stopNewWork, ledger)
    }

    constructor (me: RunnerId, db: Db, net: seq<Weather>)
      ensures View() == Node(me, db, net, [], [], 0, false, [])
    {
      this.me, this.db, this.net := me, db, net;
      jobs, pending, nextRow, stopNewWork, ledger := [], [], 0, false, [];
    }

    method NextWeather() returns (w: Weather)
      modifies this`net
      ensures w == Sky(old(View())) && net == Later(old(View()))
    {
      if net == [] {
        return BLACKOUT;
      }
      w := net[0];
      net := net[1..];
    }

    method Claim() returns (reply: ClaimReply)
      modifies this
      ensures (View(), reply) == CallClaim(old(View()))
    {
      var w := NextWeather();
      var (after, answer) := SendClaim(db, me, w);
      db, reply := after, answer;
    }

    method Heartbeat(id: JobId, token: Token) returns (reply: BeatReply)
      modifies this
      ensures (View(), reply) == CallBeat(old(View()), id, token)
    {
      var w := NextWeather();
      var (after, answer) := SendBeat(db, me, w, id, token);
      db, reply := after, answer;
    }

    method Acknowledge(id: JobId, token: Token, result: Acknowledgement) returns (reply: AckReply)
      modifies this
      ensures (View(), reply) == CallAck(old(View()), id, token, result)
    {
      var w := NextWeather();
      var (after, answer) := SendAck(db, me, w, id, token, result);
      db, reply := after, answer;
      ledger := ledger + (if reply.AckOk? then [Landed(id, token)] else []);
    }

    method RecordPending(job: JobId, token: Token, result: Acknowledgement, reason: Reason)
      modifies this
      ensures View() == Runner.RecordPending(old(View()), job, token, result, reason)
    {
      pending := pending + [PendingAck(nextRow, job, token, result, reason, 0)];
      nextRow := nextRow + 1;
    }

    method MarkPendingTerminal(job: JobId)
      requires DistinctRows(View())
      modifies this
      ensures View() == Runner.MarkPendingTerminal(old(View()), job)
    {
      jobs := SetLocal(jobs, job, LocalCompleted);
      ResolveAll(job);
    }

    /** Lists the table, then deletes the job's rows one by one. */
    method ResolveAll(job: JobId)
      requires Distinct(pending)
      modifies this`pending
      ensures pending == DropJob(old(pending), job)
    {
      var listed := pending;
      var i := 0;
      while i < |listed|
        invariant 0 <= i <= |listed|
        invariant pending == HalfDropped(listed, i, job)
      {
        DropListed(listed, i, job);
        if listed[i].job == job {
          pending := DropRow(pending, listed[i].rowId);
        }
        i := i + 1;
      }
      assert listed[..i] == listed;
    }

    method LandPendingResult(job: JobId, result: Acknowledgement) returns (raised: bool)
      requires DistinctRows(View())
      modifies this
      ensures (View(), raised) == Land(old(View()), job, result)
    {
      raised := false;
      var reply := Claim();
      match reply {
        case ClaimLost =>
        case AuthDenied(revoked) =>
          stopNewWork := stopNewWork || revoked;
          ledger := ledger + [Released(job, reply)];
          MarkPendingTerminal(job);
        case NoJob =>
          ledger := ledger + [Released(job, reply)];
          MarkPendingTerminal(job);
        case JobEnvelope(id, token) =>
          if id == job {
            var acked := Acknowledge(job, token, result);
            if acked.AckOk? {
              MarkPendingTerminal(job);
            }
            raised := acked.AckUnauthorized?;
          } else {
            jobs := RecordClaimed(jobs, id, token);
            ledger := ledger + [Released(job, reply)];
            MarkPendingTerminal(job);
          }
      }
    }

    method CompleteJob(job: JobId, token: Token, result: Acknowledgement) returns (raised: bool)
      requires DistinctRows(View())
      modifies this
      ensures (View(), raised) == Runner.CompleteJob(old(View()), job, token, result)
    {
      ledger := ledger + [Handed(job, token, result)];
      var reply := Acknowledge(job, token, result);
      match reply {
        case AckOk =>
          jobs := SetLocal(jobs, job, LocalCompleted);
          return false;
        case AckDenied =>
          RecordPending(job, token, result, InvalidOrExpired);
          raised := LandPendingResult(job, result);
        case AckLost =>
          RecordPending(job, token, result, NetworkUnreachable);
          return true;
        case AckUnauthorized =>
          ledger := ledger + [Escaped(job, token, result)];
          return true;
      }
    }

    method ReplayEntry(e: PendingAck) returns (raised: bool)
      requires DistinctRows(View())
      modifies this
      ensures (View(), raised) == ReplayOne(old(View()), e)
      ensures DistinctRows(View())
    {
      ReplayOneKeepsDistinct(View(), e);
      if e.reason.InvalidOrExpired? {
        raised := LandPendingResult(e.job, e.result);
        return;
      }
      var reply := Acknowledge(e.job, e.token, e.result);
      match reply {
        case AckOk =>
          pending := DropRow(pending, e.rowId);
          jobs := SetLocal(jobs, e.job, LocalCompleted);
        case AckDenied => pending := BumpRow(pending, e.rowId);
        case AckLost => pending := BumpRow(pending, e.rowId);
        case AckUnauthorized =>
      }
      return reply.AckUnauthorized?;
    }

    method ReplayPendingAcknowledgements() returns (raised: bool)
      requires DistinctRows(View())
      modifies this
      ensures (View(), raised) == Replay(old(View()), old(pending))
    {
      var listed := pending;
      var i := 0;
      while i < |listed|
        invariant 0 <= i <= |listed|
        invariant DistinctRows(View())
        invariant Replay(View(), listed[i..]) == Replay(old(View()), listed)
      {
        var e := listed[i];
        assert listed[i..][0] == e && listed[i..][1..] == listed[i + 1..];
        raised := ReplayEntry(e);
        if raised {
          return;
        }
        i := i + 1;
      }
      return false;
    }

    method RecoverEntry(job: LocalJob, executor: Executor) returns (raised: bool)
      requires DistinctRows(View())
      modifies this
      ensures (View(), raised) == RecoverOne(old(View()), job, executor)
      ensures DistinctRows(View())
    {
      var reply := Heartbeat(job.id, job.token);
      if reply.BeatLost? {
        return false;
      }
      if !reply.state.LeaseActive? {
        jobs := SetLocal(jobs, job.id, LocalAbandoned);
        return false;
      }
      ghost var before := View();
      raised := ReviewClaimed(job.id, job.token, executor);
      ReviewKeepsDistinct(before, job.id, job.token, executor);
    }

    method Recover(executor: Executor) returns (raised: bool)
      requires DistinctRows(View())
      modifies this
      ensures (View(), raised) == Runner.Recover(old(View()), ClaimedJobs(old(jobs)), executor)
    {
      var listed := ClaimedJobs(jobs);
      var i := 0;
      while i < |listed|
        invariant 0 <= i <= |listed|
        invariant DistinctRows(View())
        invariant Runner.Recover(View(), listed[i..], executor) == Runner.Recover(old(View()), listed, executor)
      {
        assert listed[i..][0] == listed[i] && listed[i..][1..] == listed[i + 1..];
        raised := RecoverEntry(listed[i], executor);
        if raised {
          return;
        }
        i := i + 1;
      }
      return false;
    }

    method ReviewClaimed(id: JobId, token: Token, executor: Executor) returns (raised: bool)
      requires DistinctRows(View())
      modifies this
      ensures (View(), raised) == ReviewAndComplete(old(View()), id, token, executor)
    {
      match executor(id, token) {
        case NoExecutor => return false;
        case ReviewRaises => return true;
        case Reviewed(result) => raised := CompleteJob(id, token, result);
      }
    }

    method ProcessOnce(executor: Executor) returns (raised: bool)
      requires DistinctRows(View())
      modifies this
      ensures (View(), raised) == Runner.ProcessOnce(old(View()), executor)
    {
      if stopNewWork {
        return false;
      }
      var reply := Claim();
      match reply {
        case ClaimLost => return false;
        case NoJob => return false;
        case AuthDenied(revoked) =>
          if revoked {
            stopNewWork := true;
          }
          return false;
        case JobEnvelope(id, token) =>
          jobs := RecordClaimed(jobs, id, token);
          raised := ReviewClaimed(id, token, executor);
      }
    }
  }

  lemma {:induction false} DropJobAppend(pending: seq<PendingAck>, p: PendingAck, job: JobId)
    ensures DropJob(pending + [p], job) == DropJob(pending, job) + (if p.job == job then [] else [p])
  {
    if pending == [] {
      assert pending + [p] == [p];
    } else {
      var kept := if pending[0].job == job then [] else [pending[0]];
      assert (pending + [p])[0] == pending[0] && (pending + [p])[1..] == pending[1..] + [p];
      DropJobAppend(pending[1..], p, job);
      assert DropJob(pending + [p], job) == kept + DropJob(pending[1..] + [p], job);
      assert DropJob(pending, job) == kept + DropJob(pending[1..], job);
    }
  }

  lemma {:induction false} DropAbsent(pending: seq<PendingAck>, rowId: nat)
    requires forall p | p in pending :: p.rowId != rowId
    ensures DropRow(pending, rowId) == pending
  {
    if pending != [] {
      DropAbsent(pending[1..], rowId);
    }
  }

  /** Deleting a row by its id removes that row and nothing else. */
  lemma {:induction false} DropOneRow(left: seq<PendingAck>, p: PendingAck, right: seq<PendingAck>)
    requires forall q | q in left || q in right :: q.rowId != p.rowId
    ensures DropRow(left + ([p] + right), p.rowId) == left + right
  {
    if left == [] {
      assert left + ([p] + right) == [p] + right;
      assert ([p] + right)[1..] == right;
      DropAbsent(right, p.rowId);
    } else {
      assert (left + ([p] + right))[0] == left[0] && (left + ([p] + right))[1..] == left[1..] + ([p] + right);
      DropOneRow(left[1..], p, right);
    }
  }

  /** The table when the first `i` listed rows are dealt with. */
  function HalfDropped(listed: seq<PendingAck>, i: nat, job: JobId): seq<PendingAck>
    requires i <= |listed|
  {
    DropJob(listed[..i], job) + listed[i..]
  }

  /** One turn of the deletion loop in `MarkPendingTerminal`. */
  lemma DropListed(listed: seq<PendingAck>, i: nat, job: JobId)
    requires Distinct(listed) && i < |listed|
    ensures var table := HalfDropped(listed, i, job);
            (if listed[i].job == job then DropRow(table, listed[i].rowId) else table) == HalfDropped(listed, i + 1, job)
  {
    var done, p, rest := listed[..i], listed[i], listed[i + 1..];
    var kept := DropJob(done, job);
    assert listed[i..] == [p] + rest && listed[..i + 1] == done + [p];
    DropJobAppend(done, p, job);
    if p.job == job {
      assert forall q | q in kept || q in rest :: q.rowId != p.rowId by {
        DropJobFacts(done, job);
      }
      DropOneRow(kept, p, rest);
    } else {
      Reassociate(kept, p, rest);
    }
  }

  lemma Reassociate(kept: seq<PendingAck>, p: PendingAck, rest: seq<PendingAck>)
    ensures kept + ([p] + rest) == kept + [p] + rest
  {
  }

  lemma LandPending(n: Node, job: JobId, result: Acknowledgement)
    ensures var m := Land(n, job, result).0;
            m.nextRow == n.nextRow && (m.pending == n.pending || m.pending == DropJob(n.pending, job))
  {
  }

  lemma LandKeepsDistinct(n: Node, job: JobId, result: Acknowledgement)
    requires DistinctRows(n)
    ensures DistinctRows(Land(n, job, result).0)
  {
    LandPending(n, job, result);
    DropJobFacts(n.pending, job);
    DropJobDistinct(n.pending, job);
  }

  lemma ReviewKeepsDistinct(n: Node, id: JobId, token: Token, executor: Executor)
    requires DistinctRows(n)
    ensures DistinctRows(ReviewAndComplete(n, id, token, executor).0)
  {
    if executor(id, token).Reviewed? {
      CompleteKeepsDistinct(n, id, token, executor(id, token).result);
    }
  }

  lemma ReplayOneKeepsDistinct(n: Node, e: PendingAck)
    requires DistinctRows(n)
    ensures DistinctRows(ReplayOne(n, e).0)
  {
    if e.reason.InvalidOrExpired? {
      LandKeepsDistinct(n, e.job, e.result);
    } else {
      var (m, reply) := CallAck(n, e.job, e.token, e.result);
      assert m.pending == n.pending && m.nextRow == n.nextRow;
      match reply
      case AckOk => DropKeepsDistinct(m, e.rowId);
      case AckDenied => BumpKeepsDistinct(m, e.rowId);
      case AckLost => BumpKeepsDistinct(m, e.rowId);
      case AckUnauthorized =>
    }
  }

  lemma DropKeepsDistinct(n: Node, rowId: nat)
    requires DistinctRows(n)
    ensures DistinctRows(n.(pending := DropRow(n.pending, rowId)))
  {
    DropRowFacts(n.pending, rowId);
    DropRowDistinct(n.pending, rowId);
  }

  lemma BumpKeepsDistinct(n: Node, rowId: nat)
    requires DistinctRows(n)
    ensures DistinctRows(n.(pending := BumpRow(n.pending, rowId)))
  {
  }

  lemma RecordKeepsDistinct(n: Node, id: JobId, token: Token, result: Acknowledgement, reason: Reason)
    requires DistinctRows(n)
    ensures DistinctRows(Runner.RecordPending(n, id, token, result, reason))
  {
  }

  lemma CompleteKeepsDistinct(n: Node, id: JobId, token: Token, result: Acknowledgement)
    requires DistinctRows(n)
    ensures DistinctRows(Runner.CompleteJob(n, id, token, result).0)
  {
    var (m, reply) := CallAck(n.(ledger := n.ledger + [Handed(id, token, result)]), id, token, result);
    assert DistinctRows(m);
    match reply
    case AckOk =>
    case AckDenied =>
      RecordKeepsDistinct(m, id, token, result, InvalidOrExpired);
      LandKeepsDistinct(Runner.RecordPending(m, id, token, result, InvalidOrExpired), id, result);
    case AckLost => RecordKeepsDistinct(m, id, token, result, NetworkUnreachable);
    case AckUnauthorized =>
  }
}
