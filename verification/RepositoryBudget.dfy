/** The hosted repository budget: upsert, reserve and release as transactions on two tables. Costs are
    whole millionths of a dollar, the scale of the column. */
module RepositoryBudget {
  import opened Common
  import Registry

  type GitHubRepository = Registry.GitHubRepository

  datatype JobId = JobId(text: string)

  datatype Amount = Amount(tokens: int, cost: int)

  datatype Budget = Budget(maxTokens: Option<int>, maxCost: Option<int>, reserved: Amount, spent: Amount)
  datatype Reservation = Reservation(repo: GitHubRepository, amount: Amount, held: bool)
  datatype Tables = Tables(budgets: map<GitHubRepository, Budget>, reservations: map<JobId, Reservation>)

  datatype Outcome =
    | Reserved | AlreadyHeld
    | DeniedUnset | DeniedInsufficient
    | ConstraintViolated  // the statement raises and the transaction is rolled back

  function Plus(a: Amount, b: Amount): Amount { Amount(a.tokens + b.tokens, a.cost + b.cost) }
  function Minus(a: Amount, b: Amount): Amount { Amount(a.tokens - b.tokens, a.cost - b.cost) }

  predicate Configured(b: Budget) {
    b.maxTokens.Some? && b.maxTokens.value > 0 && b.maxCost.Some? && b.maxCost.value > 0
  }

  predicate Room(b: Budget, amount: Amount)
    requires Configured(b)
  {
    && b.reserved.tokens + b.spent.tokens + amount.tokens <= b.maxTokens.value
    && b.reserved.cost + b.spent.cost + amount.cost <= b.maxCost.value
  }

  // ---- the transactions -------------------------------------------------------------------------

  function Upsert(t: Tables, repo: GitHubRepository, maxTokens: Option<int>, maxCost: Option<int>): Tables {
    var row := if repo in t.budgets then t.budgets[repo].(maxTokens := maxTokens, maxCost := maxCost)
               else Budget(maxTokens, maxCost, Amount(0, 0), Amount(0, 0));
    t.(budgets := t.budgets[repo := row])
  }

  /** A job id that already has a row, or a negative amount, violates a constraint of the table. */
  function Reserve(t: Tables, repo: GitHubRepository, job: JobId, amount: Amount): (Tables, Outcome) {
    if job in t.reservations && t.reservations[job].held then (t, AlreadyHeld)
    else if repo !in t.budgets || !Configured(t.budgets[repo]) then (t, DeniedUnset)
    else if !Room(t.budgets[repo], amount) then (t, DeniedInsufficient)
    else if job in t.reservations || amount.tokens < 0 || amount.cost < 0 then (t, ConstraintViolated)
    else
      var row := t.budgets[repo];
      (Tables(t.budgets[repo := row.(reserved := Plus(row.reserved, amount))],
              t.reservations[job := Reservation(repo, amount, true)]),
       Reserved)
  }

  function FreedBudget(b: Budget, amount: Amount): Budget { b.(reserved := Minus(b.reserved, amount)) }

  function Release(t: Tables, job: JobId): Tables {
    if job !in t.reservations || !t.reservations[job].held then t
    else
      var r := t.reservations[job];
      var budgets := if r.repo in t.budgets
                     then t.budgets[r.repo := FreedBudget(t.budgets[r.repo], r.amount)]
                     else t.budgets;
      Tables(budgets, t.reservations[job := r.(held := false)])
  }

  class Ledger {
    var budgets: map<GitHubRepository, Budget>
    var reservations: map<JobId, Reservation>

    ghost function View(): Tables
      reads this
    {
      Tables(budgets, reservations)
    }

    constructor ()
      ensures View() == Tables(map[], map[])
    {
      budgets, reservations := map[], map[];
    }

    method UpsertRepositoryBudget(repo: GitHubRepository, maxTokens: Option<int>, maxCost: Option<int>)
      modifies this
      ensures View() == Upsert(old(View()), repo, maxTokens, maxCost)
    {
      if repo in budgets {
        budgets := budgets[repo := budgets[repo].(maxTokens := maxTokens, maxCost := maxCost)];
      } else {
        budgets := budgets[repo := Budget(maxTokens, maxCost, Amount(0, 0), Amount(0, 0))];
      }
    }

    method ReserveRepositoryBudget(repo: GitHubRepository, job: JobId, amount: Amount) returns (outcome: Outcome)
      modifies this
      ensures (View(), outcome) == Reserve(old(View()), repo, job, amount)
    {
      if job in reservations && reservations[job].held {
        return AlreadyHeld;
      }
      var before := budgets;
      if repo in budgets && Configured(budgets[repo]) && Room(budgets[repo], amount) {
        budgets := budgets[repo := budgets[repo].(reserved := Plus(budgets[repo].reserved, amount))];
      } else {
        return if repo !in budgets || !Configured(budgets[repo]) then DeniedUnset else DeniedInsufficient;
      }
      if job in reservations || amount.tokens < 0 || amount.cost < 0 {
        budgets := before;
        return ConstraintViolated;
      }
      reservations := reservations[job := Reservation(repo, amount, true)];
      return Reserved;
    }

    method ReleaseRepositoryReservation(job: JobId)
      modifies this
      ensures View() == Release(old(View()), job)
    {
      if job !in reservations || !reservations[job].held {
        return;
      }
      var r := reservations[job];
      reservations := reservations[job := r.(held := false)];
      if r.repo in budgets {
        budgets := budgets[r.repo := budgets[r.repo].(reserved := Minus(budgets[r.repo].reserved, r.amount))];
      }
    }
  }

  // ---- sums over the reservation table ----------------------------------------------------------

  /** What a reservation ties up of a repository's budget. */
  function Tied(r: Reservation, repo: GitHubRepository): Amount {
    if r.held && r.repo == repo then r.amount else Amount(0, 0)
  }

  ghost function Any(jobs: set<JobId>): (job: JobId)
    requires jobs != {}
    ensures job in jobs
  {
    var job :| job in jobs; job
  }

  ghost function SumHeld(jobs: set<JobId>, rs: map<JobId, Reservation>, repo: GitHubRepository): Amount
    requires jobs <= rs.Keys
  {
    if jobs == {} then Amount(0, 0)
    else
      var job := Any(jobs);
      Plus(Tied(rs[job], repo), SumHeld(jobs - {job}, rs, repo))
  }

  ghost function TotalHeld(rs: map<JobId, Reservation>, repo: GitHubRepository): Amount {
    SumHeld(rs.Keys, rs, repo)
  }

  lemma {:induction false} SumWithout(jobs: set<JobId>, rs: map<JobId, Reservation>, repo: GitHubRepository, job: JobId)
    requires jobs <= rs.Keys && job in jobs
    ensures SumHeld(jobs, rs, repo) == Plus(Tied(rs[job], repo), SumHeld(jobs - {job}, rs, repo))
    decreases jobs
  {
    var first := Any(jobs);
    if first != job {
      var a, b := jobs - {first}, jobs - {job};
      var c := a - {job};
      assert b - {first} == c;
      assert SumHeld(a, rs, repo) == Plus(Tied(rs[job], repo), SumHeld(c, rs, repo)) by {
        SumWithout(a, rs, repo, job);
      }
      assert SumHeld(b, rs, repo) == Plus(Tied(rs[first], repo), SumHeld(c, rs, repo)) by {
        SumWithout(b, rs, repo, first);
      }
      SwapPlus(Tied(rs[first], repo), Tied(rs[job], repo), SumHeld(c, rs, repo));
    }
  }

  lemma SwapPlus(x: Amount, y: Amount, z: Amount)
    ensures Plus(x, Plus(y, z)) == Plus(y, Plus(x, z))
  {
  }

  lemma {:induction false} SumFrame(jobs: set<JobId>, rs: map<JobId, Reservation>, rs': map<JobId, Reservation>,
                                    repo: GitHubRepository)
    requires jobs <= rs.Keys && jobs <= rs'.Keys && forall job | job in jobs :: rs[job] == rs'[job]
    ensures SumHeld(jobs, rs, repo) == SumHeld(jobs, rs', repo)
    decreases jobs
  {
    if jobs != {} {
      SumFrame(jobs - {Any(jobs)}, rs, rs', repo);
    }
  }

  lemma TotalAfter(rs: map<JobId, Reservation>, repo: GitHubRepository, job: JobId, r: Reservation)
    ensures TotalHeld(rs[job := r], repo) == Plus(Tied(r, repo), SumHeld(rs.Keys - {job}, rs, repo))
  {
    var rs' := rs[job := r];
    var others := rs.Keys - {job};
    assert rs'.Keys - {job} == others;
    assert TotalHeld(rs', repo) == Plus(Tied(r, repo), SumHeld(others, rs', repo)) by {
      SumWithout(rs'.Keys, rs', repo, job);
    }
    assert SumHeld(others, rs', repo) == SumHeld(others, rs, repo) by {
      SumFrame(others, rs, rs', repo);
    }
  }

  lemma TotalBefore(rs: map<JobId, Reservation>, repo: GitHubRepository, job: JobId)
    ensures TotalHeld(rs, repo) ==
              if job in rs then Plus(Tied(rs[job], repo), SumHeld(rs.Keys - {job}, rs, repo))
                else SumHeld(rs.Keys - {job}, rs, repo)
  {
    if job in rs {
      SumWithout(rs.Keys, rs, repo, job);
    } else {
      assert rs.Keys - {job} == rs.Keys;
    }
  }

  lemma TotalAdded(rs: map<JobId, Reservation>, repo: GitHubRepository, job: JobId, r: Reservation)
    requires job !in rs
    ensures TotalHeld(rs[job := r], repo) == Plus(TotalHeld(rs, repo), Tied(r, repo))
  {
    TotalAfter(rs, repo, job, r);
    TotalBefore(rs, repo, job);
    Commute(Tied(r, repo), SumHeld(rs.Keys - {job}, rs, repo));
  }

  lemma TotalFreed(rs: map<JobId, Reservation>, repo: GitHubRepository, job: JobId)
    requires job in rs
    ensures TotalHeld(rs[job := rs[job].(held := false)], repo) == Minus(TotalHeld(rs, repo), Tied(rs[job], repo))
  {
    var others := SumHeld(rs.Keys - {job}, rs, repo);
    assert TotalHeld(rs[job := rs[job].(held := false)], repo) == Plus(Amount(0, 0), others) by {
      TotalAfter(rs, repo, job, rs[job].(held := false));
    }
    assert TotalHeld(rs, repo) == Plus(Tied(rs[job], repo), others) by {
      TotalBefore(rs, repo, job);
    }
    TakeBack(Tied(rs[job], repo), others);
  }

  lemma TakeBack(x: Amount, y: Amount)
    ensures Plus(Amount(0, 0), y) == Minus(Plus(x, y), x)
  {
  }

  lemma Commute(x: Amount, y: Amount)
    ensures Plus(x, y) == Plus(y, x)
  {
  }

  lemma {:induction false} SumIsNatural(jobs: set<JobId>, rs: map<JobId, Reservation>, repo: GitHubRepository)
    requires jobs <= rs.Keys && forall job | job in rs :: rs[job].amount.tokens >= 0 && rs[job].amount.cost >= 0
    ensures SumHeld(jobs, rs, repo).tokens >= 0 && SumHeld(jobs, rs, repo).cost >= 0
    decreases jobs
  {
    if jobs != {} {
      SumIsNatural(jobs - {Any(jobs)}, rs, repo);
    }
  }

  // ---- histories --------------------------------------------------------------------------------

  datatype Op =
    | DoUpsert(repo: GitHubRepository, maxTokens: Option<int>, maxCost: Option<int>)
    | DoReserve(repo: GitHubRepository, job: JobId, amount: Amount)
    | DoRelease(job: JobId)

  function Apply(t: Tables, op: Op): Tables {
    match op
    case DoUpsert(repo, maxTokens, maxCost) => Upsert(t, repo, maxTokens, maxCost)
    case DoReserve(repo, job, amount) => Reserve(t, repo, job, amount).0
    case DoRelease(job) => Release(t, job)
  }

  function Run(t: Tables, ops: seq<Op>): Tables
    decreases ops
  {
    if ops == [] then t else Run(Apply(t, ops[0]), ops[1..])
  }

  /** What is recorded as reserved is what the held reservations add up to. */
  ghost predicate Balanced(t: Tables, repo: GitHubRepository) {
    ReservedFor(t, repo) == TotalHeld(t.reservations, repo)
  }

  function ReservedFor(t: Tables, repo: GitHubRepository): Amount {
    if repo in t.budgets then t.budgets[repo].reserved else Amount(0, 0)
  }

  ghost predicate Conserved(t: Tables) {
    && (forall repo :: Balanced(t, repo))
    && (forall job | job in t.reservations ::
          && t.reservations[job].repo in t.budgets
          && t.reservations[job].amount.tokens >= 0 && t.reservations[job].amount.cost >= 0)
  }

  lemma ReserveRows(t: Tables, repo: GitHubRepository, job: JobId, amount: Amount)
    requires Reserve(t, repo, job, amount).1 == Reserved
    ensures job !in t.reservations
    ensures Reserve(t, repo, job, amount).0.reservations == t.reservations[job := Reservation(repo, amount, true)]
  {
  }

  lemma ReserveAmounts(t: Tables, repo: GitHubRepository, job: JobId, amount: Amount, any: GitHubRepository)
    requires Reserve(t, repo, job, amount).1 == Reserved
    ensures ReservedFor(Reserve(t, repo, job, amount).0, any) ==
              if any == repo then Plus(ReservedFor(t, any), amount) else ReservedFor(t, any)
  {
  }

  lemma TotalAfterReserve(t: Tables, repo: GitHubRepository, job: JobId, amount: Amount, any: GitHubRepository)
    requires Reserve(t, repo, job, amount).1 == Reserved
    ensures TotalHeld(Reserve(t, repo, job, amount).0.reservations, any) ==
              if any == repo then Plus(TotalHeld(t.reservations, any), amount) else TotalHeld(t.reservations, any)
  {
    ReserveRows(t, repo, job, amount);
    TotalAdded(t.reservations, any, job, Reservation(repo, amount, true));
    PlusNothing(TotalHeld(t.reservations, any));
  }

  lemma ReserveBalances(t: Tables, repo: GitHubRepository, job: JobId, amount: Amount, any: GitHubRepository)
    requires Balanced(t, any)
    ensures Balanced(Reserve(t, repo, job, amount).0, any)
  {
    if Reserve(t, repo, job, amount).1 == Reserved {
      TotalAfterReserve(t, repo, job, amount, any);
      ReserveAmounts(t, repo, job, amount, any);
    }
  }

  lemma PlusNothing(x: Amount)
    ensures Plus(x, Amount(0, 0)) == x && Minus(x, Amount(0, 0)) == x
  {
  }

  lemma ReleaseBalances(t: Tables, job: JobId, any: GitHubRepository)
    requires Balanced(t, any) && (job in t.reservations ==> t.reservations[job].repo in t.budgets)
    ensures Balanced(Release(t, job), any)
  {
    if job in t.reservations && t.reservations[job].held {
      TotalFreed(t.reservations, any, job);
    }
  }

  lemma ApplyKeepsConserved(t: Tables, op: Op)
    requires Conserved(t)
    ensures Conserved(Apply(t, op))
  {
    forall any
      ensures Balanced(Apply(t, op), any)
    {
      assert Balanced(t, any);
      match op
      case DoUpsert(_, _, _) =>
      case DoReserve(repo, job, amount) => ReserveBalances(t, repo, job, amount, any);
      case DoRelease(job) => ReleaseBalances(t, job, any);
    }
  }

  lemma {:induction false} RunKeepsConserved(t: Tables, ops: seq<Op>)
    requires Conserved(t)
    ensures Conserved(Run(t, ops))
    decreases ops
  {
    if ops != [] {
      ApplyKeepsConserved(t, ops[0]);
      RunKeepsConserved(Apply(t, ops[0]), ops[1..]);
    }
  }

  const EMPTY := Tables(map[], map[])

  /** Over every run, a repository's reserved tokens and cost are the sums over its held reservations, and
      neither is ever negative. */
  lemma BudgetIsConserved(ops: seq<Op>, repo: GitHubRepository)
    requires repo in Run(EMPTY, ops).budgets
    ensures var t := Run(EMPTY, ops);
            && t.budgets[repo].reserved == TotalHeld(t.reservations, repo)
            && t.budgets[repo].reserved.tokens >= 0 && t.budgets[repo].reserved.cost >= 0
  {
    assert Conserved(EMPTY);
    RunKeepsConserved(EMPTY, ops);
    var t := Run(EMPTY, ops);
    assert Balanced(t, repo);
    SumIsNatural(t.reservations.Keys, t.reservations, repo);
  }

  // ---- the limits -------------------------------------------------------------------------------

  /** Reserved plus spent is within a configured maximum, separately for tokens and cost. */
  predicate Within(b: Budget) {
    && (b.maxTokens.Some? ==> b.reserved.tokens + b.spent.tokens <= b.maxTokens.value)
    && (b.maxCost.Some? ==> b.reserved.cost + b.spent.cost <= b.maxCost.value)
  }

  /** The new maxima of an upsert leave room for what is reserved and spent already. */
  predicate Covers(t: Tables, op: Op)
    requires op.DoUpsert?
  {
    var b := if op.repo in t.budgets then t.budgets[op.repo] else Budget(None, None, Amount(0, 0), Amount(0, 0));
    Within(b.(maxTokens := op.maxTokens, maxCost := op.maxCost))
  }

  /** One step keeps every repository within its maximum, unless it is an upsert, which does exactly when
      its maxima cover what is already reserved and spent. */
  lemma StepWithin(t: Tables, op: Op, repo: GitHubRepository)
    requires Conserved(t) && (repo in t.budgets ==> Within(t.budgets[repo]))
    ensures repo in Apply(t, op).budgets ==>
              (Within(Apply(t, op).budgets[repo]) <==> !(op.DoUpsert? && op.repo == repo) || Covers(t, op))
  {
  }

  predicate AllCover(t: Tables, ops: seq<Op>, repo: GitHubRepository)
    decreases ops
  {
    ops == [] || ((ops[0].DoUpsert? && ops[0].repo == repo ==> Covers(t, ops[0]))
                  && AllCover(Apply(t, ops[0]), ops[1..], repo))
  }

  lemma {:induction false} RunStaysWithin(t: Tables, ops: seq<Op>, repo: GitHubRepository)
    requires Conserved(t) && (repo in t.budgets ==> Within(t.budgets[repo])) && AllCover(t, ops, repo)
    ensures repo in Run(t, ops).budgets ==> Within(Run(t, ops).budgets[repo])
    decreases ops
  {
    if ops != [] {
      StepWithin(t, ops[0], repo);
      ApplyKeepsConserved(t, ops[0]);
      RunStaysWithin(Apply(t, ops[0]), ops[1..], repo);
    }
  }

  /** Reserved plus spent stays within the maximum over every run in which no upsert lowers the maximum
      below them. */
  lemma BudgetStaysWithin(ops: seq<Op>, repo: GitHubRepository)
    requires AllCover(EMPTY, ops, repo) && repo in Run(EMPTY, ops).budgets
    ensures Within(Run(EMPTY, ops).budgets[repo])
  {
    assert Conserved(EMPTY);
    RunStaysWithin(EMPTY, ops, repo);
  }

  /** An upsert sets the two maxima and nothing else: what is reserved and spent stays, and a new budget starts
      at nothing. */
  lemma UpsertKeepsUse(t: Tables, repo: GitHubRepository, maxTokens: Option<int>, maxCost: Option<int>)
    ensures var t' := Upsert(t, repo, maxTokens, maxCost);
            var before := if repo in t.budgets then t.budgets[repo] else Budget(None, None, Amount(0, 0), Amount(0, 0));
            && repo in t'.budgets && t'.budgets[repo].maxTokens == maxTokens && t'.budgets[repo].maxCost == maxCost
            && t'.budgets[repo].reserved == before.reserved && t'.budgets[repo].spent == before.spent
            && t'.reservations == t.reservations
            && (forall other | other in t.budgets && other != repo ::
                  other in t'.budgets && t'.budgets[other] == t.budgets[other])
  {
  }

  // ---- one reservation per job ------------------------------------------------------------------

  /** How often a reservation of the job went through. */
  function TimesReserved(t: Tables, ops: seq<Op>, job: JobId): nat
    decreases ops
  {
    if ops == [] then 0
    else
      (if ops[0].DoReserve? && ops[0].job == job && Reserve(t, ops[0].repo, job, ops[0].amount).1 == Reserved
       then 1 else 0)
      + TimesReserved(Apply(t, ops[0]), ops[1..], job)
  }

  /** A row of the reservation table stays for good, and is written exactly when a reservation goes through. */
  lemma {:induction false} ReservedOnlyOnce(t: Tables, ops: seq<Op>, job: JobId)
    ensures (if job in t.reservations then 1 else 0) + TimesReserved(t, ops, job) ==
              if job in Run(t, ops).reservations then 1 else 0
    decreases ops
  {
    if ops != [] {
      ReservedOnlyOnce(Apply(t, ops[0]), ops[1..], job);
    }
  }

  /** A job is granted a reservation at most once in its life, and its row tells whether it was. */
  lemma OneReservationPerJob(ops: seq<Op>, job: JobId)
    ensures TimesReserved(EMPTY, ops, job) <= 1
    ensures job in Run(EMPTY, ops).reservations <==> TimesReserved(EMPTY, ops, job) == 1
  {
    ReservedOnlyOnce(EMPTY, ops, job);
  }

  predicate HeldNow(t: Tables, job: JobId) { job in t.reservations && t.reservations[job].held }

  /** Both maxima are set and positive. */
  predicate IsSet(t: Tables, repo: GitHubRepository) {
    && repo in t.budgets
    && t.budgets[repo].maxTokens.Some? && t.budgets[repo].maxTokens.value > 0
    && t.budgets[repo].maxCost.Some? && t.budgets[repo].maxCost.value > 0
  }

  /** The budget is set, and what is reserved and spent leaves room for the amount, to the last token and the last
      millionth. */
  predicate Admits(t: Tables, repo: GitHubRepository, amount: Amount) {
    && IsSet(t, repo)
    && amount.tokens <= t.budgets[repo].maxTokens.value - t.budgets[repo].reserved.tokens - t.budgets[repo].spent.tokens
    && amount.cost <= t.budgets[repo].maxCost.value - t.budgets[repo].reserved.cost - t.budgets[repo].spent.cost
  }

  predicate Negative(amount: Amount) { amount.tokens < 0 || amount.cost < 0 }

  /** When each answer is given after any run. A job that was granted a reservation before and does not hold
      it now is never granted another: where the budget admits it, the call ends in a constraint
      violation. Anything but a granted reservation changes nothing. */
  lemma ReserveAnswers(ops: seq<Op>, repo: GitHubRepository, job: JobId, amount: Amount)
    ensures var t := Run(EMPTY, ops);
            var (t', answer) := Reserve(t, repo, job, amount);
            var before := TimesReserved(EMPTY, ops, job);
            && (answer == Reserved <==> before == 0 && Admits(t, repo, amount) && !Negative(amount))
            && (answer == ConstraintViolated <==>
                  !HeldNow(t, job) && Admits(t, repo, amount) && (before == 1 || Negative(amount)))
            && (answer == AlreadyHeld <==> HeldNow(t, job))
            && (answer == DeniedUnset <==> !HeldNow(t, job) && !IsSet(t, repo))
            && (answer == DeniedInsufficient <==> !HeldNow(t, job) && IsSet(t, repo) && !Admits(t, repo, amount))
            && (answer != Reserved ==> t' == t)
  {
    OneReservationPerJob(ops, job);
  }

  /** The shortest such run: within a budget that has room, a job reserves, is released, and cannot reserve
      again. */
  lemma ReservingAgainIsRefused(repo: GitHubRepository, job: JobId, maxTokens: int, maxCost: int, amount: Amount)
    requires 0 <= amount.tokens <= maxTokens && 0 <= amount.cost <= maxCost && maxTokens > 0 && maxCost > 0
    ensures var t := Run(EMPTY,
                         [DoUpsert(repo, Some(maxTokens), Some(maxCost)), DoReserve(repo, job, amount),
                          DoRelease(job)]);
            && repo in t.budgets && t.budgets[repo].reserved == Amount(0, 0)
            && Reserve(t, repo, job, amount) == (t, ConstraintViolated)
  {
    var ops := [DoUpsert(repo, Some(maxTokens), Some(maxCost)), DoReserve(repo, job, amount), DoRelease(job)];
    assert ops[1..] == [DoReserve(repo, job, amount), DoRelease(job)] && ops[1..][1..] == [DoRelease(job)];
    assert ops[1..][1..][1..] == [];
    var t1 := Apply(EMPTY, ops[0]);
    var t2 := Apply(t1, ops[1]);
    assert Run(t2, [DoRelease(job)]) == Apply(t2, DoRelease(job));
    assert Run(t1, ops[1..]) == Apply(t2, DoRelease(job));
    assert Run(EMPTY, ops) == Apply(t2, DoRelease(job));
  }
}
