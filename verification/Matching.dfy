/** `match_findings` and `compute_metrics`: greedy pairing of expected labels with reported findings. The
    category normalisation is a parameter. */
module Matching {
  import opened Common

  type Normalise = string -> string

  datatype Label = Label(concern: string, category: string, filePath: string, lineStart: nat, lineEnd: nat)
  datatype Candidate = Candidate(
    concern: string, category: string, filePath: string, lineStart: nat, lineEnd: nat, title: string)

  type Pair = (Label, Candidate)

  datatype MatchResult = MatchResult(
    matched: seq<Pair>, unmatchedExpected: seq<Label>, unmatchedActual: seq<Candidate>, needsHuman: bool)

  predicate LinesOverlap(l: Label, c: Candidate) { !(l.lineEnd < c.lineStart || c.lineEnd < l.lineStart) }

  predicate StructuralMatch(l: Label, c: Candidate, norm: Normalise) {
    l.concern == c.concern && l.filePath == c.filePath && LinesOverlap(l, c) && norm(l.category) == norm(c.category)
  }

  predicate NearMiss(l: Label, c: Candidate, norm: Normalise) {
    && !StructuralMatch(l, c, norm)
    && l.concern == c.concern && norm(l.category) == norm(c.category) && l.filePath != c.filePath
  }

  // ---- the program ------------------------------------------------------------------------------

  /** The first candidate that matches, or the length of the list. */
  function FirstHit(l: Label, remaining: seq<Candidate>, norm: Normalise): (k: nat)
    ensures k <= |remaining|
    ensures k < |remaining| ==> StructuralMatch(l, remaining[k], norm)
    ensures forall i | 0 <= i < k :: !StructuralMatch(l, remaining[i], norm)
  {
    if remaining == [] || StructuralMatch(l, remaining[0], norm) then 0 else 1 + FirstHit(l, remaining[1..], norm)
  }

  function Pop(s: seq<Candidate>, k: nat): seq<Candidate>
    requires k < |s|
  {
    s[..k] + s[k + 1..]
  }

  datatype Split = Split(matched: seq<Pair>, missed: seq<Label>, left: seq<Candidate>)

  function Greedy(expected: seq<Label>, remaining: seq<Candidate>, norm: Normalise): Split
    decreases expected
  {
    if expected == [] then Split([], [], remaining)
    else
      var k := FirstHit(expected[0], remaining, norm);
      if k == |remaining| then
        var rest := Greedy(expected[1..], remaining, norm);
        rest.(missed := [expected[0]] + rest.missed)
      else
        var rest := Greedy(expected[1..], Pop(remaining, k), norm);
        rest.(matched := [(expected[0], remaining[k])] + rest.matched)
  }

  /** Some unmatched label and some leftover finding agree in concern and category but not in file. */
  predicate AnyNearMiss(missed: seq<Label>, left: seq<Candidate>, norm: Normalise) {
    exists i, j | 0 <= i < |missed| && 0 <= j < |left| :: NearMiss(missed[i], left[j], norm)
  }

  function Match(expected: seq<Label>, actual: seq<Candidate>, norm: Normalise): MatchResult {
    var s := Greedy(expected, actual, norm);
    MatchResult(s.matched, s.missed, s.left, AnyNearMiss(s.missed, s.left, norm))
  }

  method MatchFindings(expected: seq<Label>, actual: seq<Candidate>, norm: Normalise) returns (result: MatchResult)
    ensures result == Match(expected, actual, norm)
  {
    var remaining := actual;
    var matched: seq<Pair>, missed: seq<Label> := [], [];
    var n := 0;
    ghost var whole := Greedy(expected, actual, norm);
    assert expected[0..] == expected;
    while n < |expected|
      invariant n <= |expected|
      invariant var rest := Greedy(expected[n..], remaining, norm);
                matched + rest.matched == whole.matched && missed + rest.missed == whole.missed
                  && rest.left == whole.left
    {
      var wanted := expected[n];
      var hit := 0;
      while hit < |remaining| && !StructuralMatch(wanted, remaining[hit], norm)
        invariant hit <= |remaining|
        invariant forall i | 0 <= i < hit :: !StructuralMatch(wanted, remaining[i], norm)
      {
        hit := hit + 1;
      }
      assert hit == FirstHit(wanted, remaining, norm);
      if hit == |remaining| {
        GreedyMiss(expected, n, remaining, norm);
        Regroup(missed, wanted, Greedy(expected[n + 1..], remaining, norm).missed);
        missed := missed + [wanted];
      } else {
        GreedyHit(expected, n, remaining, norm);
        Regroup(matched, (wanted, remaining[hit]), Greedy(expected[n + 1..], Pop(remaining, hit), norm).matched);
        matched := matched + [(wanted, remaining[hit])];
        remaining := Pop(remaining, hit);
      }
      n := n + 1;
    }
    assert expected[n..] == [];
    assert matched == whole.matched && missed == whole.missed && remaining == whole.left;
    var needsHuman := FindNearMiss(missed, remaining, norm);
    result := MatchResult(matched, missed, remaining, needsHuman);
  }

  /** The `any` over unmatched labels and leftover findings. */
  method FindNearMiss(missed: seq<Label>, remaining: seq<Candidate>, norm: Normalise) returns (needsHuman: bool)
    ensures needsHuman <==> AnyNearMiss(missed, remaining, norm)
  {
    needsHuman := false;
    for i := 0 to |missed|
      invariant needsHuman <==> AnyNearMiss(missed[..i], remaining, norm)
    {
      for j := 0 to |remaining|
        invariant needsHuman <==>
                    AnyNearMiss(missed[..i], remaining, norm) || AnyNearMiss([missed[i]], remaining[..j], norm)
      {
        needsHuman := needsHuman || NearMiss(missed[i], remaining[j], norm);
        NearMissStep(missed[i], remaining, j, norm);
      }
      NearMissRow(missed, i, remaining, norm);
    }
    assert missed[..|missed|] == missed;
  }

  lemma GreedyMiss(expected: seq<Label>, n: nat, remaining: seq<Candidate>, norm: Normalise)
    requires n < |expected| && FirstHit(expected[n], remaining, norm) == |remaining|
    ensures var all, rest := Greedy(expected[n..], remaining, norm), Greedy(expected[n + 1..], remaining, norm);
            all == rest.(missed := [expected[n]] + rest.missed)
  {
    assert expected[n..][1..] == expected[n + 1..] && expected[n..][0] == expected[n];
  }

  lemma GreedyHit(expected: seq<Label>, n: nat, remaining: seq<Candidate>, norm: Normalise)
    requires n < |expected| && FirstHit(expected[n], remaining, norm) < |remaining|
    ensures var k := FirstHit(expected[n], remaining, norm);
            var all, rest := Greedy(expected[n..], remaining, norm), Greedy(expected[n + 1..], Pop(remaining, k), norm);
            all == rest.(matched := [(expected[n], remaining[k])] + rest.matched)
  {
    assert expected[n..][1..] == expected[n + 1..] && expected[n..][0] == expected[n];
  }

  lemma NearMissStep(l: Label, left: seq<Candidate>, j: nat, norm: Normalise)
    requires j < |left|
    ensures AnyNearMiss([l], left[..j + 1], norm) <==> AnyNearMiss([l], left[..j], norm) || NearMiss(l, left[j], norm)
  {
    var a, b := left[..j], left[..j + 1];
    assert forall i | 0 <= i < j :: a[i] == b[i];
    if NearMiss(l, left[j], norm) {
      assert NearMiss([l][0], b[j], norm);
    }
    if AnyNearMiss([l], a, norm) {
      var i, k :| 0 <= i < 1 && 0 <= k < |a| && NearMiss([l][i], a[k], norm);
      assert NearMiss([l][i], b[k], norm);
    }
  }

  lemma NearMissRow(missed: seq<Label>, i: nat, left: seq<Candidate>, norm: Normalise)
    requires i < |missed|
    ensures AnyNearMiss(missed[..i + 1], left, norm) <==>
              AnyNearMiss(missed[..i], left, norm) || AnyNearMiss([missed[i]], left[..|left|], norm)
  {
    var a, b := missed[..i], missed[..i + 1];
    assert left[..|left|] == left;
    if AnyNearMiss(a, left, norm) {
      var m, k :| 0 <= m < |a| && 0 <= k < |left| && NearMiss(a[m], left[k], norm);
      assert NearMiss(b[m], left[k], norm);
    }
    if AnyNearMiss([missed[i]], left, norm) {
      var m, k :| 0 <= m < 1 && 0 <= k < |left| && NearMiss([missed[i]][m], left[k], norm);
      assert NearMiss(b[i], left[k], norm);
    }
    if AnyNearMiss(b, left, norm) {
      var m, k :| 0 <= m < |b| && 0 <= k < |left| && NearMiss(b[m], left[k], norm);
      if m == i {
        assert NearMiss([missed[i]][0], left[k], norm);
      } else {
        assert NearMiss(a[m], left[k], norm);
      }
    }
  }

  // ---- conservation and maximality --------------------------------------------------------------

  function Labels(ps: seq<Pair>): seq<Label> { seq(|ps|, i requires 0 <= i < |ps| => ps[i].0) }
  function Candidates(ps: seq<Pair>): seq<Candidate> { seq(|ps|, i requires 0 <= i < |ps| => ps[i].1) }

  ghost predicate AllMatch(ps: seq<Pair>, norm: Normalise) {
    forall i | 0 <= i < |ps| :: StructuralMatch(ps[i].0, ps[i].1, norm)
  }

  ghost predicate NothingLeftMatches(missed: seq<Label>, left: seq<Candidate>, norm: Normalise) {
    forall l, c | l in missed && c in left :: !StructuralMatch(l, c, norm)
  }

  lemma PopMultiset(s: seq<Candidate>, k: nat)
    requires k < |s|
    ensures multiset(s) == multiset{s[k]} + multiset(Pop(s, k))
  {
    assert s == s[..k] + [s[k]] + s[k + 1..];
  }

  lemma SidesPrepend(p: Pair, rest: seq<Pair>)
    ensures multiset(Labels([p] + rest)) == multiset{p.0} + multiset(Labels(rest))
    ensures multiset(Candidates([p] + rest)) == multiset{p.1} + multiset(Candidates(rest))
  {
    assert Labels([p] + rest) == [p.0] + Labels(rest);
    assert Candidates([p] + rest) == [p.1] + Candidates(rest);
  }

  lemma {:induction false} GreedyConserves(expected: seq<Label>, remaining: seq<Candidate>, norm: Normalise)
    ensures var s := Greedy(expected, remaining, norm);
            && multiset(Labels(s.matched)) + multiset(s.missed) == multiset(expected)
            && multiset(Candidates(s.matched)) + multiset(s.left) == multiset(remaining)
    decreases expected
  {
    if expected != [] {
      var l, k := expected[0], FirstHit(expected[0], remaining, norm);
      assert multiset(expected) == multiset{l} + multiset(expected[1..]) by {
        assert expected == [l] + expected[1..];
      }
      if k == |remaining| {
        GreedyConserves(expected[1..], remaining, norm);
        var rest := Greedy(expected[1..], remaining, norm);
        assert multiset([l] + rest.missed) == multiset{l} + multiset(rest.missed);
      } else {
        GreedyConserves(expected[1..], Pop(remaining, k), norm);
        PopMultiset(remaining, k);
        SidesPrepend((l, remaining[k]), Greedy(expected[1..], Pop(remaining, k), norm).matched);
      }
    }
  }

  lemma {:induction false} GreedyMatches(expected: seq<Label>, remaining: seq<Candidate>, norm: Normalise)
    ensures AllMatch(Greedy(expected, remaining, norm).matched, norm)
    decreases expected
  {
    if expected != [] {
      var k := FirstHit(expected[0], remaining, norm);
      GreedyMatches(expected[1..], if k == |remaining| then remaining else Pop(remaining, k), norm);
    }
  }

  lemma LeftIsPart(expected: seq<Label>, remaining: seq<Candidate>, norm: Normalise, c: Candidate)
    requires c in Greedy(expected, remaining, norm).left
    ensures c in remaining
  {
    GreedyConserves(expected, remaining, norm);
    assert c in multiset(Greedy(expected, remaining, norm).left);
    assert c in multiset(remaining);
  }

  lemma {:induction false} GreedyIsMaximal(expected: seq<Label>, remaining: seq<Candidate>, norm: Normalise)
    ensures var s := Greedy(expected, remaining, norm);
            NothingLeftMatches(s.missed, s.left, norm)
    decreases expected
  {
    if expected != [] {
      var l, k := expected[0], FirstHit(expected[0], remaining, norm);
      if k == |remaining| {
        GreedyIsMaximal(expected[1..], remaining, norm);
        forall c | c in Greedy(expected[1..], remaining, norm).left
          ensures !StructuralMatch(l, c, norm)
        {
          LeftIsPart(expected[1..], remaining, norm, c);
        }
      } else {
        GreedyIsMaximal(expected[1..], Pop(remaining, k), norm);
      }
    }
  }

  /** Both inputs are split as multisets, every pair matches, and no unmatched label matches a leftover
      finding. */
  lemma MatchIsMaximal(expected: seq<Label>, actual: seq<Candidate>, norm: Normalise)
    ensures var r := Match(expected, actual, norm);
            && multiset(Labels(r.matched)) + multiset(r.unmatchedExpected) == multiset(expected)
            && multiset(Candidates(r.matched)) + multiset(r.unmatchedActual) == multiset(actual)
            && AllMatch(r.matched, norm)
            && NothingLeftMatches(r.unmatchedExpected, r.unmatchedActual, norm)
  {
    GreedyConserves(expected, actual, norm);
    GreedyMatches(expected, actual, norm);
    GreedyIsMaximal(expected, actual, norm);
  }

  // ---- at least half of any matching ------------------------------------------------------------

  /** Any other way to pair labels with findings, using each at most as often as it occurs. */
  ghost predicate IsMatching(ps: seq<Pair>, expected: seq<Label>, actual: seq<Candidate>, norm: Normalise) {
    && AllMatch(ps, norm)
    && multiset(Labels(ps)) <= multiset(expected)
    && multiset(Candidates(ps)) <= multiset(actual)
  }

  function WithLabel(ps: seq<Pair>, missed: seq<Label>, wanted: bool): seq<Pair> {
    if ps == [] then []
    else (if (ps[0].0 in missed) == wanted then [ps[0]] else []) + WithLabel(ps[1..], missed, wanted)
  }

  lemma {:induction false} WithLabelSides(ps: seq<Pair>, missed: seq<Label>, wanted: bool)
    ensures multiset(Labels(WithLabel(ps, missed, wanted))) <= multiset(Labels(ps))
    ensures multiset(Candidates(WithLabel(ps, missed, wanted))) <= multiset(Candidates(ps))
    decreases ps
  {
    if ps != [] {
      var p, rest, kept := ps[0], ps[1..], WithLabel(ps[1..], missed, wanted);
      WithLabelSides(rest, missed, wanted);
      assert ps == [p] + rest;
      SidesPrepend(p, rest);
      if (p.0 in missed) == wanted {
        SidesPrepend(p, kept);
      } else {
        assert WithLabel(ps, missed, wanted) == kept;
      }
    }
  }

  lemma {:induction false} WithLabelMembers(ps: seq<Pair>, missed: seq<Label>, wanted: bool)
    ensures forall p | p in WithLabel(ps, missed, wanted) :: p in ps && (p.0 in missed) == wanted
    decreases ps
  {
    if ps != [] {
      WithLabelMembers(ps[1..], missed, wanted);
    }
  }

  lemma {:induction false} WithLabelSizes(ps: seq<Pair>, missed: seq<Label>)
    ensures |WithLabel(ps, missed, true)| + |WithLabel(ps, missed, false)| == |ps|
    decreases ps
  {
    if ps != [] {
      WithLabelSizes(ps[1..], missed);
    }
  }

  /** What fits into `x + y` and avoids `y` fits into `x`. */
  lemma AvoidingIsWithin<T>(s: seq<T>, x: multiset<T>, y: multiset<T>)
    requires multiset(s) <= x + y && forall e | e in s :: e !in y
    ensures |s| <= |x|
  {
    forall e
      ensures multiset(s)[e] <= x[e]
    {
      if e in s {
        assert multiset(s)[e] <= (x + y)[e];
      } else {
        assert e !in multiset(s);
      }
    }
    assert x == multiset(s) + (x - multiset(s));
  }

  /** Pairs of the other matching whose label greedy missed: their findings were all taken. */
  lemma MissedLabelsTaken(expected: seq<Label>, actual: seq<Candidate>, norm: Normalise, other: seq<Pair>, s: Split)
    requires IsMatching(other, expected, actual, norm) && s == Greedy(expected, actual, norm)
    ensures |WithLabel(other, s.missed, true)| <= |s.matched|
  {
    var a := WithLabel(other, s.missed, true);
    WithLabelSides(other, s.missed, true);
    WithLabelMembers(other, s.missed, true);
    GreedyConserves(expected, actual, norm);
    forall c | c in Candidates(a)
      ensures c !in multiset(s.left)
    {
      var i :| 0 <= i < |a| && Candidates(a)[i] == c;
      assert a[i] in a && a[i] in other;
      MissedNeverLeft(expected, actual, norm, a[i].0, a[i].1);
    }
    AvoidingIsWithin(Candidates(a), multiset(Candidates(s.matched)), multiset(s.left));
  }

  lemma MissedNeverLeft(expected: seq<Label>, actual: seq<Candidate>, norm: Normalise, l: Label, c: Candidate)
    requires l in Greedy(expected, actual, norm).missed && StructuralMatch(l, c, norm)
    ensures c !in multiset(Greedy(expected, actual, norm).left)
  {
    GreedyIsMaximal(expected, actual, norm);
  }

  /** And those whose label greedy used: there are no more of them than matched labels. */
  lemma UsedLabelsMatched(expected: seq<Label>, actual: seq<Candidate>, norm: Normalise, other: seq<Pair>, s: Split)
    requires IsMatching(other, expected, actual, norm) && s == Greedy(expected, actual, norm)
    ensures |WithLabel(other, s.missed, false)| <= |s.matched|
  {
    var b := WithLabel(other, s.missed, false);
    WithLabelSides(other, s.missed, false);
    WithLabelMembers(other, s.missed, false);
    GreedyConserves(expected, actual, norm);
    forall l | l in Labels(b)
      ensures l !in multiset(s.missed)
    {
      var i :| 0 <= i < |b| && Labels(b)[i] == l;
      assert b[i] in b;
    }
    AvoidingIsWithin(Labels(b), multiset(Labels(s.matched)), multiset(s.missed));
  }

  /** Greedy matching finds at least half as many pairs as any matching whatsoever: a pair of the other
      matching has a label that greedy used, or a finding that greedy used. */
  lemma AtLeastHalfOptimal(expected: seq<Label>, actual: seq<Candidate>, norm: Normalise, other: seq<Pair>)
    requires IsMatching(other, expected, actual, norm)
    ensures |other| <= 2 * |Match(expected, actual, norm).matched|
  {
    var s := Greedy(expected, actual, norm);
    MissedLabelsTaken(expected, actual, norm, other, s);
    UsedLabelsMatched(expected, actual, norm, other, s);
    WithLabelSizes(other, s.missed);
  }

  /** A value repeated. */
  function Copies<T>(x: T, n: nat): (r: seq<T>)
    ensures |r| == n && forall i | 0 <= i < n :: r[i] == x
  {
    seq(n, _ => x)
  }

  lemma CopiesTail<T>(x: T, n: nat, rest: seq<T>)
    requires n > 0
    ensures (Copies(x, n) + rest)[0] == x && (Copies(x, n) + rest)[1..] == Copies(x, n - 1) + rest
  {
    assert Copies(x, n)[1..] == Copies(x, n - 1);
  }

  /** While `first`s are left, each `wide` label takes one. */
  lemma {:induction false} WideTakesFirst(wide: Label, first: Candidate, n: nat, labels: seq<Label>,
                                          others: seq<Candidate>, norm: Normalise)
    requires StructuralMatch(wide, first, norm)
    ensures |Greedy(Copies(wide, n) + labels, Copies(first, n) + others, norm).matched| ==
              n + |Greedy(labels, others, norm).matched|
    decreases n
  {
    if n == 0 {
      assert Copies(wide, 0) + labels == labels && Copies(first, 0) + others == others;
    } else {
      CopiesTail(wide, n, labels);
      CopiesTail(first, n, others);
      var all := Copies(first, n) + others;
      assert FirstHit(wide, all, norm) == 0;
      assert Pop(all, 0) == all[1..];
      WideTakesFirst(wide, first, n - 1, labels, others, norm);
    }
  }

  lemma {:induction false} NothingMatched(labels: seq<Label>, others: seq<Candidate>, norm: Normalise)
    requires forall i, j | 0 <= i < |labels| && 0 <= j < |others| :: !StructuralMatch(labels[i], others[j], norm)
    ensures Greedy(labels, others, norm).matched == []
    decreases labels
  {
    if labels != [] {
      NothingMatched(labels[1..], others, norm);
    }
  }

  lemma CrossMatching(wide: Label, narrow: Label, first: Candidate, second: Candidate, n: nat, norm: Normalise)
    requires StructuralMatch(wide, second, norm) && StructuralMatch(narrow, first, norm)
    ensures IsMatching(Copies((wide, second), n) + Copies((narrow, first), n),
                       Copies(wide, n) + Copies(narrow, n), Copies(first, n) + Copies(second, n), norm)
  {
    var ps := Copies((wide, second), n) + Copies((narrow, first), n);
    assert Labels(ps) == Copies(wide, n) + Copies(narrow, n);
    assert Candidates(ps) == Copies(second, n) + Copies(first, n);
    var firsts: seq<Candidate>, seconds: seq<Candidate> := Copies(first, n), Copies(second, n);
    assert multiset(seconds + firsts) == multiset(firsts + seconds);
  }

  /** The factor is tight at every size: with `n` labels that match both kinds of finding, followed by `n`
      that match only the first kind, greedy finds `n` pairs and another matching finds `2 * n`. */
  lemma HalfIsTight(wide: Label, narrow: Label, first: Candidate, second: Candidate, n: nat, norm: Normalise)
    requires StructuralMatch(wide, first, norm) && StructuralMatch(wide, second, norm)
    requires StructuralMatch(narrow, first, norm) && !StructuralMatch(narrow, second, norm)
    ensures var labels, findings := Copies(wide, n) + Copies(narrow, n), Copies(first, n) + Copies(second, n);
            var other := Copies((wide, second), n) + Copies((narrow, first), n);
            |Match(labels, findings, norm).matched| == n && IsMatching(other, labels, findings, norm)
              && |other| == 2 * n
  {
    WideTakesFirst(wide, first, n, Copies(narrow, n), Copies(second, n), norm);
    NothingMatched(Copies(narrow, n), Copies(second, n), norm);
    CrossMatching(wide, narrow, first, second, n, norm);
  }

  /** Such labels and findings exist. */
  lemma TightExample(norm: Normalise)
    ensures var wide, narrow := Label("c", "k", "f", 1, 9), Label("c", "k", "f", 1, 1);
            var first, second := Candidate("c", "k", "f", 1, 1, "a"), Candidate("c", "k", "f", 9, 9, "b");
            && StructuralMatch(wide, first, norm) && StructuralMatch(wide, second, norm)
            && StructuralMatch(narrow, first, norm) && !StructuralMatch(narrow, second, norm)
  {
  }

  // ---- metrics ----------------------------------------------------------------------------------

  function Ratio(numerator: int, denominator: int): real {
    if denominator == 0 then 0.0 else numerator as real / denominator as real
  }

  function Total(results: seq<MatchResult>, f: MatchResult -> nat): nat {
    if results == [] then 0 else f(results[0]) + Total(results[1..], f)
  }

  function One(b: bool): nat { if b then 1 else 0 }

  predicate Precise(r: MatchResult) { r.matched != [] && r.unmatchedActual == [] && !r.needsHuman }
  predicate Recalled(r: MatchResult) { r.matched != [] && r.unmatchedExpected == [] && !r.needsHuman }

  datatype Metrics = Metrics(
    precisionPerFinding: real, precisionPerCase: real, recallPerFinding: real, recallPerCase: real,
    falseFindingsPerPr: real, selectivity: real, needsHumanRate: real, usefulFindings: nat)

  function Matched(): MatchResult -> nat { (r: MatchResult) => |r.matched| }
  function Predicted(): MatchResult -> nat { (r: MatchResult) => |r.matched| + |r.unmatchedActual| }
  function Expected(): MatchResult -> nat { (r: MatchResult) => |r.matched| + |r.unmatchedExpected| }

  function ComputeMetrics(results: seq<MatchResult>, reviewedPrs: int): Metrics {
    var cases := |results|;
    Metrics(
      Ratio(Total(results, Matched()), Total(results, Predicted())),
      Ratio(Total(results, (r: MatchResult) => One(Precise(r))), cases),
      Ratio(Total(results, Matched()), Total(results, Expected())),
      Ratio(Total(results, (r: MatchResult) => One(Recalled(r))), cases),
      Ratio(Total(results, (r: MatchResult) => |r.unmatchedActual|), reviewedPrs),
      Ratio(Total(results, (r: MatchResult) => One(r.matched != [] || r.unmatchedActual != [])), cases),
      Ratio(Total(results, (r: MatchResult) => One(r.needsHuman)), cases),
      Total(results, Matched()))
  }

  lemma {:induction false} TotalMonotone(results: seq<MatchResult>, f: MatchResult -> nat, g: MatchResult -> nat)
    requires forall r :: f(r) <= g(r)
    ensures Total(results, f) <= Total(results, g)
    decreases results
  {
    if results != [] {
      TotalMonotone(results[1..], f, g);
    }
  }

  lemma {:induction false} TotalOfOnes(results: seq<MatchResult>)
    ensures Total(results, (r: MatchResult) => 1) == |results|
    decreases results
  {
    if results != [] {
      TotalOfOnes(results[1..]);
    }
  }

  lemma TotalAtMostCases(results: seq<MatchResult>, f: MatchResult -> nat)
    requires forall r :: f(r) <= 1
    ensures Total(results, f) <= |results|
  {
    TotalMonotone(results, f, (r: MatchResult) => 1);
    TotalOfOnes(results);
  }

  lemma RatioBounds(n: nat, d: nat)
    requires n <= d
    ensures 0.0 <= Ratio(n, d) <= 1.0
  {
    if d > 0 {
      var x, y := n as real, d as real;
      assert x / y * y == x;
      assert 0.0 <= x <= y && y > 0.0;
      Quotient(x, y);
    }
  }

  lemma Quotient(x: real, y: real)
    requires 0.0 <= x <= y && y > 0.0
    ensures 0.0 <= x / y <= 1.0
  {
  }

  predicate Unit(x: real) { 0.0 <= x <= 1.0 }

  /** Every precision, recall and rate lies in [0, 1], whatever the results; a case counted as precise
      is one with a finding. */
  lemma RatesAreFractions(results: seq<MatchResult>, reviewedPrs: nat)
    ensures var m := ComputeMetrics(results, reviewedPrs);
            && Unit(m.precisionPerFinding) && Unit(m.precisionPerCase)
            && Unit(m.recallPerFinding) && Unit(m.recallPerCase)
            && Unit(m.selectivity) && Unit(m.needsHumanRate)
            && m.falseFindingsPerPr >= 0.0
            && m.precisionPerCase <= m.selectivity
  {
    var precise := (r: MatchResult) => One(Precise(r));
    var recalled := (r: MatchResult) => One(Recalled(r));
    var selected := (r: MatchResult) => One(r.matched != [] || r.unmatchedActual != []);
    var human := (r: MatchResult) => One(r.needsHuman);
    TotalMonotone(results, Matched(), Predicted());
    TotalMonotone(results, Matched(), Expected());
    TotalMonotone(results, precise, selected);
    TotalAtMostCases(results, precise);
    TotalAtMostCases(results, recalled);
    TotalAtMostCases(results, selected);
    TotalAtMostCases(results, human);
    RatioBounds(Total(results, Matched()), Total(results, Predicted()));
    RatioBounds(Total(results, Matched()), Total(results, Expected()));
    RatioBounds(Total(results, precise), |results|);
    RatioBounds(Total(results, recalled), |results|);
    RatioBounds(Total(results, selected), |results|);
    RatioBounds(Total(results, human), |results|);
    RatioMonotone(Total(results, precise), Total(results, selected), |results|);
    RatioMonotone(0, Total(results, (r: MatchResult) => |r.unmatchedActual|), reviewedPrs);
  }

  lemma RatioMonotone(a: nat, b: nat, d: nat)
    requires a <= b
    ensures Ratio(a, d) <= Ratio(b, d) && Ratio(0, d) == 0.0
  {
    if d > 0 {
      assert (b as real - a as real) / d as real >= 0.0;
    }
  }

  /** An evaluated corpus: labels and reported findings of each case. */
  type Corpus = seq<(seq<Label>, seq<Candidate>)>

  function Evaluate(cases: Corpus, norm: Normalise): seq<MatchResult> {
    if cases == [] then [] else [Match(cases[0].0, cases[0].1, norm)] + Evaluate(cases[1..], norm)
  }

  function LabelCount(cases: Corpus): nat { if cases == [] then 0 else |cases[0].0| + LabelCount(cases[1..]) }
  function FindingCount(cases: Corpus): nat { if cases == [] then 0 else |cases[0].1| + FindingCount(cases[1..]) }

  lemma {:induction false} DenominatorsCountInputs(cases: Corpus, norm: Normalise)
    ensures Total(Evaluate(cases, norm), Predicted()) == FindingCount(cases)
    ensures Total(Evaluate(cases, norm), Expected()) == LabelCount(cases)
    decreases cases
  {
    if cases != [] {
      var r, rest := Match(cases[0].0, cases[0].1, norm), Evaluate(cases[1..], norm);
      DenominatorsCountInputs(cases[1..], norm);
      GreedyConserves(cases[0].0, cases[0].1, norm);
      assert |multiset(cases[0].0)| == |cases[0].0| && |multiset(cases[0].1)| == |cases[0].1|;
      assert ([r] + rest)[1..] == rest;
    }
  }

  /** On results that `match_findings` produced, precision is matched findings over all reported ones and
      recall is matched findings over all labels. */
  lemma PrecisionAndRecall(cases: Corpus, norm: Normalise, reviewedPrs: int)
    ensures var m := ComputeMetrics(Evaluate(cases, norm), reviewedPrs);
            && m.precisionPerFinding == Ratio(m.usefulFindings, FindingCount(cases))
            && m.recallPerFinding == Ratio(m.usefulFindings, LabelCount(cases))
  {
    DenominatorsCountInputs(cases, norm);
  }

  // ---- what the numbers and the flag mean --------------------------------------------------------

  predicate OnLine(lineStart: nat, lineEnd: nat, n: nat) { lineStart <= n <= lineEnd }

  /** A label matches a finding exactly when they name the same concern, file and category and share a line. */
  lemma MatchMeans(l: Label, c: Candidate, norm: Normalise)
    requires l.lineStart <= l.lineEnd && c.lineStart <= c.lineEnd
    ensures StructuralMatch(l, c, norm) <==>
              && l.concern == c.concern && l.filePath == c.filePath && norm(l.category) == norm(c.category)
              && exists n :: OnLine(l.lineStart, l.lineEnd, n) && OnLine(c.lineStart, c.lineEnd, n)
  {
    if !(l.lineEnd < c.lineStart || c.lineEnd < l.lineStart) {
      var n := if l.lineStart <= c.lineStart then c.lineStart else l.lineStart;
      assert OnLine(l.lineStart, l.lineEnd, n) && OnLine(c.lineStart, c.lineEnd, n);
    }
  }

  /** A human is asked exactly when an unmatched label and a leftover finding agree in concern and category and only
      the file differs. */
  lemma HumanAskedExactly(expected: seq<Label>, actual: seq<Candidate>, norm: Normalise)
    ensures var r := Match(expected, actual, norm);
            r.needsHuman <==>
              exists l, c | l in r.unmatchedExpected && c in r.unmatchedActual ::
                l.concern == c.concern && norm(l.category) == norm(c.category) && l.filePath != c.filePath
  {
    var r := Match(expected, actual, norm);
    if l, c :| l in r.unmatchedExpected && c in r.unmatchedActual
               && l.concern == c.concern && norm(l.category) == norm(c.category) && l.filePath != c.filePath {
      var i :| 0 <= i < |r.unmatchedExpected| && r.unmatchedExpected[i] == l;
      var j :| 0 <= j < |r.unmatchedActual| && r.unmatchedActual[j] == c;
      assert NearMiss(r.unmatchedExpected[i], r.unmatchedActual[j], norm);
    }
    if r.needsHuman {
      var i, j :| 0 <= i < |r.unmatchedExpected| && 0 <= j < |r.unmatchedActual|
                  && NearMiss(r.unmatchedExpected[i], r.unmatchedActual[j], norm);
      assert r.unmatchedExpected[i] in r.unmatchedExpected && r.unmatchedActual[j] in r.unmatchedActual;
    }
  }

  lemma {:induction false} CountsAll(results: seq<MatchResult>, f: MatchResult -> nat, holds: MatchResult -> bool)
    requires forall r :: f(r) == One(holds(r))
    ensures Total(results, f) <= |results|
    ensures Total(results, f) == |results| <==> forall r | r in results :: holds(r)
    ensures Total(results, f) == 0 <==> forall r | r in results :: !holds(r)
  {
    if results != [] {
      var head, rest := results[0], results[1..];
      CountsAll(rest, f, holds);
      assert results == [head] + rest && head in results;
      assert forall r :: r in results <==> r == head || r in rest;
      assert Total(results, f) == One(holds(head)) + Total(rest, f);
      AllOrHead(results, head, rest, holds);
      AllOrHead(results, head, rest, r => !holds(r));
    }
  }

  lemma AllOrHead(results: seq<MatchResult>, head: MatchResult, rest: seq<MatchResult>, holds: MatchResult -> bool)
    requires forall r :: r in results <==> r == head || r in rest
    ensures (forall r | r in results :: holds(r)) <==> holds(head) && forall r | r in rest :: holds(r)
  {
    assert head in results;
    if forall r | r in results :: holds(r) {
      forall r | r in rest
        ensures holds(r)
      {
        assert r in results;
      }
    }
  }

  lemma FullRatio(a: nat, b: nat)
    requires a <= b && b > 0
    ensures Ratio(a, b) == 1.0 <==> a == b
    ensures Ratio(a, b) == 0.0 <==> a == 0
  {
  }

  /** A rate per case is full exactly when every case qualifies, and nothing exactly when none does. Precise is
      a case with a match, nothing reported beside it and no human asked; recalled one with a match, no label
      missed and no human asked; selected one with any finding. */
  lemma FullRates(results: seq<MatchResult>, reviewedPrs: int)
    requires results != []
    ensures var m := ComputeMetrics(results, reviewedPrs);
            && (m.precisionPerCase == 1.0 <==>
                  forall r | r in results :: r.matched != [] && r.unmatchedActual == [] && !r.needsHuman)
            && (m.recallPerCase == 1.0 <==>
                  forall r | r in results :: r.matched != [] && r.unmatchedExpected == [] && !r.needsHuman)
            && (m.selectivity == 1.0 <==> forall r | r in results :: r.matched != [] || r.unmatchedActual != [])
            && (m.selectivity == 0.0 <==> forall r | r in results :: !(r.matched != [] || r.unmatchedActual != []))
            && (m.needsHumanRate == 1.0 <==> forall r | r in results :: r.needsHuman)
            && (m.needsHumanRate == 0.0 <==> forall r | r in results :: !r.needsHuman)
  {
    PreciseRate(results);
    RecalledRate(results);
    SelectedRate(results);
    HumanRate(results);
  }

  lemma PreciseRate(results: seq<MatchResult>)
    requires results != []
    ensures Ratio(Total(results, (r: MatchResult) => One(Precise(r))), |results|) == 1.0 <==>
              forall r | r in results :: r.matched != [] && r.unmatchedActual == [] && !r.needsHuman
  {
    var f := (r: MatchResult) => One(Precise(r));
    CountsAll(results, f, (r: MatchResult) => r.matched != [] && r.unmatchedActual == [] && !r.needsHuman);
    FullRatio(Total(results, f), |results|);
  }

  lemma RecalledRate(results: seq<MatchResult>)
    requires results != []
    ensures Ratio(Total(results, (r: MatchResult) => One(Recalled(r))), |results|) == 1.0 <==>
              forall r | r in results :: r.matched != [] && r.unmatchedExpected == [] && !r.needsHuman
  {
    var f := (r: MatchResult) => One(Recalled(r));
    CountsAll(results, f, (r: MatchResult) => r.matched != [] && r.unmatchedExpected == [] && !r.needsHuman);
    FullRatio(Total(results, f), |results|);
  }

  lemma SelectedRate(results: seq<MatchResult>)
    requires results != []
    ensures var rate := Ratio(Total(results, (r: MatchResult) => One(r.matched != [] || r.unmatchedActual != [])),
                              |results|);
            && (rate == 1.0 <==> forall r | r in results :: r.matched != [] || r.unmatchedActual != [])
            && (rate == 0.0 <==> forall r | r in results :: !(r.matched != [] || r.unmatchedActual != []))
  {
    var f := (r: MatchResult) => One(r.matched != [] || r.unmatchedActual != []);
    CountsAll(results, f, (r: MatchResult) => r.matched != [] || r.unmatchedActual != []);
    FullRatio(Total(results, f), |results|);
  }

  lemma HumanRate(results: seq<MatchResult>)
    requires results != []
    ensures var rate := Ratio(Total(results, (r: MatchResult) => One(r.needsHuman)), |results|);
            && (rate == 1.0 <==> forall r | r in results :: r.needsHuman)
            && (rate == 0.0 <==> forall r | r in results :: !r.needsHuman)
  {
    var f := (r: MatchResult) => One(r.needsHuman);
    CountsAll(results, f, (r: MatchResult) => r.needsHuman);
    FullRatio(Total(results, f), |results|);
  }

  /** False findings per reviewed pull request: the findings that matched no label, over the pull requests. */
  lemma FalseFindings(cases: Corpus, norm: Normalise, reviewedPrs: int)
    ensures var m := ComputeMetrics(Evaluate(cases, norm), reviewedPrs);
            m.falseFindingsPerPr == Ratio(FindingCount(cases) - m.usefulFindings, reviewedPrs)
  {
    DenominatorsCountInputs(cases, norm);
    PredictedSplits(Evaluate(cases, norm));
  }

  lemma {:induction false} PredictedSplits(results: seq<MatchResult>)
    ensures Total(results, Predicted()) ==
              Total(results, Matched()) + Total(results, (r: MatchResult) => |r.unmatchedActual|)
  {
    if results != [] {
      PredictedSplits(results[1..]);
    }
  }
}
