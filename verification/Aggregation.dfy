/** `aggregate_findings`: specialist findings merged per file, category and overlapping lines. The
    category normalisation is a parameter, so the results hold for every such function. */
module Aggregation {
  import opened Ordering
  import opened Decimal

  datatype Severity = Info | Low | Medium | High | Critical

  function Rank(s: Severity): nat {
    match s
    case Info => 0
    case Low => 1
    case Medium => 2
    case High => 3
    case Critical => 4
  }

  datatype Finding = Finding(
    concern: string, severity: Severity, category: string, filePath: string,
    lineStart: nat, lineEnd: nat, title: string, rationale: string,
    evidence: seq<string>, confidence: real)

  type Normalise = string -> string

  const KEY_WIDTH: nat := 10

  /** What the contract type validates, with lines that fit the zero-padded key. */
  ghost predicate Valid(findings: seq<Finding>) {
    forall f | f in findings :: f.lineStart <= f.lineEnd && f.lineStart < Pow10(KEY_WIDTH)
  }

  // ---- the program ------------------------------------------------------------------------------

  function Group(f: Finding, norm: Normalise): seq<string> { [f.filePath, norm(f.category)] }

  function Key(f: Finding, norm: Normalise, repository: string, headSha: string): seq<string> {
    [repository, headSha, f.filePath, norm(f.category),
     Pad(f.lineStart, KEY_WIDTH), Pad(f.lineEnd, KEY_WIDTH), f.title, f.rationale]
  }

  function KeyOrder(norm: Normalise, repository: string, headSha: string): (Finding, Finding) -> bool {
    (a: Finding, b: Finding) => TupleLeq(Key(a, norm, repository, headSha), Key(b, norm, repository, headSha))
  }

  function Lo(c: seq<Finding>): nat
    requires c != []
  {
    if |c| == 1 then c[0].lineStart
    else
      var rest := Lo(c[..|c| - 1]);
      if c[|c| - 1].lineStart < rest then c[|c| - 1].lineStart else rest
  }

  function Hi(c: seq<Finding>): nat
    requires c != []
  {
    if |c| == 1 then c[0].lineEnd
    else
      var rest := Hi(c[..|c| - 1]);
      if c[|c| - 1].lineEnd > rest then c[|c| - 1].lineEnd else rest
  }

  /** Same key as the cluster's head, and `_cluster_overlaps`. */
  predicate Joins(item: Finding, c: seq<Finding>, norm: Normalise) {
    c != [] && Group(item, norm) == Group(c[0], norm) && item.lineStart <= Hi(c) && Lo(c) <= item.lineEnd
  }

  /** The first cluster that takes the item, or a new one at the end. */
  function Place(item: Finding, cs: seq<seq<Finding>>, norm: Normalise): seq<seq<Finding>> {
    if cs == [] then [[item]]
    else if Joins(item, cs[0], norm) then [cs[0] + [item]] + cs[1..]
    else [cs[0]] + Place(item, cs[1..], norm)
  }

  function Cluster(ordered: seq<Finding>, norm: Normalise): seq<seq<Finding>> {
    if ordered == [] then []
    else Place(ordered[|ordered| - 1], Cluster(ordered[..|ordered| - 1], norm), norm)
  }

  predicate RepLeq(a: Finding, b: Finding) {
    if Rank(a.severity) != Rank(b.severity) then Rank(a.severity) < Rank(b.severity)
    else TupleLeq([a.title, a.rationale], [b.title, b.rationale])
  }

  /** `max` keeps the first of equal maxima. */
  function Pick(c: seq<Finding>): Finding
    requires c != []
  {
    if |c| == 1 then c[0]
    else
      var best := Pick(c[..|c| - 1]);
      if RepLeq(c[|c| - 1], best) then best else c[|c| - 1]
  }

  function AddEntry(e: string, s: seq<string>): seq<string> {
    if s == [] then [e]
    else if e == s[0] then s
    else if StrLeq(e, s[0]) then [e] + s
    else [s[0]] + AddEntry(e, s[1..])
  }

  function AddEntries(es: seq<string>, s: seq<string>): seq<string> {
    if es == [] then s else AddEntry(es[0], AddEntries(es[1..], s))
  }

  /** `sorted` of the set of all evidence entries. */
  function Evidence(c: seq<Finding>): seq<string> {
    if c == [] then [] else AddEntries(c[|c| - 1].evidence, Evidence(c[..|c| - 1]))
  }

  function Merge(c: seq<Finding>): Finding
    requires c != []
  {
    Pick(c).(lineStart := Lo(c), lineEnd := Hi(c), evidence := Evidence(c))
  }

  function MergeAll(cs: seq<seq<Finding>>): seq<Finding>
    requires forall i | 0 <= i < |cs| :: cs[i] != []
  {
    seq(|cs|, i requires 0 <= i < |cs| => Merge(cs[i]))
  }

  function Clusters(findings: seq<Finding>, norm: Normalise, repository: string,
                    headSha: string): (cs: seq<seq<Finding>>)
    ensures forall i | 0 <= i < |cs| :: cs[i] != []
  {
    ClusterNonEmpty(Sort(findings, KeyOrder(norm, repository, headSha)), norm);
    Cluster(Sort(findings, KeyOrder(norm, repository, headSha)), norm)
  }

  function Aggregate(findings: seq<Finding>, norm: Normalise, repository: string, headSha: string): seq<Finding> {
    MergeAll(Clusters(findings, norm, repository, headSha))
  }

  // ---- placing an item --------------------------------------------------------------------------

  /** Where `Place` puts the item. */
  lemma {:induction false} PlaceShape(item: Finding, cs: seq<seq<Finding>>, norm: Normalise) returns (k: nat)
    ensures k <= |cs|
    ensures forall i | 0 <= i < k :: !Joins(item, cs[i], norm)
    ensures k < |cs| ==> Joins(item, cs[k], norm) && Place(item, cs, norm) == cs[k := cs[k] + [item]]
    ensures k == |cs| ==> Place(item, cs, norm) == cs + [[item]]
  {
    if cs == [] {
      k := 0;
    } else if Joins(item, cs[0], norm) {
      k := 0;
    } else {
      var j := PlaceShape(item, cs[1..], norm);
      k := j + 1;
      assert cs == [cs[0]] + cs[1..];
      forall i | 0 <= i < k
        ensures !Joins(item, cs[i], norm)
      {
        assert i > 0 ==> cs[i] == cs[1..][i - 1];
      }
    }
  }

  lemma {:induction false} ClusterNonEmpty(ordered: seq<Finding>, norm: Normalise)
    ensures forall i | 0 <= i < |Cluster(ordered, norm)| :: Cluster(ordered, norm)[i] != []
  {
    if ordered != [] {
      ClusterNonEmpty(ordered[..|ordered| - 1], norm);
      var k := PlaceShape(ordered[|ordered| - 1], Cluster(ordered[..|ordered| - 1], norm), norm);
    }
  }

  lemma {:induction false} SpanBounds(c: seq<Finding>)
    requires c != []
    ensures forall m | m in c :: Lo(c) <= m.lineStart && m.lineEnd <= Hi(c)
    ensures exists m | m in c :: m.lineStart == Lo(c)
    ensures exists m | m in c :: m.lineEnd == Hi(c)
  {
    if |c| > 1 {
      var front := c[..|c| - 1];
      SpanBounds(front);
      assert c == front + [c[|c| - 1]];
      assert c[|c| - 1] in c;
      var m :| m in front && m.lineStart == Lo(front);
      var n :| n in front && n.lineEnd == Hi(front);
      assert m in c && n in c;
    } else {
      assert c[0] in c;
    }
  }

  lemma SpanAppend(c: seq<Finding>, item: Finding)
    requires c != []
    ensures Lo(c + [item]) == if item.lineStart < Lo(c) then item.lineStart else Lo(c)
    ensures Hi(c + [item]) == if item.lineEnd > Hi(c) then item.lineEnd else Hi(c)
  {
    assert (c + [item])[..|c|] == c;
  }

  // ---- the sorted order arranges each group by start line ---------------------------------------

  /** Groups in order, and start lines in order inside a group. */
  ghost predicate InOrder(a: Finding, b: Finding, norm: Normalise) {
    && TupleLeq(Group(a, norm), Group(b, norm))
    && (Group(a, norm) == Group(b, norm) ==> a.lineStart <= b.lineStart)
  }

  lemma KeyMeansInOrder(a: Finding, b: Finding, norm: Normalise, repository: string, headSha: string)
    requires a.lineStart < Pow10(KEY_WIDTH) && b.lineStart < Pow10(KEY_WIDTH)
    requires KeyOrder(norm, repository, headSha)(a, b)
    ensures InOrder(a, b, norm)
  {
    var ka, kb := Key(a, norm, repository, headSha), Key(b, norm, repository, headSha);
    assert TupleLeq(ka[1..], kb[1..]);
    assert TupleLeq(ka[1..][1..], kb[1..][1..]);
    assert ka[1..][1..] == ka[2..] && kb[1..][1..] == kb[2..];
    var ga, gb := Group(a, norm), Group(b, norm);
    StrTotal(a.filePath, b.filePath);
    if a.filePath == b.filePath {
      assert TupleLeq(ka[2..][1..], kb[2..][1..]);
      assert ka[2..][1..] == ka[3..] && kb[2..][1..] == kb[3..];
      assert ga[1..] == [norm(a.category)] && gb[1..] == [norm(b.category)];
      if norm(a.category) == norm(b.category) {
        assert ka[3..][1..] == ka[4..] && kb[3..][1..] == kb[4..];
        assert TupleLeq(ka[4..], kb[4..]);
        PadOrder(a.lineStart, b.lineStart, KEY_WIDTH);
      }
      assert TupleLeq(ga[1..], gb[1..]);
    }
  }

  lemma KeyOrderIsPreorder(norm: Normalise, repository: string, headSha: string)
    ensures Preorder(KeyOrder(norm, repository, headSha))
  {
    var leq := KeyOrder(norm, repository, headSha);
    forall x, y
      ensures leq(x, y) || leq(y, x)
    {
      TupleTotal(Key(x, norm, repository, headSha), Key(y, norm, repository, headSha));
    }
    forall x, y, z | leq(x, y) && leq(y, z)
      ensures leq(x, z)
    {
      TupleTransitive(Key(x, norm, repository, headSha), Key(y, norm, repository, headSha),
                      Key(z, norm, repository, headSha));
    }
  }

  ghost predicate Arranged(s: seq<Finding>, norm: Normalise) {
    && (forall i, j | 0 <= i < j < |s| :: InOrder(s[i], s[j], norm))
    && (forall i | 0 <= i < |s| :: s[i].lineStart <= s[i].lineEnd)
  }

  lemma SortArranges(findings: seq<Finding>, norm: Normalise, repository: string, headSha: string)
    requires Valid(findings)
    ensures var s := Sort(findings, KeyOrder(norm, repository, headSha));
            Arranged(s, norm) && multiset(s) == multiset(findings) && forall f :: f in s <==> f in findings
  {
    var leq := KeyOrder(norm, repository, headSha);
    KeyOrderIsPreorder(norm, repository, headSha);
    SortFacts(findings, leq);
    var s := Sort(findings, leq);
    MembersOfPermutation(s, findings);
    forall i, j | 0 <= i < j < |s|
      ensures InOrder(s[i], s[j], norm)
    {
      assert s[i] in findings && s[j] in findings && leq(s[i], s[j]);
      KeyMeansInOrder(s[i], s[j], norm, repository, headSha);
    }
    forall i | 0 <= i < |s|
      ensures s[i].lineStart <= s[i].lineEnd
    {
      assert s[i] in findings;
    }
  }

  // ---- the clusters are the connected components ------------------------------------------------

  /** Two findings the merge must join directly. */
  predicate Touch(a: Finding, b: Finding, norm: Normalise) {
    Group(a, norm) == Group(b, norm) && a.lineStart <= b.lineEnd && b.lineStart <= a.lineEnd
  }

  ghost predicate IsChain(chain: seq<Finding>, items: seq<Finding>, norm: Normalise) {
    && chain != []
    && (forall i | 0 <= i < |chain| :: chain[i] in items)
    && (forall i | 0 <= i < |chain| - 1 :: Touch(chain[i], chain[i + 1], norm))
  }

  /** Connected by overlapping findings of one file and category. */
  ghost predicate Linked(items: seq<Finding>, a: Finding, b: Finding, norm: Normalise) {
    exists chain :: IsChain(chain, items, norm) && chain[0] == a && chain[|chain| - 1] == b
  }

  lemma LinkedSelf(items: seq<Finding>, a: Finding, norm: Normalise)
    requires a in items
    ensures Linked(items, a, a, norm)
  {
    assert IsChain([a], items, norm) && [a][0] == a;
  }

  lemma LinkedExtend(items: seq<Finding>, a: Finding, b: Finding, c: Finding, norm: Normalise)
    requires Linked(items, a, b, norm) && Touch(b, c, norm) && c in items
    ensures Linked(items, a, c, norm)
  {
    var chain :| IsChain(chain, items, norm) && chain[0] == a && chain[|chain| - 1] == b;
    var longer := chain + [c];
    forall i | 0 <= i < |longer| - 1
      ensures Touch(longer[i], longer[i + 1], norm)
    {
      if i < |chain| - 1 {
        assert Touch(chain[i], chain[i + 1], norm);
      }
    }
    assert IsChain(longer, items, norm);
  }

  lemma {:induction false} LinkedTransitive(items: seq<Finding>, a: Finding, chain: seq<Finding>, norm: Normalise)
    requires IsChain(chain, items, norm) && Linked(items, a, chain[0], norm)
    ensures Linked(items, a, chain[|chain| - 1], norm)
  {
    if |chain| > 1 {
      var front := chain[..|chain| - 1];
      assert IsChain(front, items, norm) by {
        forall i | 0 <= i < |front| - 1
          ensures Touch(front[i], front[i + 1], norm)
        {
          assert Touch(chain[i], chain[i + 1], norm);
        }
      }
      LinkedTransitive(items, a, front, norm);
      assert Touch(chain[|chain| - 2], chain[|chain| - 2 + 1], norm);
      LinkedExtend(items, a, front[|front| - 1], chain[|chain| - 1], norm);
    }
  }

  lemma {:induction false} LinkedSymmetric(items: seq<Finding>, chain: seq<Finding>, norm: Normalise)
    requires IsChain(chain, items, norm)
    ensures Linked(items, chain[|chain| - 1], chain[0], norm)
  {
    LinkedSelf(items, chain[|chain| - 1], norm);
    if |chain| > 1 {
      var tail := chain[1..];
      assert IsChain(tail, items, norm) by {
        forall i | 0 <= i < |tail| - 1
          ensures Touch(tail[i], tail[i + 1], norm)
        {
          assert Touch(chain[i + 1], chain[i + 1 + 1], norm);
        }
      }
      LinkedSymmetric(items, tail, norm);
      assert Touch(chain[0], chain[0 + 1], norm);
      LinkedExtend(items, chain[|chain| - 1], chain[1], chain[0], norm);
    }
  }

  /** Every member after the first touches an earlier one. */
  ghost predicate Grown(c: seq<Finding>, norm: Normalise) {
    && c != []
    && (forall k | 0 <= k < |c| :: Group(c[k], norm) == Group(c[0], norm))
    && (forall k | 1 <= k < |c| :: exists l | 0 <= l < k :: Touch(c[l], c[k], norm))
  }

  /** Clusters in group order, and left to right without overlap inside a group. */
  ghost predicate Before(c: seq<Finding>, d: seq<Finding>, norm: Normalise)
    requires c != [] && d != []
  {
    && TupleLeq(Group(c[0], norm), Group(d[0], norm))
    && (Group(c[0], norm) == Group(d[0], norm) ==> Hi(c) < Lo(d))
  }

  ghost predicate Separated(cs: seq<seq<Finding>>, norm: Normalise) {
    && (forall i | 0 <= i < |cs| :: Grown(cs[i], norm))
    && (forall i, j | 0 <= i < j < |cs| :: Before(cs[i], cs[j], norm))
  }

  function Flatten(cs: seq<seq<Finding>>): seq<Finding> {
    if cs == [] then [] else cs[0] + Flatten(cs[1..])
  }

  /** Everything clustered so far sorts before the item. */
  ghost predicate Precedes(cs: seq<seq<Finding>>, item: Finding, norm: Normalise) {
    forall i | 0 <= i < |cs| ::
      && cs[i] != []
      && TupleLeq(Group(cs[i][0], norm), Group(item, norm))
      && (Group(cs[i][0], norm) == Group(item, norm) ==> Lo(cs[i]) <= item.lineStart)
  }

  lemma GrownAppend(c: seq<Finding>, item: Finding, norm: Normalise)
    requires Grown(c, norm) && Joins(item, c, norm) && item.lineStart <= item.lineEnd
    requires forall m | m in c :: m.lineStart <= item.lineStart
    ensures Grown(c + [item], norm)
  {
    SpanBounds(c);
    var m :| m in c && m.lineEnd == Hi(c);
    var l :| 0 <= l < |c| && c[l] == m;
    var more := c + [item];
    assert Touch(more[l], more[|c|], norm);
    forall k | 1 <= k < |more|
      ensures exists l | 0 <= l < k :: Touch(more[l], more[k], norm)
    {
      if k < |c| {
        var l :| 0 <= l < k && Touch(c[l], c[k], norm);
        assert Touch(more[l], more[k], norm);
      }
    }
  }

  /** Because items arrive in start order, only the last cluster of a group can take one, and taking
      it or opening a new cluster keeps all clusters apart. */
  lemma JoinKeepsSeparated(item: Finding, cs: seq<seq<Finding>>, norm: Normalise, k: nat)
    requires Separated(cs, norm) && Precedes(cs, item, norm) && item.lineStart <= item.lineEnd
    requires forall i, m | 0 <= i < |cs| && m in cs[i] && Group(m, norm) == Group(item, norm) ::
               m.lineStart <= item.lineStart
    requires k < |cs| && Joins(item, cs[k], norm)
    ensures Separated(cs[k := cs[k] + [item]], norm)
  {
    var ds := cs[k := cs[k] + [item]];
    assert Grown(ds[k], norm) by {
      forall m | m in cs[k]
        ensures m.lineStart <= item.lineStart
      {
        var l :| 0 <= l < |cs[k]| && cs[k][l] == m;
        assert Group(cs[k][l], norm) == Group(cs[k][0], norm);
      }
      GrownAppend(cs[k], item, norm);
    }
    SpanAppend(cs[k], item);
    forall i, j | 0 <= i < j < |ds|
      ensures Before(ds[i], ds[j], norm)
    {
      assert Before(cs[i], cs[j], norm);
      if i == k {
        assert Group(cs[j][0], norm) != Group(item, norm);
      }
    }
  }

  lemma PlaceKeepsSeparated(item: Finding, cs: seq<seq<Finding>>, norm: Normalise)
    requires Separated(cs, norm) && Precedes(cs, item, norm) && item.lineStart <= item.lineEnd
    requires forall i, m | 0 <= i < |cs| && m in cs[i] && Group(m, norm) == Group(item, norm) ::
               m.lineStart <= item.lineStart
    ensures Separated(Place(item, cs, norm), norm)
  {
    var k := PlaceShape(item, cs, norm);
    var ds := Place(item, cs, norm);
    if k < |cs| {
      JoinKeepsSeparated(item, cs, norm, k);
    } else {
      forall i, j | 0 <= i < j < |ds|
        ensures Before(ds[i], ds[j], norm)
      {
        if j < |cs| {
          assert Before(cs[i], cs[j], norm);
        } else {
          assert !Joins(item, cs[i], norm);
        }
      }
    }
  }

  lemma {:induction false} FlattenUpdate(cs: seq<seq<Finding>>, k: nat, item: Finding)
    requires k < |cs|
    ensures multiset(Flatten(cs[k := cs[k] + [item]])) == multiset(Flatten(cs)) + multiset{item}
  {
    var ds, rest := cs[k := cs[k] + [item]], cs[1..];
    if k == 0 {
      assert ds[1..] == rest;
      assert Flatten(ds) == cs[0] + [item] + Flatten(rest);
    } else {
      FlattenUpdate(rest, k - 1, item);
      var more := rest[k - 1 := rest[k - 1] + [item]];
      assert ds[0] == cs[0] && ds[1..] == more;
      assert Flatten(ds) == cs[0] + Flatten(more);
    }
  }

  lemma {:induction false} FlattenAppend(cs: seq<seq<Finding>>, c: seq<Finding>)
    ensures Flatten(cs + [c]) == Flatten(cs) + c
  {
    if cs == [] {
      assert cs + [c] == [c];
      assert Flatten([c][1..]) == [];
    } else {
      FlattenAppend(cs[1..], c);
      assert (cs + [c])[1..] == cs[1..] + [c];
    }
  }

  lemma {:induction false} FlattenMembers(cs: seq<seq<Finding>>, m: Finding)
    ensures m in Flatten(cs) <==> exists i | 0 <= i < |cs| :: m in cs[i]
  {
    if cs != [] {
      FlattenMembers(cs[1..], m);
      if m in Flatten(cs[1..]) {
        var i :| 0 <= i < |cs[1..]| && m in cs[1..][i];
        assert m in cs[i + 1];
      }
      if i :| 0 <= i < |cs| && m in cs[i] {
        assert i > 0 ==> cs[1..][i - 1] == cs[i];
      }
    }
  }

  lemma PlaceConserves(item: Finding, cs: seq<seq<Finding>>, norm: Normalise)
    ensures multiset(Flatten(Place(item, cs, norm))) == multiset(Flatten(cs)) + multiset{item}
  {
    var k := PlaceShape(item, cs, norm);
    if k < |cs| {
      FlattenUpdate(cs, k, item);
    } else {
      FlattenAppend(cs, [item]);
    }
  }

  lemma MembersPrecede(s: seq<Finding>, cs: seq<seq<Finding>>, norm: Normalise, m: Finding)
    requires Arranged(s, norm) && s != [] && m in Flatten(cs)
    requires multiset(Flatten(cs)) == multiset(s[..|s| - 1])
    ensures InOrder(m, s[|s| - 1], norm)
  {
    var front := s[..|s| - 1];
    MembersOfPermutation(Flatten(cs), front);
    var l :| 0 <= l < |front| && front[l] == m;
    assert InOrder(s[l], s[|s| - 1], norm);
  }

  lemma ClustersPrecede(s: seq<Finding>, cs: seq<seq<Finding>>, norm: Normalise)
    requires Arranged(s, norm) && s != [] && Separated(cs, norm)
    requires multiset(Flatten(cs)) == multiset(s[..|s| - 1])
    ensures Precedes(cs, s[|s| - 1], norm)
    ensures forall i, m | 0 <= i < |cs| && m in cs[i] :: InOrder(m, s[|s| - 1], norm)
  {
    var item := s[|s| - 1];
    forall i, m | 0 <= i < |cs| && m in cs[i]
      ensures InOrder(m, item, norm)
    {
      FlattenMembers(cs, m);
      MembersPrecede(s, cs, norm, m);
    }
    forall i | 0 <= i < |cs|
      ensures TupleLeq(Group(cs[i][0], norm), Group(item, norm))
      ensures Group(cs[i][0], norm) == Group(item, norm) ==> Lo(cs[i]) <= item.lineStart
    {
      assert InOrder(cs[i][0], item, norm);
      SpanBounds(cs[i]);
    }
  }

  lemma {:induction false} ClusterFacts(s: seq<Finding>, norm: Normalise)
    requires Arranged(s, norm)
    ensures Separated(Cluster(s, norm), norm)
    ensures multiset(Flatten(Cluster(s, norm))) == multiset(s)
  {
    if s != [] {
      var front, item := s[..|s| - 1], s[|s| - 1];
      assert s == front + [item];
      assert Arranged(front, norm);
      ClusterFacts(front, norm);
      var cs := Cluster(front, norm);
      PlaceConserves(item, cs, norm);
      ClustersPrecede(s, cs, norm);
      assert forall i, m | 0 <= i < |cs| && m in cs[i] && Group(m, norm) == Group(item, norm) ::
          InOrder(m, item, norm) ==> m.lineStart <= item.lineStart;
      PlaceKeepsSeparated(item, cs, norm);
    }
  }

  lemma {:induction false} GrownIsLinked(c: seq<Finding>, items: seq<Finding>, norm: Normalise, k: nat)
    requires Grown(c, norm) && k < |c|
    requires forall m | m in c :: m in items
    ensures Linked(items, c[0], c[k], norm)
    decreases k
  {
    if k == 0 {
      LinkedSelf(items, c[0], norm);
    } else {
      var l :| 0 <= l < k && Touch(c[l], c[k], norm);
      GrownIsLinked(c, items, norm, l);
      LinkedExtend(items, c[0], c[l], c[k], norm);
    }
  }

  /** A chain that starts in a cluster never leaves it. */
  lemma {:induction false} ChainStaysInside(cs: seq<seq<Finding>>, items: seq<Finding>, norm: Normalise, i: nat,
                                            chain: seq<Finding>)
    requires Separated(cs, norm) && i < |cs|
    requires forall m :: m in items <==> m in Flatten(cs)
    requires forall m | m in items :: m.lineStart <= m.lineEnd
    requires IsChain(chain, items, norm) && chain[0] in cs[i]
    ensures chain[|chain| - 1] in cs[i]
  {
    if |chain| > 1 {
      var front := chain[..|chain| - 1];
      assert IsChain(front, items, norm) by {
        forall k | 0 <= k < |front| - 1
          ensures Touch(front[k], front[k + 1], norm)
        {
          assert Touch(chain[k], chain[k + 1], norm);
        }
      }
      ChainStaysInside(cs, items, norm, i, front);
      var a, b := chain[|chain| - 2], chain[|chain| - 1];
      assert Touch(chain[|chain| - 2], chain[|chain| - 2 + 1], norm);
      FlattenMembers(cs, b);
      var j :| 0 <= j < |cs| && b in cs[j];
      TouchersShareCluster(cs, norm, i, j, a, b);
    }
  }

  lemma TouchersShareCluster(cs: seq<seq<Finding>>, norm: Normalise, i: nat, j: nat, a: Finding, b: Finding)
    requires Separated(cs, norm) && i < |cs| && j < |cs| && a in cs[i] && b in cs[j] && Touch(a, b, norm)
    ensures i == j
  {
    var k :| 0 <= k < |cs[i]| && cs[i][k] == a;
    var l :| 0 <= l < |cs[j]| && cs[j][l] == b;
    assert Group(cs[i][k], norm) == Group(cs[i][0], norm);
    assert Group(cs[j][l], norm) == Group(cs[j][0], norm);
    SpanBounds(cs[i]);
    SpanBounds(cs[j]);
    assert i < j ==> Before(cs[i], cs[j], norm);
    assert j < i ==> Before(cs[j], cs[i], norm);
  }

  /** The clusters are exactly the connected components. */
  lemma ClusterIsComponent(cs: seq<seq<Finding>>, items: seq<Finding>, norm: Normalise, i: nat, a: Finding, b: Finding)
    requires Separated(cs, norm) && i < |cs| && a in cs[i] && b in items
    requires forall m :: m in items <==> m in Flatten(cs)
    requires forall m | m in items :: m.lineStart <= m.lineEnd
    ensures b in cs[i] <==> Linked(items, a, b, norm)
  {
    if Linked(items, a, b, norm) {
      var chain :| IsChain(chain, items, norm) && chain[0] == a && chain[|chain| - 1] == b;
      ChainStaysInside(cs, items, norm, i, chain);
    }
    if b in cs[i] {
      assert forall m | m in cs[i] :: m in items by {
        forall m | m in cs[i]
          ensures m in items
        {
          FlattenMembers(cs, m);
        }
      }
      var k :| 0 <= k < |cs[i]| && cs[i][k] == a;
      var l :| 0 <= l < |cs[i]| && cs[i][l] == b;
      GrownIsLinked(cs[i], items, norm, k);
      GrownIsLinked(cs[i], items, norm, l);
      var back :| IsChain(back, items, norm) && back[0] == cs[i][0] && back[|back| - 1] == a;
      LinkedSymmetric(items, back, norm);
      var forth :| IsChain(forth, items, norm) && forth[0] == cs[i][0] && forth[|forth| - 1] == b;
      LinkedTransitive(items, a, forth, norm);
    }
  }

  // ---- what one merged finding says -------------------------------------------------------------

  ghost predicate StrictlySorted(s: seq<string>) {
    forall i, j | 0 <= i < j < |s| :: StrLeq(s[i], s[j]) && s[i] != s[j]
  }

  lemma {:induction false} AddEntryMembers(e: string, s: seq<string>)
    ensures forall x :: x in AddEntry(e, s) <==> x == e || x in s
  {
    if s != [] {
      AddEntryMembers(e, s[1..]);
      assert s == [s[0]] + s[1..];
    }
  }

  /** A string in front of a strictly sorted list, when it is below its first entry. */
  lemma SortedPrepend(e: string, s: seq<string>)
    requires StrictlySorted(s) && forall x | x in s :: StrLeq(e, x) && e != x
    ensures StrictlySorted([e] + s)
  {
  }

  lemma BelowFirst(e: string, s: seq<string>, x: string)
    requires StrictlySorted(s) && s != [] && x in s && StrLeq(e, s[0]) && e != s[0]
    ensures StrLeq(e, x) && e != x
  {
    var j :| 0 <= j < |s| && s[j] == x;
    if j > 0 {
      assert StrLeq(s[0], s[j]) && s[0] != s[j];
      StrTransitive(e, s[0], x);
      StrTotal(s[0], x);
    }
  }

  lemma {:induction false} AddEntryFacts(e: string, s: seq<string>)
    requires StrictlySorted(s)
    ensures StrictlySorted(AddEntry(e, s))
    ensures forall x :: x in AddEntry(e, s) <==> x == e || x in s
  {
    AddEntryMembers(e, s);
    if s != [] {
      StrTotal(e, s[0]);
      if e != s[0] && StrLeq(e, s[0]) {
        forall x | x in s
          ensures StrLeq(e, x) && e != x
        {
          BelowFirst(e, s, x);
        }
        SortedPrepend(e, s);
      } else if e != s[0] {
        var tail := AddEntry(e, s[1..]);
        AddEntryFacts(e, s[1..]);
        forall x | x in tail
          ensures StrLeq(s[0], x) && s[0] != x
        {
          if x != e {
            var k :| 0 <= k < |s[1..]| && s[1..][k] == x;
            assert s[k + 1] == x;
          }
        }
        SortedPrepend(s[0], tail);
      }
    }
  }

  lemma {:induction false} AddEntriesFacts(es: seq<string>, s: seq<string>)
    requires StrictlySorted(s)
    ensures StrictlySorted(AddEntries(es, s))
    ensures forall x :: x in AddEntries(es, s) <==> x in es || x in s
  {
    if es != [] {
      AddEntriesFacts(es[1..], s);
      AddEntryFacts(es[0], AddEntries(es[1..], s));
    }
  }

  ghost predicate Cites(c: seq<Finding>, e: string) {
    exists m | m in c :: e in m.evidence
  }

  lemma {:induction false} EvidenceFacts(c: seq<Finding>)
    ensures StrictlySorted(Evidence(c))
    ensures forall e :: e in Evidence(c) <==> Cites(c, e)
  {
    if c != [] {
      var front, last := c[..|c| - 1], c[|c| - 1];
      EvidenceFacts(front);
      AddEntriesFacts(last.evidence, Evidence(front));
      assert c == front + [last];
      forall e
        ensures e in Evidence(c) <==> Cites(c, e)
      {
        if Cites(front, e) {
          var m :| m in front && e in m.evidence;
          assert m in c;
        }
        if e in last.evidence {
          assert last in c;
        }
      }
    }
  }

  lemma RepTotal(a: Finding, b: Finding)
    ensures RepLeq(a, b) || RepLeq(b, a)
    ensures RepLeq(a, b) && RepLeq(b, a) ==>
              a.severity == b.severity && a.title == b.title && a.rationale == b.rationale
  {
    TupleTotal([a.title, a.rationale], [b.title, b.rationale]);
    if [a.title, a.rationale] == [b.title, b.rationale] {
      assert [a.title, a.rationale][0] == [b.title, b.rationale][0];
      assert [a.title, a.rationale][1] == [b.title, b.rationale][1];
    }
  }

  lemma RepTransitive(a: Finding, b: Finding, c: Finding)
    requires RepLeq(a, b) && RepLeq(b, c)
    ensures RepLeq(a, c)
  {
    if a.severity == b.severity == c.severity {
      TupleTransitive([a.title, a.rationale], [b.title, b.rationale], [c.title, c.rationale]);
    }
  }

  lemma {:induction false} PickFacts(c: seq<Finding>)
    requires c != []
    ensures Pick(c) in c && forall m | m in c :: RepLeq(m, Pick(c))
  {
    var front, last := c[..|c| - 1], c[|c| - 1];
    RepTotal(last, last);
    if |c| > 1 {
      PickFacts(front);
      assert c == front + [last];
      RepTotal(last, Pick(front));
      forall m | m in c
        ensures RepLeq(m, Pick(c))
      {
        if m in front && Pick(c) == last {
          RepTransitive(m, Pick(front), last);
        }
      }
    }
  }

  ghost predicate Has(c: seq<Finding>, s: Severity) { exists m | m in c :: m.severity == s }

  /** The severity is the gravest among the members. */
  ghost predicate Gravest(s: Severity, c: seq<Finding>) {
    && (s == Critical <==> Has(c, Critical))
    && (s == High <==> Has(c, High) && !Has(c, Critical))
    && (s == Medium <==> Has(c, Medium) && !Has(c, High) && !Has(c, Critical))
    && (s == Low <==> Has(c, Low) && !Has(c, Medium) && !Has(c, High) && !Has(c, Critical))
    && (s == Info <==> !Has(c, Low) && !Has(c, Medium) && !Has(c, High) && !Has(c, Critical))
  }

  /** Among the members of its severity, its title is the greatest, and its rationale the greatest for that title. */
  ghost predicate LastInText(out: Finding, c: seq<Finding>) {
    forall m | m in c && m.severity == out.severity ::
      StrLeq(m.title, out.title) && (m.title == out.title ==> StrLeq(m.rationale, out.rationale))
  }

  lemma PickIsGravest(pick: Finding, c: seq<Finding>)
    requires pick in c && forall m | m in c :: RepLeq(m, pick)
    ensures Gravest(pick.severity, c) && LastInText(pick, c)
  {
    assert Has(c, pick.severity);
    forall s: Severity | Has(c, s)
      ensures Rank(s) <= Rank(pick.severity)
    {
      var m :| m in c && m.severity == s;
      assert RepLeq(m, pick);
    }
    forall m | m in c && m.severity == pick.severity
      ensures StrLeq(m.title, pick.title) && (m.title == pick.title ==> StrLeq(m.rationale, pick.rationale))
    {
      assert TupleLeq([m.title, m.rationale], [pick.title, pick.rationale]);
      TextOrder(m.title, m.rationale, pick.title, pick.rationale);
    }
  }

  lemma TextOrder(t: string, r: string, t': string, r': string)
    requires TupleLeq([t, r], [t', r'])
    ensures StrLeq(t, t') && (t == t' ==> StrLeq(r, r'))
  {
    StrTotal(t, t');
    StrTotal(r, r');
    assert [t, r][1..] == [r] && [t', r'][1..] == [r'];
  }

  /** The merged finding spans its component, carries the union of its evidence in order, the gravest severity
      of its members, and otherwise the fields of the member of that severity that comes last in its text. */
  ghost predicate Summarises(out: Finding, c: seq<Finding>) {
    && (forall m | m in c :: out.lineStart <= m.lineStart && m.lineEnd <= out.lineEnd)
    && (exists m | m in c :: m.lineStart == out.lineStart)
    && (exists m | m in c :: m.lineEnd == out.lineEnd)
    && StrictlySorted(out.evidence)
    && (forall e :: e in out.evidence <==> Cites(c, e))
    && (exists m | m in c :: out == m.(lineStart := out.lineStart, lineEnd := out.lineEnd, evidence := out.evidence))
    && (forall m | m in c :: RepLeq(m, out))
    && Gravest(out.severity, c) && LastInText(out, c)
  }

  lemma MergeSummarises(c: seq<Finding>)
    requires c != []
    ensures Summarises(Merge(c), c)
  {
    SpanBounds(c);
    EvidenceFacts(c);
    PickFacts(c);
    PickIsGravest(Pick(c), c);
    var out := Merge(c);
    assert out == Pick(c).(lineStart := out.lineStart, lineEnd := out.lineEnd, evidence := out.evidence);
  }

  /** Of members tied in severity, title and rationale, the first in the cluster lends its remaining fields. */
  lemma {:induction false} MergeTakesFirst(c: seq<Finding>) returns (i: nat)
    requires c != []
    ensures i < |c| && Merge(c) == c[i].(lineStart := Lo(c), lineEnd := Hi(c), evidence := Evidence(c))
    ensures forall j | 0 <= j < i ::
              !(c[j].severity == c[i].severity && c[j].title == c[i].title && c[j].rationale == c[i].rationale)
  {
    i := PickPosition(c);
  }

  lemma {:induction false} PickPosition(c: seq<Finding>) returns (i: nat)
    requires c != []
    ensures i < |c| && Pick(c) == c[i]
    ensures forall j | 0 <= j < i ::
              !(c[j].severity == c[i].severity && c[j].title == c[i].title && c[j].rationale == c[i].rationale)
  {
    if |c| == 1 {
      i := 0;
    } else {
      var front, last := c[..|c| - 1], c[|c| - 1];
      i := PickPosition(front);
      if !RepLeq(last, front[i]) {
        var best := front[i];
        i := |c| - 1;
        forall j | 0 <= j < i
          ensures !(c[j].severity == last.severity && c[j].title == last.title && c[j].rationale == last.rationale)
        {
          PickFacts(front);
          assert c[j] == front[j] && RepLeq(front[j], best);
        }
      }
    }
  }

  // ---- the theorems -----------------------------------------------------------------------------

  lemma ClustersFacts(findings: seq<Finding>, norm: Normalise, repository: string, headSha: string)
    requires Valid(findings)
    ensures var cs := Clusters(findings, norm, repository, headSha);
            && Separated(cs, norm)
            && multiset(Flatten(cs)) == multiset(findings)
            && (forall m :: m in findings <==> m in Flatten(cs))
  {
    SortArranges(findings, norm, repository, headSha);
    var s := Sort(findings, KeyOrder(norm, repository, headSha));
    ClusterFacts(s, norm);
    MembersOfPermutation(Flatten(Cluster(s, norm)), findings);
  }

  /** One output per connected component of line overlap within a file and category: the clusters
      hold every finding exactly once, two findings share one exactly when they are linked, and each
      output summarises its cluster. Outputs of one file and category are disjoint, left to right. */
  lemma OneOutputPerComponent(findings: seq<Finding>, norm: Normalise, repository: string, headSha: string)
    requires Valid(findings)
    ensures var cs := Clusters(findings, norm, repository, headSha);
            var out := Aggregate(findings, norm, repository, headSha);
            && multiset(Flatten(cs)) == multiset(findings)
            && (forall i, a, b | 0 <= i < |cs| && a in cs[i] && b in findings ::
                  b in cs[i] <==> Linked(findings, a, b, norm))
            && |out| == |cs|
            && (forall i | 0 <= i < |out| :: Summarises(out[i], cs[i]))
            && (forall i, j | 0 <= i < j < |out| && Group(out[i], norm) == Group(out[j], norm) ::
                  out[i].lineEnd < out[j].lineStart)
  {
    ClustersFacts(findings, norm, repository, headSha);
    var cs := Clusters(findings, norm, repository, headSha);
    var out := Aggregate(findings, norm, repository, headSha);
    forall i, a, b | 0 <= i < |cs| && a in cs[i] && b in findings
      ensures b in cs[i] <==> Linked(findings, a, b, norm)
    {
      ClusterIsComponent(cs, findings, norm, i, a, b);
    }
    forall i | 0 <= i < |out|
      ensures Summarises(out[i], cs[i])
    {
      MergeSummarises(cs[i]);
    }
    OutputsInOrder(cs, norm);
  }

  lemma MergeGroup(c: seq<Finding>, norm: Normalise)
    requires Grown(c, norm)
    ensures Group(Merge(c), norm) == Group(c[0], norm)
  {
    PickFacts(c);
    var k :| 0 <= k < |c| && c[k] == Pick(c);
    assert Group(c[k], norm) == Group(c[0], norm);
  }

  ghost predicate Apart(a: Finding, b: Finding, norm: Normalise) {
    && TupleLeq(Group(a, norm), Group(b, norm))
    && (Group(a, norm) == Group(b, norm) ==> a.lineEnd < b.lineStart)
  }

  lemma OutputsInOrder(cs: seq<seq<Finding>>, norm: Normalise)
    requires Separated(cs, norm)
    ensures forall i, j | 0 <= i < j < |cs| :: Apart(MergeAll(cs)[i], MergeAll(cs)[j], norm)
  {
    forall i, j | 0 <= i < j < |cs|
      ensures Apart(MergeAll(cs)[i], MergeAll(cs)[j], norm)
    {
      assert Before(cs[i], cs[j], norm);
      MergeGroup(cs[i], norm);
      MergeGroup(cs[j], norm);
    }
  }

  // ---- a second application changes nothing -----------------------------------------------------

  lemma ApartMeansKeyOrder(a: Finding, b: Finding, norm: Normalise, repository: string, headSha: string)
    requires Apart(a, b, norm) && a.lineStart <= a.lineEnd
    requires a.lineStart < Pow10(KEY_WIDTH) && b.lineStart < Pow10(KEY_WIDTH)
    ensures KeyOrder(norm, repository, headSha)(a, b)
  {
    var ka, kb := Key(a, norm, repository, headSha), Key(b, norm, repository, headSha);
    var ga, gb := Group(a, norm), Group(b, norm);
    if a.filePath == b.filePath {
      assert ga[1..] == [norm(a.category)] && gb[1..] == [norm(b.category)];
      assert TupleLeq(ga[1..], gb[1..]);
      if norm(a.category) == norm(b.category) {
        PadOrder(a.lineStart, b.lineStart, KEY_WIDTH);
        assert TupleLeq(ka[4..], kb[4..]);
        assert ka[3..][1..] == ka[4..] && kb[3..][1..] == kb[4..];
      }
      assert TupleLeq(ka[3..], kb[3..]);
      assert ka[2..][1..] == ka[3..] && kb[2..][1..] == kb[3..];
    }
    assert TupleLeq(ka[2..], kb[2..]);
    assert ka[1..][1..] == ka[2..] && kb[1..][1..] == kb[2..];
    assert TupleLeq(ka[1..], kb[1..]);
  }

  lemma {:induction false} ClusterOfApart(s: seq<Finding>, norm: Normalise)
    requires forall i, j | 0 <= i < j < |s| :: Apart(s[i], s[j], norm)
    ensures Cluster(s, norm) == seq(|s|, i requires 0 <= i < |s| => [s[i]])
  {
    if s != [] {
      var front, item := s[..|s| - 1], s[|s| - 1];
      ClusterOfApart(front, norm);
      var cs := Cluster(front, norm);
      forall i | 0 <= i < |cs|
        ensures !Joins(item, cs[i], norm)
      {
        assert Apart(s[i], s[|s| - 1], norm);
        assert cs[i] == [s[i]];
      }
      var k := PlaceShape(item, cs, norm);
    }
  }

  lemma MergeOfOne(f: Finding)
    requires StrictlySorted(f.evidence)
    ensures Merge([f]) == f
  {
    assert [f][..0] == [];
    SortedEvidenceStays(f.evidence);
    assert Evidence([f]) == AddEntries(f.evidence, Evidence([]));
  }

  lemma {:induction false} SortedEvidenceStays(es: seq<string>)
    requires StrictlySorted(es)
    ensures AddEntries(es, []) == es
  {
    if es != [] {
      SortedEvidenceStays(es[1..]);
      if |es| > 1 {
        assert StrLeq(es[0], es[1]) && es[0] != es[1];
      }
      assert es == [es[0]] + es[1..];
    }
  }

  /** Aggregating an aggregate changes nothing. */
  lemma AggregateTwice(findings: seq<Finding>, norm: Normalise, repository: string, headSha: string)
    requires Valid(findings)
    ensures var out := Aggregate(findings, norm, repository, headSha);
            Valid(out) && Aggregate(out, norm, repository, headSha) == out
  {
    ClustersFacts(findings, norm, repository, headSha);
    var cs := Clusters(findings, norm, repository, headSha);
    var out := Aggregate(findings, norm, repository, headSha);
    forall i | 0 <= i < |out|
      ensures out[i].lineStart <= out[i].lineEnd && out[i].lineStart < Pow10(KEY_WIDTH)
              && StrictlySorted(out[i].evidence)
    {
      MergeSummarises(cs[i]);
      var m: Finding :| m in cs[i] && m.lineStart == out[i].lineStart;
      FlattenMembers(cs, m);
      assert m in findings;
    }
    OutputsInOrder(cs, norm);
    var leq := KeyOrder(norm, repository, headSha);
    forall i, j | 0 <= i < j < |out|
      ensures leq(out[i], out[j])
    {
      assert Apart(out[i], out[j], norm);
      ApartMeansKeyOrder(out[i], out[j], norm, repository, headSha);
    }
    SortOfSorted(out, leq);
    ClusterOfApart(out, norm);
    var again := Clusters(out, norm, repository, headSha);
    forall i | 0 <= i < |out|
      ensures Merge(again[i]) == out[i]
    {
      assert again[i] == [out[i]];
      MergeOfOne(out[i]);
    }
    assert MergeAll(again) == out;
  }
}
