/** `aggregate_findings`: the loops, independence of the input order, and why the key width matters. */
module AggregationOrder {
  import opened Ordering
  import opened Decimal
  import opened Aggregation

  /** The search for the first cluster that takes an item. */
  method PlaceItem(item: Finding, before: seq<seq<Finding>>, norm: Normalise) returns (clusters: seq<seq<Finding>>)
    ensures clusters == Place(item, before, norm)
  {
    var i := 0;
    while i < |before|
      invariant i <= |before|
      invariant forall j | 0 <= j < i :: !Joins(item, before[j], norm)
    {
      if Joins(item, before[i], norm) {
        PlaceAt(item, before, norm, i);
        return before[i := before[i] + [item]];
      }
      i := i + 1;
    }
    PlaceAt(item, before, norm, |before|);
    clusters := before + [[item]];
  }

  method BuildClusters(ordered: seq<Finding>, norm: Normalise) returns (clusters: seq<seq<Finding>>)
    ensures clusters == Cluster(ordered, norm)
  {
    clusters := [];
    for k := 0 to |ordered|
      invariant clusters == Cluster(ordered[..k], norm)
    {
      clusters := PlaceItem(ordered[k], clusters, norm);
      assert ordered[..k + 1][..k] == ordered[..k] && ordered[..k + 1][k] == ordered[k];
    }
    assert ordered[..|ordered|] == ordered;
  }

  method MergeClusters(clusters: seq<seq<Finding>>) returns (merged: seq<Finding>)
    requires forall i | 0 <= i < |clusters| :: clusters[i] != []
    ensures merged == MergeAll(clusters)
  {
    merged := [];
    for k := 0 to |clusters|
      invariant |merged| == k
      invariant forall i | 0 <= i < k :: merged[i] == Merge(clusters[i])
    {
      merged := merged + [Merge(clusters[k])];
    }
  }

  /** The program's loops compute `Aggregate`. */
  method AggregateFindings(findings: seq<Finding>, norm: Normalise, repository: string, headSha: string)
    returns (merged: seq<Finding>)
    ensures merged == Aggregate(findings, norm, repository, headSha)
  {
    var ordered := Sort(findings, KeyOrder(norm, repository, headSha));
    var clusters := BuildClusters(ordered, norm);
    ClusterNonEmpty(ordered, norm);
    merged := MergeClusters(clusters);
  }

  lemma PlaceAt(item: Finding, cs: seq<seq<Finding>>, norm: Normalise, k: nat)
    requires k <= |cs|
    requires forall i | 0 <= i < k :: !Joins(item, cs[i], norm)
    requires k < |cs| ==> Joins(item, cs[k], norm)
    ensures Place(item, cs, norm) == if k < |cs| then cs[k := cs[k] + [item]] else cs + [[item]]
  {
    var j := PlaceShape(item, cs, norm);
    assert j == k;
  }

  // ---- independence of the input order ----------------------------------------------------------

  /** The fields that do not depend on the input order. */
  datatype Visible = Visible(group: seq<string>, lineStart: nat, lineEnd: nat, evidence: seq<string>,
                             severity: Severity, title: string, rationale: string)

  function Show(f: Finding, norm: Normalise): Visible {
    Visible(Group(f, norm), f.lineStart, f.lineEnd, f.evidence, f.severity, f.title, f.rationale)
  }

  function ShowAll(out: seq<Finding>, norm: Normalise): seq<Visible> {
    seq(|out|, i requires 0 <= i < |out| => Show(out[i], norm))
  }

  lemma {:induction false} StrictlySortedUnique(a: seq<string>, b: seq<string>)
    requires StrictlySorted(a) && StrictlySorted(b) && forall x :: x in a <==> x in b
    ensures a == b
  {
    assert b != [] ==> b[0] in b;
    if a != [] {
      assert a[0] in b && b[0] in a;
      var i :| 0 <= i < |b| && b[i] == a[0];
      var j :| 0 <= j < |a| && a[j] == b[0];
      if i > 0 && j > 0 {
        assert StrLeq(b[0], b[i]) && StrLeq(a[0], a[j]);
        StrTotal(a[0], b[0]);
      }
      assert a[0] == b[0];
      forall x
        ensures x in a[1..] <==> x in b[1..]
      {
        assert x in a[1..] ==> x in a && x != a[0];
        assert x in b[1..] ==> x in b && x != b[0];
        assert x in a && x != a[0] ==> x in a[1..];
        assert x in b && x != b[0] ==> x in b[1..];
      }
      StrictlySortedUnique(a[1..], b[1..]);
      assert a == [a[0]] + a[1..] && b == [b[0]] + b[1..];
    }
  }

  /** A component has one summary, whatever order its members came in. */
  lemma SummaryIsUnique(a: Finding, c: seq<Finding>, b: Finding, d: seq<Finding>)
    requires Summarises(a, c) && Summarises(b, d) && forall m :: m in c <==> m in d
    ensures a.lineStart == b.lineStart && a.lineEnd == b.lineEnd && a.evidence == b.evidence
    ensures a.severity == b.severity && a.title == b.title && a.rationale == b.rationale
  {
    var m :| m in c && m.lineStart == a.lineStart;
    var n :| n in d && n.lineStart == b.lineStart;
    assert m in d && n in c;
    var m' :| m' in c && m'.lineEnd == a.lineEnd;
    var n' :| n' in d && n'.lineEnd == b.lineEnd;
    assert m' in d && n' in c;
    assert forall e :: Cites(c, e) <==> Cites(d, e);
    StrictlySortedUnique(a.evidence, b.evidence);
    var p :| p in c && a == p.(lineStart := a.lineStart, lineEnd := a.lineEnd, evidence := a.evidence);
    var q :| q in d && b == q.(lineStart := b.lineStart, lineEnd := b.lineEnd, evidence := b.evidence);
    assert RepLeq(p, b) && RepLeq(q, a);
    assert RepLeq(a, b) && RepLeq(b, a);
    RepTotal(a, b);
  }

  lemma LinkedOnMembers(f: seq<Finding>, g: seq<Finding>, a: Finding, b: Finding, norm: Normalise)
    requires forall m :: m in f <==> m in g
    ensures Linked(f, a, b, norm) ==> Linked(g, a, b, norm)
  {
    if Linked(f, a, b, norm) {
      var chain :| IsChain(chain, f, norm) && chain[0] == a && chain[|chain| - 1] == b;
      assert IsChain(chain, g, norm);
    }
  }

  lemma SameOutput(f: seq<Finding>, g: seq<Finding>, norm: Normalise, repository: string, headSha: string, i: nat)
    returns (j: nat)
    requires Valid(f) && Valid(g) && forall m :: m in f <==> m in g
    requires i < |Aggregate(f, norm, repository, headSha)|
    ensures j < |Aggregate(g, norm, repository, headSha)|
    ensures Show(Aggregate(f, norm, repository, headSha)[i], norm) ==
              Show(Aggregate(g, norm, repository, headSha)[j], norm)
  {
    ClustersFacts(f, norm, repository, headSha);
    ClustersFacts(g, norm, repository, headSha);
    var cs, ds := Clusters(f, norm, repository, headSha), Clusters(g, norm, repository, headSha);
    var a := cs[i][0];
    FlattenMembers(cs, a);
    assert a in g;
    FlattenMembers(ds, a);
    j :| 0 <= j < |ds| && a in ds[j];
    forall m
      ensures m in cs[i] <==> m in ds[j]
    {
      FlattenMembers(cs, m);
      FlattenMembers(ds, m);
      if m in cs[i] || m in ds[j] {
        assert m in f && m in g;
        ClusterIsComponent(cs, f, norm, i, a, m);
        ClusterIsComponent(ds, g, norm, j, a, m);
        LinkedOnMembers(f, g, a, m, norm);
        LinkedOnMembers(g, f, a, m, norm);
      }
    }
    MergeSummarises(cs[i]);
    MergeSummarises(ds[j]);
    SummaryIsUnique(Merge(cs[i]), cs[i], Merge(ds[j]), ds[j]);
    MergeGroup(cs[i], norm);
    MergeGroup(ds[j], norm);
    var l :| 0 <= l < |ds[j]| && ds[j][l] == a;
    assert Group(ds[j][l], norm) == Group(ds[j][0], norm);
  }

  ghost predicate Ahead(u: Visible, v: Visible) {
    TupleLeq(u.group, v.group) && (u.group == v.group ==> u.lineEnd < v.lineStart)
  }

  ghost predicate LeftToRight(s: seq<Visible>) {
    && (forall i | 0 <= i < |s| :: s[i].lineStart <= s[i].lineEnd)
    && (forall i, j | 0 <= i < j < |s| :: Ahead(s[i], s[j]))
  }

  lemma NotBothAhead(u: Visible, v: Visible)
    requires u.lineStart <= u.lineEnd && v.lineStart <= v.lineEnd
    ensures !(Ahead(u, v) && Ahead(v, u))
  {
    TupleTotal(u.group, v.group);
  }

  lemma FirstsAgree(s: seq<Visible>, t: seq<Visible>)
    requires LeftToRight(s) && LeftToRight(t) && s != [] && t != [] && s[0] in t && t[0] in s
    ensures s[0] == t[0]
  {
    var i :| 0 <= i < |t| && t[i] == s[0];
    var j :| 0 <= j < |s| && s[j] == t[0];
    assert i > 0 ==> Ahead(t[0], t[i]);
    assert j > 0 ==> Ahead(s[0], s[j]);
    NotBothAhead(s[0], t[0]);
  }

  lemma RestMembers(s: seq<Visible>)
    requires LeftToRight(s) && s != []
    ensures LeftToRight(s[1..]) && forall x :: x in s[1..] <==> x in s && x != s[0]
  {
    forall x
      ensures x in s[1..] <==> x in s && x != s[0]
    {
      if x in s[1..] {
        var i :| 0 <= i < |s[1..]| && s[1..][i] == x;
        assert s[i + 1] == x && Ahead(s[0], s[i + 1]);
        NotBothAhead(x, x);
      }
    }
  }

  lemma {:induction false} LeftToRightUnique(s: seq<Visible>, t: seq<Visible>)
    requires LeftToRight(s) && LeftToRight(t) && forall x :: x in s <==> x in t
    ensures s == t
  {
    assert t != [] ==> t[0] in t;
    if s != [] {
      assert s[0] in t;
      assert t[0] in s;
      FirstsAgree(s, t);
      RestMembers(s);
      RestMembers(t);
      LeftToRightUnique(s[1..], t[1..]);
      assert s == [s[0]] + s[1..] && t == [t[0]] + t[1..];
    }
  }

  lemma ShownLeftToRight(f: seq<Finding>, norm: Normalise, repository: string, headSha: string)
    requires Valid(f)
    ensures LeftToRight(ShowAll(Aggregate(f, norm, repository, headSha), norm))
  {
    ClustersFacts(f, norm, repository, headSha);
    OutputsInOrder(Clusters(f, norm, repository, headSha), norm);
    AggregateTwice(f, norm, repository, headSha);
    var out := Aggregate(f, norm, repository, headSha);
    var s := ShowAll(out, norm);
    forall i | 0 <= i < |s|
      ensures s[i].lineStart <= s[i].lineEnd
    {
      assert out[i] in out;
    }
    forall i, j | 0 <= i < j < |s|
      ensures Ahead(s[i], s[j])
    {
      assert Apart(out[i], out[j], norm);
    }
  }

  /** Path, category, range, evidence, severity, title and rationale of every output, and the order of
      the outputs, do not depend on the order of the input. */
  lemma InputOrderIrrelevant(f: seq<Finding>, g: seq<Finding>, norm: Normalise, repository: string, headSha: string)
    requires Valid(f) && multiset(f) == multiset(g)
    ensures ShowAll(Aggregate(f, norm, repository, headSha), norm) ==
              ShowAll(Aggregate(g, norm, repository, headSha), norm)
  {
    MembersOfPermutation(f, g);
    assert Valid(g);
    var s, t := ShowAll(Aggregate(f, norm, repository, headSha), norm),
        ShowAll(Aggregate(g, norm, repository, headSha), norm);
    ShownLeftToRight(f, norm, repository, headSha);
    ShownLeftToRight(g, norm, repository, headSha);
    forall x
      ensures x in s <==> x in t
    {
      if x in s {
        var i :| 0 <= i < |s| && s[i] == x;
        var j := SameOutput(f, g, norm, repository, headSha, i);
        assert t[j] == x;
      }
      if x in t {
        var i :| 0 <= i < |t| && t[i] == x;
        var j := SameOutput(g, f, norm, repository, headSha, i);
        assert s[j] == x;
      }
    }
    LeftToRightUnique(s, t);
  }

  // ---- beyond the key width ---------------------------------------------------------------------

  lemma PrintTenth(n: nat)
    requires n >= 10
    ensures |Print(n)| == |Print(n / 10)| + 1 && Print(n)[0] == Print(n / 10)[0]
  {
    PrintParse(n / 10);
  }

  /** A number between `d` and `d + 1` times a power of ten starts with the digit `d`. */
  lemma {:induction false} LeadingDigit(n: nat, k: nat, d: nat)
    requires 1 <= d < 10 && d * Pow10(k) <= n < (d + 1) * Pow10(k)
    ensures |Print(n)| == k + 1 && Print(n)[0] == Digit(d)
    decreases k
  {
    if k > 0 {
      PowPositive(k - 1);
      Tenth(n, d, Pow10(k - 1));
      LeadingDigit(n / 10, k - 1, d);
      PrintTenth(n);
    }
  }

  lemma Tenth(n: nat, d: nat, p: nat)
    requires d >= 1 && p >= 1 && d * (10 * p) <= n < (d + 1) * (10 * p)
    ensures n >= 10 && d * p <= n / 10 < (d + 1) * p
  {
    var lo, hi := d * p, (d + 1) * p;
    assert d * (10 * p) == 10 * lo && (d + 1) * (10 * p) == 10 * hi;
    assert lo >= 1;
  }

  lemma {:induction false} PowPositive(k: nat)
    ensures Pow10(k) >= 1
  {
    if k > 0 {
      PowPositive(k - 1);
    }
  }

  lemma TenDigitLead(n: nat)
    requires 9000000000 <= n < 10000000000
    ensures |Print(n)| == 10 && Print(n)[0] == '9'
  {
    Pow10Values();
    LeadingDigit(n, 9, 9);
  }

  lemma TenToTheTenth()
    ensures |Print(10000000000)| == 11 && Print(10000000000)[0] == '1'
  {
    Pow10Values();
    LeadingDigit(10000000000, 10, 1);
  }

  function At(start: nat, end: nat): Finding {
    Finding("security", High, "c", "f", start, end, "t", "r", ["e"], 1.0)
  }

  lemma SortedByPadding(a: Finding, b: Finding, c: Finding, norm: Normalise)
    requires a == At(10000000000, 10000000000) && b == At(9999999998, 9999999999) && c == At(9999999999, 10000000000)
    ensures SortedBy([a, b, c], KeyOrder(norm, "repo", "sha"))
  {
    Pow10Values();
    TenToTheTenth();
    TenDigitLead(9999999998);
    TenDigitLead(9999999999);
    assert Pad(10000000000, 10)[0] == '1' && Pad(9999999998, 10)[0] == '9' && Pad(9999999999, 10)[0] == '9';
    StartDecides(a, b, norm);
    StartDecides(a, c, norm);
    PadOrder(9999999998, 9999999999, 10);
    StartDecides(b, c, norm);
  }

  /** At 10^10 the padded key stops sorting by number, and two outputs of one file and category overlap. */
  lemma KeyWidthMatters(norm: Normalise)
    ensures var findings := [At(10000000000, 10000000000), At(9999999998, 9999999999), At(9999999999, 10000000000)];
            var out := Aggregate(findings, norm, "repo", "sha");
            && out == [At(9999999999, 10000000000), At(9999999998, 9999999999)]
            && Touch(out[0], out[1], norm)
  {
    var a, b, c := At(10000000000, 10000000000), At(9999999998, 9999999999), At(9999999999, 10000000000);
    SortedByPadding(a, b, c, norm);
    SortOfSorted([a, b, c], KeyOrder(norm, "repo", "sha"));
    ThreeClusters(a, b, c, norm);
    MergePair(a, c);
    MergeOfOne(b);
    assert MergeAll([[a, c], [b]]) == [c, b];
  }

  ghost predicate Below(findings: seq<Finding>, n: nat) {
    forall f | f in findings :: f.lineStart <= f.lineEnd && f.lineStart < n
  }

  /** No two outputs of one file and category overlap. */
  ghost predicate Disjoint(out: seq<Finding>, norm: Normalise) {
    forall i, j | 0 <= i < j < |out| :: !Touch(out[i], out[j], norm)
  }

  lemma WithinKeyWidth(findings: seq<Finding>, norm: Normalise, repository: string, headSha: string, n: nat)
    requires Below(findings, n) && n <= Pow10(KEY_WIDTH)
    ensures Disjoint(Aggregate(findings, norm, repository, headSha), norm)
  {
    OneOutputPerComponent(findings, norm, repository, headSha);
  }

  lemma BeyondKeyWidth(norm: Normalise) returns (findings: seq<Finding>)
    ensures forall f | f in findings :: f.lineStart <= f.lineEnd && f.lineStart <= 10000000000
    ensures !Disjoint(Aggregate(findings, norm, "repo", "sha"), norm)
  {
    KeyWidthMatters(norm);
    findings := [At(10000000000, 10000000000), At(9999999998, 9999999999), At(9999999999, 10000000000)];
    ghost var out := Aggregate(findings, norm, "repo", "sha");
    assert Touch(out[0], out[1], norm);
  }

  /** The key width is the exact limit: outputs are disjoint for all findings that start below line `n` if
      and only if `n` is at most 10^10. */
  lemma KeyWidthIsTheLimit(norm: Normalise, n: nat)
    ensures (forall findings, repository, headSha | Below(findings, n) ::
               Disjoint(Aggregate(findings, norm, repository, headSha), norm)) <==> n <= 10000000000
  {
    if n <= 10000000000 {
      forall findings, repository, headSha | Below(findings, n)
        ensures Disjoint(Aggregate(findings, norm, repository, headSha), norm)
      {
        Pow10Values();
        WithinKeyWidth(findings, norm, repository, headSha, n);
      }
    } else {
      var findings := BeyondKeyWidth(norm);
      assert Below(findings, n);
    }
  }

  lemma Pow10Values()
    ensures Pow10(9) == 1000000000 && Pow10(10) == 10000000000
  {
    assert Pow10(1) == 10 && Pow10(2) == 100 && Pow10(3) == 1000;
    assert Pow10(5) == 10 * Pow10(4) && Pow10(4) == 10 * Pow10(3);
    assert Pow10(7) == 10 * Pow10(6) && Pow10(6) == 10 * Pow10(5);
    assert Pow10(9) == 10 * Pow10(8) && Pow10(8) == 10 * Pow10(7);
  }

  lemma StartDecides(a: Finding, b: Finding, norm: Normalise)
    requires a.filePath == b.filePath && a.category == b.category
    requires Pad(a.lineStart, KEY_WIDTH) != Pad(b.lineStart, KEY_WIDTH)
    requires StrLeq(Pad(a.lineStart, KEY_WIDTH), Pad(b.lineStart, KEY_WIDTH))
    ensures KeyOrder(norm, "repo", "sha")(a, b)
  {
    var ka, kb := Key(a, norm, "repo", "sha"), Key(b, norm, "repo", "sha");
    assert TupleLeq(ka[4..], kb[4..]);
    assert ka[3..][1..] == ka[4..] && kb[3..][1..] == kb[4..];
    assert TupleLeq(ka[3..], kb[3..]);
    assert ka[2..][1..] == ka[3..] && kb[2..][1..] == kb[3..];
    assert TupleLeq(ka[2..], kb[2..]);
    assert ka[1..][1..] == ka[2..] && kb[1..][1..] == kb[2..];
    assert TupleLeq(ka[1..], kb[1..]);
  }

  lemma ThreeClusters(a: Finding, b: Finding, c: Finding, norm: Normalise)
    requires !Joins(b, [a], norm) && Joins(c, [a], norm)
    ensures Cluster([a, b, c], norm) == [[a, c], [b]]
  {
    assert [a, b, c][..2] == [a, b] && [a, b][..1] == [a] && [a][..0] == [];
    assert Cluster([a], norm) == [[a]];
    PlaceAt(b, [[a]], norm, 1);
    assert Cluster([a, b], norm) == [[a], [b]];
    PlaceAt(c, [[a], [b]], norm, 0);
    assert [a] + [c] == [a, c];
  }

  lemma MergePair(a: Finding, c: Finding)
    requires a == At(10000000000, 10000000000) && c == At(9999999999, 10000000000)
    ensures Merge([a, c]) == c
  {
    var pair := [a, c];
    assert pair[..1] == [a];
    assert Lo(pair) == 9999999999 && Hi(pair) == 10000000000;
    TupleTotal([a.title, a.rationale], [c.title, c.rationale]);
    assert Pick(pair) == a;
    EvidenceFacts(pair);
    assert forall e :: e in Evidence(pair) <==> e in ["e"] by {
      forall e
        ensures e in Evidence(pair) <==> e in ["e"]
      {
        assert a in pair;
        assert Cites(pair, e) <==> e == "e";
      }
    }
    StrictlySortedUnique(Evidence(pair), ["e"]);
  }
}
