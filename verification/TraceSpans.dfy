/** What a reconstructed trace guarantees: every event once, the local block in order, and parent links
    that lead to a root. */
module TraceSpans {
  import opened Common
  import opened Ordering
  import opened Decimal
  import opened Redaction
  import opened TraceMerge

  // ---- chains -----------------------------------------------------------------------------------

  function ParentAt(origin: Origin, ordered: seq<Event>, previous: Option<string>, i: nat): Option<string>
    requires i < |ordered|
  {
    if i == 0 then previous else Some(SpanId(origin, ordered[i - 1].sequence))
  }

  lemma {:induction false} ChainAt(origin: Origin, traceId: string, ordered: seq<Event>, previous: Option<string>,
                                   level: Level, keys: Keys)
    ensures |ChainFrom(origin, traceId, ordered, previous, level, keys)| == |ordered|
    ensures forall i | 0 <= i < |ordered| ::
              ChainFrom(origin, traceId, ordered, previous, level, keys)[i] ==
              SegmentOf(origin, traceId, ordered[i], ParentAt(origin, ordered, previous, i), level, keys)
    decreases ordered
  {
    if ordered != [] {
      var next := Some(SpanId(origin, ordered[0].sequence));
      ChainAt(origin, traceId, ordered[1..], next, level, keys);
      forall i | 0 <= i < |ordered|
        ensures ChainFrom(origin, traceId, ordered, previous, level, keys)[i] ==
                SegmentOf(origin, traceId, ordered[i], ParentAt(origin, ordered, previous, i), level, keys)
      {
        if i > 0 {
          assert ordered[1..][i - 1] == ordered[i];
          assert ParentAt(origin, ordered[1..], next, i - 1) == ParentAt(origin, ordered, previous, i);
        }
      }
    }
  }

  ghost predicate DistinctSpans(s: seq<Segment>) {
    forall i, j | 0 <= i < j < |s| :: s[i].spanId != s[j].spanId
  }

  lemma ChainDistinct(origin: Origin, traceId: string, ordered: seq<Event>, level: Level, keys: Keys)
    requires Increasing(ordered)
    ensures DistinctSpans(Chain(origin, traceId, ordered, level, keys))
  {
    ChainAt(origin, traceId, ordered, None, level, keys);
    var c := Chain(origin, traceId, ordered, level, keys);
    forall i, j | 0 <= i < j < |c|
      ensures c[i].spanId != c[j].spanId
    {
      if c[i].spanId == c[j].spanId {
        SpanIdInjective(origin, ordered[i].sequence, origin, ordered[j].sequence);
      }
    }
  }

  lemma {:induction false} OfKindDistinct(s: seq<Segment>, acknowledged: bool)
    requires DistinctSpans(s)
    ensures DistinctSpans(OfKind(s, acknowledged))
    decreases s
  {
    if s != [] {
      OfKindDistinct(s[1..], acknowledged);
      OfKindFacts(s[1..], acknowledged);
      var rest := OfKind(s[1..], acknowledged);
      forall i | 0 <= i < |rest|
        ensures rest[i].spanId != s[0].spanId
      {
        assert rest[i] in s[1..];
      }
    }
  }

  /** The two chains behind a list of merged segments. */
  ghost predicate Behind(segs: seq<Segment>, h: seq<Segment>, l: seq<Segment>) {
    && segs == Merge(h, l)
    && DistinctSpans(h) && DistinctSpans(l)
    && (forall x | x in h :: x.origin == Hosted) && (forall x | x in l :: x.origin == Local)
    && (forall x, y | x in h && y in l :: x.spanId != y.spanId)
  }

  lemma ChainMembers(origin: Origin, traceId: string, ordered: seq<Event>, level: Level, keys: Keys)
    ensures forall x | x in Chain(origin, traceId, ordered, level, keys) ::
              x.origin == origin && exists n: nat :: x.spanId == SpanId(origin, n)
  {
    ChainAt(origin, traceId, ordered, None, level, keys);
    var c := Chain(origin, traceId, ordered, level, keys);
    forall x | x in c
      ensures x.origin == origin && exists n: nat :: x.spanId == SpanId(origin, n)
    {
      var i :| 0 <= i < |c| && c[i] == x;
      assert x.spanId == SpanId(origin, ordered[i].sequence);
    }
  }

  lemma OriginsApart(x: Segment, y: Segment)
    requires exists n: nat :: x.spanId == SpanId(Hosted, n)
    requires exists n: nat :: y.spanId == SpanId(Local, n)
    ensures x.spanId != y.spanId
  {
    var n: nat :| x.spanId == SpanId(Hosted, n);
    var m: nat :| y.spanId == SpanId(Local, m);
    if x.spanId == y.spanId {
      SpanIdInjective(Hosted, n, Local, m);
    }
  }

  lemma ChainsBehind(id: string, hosted: seq<Event>, local: seq<Event>, level: Level, keys: Keys)
    requires DistinctSequences(hosted) && DistinctSequences(local)
    ensures Behind(Segments(id, hosted, local, level, keys),
                   Chain(Hosted, id, Ordered(hosted), level, keys), Chain(Local, id, Ordered(local), level, keys))
  {
    var h, l := Chain(Hosted, id, Ordered(hosted), level, keys), Chain(Local, id, Ordered(local), level, keys);
    assert DistinctSpans(h) by {
      OrderedFacts(hosted);
      ChainDistinct(Hosted, id, Ordered(hosted), level, keys);
    }
    assert DistinctSpans(l) by {
      OrderedFacts(local);
      ChainDistinct(Local, id, Ordered(local), level, keys);
    }
    ChainMembers(Hosted, id, Ordered(hosted), level, keys);
    ChainMembers(Local, id, Ordered(local), level, keys);
    forall x, y | x in h && y in l
      ensures x.spanId != y.spanId
    {
      OriginsApart(x, y);
    }
  }

  /** Up to the parent, the merged list holds exactly the segments of the two chains. */
  lemma ReparentKeepsSpans(post: seq<Segment>, l: seq<Segment>)
    ensures |Reparent(post, l)| == |post|
    ensures forall i | 0 <= i < |post| :: Reparent(post, l)[i].(parent := None) == post[i].(parent := None)
  {
  }

  lemma MergedSpansDistinct(segs: seq<Segment>, h: seq<Segment>, l: seq<Segment>)
    requires Behind(segs, h, l)
    ensures |segs| == |h| + |l| && DistinctSpans(segs)
  {
    var pre, post := OfKind(h, false), OfKind(h, true);
    OfKindSizes(h);
    OfKindDistinct(h, false);
    OfKindDistinct(h, true);
    OfKindFacts(h, false);
    OfKindFacts(h, true);
    ReparentKeepsSpans(post, l);
    assert segs == pre + l + Reparent(post, l);
    forall x, y | x in pre && y in post
      ensures x.spanId != y.spanId
    {
      assert x in h && y in h && x != y;
    }
    DistinctConcat(pre, l, post, Reparent(post, l));
  }

  lemma DistinctConcat(a: seq<Segment>, b: seq<Segment>, c: seq<Segment>, c': seq<Segment>)
    requires DistinctSpans(a) && DistinctSpans(b) && DistinctSpans(c)
    requires forall x, y | x in a && y in b :: x.spanId != y.spanId
    requires forall x, y | x in a && y in c :: x.spanId != y.spanId
    requires forall x, y | x in c && y in b :: x.spanId != y.spanId
    requires |c'| == |c| && forall i | 0 <= i < |c| :: c'[i].(parent := None) == c[i].(parent := None)
    ensures DistinctSpans(a + b + c')
  {
    var s := a + b + c';
    forall i, j | 0 <= i < j < |s|
      ensures s[i].spanId != s[j].spanId
    {
      var x := if i < |a| then a[i] else if i < |a| + |b| then b[i - |a|] else c[i - |a| - |b|];
      var y := if j < |a| then a[j] else if j < |a| + |b| then b[j - |a|] else c[j - |a| - |b|];
      assert s[i].spanId == s[i].(parent := None).spanId == x.spanId;
      assert s[j].spanId == s[j].(parent := None).spanId == y.spanId;
    }
  }

  /** The segment is in the list, possibly with another parent. */
  ghost predicate Listed(segs: seq<Segment>, x: Segment) {
    exists k | 0 <= k < |segs| :: segs[k].(parent := None) == x.(parent := None)
  }

  lemma ListedAt(segs: seq<Segment>, x: Segment, k: nat)
    requires k < |segs| && segs[k].(parent := None) == x.(parent := None)
    ensures Listed(segs, x)
  {
  }

  lemma PositionOf(segs: seq<Segment>, x: Segment) returns (i: nat)
    requires x in segs
    ensures i < |segs| && segs[i] == x
  {
    i :| 0 <= i < |segs| && segs[i] == x;
  }

  lemma MergedMembers(segs: seq<Segment>, h: seq<Segment>, l: seq<Segment>, x: Segment)
    requires Behind(segs, h, l) && (x in h || x in l)
    ensures Listed(segs, x)
  {
    var pre, post := OfKind(h, false), OfKind(h, true);
    OfKindFacts(h, false);
    OfKindFacts(h, true);
    ReparentKeepsSpans(post, l);
    if x in l {
      var i := PositionOf(l, x);
      ListedAt(segs, x, |pre| + i);
    } else if x.kind == ACKNOWLEDGED {
      var i := PositionOf(post, x);
      ListedAt(segs, x, |pre| + |l| + i);
    } else {
      var i := PositionOf(pre, x);
      ListedAt(segs, x, i);
    }
  }

  /** Every hosted and every local event has exactly one segment, which shows its kind, time and redacted
      payload, and there are no others: as many segments as events, all with different spans. */
  lemma EveryEventOnce(id: string, hosted: seq<Event>, local: seq<Event>, level: Level, keys: Keys)
    requires DistinctSequences(hosted) && DistinctSequences(local)
    ensures var segs := Segments(id, hosted, local, level, keys);
            && |segs| == |hosted| + |local| && DistinctSpans(segs)
            && (forall e | e in hosted :: exists k | 0 <= k < |segs| :: Shows(segs[k], Hosted, e, level, keys))
            && (forall e | e in local :: exists k | 0 <= k < |segs| :: Shows(segs[k], Local, e, level, keys))
  {
    var segs := Segments(id, hosted, local, level, keys);
    var ho, lo := Ordered(hosted), Ordered(local);
    var h, l := Chain(Hosted, id, ho, level, keys), Chain(Local, id, lo, level, keys);
    OrderedFacts(hosted);
    OrderedFacts(local);
    ChainAt(Hosted, id, ho, None, level, keys);
    ChainAt(Local, id, lo, None, level, keys);
    ChainsBehind(id, hosted, local, level, keys);
    MergedSpansDistinct(segs, h, l);
    forall x | x in h || x in l
      ensures Listed(segs, x)
    {
      MergedMembers(segs, h, l, x);
    }
    EventsShown(Hosted, id, hosted, h, segs, level, keys);
    EventsShown(Local, id, local, l, segs, level, keys);
  }

  lemma EventsShown(origin: Origin, id: string, events: seq<Event>, chain: seq<Segment>, segs: seq<Segment>,
                    level: Level, keys: Keys)
    requires DistinctSequences(events) && chain == Chain(origin, id, Ordered(events), level, keys)
    requires forall x | x in chain :: Listed(segs, x)
    ensures forall e | e in events :: exists k | 0 <= k < |segs| :: Shows(segs[k], origin, e, level, keys)
  {
    var o := Ordered(events);
    OrderedFacts(events);
    ChainAt(origin, id, o, None, level, keys);
    forall e | e in events
      ensures exists k | 0 <= k < |segs| :: Shows(segs[k], origin, e, level, keys)
    {
      var i :| 0 <= i < |o| && o[i] == e;
      var x := chain[i];
      assert x in chain && Shows(x, origin, e, level, keys);
      assert Listed(segs, x);
      var k :| 0 <= k < |segs| && segs[k].(parent := None) == x.(parent := None);
      SameUpToParent(segs[k], x, origin, e, level, keys);
    }
  }

  lemma SameUpToParent(s: Segment, x: Segment, origin: Origin, e: Event, level: Level, keys: Keys)
    requires s.(parent := None) == x.(parent := None) && Shows(x, origin, e, level, keys)
    ensures Shows(s, origin, e, level, keys)
  {
    assert s.(parent := None).spanId == s.spanId && x.(parent := None).spanId == x.spanId;
  }

  lemma ChainShows(origin: Origin, id: string, ordered: seq<Event>, level: Level, keys: Keys)
    ensures AllShown(Chain(origin, id, ordered, level, keys), origin, ordered, level, keys)
  {
    ChainAt(origin, id, ordered, None, level, keys);
  }

  predicate AllShown(chain: seq<Segment>, origin: Origin, ordered: seq<Event>, level: Level, keys: Keys) {
    |chain| == |ordered| && forall i | 0 <= i < |ordered| :: Shows(chain[i], origin, ordered[i], level, keys)
  }

  /** From `from` on stand the given local events, before them hosted events that are no acknowledgements,
      after them hosted acknowledgements. */
  predicate BlockAt(segs: seq<Segment>, from: nat, locals: seq<Event>, level: Level, keys: Keys) {
    && from + |locals| <= |segs|
    && AllShown(segs[from..from + |locals|], Local, locals, level, keys)
    && (forall k | 0 <= k < from :: segs[k].origin == Hosted && segs[k].kind != ACKNOWLEDGED)
    && (forall k | from + |locals| <= k < |segs| :: segs[k].origin == Hosted && segs[k].kind == ACKNOWLEDGED)
  }

  lemma BlockOf(segs: seq<Segment>, h: seq<Segment>, l: seq<Segment>, locals: seq<Event>, level: Level, keys: Keys)
    requires Behind(segs, h, l) && AllShown(l, Local, locals, level, keys)
    ensures BlockAt(segs, |OfKind(h, false)|, locals, level, keys)
  {
    BlockShape(segs, h, l);
  }

  /** The local events form one contiguous block, in strictly increasing sequence order; everything before it
      is hosted and not an acknowledgement, everything after it is a hosted acknowledgement. */
  lemma LocalBlock(id: string, hosted: seq<Event>, local: seq<Event>, level: Level, keys: Keys)
    returns (from: nat, locals: seq<Event>)
    requires DistinctSequences(hosted) && DistinctSequences(local)
    ensures Increasing(locals) && multiset(locals) == multiset(local)
    ensures BlockAt(Segments(id, hosted, local, level, keys), from, locals, level, keys)
  {
    locals := Ordered(local);
    var h := Chain(Hosted, id, Ordered(hosted), level, keys);
    from := |OfKind(h, false)|;
    OrderedFacts(local);
    ChainShows(Local, id, locals, level, keys);
    ChainsBehind(id, hosted, local, level, keys);
    BlockOf(Segments(id, hosted, local, level, keys), h, Chain(Local, id, locals, level, keys), locals, level, keys);
  }

  lemma BlockShape(segs: seq<Segment>, h: seq<Segment>, l: seq<Segment>)
    requires Behind(segs, h, l)
    ensures var p := |OfKind(h, false)|;
            && p + |l| <= |segs| && segs[p..p + |l|] == l
            && (forall k | 0 <= k < p :: segs[k].origin == Hosted && segs[k].kind != ACKNOWLEDGED)
            && (forall k | p + |l| <= k < |segs| :: segs[k].origin == Hosted && segs[k].kind == ACKNOWLEDGED)
  {
    var pre, post := OfKind(h, false), OfKind(h, true);
    HostedOfKind(h, false);
    HostedOfKind(h, true);
    ReparentKeepsKind(post, l);
    ThreeParts(segs, pre, l, Reparent(post, l));
  }

  lemma ThreeParts(segs: seq<Segment>, a: seq<Segment>, b: seq<Segment>, c: seq<Segment>)
    requires segs == a + b + c
    requires forall i | 0 <= i < |a| :: a[i].origin == Hosted && a[i].kind != ACKNOWLEDGED
    requires forall i | 0 <= i < |c| :: c[i].origin == Hosted && c[i].kind == ACKNOWLEDGED
    ensures |a| + |b| <= |segs| && segs[|a|..|a| + |b|] == b
    ensures forall k | 0 <= k < |a| :: segs[k].origin == Hosted && segs[k].kind != ACKNOWLEDGED
    ensures forall k | |a| + |b| <= k < |segs| :: segs[k].origin == Hosted && segs[k].kind == ACKNOWLEDGED
  {
    forall k | |a| + |b| <= k < |segs|
      ensures segs[k].origin == Hosted && segs[k].kind == ACKNOWLEDGED
    {
      assert segs[k] == c[k - |a| - |b|];
    }
  }

  lemma HostedOfKind(h: seq<Segment>, acknowledged: bool)
    requires forall x | x in h :: x.origin == Hosted
    ensures forall i | 0 <= i < |OfKind(h, acknowledged)| ::
              OfKind(h, acknowledged)[i].origin == Hosted
                && (OfKind(h, acknowledged)[i].kind == ACKNOWLEDGED) == acknowledged
  {
    OfKindFacts(h, acknowledged);
    var s := OfKind(h, acknowledged);
    forall i | 0 <= i < |s|
      ensures s[i].origin == Hosted && (s[i].kind == ACKNOWLEDGED) == acknowledged
    {
      assert s[i] in s;
    }
  }

  lemma ReparentKeepsKind(post: seq<Segment>, l: seq<Segment>)
    ensures |Reparent(post, l)| == |post|
    ensures forall i | 0 <= i < |post| ::
              Reparent(post, l)[i].origin == post[i].origin && Reparent(post, l)[i].kind == post[i].kind
  {
  }

  // ---- the proven links -------------------------------------------------------------------------

  /** Marked as proven: the local spans, and the hosted acknowledgements. */
  predicate MarkedRight(s: Segment) { s.proven <==> s.origin == Local || s.kind == "review_job_acknowledged" }

  lemma ChainMarked(origin: Origin, id: string, ordered: seq<Event>, level: Level, keys: Keys)
    ensures forall x | x in Chain(origin, id, ordered, level, keys) :: MarkedRight(x)
  {
    var c := Chain(origin, id, ordered, level, keys);
    ChainAt(origin, id, ordered, None, level, keys);
    forall x | x in c
      ensures MarkedRight(x)
    {
      var i := PositionOf(c, x);
      assert x == SegmentOf(origin, id, ordered[i], ParentAt(origin, ordered, None, i), level, keys);
    }
  }

  lemma MergedMarked(h: seq<Segment>, l: seq<Segment>)
    requires (forall x | x in h :: MarkedRight(x)) && forall x | x in l :: MarkedRight(x)
    ensures forall x | x in Merge(h, l) :: MarkedRight(x)
  {
    var pre, post := OfKind(h, false), OfKind(h, true);
    OfKindFacts(h, false);
    OfKindFacts(h, true);
    forall x | x in Reparent(post, l)
      ensures MarkedRight(x)
    {
      var i := PositionOf(Reparent(post, l), x);
      assert post[i] in post && x.(parent := None) == post[i].(parent := None);
      SameMark(x, post[i]);
    }
    assert forall x | x in Merge(h, l) :: x in pre || x in l || x in Reparent(post, l);
  }

  lemma SameMark(x: Segment, y: Segment)
    requires x.(parent := None) == y.(parent := None) && MarkedRight(y)
    ensures MarkedRight(x)
  {
    assert x.(parent := None).proven == x.proven && y.(parent := None).proven == y.proven;
    assert x.(parent := None).kind == x.kind && x.(parent := None).origin == x.origin;
  }

  /** The links that are proven: inside the local block each span hangs below the one before it, the first below
      none; the first acknowledgement hangs below the last local span; and exactly the local spans and the
      acknowledgements are marked so. */
  lemma ProvenLinks(id: string, hosted: seq<Event>, local: seq<Event>, level: Level, keys: Keys) returns (from: nat)
    requires DistinctSequences(hosted) && DistinctSequences(local)
    ensures var segs, end := Segments(id, hosted, local, level, keys), from + |local|;
            && end <= |segs|
            && (local != [] ==> segs[from].parent == None)
            && (forall k | from < k < end :: segs[k].parent == Some(segs[k - 1].spanId))
            && (local != [] && end < |segs| ==> segs[end].parent == Some(segs[end - 1].spanId))
            && (forall k | from <= k < end :: segs[k].origin == Local)
            && (forall x | x in segs :: MarkedRight(x))
  {
    var segs := Segments(id, hosted, local, level, keys);
    var h, l := Chain(Hosted, id, Ordered(hosted), level, keys), Chain(Local, id, Ordered(local), level, keys);
    from := |OfKind(h, false)|;
    OrderedFacts(local);
    ChainMarked(Hosted, id, Ordered(hosted), level, keys);
    ChainMarked(Local, id, Ordered(local), level, keys);
    MergedMarked(h, l);
    ChainLinks(id, Ordered(local), level, keys);
    assert |Ordered(local)| == |local| by {
      MembersOfPermutation(Ordered(local), local);
    }
    MergedLinks(OfKind(h, false), l, OfKind(h, true));
  }

  /** A chain whose spans hang below each other. */
  ghost predicate Linked(l: seq<Segment>) {
    && (l != [] ==> l[0].parent == None)
    && (forall i | 0 < i < |l| :: l[i].parent == Some(l[i - 1].spanId))
    && (forall i | 0 <= i < |l| :: l[i].origin == Local)
  }

  lemma ChainLinks(id: string, ordered: seq<Event>, level: Level, keys: Keys)
    ensures var l := Chain(Local, id, ordered, level, keys);
            |l| == |ordered| && Linked(l)
  {
    ChainAt(Local, id, ordered, None, level, keys);
  }

  lemma MergedLinks(pre: seq<Segment>, l: seq<Segment>, post: seq<Segment>)
    requires Linked(l)
    ensures var segs, from, end := pre + l + Reparent(post, l), |pre|, |pre| + |l|;
            && (l != [] ==> segs[from].parent == None)
            && (forall k | from < k < end :: segs[k].parent == Some(segs[k - 1].spanId))
            && (l != [] && end < |segs| ==> segs[end].parent == Some(segs[end - 1].spanId))
            && (forall k | from <= k < end :: segs[k].origin == Local)
  {
    var segs, from, end := pre + l + Reparent(post, l), |pre|, |pre| + |l|;
    forall k | from <= k < end
      ensures segs[k] == l[k - from]
    {
    }
    if l != [] && end < |segs| {
      assert segs[end] == Reparent(post, l)[0] && segs[end - 1] == l[|l| - 1];
    }
  }

  // ---- parents ----------------------------------------------------------------------------------

  /** The position of a span among ordered events of one origin, or the length of the list. */
  ghost function Position(span: string, origin: Origin, ordered: seq<Event>): nat {
    if i: nat :| i < |ordered| && SpanId(origin, ordered[i].sequence) == span then i else |ordered|
  }

  /** Local spans first, then hosted ones, each in sequence order. */
  ghost function Rank(span: string, hosted: seq<Event>, local: seq<Event>): nat {
    var i := Position(span, Local, local);
    if i < |local| then i else |local| + Position(span, Hosted, hosted)
  }

  lemma PositionAt(origin: Origin, ordered: seq<Event>, i: nat)
    requires i < |ordered| && Increasing(ordered)
    ensures Position(SpanId(origin, ordered[i].sequence), origin, ordered) == i
  {
    var span := SpanId(origin, ordered[i].sequence);
    var j := Position(span, origin, ordered);
    assert j < |ordered| && SpanId(origin, ordered[j].sequence) == span;
    SpanIdInjective(origin, ordered[i].sequence, origin, ordered[j].sequence);
  }

  lemma NoPosition(origin: Origin, other: Origin, n: nat, ordered: seq<Event>)
    requires origin != other
    ensures Position(SpanId(other, n), origin, ordered) == |ordered|
  {
    var j := Position(SpanId(other, n), origin, ordered);
    if j < |ordered| {
      SpanIdInjective(origin, ordered[j].sequence, other, n);
    }
  }

  lemma LocalRank(hosted: seq<Event>, local: seq<Event>, i: nat)
    requires i < |local| && Increasing(local)
    ensures Rank(SpanId(Local, local[i].sequence), hosted, local) == i
  {
    PositionAt(Local, local, i);
  }

  lemma HostedRank(hosted: seq<Event>, local: seq<Event>, i: nat)
    requires i < |hosted| && Increasing(hosted)
    ensures Rank(SpanId(Hosted, hosted[i].sequence), hosted, local) == |local| + i
  {
    NoPosition(Local, Hosted, hosted[i].sequence, local);
    PositionAt(Hosted, hosted, i);
  }

  ghost predicate Present(segs: seq<Segment>, span: string) { exists k | 0 <= k < |segs| :: segs[k].spanId == span }

  /** The parent, if any, is a span of the list with a smaller rank. */
  ghost predicate Climbs(s: Segment, segs: seq<Segment>, rank: string -> nat) {
    s.parent.Some? ==> Present(segs, s.parent.value) && rank(s.parent.value) < rank(s.spanId)
  }

  lemma ListedIsPresent(segs: seq<Segment>, x: Segment)
    requires Listed(segs, x)
    ensures Present(segs, x.spanId)
  {
    var k :| 0 <= k < |segs| && segs[k].(parent := None) == x.(parent := None);
    assert segs[k].(parent := None).spanId == segs[k].spanId && x.(parent := None).spanId == x.spanId;
  }

  /** Inside a chain every link goes to the span before. */
  lemma ChainClimbs(origin: Origin, id: string, ordered: seq<Event>, level: Level, keys: Keys, segs: seq<Segment>,
                    rank: string -> nat, base: nat, i: nat)
    requires i < |ordered| && |Chain(origin, id, ordered, level, keys)| == |ordered|
    requires forall x | x in Chain(origin, id, ordered, level, keys) :: Present(segs, x.spanId)
    requires forall j | 0 <= j < |ordered| :: rank(SpanId(origin, ordered[j].sequence)) == base + j
    ensures Climbs(Chain(origin, id, ordered, level, keys)[i], segs, rank)
  {
    ChainAt(origin, id, ordered, None, level, keys);
    var c := Chain(origin, id, ordered, level, keys);
    if i > 0 {
      assert c[i - 1] in c;
    }
  }

  /** The chains climb, and the last local span ranks below every hosted one. */
  ghost predicate ChainsClimb(segs: seq<Segment>, h: seq<Segment>, l: seq<Segment>, rank: string -> nat) {
    && (forall x | x in h :: Climbs(x, segs, rank)) && (forall x | x in l :: Climbs(x, segs, rank))
    && (forall x, y | x in h && y in l :: rank(y.spanId) < rank(x.spanId))
    && (forall y | y in l :: Present(segs, y.spanId))
  }

  lemma MergedClimbs(segs: seq<Segment>, h: seq<Segment>, l: seq<Segment>, rank: string -> nat, k: nat)
    requires Behind(segs, h, l) && ChainsClimb(segs, h, l, rank) && k < |segs|
    ensures Climbs(segs[k], segs, rank)
  {
    var pre, post := OfKind(h, false), OfKind(h, true);
    OfKindFacts(h, false);
    OfKindFacts(h, true);
    if k < |pre| {
      assert pre[k] in pre && segs[k] == pre[k];
    } else if k < |pre| + |l| {
      assert segs[k] == l[k - |pre|] && l[k - |pre|] in l;
    } else {
      var i := k - |pre| - |l|;
      assert segs[k] == Reparent(post, l)[i] && post[i] in post && post[i] in h;
      if l != [] {
        assert l[|l| - 1] in l;
      }
    }
  }

  lemma AllPresent(segs: seq<Segment>, h: seq<Segment>, l: seq<Segment>)
    requires Behind(segs, h, l)
    ensures forall x | x in h || x in l :: Present(segs, x.spanId)
  {
    forall x | x in h || x in l
      ensures Present(segs, x.spanId)
    {
      MergedMembers(segs, h, l, x);
      ListedIsPresent(segs, x);
    }
  }

  lemma OneChainClimbs(origin: Origin, id: string, ordered: seq<Event>, level: Level, keys: Keys, segs: seq<Segment>,
                       rank: string -> nat, base: nat)
    requires forall x | x in Chain(origin, id, ordered, level, keys) :: Present(segs, x.spanId)
    requires forall j | 0 <= j < |ordered| :: rank(SpanId(origin, ordered[j].sequence)) == base + j
    ensures forall x | x in Chain(origin, id, ordered, level, keys) ::
              Climbs(x, segs, rank) && base <= rank(x.spanId) < base + |ordered|
  {
    ChainAt(origin, id, ordered, None, level, keys);
    var c := Chain(origin, id, ordered, level, keys);
    forall x | x in c
      ensures Climbs(x, segs, rank) && base <= rank(x.spanId) < base + |ordered|
    {
      var i :| 0 <= i < |c| && c[i] == x;
      ChainClimbs(origin, id, ordered, level, keys, segs, rank, base, i);
    }
  }

  lemma RanksOf(hosted: seq<Event>, local: seq<Event>, rank: string -> nat)
    requires Increasing(hosted) && Increasing(local)
    requires forall span :: rank(span) == Rank(span, hosted, local)
    ensures forall j | 0 <= j < |local| :: rank(SpanId(Local, local[j].sequence)) == 0 + j
    ensures forall j | 0 <= j < |hosted| :: rank(SpanId(Hosted, hosted[j].sequence)) == |local| + j
  {
    forall j | 0 <= j < |local|
      ensures rank(SpanId(Local, local[j].sequence)) == 0 + j
    {
      LocalRank(hosted, local, j);
    }
    forall j | 0 <= j < |hosted|
      ensures rank(SpanId(Hosted, hosted[j].sequence)) == |local| + j
    {
      HostedRank(hosted, local, j);
    }
  }

  /** Every parent link names a span that is in the list and ranks strictly lower, so following parents from
      any segment reaches a root. */
  lemma ParentsClimb(id: string, hosted: seq<Event>, local: seq<Event>, level: Level, keys: Keys)
    returns (rank: string -> nat)
    requires DistinctSequences(hosted) && DistinctSequences(local)
    ensures var segs := Segments(id, hosted, local, level, keys);
            forall k | 0 <= k < |segs| :: Climbs(segs[k], segs, rank)
  {
    var segs := Segments(id, hosted, local, level, keys);
    var ho, lo := Ordered(hosted), Ordered(local);
    var h, l := Chain(Hosted, id, ho, level, keys), Chain(Local, id, lo, level, keys);
    rank := (span: string) => Rank(span, ho, lo);
    OrderedFacts(hosted);
    OrderedFacts(local);
    RanksOf(ho, lo, rank);
    ChainsBehind(id, hosted, local, level, keys);
    AllPresent(segs, h, l);
    OneChainClimbs(Hosted, id, ho, level, keys, segs, rank, |lo|);
    OneChainClimbs(Local, id, lo, level, keys, segs, rank, 0);
    assert ChainsClimb(segs, h, l, rank);
    forall k | 0 <= k < |segs|
      ensures Climbs(segs[k], segs, rank)
    {
      MergedClimbs(segs, h, l, rank, k);
    }
  }

  /** Following parent links; the rank is what makes it end. */
  ghost function Root(segs: seq<Segment>, rank: string -> nat, k: nat): (root: nat)
    requires k < |segs| && forall i | 0 <= i < |segs| :: Climbs(segs[i], segs, rank)
    ensures root < |segs| && segs[root].parent == None
    decreases rank(segs[k].spanId)
  {
    if segs[k].parent.None? then k
    else
      assert Climbs(segs[k], segs, rank);
      var up: nat :| up < |segs| && segs[up].spanId == segs[k].parent.value;
      Root(segs, rank, up)
  }

  // ---- input order ------------------------------------------------------------------------------

  lemma OrderedIgnoresOrder(a: seq<Event>, b: seq<Event>)
    requires DistinctSequences(a) && multiset(a) == multiset(b)
    ensures Ordered(a) == Ordered(b)
  {
    BySequenceIsPreorder();
    SortFacts(a, BySequence);
    SortFacts(b, BySequence);
    OrderedFacts(a);
    forall x, y | x in Ordered(a) && y in Ordered(a) && BySequence(x, y) && BySequence(y, x)
      ensures x == y
    {
      SameSequenceSame(a, x, y);
    }
    SortedIsUnique(Ordered(a), Ordered(b), BySequence);
  }

  /** The order in which the two stores return their rows does not show. */
  lemma RowOrderIrrelevant(id: string, h: seq<Event>, h': seq<Event>, l: seq<Event>, l': seq<Event>, level: Level,
                           keys: Keys)
    requires DistinctSequences(h) && multiset(h) == multiset(h')
    requires DistinctSequences(l) && multiset(l) == multiset(l')
    ensures Segments(id, h, l, level, keys) == Segments(id, h', l', level, keys)
  {
    OrderedIgnoresOrder(h, h');
    OrderedIgnoresOrder(l, l');
  }
}
