/** `reconstruct_trace`: hosted and local events of one job merged into one list of spans, without looking
    at a clock. */
module TraceMerge {
  import opened Common
  import opened Ordering
  import opened Decimal
  import opened Redaction

  datatype Origin = Hosted | Local
  datatype Event = Event(sequence: nat, kind: string, payload: seq<Field>, timestamp: string)
  datatype Trace = Trace(traceId: string, events: seq<Event>)

  datatype Segment = Segment(
    origin: Origin, traceId: string, spanId: string, parent: Option<string>,
    timestamp: string, kind: string, payload: seq<Field>, proven: bool)

  datatype Reconstruction =
    | Reconstruction(traceId: Option<string>, segments: seq<Segment>, missing: set<Origin>)
    | TraceIntegrityError

  const ACKNOWLEDGED := "review_job_acknowledged"

  // ---- the program ------------------------------------------------------------------------------

  predicate BySequence(a: Event, b: Event) { a.sequence <= b.sequence }

  function Ordered(events: seq<Event>): seq<Event> { Sort(events, BySequence) }

  function SpanId(origin: Origin, sequence: nat): string {
    (if origin == Hosted then "hosted:" else "local:") + Print(sequence)
  }

  function SegmentOf(origin: Origin, traceId: string, e: Event, parent: Option<string>, level: Level,
                     keys: Keys): Segment {
    Segment(origin, traceId, SpanId(origin, e.sequence), parent, e.timestamp, e.kind,
            RedactFields(e.payload, level, keys), origin == Local || e.kind == ACKNOWLEDGED)
  }

  /** The chain over ordered events: each span's parent is the one before it, the first one's is `previous`. */
  function ChainFrom(origin: Origin, traceId: string, ordered: seq<Event>, previous: Option<string>, level: Level,
                     keys: Keys): seq<Segment>
    decreases ordered
  {
    if ordered == [] then []
    else
      [SegmentOf(origin, traceId, ordered[0], previous, level, keys)]
      + ChainFrom(origin, traceId, ordered[1..], Some(SpanId(origin, ordered[0].sequence)), level, keys)
  }

  function Chain(origin: Origin, traceId: string, ordered: seq<Event>, level: Level, keys: Keys): seq<Segment> {
    ChainFrom(origin, traceId, ordered, None, level, keys)
  }

  lemma ChainStep(done: seq<Segment>, origin: Origin, traceId: string, ordered: seq<Event>, i: nat,
                  previous: Option<string>, level: Level, keys: Keys)
    requires i < |ordered|
    ensures done + ChainFrom(origin, traceId, ordered[i..], previous, level, keys) ==
              done + [SegmentOf(origin, traceId, ordered[i], previous, level, keys)]
              + ChainFrom(origin, traceId, ordered[i + 1..], Some(SpanId(origin, ordered[i].sequence)), level, keys)
  {
    assert ordered[i..][1..] == ordered[i + 1..] && ordered[i..][0] == ordered[i];
  }

  /** `_build_hosted_chain` and `_build_local_chain`, which differ only in the origin and in `proven`. */
  method BuildChain(origin: Origin, traceId: string, events: seq<Event>, level: Level, keys: Keys)
    returns (segments: seq<Segment>)
    ensures segments == Chain(origin, traceId, Ordered(events), level, keys)
  {
    segments := [];
    var previous: Option<string> := None;
    var ordered := Ordered(events);
    ghost var chain := Chain(origin, traceId, ordered, level, keys);
    assert ordered[0..] == ordered && segments + chain == chain;
    var i := 0;
    while i < |ordered|
      invariant i <= |ordered|
      invariant segments + ChainFrom(origin, traceId, ordered[i..], previous, level, keys) == chain
    {
      ChainStep(segments, origin, traceId, ordered, i, previous, level, keys);
      var segment := SegmentOf(origin, traceId, ordered[i], previous, level, keys);
      segments := segments + [segment];
      previous := Some(segment.spanId);
      i := i + 1;
    }
    assert ordered[i..] == [];
  }

  function OfKind(segments: seq<Segment>, acknowledged: bool): seq<Segment> {
    if segments == [] then []
    else (if (segments[0].kind == ACKNOWLEDGED) == acknowledged then [segments[0]] else [])
         + OfKind(segments[1..], acknowledged)
  }

  /** The first acknowledgement hangs below the last local span. */
  function Reparent(post: seq<Segment>, local: seq<Segment>): seq<Segment> {
    if post == [] || local == [] then post else post[0 := post[0].(parent := Some(local[|local| - 1].spanId))]
  }

  function Merge(hosted: seq<Segment>, local: seq<Segment>): seq<Segment> {
    OfKind(hosted, false) + local + Reparent(OfKind(hosted, true), local)
  }

  function EventsOf(t: Option<Trace>): seq<Event> { if t.Some? then t.value.events else [] }

  function TraceIdOf(hosted: Option<Trace>, local: Option<Trace>): Option<string> {
    if hosted.Some? then Some(hosted.value.traceId) else if local.Some? then Some(local.value.traceId) else None
  }

  function Segments(id: string, hosted: seq<Event>, local: seq<Event>, level: Level, keys: Keys): seq<Segment> {
    Merge(Chain(Hosted, id, Ordered(hosted), level, keys), Chain(Local, id, Ordered(local), level, keys))
  }

  function Reconstruct(hosted: Option<Trace>, local: Option<Trace>, level: Level, keys: Keys): Reconstruction {
    if hosted.Some? && local.Some? && hosted.value.traceId != local.value.traceId then TraceIntegrityError
    else
      var traceId := TraceIdOf(hosted, local);
      var id := if traceId.Some? then traceId.value else "";
      Reconstruction(
        traceId,
        Segments(id, EventsOf(hosted), EventsOf(local), level, keys),
        (if hosted.None? then {Hosted} else {}) + (if local.None? then {Local} else {}))
  }

  /** The two traces contradict each other exactly when both exist under different ids; otherwise the id is the hosted
      one, or else the local one, and exactly the absent origins are reported missing. */
  lemma ReconstructAnswers(hosted: Option<Trace>, local: Option<Trace>, level: Level, keys: Keys)
    ensures var r := Reconstruct(hosted, local, level, keys);
            && (r.TraceIntegrityError? <==> hosted.Some? && local.Some? && hosted.value.traceId != local.value.traceId)
            && (r.Reconstruction? ==>
                  && (Hosted in r.missing <==> hosted.None?) && (Local in r.missing <==> local.None?)
                  && (hosted.Some? ==> r.traceId == Some(hosted.value.traceId))
                  && (local.Some? ==> r.traceId == Some(local.value.traceId))
                  && (hosted.None? && local.None? ==> r.traceId == None && r.segments == []))
  {
    if hosted.None? && local.None? {
      assert Ordered([]) == [];
    }
  }

  lemma KindStep(done: seq<Segment>, segments: seq<Segment>, i: nat, acknowledged: bool)
    requires i < |segments|
    ensures done + OfKind(segments[i..], acknowledged) ==
              (if (segments[i].kind == ACKNOWLEDGED) == acknowledged then done + [segments[i]] else done)
              + OfKind(segments[i + 1..], acknowledged)
  {
    assert segments[i..][1..] == segments[i + 1..];
    Regroup(done, segments[i], OfKind(segments[i + 1..], acknowledged));
  }

  method SplitByKind(segments: seq<Segment>) returns (pre: seq<Segment>, post: seq<Segment>)
    ensures pre == OfKind(segments, false) && post == OfKind(segments, true)
  {
    pre, post := [], [];
    for i := 0 to |segments|
      invariant pre + OfKind(segments[i..], false) == OfKind(segments, false)
      invariant post + OfKind(segments[i..], true) == OfKind(segments, true)
    {
      KindStep(pre, segments, i, false);
      KindStep(post, segments, i, true);
      if segments[i].kind == ACKNOWLEDGED {
        post := post + [segments[i]];
      } else {
        pre := pre + [segments[i]];
      }
    }
  }

  /** `reconstruct_trace`. */
  method ReconstructTrace(hosted: Option<Trace>, local: Option<Trace>, level: Level, keys: Keys)
    returns (r: Reconstruction)
    ensures r == Reconstruct(hosted, local, level, keys)
  {
    var missing: set<Origin> := {};
    if hosted.None? {
      missing := missing + {Hosted};
    }
    if local.None? {
      missing := missing + {Local};
    }
    assert missing == (if hosted.None? then {Hosted} else {}) + (if local.None? then {Local} else {});
    if hosted.Some? && local.Some? && hosted.value.traceId != local.value.traceId {
      return TraceIntegrityError;
    }
    var traceId := TraceIdOf(hosted, local);
    var id := if traceId.Some? then traceId.value else "";
    var segments := BuildSegments(id, EventsOf(hosted), EventsOf(local), level, keys);
    r := Reconstruction(traceId, segments, missing);
  }

  /** Both chains, split around the local one, with the first acknowledgement hung below it. */
  method BuildSegments(id: string, hosted: seq<Event>, local: seq<Event>, level: Level, keys: Keys)
    returns (segments: seq<Segment>)
    ensures segments == Segments(id, hosted, local, level, keys)
  {
    var hostedSegments := BuildChain(Hosted, id, hosted, level, keys);
    var localSegments := BuildChain(Local, id, local, level, keys);
    var pre, post := SplitByKind(hostedSegments);
    if post != [] && localSegments != [] {
      post := post[0 := post[0].(parent := Some(localSegments[|localSegments| - 1].spanId))];
    }
    segments := pre + localSegments + post;
  }

  // ---- order of events --------------------------------------------------------------------------

  ghost predicate DistinctSequences(events: seq<Event>) {
    forall i, j | 0 <= i < j < |events| :: events[i].sequence != events[j].sequence
  }

  ghost predicate Increasing(events: seq<Event>) {
    forall i, j | 0 <= i < j < |events| :: events[i].sequence < events[j].sequence
  }

  lemma BySequenceIsPreorder()
    ensures Preorder(BySequence)
  {
  }

  lemma {:induction false} DistinctCounts(events: seq<Event>, e: Event)
    requires DistinctSequences(events)
    ensures multiset(events)[e] <= 1
    decreases events
  {
    if events != [] {
      assert events == [events[0]] + events[1..];
      DistinctCounts(events[1..], e);
      if e == events[0] {
        assert e !in events[1..];
      }
    }
  }

  /** Sorting distinct sequence numbers puts them in strictly increasing order and loses nothing. */
  lemma OrderedFacts(events: seq<Event>)
    requires DistinctSequences(events)
    ensures Increasing(Ordered(events)) && multiset(Ordered(events)) == multiset(events)
    ensures |Ordered(events)| == |events| && forall e :: e in Ordered(events) <==> e in events
  {
    BySequenceIsPreorder();
    SortFacts(events, BySequence);
    var o := Ordered(events);
    MembersOfPermutation(o, events);
    forall i, j | 0 <= i < j < |o|
      ensures o[i].sequence < o[j].sequence
    {
      assert BySequence(o[i], o[j]);
      if o[i].sequence == o[j].sequence {
        SameSequenceSame(events, o[i], o[j]);
        DistinctCounts(events, o[i]);
        TwiceCounts(o, i, j);
      }
    }
  }

  lemma SameSequenceSame(events: seq<Event>, a: Event, b: Event)
    requires DistinctSequences(events) && a in events && b in events && a.sequence == b.sequence
    ensures a == b
  {
  }

  lemma TwiceCounts(s: seq<Event>, i: nat, j: nat)
    requires i < j < |s| && s[i] == s[j]
    ensures multiset(s)[s[i]] >= 2
  {
    assert s == s[..i] + [s[i]] + s[i + 1..j] + [s[j]] + s[j + 1..];
  }

  // ---- spans ------------------------------------------------------------------------------------

  lemma SpanIdInjective(o: Origin, n: nat, o': Origin, n': nat)
    requires SpanId(o, n) == SpanId(o', n')
    ensures o == o' && n == n'
  {
    assert SpanId(o, n)[0] == (if o == Hosted then 'h' else 'l');
    assert SpanId(o', n')[0] == (if o' == Hosted then 'h' else 'l');
    var head := if o == Hosted then "hosted:" else "local:";
    assert SpanId(o, n)[|head|..] == Print(n) && SpanId(o', n')[|head|..] == Print(n');
    PrintInjective(n, n');
  }

  /** A segment shows an event: same span, kind, time and redacted payload. */
  predicate Shows(s: Segment, origin: Origin, e: Event, level: Level, keys: Keys) {
    && s.origin == origin && s.spanId == SpanId(origin, e.sequence) && s.kind == e.kind
    && s.timestamp == e.timestamp && s.payload == RedactFields(e.payload, level, keys)
  }

  lemma {:induction false} OfKindFacts(s: seq<Segment>, acknowledged: bool)
    ensures forall x :: x in OfKind(s, acknowledged) <==> x in s && (x.kind == ACKNOWLEDGED) == acknowledged
    decreases s
  {
    if s != [] {
      OfKindFacts(s[1..], acknowledged);
      assert s == [s[0]] + s[1..];
    }
  }

  lemma {:induction false} OfKindSizes(s: seq<Segment>)
    ensures |OfKind(s, true)| + |OfKind(s, false)| == |s|
    decreases s
  {
    if s != [] {
      OfKindSizes(s[1..]);
    }
  }
}
