/** `post_review`: idempotent posting of one review per key, over attempts that may crash or time out
    before or after GitHub accepted the review. */
module Posting {
  import opened Common
  import opened DiffText
  import opened DiffAgreement
  import opened ReviewPipeline

  datatype Finding = Finding(draft: Draft, rejected: bool)
  datatype Decision = Decision(allowPublicPost: bool, restricted: bool)
  type Routed = (Finding, Decision)

  datatype Submission = Submission(commitId: string, body: string, comments: seq<Comment>)
  datatype Review = Review(body: string, comments: seq<Comment>, key: string, summaryOnly: bool)

  /** `accepted` is what GitHub took for this key; `recorded` the local posts by key. */
  datatype State = State(accepted: seq<Submission>, recorded: map<string, Review>)

  /** What the local lookup does: `Consulted` reads the recorded posts. */
  datatype LocalLookup = NoLookup | LookupRaises | Consulted

  /** What becomes of the recording: no recorder is given, it records, it raises, or what follows it does. */
  datatype Recorder = NoRecorder | Records | RecorderRaises | RaisesAfterRecording

  /** What a listing of the pull request's reviews yields. */
  datatype Listing = NotGiven | ListRaises | Shows(reviews: seq<Review>)

  /** What becomes of one submit call. `Dies` is a crash or any exception but a timeout. */
  datatype Fate = Dies(accepted: bool) | TimesOut(accepted: bool) | Answers(review: Review)

  /** One call: its inputs, the answers it gets, and whether it survives to record the post. */
  datatype Attempt = Attempt(
    headSha: string, findings: seq<Routed>, patches: seq<FilePatch>,
    lookup: LocalLookup, listing: Listing, lookupAgain: LocalLookup, listingAgain: Listing,
    liveHead: Option<string>, fate: Fate, recorder: Recorder)

  datatype Result = Existing(review: Review) | NothingPublic | HeadMoved | Posted(review: Review) | Raised

  // ---- the program ------------------------------------------------------------------------------

  predicate IsPublic(f: Routed) { !f.0.rejected && !f.1.restricted && f.1.allowPublicPost }

  function Public(findings: seq<Routed>): seq<Routed> {
    if findings == [] then [] else (if IsPublic(findings[0]) then [findings[0]] else []) + Public(findings[1..])
  }

  function Marker(key: string): string { "<!-- pr-reviewer:post:" + key + " -->" }

  function TitleLines(findings: seq<Routed>): seq<string> {
    seq(|findings|, i requires 0 <= i < |findings| => "- " + findings[i].0.draft.title)
  }

  function Body(key: string, public: seq<Routed>): string { Marker(key) + "\n" + Join(TitleLines(public)) }

  function Inline(public: seq<Routed>, patches: seq<FilePatch>): seq<Comment> {
    if public == [] then []
    else
      var comment := Anchor(public[0].0.draft, patches);
      (if comment.Some? then [comment.value] else []) + Inline(public[1..], patches)
  }

  function SubmissionOf(key: string, a: Attempt): Submission {
    var public := Public(a.findings);
    Submission(a.headSha, Body(key, public), Inline(public, a.patches))
  }

  predicate Contains(text: string, needle: string) { exists i | 0 <= i <= |text| :: needle <= text[i..] }

  function FirstMarked(reviews: seq<Review>, key: string): Option<Review> {
    if reviews == [] then None
    else if Contains(reviews[0].body, Marker(key)) then Some(reviews[0].(key := key))
    else FirstMarked(reviews[1..], key)
  }

  /** `_existing`; `None` when the lookup or the listing raises. */
  function Lookup(s: State, key: string, lookup: LocalLookup, listing: Listing): Option<Option<Review>> {
    if lookup.LookupRaises? then None
    else if lookup.Consulted? && key in s.recorded then Some(Some(s.recorded[key]))
    else
      match listing
      case NotGiven => Some(None)
      case ListRaises => None
      case Shows(reviews) => Some(FirstMarked(reviews, key))
  }

  /** The review as it is returned and recorded. */
  function Completed(r: Review, key: string, sub: Submission): Review {
    Review(if r.body != [] then r.body else sub.body,
           if r.comments != [] then r.comments else sub.comments, key, sub.comments == [])
  }

  function Finish(s: State, key: string, a: Attempt, r: Review, sub: Submission): (State, Result) {
    var posted := Completed(r, key, sub);
    match a.recorder
    case NoRecorder => (s, Posted(posted))
    case Records => (s.(recorded := s.recorded[key := posted]), Posted(posted))
    case RecorderRaises => (s, Raised)
    case RaisesAfterRecording => (s.(recorded := s.recorded[key := posted]), Raised)
  }

  function Accepts(fate: Fate): bool { fate.Answers? || fate.accepted }

  function Submit(s: State, key: string, a: Attempt): (State, Result) {
    var sub := SubmissionOf(key, a);
    var s := if Accepts(a.fate) then s.(accepted := s.accepted + [sub]) else s;
    match a.fate
    case Dies(_) => (s, Raised)
    case Answers(review) => Finish(s, key, a, review, sub)
    case TimesOut(_) =>
      match Lookup(s, key, a.lookupAgain, a.listingAgain)
      case None => (s, Raised)
      case Some(None) => (s, Raised)
      case Some(Some(recovered)) => Finish(s, key, a, recovered, sub)
  }

  function Post(s: State, key: string, a: Attempt): (State, Result) {
    match Lookup(s, key, a.lookup, a.listing)
    case None => (s, Raised)
    case Some(Some(review)) => (s, Existing(review))
    case Some(None) =>
      if Public(a.findings) == [] then (s, NothingPublic)
      else if a.liveHead.None? then (s, Raised)
      else if a.headSha != a.liveHead.value then (s, HeadMoved)
      else Submit(s, key, a)
  }

  /** The two sides of posting, and `post_review` as it runs its effects. */
  class Poster {
    var accepted: seq<Submission>
    var recorded: map<string, Review>

    ghost function View(): State
      reads this
    {
      State(accepted, recorded)
    }

    constructor ()
      ensures View() == State([], map[])
    {
      accepted, recorded := [], map[];
    }

    method FindExisting(key: string, lookup: LocalLookup, listing: Listing)
      returns (raised: bool, found: Option<Review>)
      ensures (if raised then None else Some(found)) == Lookup(View(), key, lookup, listing)
    {
      if lookup.LookupRaises? {
        return true, None;
      }
      if lookup.Consulted? && key in recorded {
        return false, Some(recorded[key]);
      }
      if listing.NotGiven? {
        return false, None;
      }
      if listing.ListRaises? {
        return true, None;
      }
      var i := 0;
      while i < |listing.reviews|
        invariant i <= |listing.reviews|
        invariant FirstMarked(listing.reviews[i..], key) == FirstMarked(listing.reviews, key)
      {
        if Contains(listing.reviews[i].body, Marker(key)) {
          return false, Some(listing.reviews[i].(key := key));
        }
        assert listing.reviews[i..][1..] == listing.reviews[i + 1..];
        i := i + 1;
      }
      return false, None;
    }

    method PostReview(key: string, a: Attempt) returns (result: Result)
      modifies this
      ensures (View(), result) == Post(old(View()), key, a)
    {
      var raised, existing := FindExisting(key, a.lookup, a.listing);
      if raised {
        return Raised;
      }
      if existing.Some? {
        return Existing(existing.value);
      }
      var public := PublicFindings(a.findings);
      if public == [] {
        return NothingPublic;
      }
      var submission := Submission(a.headSha, Body(key, public), Inline(public, a.patches));
      if a.liveHead.None? {
        return Raised;
      }
      if a.headSha != a.liveHead.value {
        return HeadMoved;
      }
      if Accepts(a.fate) {
        accepted := accepted + [submission];
      }
      if a.fate.Dies? {
        return Raised;
      }
      var posted: Review;
      if a.fate.TimesOut? {
        var raisedAgain, recovered := FindExisting(key, a.lookupAgain, a.listingAgain);
        if raisedAgain || recovered.None? {
          return Raised;
        }
        posted := recovered.value;
      } else {
        posted := a.fate.review;
      }
      result := Conclude(key, Completed(posted, key, submission), a.recorder);
    }

    /** Records the post, if a recorder is given, and returns it. */
    method Conclude(key: string, posted: Review, recorder: Recorder) returns (result: Result)
      modifies this`recorded
      ensures recorded ==
                if recorder.Records? || recorder.RaisesAfterRecording? then old(recorded)[key := posted]
                else old(recorded)
      ensures result == if recorder.RecorderRaises? || recorder.RaisesAfterRecording? then Raised else Posted(posted)
    {
      if recorder.RecorderRaises? {
        return Raised;
      }
      if !recorder.NoRecorder? {
        recorded := recorded[key := posted];
      }
      return if recorder.RaisesAfterRecording? then Raised else Posted(posted);
    }

    method PublicFindings(findings: seq<Routed>) returns (public: seq<Routed>)
      ensures public == Public(findings)
    {
      public := [];
      for i := 0 to |findings|
        invariant public + Public(findings[i..]) == Public(findings)
      {
        assert findings[i..][1..] == findings[i + 1..];
        if IsPublic(findings[i]) {
          public := public + [findings[i]];
        }
      }
    }
  }

  // ---- at most one review -----------------------------------------------------------------------

  /** An attempt has a review accepted exactly when its first check finds nothing, something is public,
      the head has not moved, and GitHub takes the submission. */
  lemma AcceptedExactlyWhen(s: State, key: string, a: Attempt)
    ensures var s' := Post(s, key, a).0;
            && s'.accepted != s.accepted <==>
                 && Lookup(s, key, a.lookup, a.listing) == Some(None)
                 && Public(a.findings) != [] && a.liveHead == Some(a.headSha) && Accepts(a.fate)
    ensures var s' := Post(s, key, a).0;
            s'.accepted == s.accepted || s'.accepted == s.accepted + [SubmissionOf(key, a)]
  {
    assert |s.accepted + [SubmissionOf(key, a)]| == |s.accepted| + 1;
  }

  function Attempts(s: State, key: string, attempts: seq<Attempt>): State
    decreases attempts
  {
    if attempts == [] then s else Attempts(Post(s, key, attempts[0]).0, key, attempts[1..])
  }

  /** An earlier review of this key was accepted, yet the first check of the attempt finds nothing. */
  predicate Blind(s: State, key: string, a: Attempt) {
    s.accepted != [] && Lookup(s, key, a.lookup, a.listing) == Some(None)
  }

  /** A blind attempt with something to say about the current head, which GitHub takes. */
  predicate Repeats(s: State, key: string, a: Attempt) {
    Blind(s, key, a) && Public(a.findings) != [] && a.liveHead == Some(a.headSha) && Accepts(a.fate)
  }

  /** How many attempts of the run repeat. */
  function Repetitions(s: State, key: string, attempts: seq<Attempt>): nat
    decreases attempts
  {
    if attempts == [] then 0
    else (if Repeats(s, key, attempts[0]) then 1 else 0) + Repetitions(Post(s, key, attempts[0]).0, key, attempts[1..])
  }

  /** Once something is accepted, every repetition adds one review and nothing else adds any. */
  lemma {:induction false} AcceptedCount(s: State, key: string, attempts: seq<Attempt>)
    ensures var last := Attempts(s, key, attempts).accepted;
            |last| == Repetitions(s, key, attempts)
                      + if s.accepted != [] then |s.accepted| else if last == [] then 0 else 1
    decreases attempts
  {
    if attempts != [] {
      AcceptedExactlyWhen(s, key, attempts[0]);
      AcceptedCount(Post(s, key, attempts[0]).0, key, attempts[1..]);
      AcceptedGrows(Post(s, key, attempts[0]).0, key, attempts[1..]);
    }
  }

  lemma {:induction false} AcceptedGrows(s: State, key: string, attempts: seq<Attempt>)
    ensures s.accepted <= Attempts(s, key, attempts).accepted
    decreases attempts
  {
    if attempts != [] {
      AcceptedExactlyWhen(s, key, attempts[0]);
      AcceptedGrows(Post(s, key, attempts[0]).0, key, attempts[1..]);
    }
  }

  /** Over any attempts for one key, GitHub accepts one review, if any, plus one for each attempt that
      repeats. */
  lemma OnePlusRepetitions(key: string, attempts: seq<Attempt>)
    ensures var last := Attempts(State([], map[]), key, attempts).accepted;
            |last| == Repetitions(State([], map[]), key, attempts) + if last == [] then 0 else 1
  {
    AcceptedCount(State([], map[]), key, attempts);
  }

  lemma {:induction false} NoRepetition(s: State, key: string, attempts: seq<Attempt>)
    ensures Repetitions(s, key, attempts) == 0 <==>
              forall i | 0 <= i < |attempts| :: !Repeats(Attempts(s, key, attempts[..i]), key, attempts[i])
    decreases attempts
  {
    if attempts != [] {
      var next := Post(s, key, attempts[0]).0;
      NoRepetition(next, key, attempts[1..]);
      assert Attempts(s, key, attempts[..0]) == s;
      forall i | 0 < i < |attempts|
        ensures Attempts(s, key, attempts[..i]) == Attempts(next, key, attempts[1..][..i - 1])
      {
        assert attempts[..i][1..] == attempts[1..][..i - 1];
      }
      assert forall i | 0 <= i < |attempts| - 1 :: attempts[1..][i] == attempts[i + 1];
      if Repetitions(s, key, attempts) == 0 {
        forall i | 0 <= i < |attempts|
          ensures !Repeats(Attempts(s, key, attempts[..i]), key, attempts[i])
        {
          if i > 0 {
            assert attempts[i] == attempts[1..][i - 1];
          }
        }
      } else if !Repeats(s, key, attempts[0]) {
        var i :| 0 <= i < |attempts| - 1 && Repeats(Attempts(next, key, attempts[1..][..i]), key, attempts[1..][i]);
        assert Repeats(Attempts(s, key, attempts[..i + 1]), key, attempts[i + 1]);
      }
    }
  }

  /** At most one review is accepted exactly when no attempt of the run repeats: none comes after an accepted
      review, sees nothing of it, and has a submission for the current head that GitHub takes. */
  lemma AtMostOnceExactly(key: string, attempts: seq<Attempt>)
    ensures |Attempts(State([], map[]), key, attempts).accepted| <= 1 <==>
              forall i | 0 <= i < |attempts| ::
                !Repeats(Attempts(State([], map[]), key, attempts[..i]), key, attempts[i])
  {
    OnePlusRepetitions(key, attempts);
    NoRepetition(State([], map[]), key, attempts);
  }

  /** The listing is given and shows the body of every accepted review, or raises. */
  predicate ShowsAccepted(s: State, a: Attempt) {
    match a.listing
    case NotGiven => false
    case ListRaises => true
    case Shows(reviews) =>
      forall i | 0 <= i < |s.accepted| :: exists j | 0 <= j < |reviews| :: reviews[j].body == s.accepted[i].body
  }

  predicate AllShow(s: State, key: string, attempts: seq<Attempt>)
    decreases attempts
  {
    attempts == [] || (ShowsAccepted(s, attempts[0]) && AllShow(Post(s, key, attempts[0]).0, key, attempts[1..]))
  }

  ghost predicate AllMarked(s: State, key: string) {
    forall i | 0 <= i < |s.accepted| :: Contains(s.accepted[i].body, Marker(key))
  }

  lemma BodyIsMarked(key: string, public: seq<Routed>)
    ensures Contains(Body(key, public), Marker(key))
  {
    var body := Body(key, public);
    assert body[0..] == body && Marker(key) <= body;
  }

  lemma {:induction false} MarkedIsFound(reviews: seq<Review>, key: string, j: nat)
    requires j < |reviews| && Contains(reviews[j].body, Marker(key))
    ensures FirstMarked(reviews, key).Some?
    decreases j
  {
    if j > 0 {
      MarkedIsFound(reviews[1..], key, j - 1);
    }
  }

  lemma PostKeepsMarked(s: State, key: string, a: Attempt)
    requires AllMarked(s, key)
    ensures AllMarked(Post(s, key, a).0, key)
  {
    AcceptedExactlyWhen(s, key, a);
    BodyIsMarked(key, Public(a.findings));
  }

  lemma ShowingIsNotBlind(s: State, key: string, a: Attempt)
    requires AllMarked(s, key) && ShowsAccepted(s, a)
    ensures !Blind(s, key, a)
  {
    if s.accepted != [] && a.listing.Shows? {
      var reviews := a.listing.reviews;
      assert Contains(s.accepted[0].body, Marker(key));
      var j :| 0 <= j < |reviews| && reviews[j].body == s.accepted[0].body;
      MarkedIsFound(reviews, key, j);
    }
  }

  lemma {:induction false} ShowingNeverRepeats(s: State, key: string, attempts: seq<Attempt>)
    requires AllMarked(s, key) && AllShow(s, key, attempts)
    ensures Repetitions(s, key, attempts) == 0
    decreases attempts
  {
    if attempts != [] {
      ShowingIsNotBlind(s, key, attempts[0]);
      PostKeepsMarked(s, key, attempts[0]);
      ShowingNeverRepeats(Post(s, key, attempts[0]).0, key, attempts[1..]);
    }
  }

  /** As long as the listing shows what GitHub accepted, at most one review is accepted for a key, however
      the attempts crash, time out or are repeated. */
  lemma AtMostOnce(key: string, attempts: seq<Attempt>)
    requires AllShow(State([], map[]), key, attempts)
    ensures |Attempts(State([], map[]), key, attempts).accepted| <= 1
  {
    ShowingNeverRepeats(State([], map[]), key, attempts);
    OnePlusRepetitions(key, attempts);
  }

  /** Without a listing, a submit that timed out after it was accepted is accepted a second time. */
  lemma TwiceWithoutListing(key: string, f: Routed)
    requires IsPublic(f)
    ensures var a := Attempt("sha", [f], [], Consulted, NotGiven, Consulted, NotGiven, Some("sha"), TimesOut(true),
                             Records);
            |Attempts(State([], map[]), key, [a, a]).accepted| == 2
  {
    var a := Attempt("sha", [f], [], Consulted, NotGiven, Consulted, NotGiven, Some("sha"), TimesOut(true), Records);
    assert Public([f]) == [f] + Public([f][1..]) && [f][1..] == [];
    var s0 := State([], map[]);
    var s1 := Post(s0, key, a).0;
    var s2 := Post(s1, key, a).0;
    assert |s1.accepted| == 1 && s1.recorded == map[];
    assert |s2.accepted| == 2;
    assert [a, a][1..] == [a] && [a][1..] == [];
    assert Attempts(s1, key, [a]) == Attempts(s2, key, []);
  }

  // ---- what is posted ---------------------------------------------------------------------------

  /** What may be posted: a finding that was not rejected, whose route is not restricted and allows it. */
  predicate Postable(f: Routed) { f.0.rejected == false && f.1.restricted == false && f.1.allowPublicPost == true }

  lemma {:induction false} PublicIsFilter(findings: seq<Routed>)
    ensures forall f | f in Public(findings) :: Postable(f)
    ensures multiset(Public(findings)) <= multiset(findings)
    ensures forall f | f in findings && Postable(f) :: multiset(Public(findings))[f] == multiset(findings)[f]
  {
    if findings != [] {
      PublicIsFilter(findings[1..]);
      assert findings == [findings[0]] + findings[1..];
    }
  }

  lemma {:induction false} PublicOfAppend(a: seq<Routed>, b: seq<Routed>)
    ensures Public(a + b) == Public(a) + Public(b)
    decreases a
  {
    if a == [] {
      assert a + b == b;
    } else {
      var x := if IsPublic(a[0]) then [a[0]] else [];
      assert (a + b)[1..] == a[1..] + b && (a + b)[0] == a[0];
      assert Public(a + b) == x + Public(a[1..] + b);
      assert Public(a) == x + Public(a[1..]);
      PublicOfAppend(a[1..], b);
    }
  }

  lemma LinesJoin(first: string, lines: seq<string>)
    requires lines != []
    ensures first + "\n" + Join(lines) == Join([first] + lines)
  {
    assert ([first] + lines)[1..] == lines;
  }

  /** Reading a posted body line by line gives back the marker and the titles of exactly the public
      findings, in order, when titles and key are single lines. */
  lemma BodyReadsBack(key: string, a: Attempt)
    requires OneLine(key) && Public(a.findings) != []
    requires forall f | f in Public(a.findings) :: OneLine(f.0.draft.title)
    ensures SplitLines(SubmissionOf(key, a).body) == [Marker(key)] + TitleLines(Public(a.findings))
  {
    var lines := TitleLines(Public(a.findings));
    LinesJoin(Marker(key), lines);
    assert OneLine(Marker(key)) by { MarkerOneLine(key); }
    forall i | 0 <= i < |lines|
      ensures OneLine(lines[i])
    {
      assert Public(a.findings)[i] in Public(a.findings);
      TitleOneLine(Public(a.findings)[i].0.draft.title);
    }
    SplitOfJoin([Marker(key)] + lines);
    assert lines[|lines| - 1] != [];
  }

  lemma MarkerOneLine(key: string)
    requires OneLine(key)
    ensures OneLine(Marker(key))
  {
    assert OneLine("<!-- pr-reviewer:post:") && OneLine(" -->");
  }

  lemma TitleOneLine(title: string)
    requires OneLine(title)
    ensures OneLine("- " + title)
  {
  }

  // ---- what a call answers -----------------------------------------------------------------------

  /** The answers of one call: an earlier review exactly when the first check finds one; nothing to say exactly when
      that finds none and nothing is postable; a moved head exactly when the live head differs. None of these
      changes anything. */
  lemma PostAnswers(s: State, key: string, a: Attempt)
    ensures var (s', result) := Post(s, key, a);
            var found := Lookup(s, key, a.lookup, a.listing);
            var silent := forall f | f in a.findings :: !Postable(f);
            && (result.Existing? <==> found.Some? && found.value.Some?)
            && (result.NothingPublic? <==> found == Some(None) && silent)
            && (result.HeadMoved? <==>
                found == Some(None) && !silent && a.liveHead.Some? && a.liveHead.value != a.headSha)
            && (result.Existing? || result.NothingPublic? || result.HeadMoved? ==> s' == s)
            && (result.Posted? ==> result.review.key == key && result.review.body != [])
  {
    SilentExactly(a.findings);
    BodyIsMarked(key, Public(a.findings));
  }

  lemma {:induction false} SilentExactly(findings: seq<Routed>)
    ensures Public(findings) == [] <==> forall f | f in findings :: !Postable(f)
  {
    if findings != [] {
      var head, rest := findings[0], findings[1..];
      SilentExactly(rest);
      assert findings == [head] + rest && head in findings;
      assert IsPublic(head) <==> Postable(head);
      if f :| f in rest && Postable(f) {
        assert f in findings;
      }
      assert Public(findings) == (if IsPublic(head) then [head] else []) + Public(rest);
    }
  }

  /** The first check finds what was recorded for the key when the record is consulted, and otherwise the first
      listed review that carries the key's marker. */
  lemma ExistingCarriesKey(s: State, key: string, lookup: LocalLookup, listing: Listing)
    requires var found := Lookup(s, key, lookup, listing); found.Some? && found.value.Some?
    ensures var review := Lookup(s, key, lookup, listing).value.value;
            || (lookup == Consulted && key in s.recorded && review == s.recorded[key])
            || (listing.Shows? && review.key == key && Contains(review.body, "<!-- pr-reviewer:post:" + key + " -->"))
  {
    if listing.Shows? && !(lookup == Consulted && key in s.recorded) {
      FirstMarkedIsMarked(listing.reviews, key);
    }
  }

  lemma {:induction false} FirstMarkedIsMarked(reviews: seq<Review>, key: string)
    ensures var found := FirstMarked(reviews, key);
            found.Some? ==> found.value.key == key && Contains(found.value.body, Marker(key))
  {
    if reviews != [] && !Contains(reviews[0].body, Marker(key)) {
      FirstMarkedIsMarked(reviews[1..], key);
    }
  }

  /** Different keys have different markers. */
  lemma MarkersDiffer(a: string, b: string)
    ensures Marker(a) == Marker(b) <==> a == b
  {
    var head, tail := "<!-- pr-reviewer:post:", " -->";
    assert |Marker(a)| == |head| + |a| + |tail| && |Marker(b)| == |head| + |b| + |tail|;
    if Marker(a) == Marker(b) {
      assert Marker(a)[|head|..|head| + |a|] == a && Marker(b)[|head|..|head| + |b|] == b;
    }
  }

  /** A review that was posted and recorded is what every later call that consults the record answers, without
      submitting again. */
  lemma RecordedIsReturned(s: State, key: string, a: Attempt, later: Attempt)
    requires Post(s, key, a).1.Posted? && a.recorder == Records && later.lookup == Consulted
    ensures var (s', result) := Post(s, key, a);
            Post(s', key, later) == (s', Existing(result.review))
  {
  }

  // ---- inline comments ---------------------------------------------------------------------------

  /** Every inline comment is a postable finding's title at its first line, and that line is read from the new side of
      its file's patch, or leaked by an old side. */
  lemma {:induction false} CommentsOnDiffLines(public: seq<Routed>, patches: seq<FilePatch>, c: Comment)
    requires c in Inline(public, patches)
    requires forall patch | patch in patches :: PathsOneLine(patch)
    ensures exists f, patch | f in public && patch in patches ::
              && patch.path == c.path == f.0.draft.filePath && c.line == f.0.draft.lineStart
                && c.body == f.0.draft.title
              && c.line in Static(patch.patch) + Leaked(patch.patch)
    decreases public
  {
    var f := public[0];
    var comment := Anchor(f.0.draft, patches);
    if comment == Some(c) {
      var patch := PatchAt(patches, f.0.draft.filePath).value;
      FirstPatch(patches, f.0.draft.filePath);
      RecoveredIsStaticPlusLeaks(patch);
      assert f in public && patch in patches;
    } else {
      CommentsOnDiffLines(public[1..], patches, c);
      var g, patch :| g in public[1..] && patch in patches
        && patch.path == c.path == g.0.draft.filePath && c.line == g.0.draft.lineStart && c.body == g.0.draft.title
        && c.line in Static(patch.patch) + Leaked(patch.patch);
      assert g in public;
    }
  }

  /** A finding that can stand on the diff: its first line is shown in the patch of its file. */
  predicate OnDiff(f: Routed, patches: seq<FilePatch>) { Anchor(f.0.draft, patches).Some? }

  lemma {:induction false} NoCommentExactly(findings: seq<Routed>, patches: seq<FilePatch>)
    ensures Inline(Public(findings), patches) == [] <==>
              forall f | f in findings && Postable(f) :: !OnDiff(f, patches)
    decreases findings
  {
    if findings != [] {
      var head, rest := findings[0], findings[1..];
      NoCommentExactly(rest, patches);
      PublicInline(head, rest, patches);
      assert findings == [head] + rest;
      AllOfPrepend(head, rest, patches);
    }
  }

  lemma AllOfPrepend(head: Routed, rest: seq<Routed>, patches: seq<FilePatch>)
    ensures (forall f | f in [head] + rest && Postable(f) :: !OnDiff(f, patches)) <==>
              (Postable(head) ==> !OnDiff(head, patches))
              && forall f | f in rest && Postable(f) :: !OnDiff(f, patches)
  {
    assert head in [head] + rest;
  }

  lemma PublicInline(head: Routed, rest: seq<Routed>, patches: seq<FilePatch>)
    ensures Inline(Public([head] + rest), patches) == [] <==>
              (Postable(head) ==> !OnDiff(head, patches)) && Inline(Public(rest), patches) == []
  {
    assert ([head] + rest)[1..] == rest;
    if IsPublic(head) {
      assert ([head] + Public(rest))[1..] == Public(rest);
    } else {
      assert [] + Public(rest) == Public(rest);
    }
  }

  /** A posted review says that it has no inline comment exactly when no postable finding stands on the diff. */
  lemma PostedIsComplete(s: State, key: string, a: Attempt)
    requires Post(s, key, a).1.Posted?
    ensures Post(s, key, a).1.review.summaryOnly <==>
              forall f | f in a.findings && Postable(f) :: !OnDiff(f, a.patches)
  {
    NoCommentExactly(a.findings, a.patches);
    PostedFrom(s, key, a);
  }

  /** It keeps what GitHub answered and fills in only what the answer leaves empty, and it is recorded under the key
      when a recorder runs; nothing else of the record changes. */
  lemma PostedFrom(s: State, key: string, a: Attempt)
    requires Post(s, key, a).1.Posted?
    ensures var (s', result) := Post(s, key, a);
            var sub := SubmissionOf(key, a);
            var posted := result.review;
            && posted.key == key && posted.summaryOnly == (sub.comments == [])
            && (a.fate.Answers? ==>
                  && posted.body == (if a.fate.review.body == [] then sub.body else a.fate.review.body)
                  && posted.comments == (if a.fate.review.comments == [] then sub.comments else a.fate.review.comments))
            && (a.recorder.Records? ==> s'.recorded == s.recorded[key := posted])
            && (a.recorder.NoRecorder? ==> s'.recorded == s.recorded)
  {
    assert !a.fate.Dies? && Post(s, key, a) == Submit(s, key, a);
  }

  lemma {:induction false} FirstPatch(patches: seq<FilePatch>, path: string)
    ensures var found := PatchAt(patches, path);
            found.Some? ==> found.value in patches && found.value.path == path
  {
    if patches != [] && patches[0].path != path {
      FirstPatch(patches[1..], path);
    }
  }
}
