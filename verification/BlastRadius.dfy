/** `CodeGraph.blast_radius`: bounded breadth-first search against the edge direction. */
module BlastRadius {
  type Symbol = string

  datatype Edge = Edge(source: Symbol, target: Symbol, relation: string, confidence: string)
  datatype CodeGraph = CodeGraph(nodes: set<Symbol>, edges: seq<Edge>)

  /** Only extracted calls and re-exports count. */
  predicate Blasts(e: Edge) {
    e.confidence == "EXTRACTED" && (e.relation == "calls" || e.relation == "re_exports")
  }

  // ---- the reference: walks into the symbol ---------------------------------------------------

  predicate Calls(g: CodeGraph, caller: Symbol, callee: Symbol) {
    CallsAmong(g.edges, caller, callee)
  }

  /** `path` lists the symbols of a walk of |path| - 1 counting edges. */
  predicate IsWalk(g: CodeGraph, path: seq<Symbol>) {
    path != [] && forall i | 0 <= i < |path| - 1 :: Calls(g, path[i], path[i + 1])
  }

  ghost predicate WalkInto(g: CodeGraph, from: Symbol, symbol: Symbol, length: nat) {
    exists path: seq<Symbol> ::
      IsWalk(g, path) && |path| == length + 1 && path[0] == from && path[length] == symbol
  }

  lemma WalkExtends(g: CodeGraph, caller: Symbol, x: Symbol, symbol: Symbol, length: nat)
    requires Calls(g, caller, x) && WalkInto(g, x, symbol, length)
    ensures WalkInto(g, caller, symbol, length + 1)
  {
    var path :| IsWalk(g, path) && |path| == length + 1 && path[0] == x && path[length] == symbol;
    var longer := [caller] + path;
    assert forall i | 0 <= i < |longer| - 1 :: Calls(g, longer[i], longer[i + 1]) by {
      forall i | 0 <= i < |longer| - 1
        ensures Calls(g, longer[i], longer[i + 1])
      {
        assert i > 0 ==> longer[i] == path[i - 1];
        assert longer[i + 1] == path[i];
      }
    }
    assert longer[length + 1] == path[length];
    assert IsWalk(g, longer);
  }

  lemma WalkFirstStep(g: CodeGraph, x: Symbol, symbol: Symbol, length: nat) returns (next: Symbol)
    requires length > 0 && WalkInto(g, x, symbol, length)
    ensures Calls(g, x, next) && WalkInto(g, next, symbol, length - 1)
  {
    var path :| IsWalk(g, path) && |path| == length + 1 && path[0] == x && path[length] == symbol;
    next := path[1];
    assert Calls(g, path[0], path[1]);
    var rest := path[1..];
    assert forall i | 0 <= i < |rest| - 1 :: Calls(g, rest[i], rest[i + 1]) by {
      forall i | 0 <= i < |rest| - 1
        ensures Calls(g, rest[i], rest[i + 1])
      {
        assert Calls(g, path[i + 1], path[i + 1 + 1]);
      }
    }
    assert IsWalk(g, rest);
  }

  lemma WalkZero(g: CodeGraph, x: Symbol, symbol: Symbol)
    ensures WalkInto(g, x, symbol, 0) <==> x == symbol
  {
    if x == symbol {
      assert IsWalk(g, [x]) && [x][0] == x;
    }
  }

  // ---- the search ------------------------------------------------------------------------------

  predicate CallsAmong(edges: seq<Edge>, caller: Symbol, callee: Symbol) {
    exists i | 0 <= i < |edges| :: Blasts(edges[i]) && edges[i].source == caller && edges[i].target == callee
  }

  predicate Listed(inbound: map<Symbol, seq<Symbol>>, caller: Symbol, callee: Symbol) {
    callee in inbound && caller in inbound[callee]
  }

  /** The inbound table lists exactly the callers of each symbol. */
  ghost predicate InboundTable(edges: seq<Edge>, inbound: map<Symbol, seq<Symbol>>) {
    forall caller, callee :: Listed(inbound, caller, callee) <==> CallsAmong(edges, caller, callee)
  }

  lemma CallsAmongAppend(edges: seq<Edge>, e: Edge, caller: Symbol, callee: Symbol)
    ensures CallsAmong(edges + [e], caller, callee) <==>
              CallsAmong(edges, caller, callee) || (Blasts(e) && e.source == caller && e.target == callee)
  {
    var more := edges + [e];
    assert more[|edges|] == e;
    assert forall i | 0 <= i < |edges| :: more[i] == edges[i];
  }

  method BuildInbound(g: CodeGraph) returns (inbound: map<Symbol, seq<Symbol>>, known: set<Symbol>)
    ensures InboundTable(g.edges, inbound)
    ensures forall x :: x in known <==>
              x in g.nodes || exists i | 0 <= i < |g.edges| :: g.edges[i].source == x || g.edges[i].target == x
  {
    inbound, known := map[], g.nodes;
    for k := 0 to |g.edges|
      invariant InboundTable(g.edges[..k], inbound)
      invariant forall x :: x in known <==>
        x in g.nodes || exists i | 0 <= i < k :: g.edges[i].source == x || g.edges[i].target == x
    {
      var e := g.edges[k];
      known := known + {e.source, e.target};
      ghost var before := inbound;
      if e.confidence == "EXTRACTED" && (e.relation == "calls" || e.relation == "re_exports") {
        var callers := if e.target in inbound then inbound[e.target] else [];
        inbound := inbound[e.target := callers + [e.source]];
      }
      assert g.edges[..k + 1] == g.edges[..k] + [e];
      forall caller, callee
        ensures Listed(inbound, caller, callee) <==> CallsAmong(g.edges[..k + 1], caller, callee)
      {
        CallsAmongAppend(g.edges[..k], e, caller, callee);
        assert Listed(before, caller, callee) <==> CallsAmong(g.edges[..k], caller, callee);
      }
    }
    assert g.edges[..|g.edges|] == g.edges;
  }

  /** What the search has established when the first `done` visited symbols are expanded. `visited`
      is the start symbol followed by everything found, each with its level. */
  ghost predicate Explored(g: CodeGraph, symbol: Symbol, depth: int, visited: seq<(Symbol, nat)>, done: nat) {
    && 1 <= |visited| && done <= |visited| && visited[0] == (symbol, 0)
    && (forall i | 1 <= i < |visited| :: 1 <= visited[i].1 <= depth && WalkInto(g, visited[i].0, symbol, visited[i].1))
    && (forall i, j | 0 <= i < j < |visited| :: visited[i].1 <= visited[j].1)
    && (forall i, j | 1 <= i < j < |visited| :: visited[i].0 != visited[j].0)
    && (forall i | 0 <= i < done && visited[i].1 < depth :: Expanded(g, visited, i))
  }

  /** Every caller of the i-th visited symbol was found no more than one level further out. */
  ghost predicate Expanded(g: CodeGraph, visited: seq<(Symbol, nat)>, i: nat)
    requires i < |visited|
  {
    forall caller | Calls(g, caller, visited[i].0) :: FoundWithin(visited, caller, visited[i].1 + 1)
  }

  ghost predicate FoundWithin(visited: seq<(Symbol, nat)>, x: Symbol, level: nat) {
    exists k | 1 <= k < |visited| :: visited[k].0 == x && visited[k].1 <= level
  }

  lemma FoundStays(visited: seq<(Symbol, nat)>, more: seq<(Symbol, nat)>, x: Symbol, level: nat)
    requires visited <= more && FoundWithin(visited, x, level)
    ensures FoundWithin(more, x, level)
  {
    var k :| 1 <= k < |visited| && visited[k].0 == x && visited[k].1 <= level;
    assert more[k] == visited[k];
  }

  /** Completeness: a finished search found every symbol within reach, at its distance or nearer. */
  lemma {:induction false} WithinReachIsFound(g: CodeGraph, symbol: Symbol, depth: int, visited: seq<(Symbol, nat)>,
                                              x: Symbol, length: nat)
    requires Explored(g, symbol, depth, visited, |visited|)
    requires 1 <= length <= depth && WalkInto(g, x, symbol, length)
    ensures FoundWithin(visited, x, length)
    decreases length
  {
    var next := WalkFirstStep(g, x, symbol, length);
    if length == 1 {
      WalkZero(g, next, symbol);
      assert Expanded(g, visited, 0);
    } else {
      WithinReachIsFound(g, symbol, depth, visited, next, length - 1);
      var k :| 1 <= k < |visited| && visited[k].0 == next && visited[k].1 <= length - 1;
      assert Expanded(g, visited, k);
      assert FoundWithin(visited, x, visited[k].1 + 1);
    }
  }

  function Names(visited: seq<(Symbol, nat)>): seq<Symbol> {
    seq(|visited|, i requires 0 <= i < |visited| => visited[i].0)
  }

  /** The program variables in terms of `visited`. */
  ghost predicate Tracks(visited: seq<(Symbol, nat)>, done: nat, seen: set<Symbol>, found: seq<Symbol>,
                         queue: seq<(Symbol, nat)>) {
    && 1 <= |visited| && done <= |visited|
    && found == Names(visited[1..]) && seen == (set x | x in found) && queue == visited[done..]
  }

  lemma AppendTracks(visited: seq<(Symbol, nat)>, done: nat, seen: set<Symbol>, found: seq<Symbol>,
                     queue: seq<(Symbol, nat)>,
                     x: Symbol, level: nat)
    requires Tracks(visited, done, seen, found, queue)
    ensures Tracks(visited + [(x, level)], done, seen + {x}, found + [x], queue + [(x, level)])
  {
    var more := visited + [(x, level)];
    assert more[1..] == visited[1..] + [(x, level)];
    assert Names(more[1..]) == Names(visited[1..]) + [x];
    assert (set y | y in found + [x]) == (set y | y in found) + {x};
  }

  lemma SeenIsFound(visited: seq<(Symbol, nat)>, done: nat, seen: set<Symbol>, found: seq<Symbol>,
                    queue: seq<(Symbol, nat)>, x: Symbol)
    requires Tracks(visited, done, seen, found, queue)
    ensures x in seen <==> exists k | 1 <= k < |visited| :: visited[k].0 == x
  {
    assert forall i | 0 <= i < |found| :: found[i] == visited[i + 1].0;
    if k :| 1 <= k < |visited| && visited[k].0 == x {
      assert found[k - 1] == x;
    }
  }

  lemma SeenIsNear(visited: seq<(Symbol, nat)>, done: nat, seen: set<Symbol>, found: seq<Symbol>,
                   queue: seq<(Symbol, nat)>,
                   x: Symbol, level: nat)
    requires Tracks(visited, done, seen, found, queue) && LevelsUpTo(visited, level)
    ensures x in seen ==> FoundWithin(visited, x, level)
    ensures x !in seen ==> forall k | 1 <= k < |visited| :: visited[k].0 != x
  {
    SeenIsFound(visited, done, seen, found, queue, x);
  }

  lemma FoundLast(visited: seq<(Symbol, nat)>, x: Symbol, level: nat)
    requires visited != []
    ensures FoundWithin(visited + [(x, level)], x, level)
  {
    assert (visited + [(x, level)])[|visited|] == (x, level);
  }

  lemma AppendExplored(g: CodeGraph, symbol: Symbol, depth: int, visited: seq<(Symbol, nat)>, done: nat,
                       caller: Symbol, level: nat)
    requires Explored(g, symbol, depth, visited, done) && level < depth
    requires WalkInto(g, caller, symbol, level + 1)
    requires forall i | 0 <= i < |visited| :: visited[i].1 <= level + 1
    requires forall i | 1 <= i < |visited| :: visited[i].0 != caller
    ensures Explored(g, symbol, depth, visited + [(caller, level + 1)], done)
  {
    var more := visited + [(caller, level + 1)];
    assert forall i | 0 <= i < |visited| :: more[i] == visited[i];
    forall i | 0 <= i < done && more[i].1 < depth
      ensures Expanded(g, more, i)
    {
      assert Expanded(g, visited, i);
      forall c | Calls(g, c, more[i].0)
        ensures FoundWithin(more, c, more[i].1 + 1)
      {
        FoundStays(visited, more, c, visited[i].1 + 1);
      }
    }
  }

  ghost predicate LevelsUpTo(visited: seq<(Symbol, nat)>, level: nat) {
    forall i | 0 <= i < |visited| :: visited[i].1 <= level
  }

  /** One caller: already seen, or found now. */
  method Visit(ghost g: CodeGraph, caller: Symbol, ghost symbol: Symbol, ghost depth: int,
               ghost visited: seq<(Symbol, nat)>, ghost done: nat,
               ghost current: Symbol, level: nat, seen: set<Symbol>, found: seq<Symbol>, queue: seq<(Symbol, nat)>)
    returns (seen': set<Symbol>, found': seq<Symbol>, queue': seq<(Symbol, nat)>, ghost visited': seq<(Symbol, nat)>)
    requires Calls(g, caller, current) && WalkInto(g, current, symbol, level) && level < depth
    requires Explored(g, symbol, depth, visited, done) && Tracks(visited, done + 1, seen, found, queue)
    requires LevelsUpTo(visited, level + 1)
    ensures visited <= visited' && Explored(g, symbol, depth, visited', done)
    ensures Tracks(visited', done + 1, seen', found', queue') && LevelsUpTo(visited', level + 1)
    ensures FoundWithin(visited', caller, level + 1)
  {
    seen', found', queue', visited' := seen, found, queue, visited;
    SeenIsNear(visited, done + 1, seen, found, queue, caller, level + 1);
    if caller !in seen {
      WalkExtends(g, caller, current, symbol, level);
      AppendExplored(g, symbol, depth, visited, done, caller, level);
      AppendTracks(visited, done + 1, seen, found, queue, caller, level + 1);
      seen' := seen + {caller};
      found' := found + [caller];
      queue' := queue + [(caller, level + 1)];
      visited' := visited + [(caller, level + 1)];
      FoundLast(visited, caller, level + 1);
    }
  }

  /** The first `n` callers were found no further out than `level`. */
  ghost predicate FoundFirst(visited: seq<(Symbol, nat)>, callers: seq<Symbol>, n: nat, level: nat) {
    n <= |callers| && forall k | 0 <= k < n :: FoundWithin(visited, callers[k], level)
  }

  lemma FoundOneMore(visited: seq<(Symbol, nat)>, more: seq<(Symbol, nat)>, callers: seq<Symbol>, n: nat, level: nat)
    requires visited <= more && FoundFirst(visited, callers, n, level) && n < |callers|
    requires FoundWithin(more, callers[n], level)
    ensures FoundFirst(more, callers, n + 1, level)
  {
    forall k | 0 <= k < n
      ensures FoundWithin(more, callers[k], level)
    {
      FoundStays(visited, more, callers[k], level);
    }
  }

  lemma ExpandedNow(g: CodeGraph, symbol: Symbol, depth: int, visited: seq<(Symbol, nat)>, done: nat,
                    callers: seq<Symbol>)
    requires Explored(g, symbol, depth, visited, done) && done < |visited|
    requires forall caller :: caller in callers <==> Calls(g, caller, visited[done].0)
    requires FoundFirst(visited, callers, |callers|, visited[done].1 + 1)
    ensures Explored(g, symbol, depth, visited, done + 1)
  {
    assert Expanded(g, visited, done) by {
      forall caller | Calls(g, caller, visited[done].0)
        ensures FoundWithin(visited, caller, visited[done].1 + 1)
      {
        var k :| 0 <= k < |callers| && callers[k] == caller;
        assert FoundWithin(visited, callers[k], visited[done].1 + 1);
      }
    }
  }

  /** Expands one symbol taken from the queue: its unseen callers join, one level further out. */
  method Expand(ghost g: CodeGraph, callers: seq<Symbol>, ghost symbol: Symbol, ghost depth: int,
                ghost visited: seq<(Symbol, nat)>, ghost done: nat,
                ghost current: Symbol, level: nat, seen: set<Symbol>, found: seq<Symbol>, queue: seq<(Symbol, nat)>)
    returns (seen': set<Symbol>, found': seq<Symbol>, queue': seq<(Symbol, nat)>, ghost visited': seq<(Symbol, nat)>)
    requires forall caller :: caller in callers <==> Calls(g, caller, current)
    requires Explored(g, symbol, depth, visited, done) && Tracks(visited, done + 1, seen, found, queue)
    requires visited[done] == (current, level) && level < depth
    requires WalkInto(g, current, symbol, level) && LevelsUpTo(visited, level + 1)
    ensures visited <= visited' && Explored(g, symbol, depth, visited', done + 1)
    ensures Tracks(visited', done + 1, seen', found', queue') && LevelsUpTo(visited', level + 1)
  {
    seen', found', queue', visited' := seen, found, queue, visited;
    for i := 0 to |callers|
      invariant visited <= visited' && Explored(g, symbol, depth, visited', done)
      invariant Tracks(visited', done + 1, seen', found', queue') && LevelsUpTo(visited', level + 1)
      invariant FoundFirst(visited', callers, i, level + 1)
    {
      ghost var before := visited';
      seen', found', queue', visited' :=
        Visit(g, callers[i], symbol, depth, visited', done, current, level, seen', found', queue');
      FoundOneMore(before, visited', callers, i, level + 1);
    }
    ExpandedNow(g, symbol, depth, visited', done, callers);
  }

  /** Every walk from `y` is at least as long as some walk from `x`. */
  ghost predicate NoFarther(g: CodeGraph, symbol: Symbol, x: Symbol, y: Symbol) {
    forall n: nat | 1 <= n && WalkInto(g, y, symbol, n) :: exists m: nat :: 1 <= m <= n && WalkInto(g, x, symbol, m)
  }

  ghost predicate WithinReach(g: CodeGraph, symbol: Symbol, depth: int, x: Symbol) {
    exists n: nat :: 1 <= n <= depth && WalkInto(g, x, symbol, n)
  }

  /** What the search reaches is built up from single edges: within one step lie the sources of the extracted calls and
      re-exports of the symbol, and each further step adds the direct callers of what was reached. */
  lemma ReachByEdges(g: CodeGraph, symbol: Symbol, depth: int, x: Symbol)
    ensures depth < 1 ==> !WithinReach(g, symbol, depth, x)
    ensures depth >= 1 ==>
              (WithinReach(g, symbol, depth, x) <==>
                exists e | e in g.edges ::
                  && e.source == x && e.confidence == "EXTRACTED" && e.relation in ["calls", "re_exports"]
                  && (e.target == symbol || WithinReach(g, symbol, depth - 1, e.target)))
  {
    if depth >= 1 && WithinReach(g, symbol, depth, x) {
      var n: nat :| 1 <= n <= depth && WalkInto(g, x, symbol, n);
      var next := WalkFirstStep(g, x, symbol, n);
      if n == 1 {
        WalkZero(g, next, symbol);
      }
    }
    if e :| e in g.edges && e.source == x && Blasts(e) && e.target == symbol && depth >= 1 {
      WalkZero(g, symbol, symbol);
      WalkExtends(g, x, symbol, symbol, 0);
    }
    if e :| e in g.edges && e.source == x && Blasts(e) && WithinReach(g, symbol, depth - 1, e.target) {
      var n: nat :| 1 <= n <= depth - 1 && WalkInto(g, e.target, symbol, n);
      WalkExtends(g, x, e.target, symbol, n);
    }
  }

  /** `blast_radius` returns exactly the symbols with a walk of 1 to `depth` counting edges into
      `symbol` (itself included when a short enough cycle exists), each once, and in order of
      distance. */
  method BlastRadius(g: CodeGraph, symbol: Symbol, depth: int) returns (found: seq<Symbol>)
    ensures forall x :: x in found <==> WithinReach(g, symbol, depth, x)
    ensures forall i, j | 0 <= i < j < |found| :: found[i] != found[j]
    ensures forall i, j | 0 <= i < j < |found| :: NoFarther(g, symbol, found[i], found[j])
  {
    var inbound, known := BuildInbound(g);
    if symbol !in known {
      forall x
        ensures !WithinReach(g, symbol, depth, x)
      {
        if n: nat :| 1 <= n <= depth && WalkInto(g, x, symbol, n) {
          LastStepIsEdge(g, x, symbol, n);
        }
      }
      return [];
    }
    var seen: set<Symbol> := {};
    var queue: seq<(Symbol, nat)> := [(symbol, 0)];
    found := [];
    ghost var visited: seq<(Symbol, nat)> := [(symbol, 0)];
    ghost var done := 0;
    WalkZero(g, symbol, symbol);
    while queue != []
      invariant Searching(g, symbol, depth, visited, done, seen, found, queue)
      decreases |Sources(g)| + 1 - |visited|, |queue|
    {
      seen, found, queue, visited := Next(g, inbound, symbol, depth, visited, done, seen, found, queue);
      done := done + 1;
    }
    FoundIsReach(g, symbol, depth, visited, found);
    FoundInOrder(g, symbol, depth, visited, found);
  }

  /** What the loop keeps. */
  ghost predicate Searching(g: CodeGraph, symbol: Symbol, depth: int, visited: seq<(Symbol, nat)>, done: nat,
                            seen: set<Symbol>, found: seq<Symbol>, queue: seq<(Symbol, nat)>)
  {
    && Explored(g, symbol, depth, visited, done) && Tracks(visited, done, seen, found, queue)
    && (done < |visited| ==> LevelsUpTo(visited, visited[done].1 + 1))
    && WalkInto(g, symbol, symbol, 0)
    && |visited| <= |Sources(g)| + 1
  }

  /** One turn of the loop: the head of the queue is dropped or expanded. */
  method Next(g: CodeGraph, inbound: map<Symbol, seq<Symbol>>, ghost symbol: Symbol, depth: int,
              ghost visited: seq<(Symbol, nat)>, ghost done: nat,
              seen: set<Symbol>, found: seq<Symbol>, queue: seq<(Symbol, nat)>)
    returns (seen': set<Symbol>, found': seq<Symbol>, queue': seq<(Symbol, nat)>, ghost visited': seq<(Symbol, nat)>)
    requires InboundTable(g.edges, inbound) && queue != []
    requires Searching(g, symbol, depth, visited, done, seen, found, queue)
    ensures Searching(g, symbol, depth, visited', done + 1, seen', found', queue')
    ensures |visited| < |visited'| || (visited == visited' && |queue'| < |queue|)
  {
    var (current, level) := queue[0];
    assert visited[done] == (current, level);
    seen', found', queue', visited' := seen, found, queue[1..], visited;
    if level < depth {
      var callers := if current in inbound then inbound[current] else [];
      assert forall caller :: caller in callers <==> Listed(inbound, caller, current);
      seen', found', queue', visited' :=
        Expand(g, callers, symbol, depth, visited, done, current, level, seen, found, queue');
      VisitedIsBounded(g, symbol, depth, visited', done + 1);
    }
  }

  function Sources(g: CodeGraph): set<Symbol> {
    set i | 0 <= i < |g.edges| :: g.edges[i].source
  }

  lemma LastStepIsEdge(g: CodeGraph, x: Symbol, symbol: Symbol, n: nat)
    requires 1 <= n && WalkInto(g, x, symbol, n)
    ensures exists i | 0 <= i < |g.edges| :: g.edges[i].target == symbol
  {
    var path :| IsWalk(g, path) && |path| == n + 1 && path[0] == x && path[n] == symbol;
    assert Calls(g, path[n - 1], path[n - 1 + 1]);
  }

  lemma {:induction false} DistinctSize(s: seq<Symbol>)
    requires forall i, j | 0 <= i < j < |s| :: s[i] != s[j]
    ensures |set x | x in s| == |s|
  {
    if s != [] {
      var front := s[..|s| - 1];
      DistinctSize(front);
      assert (set x | x in s) == (set x | x in front) + {s[|s| - 1]};
    }
  }

  /** Termination: only sources of edges are ever found, each once. */
  lemma VisitedIsBounded(g: CodeGraph, symbol: Symbol, depth: int, visited: seq<(Symbol, nat)>, done: nat)
    requires Explored(g, symbol, depth, visited, done)
    ensures |visited| <= |Sources(g)| + 1
  {
    var found := Names(visited[1..]);
    assert forall i | 0 <= i < |found| :: found[i] == visited[i + 1].0;
    var seen := set x | x in found;
    forall x | x in seen
      ensures x in Sources(g)
    {
      var k :| 0 <= k < |found| && found[k] == x;
      var next := WalkFirstStep(g, visited[k + 1].0, symbol, visited[k + 1].1);
    }
    DistinctSize(found);
    assert Sources(g) == seen + (Sources(g) - seen);
  }

  lemma FoundIsReach(g: CodeGraph, symbol: Symbol, depth: int, visited: seq<(Symbol, nat)>, found: seq<Symbol>)
    requires Explored(g, symbol, depth, visited, |visited|) && found == Names(visited[1..])
    ensures forall x :: x in found <==> WithinReach(g, symbol, depth, x)
  {
    assert forall i | 0 <= i < |found| :: found[i] == visited[i + 1].0;
    forall x
      ensures x in found <==> WithinReach(g, symbol, depth, x)
    {
      if x in found {
        var k :| 0 <= k < |found| && found[k] == x;
        assert WalkInto(g, visited[k + 1].0, symbol, visited[k + 1].1);
      }
      if n: nat :| 1 <= n <= depth && WalkInto(g, x, symbol, n) {
        WithinReachIsFound(g, symbol, depth, visited, x, n);
        var k :| 1 <= k < |visited| && visited[k].0 == x && visited[k].1 <= n;
        assert found[k - 1] == x;
      }
    }
  }

  lemma FoundInOrder(g: CodeGraph, symbol: Symbol, depth: int, visited: seq<(Symbol, nat)>, found: seq<Symbol>)
    requires Explored(g, symbol, depth, visited, |visited|) && found == Names(visited[1..])
    ensures forall i, j | 0 <= i < j < |found| :: found[i] != found[j]
    ensures forall i, j | 0 <= i < j < |found| :: NoFarther(g, symbol, found[i], found[j])
  {
    assert forall i | 0 <= i < |found| :: found[i] == visited[i + 1].0;
    forall i, j | 0 <= i < j < |found|
      ensures NoFarther(g, symbol, found[i], found[j])
    {
      var m := visited[i + 1].1;
      assert WalkInto(g, visited[i + 1].0, symbol, m);
      forall n: nat | 1 <= n && WalkInto(g, found[j], symbol, n)
        ensures m <= n
      {
        if n < m {
          WithinReachIsFound(g, symbol, depth, visited, found[j], n);
        }
      }
    }
  }
}
