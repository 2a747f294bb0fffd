/** Strongly connected components of the call graph by the two-pass algorithm of the
    effect checker: an iterative depth-first search that records the finishing order,
    then searches along incoming edges in reverse finishing order. */
module Components {
  import opened Reachability
  import opened CallGraphs

  // ---------------------------------------------------------------- first pass

  const WHITE := 0
  const GRAY := 1
  const BLACK := 2

  /** order[j] is in x's component and finished after everything x reaches. */
  ghost predicate AnchorAt(g: Graph, order: seq<nat>, x: nat, j: nat) {
    && j < |order|
    && Mutual(g, order[j], x)
    && forall y :: Reaches(g, x, y) ==> y in order[..j + 1]
  }

  ghost predicate Anchored(g: Graph, order: seq<nat>, x: nat) {
    exists j :: AnchorAt(g, order, x, j)
  }

  ghost predicate OnStack(g: Graph, stack: seq<nat>, x: nat) {
    exists s :: s in stack && Mutual(g, s, x)
  }

  /** What pass one establishes: the order lists every node once and anchors every node. */
  ghost predicate FinishingOrder(g: Graph, n: nat, order: seq<nat>) {
    && Distinct(order)
    && (forall u :: u in order ==> u < n)
    && (forall u: nat :: u < n ==> u in order)
    && forall u: nat :: u < n ==> Anchored(g, order, u)
  }

  /** A snapshot of the first pass: the colour of every node, the finished nodes, and the
      stack of open nodes with one edge cursor each. */
  datatype Search = Search(es: seq<Edge>, n: nat, state: seq<int>, order: seq<nat>, stack: seq<nat>, cursors: seq<int>) {

    ghost predicate Colours() {
      && |state| == n
      && Distinct(order) && Distinct(stack)
      && (forall u :: u in stack ==> u < n && state[u] == GRAY)
      && (forall u :: u in order ==> u < n && state[u] == BLACK)
      && (forall u: nat :: u < n && state[u] == GRAY ==> u in stack)
      && (forall u: nat :: u < n && state[u] == BLACK ==> u in order)
      && (forall u: nat :: u < n ==> state[u] == WHITE || state[u] == GRAY || state[u] == BLACK)
    }

    /** The stack is a path of the graph. */
    ghost predicate StackIsPath() {
      forall i, j :: 0 <= i <= j < |stack| ==> Reaches(EdgeSet(es), stack[i], stack[j])
    }

    /** Each cursor is over the frame's own edges, and those it passed lead to found nodes. */
    ghost predicate Cursors()
      requires |state| == n
    {
      && |cursors| == |stack|
      && (forall k :: 0 <= k < |es| ==> es[k].from < n && es[k].to < n)
      && forall i :: 0 <= i < |stack| ==> CursorOk(stack[i], cursors[i])
    }

    ghost predicate CursorOk(u: nat, cursor: int)
      requires |state| == n && forall k :: 0 <= k < |es| ==> es[k].from < n && es[k].to < n
    {
      && NONE <= cursor < |es|
      && (cursor >= 0 ==> es[cursor].from == u)
      && forall k :: cursor < k < |es| && es[k].from == u ==> state[es[k].to] != WHITE
    }

    /** Edges of finished nodes lead to nodes already found. */
    ghost predicate BlackClosed()
      requires |state| == n && forall k :: 0 <= k < |es| ==> es[k].from < n && es[k].to < n
    {
      forall k :: 0 <= k < |es| && state[es[k].from] == BLACK ==> state[es[k].to] != WHITE
    }

    ghost predicate Settled() {
      forall x :: x in order ==> OnStack(EdgeSet(es), stack, x) || Anchored(EdgeSet(es), order, x)
    }

    ghost predicate Valid() {
      Colours() && StackIsPath() && Cursors() && BlackClosed() && Settled()
    }

    ghost function Top(): nat requires stack != [] { stack[|stack| - 1] }
    ghost function TopCursor(): int requires stack != [] && |cursors| == |stack| { cursors[|stack| - 1] }

    ghost function Finish(): Search
      requires Valid() && stack != []
    {
      assert Top() in stack;
      this.(state := state[Top() := BLACK], order := order + [Top()],
            stack := stack[..|stack| - 1], cursors := cursors[..|stack| - 1])
    }

    ghost function Advance(): Search
      requires Valid() && stack != [] && TopCursor() >= 0
    {
      this.(cursors := cursors[|stack| - 1 := es[TopCursor()].nextOutgoing])
    }

    ghost function Enter(t: nat, first: int): Search
      requires |state| == n && t < n
    {
      this.(state := state[t := GRAY], stack := stack + [t], cursors := cursors + [first])
    }
  }

  lemma {:induction false} AnchorGrows(g: Graph, order: seq<nat>, x: nat, last: nat)
    requires Anchored(g, order, x)
    ensures Anchored(g, order + [last], x)
  {
    var j :| AnchorAt(g, order, x, j);
    assert (order + [last])[..j + 1] == order[..j + 1];
    assert AnchorAt(g, order + [last], x, j);
  }

  lemma {:induction false} SharesComponent(s: Search, t: nat)
    requires s.Valid() && s.stack != [] && t < s.n && s.state[t] == GRAY && t != s.Top()
    requires Reaches(EdgeSet(s.es), s.Top(), t)
    ensures OnStack(EdgeSet(s.es), s.stack[..|s.stack| - 1], s.Top())
  {
    var below := s.stack[..|s.stack| - 1];
    var i :| 0 <= i < |s.stack| && s.stack[i] == t;
    assert Reaches(EdgeSet(s.es), s.stack[i], s.stack[|s.stack| - 1]);
    assert below[i] == t;
    assert t in below && Mutual(EdgeSet(s.es), t, s.Top());
  }

  /** When the exhausted top shares no component with a frame below it, everything it
      reaches is already finished. */
  lemma {:induction false} FinishedReach(s: Search, y: nat)
    requires s.Valid() && s.stack != [] && s.TopCursor() == NONE
    requires !OnStack(EdgeSet(s.es), s.stack[..|s.stack| - 1], s.Top())
    requires Reaches(EdgeSet(s.es), s.Top(), y)
    ensures y in s.order || y == s.Top()
  {
    var g, x := EdgeSet(s.es), s.Top();
    var found := iset z: nat | Reaches(g, x, z) && (z in s.order || z == x);
    forall e | e in g && e.0 in found ensures e.1 in found {
      var k :| 0 <= k < |s.es| && e == (s.es[k].from, s.es[k].to);
      ReachesEdge(g, e.0, e.1);
      ReachesThrough(g, x, e.0, e.1);
      assert s.CursorOk(x, NONE);
      assert s.state[e.1] != WHITE;
      if s.state[e.1] == GRAY && e.1 != x {
        SharesComponent(s, e.1);
      }
    }
    ReachesSelf(g, x);
    ClosedUnderReach(g, found, x, y);
  }

  lemma {:induction false} FinishSettles(s: Search, z: nat)
    requires s.Valid() && s.stack != [] && s.TopCursor() == NONE
    requires z in s.order || z == s.Top()
    ensures OnStack(EdgeSet(s.es), s.stack[..|s.stack| - 1], z)
         || Anchored(EdgeSet(s.es), s.order + [s.Top()], z)
  {
    hide Search.Colours, Search.Cursors, Search.BlackClosed, Search.StackIsPath;
    var g, x, below := EdgeSet(s.es), s.Top(), s.stack[..|s.stack| - 1];
    ReachesSelf(g, x);
    if z in s.order && Anchored(g, s.order, z) {
      AnchorGrows(g, s.order, z, x);
    } else {
      assert x in s.stack && (z == x || OnStack(g, s.stack, z));
      var w :| w in s.stack && Mutual(g, w, z);
      var i :| 0 <= i < |s.stack| && s.stack[i] == w;
      if i < |below| {
        assert below[i] == w;
      } else if OnStack(g, below, x) {
        var v :| v in below && Mutual(g, v, x);
        ReachesThrough(g, v, x, z);
        ReachesThrough(g, z, x, v);
      } else {
        var order' := s.order + [x];
        forall y | Reaches(g, z, y) ensures y in order'[..|s.order| + 1] {
          ReachesThrough(g, x, z, y);
          FinishedReach(s, y);
          assert order'[..|s.order| + 1] == order';
        }
        assert AnchorAt(g, order', z, |s.order|);
      }
    }
  }

  lemma {:induction false} FinishColours(s: Search)
    requires s.Valid() && s.stack != []
    ensures s.Finish().Colours()
  {
    hide Search.Settled, Search.StackIsPath, Search.Cursors;
    var x, t := s.Top(), s.Finish();
    assert x in s.stack;
    forall u | u in s.stack && u != x ensures u in t.stack {
      var i :| 0 <= i < |s.stack| && s.stack[i] == u;
      assert t.stack[i] == u;
    }
    assert x !in t.stack && x !in s.order;
    assert forall u :: u in t.stack ==> u in s.stack;
    assert forall u :: u in t.order ==> u in s.order || u == x;
    assert Distinct(t.order);
    assert forall u: nat :: u < s.n && t.state[u] == BLACK ==> u in t.order;
  }

  /** Popping a frame whose edges are exhausted keeps the search invariant. */
  lemma {:induction false} FinishTop(s: Search)
    requires s.Valid() && s.stack != [] && s.TopCursor() == NONE
    ensures s.Finish().Valid()
  {
    hide OnStack, Anchored;
    var x, t := s.Top(), s.Finish();
    FinishColours(s);
    forall i | 0 <= i < |t.stack| ensures t.CursorOk(t.stack[i], t.cursors[i]) {
      assert s.CursorOk(s.stack[i], s.cursors[i]);
    }
    assert s.CursorOk(x, NONE);
    assert t.BlackClosed();
    forall z | z in t.order ensures OnStack(EdgeSet(t.es), t.stack, z) || Anchored(EdgeSet(t.es), t.order, z) {
      FinishSettles(s, z);
    }
  }

  /** Moving past an edge whose target is already found keeps the cursor invariant. */
  lemma {:induction false} CursorAdvances(s: Search, u: nat, k: int)
    requires |s.state| == s.n && Threaded(s.es, s.n)
    requires s.CursorOk(u, k) && k >= 0 && s.state[s.es[k].to] != WHITE
    ensures s.CursorOk(u, s.es[k].nextOutgoing)
  {
    assert LastFrom(s.es, k, u, s.es[k].nextOutgoing);
  }

  lemma {:induction false} SkipEdge(s: Search, i: nat)
    requires s.Valid() && Threaded(s.es, s.n) && i < |s.stack| && s.cursors[i] >= 0
    requires s.state[s.es[s.cursors[i]].to] != WHITE
    ensures s.(cursors := s.cursors[i := s.es[s.cursors[i]].nextOutgoing]).Valid()
  {
    var t := s.(cursors := s.cursors[i := s.es[s.cursors[i]].nextOutgoing]);
    assert s.CursorOk(s.stack[i], s.cursors[i]);
    CursorAdvances(s, s.stack[i], s.cursors[i]);
    forall j | 0 <= j < |t.stack| ensures t.CursorOk(t.stack[j], t.cursors[j]) {
      assert s.CursorOk(s.stack[j], if j == i then t.cursors[i] else s.cursors[j]);
    }
  }

  /** Entering an unvisited node, from an edge of the top frame or as a new root. */
  lemma {:induction false} EnterNode(s: Search, t: nat, first: int)
    requires s.Valid() && t < s.n && s.state[t] == WHITE
    requires s.stack == [] || (s.Top(), t) in EdgeSet(s.es)
    requires LastFrom(s.es, |s.es|, t, first)
    ensures s.Enter(t, first).Valid()
  {
    var g, r := EdgeSet(s.es), s.Enter(t, first);
    ReachesSelf(g, t);
    forall i, j | 0 <= i <= j < |r.stack| ensures Reaches(g, r.stack[i], r.stack[j]) {
      if i < j == |s.stack| {
        ReachesEdge(g, s.Top(), t);
        ReachesThrough(g, s.stack[i], s.Top(), t);
      }
    }
    assert r.stack[|s.stack|] == t;
    assert r.Colours();
    forall i | 0 <= i < |r.stack| ensures r.CursorOk(r.stack[i], r.cursors[i]) {
      assert i < |s.stack| ==> s.CursorOk(s.stack[i], s.cursors[i]);
    }
    forall x | x in r.order ensures OnStack(g, r.stack, x) || Anchored(g, r.order, x) {
      if OnStack(g, s.stack, x) {
        var w :| w in s.stack && Mutual(g, w, x);
        assert w in r.stack;
      }
    }
  }

  /** Scanning an edge to an unvisited node and pushing that node. */
  lemma {:induction false} PushTarget(s: Search, first: int)
    requires s.Valid() && Threaded(s.es, s.n) && s.stack != [] && s.TopCursor() >= 0
    requires s.state[s.es[s.TopCursor()].to] == WHITE
    requires LastFrom(s.es, |s.es|, s.es[s.TopCursor()].to, first)
    ensures s.Advance().Enter(s.es[s.TopCursor()].to, first).Valid()
  {
    var top, k := |s.stack| - 1, s.TopCursor();
    var t := s.es[k].to;
    assert s.CursorOk(s.stack[top], k);
    assert (s.Top(), t) in EdgeSet(s.es);
    EnterNode(s, t, first);
    hide Search.Colours, Search.StackIsPath, Search.BlackClosed, Search.Settled;
    var a := s.Enter(t, first);
    SkipEdge(a, top);
    assert s.Advance().Enter(t, first) == a.(cursors := a.cursors[top := s.es[k].nextOutgoing]);
  }

  /** The arrays of the search are long enough for its next step. */
  lemma {:induction false} StackFits(s: Search)
    requires s.Valid()
    ensures |s.state| == s.n && |s.stack| <= s.n && |s.order| <= s.n && |s.cursors| == |s.stack|
    ensures (exists u: nat :: u < s.n && s.state[u] == WHITE) ==> |s.stack| < s.n
    ensures s.stack != [] ==>
      && |s.order| < s.n
      && s.Top() < s.n && s.state[s.Top()] == GRAY
      && NONE <= s.TopCursor() < |s.es|
      && (s.TopCursor() >= 0 ==> s.es[s.TopCursor()].to < s.n)
  {
    DistinctBelow(s.stack, s.n);
    DistinctBelow(s.order, s.n);
    if u: nat :| u < s.n && s.state[u] == WHITE {
      DistinctBelow(s.stack + [u], s.n);
    }
    if s.stack != [] {
      assert s.Top() in s.stack;
      assert s.CursorOk(s.Top(), s.TopCursor());
      DistinctBelow(s.order + [s.Top()], s.n);
    }
  }

  ghost function Snapshot(es: seq<Edge>, state: array<int>, order: array<nat>, orderCount: nat,
                          stack: array<nat>, edgeStack: array<int>, stackCount: nat): (s: Search)
    requires stackCount <= stack.Length && stackCount <= edgeStack.Length && orderCount <= order.Length
    reads state, order, stack, edgeStack
  {
    Search(es, state.Length, state[..], order[..orderCount], stack[..stackCount], edgeStack[..stackCount])
  }

  ghost function Whites(state: seq<int>): set<nat> {
    set u: nat | u < |state| && state[u] == WHITE
  }

  /** One turn of the inner loop: finish the top node, or follow its next edge. */
  method Step(graph: CallGraph, state: array<int>, order: array<nat>, orderCount: nat,
              stack: array<nat>, edgeStack: array<int>, stackCount: nat)
    returns (orderCount': nat, stackCount': nat)
    requires graph.Valid()
    requires state.Length == order.Length == stack.Length == edgeStack.Length == graph.count
    requires order != stack && state != edgeStack
    requires state != graph.firstOutgoing && state != graph.firstIncoming
    requires edgeStack != graph.firstOutgoing && edgeStack != graph.firstIncoming
    requires 0 < stackCount <= stack.Length && orderCount <= order.Length
    requires Snapshot(graph.edges, state, order, orderCount, stack, edgeStack, stackCount).Valid()
    modifies state, order, stack, edgeStack
    ensures graph.Valid()
    ensures stackCount' <= stack.Length && orderCount' <= order.Length
    ensures Snapshot(graph.edges, state, order, orderCount', stack, edgeStack, stackCount').Valid()
    ensures forall u :: 0 <= u < state.Length && old(state[u]) == BLACK ==> state[u] == BLACK
    ensures forall u :: 0 <= u < state.Length && old(state[u]) != WHITE ==> state[u] != WHITE
    ensures || Whites(state[..]) < old(Whites(state[..]))
            || (&& Whites(state[..]) == old(Whites(state[..]))
                && (|| stackCount' < stackCount
                    || (stackCount' == stackCount && edgeStack[stackCount - 1] < old(edgeStack[stackCount - 1]))))
  {
    hide Search.Valid, LastFrom, LastTo, Threaded, EdgeSet;
    ghost var s := Snapshot(graph.edges, state, order, orderCount, stack, edgeStack, stackCount);
    StackFits(s);
    var top := stackCount - 1;
    var edge := edgeStack[top];
    if edge == NONE {
      FinishTop(s);
      var finished := stack[top];
      state[finished] := BLACK;
      order[orderCount] := finished;
      orderCount', stackCount' := orderCount + 1, stackCount - 1;
      assert s.Finish() == Snapshot(graph.edges, state, order, orderCount', stack, edgeStack, stackCount');
      assert Whites(state[..]) == Whites(s.state);
    } else {
      LinkGoesBack(graph.edges, graph.count, edge);
      edgeStack[top] := graph.edges[edge].nextOutgoing;
      var target := graph.edges[edge].to;
      orderCount' := orderCount;
      if state[target] == WHITE {
        PushTarget(s, graph.firstOutgoing[target]);
        state[target] := GRAY;
        stack[stackCount], edgeStack[stackCount] := target, graph.firstOutgoing[target];
        stackCount' := stackCount + 1;
        assert s.Advance().Enter(target, graph.firstOutgoing[target]) == Snapshot(graph.edges, state, order, orderCount', stack, edgeStack, stackCount');
        assert target in Whites(s.state) && target !in Whites(state[..]);
      } else {
        SkipEdge(s, top);
        stackCount' := stackCount;
        assert s.Advance() == Snapshot(graph.edges, state, order, orderCount', stack, edgeStack, stackCount');
      }
    }
  }

  lemma {:induction false} NothingFound(es: seq<Edge>, n: nat, state: seq<int>)
    requires Threaded(es, n) && |state| == n && forall u :: 0 <= u < n ==> state[u] == WHITE
    ensures Search(es, n, state, [], [], []).Valid()
  {
  }

  lemma {:induction false} AllFound(s: Search)
    requires s.Valid() && s.stack == [] && forall u :: 0 <= u < s.n ==> s.state[u] == BLACK
    ensures |s.order| == s.n && FinishingOrder(EdgeSet(s.es), s.n, s.order)
  {
    DistinctBelow(s.order, s.n);
    CoversBelow(s.order, s.n);
    forall u: nat | u < s.n ensures Anchored(EdgeSet(s.es), s.order, u) {
      assert s.state[u] == BLACK;
    }
  }

  /** The search from one unvisited root, until its stack is empty again. */
  method SearchFrom(graph: CallGraph, root: nat, state: array<int>, order: array<nat>, orderCount: nat,
                    stack: array<nat>, edgeStack: array<int>)
    returns (orderCount': nat)
    requires graph.Valid()
    requires state.Length == order.Length == stack.Length == edgeStack.Length == graph.count
    requires order != stack && state != edgeStack
    requires state != graph.firstOutgoing && state != graph.firstIncoming
    requires edgeStack != graph.firstOutgoing && edgeStack != graph.firstIncoming
    requires orderCount <= order.Length && root < graph.count && state[root] == WHITE
    requires Snapshot(graph.edges, state, order, orderCount, stack, edgeStack, 0).Valid()
    modifies state, order, stack, edgeStack
    ensures graph.Valid() && orderCount' <= order.Length
    ensures Snapshot(graph.edges, state, order, orderCount', stack, edgeStack, 0).Valid()
    ensures forall u :: 0 <= u < state.Length && old(state[u]) == BLACK ==> state[u] == BLACK
    ensures state[root] == BLACK
  {
    hide Search.Valid, LastFrom, LastTo, Threaded, EdgeSet;
    ghost var s := Snapshot(graph.edges, state, order, orderCount, stack, edgeStack, 0);
    EnterNode(s, root, graph.firstOutgoing[root]);
    stack[0], edgeStack[0], state[root] := root, graph.firstOutgoing[root], GRAY;
    var stackCount: nat := 1;
    orderCount' := orderCount;
    assert s.Enter(root, graph.firstOutgoing[root])
        == Snapshot(graph.edges, state, order, orderCount, stack, edgeStack, stackCount);
    while stackCount != 0
      invariant graph.Valid() && stackCount <= stack.Length && orderCount' <= order.Length
      invariant Snapshot(graph.edges, state, order, orderCount', stack, edgeStack, stackCount).Valid()
      invariant forall u :: 0 <= u < state.Length && old(state[u]) == BLACK ==> state[u] == BLACK
      invariant state[root] != WHITE
      decreases Whites(state[..]), stackCount, if stackCount == 0 then 0 else edgeStack[stackCount - 1] + 1
    {
      StackFits(Snapshot(graph.edges, state, order, orderCount', stack, edgeStack, stackCount));
      orderCount', stackCount := Step(graph, state, order, orderCount', stack, edgeStack, stackCount);
    }
    EmptyStack(Snapshot(graph.edges, state, order, orderCount', stack, edgeStack, 0), root);
  }

  lemma {:induction false} EmptyStack(s: Search, u: nat)
    requires s.Valid() && s.stack == [] && u < s.n && s.state[u] != WHITE
    ensures s.state[u] == BLACK
  {
  }

  /** Pass one: every node once, in finishing order. */
  method FinishOrder(graph: CallGraph, state: array<int>, order: array<nat>, stack: array<nat>, edgeStack: array<int>)
    requires graph.Valid()
    requires state.Length == order.Length == stack.Length == edgeStack.Length == graph.count
    requires order != stack && state != edgeStack
    requires state != graph.firstOutgoing && state != graph.firstIncoming
    requires edgeStack != graph.firstOutgoing && edgeStack != graph.firstIncoming
    requires forall u :: 0 <= u < state.Length ==> state[u] == WHITE
    modifies state, order, stack, edgeStack
    ensures FinishingOrder(EdgeSet(graph.edges), graph.count, order[..])
  {
    hide Search.Valid, FinishingOrder, LastFrom, LastTo, Threaded, EdgeSet;
    var orderCount: nat := 0;
    NothingFound(graph.edges, graph.count, state[..]);
    var root := 0;
    while root < graph.count
      invariant 0 <= root <= graph.count && orderCount <= graph.count && graph.Valid()
      invariant Snapshot(graph.edges, state, order, orderCount, stack, edgeStack, 0).Valid()
      invariant forall u :: 0 <= u < root ==> state[u] == BLACK
    {
      if state[root] == WHITE {
        orderCount := SearchFrom(graph, root, state, order, orderCount, stack, edgeStack);
      } else {
        EmptyStack(Snapshot(graph.edges, state, order, orderCount, stack, edgeStack, 0), root);
      }
      root := root + 1;
    }
    AllFound(Snapshot(graph.edges, state, order, orderCount, stack, edgeStack, 0));
    assert order[..orderCount] == order[..];
  }

  // --------------------------------------------------------------- second pass

  /** Components numbered so far: each is a whole strongly connected component, and every
      predecessor of a numbered node is numbered, no later. */
  ghost predicate Numbered(g: Graph, n: nat, component: seq<int>, count: nat) {
    && |component| == n
    && (forall e :: e in g ==> e.0 < n && e.1 < n)
    && (forall u: nat :: u < n ==> NONE <= component[u] < count)
    && (forall u: nat, v: nat :: u < n && v < n && component[u] >= 0 && component[v] >= 0 ==>
          (component[u] == component[v] <==> Mutual(g, u, v)))
    && (forall e :: e in g && component[e.1] >= 0 ==> 0 <= component[e.0] <= component[e.1])
  }

  /** The traversal that collects one component: new members all reach the root. */
  ghost predicate Collected(g: Graph, n: nat, before: seq<int>, component: seq<int>, count: nat, root: nat, stack: seq<nat>) {
    && Numbered(g, n, before, count)
    && |component| == n && root < n
    && before[root] == NONE && component[root] == count
    && (forall u: nat :: u < n && component[u] != before[u] ==>
          before[u] == NONE && component[u] == count && Reaches(g, u, root))
    && Distinct(stack)
    && (forall u :: u in stack ==> u < n && component[u] == count)
  }

  /** Between two pops: only members still on the stack may have unnumbered predecessors. */
  ghost predicate Collecting(g: Graph, n: nat, before: seq<int>, component: seq<int>, count: nat, root: nat, stack: seq<nat>) {
    && Collected(g, n, before, component, count, root, stack)
    && (forall e :: e in g && component[e.1] == count && e.1 !in stack ==> component[e.0] >= 0)
  }

  /** While the predecessors of current are scanned: its edges above the cursor are done. */
  ghost predicate Scanning(es: seq<Edge>, n: nat, before: seq<int>, component: seq<int>, count: nat, root: nat, stack: seq<nat>, current: nat, edge: int) {
    && Collected(EdgeSet(es), n, before, component, count, root, stack)
    && current < n && component[current] == count && current !in stack
    && NONE <= edge < |es| && (edge >= 0 ==> es[edge].to == current)
    && (forall k :: 0 <= k < |es| ==> es[k].from < n && es[k].to < n)
    && (forall k :: 0 <= k < |es| && component[es[k].to] == count && es[k].to !in stack && es[k].to != current ==>
          component[es[k].from] >= 0)
    && (forall k :: edge < k < |es| && es[k].to == current ==> component[es[k].from] >= 0)
  }

  /** Everything that reaches a numbered node is numbered. */
  lemma {:induction false} NumberedUpstream(g: Graph, n: nat, component: seq<int>, count: nat, u: nat, v: nat)
    requires Numbered(g, n, component, count)
    requires u < n && v < n && component[v] >= 0 && Reaches(g, u, v)
    ensures component[u] >= 0
  {
    ClosedUnderCoreach(g, (iset w: nat | w < n && component[w] >= 0), u, v);
  }

  /** The collected nodes are exactly the root's component, so the numbering extends. */
  lemma {:induction false} CollectedComponent(g: Graph, n: nat, order: seq<nat>, before: seq<int>, component: seq<int>, count: nat, root: nat, at: nat)
    requires FinishingOrder(g, n, order)
    requires Collecting(g, n, before, component, count, root, [])
    requires at < |order| && order[at] == root
    requires forall j :: at < j < |order| ==> order[j] < n && before[order[j]] >= 0
    ensures Numbered(g, n, component, count + 1)
  {
    forall u: nat | u < n && component[u] == count ensures Mutual(g, u, root) {
      CollectedMutual(g, n, order, before, component, count, root, at, u);
    }
    forall u: nat, v: nat | u < n && v < n && component[u] >= 0 && component[v] >= 0
      ensures component[u] == component[v] <==> Mutual(g, u, v)
    {
      if component[u] == component[v] == count {
        ReachesThrough(g, u, root, v);
        ReachesThrough(g, v, root, u);
      } else if component[u] == count && Mutual(g, u, v) {
        NumberedUpstream(g, n, before, count, u, v);
      } else if component[v] == count && Mutual(g, u, v) {
        NumberedUpstream(g, n, before, count, v, u);
      }
    }
  }

  /** A collected node reaches the root by construction; that the root reaches it back is
      where the finishing order is used. */
  lemma {:induction false} CollectedMutual(g: Graph, n: nat, order: seq<nat>, before: seq<int>, component: seq<int>, count: nat, root: nat, at: nat, u: nat)
    requires FinishingOrder(g, n, order)
    requires Collecting(g, n, before, component, count, root, [])
    requires at < |order| && order[at] == root
    requires forall j :: at < j < |order| ==> order[j] < n && before[order[j]] >= 0
    requires u < n && component[u] == count
    ensures Mutual(g, u, root)
  {
    if u == root {
      ReachesSelf(g, u);
    } else {
      assert Anchored(g, order, u);
      var j: nat :| AnchorAt(g, order, u, j);
      var w := order[j];
      assert root in order[..j + 1];
      var i :| 0 <= i < j + 1 && order[i] == root;
      assert i == at;
      if at < j {
        NumberedUpstream(g, n, before, count, u, w);
      }
    }
  }

  /** Numbers everything that reaches root and has no number yet. */
  method Collect(graph: CallGraph, component: array<int>, count: nat, root: nat, stack: array<nat>)
    requires graph.Valid() && component.Length == stack.Length == graph.count
    requires component != graph.firstOutgoing && component != graph.firstIncoming
    requires root < graph.count && component[root] == NONE
    requires Numbered(EdgeSet(graph.edges), graph.count, component[..], count)
    modifies component, stack
    ensures graph.Valid()
    ensures Collecting(EdgeSet(graph.edges), graph.count, old(component[..]), component[..], count, root, [])
  {
    var stackCount: nat := 1;
    stack[0], component[root] := root, count;
    CollectStart(EdgeSet(graph.edges), graph.count, old(component[..]), count, root);
    assert stack[..1] == [root];
    hide Numbered, Collecting;
    while stackCount != 0
      invariant graph.Valid() && stackCount <= stack.Length
      invariant Collecting(EdgeSet(graph.edges), graph.count, old(component[..]), component[..], count, root, stack[..stackCount])
      decreases Unnumbered(component[..]), stackCount
    {
      stackCount := CollectStep(graph, component, count, root, stack, stackCount, old(component[..]));
    }
    assert stack[..0] == [];
  }

  ghost function Unnumbered(component: seq<int>): set<nat> {
    set u: nat | u < |component| && component[u] == NONE
  }

  lemma {:induction false} CollectStart(g: Graph, n: nat, before: seq<int>, count: nat, root: nat)
    requires Numbered(g, n, before, count) && root < n && before[root] == NONE
    ensures Collecting(g, n, before, before[root := count], count, root, [root])
  {
    ReachesSelf(g, root);
  }

  lemma {:induction false} ScanStart(es: seq<Edge>, n: nat, before: seq<int>, component: seq<int>, count: nat, root: nat, stack: seq<nat>, current: nat, edge: int)
    requires Collecting(EdgeSet(es), n, before, component, count, root, stack + [current])
    requires Threaded(es, n) && LastTo(es, |es|, current, edge)
    ensures Scanning(es, n, before, component, count, root, stack, current, edge)
  {
    assert (stack + [current])[|stack|] == current;
    assert current in stack + [current];
    assert forall u :: u in stack ==> u in stack + [current];
    assert forall i :: 0 <= i < |stack| ==> stack[i] == (stack + [current])[i];
    forall k | 0 <= k < |es| && component[es[k].to] == count && es[k].to !in stack && es[k].to != current
      ensures component[es[k].from] >= 0
    {
      assert (es[k].from, es[k].to) in EdgeSet(es);
    }
  }

  lemma {:induction false} ScanNext(es: seq<Edge>, n: nat, before: seq<int>, component: seq<int>, count: nat, root: nat, stack: seq<nat>, current: nat, edge: int)
    requires Scanning(es, n, before, component, count, root, stack, current, edge)
    requires Threaded(es, n) && edge >= 0 && component[es[edge].from] != NONE
    ensures Scanning(es, n, before, component, count, root, stack, current, es[edge].nextIncoming)
  {
    assert component[es[edge].from] >= 0;
    hide Collected;
    assert LastTo(es, edge, current, es[edge].nextIncoming);
  }

  lemma {:induction false} ScanPush(es: seq<Edge>, n: nat, before: seq<int>, component: seq<int>, count: nat, root: nat, stack: seq<nat>, current: nat, edge: int)
    requires Scanning(es, n, before, component, count, root, stack, current, edge)
    requires Threaded(es, n) && edge >= 0 && component[es[edge].from] == NONE
    ensures |stack| + 1 < n
    ensures Scanning(es, n, before, component[es[edge].from := count], count, root, stack + [es[edge].from], current, edge)
  {
    var g, u := EdgeSet(es), es[edge].from;
    assert (u, current) in g;
    ReachesEdge(g, u, current);
    if current == root { ReachesSelf(g, root); }
    ReachesThrough(g, u, current, root);
    assert u !in stack && u != current;
    DistinctBelow(stack + [current] + [u], n);
  }

  lemma {:induction false} ScanDone(es: seq<Edge>, n: nat, before: seq<int>, component: seq<int>, count: nat, root: nat, stack: seq<nat>, current: nat)
    requires Scanning(es, n, before, component, count, root, stack, current, NONE)
    ensures Collecting(EdgeSet(es), n, before, component, count, root, stack)
  {
    forall e | e in EdgeSet(es) && component[e.1] == count && e.1 !in stack ensures component[e.0] >= 0 {
      var k :| 0 <= k < |es| && e == (es[k].from, es[k].to);
    }
  }

  lemma {:induction false} StackedInRange(g: Graph, n: nat, before: seq<int>, component: seq<int>, count: nat, root: nat, stack: seq<nat>, k: nat)
    requires Collecting(g, n, before, component, count, root, stack) && k < |stack|
    ensures stack[k] < n
  {
    assert stack[k] in stack;
  }

  /** Numbers one node and pushes it. */
  method Claim(component: array<int>, count: nat, u: nat, stack: array<nat>, stackCount: nat) returns (stackCount': nat)
    requires u < component.Length && component[u] == NONE && stackCount < stack.Length
    modifies component, stack
    ensures stackCount' == stackCount + 1
    ensures component[..] == old(component[..])[u := count]
    ensures stack[..stackCount'] == old(stack[..stackCount]) + [u]
    ensures Unnumbered(component[..]) < old(Unnumbered(component[..]))
  {
    assert u in Unnumbered(component[..]);
    component[u] := count;
    stack[stackCount] := u;
    stackCount' := stackCount + 1;
    assert u !in Unnumbered(component[..]);
  }

  /** Pops one node and numbers its unnumbered predecessors. */
  method CollectStep(graph: CallGraph, component: array<int>, count: nat, root: nat, stack: array<nat>, stackCount: nat, ghost before: seq<int>)
    returns (stackCount': nat)
    requires graph.Valid() && component.Length == stack.Length == graph.count
    requires component != graph.firstOutgoing && component != graph.firstIncoming
    requires 0 < stackCount <= stack.Length
    requires Collecting(EdgeSet(graph.edges), graph.count, before, component[..], count, root, stack[..stackCount])
    modifies component, stack
    ensures graph.Valid() && stackCount' <= stack.Length
    ensures Collecting(EdgeSet(graph.edges), graph.count, before, component[..], count, root, stack[..stackCount'])
    ensures Unnumbered(component[..]) <= old(Unnumbered(component[..]))
    ensures Unnumbered(component[..]) == old(Unnumbered(component[..])) ==> stackCount' < stackCount
  {
    hide Collecting, Scanning, LastFrom, LastTo, Unnumbered, EdgeSet, Threaded;
    stackCount' := stackCount - 1;
    var current := stack[stackCount'];
    StackedInRange(EdgeSet(graph.edges), graph.count, before, component[..], count, root, stack[..stackCount], stackCount');
    var edge := graph.firstIncoming[current];
    assert stack[..stackCount] == stack[..stackCount'] + [current];
    ScanStart(graph.edges, graph.count, before, component[..], count, root, stack[..stackCount'], current, edge);
    while edge != NONE
      invariant graph.Valid() && stackCount' < stack.Length && NONE <= edge < |graph.edges|
      invariant Scanning(graph.edges, graph.count, before, component[..], count, root, stack[..stackCount'], current, edge)
      invariant Unnumbered(component[..]) <= old(Unnumbered(component[..]))
      invariant Unnumbered(component[..]) == old(Unnumbered(component[..])) ==> stackCount' < stackCount
      decreases edge
    {
      var source := graph.edges[edge].from;
      if component[source] == NONE {
        ScanPush(graph.edges, graph.count, before, component[..], count, root, stack[..stackCount'], current, edge);
        stackCount' := Claim(component, count, source, stack, stackCount');
      }
      ScanNext(graph.edges, graph.count, before, component[..], count, root, stack[..stackCount'], current, edge);
      LinkGoesBack(graph.edges, graph.count, edge);
      edge := graph.edges[edge].nextIncoming;
    }
    ScanDone(graph.edges, graph.count, before, component[..], count, root, stack[..stackCount'], current);
  }

  lemma {:induction false} LinkGoesBack(es: seq<Edge>, n: nat, k: nat)
    requires Threaded(es, n) && k < |es|
    ensures NONE <= es[k].nextIncoming < k && NONE <= es[k].nextOutgoing < k
  {
    assert LastTo(es, k, es[k].to, es[k].nextIncoming) && LastFrom(es, k, es[k].from, es[k].nextOutgoing);
  }

  /** The numbering that the checker uses: equal numbers exactly for mutually reachable
      definitions, and no edge leads to a smaller number. */
  ghost predicate IsComponentNumbering(g: Graph, n: nat, component: seq<int>, count: nat) {
    && |component| == n
    && (forall u: nat :: u < n ==> 0 <= component[u] < count)
    && (forall u: nat, v: nat :: u < n && v < n ==> (component[u] == component[v] <==> Mutual(g, u, v)))
    && (forall e :: e in g ==> e.0 < n && e.1 < n && component[e.0] <= component[e.1])
  }

  method FindComponents(graph: CallGraph) returns (component: array<int>, count: nat)
    requires graph.Valid()
    ensures fresh(component) && component.Length == graph.count
    ensures IsComponentNumbering(EdgeSet(graph.edges), graph.count, component[..], count)
  {
    var n := graph.count;
    var state := new int[n](_ => WHITE);
    component := new int[n](_ => NONE);
    var order := new nat[n](_ => 0);
    var stack := new nat[n](_ => 0);
    var edgeStack := new int[n](_ => NONE);
    FinishOrder(graph, state, order, stack, edgeStack);
    count := NumberAll(graph, component, order, stack);
  }

  /** Pass two: collects components in reverse finishing order. */
  method NumberAll(graph: CallGraph, component: array<int>, order: array<nat>, stack: array<nat>) returns (count: nat)
    requires graph.Valid() && component.Length == order.Length == stack.Length == graph.count
    requires component != graph.firstOutgoing && component != graph.firstIncoming && order != stack
    requires forall u :: 0 <= u < component.Length ==> component[u] == NONE
    requires FinishingOrder(EdgeSet(graph.edges), graph.count, order[..])
    modifies component, stack
    ensures IsComponentNumbering(EdgeSet(graph.edges), graph.count, component[..], count)
  {
    hide Collecting, Numbered, LastFrom, LastTo, Threaded, EdgeSet, FinishingOrder, IsComponentNumbering;
    ghost var g, n := EdgeSet(graph.edges), graph.count;
    count := 0;
    var orderCount := order.Length;
    NoneNumbered(graph.edges, n, component[..]);
    while orderCount != 0
      invariant graph.Valid() && 0 <= orderCount <= order.Length
      invariant Numbered(g, n, component[..], count)
      invariant forall j :: orderCount <= j < order.Length ==> order[j] < n && component[order[j]] >= 0
    {
      orderCount := orderCount - 1;
      var root := order[orderCount];
      ListedInRange(g, n, order[..], orderCount);
      if component[root] == NONE {
        ghost var before := component[..];
        Collect(graph, component, count, root, stack);
        CollectedComponent(g, n, order[..], before, component[..], count, root, orderCount);
        CollectGrows(g, n, before, component[..], count, root);
        assert component[root] == count;
        count := count + 1;
      } else {
        NumbersAreSmall(g, n, component[..], count, root);
      }
    }
    Complete(g, n, order[..], component[..], count);
  }

  lemma {:induction false} ListedInRange(g: Graph, n: nat, order: seq<nat>, k: nat)
    requires FinishingOrder(g, n, order) && k < |order|
    ensures order[k] < n
  {
    assert order[k] in order;
  }

  lemma {:induction false} NoneNumbered(es: seq<Edge>, n: nat, component: seq<int>)
    requires Threaded(es, n) && |component| == n && forall u :: 0 <= u < n ==> component[u] == NONE
    ensures Numbered(EdgeSet(es), n, component, 0)
  {
  }

  lemma {:induction false} CollectGrows(g: Graph, n: nat, before: seq<int>, component: seq<int>, count: nat, root: nat)
    requires Collecting(g, n, before, component, count, root, [])
    ensures |component| == |before| == n && root < n && component[root] == count
    ensures forall u :: 0 <= u < n && before[u] >= 0 ==> component[u] == before[u]
  {
  }

  lemma {:induction false} NumbersAreSmall(g: Graph, n: nat, component: seq<int>, count: nat, u: nat)
    requires Numbered(g, n, component, count) && u < n
    ensures |component| == n && NONE <= component[u] < count
  {
  }

  lemma {:induction false} Complete(g: Graph, n: nat, order: seq<nat>, component: seq<int>, count: nat)
    requires Numbered(g, n, component, count) && FinishingOrder(g, n, order)
    requires forall j :: 0 <= j < |order| ==> order[j] < n && component[order[j]] >= 0
    ensures IsComponentNumbering(g, n, component, count)
  {
    forall u: nat | u < n ensures component[u] >= 0 {
      assert u in order;
    }
  }
}
