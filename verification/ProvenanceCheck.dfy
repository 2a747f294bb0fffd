/** The validation of stored origins: a three-colour depth-first search with a stack of
    fixed size over expressions and locals. */
module ProvenanceCheck {
  import opened Reachability

  /** Nodes are expressions, then locals; deps lists what each node's origin depends on, in
      the order in which the search pushes it. */
  datatype Forest = Forest(expressions: nat, deps: seq<seq<nat>>)

  function Count(g: Forest): nat { |g.deps| }

  /** A path expression depends on its local, a local on its initializer. */
  ghost predicate Linear(g: Forest, u: nat)
    requires u < |g.deps|
  {
    && |g.deps[u]| <= 1
    && (u >= g.expressions || (g.deps[u] != [] ==> g.deps[u][0] >= g.expressions))
  }

  ghost predicate Branching(g: Forest, u: nat)
    requires u < |g.deps|
  {
    u < g.expressions && forall i :: 0 <= i < |g.deps[u]| ==> g.deps[u][i] < g.expressions
  }

  ghost predicate DependsOn(g: Forest, u: nat, i: nat, x: nat) {
    u < |g.deps| && i < |g.deps[u]| && g.deps[u][i] == x
  }

  /** Expressions form a forest: as an operand, an expression has one parent and one place. */
  ghost predicate WellFormed(g: Forest) {
    && g.expressions <= |g.deps|
    && (forall u: nat, i: nat, x: nat :: DependsOn(g, u, i, x) ==> x < |g.deps|)
    && (forall u :: 0 <= u < |g.deps| ==> Linear(g, u) || Branching(g, u))
    && (forall u: nat, v: nat, i: nat, j: nat, x: nat :: DependsOn(g, u, i, x) && DependsOn(g, v, j, x) && Branching(g, u) && Branching(g, v) ==> u == v && i == j)
  }

  ghost function GraphOf(g: Forest): Graph {
    set u, i | 0 <= u < |g.deps| && 0 <= i < |g.deps[u]| :: (u, g.deps[u][i])
  }

  ghost predicate Acyclic(g: Forest) {
    forall u, v :: (u, v) in GraphOf(g) ==> !Reaches(GraphOf(g), v, u)
  }

  // -------------------------------------------------------------------- the stack

  datatype Entry = Entry(node: nat, exiting: bool)

  /** A node on the current path, and how many of its dependencies are still to be seen:
      they lie on the stack above its exit entry, and are taken from the last. */
  datatype Frame = Frame(node: nat, rest: nat)

  function Pushed(nodes: seq<nat>): (s: seq<Entry>)
    ensures |s| == |nodes| && forall i :: 0 <= i < |s| ==> s[i] == Entry(nodes[i], false)
  {
    seq(|nodes|, i requires 0 <= i < |nodes| => Entry(nodes[i], false))
  }

  ghost predicate FramesFit(g: Forest, fs: seq<Frame>) {
    forall k :: 0 <= k < |fs| ==> fs[k].node < |g.deps| && fs[k].rest <= |g.deps[fs[k].node]|
  }

  ghost function Flat(g: Forest, fs: seq<Frame>): seq<Entry>
    requires FramesFit(g, fs)
  {
    if fs == [] then []
    else
      var f := fs[|fs| - 1];
      Flat(g, fs[..|fs| - 1]) + [Entry(f.node, true)] + Pushed(g.deps[f.node][..f.rest])
  }

  ghost predicate Chained(g: Forest, fs: seq<Frame>) {
    && FramesFit(g, fs)
    && forall k :: 0 <= k < |fs| - 1 ==> DependsOn(g, fs[k].node, fs[k].rest, fs[k + 1].node)
  }

  ghost function PathNodes(fs: seq<Frame>): (s: seq<nat>)
    ensures |s| == |fs| && forall i :: 0 <= i < |s| ==> s[i] == fs[i].node
  {
    seq(|fs|, i requires 0 <= i < |fs| => fs[i].node)
  }

  // --------------------------------------------------------------- the stack bound

  ghost function Pending(g: Forest, fs: seq<Frame>): seq<nat>
    requires FramesFit(g, fs)
  {
    if fs == [] then []
    else Pending(g, fs[..|fs| - 1]) + g.deps[fs[|fs| - 1].node][..fs[|fs| - 1].rest]
  }

  lemma {:induction false} FlatSize(g: Forest, fs: seq<Frame>)
    requires FramesFit(g, fs)
    ensures |Flat(g, fs)| == |fs| + |Pending(g, fs)|
  {
    if fs != [] { FlatSize(g, fs[..|fs| - 1]); }
  }

  /** A frame whose pending entries are operands of an expression. */
  ghost predicate Operands(g: Forest, f: Frame)
    requires f.node < |g.deps|
  {
    f.rest == 0 || Branching(g, f.node)
  }

  lemma {:induction false} PendingFrom(g: Forest, fs: seq<Frame>, x: nat) returns (k: nat, i: nat)
    requires FramesFit(g, fs) && x in Pending(g, fs)
    ensures k < |fs| && i < fs[k].rest && DependsOn(g, fs[k].node, i, x)
  {
    var n := |fs| - 1;
    if x in Pending(g, fs[..n]) {
      k, i := PendingFrom(g, fs[..n], x);
    } else {
      k := n;
      i :| 0 <= i < fs[n].rest && g.deps[fs[n].node][..fs[n].rest][i] == x;
    }
  }

  /** Below the topmost dependencies, no expression is pending twice. */
  lemma {:induction false} PendingDistinct(g: Forest, fs: seq<Frame>)
    requires WellFormed(g) && FramesFit(g, fs) && Distinct(PathNodes(fs))
    requires forall k :: 0 <= k < |fs| ==> Operands(g, fs[k])
    ensures Distinct(Pending(g, fs)) && forall x :: x in Pending(g, fs) ==> x < g.expressions
  {
    if fs != [] {
      var n := |fs| - 1;
      var a, b := Pending(g, fs[..n]), g.deps[fs[n].node][..fs[n].rest];
      assert forall k :: 0 <= k < n ==> PathNodes(fs[..n])[k] == PathNodes(fs)[k];
      PendingDistinct(g, fs[..n]);
      forall i, j | 0 <= i < |a| && 0 <= j < |b| ensures a[i] != b[j] {
        assert a[i] in a;
        var k, m := PendingFrom(g, fs[..n], a[i]);
        assert DependsOn(g, fs[n].node, j, b[j]) && Operands(g, fs[k]) && Operands(g, fs[n]);
        assert PathNodes(fs)[k] != PathNodes(fs)[n];
      }
      forall i, j | 0 <= i < j < |b| ensures b[i] != b[j] {
        assert DependsOn(g, fs[n].node, i, b[i]) && DependsOn(g, fs[n].node, j, b[j]) && Operands(g, fs[n]);
      }
      forall x | x in b ensures x < g.expressions {
        var j :| 0 <= j < |b| && b[j] == x;
        assert Operands(g, fs[n]) && g.deps[fs[n].node][j] == x;
      }
    }
  }

  /** The stack never holds more than twice as many entries as there are nodes. */
  lemma {:induction false} StackBound(g: Forest, fs: seq<Frame>)
    requires WellFormed(g) && Chained(g, fs) && Distinct(PathNodes(fs)) && fs != []
    ensures |Flat(g, fs)| <= 2 * Count(g)
  {
    FlatSize(g, fs);
    DistinctBelow(PathNodes(fs), Count(g));
    var n := |fs| - 1;
    forall k | 0 <= k < n ensures Operands(g, fs[k]) {
      assert DependsOn(g, fs[k].node, fs[k].rest, fs[k + 1].node);
      assert Linear(g, fs[k].node) || Branching(g, fs[k].node);
    }
    assert Linear(g, fs[n].node) || Branching(g, fs[n].node);
    if Operands(g, fs[n]) {
      PendingDistinct(g, fs);
      DistinctBelow(Pending(g, fs), g.expressions);
    } else {
      assert forall k :: 0 <= k < n ==> PathNodes(fs[..n])[k] == PathNodes(fs)[k];
      PendingDistinct(g, fs[..n]);
      DistinctBelow(Pending(g, fs[..n]), g.expressions);
      assert DependsOn(g, fs[n].node, 0, g.deps[fs[n].node][0]);
    }
  }

  // ------------------------------------------------------------ live entries per node

  /** How often a node is on the stack. */
  ghost function Live(s: seq<Entry>, v: nat): nat {
    if s == [] then 0 else Live(s[..|s| - 1], v) + if s[|s| - 1].node == v then 1 else 0
  }

  lemma {:induction false} LiveJoin(x: seq<Entry>, y: seq<Entry>, v: nat)
    ensures Live(x + y, v) == Live(x, v) + Live(y, v)
    decreases |y|
  {
    if y == [] {
      assert x + y == x;
    } else {
      assert (x + y)[..|x + y| - 1] == x + y[..|y| - 1];
      LiveJoin(x, y[..|y| - 1], v);
    }
  }

  lemma {:induction false} LivePushed(nodes: seq<nat>, v: nat)
    ensures Live(Pushed(nodes), v) == multiset(nodes)[v]
    decreases |nodes|
  {
    if nodes != [] {
      var n := |nodes| - 1;
      LivePushed(nodes[..n], v);
      assert Pushed(nodes)[..n] == Pushed(nodes[..n]);
      assert nodes == nodes[..n] + [nodes[n]];
    } else {
      assert Pushed(nodes) == [];
    }
  }

  lemma {:induction false} LiveFlat(g: Forest, fs: seq<Frame>, v: nat)
    requires FramesFit(g, fs)
    ensures Live(Flat(g, fs), v) == multiset(PathNodes(fs))[v] + multiset(Pending(g, fs))[v]
    decreases |fs|
  {
    if fs == [] {
      assert PathNodes(fs) == [];
    } else {
      var n := |fs| - 1;
      var f := fs[n];
      var a, b, c := Flat(g, fs[..n]), [Entry(f.node, true)], Pushed(g.deps[f.node][..f.rest]);
      LiveFlat(g, fs[..n], v);
      LiveJoin(a + b, c, v);
      LiveJoin(a, b, v);
      LivePushed(g.deps[f.node][..f.rest], v);
      assert b[..0] == [];
      assert PathNodes(fs) == PathNodes(fs[..n]) + [f.node];
    }
  }

  /** A dependency on v waits under an earlier node of the path. */
  ghost predicate PendingBelow(g: Forest, fs: seq<Frame>, v: nat) {
    exists k: nat, i: nat :: k < |fs| - 1 && i < fs[k].rest && DependsOn(g, fs[k].node, i, v)
  }

  /** The node v is open, waits under an earlier node, and is the entry on top: the search is
      about to find that v depends on itself. */
  ghost predicate ClosesCycle(g: Forest, fs: seq<Frame>, v: nat) {
    && fs != [] && v in PathNodes(fs) && PendingBelow(g, fs, v)
    && fs[|fs| - 1].rest > 0 && DependsOn(g, fs[|fs| - 1].node, fs[|fs| - 1].rest - 1, v)
  }

  lemma {:induction false} BelowTop(g: Forest, fs: seq<Frame>, k: nat)
    requires WellFormed(g) && Chained(g, fs) && k < |fs| - 1
    ensures Operands(g, fs[k])
  {
    assert DependsOn(g, fs[k].node, fs[k].rest, fs[k + 1].node);
    assert Linear(g, fs[k].node) || Branching(g, fs[k].node);
  }

  lemma {:induction false} PendingIn(g: Forest, fs: seq<Frame>, k: nat, i: nat, v: nat)
    requires FramesFit(g, fs) && k < |fs| && i < fs[k].rest && DependsOn(g, fs[k].node, i, v)
    ensures v in Pending(g, fs)
    decreases |fs|
  {
    var n := |fs| - 1;
    if k < n {
      PendingIn(g, fs[..n], k, i, v);
    } else {
      assert g.deps[fs[n].node][..fs[n].rest][i] == v;
    }
  }

  lemma {:induction false} PendingBelowMeans(g: Forest, fs: seq<Frame>, v: nat)
    requires FramesFit(g, fs) && fs != []
    ensures PendingBelow(g, fs, v) <==> v in Pending(g, fs[..|fs| - 1])
  {
    var n := |fs| - 1;
    if PendingBelow(g, fs, v) {
      var k: nat, i: nat :| k < n && i < fs[k].rest && DependsOn(g, fs[k].node, i, v);
      PendingIn(g, fs[..n], k, i, v);
    }
    if v in Pending(g, fs[..n]) {
      var k, i := PendingFrom(g, fs[..n], v);
      assert fs[..n][k] == fs[k];
    }
  }

  /** A node is pending at most once below the top. */
  lemma {:induction false} PendingParts(g: Forest, fs: seq<Frame>, v: nat)
    requires WellFormed(g) && Chained(g, fs) && Distinct(PathNodes(fs)) && fs != []
    ensures
      var f := fs[|fs| - 1];
      multiset(Pending(g, fs))[v] == (if PendingBelow(g, fs, v) then 1 else 0) + multiset(g.deps[f.node][..f.rest])[v]
  {
    var n := |fs| - 1;
    forall k | 0 <= k < n ensures Operands(g, fs[k]) { BelowTop(g, fs, k); }
    PendingBelowMeans(g, fs, v);
    var below := Pending(g, fs[..n]);
    assert forall k :: 0 <= k < n ==> PathNodes(fs[..n])[k] == PathNodes(fs)[k];
    PendingDistinct(g, fs[..n]);
    hide WellFormed, PendingBelow;
    OnceInDistinct(below, v);
    InMultiset(below, v);
  }

  /** A node is pending once below the top, and once more only as the entry on top. */
  lemma {:induction false} PendingTwice(g: Forest, fs: seq<Frame>, v: nat)
    requires WellFormed(g) && Chained(g, fs) && Distinct(PathNodes(fs)) && fs != []
    ensures multiset(Pending(g, fs))[v] <= 2
    ensures multiset(Pending(g, fs))[v] == 2 <==>
      PendingBelow(g, fs, v) && fs[|fs| - 1].rest > 0 && DependsOn(g, fs[|fs| - 1].node, fs[|fs| - 1].rest - 1, v)
  {
    var f := fs[|fs| - 1];
    forall k | 0 <= k < |fs| - 1 ensures Operands(g, fs[k]) { BelowTop(g, fs, k); }
    assert Linear(g, f.node) || Branching(g, f.node);
    PendingParts(g, fs, v);
    var top := g.deps[f.node][..f.rest];
    InMultiset(top, v);
    if Operands(g, f) {
      PendingDistinct(g, fs);
      hide WellFormed, PendingBelow, Chained, Pending;
      OnceInDistinct(Pending(g, fs), v);
      if f.rest > 0 && DependsOn(g, f.node, f.rest - 1, v) { assert top[f.rest - 1] == v; }
    } else {
      hide WellFormed, PendingBelow, Chained, Pending, Distinct;
      assert top == [g.deps[f.node][0]];
      OneElement(g.deps[f.node][0], v);
    }
  }

  /** A node has at most three live entries, and three exactly when the entry on top is about
      to be rejected as a cycle. */
  lemma {:induction false} LiveEntries(g: Forest, fs: seq<Frame>, v: nat)
    requires WellFormed(g) && Chained(g, fs) && Distinct(PathNodes(fs))
    ensures Live(Flat(g, fs), v) <= 3
    ensures Live(Flat(g, fs), v) == 3 <==> ClosesCycle(g, fs, v)
  {
    LiveFlat(g, fs, v);
    OnceInDistinct(PathNodes(fs), v);
    InMultiset(PathNodes(fs), v);
    if fs != [] { PendingTwice(g, fs, v); }
    hide WellFormed, Chained, Distinct, Flat, Live, PendingBelow;
  }

  lemma {:induction false} OneElement(x: nat, v: nat)
    ensures multiset([x])[v] == if x == v then 1 else 0
  {
  }

  lemma {:induction false} InMultiset(x: seq<nat>, v: nat)
    ensures multiset(x)[v] > 0 <==> v in x
  {
    assert v in x <==> v in multiset(x);
  }

  // ------------------------------------------------------------------- the search

  /** What the search knows: order lists the finished nodes, dependencies first. */
  ghost predicate Ordered(g: Forest, order: seq<nat>) {
    && Distinct(order)
    && forall p :: 0 <= p < |order| ==> order[p] < |g.deps| && forall i :: 0 <= i < |g.deps[order[p]]| ==> g.deps[order[p]][i] in order[..p]
  }

  ghost predicate Colours(g: Forest, states: seq<int>, order: seq<nat>, fs: seq<Frame>) {
    && |states| == |g.deps|
    && (forall v: nat :: v < |states| ==> (states[v] == 2 <==> v in order))
    && (forall v: nat :: v < |states| ==> (states[v] == 1 <==> v in PathNodes(fs)))
    && (forall v: nat :: v < |states| ==> 0 <= states[v] <= 2)
  }

  /** Dependencies already taken from the stack are finished, or on the path above. */
  ghost predicate Seen(g: Forest, order: seq<nat>, fs: seq<Frame>)
    requires FramesFit(g, fs)
  {
    forall k, i :: 0 <= k < |fs| && fs[k].rest <= i < |g.deps[fs[k].node]| ==>
      g.deps[fs[k].node][i] in order || (k < |fs| - 1 && i == fs[k].rest)
  }

  ghost predicate Searching(g: Forest, states: seq<int>, order: seq<nat>, fs: seq<Frame>)
    ensures Searching(g, states, order, fs) ==> FramesFit(g, fs) && |states| == |g.deps|
  {
    && Chained(g, fs) && Distinct(PathNodes(fs)) && Ordered(g, order)
    && Colours(g, states, order, fs) && Seen(g, order, fs)
  }

  lemma {:induction false} EdgeOf(g: Forest, u: nat, i: nat, x: nat)
    requires DependsOn(g, u, i, x)
    ensures (u, x) in GraphOf(g)
  {
  }

  /** Each node of the path reaches the later ones. */
  lemma {:induction false} PathReaches(g: Forest, fs: seq<Frame>, j: nat, k: nat)
    requires Chained(g, fs) && j <= k < |fs|
    ensures Reaches(GraphOf(g), fs[j].node, fs[k].node)
    decreases k
  {
    if j == k {
      ReachesSelf(GraphOf(g), fs[j].node);
    } else {
      PathReaches(g, fs, j, k - 1);
      EdgeOf(g, fs[k - 1].node, fs[k - 1].rest, fs[k].node);
      ReachesEdge(GraphOf(g), fs[k - 1].node, fs[k].node);
      ReachesThrough(GraphOf(g), fs[j].node, fs[k - 1].node, fs[k].node);
    }
  }

  /** A dependency that is still on the path closes a cycle. */
  lemma {:induction false} CycleFound(g: Forest, states: seq<int>, order: seq<nat>, fs: seq<Frame>, d: nat)
    requires Searching(g, states, order, fs) && fs != [] && fs[|fs| - 1].rest > 0
    requires DependsOn(g, fs[|fs| - 1].node, fs[|fs| - 1].rest - 1, d) && d < |states| && states[d] == 1
    ensures !Acyclic(g)
  {
    var j :| 0 <= j < |fs| && PathNodes(fs)[j] == d;
    PathReaches(g, fs, j, |fs| - 1);
    EdgeOf(g, fs[|fs| - 1].node, fs[|fs| - 1].rest - 1, d);
  }

  /** So where nothing depends on itself, no node ever has more than two live entries. */
  lemma {:induction false} TwoLive(g: Forest, states: seq<int>, order: seq<nat>, fs: seq<Frame>, v: nat)
    requires WellFormed(g) && Acyclic(g) && Searching(g, states, order, fs)
    ensures Live(Flat(g, fs), v) <= 2
  {
    LiveEntries(g, fs, v);
    if ClosesCycle(g, fs, v) { CycleFound(g, states, order, fs, v); }
    hide WellFormed, Acyclic, Searching, Flat, Live;
  }

  /** Entering a node puts it on the path, with all its dependencies to be seen. */
  lemma {:induction false} Enter(g: Forest, states: seq<int>, order: seq<nat>, fs: seq<Frame>, d: nat)
    requires Searching(g, states, order, fs) && fs != [] && fs[|fs| - 1].rest > 0
    requires DependsOn(g, fs[|fs| - 1].node, fs[|fs| - 1].rest - 1, d) && d < |states| && states[d] == 0
    ensures Searching(g, states[d := 1], order, Taken(fs) + [Frame(d, |g.deps[d]|)])
  {
    var gs := Taken(fs) + [Frame(d, |g.deps[d]|)];
    assert PathNodes(gs) == PathNodes(fs) + [d];
    assert d !in PathNodes(fs) && d !in order;
  }

  lemma {:induction false} EnterRoot(g: Forest, states: seq<int>, order: seq<nat>, d: nat)
    requires Searching(g, states, order, []) && d < |states| && states[d] == 0
    ensures Searching(g, states[d := 1], order, [Frame(d, |g.deps[d]|)])
  {
    assert PathNodes([Frame(d, |g.deps[d]|)]) == [d];
    assert d !in order;
  }

  ghost function Taken(fs: seq<Frame>): seq<Frame>
    requires fs != [] && fs[|fs| - 1].rest > 0
  {
    fs[..|fs| - 1] + [Frame(fs[|fs| - 1].node, fs[|fs| - 1].rest - 1)]
  }

  lemma {:induction false} Leave(g: Forest, states: seq<int>, order: seq<nat>, fs: seq<Frame>)
    requires Searching(g, states, order, fs) && fs != [] && fs[|fs| - 1].rest == 0
    ensures var u := fs[|fs| - 1].node; u < |states| && Searching(g, states[u := 2], order + [u], fs[..|fs| - 1])
  {
    var n := |fs| - 1;
    var u := fs[n].node;
    assert PathNodes(fs) == PathNodes(fs[..n]) + [u];
    assert PathNodes(fs)[n] == u;
    LeaveOrder(g, states, order, fs);
    LeaveColours(g, states, order, fs);
    assert Seen(g, order + [u], fs[..n]);
  }

  lemma {:induction false} LeaveOrder(g: Forest, states: seq<int>, order: seq<nat>, fs: seq<Frame>)
    requires Searching(g, states, order, fs) && fs != [] && fs[|fs| - 1].rest == 0
    ensures Ordered(g, order + [fs[|fs| - 1].node])
  {
    var u := fs[|fs| - 1].node;
    assert PathNodes(fs)[|fs| - 1] == u;
    assert u !in order;
    var after := order + [u];
    forall p | 0 <= p < |after| ensures forall i :: 0 <= i < |g.deps[after[p]]| ==> g.deps[after[p]][i] in after[..p] {
      if p < |order| { assert after[..p] == order[..p]; } else { assert after[..p] == order; }
    }
  }

  lemma {:induction false} LeaveColours(g: Forest, states: seq<int>, order: seq<nat>, fs: seq<Frame>)
    requires Searching(g, states, order, fs) && fs != []
    ensures var u := fs[|fs| - 1].node; u < |states| && Colours(g, states[u := 2], order + [u], fs[..|fs| - 1])
  {
    var n := |fs| - 1;
    var u := fs[n].node;
    assert PathNodes(fs) == PathNodes(fs[..n]) + [u];
    assert u !in PathNodes(fs[..n]);
  }

  /** Taking a finished dependency off the stack. */
  lemma {:induction false} Skip(g: Forest, states: seq<int>, order: seq<nat>, fs: seq<Frame>, d: nat)
    requires Searching(g, states, order, fs) && fs != [] && fs[|fs| - 1].rest > 0
    requires DependsOn(g, fs[|fs| - 1].node, fs[|fs| - 1].rest - 1, d) && d < |states| && states[d] == 2
    ensures Searching(g, states, order, Taken(fs))
  {
    assert PathNodes(Taken(fs)) == PathNodes(fs);
  }

  // ------------------------------------------------------------ three entries do occur

  /** A path 0 to local 5, whose initializer 1 is a block with 0 and a path 3 to local 4, whose
      initializer is 0 again. */
  ghost predicate Tangled(g: Forest) {
    && g.expressions == 4 && |g.deps| == 6
    && g.deps[0] == [5] && g.deps[1] == [0, 3] && g.deps[2] == [] && g.deps[3] == [4] && g.deps[4] == [0] && g.deps[5] == [1]
  }

  lemma {:induction false} TangledWellFormed(g: Forest)
    requires Tangled(g)
    ensures WellFormed(g)
  {
    assert Linear(g, 0) && Branching(g, 1) && Branching(g, 2) && Linear(g, 3) && Linear(g, 4) && Linear(g, 5);
    assert !Branching(g, 0) && !Branching(g, 3) && !Branching(g, 4) && !Branching(g, 5);
  }

  lemma {:induction false} TangledEdges(g: Forest)
    requires Tangled(g)
    ensures DependsOn(g, 0, 0, 5) && DependsOn(g, 5, 0, 1) && DependsOn(g, 1, 1, 3) && DependsOn(g, 3, 0, 4)
    ensures DependsOn(g, 1, 0, 0) && DependsOn(g, 4, 0, 0)
    ensures |g.deps[0]| == |g.deps[5]| == |g.deps[3]| == |g.deps[4]| == 1 && |g.deps[1]| == 2
  {
  }

  /** One more step down: the dependency d of the node on top is entered. */
  lemma {:induction false} Descend(g: Forest, states: seq<int>, fs: seq<Frame>, u: nat, r: nat, d: nat) returns (next: seq<Frame>)
    requires Searching(g, states, [], fs) && fs != [] && fs[|fs| - 1] == Frame(u, r + 1) && DependsOn(g, u, r, d)
    requires d < |states| && states[d] == 0
    ensures Searching(g, states[d := 1], [], next) && d < |g.deps|
    ensures |next| == |fs| + 1 && next[|fs|] == Frame(d, |g.deps[d]|) && next[|fs| - 1] == Frame(u, r)
    ensures forall k :: 0 <= k < |fs| - 1 ==> next[k] == fs[k]
  {
    Enter(g, states, [], fs, d);
    next := Taken(fs) + [Frame(d, |g.deps[d]|)];
  }

  lemma {:induction false} TangledDescent(g: Forest, states: seq<int>) returns (last: seq<int>, fs: seq<Frame>)
    requires Tangled(g) && |states| == 6 && (forall v :: 0 <= v < 6 ==> states[v] == 0) && Searching(g, states, [], [])
    ensures Searching(g, last, [], fs) && |fs| == 5
    ensures fs[0].node == 0 && fs[2] == Frame(1, 1) && fs[4] == Frame(4, 1)
  {
    TangledEdges(g);
    hide Searching, DependsOn, Tangled;
    EnterRoot(g, states, [], 0);
    var s1 := states[0 := 1];
    var f1 := [Frame(0, 1)];
    var f2 := Descend(g, s1, f1, 0, 0, 5);
    var s2 := s1[5 := 1];
    var f3 := Descend(g, s2, f2, 5, 0, 1);
    var s3 := s2[1 := 1];
    var f4 := Descend(g, s3, f3, 1, 1, 3);
    var s4 := s3[3 := 1];
    fs := Descend(g, s4, f4, 3, 0, 4);
    last := s4[4 := 1];
  }

  lemma {:induction false} NothingSearched(g: Forest, states: seq<int>)
    requires |states| == |g.deps| && forall v :: 0 <= v < |states| ==> states[v] == 0
    ensures Searching(g, states, [], [])
  {
    assert PathNodes([]) == [];
  }

  /** Five steps of the search put three entries for one node on the stack. */
  lemma {:induction false} ThreeLive() returns (g: Forest, states: seq<int>, fs: seq<Frame>)
    ensures WellFormed(g) && Searching(g, states, [], fs) && Live(Flat(g, fs), 0) == 3
  {
    g := Forest(4, [[5], [0, 3], [], [4], [0], [1]]);
    assert Tangled(g);
    TangledWellFormed(g);
    TangledEdges(g);
    var start := seq(6, _ => 0);
    NothingSearched(g, start);
    states, fs := TangledDescent(g, start);
    TangledCloses(g, states, fs);
  }

  lemma {:induction false} TangledCloses(g: Forest, states: seq<int>, fs: seq<Frame>)
    requires WellFormed(g) && Searching(g, states, [], fs) && |fs| == 5
    requires DependsOn(g, 1, 0, 0) && DependsOn(g, 4, 0, 0)
    requires fs[0].node == 0 && fs[2] == Frame(1, 1) && fs[4] == Frame(4, 1)
    ensures Live(Flat(g, fs), 0) == 3
  {
    LiveEntries(g, fs, 0);
    hide WellFormed, Searching, Live, Flat, DependsOn;
    assert PathNodes(fs)[0] == 0;
    assert 2 < |fs| - 1 && 0 < fs[2].rest && DependsOn(g, fs[2].node, 0, 0);
    assert DependsOn(g, fs[4].node, 0, 0);
  }

  // --------------------------------------------------------- the stack as a sequence

  lemma {:induction false} FlatExit(g: Forest, fs: seq<Frame>)
    requires FramesFit(g, fs) && fs != [] && fs[|fs| - 1].rest == 0
    ensures Flat(g, fs) == Flat(g, fs[..|fs| - 1]) + [Entry(fs[|fs| - 1].node, true)]
  {
  }

  lemma {:induction false} FlatTaken(g: Forest, fs: seq<Frame>)
    requires FramesFit(g, fs) && fs != [] && fs[|fs| - 1].rest > 0
    ensures FramesFit(g, Taken(fs))
    ensures Flat(g, fs) == Flat(g, Taken(fs)) + [Entry(g.deps[fs[|fs| - 1].node][fs[|fs| - 1].rest - 1], false)]
  {
    var top := fs[|fs| - 1];
    var ds := g.deps[top.node];
    assert Taken(fs)[..|fs| - 1] == fs[..|fs| - 1];
    assert Pushed(ds[..top.rest]) == Pushed(ds[..top.rest - 1]) + [Entry(ds[top.rest - 1], false)];
  }

  lemma {:induction false} FlatEnter(g: Forest, fs: seq<Frame>, d: nat)
    requires FramesFit(g, fs) && d < |g.deps|
    ensures FramesFit(g, fs + [Frame(d, |g.deps[d]|)])
    ensures Flat(g, fs + [Frame(d, |g.deps[d]|)]) == Flat(g, fs) + [Entry(d, true)] + Pushed(g.deps[d])
  {
    assert (fs + [Frame(d, |g.deps[d]|)])[..|fs|] == fs;
    assert g.deps[d][..|g.deps[d]|] == g.deps[d];
  }

  lemma {:induction false} NotTooMany(g: Forest, states: seq<int>, order: seq<nat>, fs: seq<Frame>)
    requires Searching(g, states, order, fs)
    ensures |order| + |fs| <= Count(g)
  {
    var all := order + PathNodes(fs);
    forall x | x in all ensures x < Count(g) {
      if x in order { var p :| 0 <= p < |order| && order[p] == x; }
    }
    forall i, j | 0 <= i < j < |all| ensures all[i] != all[j] {
      if i < |order| && j >= |order| {
        assert states[order[i]] == 2;
        assert all[j] in PathNodes(fs);
      }
    }
    DistinctBelow(all, Count(g));
  }

  method PushAll(stack: array<Entry>, count: nat, nodes: seq<nat>) returns (total: nat)
    requires count + |nodes| <= stack.Length
    modifies stack
    ensures total == count + |nodes| && stack[..total] == old(stack[..count]) + Pushed(nodes)
  {
    total := count;
    var i := 0;
    while i < |nodes|
      invariant 0 <= i <= |nodes| && total == count + i
      invariant stack[..total] == old(stack[..count]) + Pushed(nodes[..i])
    {
      stack[total] := Entry(nodes[i], false);
      total := total + 1;
      i := i + 1;
    }
    assert nodes[..i] == nodes;
  }

  ghost predicate Checked(check: nat -> bool, order: seq<nat>) {
    forall v :: v in order ==> check(v)
  }

  ghost predicate Faulty(g: Forest, check: nat -> bool) {
    !Acyclic(g) || exists v :: 0 <= v < |g.deps| && !check(v)
  }

  /** The loop condition of the search from one root: the stack is that of the frames, or
      still holds the root alone. */
  ghost predicate OnStack(g: Forest, root: nat, s: seq<Entry>, started: bool, order: seq<nat>, fs: seq<Frame>) {
    if started then FramesFit(g, fs) && s == Flat(g, fs) && (root in order || root in PathNodes(fs))
    else fs == [] && s == [Entry(root, false)]
  }

  ghost predicate InSearch(g: Forest, root: nat, states: seq<int>, s: seq<Entry>, check: nat -> bool, started: bool, order: seq<nat>, fs: seq<Frame>)
    ensures InSearch(g, root, states, s, check, started, order, fs) ==> |states| == |g.deps|
  {
    && root < |g.deps| && Searching(g, states, order, fs) && Checked(check, order)
    && OnStack(g, root, s, started, order, fs)
    && (!started ==> states[root] == 0 && fs == [])
  }

  /** One round of the loop: takes the top entry. */
  method Advance(g: Forest, root: nat, states: array<int>, stack: array<Entry>, count: nat, check: nat -> bool,
                 ghost started: bool, ghost order: seq<nat>, ghost fs: seq<Frame>)
    returns (ok: bool, left: nat, ghost order': seq<nat>, ghost fs': seq<Frame>)
    requires WellFormed(g) && stack.Length == 2 * Count(g) && 0 < count <= stack.Length
    requires InSearch(g, root, states[..], stack[..count], check, started, order, fs)
    modifies states, stack
    ensures ok ==> left <= stack.Length && InSearch(g, root, states[..], stack[..left], check, true, order', fs')
    ensures ok ==> order <= order' && |order'| + |fs'| <= Count(g)
    ensures ok ==> |order'| + |fs'| > |order| + |fs| || (|order'| + |fs'| == |order| + |fs| && left < count)
    ensures !ok ==> Faulty(g, check)
  {
    hide Searching, OnStack, Checked, Faulty, WellFormed, Flat, PathNodes, Acyclic, FramesFit, DependsOn, Taken, Pushed;
    NotTooMany(g, states[..], order, fs);
    ok, left, order', fs' := true, count - 1, order, fs;
    var entry := stack[left];
    assert stack[..count] == stack[..left] + [entry];
    Top(g, root, stack[..left], entry, started, order, fs);
    if entry.exiting {
      if !check(entry.node) {
        FaultFound(g, check, entry.node);
        return false, left, order, fs;
      }
      ExitStep(g, root, stack[..left], entry, order, fs, states[..], check);
      states[entry.node] := 2;
      fs', order' := fs[..|fs| - 1], order + [entry.node];
    } else if states[entry.node] == 2 {
      SkipStep(g, root, stack[..left], entry, order, fs, states[..]);
      fs' := Taken(fs);
    } else if states[entry.node] == 1 {
      CycleFound(g, states[..], order, fs, entry.node);
      CycleFault(g, check);
      return false, left, order, fs;
    } else {
      fs' := EnterStep(g, root, stack[..left], entry, started, order, fs, states[..]);
      NotTooMany(g, states[..][entry.node := 1], order, fs');
      states[entry.node] := 1;
      ghost var below := stack[..left];
      stack[left] := Entry(entry.node, true);
      assert stack[..left + 1] == below + [Entry(entry.node, true)];
      left := PushAll(stack, left + 1, g.deps[entry.node]);
    }
  }

  /** The search from one root. */
  method Explore(g: Forest, root: nat, states: array<int>, stack: array<Entry>, check: nat -> bool, ghost done: seq<nat>)
    returns (ok: bool, ghost order: seq<nat>)
    requires WellFormed(g) && root < Count(g) && stack.Length == 2 * Count(g)
    requires Searching(g, states[..], done, []) && states[root] == 0 && Checked(check, done)
    modifies states, stack
    ensures ok ==> Searching(g, states[..], order, []) && Checked(check, order) && root in order && done <= order
    ensures !ok ==> Faulty(g, check)
  {
    ok, order := true, done;
    ghost var fs: seq<Frame>, started := [], false;
    stack[0] := Entry(root, false);
    var count := 1;
    assert OnStack(g, root, stack[..count], started, order, fs);
    NotTooMany(g, states[..], order, fs);
    hide Searching, OnStack, Checked, Faulty, WellFormed, Flat, PathNodes, Acyclic, FramesFit;
    while count != 0
      invariant 0 <= count <= stack.Length
      invariant InSearch(g, root, states[..], stack[..count], check, started, order, fs)
      invariant done <= order && |order| + |fs| <= Count(g)
      decreases Count(g) - |order| - |fs|, count
    {
      ok, count, order, fs := Advance(g, root, states, stack, count, check, started, order, fs);
      if !ok { return; }
      started := true;
    }
    Emptied(g, root, started, order, fs);
  }

  lemma {:induction false} FaultFound(g: Forest, check: nat -> bool, v: nat)
    requires v < Count(g) && !check(v)
    ensures Faulty(g, check)
  {
  }

  lemma {:induction false} CycleFault(g: Forest, check: nat -> bool)
    requires !Acyclic(g)
    ensures Faulty(g, check)
  {
  }

  lemma {:induction false} Emptied(g: Forest, root: nat, started: bool, order: seq<nat>, fs: seq<Frame>)
    requires OnStack(g, root, [], started, order, fs)
    ensures fs == [] && root in order
  {
    FlatSize(g, fs);
  }

  /** The top entry is the exit of the top frame, or its last dependency, or the root. */
  lemma {:induction false} Top(g: Forest, root: nat, s: seq<Entry>, entry: Entry, started: bool, order: seq<nat>, fs: seq<Frame>)
    requires WellFormed(g) && root < Count(g) && OnStack(g, root, s + [entry], started, order, fs)
    ensures entry.node < Count(g)
    ensures entry.exiting ==> started && fs != [] && fs[|fs| - 1] == Frame(entry.node, 0) && s == Flat(g, fs[..|fs| - 1])
    ensures !entry.exiting && started ==>
      && fs != [] && fs[|fs| - 1].rest > 0 && DependsOn(g, fs[|fs| - 1].node, fs[|fs| - 1].rest - 1, entry.node)
      && FramesFit(g, Taken(fs)) && s == Flat(g, Taken(fs))
    ensures !started ==> entry == Entry(root, false) && s == []
  {
    assert (s + [entry])[..|s|] == s && (s + [entry])[|s|] == entry;
    if started {
      assert Flat(g, []) == [];
      assert fs != [];
      if fs[|fs| - 1].rest == 0 {
        FlatExit(g, fs);
      } else {
        FlatTaken(g, fs);
        assert DependsOn(g, fs[|fs| - 1].node, fs[|fs| - 1].rest - 1, entry.node);
      }
    }
  }

  lemma {:induction false} ExitStep(g: Forest, root: nat, s: seq<Entry>, entry: Entry, order: seq<nat>, fs: seq<Frame>, states: seq<int>, check: nat -> bool)
    requires WellFormed(g) && root < Count(g) && OnStack(g, root, s + [entry], true, order, fs) && entry.exiting && check(entry.node)
    requires Searching(g, states, order, fs) && Checked(check, order)
    ensures fs != [] && entry.node < |states|
    ensures Searching(g, states[entry.node := 2], order + [entry.node], fs[..|fs| - 1])
    ensures Checked(check, order + [entry.node])
    ensures OnStack(g, root, s, true, order + [entry.node], fs[..|fs| - 1])
  {
    hide Searching, Flat, WellFormed;
    Top(g, root, s, entry, true, order, fs);
    Leave(g, states, order, fs);
    var n := |fs| - 1;
    if root !in order {
      assert root in PathNodes(fs);
      assert PathNodes(fs) == PathNodes(fs[..n]) + [entry.node];
    }
  }

  lemma {:induction false} SkipStep(g: Forest, root: nat, s: seq<Entry>, entry: Entry, order: seq<nat>, fs: seq<Frame>, states: seq<int>)
    requires WellFormed(g) && root < Count(g) && OnStack(g, root, s + [entry], true, order, fs) && !entry.exiting
    requires Searching(g, states, order, fs) && entry.node < |states| && states[entry.node] == 2
    ensures fs != [] && fs[|fs| - 1].rest > 0 && |Taken(fs)| == |fs|
    ensures Searching(g, states, order, Taken(fs)) && OnStack(g, root, s, true, order, Taken(fs))
  {
    hide Searching, Flat, WellFormed;
    Top(g, root, s, entry, true, order, fs);
    Skip(g, states, order, fs, entry.node);
    assert PathNodes(Taken(fs)) == PathNodes(fs);
  }

  /** The stack that entering a node leaves, above the frames that were there. */
  lemma {:induction false} EnterUnder(g: Forest, under: seq<Frame>, s: seq<Entry>, d: nat, order: seq<nat>, states: seq<int>)
    requires WellFormed(g) && d < Count(g) && FramesFit(g, under) && s == Flat(g, under)
    requires Searching(g, states, order, under + [Frame(d, |g.deps[d]|)])
    ensures s + [Entry(d, true)] + Pushed(g.deps[d]) == Flat(g, under + [Frame(d, |g.deps[d]|)])
    ensures |s| + 1 + |g.deps[d]| <= 2 * Count(g)
  {
    FlatEnter(g, under, d);
    StackBound(g, under + [Frame(d, |g.deps[d]|)]);
  }

  lemma {:induction false} OnPath(fs: seq<Frame>, d: nat, rest: nat)
    ensures PathNodes(fs + [Frame(d, rest)]) == PathNodes(fs) + [d]
    ensures fs != [] && fs[|fs| - 1].rest > 0 ==> PathNodes(Taken(fs)) == PathNodes(fs)
  {
  }

  lemma {:induction false} EnterStep(g: Forest, root: nat, s: seq<Entry>, entry: Entry, started: bool, order: seq<nat>, fs: seq<Frame>, states: seq<int>)
    returns (next: seq<Frame>)
    requires WellFormed(g) && root < Count(g) && OnStack(g, root, s + [entry], started, order, fs) && !entry.exiting
    requires Searching(g, states, order, fs) && entry.node < |states| && states[entry.node] != 1 && states[entry.node] != 2
    ensures entry.node < Count(g) && |next| == |fs| + 1
    ensures Searching(g, states[entry.node := 1], order, next)
    ensures OnStack(g, root, s + [Entry(entry.node, true)] + Pushed(g.deps[entry.node]), true, order, next)
    ensures |s| + 1 + |g.deps[entry.node]| <= 2 * Count(g)
  {
    Top(g, root, s, entry, started, order, fs);
    assert states[entry.node] == 0 by {
      hide WellFormed, Chained, Ordered, Seen, Distinct, OnStack;
      assert Colours(g, states, order, fs);
    }
    hide Flat, WellFormed, Searching, PathNodes, DependsOn;
    EmptyFlat(g);
    OnPath(fs, entry.node, 0);
    var under := if started then Taken(fs) else [];
    OnPath(under, entry.node, |g.deps[entry.node]|);
    next := under + [Frame(entry.node, |g.deps[entry.node]|)];
    if started {
      Enter(g, states, order, fs, entry.node);
    } else {
      EnterRoot(g, states, order, entry.node);
      assert next == [Frame(entry.node, |g.deps[entry.node]|)];
    }
    EnterUnder(g, under, s, entry.node, order, states[entry.node := 1]);
  }

  lemma {:induction false} EmptyFlat(g: Forest)
    ensures Flat(g, []) == []
  {
  }

  // ------------------------------------------------------------------ the verdict

  /** Finishing dependencies first rules out cycles. */
  lemma {:induction false} OrderedIsAcyclic(g: Forest, order: seq<nat>)
    requires Ordered(g, order) && forall v: nat :: v < Count(g) ==> v in order
    ensures Acyclic(g)
  {
    forall u, v | (u, v) in GraphOf(g) ensures !Reaches(GraphOf(g), v, u) {
      assert u < Count(g) && u in order;
      var p :| 0 <= p < |order| && order[p] == u;
      var early := iset x: nat | x in order[..p];
      assert v in early;
      forall e | e in GraphOf(g) && e.0 in early ensures e.1 in early {
        var q :| 0 <= q < p && order[..p][q] == e.0;
        assert order[q] == e.0;
      }
      assert u !in early;
      if Reaches(GraphOf(g), v, u) { ClosedUnderReach(GraphOf(g), early, v, u); }
    }
  }

  /** Validation accepts if and only if the dependencies are acyclic and every node passes
      its own check; the array of 2 * Count(g) entries is always large enough. */
  method Validate(g: Forest, check: nat -> bool) returns (ok: bool)
    requires WellFormed(g)
    ensures ok <==> Acyclic(g) && forall v: nat :: v < Count(g) ==> check(v)
  {
    var states := new int[Count(g)](_ => 0);
    var stack := new Entry[2 * Count(g)](_ => Entry(0, false));
    ghost var order: seq<nat> := [];
    assert Searching(g, states[..], order, []);
    assert Checked(check, order);
    hide Searching, WellFormed, Acyclic;
    var root := 0;
    while root < Count(g)
      invariant 0 <= root <= Count(g) == states.Length
      invariant Searching(g, states[..], order, []) && Checked(check, order)
      invariant forall v: nat :: v < root ==> v in order
    {
      RootColour(g, states[..], order, root);
      if states[root] != 2 {
        ghost var before := order;
        ok, order := Explore(g, root, states, stack, check, order);
        if !ok { return; }
        assert forall v: nat :: v < root ==> v in before;
      }
      root := root + 1;
    }
    ok := true;
    Finished(g, states[..], order);
  }

  lemma {:induction false} RootColour(g: Forest, states: seq<int>, order: seq<nat>, root: nat)
    requires Searching(g, states, order, []) && root < Count(g)
    ensures root < |states| && (states[root] == 0 || (states[root] == 2 && root in order))
  {
    assert PathNodes([]) == [];
  }

  lemma {:induction false} Finished(g: Forest, states: seq<int>, order: seq<nat>)
    requires Searching(g, states, order, []) && forall v: nat :: v < Count(g) ==> v in order
    ensures Acyclic(g)
  {
    OrderedIsAcyclic(g, order);
  }
}
