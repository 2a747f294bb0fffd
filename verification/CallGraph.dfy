/** The checker's call graph: edges in one growing array, threaded by two families of
    linked lists (outgoing by source, incoming by target), newest edge first. */
module CallGraphs {
  import opened Reachability

  /** The source's SOL_AST_NONE, as an index that no array has. */
  const NONE: int := -1

  datatype Edge = Edge(from: nat, to: nat, nextOutgoing: int, nextIncoming: int)

  ghost function EdgeSet(es: seq<Edge>): Graph {
    set k | 0 <= k < |es| :: (es[k].from, es[k].to)
  }

  /** r is the newest edge below bound that leaves u, or NONE. */
  ghost predicate LastFrom(es: seq<Edge>, bound: nat, u: nat, r: int)
    requires bound <= |es|
  {
    && NONE <= r < bound
    && (r >= 0 ==> es[r].from == u)
    && forall k :: r < k < bound ==> es[k].from != u
  }

  /** r is the newest edge below bound that enters u, or NONE. */
  ghost predicate LastTo(es: seq<Edge>, bound: nat, u: nat, r: int)
    requires bound <= |es|
  {
    && NONE <= r < bound
    && (r >= 0 ==> es[r].to == u)
    && forall k :: r < k < bound ==> es[k].to != u
  }

  /** Every list link names the next older edge of the same list. */
  ghost predicate Threaded(es: seq<Edge>, n: nat) {
    forall k :: 0 <= k < |es| ==>
      && es[k].from < n && es[k].to < n
      && LastFrom(es, k, es[k].from, es[k].nextOutgoing)
      && LastTo(es, k, es[k].to, es[k].nextIncoming)
  }

  class CallGraph {
    const count: nat
    var edges: seq<Edge>
    const firstOutgoing: array<int>
    const firstIncoming: array<int>

    ghost predicate Valid()
      reads this, firstOutgoing, firstIncoming
    {
      && firstOutgoing != firstIncoming
      && firstOutgoing.Length == firstIncoming.Length == count
      && Threaded(edges, count)
      && (forall u: nat :: u < count ==> LastFrom(edges, |edges|, u, firstOutgoing[u]))
      && (forall u: nat :: u < count ==> LastTo(edges, |edges|, u, firstIncoming[u]))
    }

    constructor (n: nat)
      ensures Valid() && fresh(firstOutgoing) && fresh(firstIncoming)
      ensures count == n && edges == []
    {
      count := n;
      edges := [];
      firstOutgoing := new int[n](_ => NONE);
      firstIncoming := new int[n](_ => NONE);
    }

    method AddEdge(from: nat, to: nat)
      requires Valid() && from < count && to < count
      modifies this`edges, firstOutgoing, firstIncoming
      ensures Valid()
      ensures EdgeSet(edges) == old(EdgeSet(edges)) + {(from, to)}
    {
      var edge := |edges|;
      ghost var before := edges;
      edges := edges + [Edge(from, to, firstOutgoing[from], firstIncoming[to])];
      firstOutgoing[from] := edge;
      firstIncoming[to] := edge;
      ThreadedAppend(before, edges[edge], count);
      EdgeSetAppend(before, edges[edge]);
    }
  }

  lemma {:induction false} ThreadedAppend(es: seq<Edge>, e: Edge, n: nat)
    requires Threaded(es, n) && e.from < n && e.to < n
    requires LastFrom(es, |es|, e.from, e.nextOutgoing) && LastTo(es, |es|, e.to, e.nextIncoming)
    ensures Threaded(es + [e], n)
  {
    var r := es + [e];
    forall k | 0 <= k < |r|
      ensures && r[k].from < n && r[k].to < n
              && LastFrom(r, k, r[k].from, r[k].nextOutgoing)
              && LastTo(r, k, r[k].to, r[k].nextIncoming)
    {
      if k < |es| {
        assert LastFrom(es, k, es[k].from, es[k].nextOutgoing) && LastTo(es, k, es[k].to, es[k].nextIncoming);
      }
    }
  }

  lemma {:induction false} EdgeSetAppend(es: seq<Edge>, e: Edge)
    ensures EdgeSet(es + [e]) == EdgeSet(es) + {(e.from, e.to)}
  {
    var g := es + [e];
    forall p | p in EdgeSet(es) ensures p in EdgeSet(g) {
      var k :| 0 <= k < |es| && p == (es[k].from, es[k].to);
      assert g[k] == es[k];
    }
    assert g[|es|] == e;
  }
}
