/** Paths and reachability in a finite directed graph given as a set of edges. */
module Reachability {

  type Graph = set<(nat, nat)>

  ghost predicate IsPath(g: Graph, p: seq<nat>) {
    && |p| > 0
    && forall i :: 0 <= i < |p| - 1 ==> (p[i], p[i + 1]) in g
  }

  ghost predicate Joins(g: Graph, p: seq<nat>, u: nat, v: nat) {
    IsPath(g, p) && p[0] == u && p[|p| - 1] == v
  }

  ghost predicate Reaches(g: Graph, u: nat, v: nat) {
    exists p :: Joins(g, p, u, v)
  }

  ghost predicate Mutual(g: Graph, u: nat, v: nat) {
    Reaches(g, u, v) && Reaches(g, v, u)
  }

  lemma {:induction false} ReachesSelf(g: Graph, u: nat)
    ensures Reaches(g, u, u)
  {
    assert Joins(g, [u], u, u);
  }

  lemma {:induction false} ReachesEdge(g: Graph, u: nat, v: nat)
    requires (u, v) in g
    ensures Reaches(g, u, v)
  {
    assert Joins(g, [u, v], u, v);
  }

  lemma {:induction false} ReachesThrough(g: Graph, u: nat, v: nat, w: nat)
    requires Reaches(g, u, v) && Reaches(g, v, w)
    ensures Reaches(g, u, w)
  {
    var p :| Joins(g, p, u, v);
    var q :| Joins(g, q, v, w);
    var r := p + q[1..];
    forall i | 0 <= i < |r| - 1 ensures (r[i], r[i + 1]) in g {
      if i < |p| - 1 {
        assert (p[i], p[i + 1]) in g;
      } else {
        assert (q[i - |p| + 1], q[i - |p| + 2]) in g;
      }
    }
    assert Joins(g, r, u, w);
  }

  /** A set closed under the edges holds everything its members reach. */
  lemma {:induction false} ClosedUnderReach(g: Graph, s: iset<nat>, u: nat, v: nat)
    requires forall e :: e in g && e.0 in s ==> e.1 in s
    requires u in s && Reaches(g, u, v)
    ensures v in s
  {
    var p :| Joins(g, p, u, v);
    var i := 0;
    while i < |p| - 1
      invariant 0 <= i < |p| && p[i] in s
    {
      assert (p[i], p[i + 1]) in g;
      i := i + 1;
    }
  }

  /** A set closed backwards along the edges holds everything that reaches its members. */
  lemma {:induction false} ClosedUnderCoreach(g: Graph, s: iset<nat>, u: nat, v: nat)
    requires forall e :: e in g && e.1 in s ==> e.0 in s
    requires v in s && Reaches(g, u, v)
    ensures u in s
  {
    var p :| Joins(g, p, u, v);
    var i := |p| - 1;
    while i > 0
      invariant 0 <= i < |p| && p[i] in s
    {
      assert (p[i - 1], p[i]) in g;
      i := i - 1;
    }
  }

  ghost predicate Distinct<T>(s: seq<T>) {
    forall i, j :: 0 <= i < j < |s| ==> s[i] != s[j]
  }

  /** Pigeonhole: distinct numbers below n are at most n many. */
  lemma {:induction false} DistinctBelow(s: seq<nat>, n: nat)
    requires Distinct(s) && forall x :: x in s ==> x < n
    ensures |s| <= n
  {
    assert |s| > 0 ==> s[0] in s;
    if n == 0 {
    } else if n - 1 in s {
      var k :| 0 <= k < |s| && s[k] == n - 1;
      var t := s[..k] + s[k + 1..];
      forall x | x in t ensures x < n - 1 {
        var j :| 0 <= j < |t| && t[j] == x;
        assert t[j] == if j < k then s[j] else s[j + 1];
        assert x in s;
      }
      DistinctBelow(t, n - 1);
    } else {
      DistinctBelow(s, n - 1);
    }
  }

  /** A sequence that mentions every number below n has at least n entries. */
  lemma {:induction false} CoversBelow(s: seq<nat>, n: nat)
    requires forall u: nat :: u < n ==> u in s
    ensures |s| >= n
  {
    if n > 0 {
      assert n - 1 in s;
      var k :| 0 <= k < |s| && s[k] == n - 1;
      var t := s[..k] + s[k + 1..];
      forall u: nat | u < n - 1 ensures u in t {
        assert u in s;
        var j :| 0 <= j < |s| && s[j] == u;
        assert t[if j < k then j else j - 1] == u;
      }
      CoversBelow(t, n - 1);
    }
  }

  lemma {:induction false} OnceInDistinct(x: seq<nat>, v: nat)
    requires Distinct(x)
    ensures multiset(x)[v] <= 1
    decreases |x|
  {
    if x != [] {
      var n := |x| - 1;
      OnceInDistinct(x[..n], v);
      assert x == x[..n] + [x[n]];
      if v == x[n] { assert v !in x[..n]; }
    }
  }
}
