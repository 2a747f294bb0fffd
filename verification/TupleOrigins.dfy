/** The origin of a tuple: meant to be the union of its elements' origins, and what the loop
    over the elements makes of it when a union is not interned. */
module TupleOrigins {
  import opened Options
  import opened Provenance

  /** Elements without an origin are passed over; a union that is not interned leaves nothing,
      and the next element starts afresh. */
  function TupleOrigin(table: Table, origins: seq<Option<nat>>): Option<nat> {
    if origins == [] then None
    else
      var before, last := TupleOrigin(table, origins[..|origins| - 1]), origins[|origins| - 1];
      if last.None? then before else if before.None? then last else UnionId(table, before, last)
  }

  predicate OriginsKnown(table: Table, origins: seq<Option<nat>>) {
    forall i :: 0 <= i < |origins| && origins[i].Some? ==> origins[i].value < |table|
  }

  ghost predicate SomeOrigin(origins: seq<Option<nat>>) {
    exists i :: 0 <= i < |origins| && origins[i].Some?
  }

  /** The roots of all elements together. */
  ghost function RootsOf(table: Table, origins: seq<Option<nat>>): set<nat>
    requires OriginsKnown(table, origins)
  {
    if origins == [] then {}
    else
      var last := origins[|origins| - 1];
      RootsOf(table, origins[..|origins| - 1]) + if last.Some? then Roots(table[last.value]) else {}
  }

  /** Where the loop starts afresh for the last time: after the last element whose union with
      the elements since the restart before it is not interned. */
  ghost function Restart(table: Table, origins: seq<Option<nat>>): (k: nat)
    requires OriginsKnown(table, origins)
    ensures k <= |origins|
  {
    if origins == [] then 0
    else
      var n := |origins| - 1;
      var k := Restart(table, origins[..n]);
      if origins[n].Some? && SomeOrigin(origins[k..n]) && !Interned(table, RootsOf(table, origins[k..])) then n + 1 else k
  }

  /** The identifier stands for exactly these roots. */
  ghost predicate HasRoots(table: Table, id: Option<nat>, roots: set<nat>) {
    if id.None? then roots == {} else id.value < |table| && Roots(table[id.value]) == roots
  }

  /** Every union on the way to the last element is interned. */
  ghost predicate UnionsInterned(table: Table, origins: seq<Option<nat>>)
    requires OriginsKnown(table, origins)
  {
    forall n :: 0 <= n <= |origins| && SomeOrigin(origins[..n]) ==> Interned(table, RootsOf(table, origins[..n]))
  }

  lemma {:induction false} NextElement(table: Table, origins: seq<Option<nat>>, k: nat)
    requires OriginsKnown(table, origins) && origins != [] && k < |origins|
    ensures
      var n := |origins| - 1;
      var last := origins[n];
      && RootsOf(table, origins[k..]) == RootsOf(table, origins[k..n]) + (if last.Some? then Roots(table[last.value]) else {})
      && (SomeOrigin(origins[k..]) <==> SomeOrigin(origins[k..n]) || last.Some?)
  {
    var n := |origins| - 1;
    var x, y := origins[k..n], origins[k..];
    assert y[..|y| - 1] == x && y[|y| - 1] == origins[n];
    if SomeOrigin(x) {
      var i :| 0 <= i < |x| && x[i].Some?;
      assert y[i].Some?;
    }
    if SomeOrigin(y) {
      var i :| 0 <= i < |y| && y[i].Some?;
      assert i < |x| ==> x[i].Some?;
    }
  }

  lemma {:induction false} NoElementRoots(table: Table, origins: seq<Option<nat>>)
    requires OriginsKnown(table, origins) && !SomeOrigin(origins)
    ensures RootsOf(table, origins) == {}
    decreases |origins|
  {
    if origins != [] {
      var n := |origins| - 1;
      assert origins[n].None?;
      forall i | 0 <= i < n ensures origins[..n][i].None? { assert origins[i].None?; }
      NoElementRoots(table, origins[..n]);
    }
  }

  /** The loop computes the union of the elements after the last restart. */
  lemma {:induction false} TupleIsUnion(table: Table, origins: seq<Option<nat>>)
    requires Canonical(table) && OriginsKnown(table, origins)
    ensures
      var since := origins[Restart(table, origins)..];
      && (TupleOrigin(table, origins).Some? <==> SomeOrigin(since))
      && HasRoots(table, TupleOrigin(table, origins), RootsOf(table, since))
    decreases |origins|
  {
    hide Canonical, RootsOf, SomeOrigin, UnionId, Interned, Roots;
    if origins != [] {
      var n := |origins| - 1;
      var k := Restart(table, origins[..n]);
      TupleIsUnion(table, origins[..n]);
      assert origins[..n][k..] == origins[k..n];
      NextElement(table, origins, k);
      AddElement(table, origins, k, TupleOrigin(table, origins[..n]));
    } else {
      Nothing(table);
      assert origins[0..] == [];
    }
  }

  lemma {:induction false} Nothing(table: Table)
    ensures OriginsKnown(table, []) && RootsOf(table, []) == {} && !SomeOrigin([])
  {
  }

  lemma {:induction false} AddElement(table: Table, origins: seq<Option<nat>>, k: nat, before: Option<nat>)
    requires Canonical(table) && OriginsKnown(table, origins) && origins != [] && k < |origins|
    requires k == Restart(table, origins[..|origins| - 1]) && before == TupleOrigin(table, origins[..|origins| - 1])
    requires before.Some? <==> SomeOrigin(origins[k..|origins| - 1])
    requires HasRoots(table, before, RootsOf(table, origins[k..|origins| - 1]))
    ensures
      var since := origins[Restart(table, origins)..];
      && (TupleOrigin(table, origins).Some? <==> SomeOrigin(since))
      && HasRoots(table, TupleOrigin(table, origins), RootsOf(table, since))
  {
    hide Canonical, RootsOf, SomeOrigin, UnionId, Interned, Roots;
    var n := |origins| - 1;
    var last := origins[n];
    NextElement(table, origins, k);
    if before.Some? && last.Some? {
      UnionOrRestart(table, before.value, last.value, RootsOf(table, origins[k..]));
      assert origins[n + 1..] == [];
      Nothing(table);
    } else if before.None? && last.Some? {
      NoElementRoots(table, origins[k..n]);
    }
  }

  lemma {:induction false} UnionOrRestart(table: Table, left: nat, right: nat, roots: set<nat>)
    requires Canonical(table) && left < |table| && right < |table| && roots == Roots(table[left]) + Roots(table[right])
    ensures UnionId(table, Some(left), Some(right)).Some? <==> Interned(table, roots)
    ensures UnionId(table, Some(left), Some(right)).Some? ==> HasRoots(table, UnionId(table, Some(left), Some(right)), roots)
  {
    hide Canonical, UnionId, Roots;
    UnionIdExact(table, Some(left), Some(right));
    if Interned(table, roots) {
      var id: nat :| id < |table| && Roots(table[id]) == roots;
      assert IsUnion(table, left, right, id);
    }
  }

  lemma {:induction false} SplitRoots(table: Table, origins: seq<Option<nat>>, k: nat)
    requires OriginsKnown(table, origins) && k <= |origins|
    ensures RootsOf(table, origins) == RootsOf(table, origins[..k]) + RootsOf(table, origins[k..])
    decreases |origins|
  {
    hide Roots;
    if k == |origins| {
      assert origins[..k] == origins && origins[k..] == [];
    } else {
      var n := |origins| - 1;
      SplitRoots(table, origins[..n], k);
      assert origins[..n][..k] == origins[..k] && origins[..n][k..] == origins[k..n];
      NextElement(table, origins, k);
    }
  }

  /** The tuple has the roots of all its elements if and only if those before the last restart
      occur again after it. */
  lemma {:induction false} TupleCovers(table: Table, origins: seq<Option<nat>>)
    requires Canonical(table) && OriginsKnown(table, origins)
    ensures
      var k := Restart(table, origins);
      HasRoots(table, TupleOrigin(table, origins), RootsOf(table, origins)) <==> RootsOf(table, origins[..k]) <= RootsOf(table, origins[k..])
  {
    hide Canonical, RootsOf, TupleOrigin, Restart;
    TupleIsUnion(table, origins);
    SplitRoots(table, origins, Restart(table, origins));
  }

  /** There is no restart if and only if every union on the way is interned. */
  lemma {:induction false} NoRestart(table: Table, origins: seq<Option<nat>>)
    requires OriginsKnown(table, origins)
    ensures Restart(table, origins) == 0 <==> UnionsInterned(table, origins)
    decreases |origins|
  {
    hide RootsOf, SomeOrigin, Interned;
    if origins == [] {
      Nothing(table);
    } else {
      var n := |origins| - 1;
      NoRestart(table, origins[..n]);
      forall m | 0 <= m <= n ensures origins[..n][..m] == origins[..m] { }
      assert origins[0..] == origins[..n + 1] == origins && origins[0..n] == origins[..n];
      NextElement(table, origins, 0);
      assert UnionsInterned(table, origins) <==>
        UnionsInterned(table, origins[..n]) && (SomeOrigin(origins) ==> Interned(table, RootsOf(table, origins)));
      if UnionsInterned(table, origins[..n]) && !(origins[n].Some? && SomeOrigin(origins[..n])) { LastUnion(table, origins); }
    }
  }

  lemma {:induction false} LastUnion(table: Table, origins: seq<Option<nat>>)
    requires OriginsKnown(table, origins) && origins != [] && UnionsInterned(table, origins[..|origins| - 1])
    requires !(origins[|origins| - 1].Some? && SomeOrigin(origins[..|origins| - 1]))
    ensures SomeOrigin(origins) ==> Interned(table, RootsOf(table, origins))
  {
    var n := |origins| - 1;
    assert origins[0..] == origins && origins[0..n] == origins[..n];
    NextElement(table, origins, 0);
    if origins[n].Some? {
      NoElementRoots(table, origins[..n]);
    } else if SomeOrigin(origins) {
      assert origins[..n][..n] == origins[..n];
    }
  }

  /** So if every union on the way is interned, the tuple has the union of its elements. */
  lemma {:induction false} TupleOfInterned(table: Table, origins: seq<Option<nat>>)
    requires Canonical(table) && OriginsKnown(table, origins) && UnionsInterned(table, origins)
    ensures TupleOrigin(table, origins).Some? <==> SomeOrigin(origins)
    ensures HasRoots(table, TupleOrigin(table, origins), RootsOf(table, origins))
  {
    hide Canonical, RootsOf, TupleOrigin, Restart, UnionsInterned;
    NoRestart(table, origins);
    TupleIsUnion(table, origins);
    assert origins[0..] == origins;
  }

  /** Of three elements with origins {0}, {1} and {2}, none of whose unions is interned, the
      tuple keeps the last. */
  lemma {:induction false} TupleForgets() returns (table: Table, origins: seq<Option<nat>>)
    ensures Canonical(table) && OriginsKnown(table, origins)
    ensures TupleOrigin(table, origins) == Some(2) && !HasRoots(table, Some(2), RootsOf(table, origins))
  {
    table, origins := [[0], [1], [2]], [Some(0), Some(1), Some(2)];
    assert Merge([0], [1]) == [0, 1] by { assert Merge([], [1]) == [1] + Merge([], []); }
    assert FindSet(table, [0, 1], 0) == None;
    hide Merge, FindSet;
    assert origins[..2][..1] == origins[..1] == [Some(0)];
    assert origins[..2] == [Some(0), Some(1)];
    assert TupleOrigin(table, origins[..1]) == Some(0) by { assert origins[..1][..0] == []; }
    assert TupleOrigin(table, origins[..2]) == None;
    SplitRoots(table, origins, 1);
    assert RootsOf(table, origins[..1]) == Roots(table[0]);
    assert 0 in Roots(table[0]) && 0 !in Roots(table[2]);
  }

  /** The loop over the elements of a tuple. */
  method JoinElements(table: Table, origins: seq<Option<nat>>) returns (origin: Option<nat>)
    requires Canonical(table) && OriginsKnown(table, origins)
    ensures origin == TupleOrigin(table, origins)
    ensures HasRoots(table, origin, RootsOf(table, origins[Restart(table, origins)..]))
  {
    hide Canonical, UnionId, UnionOf, Restart, RootsOf;
    origin := None;
    var i := 0;
    while i < |origins|
      invariant 0 <= i <= |origins| && origin == TupleOrigin(table, origins[..i])
    {
      assert origins[..i + 1][..i] == origins[..i];
      if origins[i].Some? {
        if origin.None? { origin := origins[i]; } else { origin := Union(table, origin, origins[i]); }
      }
      i := i + 1;
    }
    assert origins[..i] == origins;
    TupleIsUnion(table, origins);
  }
}
