/** The counting sort that lists the definitions of each component side by side. */
module ComponentGroups {

  ghost function CountEqual(s: seq<int>, c: int): nat {
    if s == [] then 0
    else CountEqual(s[..|s| - 1], c) + if s[|s| - 1] == c then 1 else 0
  }

  ghost function CountBelow(s: seq<int>, c: int): nat {
    if s == [] then 0
    else CountBelow(s[..|s| - 1], c) + if s[|s| - 1] < c then 1 else 0
  }

  /** Where the sort puts element u: after all smaller ones and the equal ones before it. */
  ghost function Slot(s: seq<int>, u: nat): nat
    requires u < |s|
  {
    CountBelow(s, s[u]) + CountEqual(s[..u], s[u])
  }

  lemma {:induction false} CountStep(s: seq<int>, c: int)
    ensures CountBelow(s, c + 1) == CountBelow(s, c) + CountEqual(s, c)
  {
    if s != [] { CountStep(s[..|s| - 1], c); }
  }

  lemma {:induction false} CountBounds(s: seq<int>, c: int)
    requires forall x :: x in s ==> 0 <= x
    ensures CountBelow(s, 0) == 0
    ensures (forall x :: x in s ==> x < c) ==> CountBelow(s, c) == |s|
  {
    if s != [] {
      var t := s[..|s| - 1];
      assert forall x :: x in t ==> x in s;
      assert s[|s| - 1] in s;
      CountBounds(t, c);
    }
  }

  lemma {:induction false} CountPrefix(s: seq<int>, c: int, u: nat)
    requires u <= |s|
    ensures CountEqual(s[..u], c) <= CountEqual(s, c)
    ensures u < |s| && s[u] == c ==> CountEqual(s[..u], c) < CountEqual(s, c)
  {
    if u == |s| {
      assert s[..u] == s;
    } else {
      var t := s[..|s| - 1];
      assert t[..u] == s[..u];
      if u == |t| {
        assert t[..u] == t;
      } else {
        CountPrefix(t, c, u);
      }
    }
  }

  lemma {:induction false} BelowMonotone(s: seq<int>, c: int, d: int)
    requires c <= d
    ensures CountBelow(s, c) <= CountBelow(s, d)
  {
    if s != [] { BelowMonotone(s[..|s| - 1], c, d); }
  }

  /** Each slot lies in its own component's range, and no two elements share one. */
  lemma {:induction false} SlotsDistinct(s: seq<int>, u: nat, v: nat)
    requires u < v < |s|
    ensures Slot(s, u) != Slot(s, v)
  {
    SlotInGroup(s, u);
    SlotInGroup(s, v);
    if s[u] == s[v] {
      assert s[..v][..u] == s[..u];
      CountPrefix(s[..v], s[u], u);
    } else if s[u] < s[v] {
      BelowMonotone(s, s[u] + 1, s[v]);
    } else {
      BelowMonotone(s, s[v] + 1, s[u]);
    }
  }

  lemma {:induction false} SlotInGroup(s: seq<int>, u: nat)
    requires u < |s|
    ensures CountBelow(s, s[u]) <= Slot(s, u) < CountBelow(s, s[u] + 1)
  {
    CountStep(s, s[u]);
    CountPrefix(s, s[u], u);
  }

  /** members is a permutation of the elements, grouped by component: offsets delimit the
      groups, and within a group the elements keep their order. */
  ghost predicate Grouped(s: seq<int>, count: nat, offsets: seq<nat>, members: seq<nat>) {
    && |offsets| == count + 1 && |members| == |s|
    && (forall c :: 0 <= c <= count ==> offsets[c] == CountBelow(s, c) <= |s|)
    && (forall u :: 0 <= u < |s| ==> Slot(s, u) < |s| && members[Slot(s, u)] == u)
    && (forall c, k :: 0 <= c < count && offsets[c] <= k < offsets[c + 1] && k < |s| ==>
          members[k] < |s| && s[members[k]] == c && Slot(s, members[k]) == k)
  }

  method Histogram(component: array<int>, count: nat, offsets: array<nat>)
    requires offsets.Length == count + 1 && forall u :: 0 <= u < component.Length ==> 0 <= component[u] < count
    requires forall c :: 0 <= c < offsets.Length ==> offsets[c] == 0
    modifies offsets
    ensures offsets[0] == 0
    ensures forall d :: 1 <= d <= count ==> offsets[d] == CountEqual(component[..], d - 1)
  {
    var index := 0;
    while index < component.Length
      invariant 0 <= index <= component.Length && offsets[0] == 0
      invariant forall d :: 1 <= d <= count ==> offsets[d] == CountEqual(component[..index], d - 1)
    {
      assert component[..index + 1][..index] == component[..index];
      offsets[component[index] + 1] := offsets[component[index] + 1] + 1;
      index := index + 1;
    }
    assert component[..index] == component[..];
  }

  method PrefixSums(ghost s: seq<int>, count: nat, offsets: array<nat>, cursors: array<nat>)
    requires offsets.Length == count + 1 && cursors.Length == count && offsets != cursors
    requires forall x :: x in s ==> 0 <= x < count
    requires offsets[0] == 0 && forall d :: 1 <= d <= count ==> offsets[d] == CountEqual(s, d - 1)
    modifies offsets, cursors
    ensures forall c :: 0 <= c <= count ==> offsets[c] == CountBelow(s, c)
    ensures forall c :: 0 <= c < count ==> cursors[c] == CountBelow(s, c)
  {
    CountBounds(s, 0);
    var c := 0;
    while c < count
      invariant 0 <= c <= count
      invariant forall d :: 0 <= d <= c ==> offsets[d] == CountBelow(s, d)
      invariant forall d :: c < d <= count ==> offsets[d] == CountEqual(s, d - 1)
      invariant forall d :: 0 <= d < c ==> cursors[d] == CountBelow(s, d)
    {
      CountStep(s, c);
      offsets[c + 1] := offsets[c + 1] + offsets[c];
      cursors[c] := offsets[c];
      c := c + 1;
    }
  }

  /** The placement loop after i elements. */
  ghost predicate Placed(s: seq<int>, count: nat, i: nat, cursors: seq<nat>, members: seq<nat>) {
    && i <= |s| == |members| && |cursors| == count
    && (forall c :: 0 <= c < count ==> cursors[c] == CountBelow(s, c) + CountEqual(s[..i], c))
    && (forall u :: 0 <= u < i ==> Slot(s, u) < |s| && members[Slot(s, u)] == u)
    && (forall c, k :: 0 <= c < count && CountBelow(s, c) <= k < cursors[c] && k < |s| ==>
          members[k] < i && s[members[k]] == c && Slot(s, members[k]) == k)
  }

  lemma {:induction false} CountExtend(s: seq<int>, i: nat, c: int)
    requires i < |s|
    ensures CountEqual(s[..i + 1], c) == CountEqual(s[..i], c) + if s[i] == c then 1 else 0
  {
    assert s[..i + 1][..i] == s[..i];
  }

  lemma {:induction false} GroupsApart(s: seq<int>, c: int, i: nat, k: nat)
    requires i < |s| && c != s[i]
    requires CountBelow(s, c) <= k < CountBelow(s, c) + CountEqual(s[..i], c)
    ensures k != Slot(s, i)
  {
    SlotInGroup(s, i);
    CountStep(s, c);
    CountPrefix(s, c, i);
    if c < s[i] { BelowMonotone(s, c + 1, s[i]); } else { BelowMonotone(s, s[i] + 1, c); }
  }

  lemma {:induction false} PlaceNext(s: seq<int>, count: nat, i: nat, cursors: seq<nat>, members: seq<nat>)
    requires Placed(s, count, i, cursors, members) && i < |s|
    requires forall x :: x in s ==> 0 <= x < count
    ensures 0 <= s[i] < count && cursors[s[i]] == Slot(s, i) < |s|
    ensures Placed(s, count, i + 1, cursors[s[i] := cursors[s[i]] + 1], members[Slot(s, i) := i])
  {
    assert s[i] in s;
    var at := Slot(s, i);
    SlotInGroup(s, i);
    CountBounds(s, count);
    BelowMonotone(s, s[i] + 1, count);
    var cursors', members' := cursors[s[i] := cursors[s[i]] + 1], members[at := i];
    hide CountEqual, CountBelow;
    forall c | 0 <= c < count ensures cursors'[c] == CountBelow(s, c) + CountEqual(s[..i + 1], c) {
      CountExtend(s, i, c);
    }
    hide Slot;
    forall u | 0 <= u < i + 1 ensures Slot(s, u) < |s| && members'[Slot(s, u)] == u {
      if u < i { SlotsDistinct(s, u, i); }
    }
    forall c, k | 0 <= c < count && CountBelow(s, c) <= k < cursors'[c] && k < |s|
      ensures members'[k] < i + 1 && s[members'[k]] == c && Slot(s, members'[k]) == k
    {
      if c != s[i] { GroupsApart(s, c, i, k); }
    }
  }

  lemma {:induction false} PlacedAll(s: seq<int>, count: nat, offsets: seq<nat>, cursors: seq<nat>, members: seq<nat>)
    requires Placed(s, count, |s|, cursors, members) && |offsets| == count + 1
    requires forall x :: x in s ==> 0 <= x < count
    requires forall c :: 0 <= c <= count ==> offsets[c] == CountBelow(s, c)
    ensures Grouped(s, count, offsets, members)
  {
    assert s[..|s|] == s;
    CountBounds(s, count);
    forall c | 0 <= c <= count ensures CountBelow(s, c) <= |s| { BelowMonotone(s, c, count); }
    forall c | 0 <= c < count ensures cursors[c] == offsets[c + 1] { CountStep(s, c); }
  }

  method Place(component: array<int>, count: nat, cursors: array<nat>, members: array<nat>)
    requires cursors.Length == count && members.Length == component.Length && cursors != members
    requires forall x :: x in component[..] ==> 0 <= x < count
    requires forall c :: 0 <= c < count ==> cursors[c] == CountBelow(component[..], c)
    modifies cursors, members
    ensures Placed(component[..], count, component.Length, cursors[..], members[..])
  {
    hide CountBelow, CountEqual, Slot, Placed;
    ghost var s := component[..];
    Unplaced(s, count, cursors[..], members[..]);
    var index: nat := 0;
    while index < component.Length
      invariant 0 <= index <= component.Length
      invariant Placed(s, count, index, cursors[..], members[..])
    {
      PlaceNext(s, count, index, cursors[..], members[..]);
      ghost var was, put := cursors[..], members[..];
      var c := component[index];
      members[cursors[c]] := index;
      cursors[c] := cursors[c] + 1;
      assert members[..] == put[Slot(s, index) := index] && cursors[..] == was[c := was[c] + 1];
      index := index + 1;
    }
  }

  method Group(component: array<int>, count: nat) returns (offsets: array<nat>, members: array<nat>)
    requires forall u :: 0 <= u < component.Length ==> 0 <= component[u] < count
    ensures fresh(offsets) && fresh(members)
    ensures Grouped(component[..], count, offsets[..], members[..])
  {
    hide CountBelow, CountEqual, Slot, Placed, Grouped;
    ghost var s := component[..];
    assert forall x :: x in s ==> 0 <= x < count;
    offsets := new nat[count + 1](_ => 0);
    var cursors := new nat[count](_ => 0);
    members := new nat[component.Length](_ => 0);
    Histogram(component, count, offsets);
    PrefixSums(s, count, offsets, cursors);
    Place(component, count, cursors, members);
    PlacedAll(s, count, offsets[..], cursors[..], members[..]);
  }

  lemma {:induction false} Unplaced(s: seq<int>, count: nat, cursors: seq<nat>, members: seq<nat>)
    requires |members| == |s| && |cursors| == count && forall c :: 0 <= c < count ==> cursors[c] == CountBelow(s, c)
    ensures Placed(s, count, 0, cursors, members)
  {
    assert s[..0] == [];
  }
}
