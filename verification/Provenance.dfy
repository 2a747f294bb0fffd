/** Interned sets of capability roots, and how branches join them. */
module Provenance {
  import opened Options

  type Table = seq<seq<nat>>

  ghost predicate Ascending(s: seq<nat>) {
    forall i, j :: 0 <= i < j < |s| ==> s[i] < s[j]
  }

  ghost function Roots(s: seq<nat>): set<nat> {
    set x | x in s
  }

  /** The table as the type checker leaves it: sorted sets, each interned once. */
  ghost predicate Canonical(table: Table) {
    && (forall i :: 0 <= i < |table| ==> Ascending(table[i]))
    && (forall i, j :: 0 <= i < j < |table| ==> table[i] != table[j])
  }

  /** A sorted sequence is determined by its elements. */
  lemma {:induction false} SameRoots(x: seq<nat>, y: seq<nat>)
    requires Ascending(x) && Ascending(y) && Roots(x) == Roots(y)
    ensures x == y
    decreases |x|
  {
    assert y == [] || y[0] in Roots(y);
    if x != [] {
      assert x[0] in Roots(y) && y != [];
      assert y[0] in Roots(x);
      assert x[0] == y[0];
      forall v ensures v in Roots(x[1..]) <==> v in Roots(y[1..]) {
        assert v in Roots(x) <==> v == x[0] || v in Roots(x[1..]);
        assert v in Roots(y) <==> v == y[0] || v in Roots(y[1..]);
        assert x[0] !in Roots(x[1..]) && y[0] !in Roots(y[1..]);
      }
      SameRoots(x[1..], y[1..]);
    }
  }

  /** Each set has one identifier. */
  lemma {:induction false} UniqueId(table: Table, i: nat, j: nat)
    requires Canonical(table) && i < |table| && j < |table| && Roots(table[i]) == Roots(table[j])
    ensures i == j
  {
    SameRoots(table[i], table[j]);
  }

  // ------------------------------------------------------------------------ union

  /** The merge of two sorted sequences, duplicates taken once. */
  function Merge(left: seq<nat>, right: seq<nat>): seq<nat> {
    if left == [] && right == [] then []
    else if right == [] || (left != [] && left[0] < right[0]) then [left[0]] + Merge(left[1..], right)
    else if left == [] || right[0] < left[0] then [right[0]] + Merge(left, right[1..])
    else [left[0]] + Merge(left[1..], right[1..])
  }

  lemma {:induction false} MergeMembers(left: seq<nat>, right: seq<nat>, x: nat)
    ensures x in Merge(left, right) <==> x in left || x in right
    decreases |left| + |right|
  {
    if left == [] && right == [] {
    } else if right == [] || (left != [] && left[0] < right[0]) {
      MergeMembers(left[1..], right, x);
      assert x in left <==> x == left[0] || x in left[1..];
    } else if left == [] || right[0] < left[0] {
      MergeMembers(left, right[1..], x);
      assert x in right <==> x == right[0] || x in right[1..];
    } else {
      MergeMembers(left[1..], right[1..], x);
      assert x in left <==> x == left[0] || x in left[1..];
      assert x in right <==> x == right[0] || x in right[1..];
    }
  }

  ghost predicate Below(x: nat, s: seq<nat>) {
    forall i :: 0 <= i < |s| ==> x < s[i]
  }

  lemma {:induction false} AscendingTail(s: seq<nat>)
    requires Ascending(s) && s != []
    ensures Ascending(s[1..]) && Below(s[0], s[1..])
    ensures forall x :: Below(x, s) ==> x < s[0] && Below(x, s[1..])
    ensures forall x: nat :: x < s[0] ==> Below(x, s)
  {
  }

  lemma {:induction false} AscendingHead(head: nat, rest: seq<nat>)
    requires Ascending(rest) && Below(head, rest)
    ensures Ascending([head] + rest)
    ensures forall x: nat :: x < head && Below(x, rest) ==> Below(x, [head] + rest)
  {
  }

  lemma {:induction false} MergeAscends(left: seq<nat>, right: seq<nat>)
    requires Ascending(left) && Ascending(right)
    ensures Ascending(Merge(left, right))
    ensures forall x: nat :: Below(x, left) && Below(x, right) ==> Below(x, Merge(left, right))
    decreases |left| + |right|
  {
    if left != [] { AscendingTail(left); }
    if right != [] { AscendingTail(right); }
    assert forall x: nat :: left == [] ==> Below(x, left);
    assert forall x: nat :: right == [] ==> Below(x, right);
    hide Ascending, Below;
    if left == [] && right == [] {
    } else if right == [] || (left != [] && left[0] < right[0]) {
      MergeAscends(left[1..], right);
      AscendingHead(left[0], Merge(left[1..], right));
    } else if left == [] || right[0] < left[0] {
      MergeAscends(left, right[1..]);
      AscendingHead(right[0], Merge(left, right[1..]));
    } else {
      MergeAscends(left[1..], right[1..]);
      AscendingHead(left[0], Merge(left[1..], right[1..]));
    }
  }

  /** Merging is union. */
  lemma {:induction false} MergeIsUnion(left: seq<nat>, right: seq<nat>)
    requires Ascending(left) && Ascending(right)
    ensures Ascending(Merge(left, right))
    ensures Roots(Merge(left, right)) == Roots(left) + Roots(right)
  {
    MergeAscends(left, right);
    forall x: nat ensures x in Merge(left, right) <==> x in left || x in right { MergeMembers(left, right, x); }
  }

  /** The two-cursor comparison of a candidate with the merge of two sets. */
  method EqualsMerge(left: seq<nat>, right: seq<nat>, candidate: seq<nat>) returns (equal: bool)
    ensures equal <==> candidate == Merge(left, right)
  {
    hide Merge;
    var i, j, k := 0, 0, 0;
    equal := true;
    assert left[0..] == left && right[0..] == right && candidate[0..] == candidate;
    while i < |left| || j < |right|
      invariant 0 <= i <= |left| && 0 <= j <= |right| && 0 <= k <= |candidate|
      invariant candidate == Merge(left, right) <==> equal && candidate[k..] == Merge(left[i..], right[j..])
      decreases |left| - i + |right| - j
    {
      MergeStep(left, right, i, j);
      var root;
      if j == |right| || (i < |left| && left[i] < right[j]) {
        root := left[i];
        i := i + 1;
      } else if i == |left| || right[j] < left[i] {
        root := right[j];
        j := j + 1;
      } else {
        root := left[i];
        i, j := i + 1, j + 1;
      }
      StartsWith(candidate, k, root, Merge(left[i..], right[j..]));
      if k >= |candidate| {
        equal := false;
      } else {
        if candidate[k] != root { equal := false; }
        k := k + 1;
      }
    }
    equal := equal && k == |candidate|;
    EmptyMerge(left[i..], right[j..]);
  }

  lemma {:induction false} EmptyMerge(left: seq<nat>, right: seq<nat>)
    requires left == [] && right == []
    ensures Merge(left, right) == []
  {
  }

  lemma {:induction false} MergeStep(left: seq<nat>, right: seq<nat>, i: nat, j: nat)
    requires i <= |left| && j <= |right| && (i < |left| || j < |right|)
    ensures Merge(left[i..], right[j..]) ==
      if j == |right| || (i < |left| && left[i] < right[j]) then [left[i]] + Merge(left[i + 1..], right[j..])
      else if i == |left| || right[j] < left[i] then [right[j]] + Merge(left[i..], right[j + 1..])
      else [left[i]] + Merge(left[i + 1..], right[j + 1..])
  {
    if i < |left| { assert left[i..][1..] == left[i + 1..]; }
    if j < |right| { assert right[j..][1..] == right[j + 1..]; }
  }

  lemma {:induction false} StartsWith(s: seq<nat>, k: nat, root: nat, rest: seq<nat>)
    requires k <= |s|
    ensures s[k..] == [root] + rest <==> k < |s| && s[k] == root && s[k + 1..] == rest
  {
    if k < |s| {
      assert s[k..] == [s[k]] + s[k + 1..];
      assert ([root] + rest)[1..] == rest && ([s[k]] + s[k + 1..])[1..] == s[k + 1..];
    }
  }

  ghost predicate IsUnion(table: Table, left: nat, right: nat, id: nat)
    requires left < |table| && right < |table|
  {
    id < |table| && Roots(table[id]) == Roots(table[left]) + Roots(table[right])
  }

  /** The search for the union of two interned sets: the identifier of the set with exactly
      their roots, or nothing if no such set is interned. */
  method Union(table: Table, left: Option<nat>, right: Option<nat>) returns (id: Option<nat>)
    requires Canonical(table)
    ensures id == UnionOf(table, left, right) && id == UnionId(table, left, right)
  {
    UnionIdExact(table, left, right);
    hide UnionId;
    if left.None? || right.None? || left.value >= |table| || right.value >= |table| { return None; }
    var l, r := table[left.value], table[right.value];
    MergeIsUnion(l, r);
    hide Merge, Roots, Ascending;
    id := None;
    var i := 0;
    while i < |table|
      invariant 0 <= i <= |table|
      invariant forall k :: 0 <= k < i ==> !IsUnion(table, left.value, right.value, k)
    {
      var equal := EqualsMerge(l, r, table[i]);
      if equal {
        UnionFound(table, left.value, right.value, i);
        return Some(i);
      }
      if IsUnion(table, left.value, right.value, i) { SameRoots(table[i], Merge(l, r)); }
      i := i + 1;
    }
    assert forall k: nat :: k < |table| ==> !IsUnion(table, left.value, right.value, k);
  }

  /** What a search for a union is to return. */
  ghost function UnionOf(table: Table, left: Option<nat>, right: Option<nat>): (id: Option<nat>)
    ensures id.Some? ==> left.Some? && right.Some? && left.value < |table| && right.value < |table|
                         && IsUnion(table, left.value, right.value, id.value)
    ensures id.None? && left.Some? && right.Some? && left.value < |table| && right.value < |table| ==>
      forall k: nat :: !IsUnion(table, left.value, right.value, k)
  {
    if left.None? || right.None? || left.value >= |table| || right.value >= |table| then None
    else if k: nat :| IsUnion(table, left.value, right.value, k) then Some(k)
    else None
  }

  lemma {:induction false} UnionFound(table: Table, left: nat, right: nat, id: nat)
    requires Canonical(table) && left < |table| && right < |table| && IsUnion(table, left, right, id)
    ensures UnionOf(table, Some(left), Some(right)) == Some(id)
  {
    UniqueId(table, UnionOf(table, Some(left), Some(right)).value, id);
  }

  /** The first set of the table that equals s. */
  function FindSet(table: Table, s: seq<nat>, from: nat): (id: Option<nat>)
    requires from <= |table|
    ensures id.Some? ==> from <= id.value < |table| && table[id.value] == s
    ensures id.None? ==> forall k :: from <= k < |table| ==> table[k] != s
    decreases |table| - from
  {
    if from == |table| then None else if table[from] == s then Some(from) else FindSet(table, s, from + 1)
  }

  /** The search as a function. */
  function UnionId(table: Table, left: Option<nat>, right: Option<nat>): Option<nat> {
    if left.None? || right.None? || left.value >= |table| || right.value >= |table| then None
    else FindSet(table, Merge(table[left.value], table[right.value]), 0)
  }

  lemma {:induction false} UnionIdExact(table: Table, left: Option<nat>, right: Option<nat>)
    requires Canonical(table)
    ensures UnionId(table, left, right) == UnionOf(table, left, right)
  {
    if left.Some? && right.Some? && left.value < |table| && right.value < |table| {
      var l, r := table[left.value], table[right.value];
      MergeIsUnion(l, r);
      hide Merge, FindSet, Roots, Ascending;
      var id := UnionId(table, left, right);
      if id.Some? {
        UnionFound(table, left.value, right.value, id.value);
      } else {
        forall k: nat ensures !IsUnion(table, left.value, right.value, k) {
          if IsUnion(table, left.value, right.value, k) { SameRoots(table[k], Merge(l, r)); }
        }
      }
    }
  }

  // ------------------------------------------------------------------------ joins

  /** A branch of if or match: it never completes, its origin is not known, or it yields a
      value with an interned origin. */
  datatype Arm = Never | Unusable | Yields(origin: nat)

  ghost predicate ArmsKnown(table: Table, arms: seq<Arm>) {
    forall i :: 0 <= i < |arms| && arms[i].Yields? ==> arms[i].origin < |table|
  }

  ghost predicate SomeValue(arms: seq<Arm>) {
    exists i :: 0 <= i < |arms| && arms[i].Yields?
  }

  /** The roots of all branches together. */
  ghost function AllRoots(table: Table, arms: seq<Arm>): set<nat>
    requires ArmsKnown(table, arms)
  {
    set i, x | 0 <= i < |arms| && arms[i].Yields? && x in table[arms[i].origin] :: x
  }

  ghost predicate Interned(table: Table, roots: set<nat>) {
    exists id: nat :: id < |table| && Roots(table[id]) == roots
  }

  /** Every union on the way to the join is interned. */
  ghost predicate PrefixesInterned(table: Table, arms: seq<Arm>)
    requires ArmsKnown(table, arms)
  {
    forall n :: 0 <= n <= |arms| && SomeValue(arms[..n]) ==> Interned(table, AllRoots(table, arms[..n]))
  }

  /** What a join is to return: the identifier of the union of all branches, which exists
      if and only if no branch is unusable, some branch yields a value, and every union on
      the way is interned. */
  ghost predicate IsJoin(table: Table, arms: seq<Arm>, origin: Option<nat>)
    requires ArmsKnown(table, arms)
  {
    && (origin.Some? <==> Unusable !in arms && SomeValue(arms) && PrefixesInterned(table, arms))
    && (origin.Some? ==> origin.value < |table| && Roots(table[origin.value]) == AllRoots(table, arms))
  }

  method Join(table: Table, arms: seq<Arm>) returns (origin: Option<nat>)
    requires Canonical(table) && ArmsKnown(table, arms)
    ensures IsJoin(table, arms, origin) && origin == JoinId(table, arms)
  {
    hide Canonical, IsJoin, Roots, UnionId;
    origin := None;
    var i := 0;
    NothingJoined(table, arms);
    while i < |arms|
      invariant 0 <= i <= |arms|
      invariant Joined(table, arms, i, origin) && JoinFold(table, arms, i) == Some(origin)
    {
      var value := arms[i];
      if value.Unusable? {
        Rejected(table, arms, i);
        FoldFails(table, arms, i + 1, |arms|);
        return None;
      }
      ghost var before := origin;
      if value.Yields? {
        if origin.None? {
          origin := Some(value.origin);
        } else {
          origin := Union(table, origin, Some(value.origin));
          if origin.None? {
            UnionMissing(table, arms, i, before.value);
            FoldFails(table, arms, i + 1, |arms|);
            return;
          }
        }
      }
      JoinStep(table, arms, i, before, origin);
      i := i + 1;
    }
    JoinComplete(table, arms, origin);
  }

  /** The join of the first n branches: nothing if it failed, else the origin so far. */
  function JoinFold(table: Table, arms: seq<Arm>, n: nat): Option<Option<nat>>
    requires n <= |arms|
  {
    if n == 0 then Some(None)
    else match JoinFold(table, arms, n - 1)
      case None => None
      case Some(origin) =>
        match arms[n - 1]
        case Never => Some(origin)
        case Unusable => None
        case Yields(id) =>
          if origin.None? then Some(Some(id))
          else if UnionId(table, origin, Some(id)).None? then None
          else Some(UnionId(table, origin, Some(id)))
  }

  /** The join as a function. */
  function JoinId(table: Table, arms: seq<Arm>): Option<nat> {
    if JoinFold(table, arms, |arms|).Some? then JoinFold(table, arms, |arms|).value else None
  }

  lemma {:induction false} FoldFails(table: Table, arms: seq<Arm>, m: nat, n: nat)
    requires m <= n <= |arms| && JoinFold(table, arms, m).None?
    ensures JoinFold(table, arms, n).None?
    decreases n - m
  {
    if m < n { FoldFails(table, arms, m, n - 1); }
  }

  /** It is the join that the loop computes. */
  lemma {:induction false} JoinIdIsJoin(table: Table, arms: seq<Arm>)
    requires Canonical(table) && ArmsKnown(table, arms)
    ensures IsJoin(table, arms, JoinId(table, arms))
  {
    hide Canonical, IsJoin, Joined;
    FoldJoined(table, arms, |arms|);
    if JoinFold(table, arms, |arms|).Some? { JoinComplete(table, arms, JoinId(table, arms)); }
  }

  lemma {:induction false} FoldJoined(table: Table, arms: seq<Arm>, n: nat)
    requires Canonical(table) && ArmsKnown(table, arms) && n <= |arms|
    ensures match JoinFold(table, arms, n)
            case None => IsJoin(table, arms, None)
            case Some(origin) => Joined(table, arms, n, origin)
    decreases n
  {
    hide Canonical, IsJoin, Joined, UnionId, Roots;
    if n == 0 {
      NothingJoined(table, arms);
    } else {
      FoldJoined(table, arms, n - 1);
      if JoinFold(table, arms, n - 1).Some? {
        var before, arm := JoinFold(table, arms, n - 1).value, arms[n - 1];
        JoinedInRange(table, arms, n - 1, before);
        if arm.Unusable? {
          Rejected(table, arms, n - 1);
        } else if arm.Yields? && before.Some? && UnionId(table, before, Some(arm.origin)).None? {
          UnionIdExact(table, before, Some(arm.origin));
          UnionMissing(table, arms, n - 1, before.value);
        } else {
          UnionIdExact(table, before, if arm.Yields? then Some(arm.origin) else None);
          JoinStep(table, arms, n - 1, before, JoinFold(table, arms, n).value);
        }
      }
    }
  }

  lemma {:induction false} JoinedInRange(table: Table, arms: seq<Arm>, n: nat, origin: Option<nat>)
    requires ArmsKnown(table, arms) && n <= |arms| && Joined(table, arms, n, origin)
    ensures origin.Some? ==> origin.value < |table|
  {
  }

  /** The state of the loop before branch i. */
  ghost predicate Joined(table: Table, arms: seq<Arm>, i: nat, origin: Option<nat>)
    requires ArmsKnown(table, arms) && i <= |arms|
  {
    && Unusable !in arms[..i]
    && (origin.Some? <==> SomeValue(arms[..i]))
    && (origin.Some? ==> origin.value < |table| && Roots(table[origin.value]) == AllRoots(table, arms[..i]))
    && PrefixesInterned(table, arms[..i])
  }

  lemma {:induction false} NothingJoined(table: Table, arms: seq<Arm>)
    requires ArmsKnown(table, arms)
    ensures Joined(table, arms, 0, None)
  {
  }

  lemma {:induction false} NextRoots(table: Table, arms: seq<Arm>, i: nat)
    requires ArmsKnown(table, arms) && i < |arms|
    ensures SomeValue(arms[..i + 1]) <==> SomeValue(arms[..i]) || arms[i].Yields?
    ensures AllRoots(table, arms[..i + 1])
      == AllRoots(table, arms[..i]) + if arms[i].Yields? then Roots(table[arms[i].origin]) else {}
  {
    var x, y := arms[..i], arms[..i + 1];
    assert y == x + [arms[i]];
    if SomeValue(x) {
      var k :| 0 <= k < |x| && x[k].Yields?;
      assert y[k].Yields?;
    }
    forall r | r in AllRoots(table, x) ensures r in AllRoots(table, y) {
      var k :| 0 <= k < |x| && x[k].Yields? && r in table[x[k].origin];
      assert y[k] == x[k];
    }
    if arms[i].Yields? {
      assert y[i] == arms[i];
      assert forall r :: r in table[y[i].origin] ==> r in AllRoots(table, y);
    }
  }

  lemma {:induction false} PrefixesNext(table: Table, arms: seq<Arm>, i: nat)
    requires ArmsKnown(table, arms) && i < |arms| && PrefixesInterned(table, arms[..i])
    requires SomeValue(arms[..i + 1]) ==> Interned(table, AllRoots(table, arms[..i + 1]))
    ensures PrefixesInterned(table, arms[..i + 1])
  {
    var y := arms[..i + 1];
    forall n | 0 <= n <= |y| && SomeValue(y[..n]) ensures Interned(table, AllRoots(table, y[..n])) {
      if n <= i { assert y[..n] == arms[..i][..n]; } else { assert y[..n] == y; }
    }
  }

  lemma {:induction false} JoinStep(table: Table, arms: seq<Arm>, i: nat, before: Option<nat>, after: Option<nat>)
    requires ArmsKnown(table, arms) && i < |arms| && Joined(table, arms, i, before) && !arms[i].Unusable?
    requires !arms[i].Yields? ==> after == before
    requires arms[i].Yields? && before.None? ==> after == Some(arms[i].origin)
    requires arms[i].Yields? && before.Some? ==> after.Some? && IsUnion(table, before.value, arms[i].origin, after.value)
    ensures Joined(table, arms, i + 1, after)
  {
    hide PrefixesInterned, AllRoots, SomeValue;
    NextRoots(table, arms, i);
    assert arms[..i + 1] == arms[..i] + [arms[i]];
    if before.None? { NoRoots(table, arms[..i]); }
    PrefixesNext(table, arms, i);
  }

  lemma {:induction false} NoRoots(table: Table, arms: seq<Arm>)
    requires ArmsKnown(table, arms) && !SomeValue(arms)
    ensures AllRoots(table, arms) == {}
  {
  }

  lemma {:induction false} Rejected(table: Table, arms: seq<Arm>, i: nat)
    requires ArmsKnown(table, arms) && i < |arms| && arms[i].Unusable?
    ensures IsJoin(table, arms, None)
  {
    assert arms[i] in arms;
  }

  lemma {:induction false} PrefixUnion(table: Table, arms: seq<Arm>, i: nat, left: nat)
    requires ArmsKnown(table, arms) && i < |arms| && arms[i].Yields? && Joined(table, arms, i, Some(left))
    requires PrefixesInterned(table, arms)
    ensures exists k: nat :: IsUnion(table, left, arms[i].origin, k)
  {
    NextRoots(table, arms, i);
    assert Interned(table, AllRoots(table, arms[..i + 1]));
    var id: nat :| id < |table| && Roots(table[id]) == AllRoots(table, arms[..i + 1]);
    assert IsUnion(table, left, arms[i].origin, id);
  }

  lemma {:induction false} UnionMissing(table: Table, arms: seq<Arm>, i: nat, left: nat)
    requires ArmsKnown(table, arms) && i < |arms| && arms[i].Yields? && Joined(table, arms, i, Some(left))
    requires forall k: nat :: !IsUnion(table, left, arms[i].origin, k)
    ensures IsJoin(table, arms, None)
  {
    if PrefixesInterned(table, arms) { PrefixUnion(table, arms, i, left); }
  }

  lemma {:induction false} JoinComplete(table: Table, arms: seq<Arm>, origin: Option<nat>)
    requires ArmsKnown(table, arms) && Joined(table, arms, |arms|, origin)
    ensures IsJoin(table, arms, origin)
  {
    assert arms[..|arms|] == arms;
  }

  /** The order of branches does not matter whenever both joins exist; and the two orders agree
      if and only if no join exists anyway, or both or none of them find all unions on the way. */
  lemma {:induction false} JoinOrder(table: Table, x: seq<Arm>, y: seq<Arm>, a: Option<nat>, b: Option<nat>)
    requires Canonical(table) && ArmsKnown(table, x) && ArmsKnown(table, y) && multiset(x) == multiset(y)
    requires IsJoin(table, x, a) && IsJoin(table, y, b)
    ensures a.Some? && b.Some? ==> a == b
    ensures (forall roots :: Reachable(table, x, roots) ==> Interned(table, roots)) ==> a == b
    ensures a == b <==> (Unusable in x || !SomeValue(x) || (PrefixesInterned(table, x) <==> PrefixesInterned(table, y)))
  {
    SameArms(table, x, y);
    if a.Some? && b.Some? { UniqueId(table, a.value, b.value); }
    if forall roots :: Reachable(table, x, roots) ==> Interned(table, roots) {
      AllInterned(table, x, x);
      AllInterned(table, x, y);
    }
  }

  /** The union of some of the branches. */
  ghost predicate Reachable(table: Table, arms: seq<Arm>, roots: set<nat>)
    requires ArmsKnown(table, arms)
  {
    exists part: seq<Arm> :: SomeValue(part) && IsPart(part, arms) && ArmsKnown(table, part) && AllRoots(table, part) == roots
  }

  ghost predicate IsPart(part: seq<Arm>, arms: seq<Arm>) {
    forall a :: a in part ==> a in arms
  }

  lemma {:induction false} SameArms(table: Table, x: seq<Arm>, y: seq<Arm>)
    requires ArmsKnown(table, x) && ArmsKnown(table, y) && multiset(x) == multiset(y)
    ensures IsPart(x, y) && IsPart(y, x)
    ensures AllRoots(table, x) == AllRoots(table, y) && (SomeValue(x) <==> SomeValue(y))
  {
    forall a ensures a in x <==> a in y { assert a in x <==> a in multiset(x); assert a in y <==> a in multiset(y); }
    PartRoots(table, x, y);
    PartRoots(table, y, x);
  }

  lemma {:induction false} PartRoots(table: Table, x: seq<Arm>, y: seq<Arm>)
    requires ArmsKnown(table, y) && IsPart(x, y)
    ensures ArmsKnown(table, x) && AllRoots(table, x) <= AllRoots(table, y) && (SomeValue(x) ==> SomeValue(y))
  {
    forall i | 0 <= i < |x| && x[i].Yields? ensures exists j :: 0 <= j < |y| && y[j] == x[i] { assert x[i] in x; assert x[i] in y; }
    forall r | r in AllRoots(table, x) ensures r in AllRoots(table, y) {
      var i :| 0 <= i < |x| && x[i].Yields? && r in table[x[i].origin];
      var j :| 0 <= j < |y| && y[j] == x[i];
    }
  }

  lemma {:induction false} AllInterned(table: Table, x: seq<Arm>, y: seq<Arm>)
    requires ArmsKnown(table, x) && ArmsKnown(table, y) && IsPart(y, x)
    requires forall roots :: Reachable(table, x, roots) ==> Interned(table, roots)
    ensures PrefixesInterned(table, y)
  {
    forall n | 0 <= n <= |y| && SomeValue(y[..n]) ensures Interned(table, AllRoots(table, y[..n])) {
      assert IsPart(y[..n], x);
      assert Reachable(table, x, AllRoots(table, y[..n]));
    }
  }

  /** Without the intermediate unions the order does matter: {0} joined with {1} is not
      interned here, but {0} joined with {0, 2} and then {1} is. */
  lemma {:induction false} OrderMatters() returns (table: Table, x: seq<Arm>, y: seq<Arm>)
    ensures Canonical(table) && ArmsKnown(table, x) && ArmsKnown(table, y) && multiset(x) == multiset(y)
    ensures IsJoin(table, x, None) && IsJoin(table, y, Some(3))
  {
    table := [[0], [1], [0, 2], [0, 1, 2]];
    x, y := [Yields(0), Yields(1), Yields(2)], [Yields(0), Yields(2), Yields(1)];
    hide IsJoin;
    OrderFails(table, x);
    OrderWorks(table, y);
  }

  lemma {:induction false} OrderFails(table: Table, x: seq<Arm>)
    requires table == [[0], [1], [0, 2], [0, 1, 2]] && x == [Yields(0), Yields(1), Yields(2)]
    ensures ArmsKnown(table, x) && IsJoin(table, x, None)
  {
    NextRoots(table, x, 0);
    NextRoots(table, x, 1);
    NoRoots(table, x[..0]);
    var both := AllRoots(table, x[..2]);
    assert both == {0, 1};
    assert 1 !in Roots(table[0]) && 0 !in Roots(table[1]) && 1 !in Roots(table[2]) && table[3][2] in Roots(table[3]);
    assert !Interned(table, AllRoots(table, x[..2]));
  }

  lemma {:induction false} OrderWorks(table: Table, y: seq<Arm>)
    requires table == [[0], [1], [0, 2], [0, 1, 2]] && y == [Yields(0), Yields(2), Yields(1)]
    ensures ArmsKnown(table, y) && IsJoin(table, y, Some(3))
  {
    NothingJoined(table, y);
    JoinStep(table, y, 0, None, Some(0));
    assert IsUnion(table, 0, 2, 2) && IsUnion(table, 2, 1, 3);
    JoinStep(table, y, 1, Some(0), Some(2));
    JoinStep(table, y, 2, Some(2), Some(3));
    JoinComplete(table, y, Some(3));
  }
}
