/** The effects report: the calls reachable from each body, found with a worklist, and
    listed in an order that depends on nothing but the calls. */
module EffectsReport {
  import opened Options
  import opened Reachability

  /** An expression: its operands in the order they are pushed, and its kind if it is a
      call that the report lists. */
  datatype Expr = Expr(children: seq<nat>, call: Option<nat>, start: nat, end: nat)

  type Ir = seq<Expr>

  ghost function GraphOf(ir: Ir): Graph {
    set u, i | 0 <= u < |ir| && 0 <= i < |ir[u].children| :: (u, ir[u].children[i])
  }

  ghost predicate InReach(ir: Ir, body: nat, v: nat) {
    Reaches(GraphOf(ir), body, v)
  }

  // ---------------------------------------------------------------------- the worklist

  /** The marks and the stack after some expressions were taken from it. */
  datatype Work = Work(seen: seq<bool>, stack: seq<nat>, taken: seq<nat>)

  ghost predicate Marked(w: Work, v: nat) { v < |w.seen| && w.seen[v] }

  /** Every marked expression is reachable; it waits on the stack or was taken, once. */
  ghost predicate Working(ir: Ir, body: nat, w: Work) {
    && |w.seen| == |ir|
    && Distinct(w.taken + w.stack)
    && (forall v: nat :: Marked(w, v) <==> v in w.taken + w.stack)
    && (forall v: nat :: Marked(w, v) ==> InReach(ir, body, v))
  }

  /** The operands of every expression taken are marked. */
  ghost predicate Spread(ir: Ir, w: Work, taken: seq<nat>) {
    forall u: nat, i: nat :: u in taken && u < |ir| && i < |ir[u].children| ==> Marked(w, ir[u].children[i])
  }

  lemma {:induction false} StackFits(ir: Ir, body: nat, w: Work)
    requires Working(ir, body, w)
    ensures |w.stack| <= |ir|
    ensures forall v: nat :: v < |ir| && !w.seen[v] ==> |w.stack| < |ir|
  {
    var all := w.taken + w.stack;
    forall x | x in all ensures x < |ir| { assert Marked(w, x); }
    DistinctBelow(all, |ir|);
    forall v: nat | v < |ir| && !w.seen[v] ensures |w.stack| < |ir| {
      assert !Marked(w, v) && v !in all;
      var more := all + [v];
      DistinctBelow(more, |ir|);
    }
  }

  ghost function Pushed(w: Work, v: nat): Work
    requires v < |w.seen|
  {
    Work(w.seen[v := true], w.stack + [v], w.taken)
  }

  lemma {:induction false} PushKeeps(ir: Ir, body: nat, w: Work, v: nat)
    requires Working(ir, body, w) && v < |ir| && !w.seen[v] && InReach(ir, body, v)
    ensures Working(ir, body, Pushed(w, v))
    ensures forall x: nat :: Marked(Pushed(w, v), x) <==> Marked(w, x) || x == v
  {
    var x := Pushed(w, v);
    assert x.taken + x.stack == (w.taken + w.stack) + [v];
    assert !Marked(w, v);
  }

  lemma {:induction false} TakeKeeps(ir: Ir, body: nat, w: Work)
    requires Working(ir, body, w) && w.stack != []
    ensures var n := |w.stack| - 1;
            Working(ir, body, Work(w.seen, w.stack[..n], w.taken + [w.stack[n]])) && w.stack[n] < |ir| && InReach(ir, body, w.stack[n])
  {
    var n := |w.stack| - 1;
    var x := Work(w.seen, w.stack[..n], w.taken + [w.stack[n]]);
    var a, b := w.taken + w.stack, x.taken + x.stack;
    assert w.stack == w.stack[..n] + [w.stack[n]];
    forall v: nat ensures v in a <==> v in b { }
    assert Marked(w, w.stack[n]) by { assert w.stack[n] in a; }
    forall i, j | 0 <= i < j < |b| ensures b[i] != b[j] {
      var p, q := Place(w, i), Place(w, j);
      assert a[p] == b[i] && a[q] == b[j];
    }
  }

  function Place(w: Work, i: nat): nat
    requires w.stack != [] && i < |w.taken| + |w.stack|
  {
    if i < |w.taken| then i else if i == |w.taken| then |w.taken| + |w.stack| - 1 else i - 1
  }

  lemma {:induction false} ChildReached(ir: Ir, body: nat, u: nat, i: nat)
    requires u < |ir| && i < |ir[u].children| && InReach(ir, body, u)
    ensures InReach(ir, body, ir[u].children[i])
  {
    var v := ir[u].children[i];
    assert (u, v) in GraphOf(ir);
    ReachesEdge(GraphOf(ir), u, v);
    ReachesThrough(GraphOf(ir), body, u, v);
  }

  /** When the stack is empty, the marks are exactly what is reachable. */
  lemma {:induction false} Complete(ir: Ir, body: nat, w: Work, v: nat)
    requires Working(ir, body, w) && w.stack == [] && Marked(w, body) && Spread(ir, w, w.taken) && InReach(ir, body, v)
    ensures v in w.taken && v < |ir|
  {
    var marks := iset x: nat | Marked(w, x);
    assert w.taken + w.stack == w.taken;
    forall e | e in GraphOf(ir) && e.0 in marks ensures e.1 in marks {
      var u, i :| 0 <= u < |ir| && 0 <= i < |ir[u].children| && e == (u, ir[u].children[i]);
      assert u in w.taken;
    }
    ClosedUnderReach(GraphOf(ir), marks, body, v);
  }

  ghost predicate SpreadTo(ir: Ir, w: Work, u: nat, n: nat)
    requires u < |ir| && n <= |ir[u].children|
  {
    forall i :: 0 <= i < n ==> Marked(w, ir[u].children[i])
  }

  ghost predicate MoreMarks(x: Work, y: Work) {
    |x.seen| == |y.seen| && x.taken == y.taken && forall v: nat :: Marked(x, v) ==> Marked(y, v)
  }

  /** The calls among the expressions taken. */
  function CallsOf(ir: Ir, taken: seq<nat>): seq<nat> {
    if taken == [] then []
    else
      var v := taken[|taken| - 1];
      CallsOf(ir, taken[..|taken| - 1]) + if v < |ir| && ir[v].call.Some? then [v] else []
  }

  lemma {:induction false} CallsListed(ir: Ir, taken: seq<nat>)
    requires Distinct(taken)
    ensures Distinct(CallsOf(ir, taken))
    ensures forall v: nat :: v in CallsOf(ir, taken) <==> v in taken && v < |ir| && ir[v].call.Some?
    decreases |taken|
  {
    if taken != [] {
      var n := |taken| - 1;
      CallsListed(ir, taken[..n]);
      assert taken == taken[..n] + [taken[n]];
      assert taken[n] !in taken[..n];
    }
  }

  /** The stack and the marks of one traversal. */
  class Collector {
    const ir: Ir
    const seen: array<bool>
    const stack: array<nat>
    var count: nat
    ghost var taken: seq<nat>

    ghost function State(): Work
      reads this, seen, stack
      requires count <= stack.Length
    {
      Work(seen[..], stack[..count], taken)
    }

    ghost predicate Valid(body: nat)
      reads this, seen, stack
    {
      seen.Length == stack.Length == |ir| && count <= |ir| && Working(ir, body, State())
    }

    constructor (ir: Ir)
      ensures this.ir == ir && fresh(seen) && fresh(stack) && count == 0 && taken == []
      ensures forall body: nat :: Valid(body)
    {
      this.ir := ir;
      seen := new bool[|ir|](_ => false);
      stack := new nat[|ir|](_ => 0);
      count, taken := 0, [];
    }

    /** Marks and pushes an expression that is not marked; there is always room for it. */
    method Push(ghost body: nat, id: nat) returns (ok: bool)
      requires Valid(body) && InReach(ir, body, id)
      modifies this`count, seen, stack
      ensures ok <==> id < |ir|
      ensures Valid(body) && MoreMarks(old(State()), State()) && (ok ==> Marked(State(), id))
    {
      hide Working, InReach;
      if id >= |ir| { return false; }
      ok := true;
      if seen[id] { return; }
      StackFits(ir, body, State());
      PushKeeps(ir, body, State(), id);
      ghost var w := State();
      seen[id] := true;
      stack[count] := id;
      count := count + 1;
      assert State() == Pushed(w, id);
    }

    method PushAll(ghost body: nat, u: nat) returns (ok: bool)
      requires Valid(body) && u < |ir| && InReach(ir, body, u)
      modifies this`count, seen, stack
      ensures Valid(body) && MoreMarks(old(State()), State())
      ensures ok ==> SpreadTo(ir, State(), u, |ir[u].children|)
      ensures !ok ==> exists v: nat :: v >= |ir| && InReach(ir, body, v)
    {
      hide Working, InReach;
      ok := true;
      var children := ir[u].children;
      var i := 0;
      while i < |children|
        invariant 0 <= i <= |children| && Valid(body) && MoreMarks(old(State()), State())
        invariant ok ==> SpreadTo(ir, State(), u, i)
        invariant !ok ==> exists v: nat :: v >= |ir| && InReach(ir, body, v)
      {
        ChildReached(ir, body, u, i);
        var pushed := Push(body, children[i]);
        ok := ok && pushed;
        i := i + 1;
      }
    }

    /** Takes expressions from the stack until it is empty. */
    method Collect(body: nat) returns (ok: bool, calls: seq<nat>)
      requires Valid(body) && count == 0 && taken == []
      modifies this, seen, stack
      ensures ok <==> forall v: nat :: InReach(ir, body, v) ==> v < |ir|
      ensures ok ==> Distinct(calls) && forall v: nat :: v in calls <==> InReach(ir, body, v) && v < |ir| && ir[v].call.Some?
    {
      BodyReached(ir, body);
      hide Working, InReach, Spread, CallsOf;
      calls := [];
      ok := Push(body, body);
      NothingTaken(ir, State());
      while ok && count != 0
        invariant Valid(body) && (ok ==> Marked(State(), body) && Spread(ir, State(), taken))
        invariant calls == CallsOf(ir, taken)
        invariant !ok ==> exists v: nat :: v >= |ir| && InReach(ir, body, v)
        decreases ok, |ir| - |taken|
      {
        ghost var w := State();
        TakeKeeps(ir, body, w);
        TakenFits(ir, body, w);
        count := count - 1;
        var id := stack[count];
        taken := taken + [id];
        assert State() == Work(w.seen, w.stack[..count], w.taken + [id]);
        ghost var x := State();
        if ir[id].call.Some? { calls := calls + [id]; }
        CallsNext(ir, w.taken, id);
        ok := PushAll(body, id);
        if ok { SpreadNext(ir, w, x, State(), id); }
      }
      if ok { Collected(ir, body, State(), calls); }
    }
  }

  lemma {:induction false} BodyReached(ir: Ir, body: nat)
    ensures InReach(ir, body, body)
  {
    ReachesSelf(GraphOf(ir), body);
  }

  lemma {:induction false} NothingTaken(ir: Ir, w: Work)
    requires w.taken == []
    ensures Spread(ir, w, w.taken) && CallsOf(ir, w.taken) == []
  {
  }

  lemma {:induction false} TakenFits(ir: Ir, body: nat, w: Work)
    requires Working(ir, body, w) && w.stack != []
    ensures |w.taken| < |ir|
  {
    var all := w.taken + w.stack;
    forall x | x in all ensures x < |ir| { assert Marked(w, x); }
    DistinctBelow(all, |ir|);
  }

  lemma {:induction false} CallsNext(ir: Ir, taken: seq<nat>, id: nat)
    ensures CallsOf(ir, taken + [id]) == CallsOf(ir, taken) + if id < |ir| && ir[id].call.Some? then [id] else []
  {
    assert (taken + [id])[..|taken|] == taken;
  }

  lemma {:induction false} SpreadNext(ir: Ir, w: Work, x: Work, y: Work, id: nat)
    requires Spread(ir, w, w.taken) && x.seen == w.seen && x.taken == w.taken + [id] && MoreMarks(x, y)
    requires id < |ir| && SpreadTo(ir, y, id, |ir[id].children|)
    ensures Spread(ir, y, y.taken)
  {
    forall u: nat, i: nat | u in y.taken && u < |ir| && i < |ir[u].children| ensures Marked(y, ir[u].children[i]) {
      if u in w.taken {
        assert Marked(w, ir[u].children[i]);
        assert Marked(x, ir[u].children[i]);
      }
    }
  }

  lemma {:induction false} Collected(ir: Ir, body: nat, w: Work, calls: seq<nat>)
    requires Working(ir, body, w) && w.stack == [] && Marked(w, body) && Spread(ir, w, w.taken) && calls == CallsOf(ir, w.taken)
    ensures forall v: nat :: InReach(ir, body, v) ==> v < |ir|
    ensures Distinct(calls) && forall v: nat :: v in calls <==> InReach(ir, body, v) && v < |ir| && ir[v].call.Some?
  {
    assert w.taken + w.stack == w.taken;
    CallsListed(ir, w.taken);
    forall v: nat | InReach(ir, body, v) ensures v < |ir| && v in w.taken { Complete(ir, body, w, v); }
    forall v: nat | v in w.taken ensures InReach(ir, body, v) { assert Marked(w, v); }
  }

  // ------------------------------------------------------------------------ the order

  /** A strict total order on identifiers below a bound. */
  ghost predicate TotalOrder(n: nat, greater: (nat, nat) -> bool) {
    && (forall a: nat, b: nat :: a < n && b < n ==> (greater(a, b) <==> a != b && !greater(b, a)))
    && (forall a: nat, b: nat, c: nat :: a < n && b < n && c < n && greater(a, b) && greater(b, c) ==> greater(a, c))
  }

  ghost predicate Below(n: nat, s: seq<nat>) {
    forall i :: 0 <= i < |s| ==> s[i] < n
  }

  ghost predicate Sorted(greater: (nat, nat) -> bool, s: seq<nat>) {
    forall i, j :: 0 <= i < j < |s| ==> !greater(s[i], s[j])
  }

  /** Insertion from the right, past everything greater. */
  function Insert(greater: (nat, nat) -> bool, s: seq<nat>, x: nat): seq<nat> {
    if s == [] || !greater(s[|s| - 1], x) then s + [x]
    else Insert(greater, s[..|s| - 1], x) + [s[|s| - 1]]
  }

  function SortedForm(greater: (nat, nat) -> bool, s: seq<nat>): seq<nat> {
    if s == [] then [] else Insert(greater, SortedForm(greater, s[..|s| - 1]), s[|s| - 1])
  }

  function PlaceFor(greater: (nat, nat) -> bool, s: seq<nat>, x: nat): (p: nat)
    ensures p <= |s| && (forall k :: p <= k < |s| ==> greater(s[k], x)) && (p > 0 ==> !greater(s[p - 1], x))
  {
    if s == [] || !greater(s[|s| - 1], x) then |s| else PlaceFor(greater, s[..|s| - 1], x)
  }

  /** If a is not greater than b and b not greater than c, then a is not greater than c. */
  lemma {:induction false} NotGreater(n: nat, greater: (nat, nat) -> bool, a: nat, b: nat, c: nat)
    requires TotalOrder(n, greater) && a < n && b < n && c < n && !greater(a, b) && !greater(b, c)
    ensures !greater(a, c)
  {
    if a != b && b != c {
      assert greater(c, b) && greater(b, a);
      assert greater(c, a);
    }
  }

  lemma {:induction false} Asymmetric(n: nat, greater: (nat, nat) -> bool, a: nat, b: nat)
    requires TotalOrder(n, greater) && a < n && b < n && greater(a, b)
    ensures !greater(b, a)
  {
  }

  lemma {:induction false} Around(n: nat, greater: (nat, nat) -> bool, s: seq<nat>, x: nat, p: nat, k: nat)
    requires TotalOrder(n, greater) && Below(n, s) && x < n && Sorted(greater, s) && k < |s| && p <= |s|
    requires (forall j :: p <= j < |s| ==> greater(s[j], x)) && (p > 0 ==> !greater(s[p - 1], x))
    ensures k < p ==> !greater(s[k], x)
    ensures k >= p ==> !greater(x, s[k])
  {
    hide TotalOrder;
    if k < p - 1 { NotGreater(n, greater, s[k], s[p - 1], x); }
    if k >= p { Asymmetric(n, greater, s[k], x); }
  }

  lemma {:induction false} SpliceSorted(n: nat, greater: (nat, nat) -> bool, s: seq<nat>, x: nat, p: nat)
    requires TotalOrder(n, greater) && Below(n, s) && x < n && Sorted(greater, s) && p <= |s|
    requires (forall j :: p <= j < |s| ==> greater(s[j], x)) && (p > 0 ==> !greater(s[p - 1], x))
    ensures Sorted(greater, s[..p] + [x] + s[p..]) && Below(n, s[..p] + [x] + s[p..])
  {
    hide TotalOrder;
    forall k: nat | k < |s| ensures (k < p ==> !greater(s[k], x)) && (k >= p ==> !greater(x, s[k])) {
      Around(n, greater, s, x, p, k);
    }
    var t := s[..p] + [x] + s[p..];
    forall i, j | 0 <= i < j < |t| ensures !greater(t[i], t[j]) {
      if i < p && j > p { assert !greater(s[i], s[j - 1]); }
    }
  }

  lemma {:induction false} SpliceMultiset(s: seq<nat>, x: nat, p: nat)
    requires p <= |s|
    ensures multiset(s[..p] + [x] + s[p..]) == multiset(s) + multiset{x}
  {
    assert s == s[..p] + s[p..];
  }

  lemma {:induction false} InsertSorts(n: nat, greater: (nat, nat) -> bool, s: seq<nat>, x: nat)
    requires TotalOrder(n, greater) && Below(n, s) && x < n && Sorted(greater, s)
    ensures Below(n, Insert(greater, s, x)) && Sorted(greater, Insert(greater, s, x))
    ensures multiset(Insert(greater, s, x)) == multiset(s) + multiset{x}
  {
    hide TotalOrder, Sorted, Below, Insert, PlaceFor;
    var p := PlaceFor(greater, s, x);
    InsertAt(greater, s, x, p);
    SpliceSorted(n, greater, s, x, p);
    SpliceMultiset(s, x, p);
  }

  lemma {:induction false} SortedFormSorts(n: nat, greater: (nat, nat) -> bool, s: seq<nat>)
    requires TotalOrder(n, greater) && Below(n, s)
    ensures Below(n, SortedForm(greater, s)) && Sorted(greater, SortedForm(greater, s))
    ensures multiset(SortedForm(greater, s)) == multiset(s)
    decreases |s|
  {
    if s != [] {
      var m := |s| - 1;
      assert s == s[..m] + [s[m]];
      SortedFormSorts(n, greater, s[..m]);
      InsertSorts(n, greater, SortedForm(greater, s[..m]), s[m]);
    }
  }

  lemma {:induction false} HeadIn(s: seq<nat>)
    ensures s == [] || s[0] in s
  {
  }

  /** Without repetitions, a sorted list is determined by its elements: the report does not
      depend on the order in which the worklist found the calls. */
  lemma {:induction false} SortedUnique(n: nat, greater: (nat, nat) -> bool, x: seq<nat>, y: seq<nat>)
    requires TotalOrder(n, greater) && Below(n, x) && Below(n, y) && Sorted(greater, x) && Sorted(greater, y)
    requires Distinct(x) && Distinct(y) && forall v: nat :: v in x <==> v in y
    ensures x == y
    decreases |x|
  {
    HeadIn(y);
    if x != [] {
      assert x[0] in y && y != [];
      assert y[0] in x;
      var i :| 0 <= i < |y| && y[i] == x[0];
      var j :| 0 <= j < |x| && x[j] == y[0];
      assert x[0] == y[0];
      forall v: nat ensures v in x[1..] <==> v in y[1..] {
        assert v in x <==> v == x[0] || v in x[1..];
        assert v in y <==> v == y[0] || v in y[1..];
        assert x[0] !in x[1..] && y[0] !in y[1..];
      }
      SortedUnique(n, greater, x[1..], y[1..]);
    }
  }

  // ------------------------------------------------------------------- insertion sort

  lemma {:induction false} InsertAt(greater: (nat, nat) -> bool, s: seq<nat>, x: nat, p: nat)
    requires p <= |s| && (forall k :: p <= k < |s| ==> greater(s[k], x)) && (p > 0 ==> !greater(s[p - 1], x))
    ensures Insert(greater, s, x) == s[..p] + [x] + s[p..]
    decreases |s|
  {
    if p == |s| {
      assert s[..p] == s;
    } else {
      var m := |s| - 1;
      InsertAt(greater, s[..m], x, p);
      assert s[..m][..p] == s[..p] && s[p..] == s[..m][p..] + [s[m]];
    }
  }

  /** Inserts the element at index i of the slice that starts at offset into the sorted
      elements before it, by moving the greater ones up. */
  method InsertInPlace(a: array<nat>, offset: nat, i: nat, greater: (nat, nat) -> bool)
    requires offset + i < a.Length
    modifies a
    ensures a[offset..offset + i + 1] == Insert(greater, old(a[offset..offset + i]), old(a[offset + i]))
    ensures forall k :: 0 <= k < a.Length && !(offset <= k <= offset + i) ==> a[k] == old(a[k])
  {
    hide Insert, Shifting;
    var value := a[offset + i];
    ghost var b, top := a[..], offset + i;
    var q := offset + i;
    StartShift(b, top);
    while q != offset && greater(a[q - 1], value)
      invariant offset <= q <= top && Shifting(a[..], b, q, top)
      invariant forall k :: q <= k < top ==> greater(b[k], value)
    {
      ShiftStep(a[..], b, q, top);
      a[q] := a[q - 1];
      q := q - 1;
    }
    Inserted(a[..], b, offset, q, top, value, greater);
    a[q] := value;
  }

  /** The elements from q up to top have moved up by one place. */
  ghost predicate Shifting(a: seq<nat>, b: seq<nat>, q: nat, top: nat)
    ensures Shifting(a, b, q, top) ==> |a| == |b| && q <= top < |a|
  {
    && |a| == |b| && q <= top < |a|
    && (forall k :: 0 <= k < q ==> a[k] == b[k])
    && (forall k :: q < k <= top ==> a[k] == b[k - 1])
    && (forall k :: top < k < |a| ==> a[k] == b[k])
  }

  lemma {:induction false} StartShift(b: seq<nat>, top: nat)
    requires top < |b|
    ensures Shifting(b, b, top, top)
  {
  }

  lemma {:induction false} ShiftStep(a: seq<nat>, b: seq<nat>, q: nat, top: nat)
    requires Shifting(a, b, q, top) && q > 0
    ensures a[q - 1] == b[q - 1] && Shifting(a[q := a[q - 1]], b, q - 1, top)
  {
  }

  lemma {:induction false} Inserted(a: seq<nat>, b: seq<nat>, offset: nat, q: nat, top: nat, value: nat, greater: (nat, nat) -> bool)
    requires Shifting(a, b, q, top) && offset <= q && b[top] == value
    requires (forall k :: q <= k < top ==> greater(b[k], value)) && (q > offset ==> !greater(a[q - 1], value))
    ensures a[q := value][offset..top + 1] == Insert(greater, b[offset..top], b[top])
    ensures forall k :: 0 <= k < |a| && !(offset <= k <= top) ==> a[q := value][k] == b[k]
  {
    hide Insert;
    var s, p, c := b[offset..top], q - offset, a[q := value];
    InsertAt(greater, s, value, p);
    assert c[offset..top + 1] == s[..p] + [value] + s[p..];
  }

  /** The insertion sort of a slice. */
  method SortSlice(a: array<nat>, offset: nat, count: nat, greater: (nat, nat) -> bool)
    requires offset + count <= a.Length
    modifies a
    ensures a[offset..offset + count] == SortedForm(greater, old(a[offset..offset + count]))
    ensures forall k :: 0 <= k < a.Length && !(offset <= k < offset + count) ==> a[k] == old(a[k])
  {
    hide Insert;
    ghost var s := a[offset..offset + count];
    if count == 0 { return; }
    var i := 1;
    assert SortedForm(greater, s[..1]) == s[..1] by { OneSorted(greater, s[..1]); }
    assert a[offset..offset + 1] == s[..1];
    while i < count
      invariant 1 <= i <= count && a[offset..offset + i] == SortedForm(greater, s[..i])
      invariant forall k :: i <= k < count ==> a[offset + k] == s[k]
      invariant forall k :: 0 <= k < a.Length && !(offset <= k < offset + count) ==> a[k] == old(a[k])
    {
      assert s[..i + 1][..i] == s[..i] && s[..i + 1][i] == s[i];
      InsertInPlace(a, offset, i, greater);
      i := i + 1;
    }
    assert s[..i] == s;
  }

  lemma {:induction false} OneSorted(greater: (nat, nat) -> bool, s: seq<nat>)
    requires |s| == 1
    ensures SortedForm(greater, s) == s
  {
    assert s[..0] == [] && SortedForm(greater, []) == [];
    assert s == [] + [s[0]];
  }

  // --------------------------------------------------------------------- comparisons

  /** Calls: by start, then end, then kind, then identifier. */
  predicate CallGreater(ir: Ir, a: nat, b: nat)
    requires a < |ir| && b < |ir|
  {
    var x, y := ir[a], ir[b];
    if x.start != y.start then x.start > y.start
    else if x.end != y.end then x.end > y.end
    else if KindOf(x) != KindOf(y) then KindOf(x) > KindOf(y)
    else a > b
  }

  function KindOf(x: Expr): nat { if x.call.Some? then x.call.value else 0 }

  function CallOrder(ir: Ir): (nat, nat) -> bool {
    (a: nat, b: nat) => a < |ir| && b < |ir| && CallGreater(ir, a, b)
  }

  lemma {:induction false} CallsTotallyOrdered(ir: Ir)
    ensures TotalOrder(|ir|, CallOrder(ir))
  {
  }

  datatype Callable = Callable(path: string, start: nat, end: nat, kind: nat, name: string, body: Option<nat>)

  /** Byte strings in the order of strcmp. */
  predicate TextGreater(x: string, y: string) {
    x != "" && (y == "" || x[0] > y[0] || (x[0] == y[0] && TextGreater(x[1..], y[1..])))
  }

  /** One text comes before another if it is a shorter beginning of it, or smaller where they
      first differ. */
  ghost predicate TextBefore(x: string, y: string) {
    (x < y) || exists k :: 0 <= k < |x| && k < |y| && x[..k] == y[..k] && x[k] < y[k]
  }

  lemma {:induction false} TextGreaterMeans(x: string, y: string)
    ensures TextGreater(x, y) <==> TextBefore(y, x)
    decreases |x|
  {
    if x != "" && y != "" {
      if x[0] == y[0] {
        TextGreaterMeans(x[1..], y[1..]);
        SameHead(y, x);
      } else {
        OtherHead(y, x);
      }
    }
  }

  lemma {:induction false} PrefixTail(x: string, y: string)
    requires x != "" && y != "" && x[0] == y[0]
    ensures x < y <==> x[1..] < y[1..]
  {
    var a, b := x[1..], y[1..];
    if |x| <= |y| {
      assert x == y[..|x|] <==> a == b[..|a|] by {
        if a == b[..|a|] { assert forall i :: 0 < i < |x| ==> x[i] == a[i - 1] && y[i] == b[i - 1] && a[i - 1] == b[..|a|][i - 1]; }
      }
    }
  }

  lemma {:induction false} SameHead(x: string, y: string)
    requires x != "" && y != "" && x[0] == y[0]
    ensures TextBefore(x, y) <==> TextBefore(x[1..], y[1..])
  {
    var a, b := x[1..], y[1..];
    PrefixTail(x, y);
    if k :| 0 <= k < |a| && k < |b| && a[..k] == b[..k] && a[k] < b[k] {
      assert x[..k + 1] == [x[0]] + a[..k] && y[..k + 1] == [y[0]] + b[..k];
      assert x[k + 1] < y[k + 1];
    }
    if k :| 0 <= k < |x| && k < |y| && x[..k] == y[..k] && x[k] < y[k] {
      assert a[..k - 1] == x[..k][1..] && b[..k - 1] == y[..k][1..];
      assert a[k - 1] < b[k - 1];
    }
  }

  lemma {:induction false} OtherHead(x: string, y: string)
    requires x != "" && y != "" && x[0] != y[0]
    ensures TextBefore(x, y) <==> x[0] < y[0]
  {
    assert !(x <= y);
    if x[0] < y[0] { assert x[..0] == y[..0]; }
    forall k | 0 < k < |x| && k < |y| ensures x[..k] != y[..k] { assert x[..k][0] != y[..k][0]; }
  }

  lemma {:induction false} TextTotal(x: string, y: string)
    ensures TextGreater(x, y) <==> x != y && !TextGreater(y, x)
    decreases |x|
  {
    if x != "" && y != "" {
      TextTotal(x[1..], y[1..]);
      assert x == [x[0]] + x[1..] && y == [y[0]] + y[1..];
    }
  }

  lemma {:induction false} TextTransitive(x: string, y: string, z: string)
    requires TextGreater(x, y) && TextGreater(y, z)
    ensures TextGreater(x, z)
    decreases |x|
  {
    if y != "" && z != "" && x[0] == y[0] == z[0] { TextTransitive(x[1..], y[1..], z[1..]); }
  }

  /** Callables: by path, start, end, kind, name, then identifier. */
  predicate CallableGreater(cs: seq<Callable>, a: nat, b: nat)
    requires a < |cs| && b < |cs|
  {
    var x, y := cs[a], cs[b];
    if x.path != y.path then TextGreater(x.path, y.path)
    else if x.start != y.start then x.start > y.start
    else if x.end != y.end then x.end > y.end
    else if x.kind != y.kind then x.kind > y.kind
    else if x.name != y.name then TextGreater(x.name, y.name)
    else a > b
  }

  function CallableOrder(cs: seq<Callable>): (nat, nat) -> bool {
    (a: nat, b: nat) => a < |cs| && b < |cs| && CallableGreater(cs, a, b)
  }

  lemma {:induction false} CallablesTotallyOrdered(cs: seq<Callable>)
    ensures TotalOrder(|cs|, CallableOrder(cs))
  {
    var greater := CallableOrder(cs);
    forall a: nat, b: nat | a < |cs| && b < |cs| ensures greater(a, b) <==> a != b && !greater(b, a) {
      TextTotal(cs[a].path, cs[b].path);
      TextTotal(cs[a].name, cs[b].name);
    }
    forall a: nat, b: nat, c: nat | a < |cs| && b < |cs| && c < |cs| && greater(a, b) && greater(b, c) ensures greater(a, c) {
      CallableTransitive(cs, a, b, c);
    }
  }

  lemma {:induction false} CallableTransitive(cs: seq<Callable>, a: nat, b: nat, c: nat)
    requires a < |cs| && b < |cs| && c < |cs| && CallableGreater(cs, a, b) && CallableGreater(cs, b, c)
    ensures CallableGreater(cs, a, c)
  {
    hide TextGreater;
    var x, y, z := cs[a], cs[b], cs[c];
    TextTotal(x.path, z.path);
    TextTotal(z.path, x.path);
    TextTotal(x.path, y.path);
    TextTotal(x.name, z.name);
    TextTotal(x.name, y.name);
    if TextGreater(x.path, y.path) && TextGreater(y.path, z.path) { TextTransitive(x.path, y.path, z.path); }
    if TextGreater(x.name, y.name) && TextGreater(y.name, z.name) { TextTransitive(x.name, y.name, z.name); }
  }

  // ---------------------------------------------------------------------- the report

  /** The calls reachable from a body, in order and each of them once. */
  ghost predicate Lists(ir: Ir, body: nat, calls: seq<nat>) {
    && Distinct(calls) && Below(|ir|, calls) && Sorted(CallOrder(ir), calls)
    && forall v: nat :: v in calls <==> InReach(ir, body, v) && v < |ir| && ir[v].call.Some?
  }

  /** Call a comes before call b in the text: it starts earlier; or, starting at the same place,
      ends earlier; or, with the same span, has the smaller kind; or else the smaller index. */
  ghost predicate Precedes(ir: Ir, a: nat, b: nat)
    requires a < |ir| && b < |ir|
  {
    && ir[a].start <= ir[b].start
    && (ir[a].start == ir[b].start ==> ir[a].end <= ir[b].end)
    && (ir[a].start == ir[b].start && ir[a].end == ir[b].end ==> KindOf(ir[a]) <= KindOf(ir[b]))
    && (ir[a].start == ir[b].start && ir[a].end == ir[b].end && KindOf(ir[a]) == KindOf(ir[b]) ==> a < b)
  }

  ghost predicate InTextOrder(ir: Ir, calls: seq<nat>) {
    forall i, j :: 0 <= i < j < |calls| ==> calls[i] < |ir| && calls[j] < |ir| && Precedes(ir, calls[i], calls[j])
  }

  lemma {:induction false} ListsInOrder(ir: Ir, body: nat, calls: seq<nat>)
    requires Lists(ir, body, calls)
    ensures InTextOrder(ir, calls)
  {
    hide InReach;
    forall i, j | 0 <= i < j < |calls| ensures calls[i] < |ir| && calls[j] < |ir| && Precedes(ir, calls[i], calls[j]) {
      assert !CallOrder(ir)(calls[i], calls[j]) && calls[i] != calls[j];
    }
  }

  /** The list of one callable: what it is does not depend on how it was found. */
  method ListCalls(ir: Ir, body: nat) returns (ok: bool, calls: seq<nat>)
    ensures ok <==> forall v: nat :: InReach(ir, body, v) ==> v < |ir|
    ensures ok ==> Lists(ir, body, calls) && forall other :: Lists(ir, body, other) ==> other == calls
    ensures ok ==> InTextOrder(ir, calls)
  {
    hide InReach, Lists, CallOrder, SortedForm, Distinct, InTextOrder;
    var collector := new Collector(ir);
    ok, calls := collector.Collect(body);
    if !ok { return; }
    ghost var found := calls;
    var a := new nat[|calls|](i requires 0 <= i < |calls| => calls[i]);
    assert a[0..|calls|] == found;
    SortSlice(a, 0, |calls|, CallOrder(ir));
    calls := a[..];
    assert calls == a[0..|found|];
    ListsSorted(ir, body, found);
    ListsInOrder(ir, body, calls);
    forall other | Lists(ir, body, other) ensures other == calls { OneList(ir, body, calls, other); }
  }

  lemma {:induction false} ListsSorted(ir: Ir, body: nat, calls: seq<nat>)
    requires Distinct(calls) && forall v: nat :: v in calls <==> InReach(ir, body, v) && v < |ir| && ir[v].call.Some?
    ensures Lists(ir, body, SortedForm(CallOrder(ir), calls))
  {
    CallsTotallyOrdered(ir);
    hide InReach, Sorted, TotalOrder, CallOrder, SortedForm;
    forall i | 0 <= i < |calls| ensures calls[i] < |ir| { assert calls[i] in calls; }
    SortedFormSorts(|ir|, CallOrder(ir), calls);
    SameElements(calls, SortedForm(CallOrder(ir), calls));
  }

  lemma {:induction false} OneList(ir: Ir, body: nat, x: seq<nat>, y: seq<nat>)
    requires Lists(ir, body, x) && Lists(ir, body, y)
    ensures x == y
  {
    CallsTotallyOrdered(ir);
    hide InReach, Sorted, TotalOrder, CallOrder;
    SortedUnique(|ir|, CallOrder(ir), x, y);
  }

  lemma {:induction false} SameElements(x: seq<nat>, y: seq<nat>)
    requires multiset(x) == multiset(y) && Distinct(x)
    ensures Distinct(y) && forall v: nat :: v in x <==> v in y
  {
    forall v: nat ensures v in x <==> v in y { assert v in x <==> v in multiset(x); assert v in y <==> v in multiset(y); }
    forall i, j | 0 <= i < j < |y| ensures y[i] != y[j] {
      OnceInDistinct(x, y[i]);
      if y[i] == y[j] { TwiceIn(y, i, j); }
    }
  }

  lemma {:induction false} TwiceIn(y: seq<nat>, i: nat, j: nat)
    requires i < j < |y| && y[i] == y[j]
    ensures multiset(y)[y[i]] >= 2
  {
    assert y == y[..i] + [y[i]] + y[i + 1..j] + [y[j]] + y[j + 1..];
  }

  /** All callables once each, sorted. */
  ghost predicate Orders(cs: seq<Callable>, order: seq<nat>) {
    && Distinct(order) && Below(|cs|, order) && Sorted(CallableOrder(cs), order)
    && forall i: nat :: i in order <==> i < |cs|
  }

  /** Callable a is reported before callable b: by path, then by span, kind, name and index. */
  ghost predicate ReportedBefore(cs: seq<Callable>, a: nat, b: nat)
    requires a < |cs| && b < |cs|
  {
    var x, y := cs[a], cs[b];
    || TextBefore(x.path, y.path)
    || (x.path == y.path
        && (|| x.start < y.start
            || (x.start == y.start
                && (|| x.end < y.end
                    || (x.end == y.end
                        && (x.kind < y.kind || (x.kind == y.kind && (TextBefore(x.name, y.name) || (x.name == y.name && a < b)))))))))
  }

  ghost predicate InReportOrder(cs: seq<Callable>, order: seq<nat>) {
    forall i, j :: 0 <= i < j < |order| ==> order[i] < |cs| && order[j] < |cs| && ReportedBefore(cs, order[i], order[j])
  }

  lemma {:induction false} OrdersInOrder(cs: seq<Callable>, order: seq<nat>)
    requires Orders(cs, order)
    ensures InReportOrder(cs, order)
  {
    hide TextGreater, TextBefore;
    forall i, j | 0 <= i < j < |order| ensures order[i] < |cs| && order[j] < |cs| && ReportedBefore(cs, order[i], order[j]) {
      assert !CallableOrder(cs)(order[i], order[j]) && order[i] != order[j];
      var x, y := cs[order[i]], cs[order[j]];
      TextTotal(x.path, y.path);
      TextGreaterMeans(y.path, x.path);
      TextTotal(x.name, y.name);
      TextGreaterMeans(y.name, x.name);
    }
  }

  /** The order of the callables in the report is the only sorted one. */
  method OrderCallables(cs: seq<Callable>) returns (order: seq<nat>)
    ensures Orders(cs, order) && |order| == |cs| && forall other :: Orders(cs, other) ==> other == order
    ensures InReportOrder(cs, order)
  {
    hide InReportOrder, Orders, Sorted, CallableOrder, SortedForm, Distinct, Below;
    var a := new nat[|cs|](i => i);
    ghost var before := a[..];
    assert a[0..|cs|] == before;
    SortSlice(a, 0, |cs|, CallableOrder(cs));
    order := a[..];
    assert order == a[0..|cs|];
    Permuted(cs, before, order);
    OrdersInOrder(cs, order);
    forall other | Orders(cs, other) ensures other == order { OneOrder(cs, other, order); }
  }

  lemma {:induction false} Permuted(cs: seq<Callable>, before: seq<nat>, order: seq<nat>)
    requires |before| == |cs| == |order| && (forall i :: 0 <= i < |cs| ==> before[i] == i) && order == SortedForm(CallableOrder(cs), before)
    ensures Orders(cs, order)
  {
    CallablesTotallyOrdered(cs);
    hide Sorted, TotalOrder, CallableOrder, SortedForm;
    SortedFormSorts(|cs|, CallableOrder(cs), before);
    SameElements(before, order);
    forall i: nat | i < |cs| ensures i in order { assert before[i] in before; }
  }

  lemma {:induction false} OneOrder(cs: seq<Callable>, x: seq<nat>, y: seq<nat>)
    requires Orders(cs, x) && Orders(cs, y)
    ensures x == y
  {
    CallablesTotallyOrdered(cs);
    hide Sorted, TotalOrder, CallableOrder;
    SortedUnique(|cs|, CallableOrder(cs), x, y);
  }
}
