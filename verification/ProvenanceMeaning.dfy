/** What origins are for: the parameters whose authority a value may carry. Where it comes from
    is said here without labels, tables and unions; accepted origins are compared with it. */
module ProvenanceMeaning {
  import opened Options
  import opened Reachability
  import opened Provenance
  import opened ProvenanceCheck
  import opened TupleOrigins
  import opened ProvenanceOrigins

  // ------------------------------------------------------------------------- blocks

  /** Control does not go on after the statement. */
  predicate Departs(s: Evaluated) {
    match s.value
    case None => s.kind.Exits?
    case Some(v) => s.kind.Leaves? || (!s.kind.Requires? && v.0.NeverType?)
  }

  /** The statement is an expression with a value of known type. */
  predicate HasValue(s: Evaluated) {
    s.kind.Evaluates? && s.value.Some? && !s.value.value.0.NeverType? && !s.value.value.0.UnknownType?
  }

  /** A block has the origin of its last statement if that is an expression with a value and no
      statement before it departs; otherwise it has none. */
  lemma {:induction false} BlockIsLast(ss: seq<Evaluated>)
    ensures BlockState(ss).1 <==> exists i :: 0 <= i < |ss| && Departs(ss[i])
    ensures BlockState(ss).0 ==
      if ss != [] && HasValue(ss[|ss| - 1]) && (forall i :: 0 <= i < |ss| - 1 ==> !Departs(ss[i])) then ss[|ss| - 1].value.value.1 else None
    decreases |ss|
  {
    if ss != [] {
      var n := |ss| - 1;
      BlockIsLast(ss[..n]);
      assert forall i :: 0 <= i < n ==> ss[..n][i] == ss[i];
      if BlockState(ss[..n]).1 {
        var i :| 0 <= i < n && Departs(ss[..n][i]);
        assert Departs(ss[i]);
        DepartedNone(ss[..n]);
      }
    }
  }

  lemma {:induction false} DepartedNone(ss: seq<Evaluated>)
    requires BlockState(ss).1
    ensures BlockState(ss).0 == None
    decreases |ss|
  {
    if BlockState(ss[..|ss| - 1]).1 { DepartedNone(ss[..|ss| - 1]); }
  }

  predicate StatementDeparts(a: Arena, s: Statement) {
    if s.value.None? then s.kind.Exits?
    else s.value.value < |a.expressions| && (s.kind.Leaves? || (!s.kind.Requires? && a.expressions[s.value.value].typed.NeverType?))
  }

  /** The value of the block is that of its last statement. */
  predicate YieldsLast(a: Arena, ss: seq<Statement>) {
    && ss != [] && ss[|ss| - 1].kind.Evaluates? && ss[|ss| - 1].value.Some? && ss[|ss| - 1].value.value < |a.expressions|
    && (var t := a.expressions[ss[|ss| - 1].value.value].typed; !t.NeverType? && !t.UnknownType?)
    && forall i :: 0 <= i < |ss| - 1 ==> !StatementDeparts(a, ss[i])
  }

  lemma {:induction false} BlockOrigin(a: Arena, side: Side, ss: seq<Statement>)
    requires |side.expressions| == |a.expressions| && StatementsIn(a, ss)
    ensures BlockState(EvaluatedOf(a, side, ss)).0 == if YieldsLast(a, ss) then side.expressions[ss[|ss| - 1].value.value] else None
  {
    var es := EvaluatedOf(a, side, ss);
    BlockIsLast(es);
    hide BlockState;
    forall i | 0 <= i < |ss| ensures Departs(es[i]) <==> StatementDeparts(a, ss[i]) { }
    if ss != [] { assert HasValue(es[|ss| - 1]) <==> ss[|ss| - 1].kind.Evaluates? && ss[|ss| - 1].value.Some? && !es[|ss| - 1].value.value.0.NeverType? && !es[|ss| - 1].value.value.0.UnknownType?; }
  }

  // -------------------------------------------------------- whose authority a value carries

  /** The value of the node may carry the authority of the parameter, through at most n steps:
      a parameter its own, a binding that of its initializer, a path that of its local; tuples,
      branches, blocks and handlers that of what they hold; a call that of the argument or
      receiver its result takes it from, a wrapper that of its source. */
  ghost predicate Carries(a: Arena, pass: Pass, v: nat, root: nat, n: nat)
    requires ArenaOk(a) && v < NodeCount(a)
    decreases n, 2
  {
    n > 0 && Relevant(pass, TypedAt(a, v))
    && if v < |a.expressions| then ExpressionCarries(a, pass, v, root, n)
       else match a.locals[v - |a.expressions|].kind
         case ParameterLocal(q) => pass.Capabilities? && root == q
         case BindingLocal(x) => x.Some? && Carries(a, pass, x.value, root, n - 1)
         case PatternLocal => false
  }

  ghost predicate ExpressionCarries(a: Arena, pass: Pass, v: nat, root: nat, n: nat)
    requires ArenaOk(a) && v < |a.expressions| && n > 0
    decreases n, 1
  {
    FormReadable(a, v);
    match a.expressions[v].form
    case Tuple(es) => exists i :: 0 <= i < |es| && Carries(a, pass, es[i], root, n - 1)
    case Field(b, projection) =>
      if projection then Carries(a, pass, b, root, n - 1) else pass.Operations? && Carries(a, Capabilities, b, root, n - 1)
    case Call(c, xs, r) =>
      && pass.Capabilities?
      && ((r.OfArgument? && Carries(a, Capabilities, r.actual, root, n - 1)) || (r.OfReceiver? && Carries(a, Operations, c, root, n - 1)))
    case Record(fs, wrapper) => pass.Capabilities? && wrapper && fs != [] && Carries(a, Capabilities, fs[0], root, n - 1)
    case Path(l, own) => l.Some? && own && Carries(a, pass, |a.expressions| + l.value, root, n - 1)
    case Handle(b) => Carries(a, pass, b, root, n - 1)
    case Block(ss) => YieldsLast(a, ss) && Carries(a, pass, ss[|ss| - 1].value.value, root, n - 1)
    case If(t, e) => BranchCarries(a, pass, t, root, n) || BranchCarries(a, pass, e, root, n)
    case Match(arms) => exists i :: 0 <= i < |arms| && BranchCarries(a, pass, arms[i].value, root, n)
    case Old(x) => Carries(a, pass, x, root, n - 1)
    case Result(q) => pass.Capabilities? && q == Some(root)
    case Plain => false
  }

  /** A branch that completes carries what its value does. */
  ghost predicate BranchCarries(a: Arena, pass: Pass, x: nat, root: nat, n: nat)
    requires ArenaOk(a) && x < |a.expressions| && n > 0
    decreases n, 0
  {
    !a.expressions[x].typed.NeverType? && Carries(a, pass, x, root, n - 1)
  }

  ghost predicate Carried(a: Arena, pass: Pass, v: nat, root: nat)
    requires ArenaOk(a) && v < NodeCount(a)
  {
    exists n: nat :: Carries(a, pass, v, root, n)
  }

  // -------------------------------------------------------- forms that take one origin over

  /** The one operand or local whose origin the expression takes over, if it is of this kind. */
  ghost function TakenFrom(a: Arena, pass: Pass, v: nat): Option<(Pass, nat)>
    requires ArenaOk(a) && v < |a.expressions|
  {
    match a.expressions[v].form
    case Field(b, projection) => if projection then Some((pass, b)) else if pass.Operations? then Some((Capabilities, b)) else None
    case Call(c, xs, r) =>
      if pass.Operations? || r.NoAuthority? then None else if r.OfArgument? then Some((Capabilities, r.actual)) else Some((Operations, c))
    case Record(fs, wrapper) => if pass.Capabilities? && wrapper && fs != [] then Some((Capabilities, fs[0])) else None
    case Path(l, own) => if l.Some? && own then Some((pass, |a.expressions| + l.value)) else None
    case Handle(b) => Some((pass, b))
    case Block(ss) => if YieldsLast(a, ss) then Some((pass, ss[|ss| - 1].value.value)) else None
    case Old(x) => Some((pass, x))
    case _ => None
  }

  predicate TakesOne(f: Form) {
    f.Field? || f.Call? || f.Record? || f.Path? || f.Handle? || f.Block? || f.Old?
  }

  lemma {:induction false} TakenInRange(a: Arena, pass: Pass, v: nat)
    requires ArenaOk(a) && v < |a.expressions| && TakenFrom(a, pass, v).Some?
    ensures
      var w := TakenFrom(a, pass, v).value.1;
      && w < NodeCount(a)
      && (w < |a.expressions| ==> w in Pushes(a.expressions[v].form) || w in Silent(a.expressions[v].form))
      && (w >= |a.expressions| ==> a.expressions[v].form.Path? && a.expressions[v].form.local == Some(w - |a.expressions|))
  {
    FormReadable(a, v);
    var f := a.expressions[v].form;
    hide ArenaOk;
    if f.Block? { StatementPushed(f.statements, |f.statements| - 1); }
  }

  lemma {:induction false} TakenCarries(a: Arena, pass: Pass, v: nat, root: nat, n: nat)
    requires ArenaOk(a) && v < |a.expressions| && TakesOne(a.expressions[v].form)
    ensures TakenFrom(a, pass, v).Some? ==> TakenFrom(a, pass, v).value.1 < NodeCount(a)
    ensures Carries(a, pass, v, root, n) <==>
      n > 0 && Relevant(pass, a.expressions[v].typed) && TakenFrom(a, pass, v).Some?
      && Carries(a, TakenFrom(a, pass, v).value.0, TakenFrom(a, pass, v).value.1, root, n - 1)
  {
    FormReadable(a, v);
    hide ArenaOk, YieldsLast;
    if TakenFrom(a, pass, v).Some? { TakenInRange(a, pass, v); }
  }

  // ------------------------------------------------------------------- accepted labellings

  lemma {:induction false} AcceptedNode(a: Arena, table: Table, o: Labels, pass: Pass, v: nat)
    requires ArenaOk(a) && SizesOk(a, o) && Accepted(a, table, o) && v < NodeCount(a)
    ensures StoredAt(a, o, pass, v) == ExpectedAt(a, table, o, pass, v)
    ensures StoredAt(a, o, pass, v).Some? ==> StoredAt(a, o, pass, v).value < |table| && Relevant(pass, TypedAt(a, v))
  {
    hide ArenaOk, Acyclic, ExpectedAt;
    assert NodeOk(a, table, o, pass, v);
  }

  /** An expression that takes one origin over has the stored origin of where it takes it from. */
  lemma {:induction false} TakenStored(a: Arena, table: Table, o: Labels, pass: Pass, v: nat)
    requires ArenaOk(a) && SizesOk(a, o) && Accepted(a, table, o) && v < |a.expressions| && TakesOne(a.expressions[v].form)
    requires Relevant(pass, a.expressions[v].typed)
    ensures TakenFrom(a, pass, v).Some? ==> TakenFrom(a, pass, v).value.1 < NodeCount(a)
    ensures StoredAt(a, o, pass, v) ==
      if TakenFrom(a, pass, v).Some? then StoredAt(a, o, TakenFrom(a, pass, v).value.0, TakenFrom(a, pass, v).value.1) else None
  {
    hide Accepted, BlockState, EvaluatedOf, YieldsLast;
    FormReadable(a, v);
    AcceptedNode(a, table, o, pass, v);
    var f := a.expressions[v].form;
    hide ArenaOk;
    if TakenFrom(a, pass, v).Some? { TakenInRange(a, pass, v); }
    match f
    case Call(c, xs, r) =>
      if r.OfArgument? { AcceptedNode(a, table, o, Capabilities, r.actual); }
      AcceptedNode(a, table, o, Operations, c);
    case Record(fs, _) => if fs != [] { AcceptedNode(a, table, o, Capabilities, fs[0]); }
    case Block(ss) => BlockOrigin(a, SideOf(o, pass), ss);
    case _ =>
  }

  function BranchesOf(f: Form): seq<nat> {
    match f
    case If(t, e) => [t, e]
    case Match(arms) => Values(arms)
    case _ => []
  }

  lemma {:induction false} BranchesCarry(a: Arena, pass: Pass, v: nat, root: nat, n: nat)
    requires ArenaOk(a) && v < |a.expressions| && (a.expressions[v].form.If? || a.expressions[v].form.Match?) && n > 0
    ensures forall i :: 0 <= i < |BranchesOf(a.expressions[v].form)| ==> BranchesOf(a.expressions[v].form)[i] < |a.expressions|
    ensures
      var xs := BranchesOf(a.expressions[v].form);
      Carries(a, pass, v, root, n) <==> Relevant(pass, a.expressions[v].typed) && exists i :: 0 <= i < |xs| && BranchCarries(a, pass, xs[i], root, n)
  {
    FormReadable(a, v);
    hide ArenaOk, BranchCarries;
    var f := a.expressions[v].form;
    var xs := BranchesOf(f);
    match f
    case If(t, e) => assert xs[0] == t && xs[1] == e;
    case Match(arms) => assert forall i :: 0 <= i < |arms| ==> xs[i] == arms[i].value;
  }

  /** The roots of the stored origin of an expression. */
  ghost function RootsAt(table: Table, side: Side, x: nat): set<nat> {
    if x < |side.expressions| && side.expressions[x].Some? && side.expressions[x].value < |table| then Roots(table[side.expressions[x].value]) else {}
  }

  /** The roots of a branch that completes are among those of the join, and each root of the join
      is that of such a branch. */
  lemma {:induction false} JoinRoots(a: Arena, table: Table, o: Labels, pass: Pass, v: nat)
    requires ArenaOk(a) && SizesOk(a, o) && Accepted(a, table, o) && Canonical(table) && v < |a.expressions|
    requires a.expressions[v].form.If? || a.expressions[v].form.Match?
    requires SideOf(o, pass).expressions[v].Some?
    ensures forall x :: x in BranchesOf(a.expressions[v].form) ==> x < |a.expressions|
    ensures forall x :: x in BranchesOf(a.expressions[v].form) && x < |a.expressions| && !a.expressions[x].typed.NeverType? ==>
      SideOf(o, pass).expressions[x].Some? && RootsAt(table, SideOf(o, pass), x) <= RootsAt(table, SideOf(o, pass), v)
    ensures forall root :: root in RootsAt(table, SideOf(o, pass), v) ==>
      exists x: nat :: x in BranchesOf(a.expressions[v].form) && x < |a.expressions| && !a.expressions[x].typed.NeverType? && root in RootsAt(table, SideOf(o, pass), x)
  {
    var xs, side := BranchesOf(a.expressions[v].form), SideOf(o, pass);
    AcceptedNode(a, table, o, pass, v);
    AcceptedJoin(a, table, o, pass, v, xs);
    hide ArenaOk, Accepted, Canonical, PrefixesInterned, SomeValue;
    var arms := Branches(a, side, xs);
    forall x | x in xs && !a.expressions[x].typed.NeverType?
      ensures side.expressions[x].Some? && RootsAt(table, side, x) <= RootsAt(table, side, v)
    {
      var i :| 0 <= i < |xs| && xs[i] == x;
      assert arms[i] in arms;
      assert arms[i] == Yields(side.expressions[x].value);
      assert forall root :: root in table[arms[i].origin] ==> root in AllRoots(table, arms);
    }
    forall root | root in RootsAt(table, side, v)
      ensures exists x: nat :: x in xs && x < |a.expressions| && !a.expressions[x].typed.NeverType? && root in RootsAt(table, side, x)
    {
      var i :| 0 <= i < |arms| && arms[i].Yields? && root in table[arms[i].origin];
      assert !a.expressions[xs[i]].typed.NeverType? && side.expressions[xs[i]] == Some(arms[i].origin);
      assert xs[i] in xs && root in RootsAt(table, side, xs[i]);
    }
  }

  // -------------------------------------------------------- origins have the roots carried

  /** The tuple accounts for its elements: their roots are its own, and so is what an element
      without an origin may carry. */
  ghost predicate TupleCovered(a: Arena, table: Table, o: Labels, pass: Pass, v: nat)
    requires ArenaOk(a) && SizesOk(a, o) && v < |a.expressions|
  {
    var f, side := a.expressions[v].form, SideOf(o, pass);
    f.Tuple? && side.expressions[v].Some? ==>
      forall i :: 0 <= i < |f.elements| && f.elements[i] < |a.expressions| ==> ElementCovered(a, table, pass, f.elements[i], side.expressions[f.elements[i]], side.expressions[v].value)
  }

  ghost predicate ElementCovered(a: Arena, table: Table, pass: Pass, x: nat, origin: Option<nat>, id: nat)
    requires ArenaOk(a) && x < |a.expressions|
  {
    && id < |table|
    && if origin.Some? then origin.value < |table| && Roots(table[origin.value]) <= Roots(table[id])
       else forall root :: Carried(a, pass, x, root) ==> root in table[id]
  }

  ghost predicate TuplesCovered(a: Arena, table: Table, o: Labels)
    requires ArenaOk(a) && SizesOk(a, o)
  {
    forall pass, v: nat :: v < |a.expressions| ==> TupleCovered(a, table, o, pass, v)
  }

  /** The stored origin of the node, if there is one, has the parameter among its roots. */
  ghost predicate Names(a: Arena, table: Table, o: Labels, pass: Pass, v: nat, root: nat)
    requires SizesOk(a, o) && v < NodeCount(a)
  {
    StoredAt(a, o, pass, v).Some? ==> StoredAt(a, o, pass, v).value < |table| && root in table[StoredAt(a, o, pass, v).value]
  }

  /** A value carries no authority but that of the roots of its origin. */
  lemma {:induction false} CarriedIsNamed(a: Arena, table: Table, o: Labels, pass: Pass, v: nat, root: nat, n: nat)
    requires ArenaOk(a) && SizesOk(a, o) && Accepted(a, table, o) && Canonical(table) && TuplesCovered(a, table, o)
    requires v < NodeCount(a) && Carries(a, pass, v, root, n)
    ensures Names(a, table, o, pass, v, root)
    decreases n
  {
    hide ArenaOk, Accepted, Canonical, TuplesCovered, Carries, Names, ExpectedAt;
    AcceptedNode(a, table, o, pass, v);
    if StoredAt(a, o, pass, v).Some? {
      if v >= |a.expressions| {
        CarriedLocal(a, table, o, pass, v, root, n);
      } else if a.expressions[v].form.Tuple? {
        CarriedTuple(a, table, o, pass, v, root, n);
      } else if a.expressions[v].form.If? || a.expressions[v].form.Match? {
        CarriedBranch(a, table, o, pass, v, root, n);
      } else if a.expressions[v].form.Result? {
        CarriedResult(a, table, o, pass, v, root, n);
      } else {
        CarriedTaken(a, table, o, pass, v, root, n);
      }
    } else {
      NamesNothing(a, table, o, pass, v, root);
    }
  }

  lemma {:induction false} NamesNothing(a: Arena, table: Table, o: Labels, pass: Pass, v: nat, root: nat)
    requires SizesOk(a, o) && v < NodeCount(a) && StoredAt(a, o, pass, v).None?
    ensures Names(a, table, o, pass, v, root)
  {
  }

  lemma {:induction false} CarriedTaken(a: Arena, table: Table, o: Labels, pass: Pass, v: nat, root: nat, n: nat)
    requires ArenaOk(a) && SizesOk(a, o) && Accepted(a, table, o) && Canonical(table) && TuplesCovered(a, table, o)
    requires v < |a.expressions| && Carries(a, pass, v, root, n) && !a.expressions[v].form.Result?
    requires !a.expressions[v].form.Tuple? && !a.expressions[v].form.If? && !a.expressions[v].form.Match?
    ensures Names(a, table, o, pass, v, root)
    decreases n, 0
  {
    assert TakesOne(a.expressions[v].form);
    hide ArenaOk, Accepted, Canonical, TuplesCovered, Carries, TakenFrom;
    TakenCarries(a, pass, v, root, n);
    TakenStored(a, table, o, pass, v);
    var from := TakenFrom(a, pass, v).value;
    CarriedIsNamed(a, table, o, from.0, from.1, root, n - 1);
  }

  lemma {:induction false} CarriedLocal(a: Arena, table: Table, o: Labels, pass: Pass, v: nat, root: nat, n: nat)
    requires ArenaOk(a) && SizesOk(a, o) && Accepted(a, table, o) && Canonical(table) && TuplesCovered(a, table, o)
    requires |a.expressions| <= v < NodeCount(a) && Carries(a, pass, v, root, n) && StoredAt(a, o, pass, v).Some?
    ensures Names(a, table, o, pass, v, root)
    decreases n, 0
  {
    AcceptedNode(a, table, o, pass, v);
    var k := a.locals[v - |a.expressions|].kind;
    hide Accepted, Canonical, TuplesCovered;
    if k.BindingLocal? {
      CarriedIsNamed(a, table, o, pass, k.initializer.value, root, n - 1);
    } else {
      assert [root][0] == root;
    }
  }

  lemma {:induction false} CarriedResult(a: Arena, table: Table, o: Labels, pass: Pass, v: nat, root: nat, n: nat)
    requires ArenaOk(a) && SizesOk(a, o) && Accepted(a, table, o) && v < |a.expressions| && a.expressions[v].form.Result? && Carries(a, pass, v, root, n)
    ensures Names(a, table, o, pass, v, root)
  {
    AcceptedNode(a, table, o, pass, v);
    hide ArenaOk, Accepted;
    assert [root][0] == root;
  }

  lemma {:induction false} CarriedTuple(a: Arena, table: Table, o: Labels, pass: Pass, v: nat, root: nat, n: nat)
    requires ArenaOk(a) && SizesOk(a, o) && Accepted(a, table, o) && Canonical(table) && TuplesCovered(a, table, o)
    requires v < |a.expressions| && a.expressions[v].form.Tuple? && Carries(a, pass, v, root, n) && SideOf(o, pass).expressions[v].Some?
    ensures Names(a, table, o, pass, v, root)
    decreases n, 0
  {
    FormReadable(a, v);
    var es := a.expressions[v].form.elements;
    var i :| 0 <= i < |es| && Carries(a, pass, es[i], root, n - 1);
    assert TupleCovered(a, table, o, pass, v);
    hide ArenaOk, Accepted, Canonical, TuplesCovered, Carries;
    assert ElementCovered(a, table, pass, es[i], SideOf(o, pass).expressions[es[i]], SideOf(o, pass).expressions[v].value);
    assert Carried(a, pass, es[i], root);
    CarriedIsNamed(a, table, o, pass, es[i], root, n - 1);
    var origin := SideOf(o, pass).expressions[es[i]];
    assert origin.Some? ==> root in Roots(table[origin.value]);
  }

  lemma {:induction false} CarriedBranch(a: Arena, table: Table, o: Labels, pass: Pass, v: nat, root: nat, n: nat)
    requires ArenaOk(a) && SizesOk(a, o) && Accepted(a, table, o) && Canonical(table) && TuplesCovered(a, table, o)
    requires v < |a.expressions| && (a.expressions[v].form.If? || a.expressions[v].form.Match?) && Carries(a, pass, v, root, n)
    requires SideOf(o, pass).expressions[v].Some?
    ensures Names(a, table, o, pass, v, root)
    decreases n, 0
  {
    assert n > 0;
    hide ArenaOk, Accepted, Canonical, TuplesCovered, Carries;
    BranchesCarry(a, pass, v, root, n);
    JoinRoots(a, table, o, pass, v);
    var xs, side := BranchesOf(a.expressions[v].form), SideOf(o, pass);
    var i :| 0 <= i < |xs| && BranchCarries(a, pass, xs[i], root, n);
    assert xs[i] in xs;
    CarriedIsNamed(a, table, o, pass, xs[i], root, n - 1);
    assert root in RootsAt(table, side, xs[i]);
  }

  // ------------------------------------------------------- origins have no other roots

  lemma {:induction false} TakenPrecedes(a: Arena, pass: Pass, v: nat)
    requires ArenaOk(a) && PositionsOk(a) && v < |a.expressions| && TakenFrom(a, pass, v).Some?
    ensures Precedes(a, TakenFrom(a, pass, v).value.1, v)
  {
    TakenInRange(a, pass, v);
    var w := TakenFrom(a, pass, v).value.1;
    if w < |a.expressions| { OperandBefore(a, v, w); } else { LocalBefore(a, v); }
  }

  lemma {:induction false} PushedPrecedes(a: Arena, v: nat, u: nat)
    requires ArenaOk(a) && PositionsOk(a) && v < |a.expressions| && u in Pushes(a.expressions[v].form)
    ensures Precedes(a, u, v)
  {
    OperandBefore(a, v, u);
  }

  /** Every root of an accepted origin is the root of some authority that the value may carry. */
  lemma {:induction false} NamedIsCarried(a: Arena, table: Table, o: Labels, pass: Pass, v: nat, root: nat)
    requires ArenaOk(a) && PositionsOk(a) && SizesOk(a, o) && Accepted(a, table, o) && Canonical(table)
    requires v < NodeCount(a) && StoredAt(a, o, pass, v).Some? && Names(a, table, o, pass, v, root)
    ensures Carried(a, pass, v, root)
    decreases EndOf(a, v), Stage(a, v), RankOf(a, v), 1
  {
    hide ArenaOk, PositionsOk, Accepted, Canonical, Carried, Names, ExpectedAt, EndOf, Stage, RankOf;
    AcceptedNode(a, table, o, pass, v);
    if v >= |a.expressions| {
      NamedLocal(a, table, o, pass, v, root);
    } else if a.expressions[v].form.Tuple? {
      NamedTuple(a, table, o, pass, v, root);
    } else if a.expressions[v].form.If? || a.expressions[v].form.Match? {
      NamedBranch(a, table, o, pass, v, root);
    } else if a.expressions[v].form.Result? {
      NamedResult(a, table, o, pass, v, root);
    } else {
      NamedTaken(a, table, o, pass, v, root);
    }
  }

  lemma {:induction false} NamedTaken(a: Arena, table: Table, o: Labels, pass: Pass, v: nat, root: nat)
    requires ArenaOk(a) && PositionsOk(a) && SizesOk(a, o) && Accepted(a, table, o) && Canonical(table)
    requires v < |a.expressions| && StoredAt(a, o, pass, v).Some? && Names(a, table, o, pass, v, root) && Relevant(pass, a.expressions[v].typed)
    requires !a.expressions[v].form.Tuple? && !a.expressions[v].form.If? && !a.expressions[v].form.Match? && !a.expressions[v].form.Result?
    ensures Carried(a, pass, v, root)
    decreases EndOf(a, v), Stage(a, v), RankOf(a, v), 0
  {
    NotPlain(a, table, o, pass, v);
    hide ArenaOk, PositionsOk, Accepted, Canonical, TakenFrom, Carries, EndOf, Stage, RankOf;
    TakenStored(a, table, o, pass, v);
    TakenPrecedes(a, pass, v);
    var from := TakenFrom(a, pass, v).value;
    NamedIsCarried(a, table, o, from.0, from.1, root);
    var n: nat :| Carries(a, from.0, from.1, root, n);
    TakenCarries(a, pass, v, root, n + 1);
  }

  lemma {:induction false} NotPlain(a: Arena, table: Table, o: Labels, pass: Pass, v: nat)
    requires ArenaOk(a) && SizesOk(a, o) && Accepted(a, table, o) && v < |a.expressions| && StoredAt(a, o, pass, v).Some?
    ensures !a.expressions[v].form.Plain?
  {
    AcceptedNode(a, table, o, pass, v);
    hide ArenaOk, Accepted;
  }

  lemma {:induction false} NamedLocal(a: Arena, table: Table, o: Labels, pass: Pass, v: nat, root: nat)
    requires ArenaOk(a) && PositionsOk(a) && SizesOk(a, o) && Accepted(a, table, o) && Canonical(table)
    requires |a.expressions| <= v < NodeCount(a) && StoredAt(a, o, pass, v).Some? && Names(a, table, o, pass, v, root) && Relevant(pass, TypedAt(a, v))
    ensures Carried(a, pass, v, root)
    decreases EndOf(a, v), Stage(a, v), RankOf(a, v), 0
  {
    AcceptedNode(a, table, o, pass, v);
    var k := a.locals[v - |a.expressions|].kind;
    if k.BindingLocal? {
      hide Accepted, Canonical, Carries;
      NamedIsCarried(a, table, o, pass, k.initializer.value, root);
      var n: nat :| Carries(a, pass, k.initializer.value, root, n);
      BindingCarries(a, pass, v, root, n);
    } else {
      hide ArenaOk, PositionsOk, Accepted, Canonical;
      assert Carries(a, pass, v, root, 1);
    }
  }

  lemma {:induction false} BindingCarries(a: Arena, pass: Pass, v: nat, root: nat, n: nat)
    requires ArenaOk(a) && |a.expressions| <= v < NodeCount(a) && Relevant(pass, TypedAt(a, v))
    requires
      var k := a.locals[v - |a.expressions|].kind;
      k.BindingLocal? && k.initializer.Some? && k.initializer.value < |a.expressions| && Carries(a, pass, k.initializer.value, root, n)
    ensures Carries(a, pass, v, root, n + 1)
  {
  }

  lemma {:induction false} NamedResult(a: Arena, table: Table, o: Labels, pass: Pass, v: nat, root: nat)
    requires ArenaOk(a) && SizesOk(a, o) && Accepted(a, table, o) && v < |a.expressions| && a.expressions[v].form.Result?
    requires StoredAt(a, o, pass, v).Some? && Names(a, table, o, pass, v, root) && Relevant(pass, a.expressions[v].typed)
    ensures Carried(a, pass, v, root)
  {
    AcceptedNode(a, table, o, pass, v);
    hide ArenaOk, Accepted;
    assert Carries(a, pass, v, root, 1);
  }

  lemma {:induction false} RootsAmong(table: Table, origins: seq<Option<nat>>, root: nat) returns (i: nat)
    requires OriginsKnown(table, origins) && root in RootsOf(table, origins)
    ensures i < |origins| && origins[i].Some? && root in table[origins[i].value]
    decreases |origins|
  {
    var n := |origins| - 1;
    if origins[n].Some? && root in table[origins[n].value] { i := n; } else { i := RootsAmong(table, origins[..n], root); }
  }

  lemma {:induction false} NamedTuple(a: Arena, table: Table, o: Labels, pass: Pass, v: nat, root: nat)
    requires ArenaOk(a) && PositionsOk(a) && SizesOk(a, o) && Accepted(a, table, o) && Canonical(table)
    requires v < |a.expressions| && a.expressions[v].form.Tuple? && StoredAt(a, o, pass, v).Some? && Names(a, table, o, pass, v, root)
    requires Relevant(pass, a.expressions[v].typed)
    ensures Carried(a, pass, v, root)
    decreases EndOf(a, v), Stage(a, v), RankOf(a, v), 0
  {
    hide ArenaOk, PositionsOk, Accepted, Canonical, Carries, EndOf, Stage, RankOf;
    var i := TupleRoot(a, table, o, pass, v, root);
    var x := a.expressions[v].form.elements[i];
    PushedPrecedes(a, v, x);
    NamedIsCarried(a, table, o, pass, x, root);
    var n: nat :| Carries(a, pass, x, root, n);
    ElementCarries(a, pass, v, root, n, i);
  }

  lemma {:induction false} TupleRoot(a: Arena, table: Table, o: Labels, pass: Pass, v: nat, root: nat) returns (i: nat)
    requires ArenaOk(a) && SizesOk(a, o) && Accepted(a, table, o) && Canonical(table)
    requires v < |a.expressions| && a.expressions[v].form.Tuple? && StoredAt(a, o, pass, v).Some? && Names(a, table, o, pass, v, root)
    requires Relevant(pass, a.expressions[v].typed)
    ensures i < |a.expressions[v].form.elements|
    ensures
      var x := a.expressions[v].form.elements[i];
      && x < |a.expressions| && x in Pushes(a.expressions[v].form)
      && StoredAt(a, o, pass, x).Some? && Names(a, table, o, pass, x, root)
  {
    hide ArenaOk, Accepted, Canonical, Restart, RootsOf, UnionsInterned;
    var es := a.expressions[v].form.elements;
    AcceptedTuple(a, table, o, pass, v, es);
    var os := Select(SideOf(o, pass), es);
    var k := Restart(table, os);
    assert root in Roots(table[StoredAt(a, o, pass, v).value]);
    i := RootsAmong(table, os[k..], root);
    i := k + i;
    assert os[i] == SideOf(o, pass).expressions[es[i]];
  }

  lemma {:induction false} ElementCarries(a: Arena, pass: Pass, v: nat, root: nat, n: nat, i: nat)
    requires ArenaOk(a) && v < |a.expressions| && a.expressions[v].form.Tuple? && Relevant(pass, a.expressions[v].typed)
    requires i < |a.expressions[v].form.elements| && a.expressions[v].form.elements[i] < |a.expressions|
    requires Carries(a, pass, a.expressions[v].form.elements[i], root, n)
    ensures Carries(a, pass, v, root, n + 1)
  {
    hide ArenaOk;
  }

  lemma {:induction false} NamedBranch(a: Arena, table: Table, o: Labels, pass: Pass, v: nat, root: nat)
    requires ArenaOk(a) && PositionsOk(a) && SizesOk(a, o) && Accepted(a, table, o) && Canonical(table)
    requires v < |a.expressions| && (a.expressions[v].form.If? || a.expressions[v].form.Match?)
    requires StoredAt(a, o, pass, v).Some? && Names(a, table, o, pass, v, root) && Relevant(pass, a.expressions[v].typed)
    ensures Carried(a, pass, v, root)
    decreases EndOf(a, v), Stage(a, v), RankOf(a, v), 0
  {
    hide ArenaOk, PositionsOk, Accepted, Canonical, Carries, EndOf, Stage, RankOf;
    JoinRoots(a, table, o, pass, v);
    var xs, side := BranchesOf(a.expressions[v].form), SideOf(o, pass);
    assert root in RootsAt(table, side, v);
    var x: nat :| x in xs && x < |a.expressions| && !a.expressions[x].typed.NeverType? && root in RootsAt(table, side, x);
    var i :| 0 <= i < |xs| && xs[i] == x;
    BranchPushed(a.expressions[v].form, i);
    PushedPrecedes(a, v, xs[i]);
    NamedIsCarried(a, table, o, pass, xs[i], root);
    var n: nat :| Carries(a, pass, xs[i], root, n);
    assert BranchCarries(a, pass, xs[i], root, n + 1);
    BranchesCarry(a, pass, v, root, n + 1);
  }

  lemma {:induction false} BranchPushed(f: Form, i: nat)
    requires (f.If? || f.Match?) && i < |BranchesOf(f)|
    ensures BranchesOf(f)[i] in Pushes(f)
  {
    if f.Match? { ArmPushed(f.arms, i); }
  }

  // ------------------------------------------------------------------------ the meaning

  /** The stored origin of every node, where there is one, has exactly the roots whose authority
      the node may carry. */
  ghost predicate OriginsExact(a: Arena, table: Table, o: Labels)
    requires ArenaOk(a) && SizesOk(a, o)
  {
    forall pass, v: nat, root :: v < NodeCount(a) && StoredAt(a, o, pass, v).Some? ==>
      (Names(a, table, o, pass, v, root) <==> Carried(a, pass, v, root))
  }

  /** Accepted origins mean what they are meant to if and only if every tuple accounts for its
      elements. */
  lemma {:induction false} OriginsMean(a: Arena, table: Table, o: Labels)
    requires ArenaOk(a) && PositionsOk(a) && SizesOk(a, o) && Accepted(a, table, o) && Canonical(table)
    ensures OriginsExact(a, table, o) <==> TuplesCovered(a, table, o)
    ensures forall pass, v: nat, root :: v < NodeCount(a) && StoredAt(a, o, pass, v).Some? && Names(a, table, o, pass, v, root) ==> Carried(a, pass, v, root)
  {
    hide ArenaOk, PositionsOk, Accepted, Canonical, TuplesCovered, Names, Carries;
    forall pass, v: nat, root | v < NodeCount(a) && StoredAt(a, o, pass, v).Some? && Names(a, table, o, pass, v, root)
      ensures Carried(a, pass, v, root)
    {
      NamedIsCarried(a, table, o, pass, v, root);
    }
    if TuplesCovered(a, table, o) {
      forall pass, v: nat, root | v < NodeCount(a) && StoredAt(a, o, pass, v).Some? && Carried(a, pass, v, root)
        ensures Names(a, table, o, pass, v, root)
      {
        var n: nat :| Carries(a, pass, v, root, n);
        CarriedIsNamed(a, table, o, pass, v, root, n);
      }
    }
    if OriginsExact(a, table, o) { ExactCovers(a, table, o); }
  }

  lemma {:induction false} ExactCovers(a: Arena, table: Table, o: Labels)
    requires ArenaOk(a) && PositionsOk(a) && SizesOk(a, o) && Accepted(a, table, o) && Canonical(table) && OriginsExact(a, table, o)
    ensures TuplesCovered(a, table, o)
  {
    hide ArenaOk, PositionsOk, Accepted, Canonical, OriginsExact, ElementCovered;
    forall pass, v: nat | v < |a.expressions| ensures TupleCovered(a, table, o, pass, v) {
      var f, side := a.expressions[v].form, SideOf(o, pass);
      if f.Tuple? && side.expressions[v].Some? {
        forall i | 0 <= i < |f.elements| && f.elements[i] < |a.expressions|
          ensures ElementCovered(a, table, pass, f.elements[i], side.expressions[f.elements[i]], side.expressions[v].value)
        {
          ExactElement(a, table, o, pass, v, i);
        }
      }
    }
  }

  lemma {:induction false} ExactElement(a: Arena, table: Table, o: Labels, pass: Pass, v: nat, i: nat)
    requires ArenaOk(a) && PositionsOk(a) && SizesOk(a, o) && Accepted(a, table, o) && Canonical(table) && OriginsExact(a, table, o)
    requires v < |a.expressions| && a.expressions[v].form.Tuple? && SideOf(o, pass).expressions[v].Some?
    requires i < |a.expressions[v].form.elements| && a.expressions[v].form.elements[i] < |a.expressions|
    ensures
      var x, side := a.expressions[v].form.elements[i], SideOf(o, pass);
      ElementCovered(a, table, pass, x, side.expressions[x], side.expressions[v].value)
  {
    hide ArenaOk, PositionsOk, Accepted, Canonical, Carries, ExpectedAt;
    var x, side := a.expressions[v].form.elements[i], SideOf(o, pass);
    AcceptedNode(a, table, o, pass, v);
    AcceptedNode(a, table, o, pass, x);
    forall root | Carried(a, pass, x, root) ensures root in table[side.expressions[v].value] {
      var n: nat :| Carries(a, pass, x, root, n);
      ElementCarries(a, pass, v, root, n, i);
      assert Carried(a, pass, v, root) && Names(a, table, o, pass, v, root);
    }
    if side.expressions[x].Some? {
      forall root | root in Roots(table[side.expressions[x].value]) ensures root in Roots(table[side.expressions[v].value]) {
        assert Names(a, table, o, pass, x, root);
        assert Carried(a, pass, x, root);
      }
    }
  }

  /** What a caller can test: every union on the way to a tuple is interned, and its elements of
      capability or operation type have origins. */
  ghost predicate TuplesInterned(a: Arena, table: Table, o: Labels)
    requires ArenaOk(a) && SizesOk(a, o)
  {
    forall pass, v: nat :: v < |a.expressions| && a.expressions[v].form.Tuple? && SideOf(o, pass).expressions[v].Some? ==>
      ElementsInterned(a, table, SideOf(o, pass), pass, a.expressions[v].form.elements)
  }

  ghost predicate ElementsInterned(a: Arena, table: Table, side: Side, pass: Pass, es: seq<nat>)
    requires |side.expressions| == |a.expressions|
  {
    && (forall i :: 0 <= i < |es| ==> es[i] < |a.expressions|)
    && OriginsKnown(table, Select(side, es)) && UnionsInterned(table, Select(side, es))
    && (forall i :: 0 <= i < |es| && Relevant(pass, a.expressions[es[i]].typed) ==> side.expressions[es[i]].Some?)
  }

  lemma {:induction false} InternedIsExact(a: Arena, table: Table, o: Labels)
    requires ArenaOk(a) && PositionsOk(a) && SizesOk(a, o) && Accepted(a, table, o) && Canonical(table) && TuplesInterned(a, table, o)
    ensures OriginsExact(a, table, o)
  {
    hide ArenaOk, PositionsOk, Accepted, Canonical, OriginsExact, ElementCovered, ElementsInterned;
    forall pass, v: nat | v < |a.expressions| ensures TupleCovered(a, table, o, pass, v) {
      var f, side := a.expressions[v].form, SideOf(o, pass);
      if f.Tuple? && side.expressions[v].Some? {
        forall i | 0 <= i < |f.elements| && f.elements[i] < |a.expressions|
          ensures ElementCovered(a, table, pass, f.elements[i], side.expressions[f.elements[i]], side.expressions[v].value)
        {
          InternedElement(a, table, o, pass, v, i);
        }
      }
    }
    OriginsMean(a, table, o);
  }

  lemma {:induction false} InternedElement(a: Arena, table: Table, o: Labels, pass: Pass, v: nat, i: nat)
    requires ArenaOk(a) && SizesOk(a, o) && Accepted(a, table, o) && Canonical(table)
    requires v < |a.expressions| && a.expressions[v].form.Tuple? && SideOf(o, pass).expressions[v].Some?
    requires ElementsInterned(a, table, SideOf(o, pass), pass, a.expressions[v].form.elements) && i < |a.expressions[v].form.elements|
    ensures
      var x, side := a.expressions[v].form.elements[i], SideOf(o, pass);
      ElementCovered(a, table, pass, x, side.expressions[x], side.expressions[v].value)
  {
    hide ArenaOk, Accepted, Canonical, ExpectedAt, UnionsInterned, Restart, RootsOf;
    var es, side := a.expressions[v].form.elements, SideOf(o, pass);
    AcceptedNode(a, table, o, pass, v);
    AcceptedTuple(a, table, o, pass, v, es);
    var os := Select(side, es);
    assert os[i] == side.expressions[es[i]];
    if os[i].Some? { ElementRoots(table, os, i); }
  }

  lemma {:induction false} ElementRoots(table: Table, os: seq<Option<nat>>, i: nat)
    requires OriginsKnown(table, os) && i < |os| && os[i].Some?
    ensures Roots(table[os[i].value]) <= RootsOf(table, os)
    decreases |os|
  {
    if i < |os| - 1 { ElementRoots(table, os[..|os| - 1], i); }
  }

  // ------------------------------------------------------- a tuple that loses authority

  /** Three capability parameters and the tuple of them. */
  function Triple(): Arena {
    Arena(
      [ Expr(Path(Some(0), true), CapabilityType, Some(0), []), Expr(Path(Some(1), true), CapabilityType, Some(0), []),
        Expr(Path(Some(2), true), CapabilityType, Some(0), []), Expr(Tuple([0, 1, 2]), TupleType, Some(0), [])],
      [ Local(ParameterLocal(0), CapabilityType, Some(0)), Local(ParameterLocal(1), CapabilityType, Some(0)), Local(ParameterLocal(2), CapabilityType, Some(0))],
      [Parameter(0, true), Parameter(0, true), Parameter(0, true)],
      [0, 0, 0, 1], [0, 0, 0, 0], [1, 1, 1, 1], [0, 0, 0])
  }

  function TripleTable(): Table { [[0], [1], [2]] }

  function TripleLabels(): Labels {
    Labels(Side([Some(0), Some(1), Some(2), Some(2)], [Some(0), Some(1), Some(2)]), Side([None, None, None, None], [None, None, None]))
  }

  lemma {:induction false} TripleOk()
    ensures ArenaOk(Triple()) && SizesOk(Triple(), TripleLabels())
  {
    hide OperandsOf;
    var a := Triple();
    TripleOperands();
    forall u | 0 <= u < 4 ensures ExprOk(a, u) { assert u == 0 || u == 1 || u == 2 || u == 3; }
  }

  lemma {:induction false} TripleOperands()
    ensures OperandsOf(Triple().expressions[0]) == [] && OperandsOf(Triple().expressions[1]) == [] && OperandsOf(Triple().expressions[2]) == []
    ensures OperandsOf(Triple().expressions[3]) == [0, 1, 2]
  {
  }

  lemma {:induction false} TriplePositions()
    requires ArenaOk(Triple())
    ensures PositionsOk(Triple())
  {
    hide ArenaOk, OperandsOf;
    TripleOperands();
    forall u | 0 <= u < 4 ensures DeclaredBefore(Triple(), u) { assert u == 0 || u == 1 || u == 2 || u == 3; }
  }

  lemma {:induction false} TripleTuple()
    ensures TupleOrigin(TripleTable(), [Some(0), Some(1), Some(2)]) == Some(2) && TupleOrigin(TripleTable(), [None, None, None]) == None
  {
    var table: Table, os: seq<Option<nat>> := TripleTable(), [Some(0), Some(1), Some(2)];
    assert Merge([0], [1]) == [0, 1] by { assert Merge([], [1]) == [1] + Merge([], []); }
    assert FindSet(table, [0, 1], 0) == None;
    hide Merge, FindSet;
    assert os[..2][..1] == os[..1] == [Some(0)] && os[..2] == [Some(0), Some(1)];
    assert TupleOrigin(table, os[..1]) == Some(0) by { assert os[..1][..0] == []; }
    assert TupleOrigin(table, os[..2]) == None;
    NoOrigins(table, [None, None, None]);
  }

  lemma {:induction false} NoOrigins(table: Table, ns: seq<Option<nat>>)
    requires forall i :: 0 <= i < |ns| ==> ns[i] == None
    ensures TupleOrigin(table, ns) == None
    decreases |ns|
  {
    if ns != [] { NoOrigins(table, ns[..|ns| - 1]); }
  }

  lemma {:induction false} TripleNode(pass: Pass, v: nat)
    requires ArenaOk(Triple()) && SizesOk(Triple(), TripleLabels()) && v < 7
    ensures NodeOk(Triple(), TripleTable(), TripleLabels(), pass, v)
  {
    hide ArenaOk, FindSet;
    if v == 3 {
      TripleLast(pass);
    } else {
      hide TupleOrigin;
      if v >= 4 { TripleSets(v - 4); }
      assert v < 3 || v >= 4;
    }
  }

  lemma {:induction false} TripleLast(pass: Pass)
    requires ArenaOk(Triple()) && SizesOk(Triple(), TripleLabels())
    ensures NodeOk(Triple(), TripleTable(), TripleLabels(), pass, 3)
  {
    hide ArenaOk, TupleOrigin, FindSet;
    TripleTuple();
    var side := SideOf(TripleLabels(), pass);
    assert Select(side, [0, 1, 2]) == if pass.Capabilities? then [Some(0), Some(1), Some(2)] else [None, None, None];
  }

  lemma {:induction false} TripleSets(k: nat)
    requires k < 3
    ensures FindSet(TripleTable(), [k], 0) == Some(k)
  {
    var table := TripleTable();
    assert table[0] == [0] && table[1] == [1] && table[2] == [2];
    assert [k][0] == k;
  }

  /** An accepted labelling under which a tuple carries authority that its origin does not name. */
  lemma {:induction false} TupleLosesAuthority() returns (a: Arena, table: Table, o: Labels)
    ensures ArenaOk(a) && PositionsOk(a) && SizesOk(a, o) && Accepted(a, table, o) && Canonical(table) && !OriginsExact(a, table, o)
  {
    hide *;
    a, table, o := Triple(), TripleTable(), TripleLabels();
    TripleOk();
    TriplePositions();
    TripleValid();
    TripleCarries();
    TripleInexact();
  }

  lemma {:induction false} TripleValid()
    requires ArenaOk(Triple()) && PositionsOk(Triple()) && SizesOk(Triple(), TripleLabels())
    ensures Accepted(Triple(), TripleTable(), TripleLabels()) && Canonical(TripleTable())
  {
    hide ArenaOk, PositionsOk, NodeOk, Acyclic, ForestOf;
    var a, table, o := Triple(), TripleTable(), TripleLabels();
    assert table[0][0] != table[1][0] && table[0][0] != table[2][0] && table[1][0] != table[2][0];
    forall pass ensures PassValid(a, table, o, pass) {
      PositionsAcyclic(a, pass);
      forall v: nat | v < NodeCount(a) ensures NodeOk(a, table, o, pass, v) { TripleNode(pass, v); }
    }
  }

  lemma {:induction false} TripleCarries()
    requires ArenaOk(Triple())
    ensures Carried(Triple(), Capabilities, 3, 0)
  {
    hide ArenaOk;
    var a := Triple();
    assert Carries(a, Capabilities, 4, 0, 1);
    assert Carries(a, Capabilities, 0, 0, 2);
    assert a.expressions[3].form.elements[0] == 0;
    assert Carries(a, Capabilities, 3, 0, 3);
  }

  lemma {:induction false} TripleInexact()
    requires ArenaOk(Triple()) && SizesOk(Triple(), TripleLabels()) && Carried(Triple(), Capabilities, 3, 0)
    ensures !OriginsExact(Triple(), TripleTable(), TripleLabels())
  {
    hide ArenaOk, Carried;
    var a, table, o := Triple(), TripleTable(), TripleLabels();
    assert StoredAt(a, o, Capabilities, 3) == Some(2) && table[2] == [2];
    assert !Names(a, table, o, Capabilities, 3, 0);
  }
}
