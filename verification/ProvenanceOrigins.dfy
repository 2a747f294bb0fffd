/** The origins that the type checker stored for expressions and locals: what each of them is
    recomputed from, and what their validation establishes. */
module ProvenanceOrigins {
  import opened Options
  import opened Reachability
  import opened Provenance
  import opened ProvenanceCheck
  import opened TupleOrigins

  /** Origins of capabilities are validated first, origins of bound operations second. */
  datatype Pass = Capabilities | Operations

  datatype TypeClass = CapabilityType | OperationType | TupleType | NeverType | UnknownType | OtherType

  // ------------------------------------------------------------------------ the arena

  /** How a statement affects the value of its block. */
  datatype StatementKind = Evaluates | Leaves | Exits | Requires | Continues

  datatype Statement = Statement(kind: StatementKind, value: Option<nat>, condition: Option<nat>)

  datatype MatchArm = MatchArm(guard: Option<nat>, value: nat)

  /** Where the authority of a call's result comes from. */
  datatype ResultAuthority = NoAuthority | OfArgument(actual: nat) | OfReceiver

  datatype Form =
    | Tuple(elements: seq<nat>)
    | Field(base: nat, projection: bool)
    | Call(callee: nat, arguments: seq<nat>, result: ResultAuthority)
    | Record(fields: seq<nat>, wrapper: bool)
    | Path(local: Option<nat>, own: bool)
    | Handle(body: nat)
    | Block(statements: seq<Statement>)
    | If(thenBranch: nat, elseBranch: nat)
    | Match(arms: seq<MatchArm>)
    | Old(operand: nat)
    | Result(root: Option<nat>)
    | Plain

  /** Others are the operands that no origin depends on. */
  datatype Expr = Expr(form: Form, typed: TypeClass, owner: Option<nat>, others: seq<nat>)

  datatype LocalKind = ParameterLocal(root: nat) | BindingLocal(initializer: Option<nat>) | PatternLocal

  datatype Local = Local(kind: LocalKind, typed: TypeClass, owner: Option<nat>)

  datatype Parameter = Parameter(owner: nat, capability: bool)

  /** Ranks number the trees so that operands come first; starts and ends are source positions,
      declared the ends of the statements that declare locals. */
  datatype Arena = Arena(
    expressions: seq<Expr>, locals: seq<Local>, parameters: seq<Parameter>,
    ranks: seq<nat>, starts: seq<nat>, ends: seq<nat>, declared: seq<nat>)

  function OptionList(x: Option<nat>): seq<nat> { if x.Some? then [x.value] else [] }

  function StatementPushes(ss: seq<Statement>): seq<nat> {
    if ss == [] then []
    else StatementPushes(ss[..|ss| - 1]) + OptionList(ss[|ss| - 1].value) + OptionList(ss[|ss| - 1].condition)
  }

  function ArmPushes(arms: seq<MatchArm>): seq<nat> {
    if arms == [] then [] else ArmPushes(arms[..|arms| - 1]) + OptionList(arms[|arms| - 1].guard) + [arms[|arms| - 1].value]
  }

  /** The operands that the search pushes, in either pass. */
  function Pushes(f: Form): seq<nat> {
    match f
    case Tuple(es) => es
    case Record(fs, _) => if fs == [] then [] else [fs[0]]
    case Handle(b) => [b]
    case Block(ss) => StatementPushes(ss)
    case If(t, e) => [t, e]
    case Match(arms) => ArmPushes(arms)
    case Old(x) => [x]
    case _ => []
  }

  /** Operands that an origin may depend on although the search does not push them. */
  function Silent(f: Form): seq<nat> {
    match f
    case Field(b, _) => [b]
    case Call(c, xs, _) => [c] + xs
    case Record(fs, _) => if fs == [] then [] else fs[1..]
    case _ => []
  }

  function OperandsOf(e: Expr): seq<nat> { Pushes(e.form) + Silent(e.form) + e.others }

  predicate Relevant(pass: Pass, t: TypeClass) {
    t.TupleType? || (if pass.Capabilities? then t.CapabilityType? else t.OperationType?)
  }

  function NodeCount(a: Arena): nat { |a.expressions| + |a.locals| }

  /** Expressions form a forest, and every index was checked before. */
  ghost predicate ArenaOk(a: Arena) {
    && |a.ranks| == |a.starts| == |a.ends| == |a.expressions| && |a.declared| == |a.locals|
    && (forall u :: 0 <= u < |a.expressions| ==> ExprOk(a, u))
    && (forall u, v, x :: 0 <= u < v < |a.expressions| && x in OperandsOf(a.expressions[u]) ==> x !in OperandsOf(a.expressions[v]))
    && (forall l :: 0 <= l < |a.locals| && a.locals[l].kind.BindingLocal? && a.locals[l].kind.initializer.Some? ==>
          a.locals[l].kind.initializer.value < |a.expressions|)
  }

  ghost predicate ExprOk(a: Arena, u: nat)
    requires u < |a.expressions| == |a.ranks|
  {
    var e := a.expressions[u];
    && Distinct(OperandsOf(e))
    && (forall x :: x in OperandsOf(e) ==> x < |a.expressions| && a.ranks[x] < a.ranks[u])
    && (e.form.Path? && e.form.local.Some? ==> e.form.local.value < |a.locals|)
    && (e.form.Call? && e.form.result.OfArgument? ==> e.form.result.actual in e.form.arguments)
  }

  // ------------------------------------------------------------------------ what is stored

  datatype Side = Side(expressions: seq<Option<nat>>, locals: seq<Option<nat>>)

  datatype Labels = Labels(capabilities: Side, operations: Side)

  function SideOf(o: Labels, pass: Pass): Side { if pass.Capabilities? then o.capabilities else o.operations }

  predicate SizesOk(a: Arena, o: Labels) {
    && |o.capabilities.expressions| == |o.operations.expressions| == |a.expressions|
    && |o.capabilities.locals| == |o.operations.locals| == |a.locals|
  }

  function StoredAt(a: Arena, o: Labels, pass: Pass, v: nat): Option<nat>
    requires SizesOk(a, o) && v < NodeCount(a)
  {
    if v < |a.expressions| then SideOf(o, pass).expressions[v] else SideOf(o, pass).locals[v - |a.expressions|]
  }

  // --------------------------------------------------------------------- recomputation

  function Singleton(table: Table, root: Option<nat>): Option<nat> {
    if root.Some? then FindSet(table, [root.value], 0) else None
  }

  datatype Evaluated = Evaluated(kind: StatementKind, value: Option<(TypeClass, Option<nat>)>)

  /** The origin of a block so far, and whether control has left it. */
  function BlockState(ss: seq<Evaluated>): (Option<nat>, bool) {
    if ss == [] then (None, false)
    else
      var (result, left) := BlockState(ss[..|ss| - 1]);
      var s := ss[|ss| - 1];
      if left then (result, true)
      else match s.value
        case None => (None, s.kind.Exits?)
        case Some(v) =>
          (if s.kind.Evaluates? && !v.0.NeverType? && !v.0.UnknownType? then v.1 else None,
           s.kind.Leaves? || (!s.kind.Requires? && v.0.NeverType?))
  }

  function EvaluatedOf(a: Arena, side: Side, ss: seq<Statement>): (r: seq<Evaluated>)
    requires |side.expressions| == |a.expressions| && StatementsIn(a, ss)
    ensures |r| == |ss|
  {
    seq(|ss|, i requires 0 <= i < |ss| =>
      Evaluated(ss[i].kind, if ss[i].value.None? then None
                            else Some((a.expressions[ss[i].value.value].typed, side.expressions[ss[i].value.value]))))
  }

  predicate StatementsIn(a: Arena, ss: seq<Statement>) {
    forall i :: 0 <= i < |ss| && ss[i].value.Some? ==> ss[i].value.value < |a.expressions|
  }

  /** What a branch contributes to a join. */
  function Branch(a: Arena, side: Side, x: nat): Arm
    requires |side.expressions| == |a.expressions| && x < |a.expressions|
  {
    if a.expressions[x].typed.NeverType? then Never
    else if a.expressions[x].typed.UnknownType? || side.expressions[x].None? then Unusable
    else Yields(side.expressions[x].value)
  }

  function Branches(a: Arena, side: Side, xs: seq<nat>): (r: seq<Arm>)
    requires |side.expressions| == |a.expressions| && forall i :: 0 <= i < |xs| ==> xs[i] < |a.expressions|
    ensures |r| == |xs|
  {
    seq(|xs|, i requires 0 <= i < |xs| => Branch(a, side, xs[i]))
  }

  function Values(arms: seq<MatchArm>): seq<nat> {
    seq(|arms|, i requires 0 <= i < |arms| => arms[i].value)
  }

  function Select(side: Side, xs: seq<nat>): (r: seq<Option<nat>>)
    requires forall i :: 0 <= i < |xs| ==> xs[i] < |side.expressions|
    ensures |r| == |xs|
  {
    seq(|xs|, i requires 0 <= i < |xs| => side.expressions[xs[i]])
  }

  // ------------------------------------------------------------- operands are in range

  lemma {:induction false} StatementPushed(ss: seq<Statement>, i: nat)
    requires i < |ss| && ss[i].value.Some?
    ensures ss[i].value.value in StatementPushes(ss)
    decreases |ss|
  {
    if i < |ss| - 1 { StatementPushed(ss[..|ss| - 1], i); }
  }

  lemma {:induction false} ArmPushed(arms: seq<MatchArm>, i: nat)
    requires i < |arms|
    ensures arms[i].value in ArmPushes(arms)
    decreases |arms|
  {
    if i < |arms| - 1 { ArmPushed(arms[..|arms| - 1], i); }
  }

  /** Everything an expected origin looks at is an operand in range. */
  ghost predicate Readable(a: Arena, f: Form) {
    match f
    case Tuple(es) => forall i :: 0 <= i < |es| ==> es[i] < |a.expressions|
    case Field(b, _) => b < |a.expressions|
    case Call(c, xs, r) => c < |a.expressions| && (r.OfArgument? ==> r.actual < |a.expressions|)
    case Record(fs, _) => fs != [] ==> fs[0] < |a.expressions|
    case Path(l, _) => l.Some? ==> l.value < |a.locals|
    case Handle(b) => b < |a.expressions|
    case Block(ss) => StatementsIn(a, ss)
    case If(t, e) => t < |a.expressions| && e < |a.expressions|
    case Match(arms) => forall i :: 0 <= i < |arms| ==> arms[i].value < |a.expressions|
    case Old(x) => x < |a.expressions|
    case _ => true
  }

  lemma {:induction false} FormReadable(a: Arena, u: nat)
    requires ArenaOk(a) && u < |a.expressions|
    ensures Readable(a, a.expressions[u].form)
    ensures forall x :: x in Pushes(a.expressions[u].form) || x in Silent(a.expressions[u].form) ==> x < |a.expressions| && a.ranks[x] < a.ranks[u]
    ensures a.expressions[u].form.Call? && a.expressions[u].form.result.OfArgument? ==> a.expressions[u].form.result.actual in Silent(a.expressions[u].form)
  {
    var e := a.expressions[u];
    assert ExprOk(a, u);
    assert forall x :: x in Pushes(e.form) || x in Silent(e.form) ==> x in OperandsOf(e);
    match e.form
    case Tuple(es) => assert forall i :: 0 <= i < |es| ==> es[i] in Pushes(e.form);
    case Field(b, _) => assert b in Silent(e.form);
    case Call(c, xs, r) => assert c in Silent(e.form) && (r.OfArgument? ==> r.actual in Silent(e.form));
    case Record(fs, _) => assert fs != [] ==> fs[0] in Pushes(e.form);
    case Handle(b) => assert b in Pushes(e.form);
    case Block(ss) =>
      forall i | 0 <= i < |ss| && ss[i].value.Some? ensures ss[i].value.value < |a.expressions| { StatementPushed(ss, i); }
    case If(t, f) => assert t in Pushes(e.form) && f in Pushes(e.form);
    case Match(arms) =>
      forall i | 0 <= i < |arms| ensures arms[i].value < |a.expressions| { ArmPushed(arms, i); }
    case Old(x) => assert x in Pushes(e.form);
    case _ =>
  }

  /** The origin that an expression must have, recomputed from stored origins. The result of a
      call and a wrapper record take the expected origin of an operand, not its stored one. */
  function Expected(a: Arena, table: Table, o: Labels, pass: Pass, v: nat): Option<nat>
    requires ArenaOk(a) && SizesOk(a, o) && v < |a.expressions|
    decreases a.ranks[v]
  {
    FormReadable(a, v);
    var e, side := a.expressions[v], SideOf(o, pass);
    if !Relevant(pass, e.typed) then None
    else match e.form
      case Tuple(es) => TupleOrigin(table, Select(side, es))
      case Field(b, projection) =>
        if projection then side.expressions[b] else if pass.Operations? then o.capabilities.expressions[b] else None
      case Call(c, xs, r) =>
        if pass.Operations? || r.NoAuthority? then None
        else if r.OfArgument? then Expected(a, table, o, Capabilities, r.actual)
        else Expected(a, table, o, Operations, c)
      case Record(fs, wrapper) =>
        if pass.Capabilities? && wrapper && fs != [] then Expected(a, table, o, Capabilities, fs[0]) else None
      case Path(l, own) => if l.Some? && own then side.locals[l.value] else None
      case Handle(b) => side.expressions[b]
      case Block(ss) => BlockState(EvaluatedOf(a, side, ss)).0
      case If(t, f) => JoinId(table, Branches(a, side, [t, f]))
      case Match(arms) => JoinId(table, Branches(a, side, Values(arms)))
      case Old(x) => side.expressions[x]
      case Result(root) => if pass.Capabilities? then Singleton(table, root) else None
      case Plain => None
  }

  function ExpectedLocal(a: Arena, table: Table, o: Labels, pass: Pass, l: nat): Option<nat>
    requires ArenaOk(a) && SizesOk(a, o) && l < |a.locals|
  {
    if !Relevant(pass, a.locals[l].typed) then None
    else match a.locals[l].kind
      case ParameterLocal(root) => if pass.Capabilities? then Singleton(table, Some(root)) else None
      case BindingLocal(x) => if x.Some? then SideOf(o, pass).expressions[x.value] else None
      case PatternLocal => None
  }

  function ExpectedAt(a: Arena, table: Table, o: Labels, pass: Pass, v: nat): Option<nat>
    requires ArenaOk(a) && SizesOk(a, o) && v < NodeCount(a)
  {
    if v < |a.expressions| then Expected(a, table, o, pass, v) else ExpectedLocal(a, table, o, pass, v - |a.expressions|)
  }

  /** The roots of an origin are capability parameters of the owner, and the type fits. */
  predicate MatchesType(a: Arena, table: Table, origin: Option<nat>, typed: TypeClass, owner: Option<nat>, pass: Pass) {
    origin.None?
    || (&& owner.Some? && origin.value < |table| && table[origin.value] != []
        && (forall i :: 0 <= i < |table[origin.value]| ==>
              && table[origin.value][i] < |a.parameters|
              && a.parameters[table[origin.value][i]] == Parameter(owner.value, true))
        && Relevant(pass, typed))
  }

  function TypedAt(a: Arena, v: nat): TypeClass
    requires v < NodeCount(a)
  {
    if v < |a.expressions| then a.expressions[v].typed else a.locals[v - |a.expressions|].typed
  }

  function OwnerAt(a: Arena, v: nat): Option<nat>
    requires v < NodeCount(a)
  {
    if v < |a.expressions| then a.expressions[v].owner else a.locals[v - |a.expressions|].owner
  }

  /** The check of one node: its stored origin is the recomputed one, and fits its type. */
  predicate NodeOk(a: Arena, table: Table, o: Labels, pass: Pass, v: nat)
    requires ArenaOk(a) && SizesOk(a, o) && v < NodeCount(a)
  {
    && StoredAt(a, o, pass, v) == ExpectedAt(a, table, o, pass, v)
    && MatchesType(a, table, StoredAt(a, o, pass, v), TypedAt(a, v), OwnerAt(a, v), pass)
  }

  // -------------------------------------------------------------------- the dependencies

  /** What the search pushes for a node. */
  function Deps(a: Arena, pass: Pass, v: nat): seq<nat>
    requires v < NodeCount(a)
  {
    if !Relevant(pass, TypedAt(a, v)) then []
    else if v < |a.expressions| then
      var f := a.expressions[v].form;
      if f.Path? then (if f.local.Some? then [|a.expressions| + f.local.value] else [])
      else if f.Record? && pass.Operations? then []
      else Pushes(f)
    else
      var k := a.locals[v - |a.expressions|].kind;
      if k.BindingLocal? then OptionList(k.initializer) else []
  }

  function ForestOf(a: Arena, pass: Pass): (g: Forest)
    ensures |g.deps| == NodeCount(a)
  {
    Forest(|a.expressions|, seq(NodeCount(a), v requires 0 <= v < NodeCount(a) => Deps(a, pass, v)))
  }

  lemma {:induction false} DepsInRange(a: Arena, pass: Pass, v: nat, x: nat)
    requires ArenaOk(a) && v < NodeCount(a) && x in Deps(a, pass, v)
    ensures x < NodeCount(a)
    ensures v < |a.expressions| && !a.expressions[v].form.Path? ==> x < |a.expressions| && x in OperandsOf(a.expressions[v])
    ensures v < |a.expressions| && a.expressions[v].form.Path? ==> x >= |a.expressions|
  {
    if v < |a.expressions| {
      FormReadable(a, v);
    }
  }

  lemma {:induction false} DepsDistinct(a: Arena, pass: Pass, v: nat)
    requires ArenaOk(a) && v < |a.expressions|
    ensures Distinct(Deps(a, pass, v))
  {
    var e := a.expressions[v];
    assert ExprOk(a, v);
    assert forall i :: 0 <= i < |Pushes(e.form)| ==> OperandsOf(e)[i] == Pushes(e.form)[i];
  }

  /** The dependencies of an arena are a forest in the sense of the search. */
  lemma {:induction false} ArenaForest(a: Arena, pass: Pass)
    requires ArenaOk(a)
    ensures WellFormed(ForestOf(a, pass))
  {
    var g := ForestOf(a, pass);
    forall u: nat, i: nat, x: nat | DependsOn(g, u, i, x) ensures x < |g.deps| { DepsInRange(a, pass, u, x); }
    forall u | 0 <= u < |g.deps| ensures Linear(g, u) || Branching(g, u) { NodeShape(a, pass, u); }
    forall u: nat, v: nat, i: nat, j: nat, x: nat | DependsOn(g, u, i, x) && DependsOn(g, v, j, x) && Branching(g, u) && Branching(g, v)
      ensures u == v && i == j
    {
      OneUse(a, pass, u, i, v, j, x);
    }
  }

  lemma {:induction false} NodeShape(a: Arena, pass: Pass, u: nat)
    requires ArenaOk(a) && u < NodeCount(a)
    ensures Linear(ForestOf(a, pass), u) || Branching(ForestOf(a, pass), u)
  {
    var g := ForestOf(a, pass);
    if u < |a.expressions| && !a.expressions[u].form.Path? {
      forall i | 0 <= i < |g.deps[u]| ensures g.deps[u][i] < g.expressions { DepsInRange(a, pass, u, g.deps[u][i]); }
    }
  }

  lemma {:induction false} OneUse(a: Arena, pass: Pass, u: nat, i: nat, v: nat, j: nat, x: nat)
    requires ArenaOk(a)
    requires var g := ForestOf(a, pass); DependsOn(g, u, i, x) && DependsOn(g, v, j, x) && Branching(g, u) && Branching(g, v)
    ensures u == v && i == j
  {
    var g := ForestOf(a, pass);
    DepsInRange(a, pass, u, x);
    DepsInRange(a, pass, v, x);
    assert g.deps[u][i] < g.expressions;
    assert x in OperandsOf(a.expressions[u]) && x in OperandsOf(a.expressions[v]);
    DepsDistinct(a, pass, u);
  }

  // ------------------------------------------------------------------------ validation

  ghost predicate PassValid(a: Arena, table: Table, o: Labels, pass: Pass)
    requires ArenaOk(a) && SizesOk(a, o)
  {
    Acyclic(ForestOf(a, pass)) && forall v: nat :: v < NodeCount(a) ==> NodeOk(a, table, o, pass, v)
  }

  ghost predicate Accepted(a: Arena, table: Table, o: Labels)
    requires ArenaOk(a) && SizesOk(a, o)
  {
    PassValid(a, table, o, Capabilities) && PassValid(a, table, o, Operations)
  }

  method ValidatePass(a: Arena, table: Table, o: Labels, pass: Pass) returns (ok: bool)
    requires ArenaOk(a) && SizesOk(a, o)
    ensures ok <==> PassValid(a, table, o, pass)
  {
    ArenaForest(a, pass);
    hide ArenaOk, NodeOk, WellFormed, Acyclic, Deps;
    var check := (v: nat) => v < NodeCount(a) && NodeOk(a, table, o, pass, v);
    ok := Validate(ForestOf(a, pass), check);
    assert forall v: nat :: v < NodeCount(a) ==> (check(v) <==> NodeOk(a, table, o, pass, v));
  }

  /** Both passes accept if and only if, for capabilities and for operations, the dependencies
      are acyclic, every stored origin is the recomputed one, and it fits its type. */
  method ValidateOrigins(a: Arena, table: Table, o: Labels) returns (ok: bool)
    requires ArenaOk(a) && SizesOk(a, o)
    ensures ok <==> Accepted(a, table, o)
  {
    ok := ValidatePass(a, table, o, Capabilities);
    if ok { ok := ValidatePass(a, table, o, Operations); }
  }

  // ---------------------------------------------------------- what accepted origins mean

  lemma {:induction false} AcceptedAt(a: Arena, table: Table, o: Labels, pass: Pass, v: nat)
    requires ArenaOk(a) && SizesOk(a, o) && Accepted(a, table, o) && v < |a.expressions|
    ensures SideOf(o, pass).expressions[v] == Expected(a, table, o, pass, v)
    ensures SideOf(o, pass).expressions[v].Some? ==> SideOf(o, pass).expressions[v].value < |table|
  {
    hide ArenaOk, Acyclic, Expected, Relevant;
    assert NodeOk(a, table, o, pass, v);
  }

  /** An accepted tuple has the roots of its elements since the last restart, and those of all
      of them if and only if no root before it is missing after it; this is so if every union
      on the way is interned. */
  lemma {:induction false} AcceptedTuple(a: Arena, table: Table, o: Labels, pass: Pass, v: nat, es: seq<nat>)
    requires ArenaOk(a) && SizesOk(a, o) && Accepted(a, table, o) && Canonical(table)
    requires v < |a.expressions| && a.expressions[v].form == Tuple(es) && Relevant(pass, a.expressions[v].typed)
    ensures forall i :: 0 <= i < |es| ==> es[i] < |a.expressions|
    ensures
      var origin, os := SideOf(o, pass).expressions[v], Select(SideOf(o, pass), es);
      && OriginsKnown(table, os)
      && HasRoots(table, origin, RootsOf(table, os[Restart(table, os)..]))
      && (HasRoots(table, origin, RootsOf(table, os))
          <==> RootsOf(table, os[..Restart(table, os)]) <= RootsOf(table, os[Restart(table, os)..]))
      && (UnionsInterned(table, os) ==> HasRoots(table, origin, RootsOf(table, os)))
  {
    FormReadable(a, v);
    hide ArenaOk, Accepted, Canonical, TupleOrigin, Restart, RootsOf, UnionsInterned, HasRoots;
    var os := Select(SideOf(o, pass), es);
    AcceptedAt(a, table, o, pass, v);
    assert SideOf(o, pass).expressions[v] == TupleOrigin(table, os);
    forall i | 0 <= i < |os| && os[i].Some? ensures os[i].value < |table| { AcceptedAt(a, table, o, pass, es[i]); }
    TupleIsUnion(table, os);
    TupleCovers(table, os);
    if UnionsInterned(table, os) { TupleOfInterned(table, os); }
  }

  /** An accepted conditional or match has the join of its branches. */
  lemma {:induction false} AcceptedJoin(a: Arena, table: Table, o: Labels, pass: Pass, v: nat, xs: seq<nat>)
    requires ArenaOk(a) && SizesOk(a, o) && Accepted(a, table, o) && Canonical(table)
    requires v < |a.expressions| && Relevant(pass, a.expressions[v].typed)
    requires
      var f := a.expressions[v].form;
      (f.If? && xs == [f.thenBranch, f.elseBranch]) || (f.Match? && xs == Values(f.arms))
    ensures forall i :: 0 <= i < |xs| ==> xs[i] < |a.expressions|
    ensures
      var arms := Branches(a, SideOf(o, pass), xs);
      ArmsKnown(table, arms) && IsJoin(table, arms, SideOf(o, pass).expressions[v])
  {
    FormReadable(a, v);
    hide ArenaOk, Accepted, Canonical, JoinId, IsJoin;
    var arms := Branches(a, SideOf(o, pass), xs);
    AcceptedAt(a, table, o, pass, v);
    assert SideOf(o, pass).expressions[v] == JoinId(table, arms);
    forall i | 0 <= i < |arms| && arms[i].Yields? ensures arms[i].origin < |table| { AcceptedAt(a, table, o, pass, xs[i]); }
    JoinIdIsJoin(table, arms);
  }

  // ------------------------------------------------------- accepted origins are determined

  /** Operands lie within their expression and an initializer within its statement, as parsed;
      a local is declared before it is named, as the resolutions of locals are tested for. */
  ghost predicate PositionsOk(a: Arena)
    requires ArenaOk(a)
  {
    && (forall u, x :: 0 <= u < |a.expressions| && x in OperandsOf(a.expressions[u]) && x < |a.ends| ==> a.ends[x] <= a.ends[u])
    && (forall l :: 0 <= l < |a.locals| && a.locals[l].kind.BindingLocal? && a.locals[l].kind.initializer.Some? ==>
          a.ends[a.locals[l].kind.initializer.value] <= a.declared[l])
    && (forall u :: 0 <= u < |a.expressions| && a.expressions[u].form.Path? && a.expressions[u].form.local.Some? ==> DeclaredBefore(a, u))
  }

  ghost predicate DeclaredBefore(a: Arena, u: nat)
    requires u < |a.expressions| == |a.starts| == |a.ends| && |a.declared| == |a.locals|
  {
    var f := a.expressions[u].form;
    f.Path? && f.local.Some? && f.local.value < |a.locals| && a.locals[f.local.value].kind.BindingLocal? ==>
      a.declared[f.local.value] <= a.starts[u] < a.ends[u]
  }

  /** Every stored origin is the recomputed one. */
  ghost predicate Solves(a: Arena, table: Table, o: Labels)
    requires ArenaOk(a) && SizesOk(a, o)
  {
    forall pass, v: nat :: v < NodeCount(a) ==> StoredAt(a, o, pass, v) == ExpectedAt(a, table, o, pass, v)
  }

  ghost predicate Agree(a: Arena, x: Labels, y: Labels, v: nat)
    requires SizesOk(a, x) && SizesOk(a, y) && v < NodeCount(a)
  {
    forall pass :: StoredAt(a, x, pass, v) == StoredAt(a, y, pass, v)
  }

  /** Two sides agree on the operands of a form that an origin may depend on. */
  ghost predicate SameOperands(f: Form, s: Side, t: Side) {
    |s.expressions| == |t.expressions|
    && forall u: nat :: (u in Pushes(f) || u in Silent(f)) && u < |s.expressions| ==> s.expressions[u] == t.expressions[u]
  }

  lemma {:induction false} SameStatements(a: Arena, s: Side, t: Side, ss: seq<Statement>)
    requires |s.expressions| == |a.expressions| && StatementsIn(a, ss) && SameOperands(Block(ss), s, t)
    ensures EvaluatedOf(a, s, ss) == EvaluatedOf(a, t, ss)
  {
    forall i | 0 <= i < |ss| && ss[i].value.Some? ensures s.expressions[ss[i].value.value] == t.expressions[ss[i].value.value] {
      StatementPushed(ss, i);
      assert ss[i].value.value in Pushes(Block(ss));
    }
  }

  lemma {:induction false} SameArms(a: Arena, s: Side, t: Side, arms: seq<MatchArm>)
    requires |s.expressions| == |a.expressions| && SameOperands(Match(arms), s, t)
    requires forall i :: 0 <= i < |arms| ==> arms[i].value < |a.expressions|
    ensures Branches(a, s, Values(arms)) == Branches(a, t, Values(arms))
  {
    forall i | 0 <= i < |arms| ensures s.expressions[arms[i].value] == t.expressions[arms[i].value] {
      ArmPushed(arms, i);
      assert arms[i].value in Pushes(Match(arms));
    }
  }

  lemma {:induction false} SameBranches(a: Arena, s: Side, t: Side, p: nat, q: nat)
    requires |s.expressions| == |a.expressions| && SameOperands(If(p, q), s, t) && p < |a.expressions| && q < |a.expressions|
    ensures Branches(a, s, [p, q]) == Branches(a, t, [p, q])
  {
    assert p in Pushes(If(p, q)) && q in Pushes(If(p, q));
  }

  lemma {:induction false} SameElements(s: Side, t: Side, es: seq<nat>)
    requires SameOperands(Tuple(es), s, t) && forall i :: 0 <= i < |es| ==> es[i] < |s.expressions|
    ensures Select(s, es) == Select(t, es)
  {
    forall i | 0 <= i < |es| ensures s.expressions[es[i]] == t.expressions[es[i]] { assert es[i] in Pushes(Tuple(es)); }
  }

  lemma {:induction false} SameSides(a: Arena, x: Labels, y: Labels, pass: Pass, f: Form)
    requires SizesOk(a, x) && SizesOk(a, y)
    requires forall u: nat :: u in Pushes(f) || u in Silent(f) ==> u < |a.expressions| && Agree(a, x, y, u)
    ensures SameOperands(f, SideOf(x, pass), SideOf(y, pass))
  {
    forall u: nat | u in Pushes(f) || u in Silent(f) ensures SideOf(x, pass).expressions[u] == SideOf(y, pass).expressions[u] {
      AgreeHere(a, x, y, pass, u);
    }
  }

  /** The recomputation of an expression looks at no other origins than those of its operands
      and of its local, directly or through the operands whose expected origin it takes. */
  lemma {:induction false} ExpectedSame(a: Arena, table: Table, x: Labels, y: Labels, pass: Pass, v: nat)
    requires ArenaOk(a) && SizesOk(a, x) && SizesOk(a, y) && v < |a.expressions|
    requires forall u: nat :: u in Pushes(a.expressions[v].form) || u in Silent(a.expressions[v].form) ==> u < |a.expressions| && Agree(a, x, y, u)
    requires a.expressions[v].form.Path? && a.expressions[v].form.local.Some? && a.expressions[v].form.local.value < |a.locals| ==>
      Agree(a, x, y, |a.expressions| + a.expressions[v].form.local.value)
    requires forall u: nat, q: Pass :: (u in Pushes(a.expressions[v].form) || u in Silent(a.expressions[v].form)) && u < |a.expressions| ==>
      Expected(a, table, x, q, u) == Expected(a, table, y, q, u)
    ensures Expected(a, table, x, pass, v) == Expected(a, table, y, pass, v)
  {
    FormReadable(a, v);
    var f, s, t := a.expressions[v].form, SideOf(x, pass), SideOf(y, pass);
    SameSides(a, x, y, pass, f);
    hide ArenaOk, TupleOrigin, BlockState, JoinId, Agree, EvaluatedOf, Branches, Select, Singleton;
    match f
    case Tuple(es) => hide Pushes, SameOperands; SameElements(s, t, es);
    case Field(b, _) => SameSides(a, x, y, Capabilities, f);
    case Path(l, _) => if l.Some? { AgreeHere(a, x, y, pass, |a.expressions| + l.value); }
    case Block(ss) => hide Pushes, SameOperands; SameStatements(a, s, t, ss);
    case If(p, q) => hide Pushes, SameOperands; SameBranches(a, s, t, p, q);
    case Match(arms) => hide Pushes, SameOperands; SameArms(a, s, t, arms);
    case Record(fs, _) => assert fs != [] ==> fs[0] in Pushes(f);
    case Call(c, xs, _) => assert c in Silent(f);
    case _ =>
  }

  lemma {:induction false} AgreeHere(a: Arena, x: Labels, y: Labels, pass: Pass, v: nat)
    requires SizesOk(a, x) && SizesOk(a, y) && v < NodeCount(a) && Agree(a, x, y, v)
    ensures StoredAt(a, x, pass, v) == StoredAt(a, y, pass, v)
  {
  }

  ghost function EndOf(a: Arena, v: nat): nat
    requires ArenaOk(a) && v < NodeCount(a)
  {
    if v < |a.expressions| then a.ends[v]
    else if a.locals[v - |a.expressions|].kind.BindingLocal? then a.declared[v - |a.expressions|] else 0
  }

  /** Two labellings that satisfy their equations agree on every node. */
  lemma {:induction false} SolutionsAgree(a: Arena, table: Table, x: Labels, y: Labels, v: nat)
    requires ArenaOk(a) && PositionsOk(a) && SizesOk(a, x) && SizesOk(a, y) && Solves(a, table, x) && Solves(a, table, y)
    requires v < NodeCount(a)
    ensures Agree(a, x, y, v)
    decreases EndOf(a, v), if v < |a.expressions| then 0 else 1, if v < |a.expressions| then a.ranks[v] else 0, 1
  {
    if v < |a.expressions| {
      forall pass ensures StoredAt(a, x, pass, v) == StoredAt(a, y, pass, v) { ExpectedAgrees(a, table, x, y, pass, v); }
    } else {
      var k := a.locals[v - |a.expressions|].kind;
      if k.BindingLocal? && k.initializer.Some? {
        SolutionsAgree(a, table, x, y, k.initializer.value);
        LocalFollows(a, table, x, y, v);
      } else {
        LocalFollows(a, table, x, y, v);
      }
    }
  }

  lemma {:induction false} LocalFollows(a: Arena, table: Table, x: Labels, y: Labels, v: nat)
    requires ArenaOk(a) && SizesOk(a, x) && SizesOk(a, y) && Solves(a, table, x) && Solves(a, table, y)
    requires |a.expressions| <= v < NodeCount(a)
    requires var k := a.locals[v - |a.expressions|].kind; k.BindingLocal? && k.initializer.Some? ==> Agree(a, x, y, k.initializer.value)
    ensures Agree(a, x, y, v)
  {
    forall pass ensures StoredAt(a, x, pass, v) == StoredAt(a, y, pass, v) {
      var k := a.locals[v - |a.expressions|].kind;
      if k.BindingLocal? && k.initializer.Some? { AgreeHere(a, x, y, pass, k.initializer.value); }
      assert StoredAt(a, x, pass, v) == ExpectedAt(a, table, x, pass, v) && StoredAt(a, y, pass, v) == ExpectedAt(a, table, y, pass, v);
    }
  }

  /** Operands end no later than their expression and have smaller ranks. */
  lemma {:induction false} OperandBefore(a: Arena, v: nat, u: nat)
    requires ArenaOk(a) && PositionsOk(a) && v < |a.expressions|
    requires u in Pushes(a.expressions[v].form) || u in Silent(a.expressions[v].form)
    ensures u < |a.expressions| && EndOf(a, u) <= EndOf(a, v) && a.ranks[u] < a.ranks[v]
  {
    FormReadable(a, v);
    assert u in OperandsOf(a.expressions[v]);
  }

  /** A binding ends before the paths that name it. */
  lemma {:induction false} LocalBefore(a: Arena, v: nat)
    requires ArenaOk(a) && PositionsOk(a) && v < |a.expressions|
    requires a.expressions[v].form.Path? && a.expressions[v].form.local.Some?
    ensures
      var l := a.expressions[v].form.local.value;
      l < |a.locals| && (a.locals[l].kind.BindingLocal? ==> EndOf(a, |a.expressions| + l) < EndOf(a, v))
  {
    assert ExprOk(a, v) && DeclaredBefore(a, v);
  }

  lemma {:induction false} ExpectedAgrees(a: Arena, table: Table, x: Labels, y: Labels, pass: Pass, v: nat)
    requires ArenaOk(a) && PositionsOk(a) && SizesOk(a, x) && SizesOk(a, y) && Solves(a, table, x) && Solves(a, table, y)
    requires v < |a.expressions|
    ensures Expected(a, table, x, pass, v) == Expected(a, table, y, pass, v)
    decreases EndOf(a, v), 0, a.ranks[v], 0
  {
    var f := a.expressions[v].form;
    assert |a.ranks| == |a.expressions|;
    hide ArenaOk, PositionsOk, Solves, Agree, Expected, Pushes, Silent, EndOf;
    forall u: nat | u in Pushes(f) || u in Silent(f) ensures u < |a.expressions| && Agree(a, x, y, u) {
      OperandBefore(a, v, u);
      SolutionsAgree(a, table, x, y, u);
    }
    if f.Path? && f.local.Some? {
      LocalBefore(a, v);
      var w := |a.expressions| + f.local.value;
      if a.locals[f.local.value].kind.BindingLocal? { SolutionsAgree(a, table, x, y, w); } else { LocalFollows(a, table, x, y, w); }
    }
    forall u: nat, q: Pass | (u in Pushes(f) || u in Silent(f)) && u < |a.expressions|
      ensures Expected(a, table, x, q, u) == Expected(a, table, y, q, u)
    {
      OperandBefore(a, v, u);
      ExpectedAgrees(a, table, x, y, q, u);
    }
    ExpectedSame(a, table, x, y, pass, v);
  }

  /** Whatever both passes accept is the only labelling that they accept. */
  lemma {:induction false} OriginsDetermined(a: Arena, table: Table, x: Labels, y: Labels)
    requires ArenaOk(a) && PositionsOk(a) && SizesOk(a, x) && SizesOk(a, y)
    requires Accepted(a, table, x) && Accepted(a, table, y)
    ensures x == y
  {
    ValidSolves(a, table, x);
    ValidSolves(a, table, y);
    forall v: nat | v < NodeCount(a) ensures Agree(a, x, y, v) { SolutionsAgree(a, table, x, y, v); }
    hide ArenaOk, PositionsOk, PassValid, Solves;
    SideEqual(a, x, y, Capabilities);
    SideEqual(a, x, y, Operations);
  }

  lemma {:induction false} ValidSolves(a: Arena, table: Table, o: Labels)
    requires ArenaOk(a) && SizesOk(a, o) && Accepted(a, table, o)
    ensures Solves(a, table, o)
  {
    hide ArenaOk, Acyclic, ExpectedAt;
    forall pass, v: nat | v < NodeCount(a) ensures StoredAt(a, o, pass, v) == ExpectedAt(a, table, o, pass, v) {
      assert pass == Capabilities || pass == Operations;
      assert NodeOk(a, table, o, pass, v);
    }
  }

  lemma {:induction false} SideEqual(a: Arena, x: Labels, y: Labels, pass: Pass)
    requires SizesOk(a, x) && SizesOk(a, y) && forall v: nat :: v < NodeCount(a) ==> Agree(a, x, y, v)
    ensures SideOf(x, pass) == SideOf(y, pass)
  {
    var s, t := SideOf(x, pass), SideOf(y, pass);
    forall v | 0 <= v < |s.expressions| ensures s.expressions[v] == t.expressions[v] { AgreeHere(a, x, y, pass, v); }
    forall l | 0 <= l < |s.locals| ensures s.locals[l] == t.locals[l] { AgreeHere(a, x, y, pass, |a.expressions| + l); }
  }

  // ------------------------------------------------------ a local that feeds its own value

  /** The local of `let l = f(l)`, where the result of f has the authority of its argument: the
      search does not push the argument, so it sees no cycle. */
  function SelfFed(): Arena {
    Arena(
      [ Expr(Path(Some(0), true), CapabilityType, Some(0), []),
        Expr(Plain, OtherType, Some(0), []),
        Expr(Call(1, [0], OfArgument(0)), CapabilityType, Some(0), [])],
      [Local(BindingLocal(Some(2)), CapabilityType, Some(0))],
      [Parameter(0, true), Parameter(0, true)],
      [0, 0, 1], [10, 8, 8], [11, 9, 12], [12])
  }

  function SelfFedTable(): Table { [[0], [1]] }

  function SelfFedLabels(k: nat): Labels {
    Labels(Side([Some(k), None, Some(k)], [Some(k)]), Side([None, None, None], [None]))
  }

  lemma {:induction false} SelfFedOk()
    ensures ArenaOk(SelfFed()) && !PositionsOk(SelfFed())
  {
    hide PositionsOk, OperandsOf;
    var a := SelfFed();
    SelfFedOperands();
    forall u | 0 <= u < 3 ensures ExprOk(a, u) { assert u == 0 || u == 1 || u == 2; }
    SelfFedPosition();
  }

  lemma {:induction false} SelfFedOperands()
    ensures OperandsOf(SelfFed().expressions[0]) == [] && OperandsOf(SelfFed().expressions[1]) == []
    ensures OperandsOf(SelfFed().expressions[2]) == [1, 0]
  {
  }

  lemma {:induction false} SelfFedPosition()
    requires ArenaOk(SelfFed())
    ensures !PositionsOk(SelfFed())
  {
    hide ArenaOk, OperandsOf;
    assert !DeclaredBefore(SelfFed(), 0);
  }

  lemma {:induction false} SelfFedAcyclic(pass: Pass)
    ensures Acyclic(ForestOf(SelfFed(), pass))
  {
    var a, g := SelfFed(), ForestOf(SelfFed(), pass);
    assert Deps(a, pass, 0) == (if pass.Capabilities? then [3] else []) && Deps(a, pass, 1) == [] && Deps(a, pass, 2) == [];
    assert Deps(a, pass, 3) == (if pass.Capabilities? then [2] else []);
    var order := [2, 3, 0, 1];
    assert order[..1] == [2] && order[..2] == [2, 3];
    assert Ordered(g, order);
    assert order[0] == 2 && order[1] == 3 && order[2] == 0 && order[3] == 1;
    OrderedIsAcyclic(g, order);
  }

  lemma {:induction false} SelfFedNode(k: nat, pass: Pass, v: nat)
    requires ArenaOk(SelfFed()) && k < 2 && v < 4
    ensures NodeOk(SelfFed(), SelfFedTable(), SelfFedLabels(k), pass, v)
  {
    var a, o, table := SelfFed(), SelfFedLabels(k), SelfFedTable();
    hide ArenaOk;
    assert Expected(a, table, o, Capabilities, 0) == Some(k);
    assert table[k] == [k];
  }

  lemma {:induction false} SelfFedValid(k: nat, pass: Pass)
    requires ArenaOk(SelfFed()) && k < 2
    ensures PassValid(SelfFed(), SelfFedTable(), SelfFedLabels(k), pass)
  {
    SelfFedAcyclic(pass);
    forall v: nat | v < 4 ensures NodeOk(SelfFed(), SelfFedTable(), SelfFedLabels(k), pass, v) { SelfFedNode(k, pass, v); }
    hide ArenaOk, NodeOk, Acyclic, ForestOf;
  }

  lemma {:induction false} SelfFedAccepted(k: nat)
    requires ArenaOk(SelfFed()) && k < 2
    ensures SizesOk(SelfFed(), SelfFedLabels(k)) && Accepted(SelfFed(), SelfFedTable(), SelfFedLabels(k))
  {
    SelfFedValid(k, Capabilities);
    SelfFedValid(k, Operations);
    hide ArenaOk, PassValid;
  }

  lemma {:induction false} SelfFedDiffer()
    ensures SelfFedLabels(0) != SelfFedLabels(1)
  {
    assert SelfFedLabels(0).capabilities.locals[0] != SelfFedLabels(1).capabilities.locals[0];
  }

  /** Without the test that locals are declared before they are named, both passes accept two
      different labellings: only that test makes origins determined. */
  lemma {:induction false} SelfFedUndetermined() returns (a: Arena, table: Table, x: Labels, y: Labels)
    ensures ArenaOk(a) && !PositionsOk(a) && SizesOk(a, x) && SizesOk(a, y) && x != y
    ensures Accepted(a, table, x) && Accepted(a, table, y)
  {
    hide *;
    a, table, x, y := SelfFed(), SelfFedTable(), SelfFedLabels(0), SelfFedLabels(1);
    SelfFedOk();
    SelfFedDiffer();
    SelfFedAccepted(0);
    SelfFedAccepted(1);
  }

  // --------------------------------------------- positions rule out cycles of dependencies

  /** Parameters and patterns depend on nothing, and bindings come after their initializers. */
  ghost function Stage(a: Arena, v: nat): nat
    requires v < NodeCount(a)
  {
    if v < |a.expressions| then 1 else if a.locals[v - |a.expressions|].kind.BindingLocal? then 2 else 0
  }

  ghost function RankOf(a: Arena, v: nat): nat
    requires ArenaOk(a) && v < NodeCount(a)
  {
    if v < |a.expressions| then a.ranks[v] else 0
  }

  /** The node x ends before u, or is at an earlier stage, or lies within u. */
  ghost predicate Precedes(a: Arena, x: nat, u: nat)
    requires ArenaOk(a)
  {
    x < NodeCount(a) && u < NodeCount(a)
    && (EndOf(a, x) < EndOf(a, u)
        || (EndOf(a, x) == EndOf(a, u) && (Stage(a, x) < Stage(a, u) || (Stage(a, x) == Stage(a, u) && RankOf(a, x) < RankOf(a, u)))))
  }

  lemma {:induction false} DependencyPrecedes(a: Arena, pass: Pass, u: nat, x: nat)
    requires ArenaOk(a) && PositionsOk(a) && u < NodeCount(a) && x in Deps(a, pass, u)
    ensures Precedes(a, x, u)
  {
    DepsInRange(a, pass, u, x);
    if u < |a.expressions| {
      if a.expressions[u].form.Path? { LocalBefore(a, u); } else { OperandBefore(a, u, x); }
    }
  }

  /** Where spans nest and locals are declared before they are named, the dependencies that the
      search follows are acyclic. */
  lemma {:induction false} PositionsAcyclic(a: Arena, pass: Pass)
    requires ArenaOk(a) && PositionsOk(a)
    ensures Acyclic(ForestOf(a, pass))
  {
    var h := GraphOf(ForestOf(a, pass));
    hide ArenaOk, PositionsOk;
    forall e | e in h ensures Precedes(a, e.1, e.0) { DependencyPrecedes(a, pass, e.0, e.1); }
    forall u, v | (u, v) in h ensures !Reaches(h, v, u) {
      var earlier := iset x: nat | Precedes(a, x, u);
      assert v in earlier && u !in earlier;
      if Reaches(h, v, u) { ClosedUnderReach(h, earlier, v, u); }
    }
  }

  /** So in the searches that follow the test of local resolutions no node ever has more than
      two live entries. */
  lemma {:induction false} TwoLiveEntries(a: Arena, pass: Pass, states: seq<int>, order: seq<nat>, fs: seq<Frame>, v: nat)
    requires ArenaOk(a) && PositionsOk(a) && Searching(ForestOf(a, pass), states, order, fs)
    ensures Live(Flat(ForestOf(a, pass), fs), v) <= 2
  {
    hide Searching, Live, Flat, Acyclic, WellFormed, ArenaOk, PositionsOk;
    ArenaForest(a, pass);
    PositionsAcyclic(a, pass);
    TwoLive(ForestOf(a, pass), states, order, fs, v);
  }
}
