/** The checked program as the effect checker sees it, and the equations its rows obey. */
module EffectProgram {
  import opened Options

  // ------------------------------------------------------------------ effect rows

  datatype Authority = NoArgument | StaticPath(path: string) | Parameter(root: nat) | SelfAuthority

  /** Names and static paths are normalised texts: module Paths proves that the source's
      comparison of spans is equality of these. */
  datatype Atom = Atom(name: string, authority: Authority)

  /** A row is a sequence without repetitions, grown by Insert. */
  type Row = seq<Atom>

  const PANIC := Atom("panic", NoArgument)

  predicate AuthorityFree(a: Atom) {
    a.authority.NoArgument? || a.authority.StaticPath?
  }

  ghost predicate NoRepeats(row: Row) {
    forall i, j :: 0 <= i < j < |row| ==> row[i] != row[j]
  }

  // --------------------------------------------------------------------- programs

  /** What the type checker knows about a capability argument: the caller parameters it
      may stand for (never none of them), or nothing. */
  datatype Origin = Unknown | Roots(roots: seq<nat>)

  type Actuals = map<nat, Origin>

  /** A structural function type: its fixed effects, and the definition that owns the
      effect parameter of an open row. */
  datatype Signature = Signature(effects: Row, tail: Option<nat>)

  /** An expression of function type: a definition, a bound capability operation, or a
      value known only by its signature. */
  datatype CallableSource =
    | FunctionValue(definition: nat)
    | OperationValue(member: nat)
    | SignatureValue(signature: Signature)

  /** The argument for one callback parameter whose type mentions the callee's effect
      parameter, with the fixed effects of that parameter's type. */
  datatype CallbackArgument = NotCallable | Callback(fixed: Row, actual: CallableSource)

  datatype CallSite =
    | NoRow
    | ToFunction(target: nat, actuals: Actuals, callbacks: seq<CallbackArgument>)
    | ToSignature(signature: Signature)
    | ToMember(member: nat, receiver: seq<nat>, actuals: Actuals)
    | ToTraitMethod(traitMethod: nat, actuals: Actuals)

  /** An expression, reduced to what matters for effects. The children of a node are the
      operands, branches, arms and statements that may be evaluated. */
  datatype Body =
    | Node(children: seq<Body>)
    | Call(site: CallSite, operands: seq<Body>)
    | Panic(message: Body)
    | Handle(authority: Body, provider: Body, effectName: string, root: nat, providerMember: nat, body: Body)

  datatype Function = Function(callable: bool, public: bool, polymorphic: bool, clause: Option<Row>, body: Option<Body>)

  /** A capability operation; source is the private source parameter of a wrapper. */
  datatype Member = Member(row: Row, source: Option<nat>, body: Option<Body>)

  datatype TraitMethod = TraitMethod(row: Row, body: Option<Body>)

  /** A function value that reaches a position of structural function type other than a
      callback argument of a call that infers its effect parameter. */
  datatype Flow = Flow(source: CallableSource, target: Signature)

  datatype Program = Program(
    functions: seq<Function>,
    members: seq<Member>,
    traitMethods: seq<TraitMethod>,
    implementations: set<(nat, nat)>,
    flows: seq<Flow>)

  /** Private functions and tests without a clause have their rows inferred. */
  predicate Inferred(f: Function) {
    f.callable && f.clause.None? && !f.public
  }

  function InitialRow(f: Function): Row {
    if f.clause.Some? then f.clause.value else []
  }

  // -------------------------------------------------------------- well-formedness

  predicate SourceInRange(p: Program, s: CallableSource) {
    match s
    case FunctionValue(f) => f < |p.functions| && !p.functions[f].polymorphic
    case OperationValue(m) => m < |p.members|
    case SignatureValue(_) => true
  }

  predicate SiteInRange(p: Program, s: CallSite) {
    match s
    case NoRow => true
    case ToFunction(g, _, cbs) =>
      g < |p.functions| && forall i :: 0 <= i < |cbs| && cbs[i].Callback? ==> SourceInRange(p, cbs[i].actual)
    case ToSignature(_) => true
    case ToMember(m, _, _) => m < |p.members|
    case ToTraitMethod(t, _) => t < |p.traitMethods|
  }

  predicate BodyInRange(p: Program, b: Body) {
    match b
    case Node(cs) => forall i :: 0 <= i < |cs| ==> BodyInRange(p, cs[i])
    case Call(s, ops) => SiteInRange(p, s) && forall i :: 0 <= i < |ops| ==> BodyInRange(p, ops[i])
    case Panic(m) => BodyInRange(p, m)
    case Handle(a, v, _, _, pm, c) => BodyInRange(p, a) && BodyInRange(p, v) && pm < |p.members| && BodyInRange(p, c)
  }

  predicate OptionInRange(p: Program, b: Option<Body>) {
    b.Some? ==> BodyInRange(p, b.value)
  }

  /** Every identifier the earlier stages resolved is in range, declared rows have no
      repetitions, and only callable items have bodies. */
  ghost predicate InRange(p: Program) {
    && (forall f :: 0 <= f < |p.functions| ==>
          && OptionInRange(p, p.functions[f].body)
          && NoRepeats(InitialRow(p.functions[f]))
          && (p.functions[f].body.Some? ==> p.functions[f].callable))
    && (forall m :: 0 <= m < |p.members| ==> OptionInRange(p, p.members[m].body))
    && (forall t :: 0 <= t < |p.traitMethods| ==> OptionInRange(p, p.traitMethods[t].body))
    && (forall i :: i in p.implementations ==> i.0 < |p.traitMethods| && i.1 < |p.traitMethods|)
    && (forall i :: 0 <= i < |p.flows| ==> SourceInRange(p, p.flows[i].source))
  }

  // -------------------------------------------------------------------- equations

  /** One set of atoms for every definition. */
  type Family = seq<set<Atom>>

  ghost function AtomsOf(rows: seq<Row>): (f: Family)
    ensures |f| == |rows|
    ensures forall i :: 0 <= i < |rows| ==> f[i] == set a | a in rows[i]
  {
    seq(|rows|, i requires 0 <= i < |rows| => set a | a in rows[i])
  }

  ghost predicate FamilyLe(x: Family, y: Family) {
    |x| == |y| && forall i :: 0 <= i < |x| ==> x[i] <= y[i]
  }

  ghost function SourceRow(p: Program, r: Family, s: CallableSource): set<Atom>
    requires |r| == |p.functions| && SourceInRange(p, s)
  {
    match s
    case FunctionValue(f) => r[f]
    case OperationValue(m) => set a | a in p.members[m].row
    case SignatureValue(g) => set a | a in g.effects
  }

  /** The part of a callback's row that instantiates the callee's effect parameter. */
  ghost predicate CallbackAdds(p: Program, r: Family, c: CallbackArgument, a: Atom)
    requires |r| == |p.functions| && (c.Callback? ==> SourceInRange(p, c.actual))
  {
    c.Callback? && a in SourceRow(p, r, c.actual) && AuthorityFree(a) && a !in c.fixed
  }

  ghost predicate SomeCallbackAdds(p: Program, r: Family, cbs: seq<CallbackArgument>, a: Atom)
    requires |r| == |p.functions|
    requires forall i :: 0 <= i < |cbs| && cbs[i].Callback? ==> SourceInRange(p, cbs[i].actual)
  {
    exists i :: 0 <= i < |cbs| && CallbackAdds(p, r, cbs[i], a)
  }

  /** The atoms a call site demands, in the callee's terms. */
  ghost predicate Required(p: Program, r: Family, s: CallSite, a: Atom)
    requires |r| == |p.functions| && SiteInRange(p, s)
  {
    match s
    case NoRow => false
    case ToFunction(g, _, cbs) =>
      || a in r[g]
      || (p.functions[g].polymorphic && SomeCallbackAdds(p, r, cbs, a))
    case ToSignature(g) => a in g.effects
    case ToMember(m, _, _) => a in p.members[m].row
    case ToTraitMethod(t, _) => a in p.traitMethods[t].row
  }

  function SiteActuals(s: CallSite): Actuals {
    match s
    case ToFunction(_, x, _) => x
    case ToMember(_, _, x) => x
    case ToTraitMethod(_, x) => x
    case _ => map[]
  }

  /** The caller roots that a callee authority may stand for at this site; None if the
      checker cannot tell, which it diagnoses. */
  function SiteRoots(s: CallSite, a: Authority): Option<seq<nat>> {
    match a
    case SelfAuthority => if s.ToMember? then Some(s.receiver) else None
    case Parameter(q) =>
      if q in SiteActuals(s) && SiteActuals(s)[q].Roots? then Some(SiteActuals(s)[q].roots) else None
    case _ => Some([])
  }

  /** Substitution of the callee's authority by the caller's: one instance per root. */
  function Instances(s: CallSite, a: Atom): Row {
    if AuthorityFree(a) then [a]
    else match SiteRoots(s, a.authority)
      case None => []
      case Some(roots) => seq(|roots|, i requires 0 <= i < |roots| => Atom(a.name, Parameter(roots[i])))
  }

  /** The lexically enclosing handlers, outermost first. */
  type Handlers = seq<(string, nat)>

  predicate IsHandled(h: Handlers, a: Atom) {
    a.authority.Parameter? && (a.name, a.authority.root) in h
  }

  ghost predicate SiteContributes(p: Program, r: Family, h: Handlers, s: CallSite, a: Atom)
    requires |r| == |p.functions| && SiteInRange(p, s)
  {
    !IsHandled(h, a) && exists q :: Required(p, r, s, q) && a in Instances(s, q)
  }

  /** Atom a is an effect of body b that its handlers do not mask, given the rows r. */
  ghost predicate Contributes(p: Program, r: Family, h: Handlers, b: Body, a: Atom)
    requires |r| == |p.functions| && BodyInRange(p, b)
    decreases b
  {
    match b
    case Node(cs) => exists i :: 0 <= i < |cs| && Contributes(p, r, h, cs[i], a)
    case Call(s, ops) =>
      SiteContributes(p, r, h, s, a) || exists i :: 0 <= i < |ops| && Contributes(p, r, h, ops[i], a)
    case Panic(m) => a == PANIC || Contributes(p, r, h, m, a)
    case Handle(x, v, n, root, _, c) =>
      Contributes(p, r, h, x, a) || Contributes(p, r, h, v, a) || Contributes(p, r, h + [(n, root)], c, a)
  }

  /** The equation of one inferred definition. */
  ghost predicate RowClosed(p: Program, r: Family, f: nat)
    requires InRange(p) && |r| == |p.functions| && f < |r|
  {
    Inferred(p.functions[f]) && p.functions[f].body.Some? ==>
      forall a :: Contributes(p, r, [], p.functions[f].body.value, a) ==> a in r[f]
  }

  ghost predicate Closed(p: Program, r: Family)
    requires InRange(p)
  {
    && |r| == |p.functions|
    && (forall f :: 0 <= f < |r| ==> (set a | a in InitialRow(p.functions[f])) <= r[f])
    && (forall f: nat :: f < |r| ==> RowClosed(p, r, f))
  }

  /** The least family closed under all equations at once. */
  ghost predicate IsLeast(p: Program, r: Family)
    requires InRange(p)
  {
    Closed(p, r) && forall other :: Closed(p, other) ==> FamilyLe(r, other)
  }

  // ----------------------------------------------------------------- dependencies

  function CallbackReads(cbs: seq<CallbackArgument>): set<nat> {
    set i | 0 <= i < |cbs| && cbs[i].Callback? && cbs[i].actual.FunctionValue? :: cbs[i].actual.definition
  }

  function SiteReads(p: Program, s: CallSite): set<nat>
    requires SiteInRange(p, s)
  {
    if s.ToFunction? then {s.target} + (if p.functions[s.target].polymorphic then CallbackReads(s.callbacks) else {})
    else {}
  }

  /** The definitions whose rows a body's equation mentions. */
  function Reads(p: Program, b: Body): set<nat>
    requires BodyInRange(p, b)
  {
    match b
    case Node(cs) => ReadsAll(p, cs)
    case Call(s, ops) => SiteReads(p, s) + ReadsAll(p, ops)
    case Panic(m) => Reads(p, m)
    case Handle(x, v, _, _, _, c) => Reads(p, x) + Reads(p, v) + Reads(p, c)
  }

  function ReadsAll(p: Program, bs: seq<Body>): set<nat>
    requires forall i :: 0 <= i < |bs| ==> BodyInRange(p, bs[i])
  {
    set i, g | 0 <= i < |bs| && g in Reads(p, bs[i]) :: g
  }

  lemma {:induction false} RequiredMonotone(p: Program, x: Family, y: Family, s: CallSite, ops: seq<Body>, a: Atom)
    requires |x| == |y| == |p.functions| && BodyInRange(p, Call(s, ops))
    requires forall g :: g in Reads(p, Call(s, ops)) && g < |x| ==> x[g] <= y[g]
    requires Required(p, x, s, a)
    ensures Required(p, y, s, a)
  {
    if s.ToFunction? {
      assert s.target in Reads(p, Call(s, ops));
      if a !in x[s.target] {
        var i :| 0 <= i < |s.callbacks| && CallbackAdds(p, x, s.callbacks[i], a);
        if s.callbacks[i].actual.FunctionValue? {
          assert s.callbacks[i].actual.definition in CallbackReads(s.callbacks);
        }
        assert CallbackAdds(p, y, s.callbacks[i], a);
      }
    }
  }

  /** A body's contribution grows with the rows it reads, and depends on no others. */
  lemma {:induction false} ContributesMonotone(p: Program, x: Family, y: Family, h: Handlers, b: Body, a: Atom)
    requires |x| == |y| == |p.functions| && BodyInRange(p, b)
    requires forall g :: g in Reads(p, b) && g < |x| ==> x[g] <= y[g]
    requires Contributes(p, x, h, b, a)
    ensures Contributes(p, y, h, b, a)
    decreases b
  {
    match b
    case Node(cs) =>
      var i :| 0 <= i < |cs| && Contributes(p, x, h, cs[i], a);
      assert Reads(p, cs[i]) <= ReadsAll(p, cs);
      ContributesMonotone(p, x, y, h, cs[i], a);
    case Call(s, ops) =>
      if SiteContributes(p, x, h, s, a) {
        var q :| Required(p, x, s, q) && a in Instances(s, q);
        RequiredMonotone(p, x, y, s, ops, q);
      } else {
        var i :| 0 <= i < |ops| && Contributes(p, x, h, ops[i], a);
        assert Reads(p, ops[i]) <= ReadsAll(p, ops);
        ContributesMonotone(p, x, y, h, ops[i], a);
      }
    case Panic(m) =>
      if a != PANIC { ContributesMonotone(p, x, y, h, m, a); }
    case Handle(z, v, n, root, _, c) =>
      if Contributes(p, x, h, z, a) {
        ContributesMonotone(p, x, y, h, z, a);
      } else if Contributes(p, x, h, v, a) {
        ContributesMonotone(p, x, y, h, v, a);
      } else {
        ContributesMonotone(p, x, y, h + [(n, root)], c, a);
      }
  }

  /** An equation that holds keeps holding while the rows it reads stay the same. */
  lemma {:induction false} RowClosedLocal(p: Program, x: Family, y: Family, f: nat)
    requires InRange(p) && |x| == |y| == |p.functions| && f < |x|
    requires RowClosed(p, x, f) && x[f] <= y[f]
    requires p.functions[f].body.Some? ==>
      forall g :: g in Reads(p, p.functions[f].body.value) && g < |x| ==> y[g] <= x[g]
    ensures RowClosed(p, y, f)
  {
    if Inferred(p.functions[f]) && p.functions[f].body.Some? {
      var b := p.functions[f].body.value;
      forall a | Contributes(p, y, [], b, a) ensures a in y[f] {
        ContributesMonotone(p, y, x, [], b, a);
      }
    }
  }
}
