/** What it means that effect checking ends without a diagnostic. */
module EffectAcceptance {
  import opened Options
  import opened EffectProgram
  import opened EffectRows
  import opened EffectSemantics

  ghost function RowOf(p: Program, r: Family, c: Context): set<Atom>
    requires |r| == |p.functions| && ContextInRange(p, c)
  {
    if c.InFunction? then r[c.definition] else DeclaredRow(p, c)
  }

  /** The effect parameter that a callable's own row mentions. */
  function TailOf(p: Program, c: Context): Option<nat>
    requires ContextInRange(p, c)
  {
    if c.InFunction? && p.functions[c.definition].polymorphic then Some(c.definition) else None
  }

  /** The row of the callable admits the atom; in a wrapper, Self admits its source. */
  ghost predicate Allowed(p: Program, r: Family, c: Context, a: Atom)
    requires |r| == |p.functions| && ContextInRange(p, c)
  {
    || a in RowOf(p, r, c)
    || (&& c.InMember? && p.members[c.member].source.Some?
        && a.authority == Parameter(p.members[c.member].source.value)
        && Atom(a.name, SelfAuthority) in RowOf(p, r, c))
  }

  // ------------------------------------------------ what earlier stages guarantee

  ghost predicate SignatureScoped(p: Program, c: Context, s: Signature)
    requires ContextInRange(p, c)
  {
    && (forall a :: a in s.effects ==> AuthorityFree(a))
    && (s.tail.Some? ==> TailOf(p, c) == s.tail)
  }

  ghost predicate SiteScoped(p: Program, c: Context, s: CallSite)
    requires ContextInRange(p, c)
  {
    match s
    case ToSignature(t) => SignatureScoped(p, c, t)
    case ToFunction(_, _, cbs) =>
      forall i :: 0 <= i < |cbs| && cbs[i].Callback? && cbs[i].actual.SignatureValue? ==>
        SignatureScoped(p, c, cbs[i].actual.signature)
    case _ => true
  }

  /** Structural function types have authority-free effects, and their open rows are those
      of the enclosing definition. */
  ghost predicate Scoped(p: Program, c: Context, b: Body)
    requires ContextInRange(p, c)
    decreases b
  {
    match b
    case Node(cs) => forall i :: 0 <= i < |cs| ==> Scoped(p, c, cs[i])
    case Call(s, ops) => SiteScoped(p, c, s) && forall i :: 0 <= i < |ops| ==> Scoped(p, c, ops[i])
    case Panic(m) => Scoped(p, c, m)
    case Handle(x, v, _, _, m, d) =>
      && Scoped(p, c, x) && Scoped(p, c, v) && Scoped(p, c, d)
      && m < |p.members| && p.members[m].row == []
  }

  /** The type checker's rule for using a value of one structural type at another. */
  ghost predicate Assignable(actual: Signature, expected: Signature) {
    && (expected.tail.None? ==> actual.tail.None? && EffectsWithin(actual.effects, expected.effects))
    && (actual.tail.Some? ==> actual.tail == expected.tail)
  }

  ghost predicate WellTyped(p: Program)
  {
    && InRange(p)
    && (forall c :: ContextInRange(p, c) && BodyOf(p, c).Some? ==> Scoped(p, c, BodyOf(p, c).value))
    && (forall i :: 0 <= i < |p.flows| && p.flows[i].source.SignatureValue? ==>
          Assignable(p.flows[i].source.signature, p.flows[i].target))
  }

  // ------------------------------------------------------------ what is diagnosed

  /** Coercion of a definition or operation to a structural type. As in the source, the
      subset test applies to closed types only. */
  ghost predicate FlowAccepted(p: Program, r: Family, x: Flow)
    requires |r| == |p.functions| && SourceInRange(p, x.source)
  {
    x.source.SignatureValue?
    || forall a :: a in SourceRow(p, r, x.source) ==> AuthorityFree(a) && (x.target.tail.None? ==> a in x.target.effects)
  }

  /** The effect argument of a polymorphic call is determined and authority-free. */
  ghost predicate CallbacksAccepted(p: Program, r: Family, s: CallSite)
    requires |r| == |p.functions| && SiteInRange(p, s)
  {
    s.ToFunction? && p.functions[s.target].polymorphic ==>
      && (exists i :: 0 <= i < |s.callbacks| && s.callbacks[i].Callback?)
      && forall i :: 0 <= i < |s.callbacks| && s.callbacks[i].Callback? ==>
           forall a :: a in SourceRow(p, r, s.callbacks[i].actual) ==> AuthorityFree(a)
  }

  ghost predicate CallsAccepted(p: Program, r: Family, b: Body)
    requires |r| == |p.functions| && BodyInRange(p, b)
  {
    match b
    case Node(cs) => forall i :: 0 <= i < |cs| ==> CallsAccepted(p, r, cs[i])
    case Call(s, ops) => CallbacksAccepted(p, r, s) && forall i :: 0 <= i < |ops| ==> CallsAccepted(p, r, ops[i])
    case Panic(m) => CallsAccepted(p, r, m)
    case Handle(x, v, _, _, _, d) => CallsAccepted(p, r, x) && CallsAccepted(p, r, v) && CallsAccepted(p, r, d)
  }

  /** Everything body b contributes is admitted by the row of callable c. */
  ghost predicate Admitted(p: Program, r: Family, c: Context, h: Handlers, b: Body)
    requires |r| == |p.functions| && ContextInRange(p, c) && BodyInRange(p, b)
  {
    forall a :: Contributes(p, r, h, b, a) ==> Allowed(p, r, c, a)
  }

  /** Inferred definitions are not validated against their own row. */
  ghost predicate Validated(p: Program, c: Context)
    requires ContextInRange(p, c)
  {
    c.InFunction? ==> p.functions[c.definition].clause.Some?
  }

  ghost predicate BodyAccepted(p: Program, r: Family, c: Context, b: Body)
    requires |r| == |p.functions| && ContextInRange(p, c) && BodyInRange(p, b)
  {
    && !BodyDiagnosed(p, r, [], b)
    && CallsAccepted(p, r, b)
    && (Validated(p, c) ==> Admitted(p, r, c, [], b))
  }

  predicate ClausesAccepted(p: Program) {
    forall f :: 0 <= f < |p.functions| && p.functions[f].callable && (p.functions[f].public || p.functions[f].polymorphic) ==>
      p.functions[f].clause.Some?
  }

  predicate TraitsAccepted(p: Program)
    requires InRange(p)
  {
    && (forall t, a :: 0 <= t < |p.traitMethods| && a in p.traitMethods[t].row ==> AuthorityFree(a))
    && (forall i :: i in p.implementations ==>
          && |p.traitMethods[i.0].row| == |p.traitMethods[i.1].row|
          && forall a :: a in p.traitMethods[i.0].row ==> a in p.traitMethods[i.1].row)
  }

  lemma {:induction false} ContextBodyInRange(p: Program, c: Context)
    requires InRange(p) && ContextInRange(p, c) && BodyOf(p, c).Some?
    ensures BodyInRange(p, BodyOf(p, c).value)
  {
    match c
    case InFunction(f) => assert OptionInRange(p, p.functions[f].body);
    case InMember(m) => assert OptionInRange(p, p.members[m].body);
    case InTraitMethod(t) => assert OptionInRange(p, p.traitMethods[t].body);
  }

  ghost predicate ContextAccepted(p: Program, r: Family, c: Context)
    requires InRange(p) && |r| == |p.functions| && ContextInRange(p, c)
  {
    BodyOf(p, c).Some? ==> (ContextBodyInRange(p, c); BodyAccepted(p, r, c, BodyOf(p, c).value))
  }

  /** Effect checking of p with the rows r reports nothing. */
  ghost predicate Accepted(p: Program, r: Family)
    requires InRange(p)
  {
    && |r| == |p.functions|
    && ClausesAccepted(p)
    && TraitsAccepted(p)
    && (forall i :: 0 <= i < |p.flows| ==> FlowAccepted(p, r, p.flows[i]))
    && (forall c :: ContextInRange(p, c) ==> ContextAccepted(p, r, c))
  }

  /** The effect is in the row of the definition that owns the effect parameter. */
  ghost predicate OwnerAdmits(r: Family, s: Signature, a: Atom) {
    s.tail.Some? && s.tail.value < |r| && a in r[s.tail.value]
  }

  /** The condition that the checker does not look at: a value used at an open function type
      performs no more than the fixed effects of that type and the row of the definition
      that owns its effect parameter. */
  ghost predicate OpenFlowsCovered(p: Program, r: Family)
    requires InRange(p) && |r| == |p.functions|
  {
    forall i, a :: 0 <= i < |p.flows| && p.flows[i].target.tail.Some? && a in SourceRow(p, r, p.flows[i].source) ==>
      a in p.flows[i].target.effects || OwnerAdmits(r, p.flows[i].target, a)
  }
}
