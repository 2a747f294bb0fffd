/** Rows say no more than they must: what inference puts into a row on a capability, some run
    performs, as long as calls do not pass one capability for two parameters. */
module EffectTightness {
  import opened Options
  import opened EffectProgram
  import opened EffectUniverse
  import opened EffectSemantics
  import opened EffectAcceptance
  import opened EffectSoundness

  /** Bodies belong to inferred definitions; everything else is the host's. */
  ghost predicate HostRows(p: Program) {
    && (forall f :: 0 <= f < |p.functions| && p.functions[f].body.Some? ==> Inferred(p.functions[f]))
    && (forall m :: 0 <= m < |p.members| ==> p.members[m].body.None? && p.members[m].source.None?)
    && (forall t :: 0 <= t < |p.traitMethods| ==> p.traitMethods[t].body.None?)
  }

  ghost function ParametersOf(p: Program): set<nat> {
    set y | y in Authorities(p) && y.Parameter? :: y.root
  }

  /** No call passes what may be the same capability for two parameters. */
  ghost predicate SiteApart(s: CallSite) {
    forall q, r, root :: q in SiteActuals(s) && r in SiteActuals(s) && q != r && root in OriginRoots(SiteActuals(s)[q]) ==>
      root !in OriginRoots(SiteActuals(s)[r])
  }

  ghost predicate BodyApart(b: Body) {
    match b
    case Node(cs) => forall i :: 0 <= i < |cs| ==> BodyApart(cs[i])
    case Call(s, ops) => SiteApart(s) && SiteNamed(s) && forall i :: 0 <= i < |ops| ==> BodyApart(ops[i])
    case Panic(m) => BodyApart(m)
    case Handle(x, v, _, _, _, c) => BodyApart(x) && BodyApart(v) && BodyApart(c)
  }

  /** Capability arguments and receivers are known. */
  ghost predicate SiteNamed(s: CallSite) {
    && (forall q :: q in SiteActuals(s) && SiteActuals(s)[q].Roots? ==> SiteActuals(s)[q].roots != [])
    && (s.ToMember? ==> s.receiver != [])
  }

  ghost predicate CallsApart(p: Program) {
    forall f :: 0 <= f < |p.functions| && p.functions[f].body.Some? ==> BodyApart(p.functions[f].body.value)
  }

  /** Every parameter holds a token of its own. */
  ghost predicate Ample(p: Program, fr: Frame) {
    && fr.callbacks == [] && ParametersOf(p) <= fr.parameters.Keys
    && forall q, r :: q in fr.parameters && r in fr.parameters && q != r ==> fr.parameters[q] != fr.parameters[r]
  }

  function HeldEvent(name: string, token: int): Event { Event(name, Held(token)) }

  // ------------------------------------------------------------------- the callee's frame

  lemma {:induction false} Largest(held: set<int>) returns (n: int)
    ensures forall t :: t in held ==> t <= n
    decreases |held|
  {
    n := 0;
    if t :| t in held {
      n := Largest(held - {t});
      n := if t > n then t else n;
      assert forall x :: x in held ==> x == t || x in held - {t};
    }
  }

  /** The root that a parameter gets its token from: the wanted one for the wanted parameter. */
  ghost function Picked(x: Actuals, q: nat, wanted: nat, root: nat): nat
    requires q in x && x[q].Roots? && x[q].roots != []
  {
    if q == wanted then root else x[q].roots[0]
  }

  ghost predicate Passes(x: Actuals, q: nat) { q in x && x[q].Roots? && x[q].roots != [] }

  /** A token for every parameter: that of its root, or one that the caller does not hold. */
  ghost function TokenFor(x: Actuals, fr: Frame, base: int, wanted: nat, root: nat, q: nat): int {
    if Passes(x, q) && Picked(x, q, wanted, root) in fr.parameters then fr.parameters[Picked(x, q, wanted, root)] else base + q
  }

  lemma {:induction false} PickedRoot(s: CallSite, fr: Frame, wanted: nat, root: nat, q: nat)
    requires SiteNamed(s) && SiteRootSet(s) <= fr.parameters.Keys && q in SiteActuals(s) && SiteActuals(s)[q].Roots?
    requires wanted in SiteActuals(s) && SiteActuals(s)[wanted].Roots? && root in SiteActuals(s)[wanted].roots
    ensures Passes(SiteActuals(s), q)
    ensures var picked := Picked(SiteActuals(s), q, wanted, root); picked in OriginRoots(SiteActuals(s)[q]) && picked in fr.parameters
  {
    var x := SiteActuals(s);
    assert x[q].roots != [];
    assert Picked(x, q, wanted, root) in OriginRoots(x[q]);
    assert Picked(x, q, wanted, root) in SiteRootSet(s);
  }

  lemma {:induction false} TokensDiffer(s: CallSite, fr: Frame, base: int, wanted: nat, root: nat, q: nat, r: nat)
    requires SiteApart(s) && SiteNamed(s) && SiteRootSet(s) <= fr.parameters.Keys && q != r
    requires wanted in SiteActuals(s) && SiteActuals(s)[wanted].Roots? && root in SiteActuals(s)[wanted].roots
    requires forall y, z :: y in fr.parameters && z in fr.parameters && y != z ==> fr.parameters[y] != fr.parameters[z]
    requires forall t :: t in fr.parameters.Values ==> t < base
    ensures TokenFor(SiteActuals(s), fr, base, wanted, root, q) != TokenFor(SiteActuals(s), fr, base, wanted, root, r)
  {
    hide SiteNamed, SiteRootSet;
    var x := SiteActuals(s);
    if Passes(x, q) {
      PickedRoot(s, fr, wanted, root, q);
      assert fr.parameters[Picked(x, q, wanted, root)] in fr.parameters.Values;
    }
    if Passes(x, r) {
      PickedRoot(s, fr, wanted, root, r);
      assert fr.parameters[Picked(x, r, wanted, root)] in fr.parameters.Values;
    }
    if Passes(x, q) && Passes(x, r) {
      assert Picked(x, q, wanted, root) in OriginRoots(x[q]) && Picked(x, q, wanted, root) !in OriginRoots(x[r]);
    }
  }

  /** A frame for the callee in which every parameter has its own token, and the wanted one the
      token of the given root. */
  lemma {:induction false} CalleeFrame(p: Program, fr: Frame, s: CallSite, wanted: nat, root: nat) returns (callee: Frame)
    requires Ample(p, fr) && SiteApart(s) && SiteNamed(s) && SiteRootSet(s) <= ParametersOf(p)
    requires wanted in SiteActuals(s) && SiteActuals(s)[wanted].Roots? && root in SiteActuals(s)[wanted].roots && wanted in ParametersOf(p)
    ensures Ample(p, callee) && ActualsBound(SiteActuals(s), fr, callee)
    ensures wanted in callee.parameters && root in fr.parameters && callee.parameters[wanted] == fr.parameters[root]
  {
    hide ParametersOf, SiteRootSet, SiteApart, SiteNamed, SiteActuals;
    var x := SiteActuals(s);
    var highest := Largest(fr.parameters.Values);
    var base := highest + 1;
    callee := Frame(map q: nat | q in ParametersOf(p) :: TokenFor(x, fr, base, wanted, root, q), 0, []);
    PickedRoot(s, fr, wanted, root, wanted);
    forall q, r | q in callee.parameters && r in callee.parameters && q != r ensures callee.parameters[q] != callee.parameters[r] {
      TokensDiffer(s, fr, base, wanted, root, q, r);
    }
    forall q | q in x && x[q].Roots? && q in callee.parameters
      ensures exists y :: y in x[q].roots && y in fr.parameters && callee.parameters[q] == fr.parameters[y]
    {
      PickedRoot(s, fr, wanted, root, q);
      assert Picked(x, q, wanted, root) in x[q].roots;
    }
  }

  // ----------------------------------------------------------------- contributions are runs

  lemma {:induction false} ContributionUnhandled(p: Program, r: Family, h: Handlers, b: Body, a: Atom)
    requires |r| == |p.functions| && BodyInRange(p, b) && a.authority.Parameter? && Contributes(p, r, h, b, a)
    ensures !IsHandled(h, a)
    decreases b
  {
    match b
    case Node(cs) =>
      var i :| 0 <= i < |cs| && Contributes(p, r, h, cs[i], a);
      ContributionUnhandled(p, r, h, cs[i], a);
    case Call(s, ops) =>
      if !SiteContributes(p, r, h, s, a) {
        var i :| 0 <= i < |ops| && Contributes(p, r, h, ops[i], a);
        ContributionUnhandled(p, r, h, ops[i], a);
      }
    case Panic(m) => ContributionUnhandled(p, r, h, m, a);
    case Handle(x, v, n, root, _, c) =>
      if Contributes(p, r, h, x, a) { ContributionUnhandled(p, r, h, x, a); }
      else if Contributes(p, r, h, v, a) { ContributionUnhandled(p, r, h, v, a); }
      else {
        ContributionUnhandled(p, r, h + [(n, root)], c, a);
        assert forall y :: y in h ==> y in h + [(n, root)];
      }
  }

  /** The callee of a site that contributes the atom performs it on the token of its root. */
  lemma {:induction false} SiteRuns(p: Program, k: nat, fr: Frame, h: Handlers, s: CallSite, a: Atom) returns (d: Context, callee: Frame, run: Run)
    requires InRange(p) && HostRows(p) && CallsApart(p) && Ample(p, fr)
    requires SiteInRange(p, s) && SiteApart(s) && SiteNamed(s) && SiteRootSet(s) <= ParametersOf(p)
    requires a.authority.Parameter? && SiteContributes(p, Naive(p, k), h, s, a)
    ensures a.authority.root in fr.parameters && Dispatches(p, fr, s, d, callee) && ContextInRange(p, d)
    ensures Runs(p, d, callee, run) && HeldEvent(a.name, fr.parameters[a.authority.root]) in Events(p, d, callee, run)
    decreases 2 * k + 1, 0
  {
    var q :| Required(p, Naive(p, k), s, q) && a in Instances(s, q);
    var root := a.authority.root;
    InstanceRoot(s, q, a);
    var e := HeldEvent(a.name, fr.parameters[root]);
    match s
    case ToFunction(g, x, cbs) =>
      RequiredInRow(p, k, s, q);
      callee := CalleeFrame(p, fr, s, q.authority.root, root);
      run := FunctionRuns(p, k, callee, g, q);
      d := InFunction(g);
    case ToMember(m, receiver, x) =>
      d := InMember(m);
      if q.authority.SelfAuthority? {
        callee := Frame(map[], fr.parameters[root], []);
      } else {
        callee := Frame(map[q.authority.root := fr.parameters[root]], fr.parameters[receiver[0]], []);
        assert receiver[0] in SiteRootSet(s);
      }
      run := HostRun(p, d, callee, q, e);
    case ToTraitMethod(t, x) =>
      d := InTraitMethod(t);
      callee := Frame(map[q.authority.root := fr.parameters[root]], 0, []);
      run := HostRun(p, d, callee, q, e);
  }

  /** What an instance on a parameter comes from. */
  lemma {:induction false} InstanceRoot(s: CallSite, q: Atom, a: Atom)
    requires a.authority.Parameter? && a in Instances(s, q)
    ensures a.name == q.name && !AuthorityFree(q) && a.authority.root in SiteRootSet(s)
    ensures q.authority.SelfAuthority? ==> s.ToMember? && a.authority.root in s.receiver
    ensures q.authority.Parameter? ==>
      q.authority.root in SiteActuals(s) && SiteActuals(s)[q.authority.root].Roots? && a.authority.root in SiteActuals(s)[q.authority.root].roots
  {
    if !AuthorityFree(q) {
      var roots := SiteRoots(s, q.authority).value;
      var i :| 0 <= i < |roots| && a == Atom(q.name, Parameter(roots[i]));
      if q.authority.Parameter? { assert roots[i] in OriginRoots(SiteActuals(s)[q.authority.root]); }
    }
  }

  lemma {:induction false} RequiredInRow(p: Program, k: nat, s: CallSite, q: Atom)
    requires InRange(p) && SiteInRange(p, s) && s.ToFunction? && Required(p, Naive(p, k), s, q) && !AuthorityFree(q)
    ensures q in Naive(p, k)[s.target]
    ensures q.authority.Parameter? ==> q.authority.root in ParametersOf(p)
  {
    hide InRange, Universe, Naive;
    TopIsClosed(p);
    NaiveBelow(p, Top(p), k);
    InUniverse(p, q);
  }

  lemma {:induction false} InUniverse(p: Program, q: Atom)
    ensures q in Universe(p) && q.authority.Parameter? ==> q.authority.root in ParametersOf(p)
  {
  }

  lemma {:induction false} HostRun(p: Program, d: Context, callee: Frame, q: Atom, e: Event) returns (run: Run)
    requires ContextInRange(p, d) && BodyOf(p, d).None? && q in DeclaredRow(p, d) && Denotes(callee, q, e)
    ensures Runs(p, d, callee, run) && e in Events(p, d, callee, run)
  {
    run := Hosting(e);
  }

  /** What is known of every part of a body. */
  ghost predicate PartFit(p: Program, b: Body) {
    BodyInRange(p, b) && BodyApart(b) && BodyRoots(b) <= ParametersOf(p)
  }

  lemma {:induction false} ChildFit(p: Program, b: Body, i: nat)
    requires PartFit(p, b) && i < |Children(b)|
    ensures PartFit(p, Children(b)[i])
  {
    hide ParametersOf;
    assert BodyRoots(Children(b)[i]) <= BodyRoots(b);
  }

  lemma {:induction false} InsideFit(p: Program, b: Body)
    requires PartFit(p, b)
    ensures b.Handle? ==> PartFit(p, b.body)
    ensures b.Call? ==> SiteInRange(p, b.site) && SiteApart(b.site) && SiteNamed(b.site) && SiteRootSet(b.site) <= ParametersOf(p)
  {
    hide ParametersOf, SiteRootSet;
  }

  /** Where a contribution comes from: the call itself, a child, or the body of the handler. */
  lemma {:induction false} ContributesFrom(p: Program, r: Family, h: Handlers, b: Body, a: Atom) returns (i: int)
    requires |r| == |p.functions| && PartFit(p, b) && a.authority.Parameter? && Contributes(p, r, h, b, a)
    ensures -2 <= i < |Children(b)|
    ensures i == -2 ==> b.Call? && SiteContributes(p, r, h, b.site, a)
    ensures i == -1 ==> b.Handle? && PartFit(p, b.body) && Contributes(p, r, h + [(b.effectName, b.root)], b.body, a)
    ensures i >= 0 ==> PartFit(p, Children(b)[i]) && Contributes(p, r, h, Children(b)[i], a)
  {
    hide PartFit, SiteContributes;
    InsideFit(p, b);
    PartInRange(p, b);
    match b {
      case Node(cs) => i :| 0 <= i < |cs| && Contributes(p, r, h, cs[i], a);
      case Call(s, ops) =>
        i := -2;
        if !SiteContributes(p, r, h, s, a) { i :| 0 <= i < |ops| && Contributes(p, r, h, ops[i], a); }
      case Panic(m) => i := 0;
      case Handle(x, v, _, _, _, _) => i := if Contributes(p, r, h, x, a) then 0 else if Contributes(p, r, h, v, a) then 1 else -1;
    }
    if i >= 0 { ChildFit(p, b, i); }
  }

  lemma {:induction false} PartInRange(p: Program, b: Body)
    requires PartFit(p, b)
    ensures BodyInRange(p, b)
  {
  }

  /** What a body contributes on a parameter, some execution of it performs. */
  lemma {:induction false} ContributionRuns(p: Program, k: nat, fr: Frame, h: Handlers, b: Body, a: Atom) returns (run: Run)
    requires InRange(p) && HostRows(p) && CallsApart(p) && Ample(p, fr) && PartFit(p, b)
    requires BodyInRange(p, b) && a.authority.Parameter? && Contributes(p, Naive(p, k), h, b, a)
    ensures a.authority.root in fr.parameters && Executes(p, fr, b, run)
    ensures HeldEvent(a.name, fr.parameters[a.authority.root]) in Trace(p, fr, b, run)
    decreases 2 * k + 1, 1, b
  {
    hide InRange, HostRows, CallsApart, Naive, Dispatches, PartFit, Contributes, SiteContributes, BodyInRange, ParametersOf, Intercept;
    var i := ContributesFrom(p, Naive(p, k), h, b, a);
    if i == -2 {
      InsideFit(p, b);
      var d, callee, inner := SiteRuns(p, k, fr, h, b.site, a);
      run := Calling(d, callee, inner);
    } else if i == -1 {
      PartInRange(p, b.body);
      ContributionUnhandled(p, Naive(p, k), h + [(b.effectName, b.root)], b.body, a);
      var inner := ContributionRuns(p, k, fr, h + [(b.effectName, b.root)], b.body, a);
      Unmasked(fr, h, b.effectName, b.root, a);
      NotIntercepted(fr, b.effectName, b.root, Trace(p, fr, b.body, inner), HeldEvent(a.name, fr.parameters[a.authority.root]));
      run := Handling(inner);
    } else {
      PartInRange(p, Children(b)[i]);
      var inner := ContributionRuns(p, k, fr, h, Children(b)[i], a);
      run := At(i, inner);
    }
  }

  lemma {:induction false} Unmasked(fr: Frame, h: Handlers, n: string, root: nat, a: Atom)
    requires a.authority.Parameter? && a.authority.root in fr.parameters && !IsHandled(h + [(n, root)], a)
    requires forall q, r :: q in fr.parameters && r in fr.parameters && q != r ==> fr.parameters[q] != fr.parameters[r]
    ensures root in fr.parameters ==> HeldEvent(a.name, fr.parameters[a.authority.root]) != HeldEvent(n, fr.parameters[root])
  {
    assert (h + [(n, root)])[|h|] == (n, root);
  }

  lemma {:induction false} NotIntercepted(fr: Frame, n: string, root: nat, trace: seq<Event>, e: Event)
    requires e in trace && (root in fr.parameters ==> e != HeldEvent(n, fr.parameters[root]))
    ensures e in Intercept(fr, n, root, trace)
  {
  }

  /** What a round of naive iteration puts into a row on a parameter, some run performs. */
  lemma {:induction false} FunctionRuns(p: Program, k: nat, fr: Frame, f: nat, a: Atom) returns (run: Run)
    requires InRange(p) && HostRows(p) && CallsApart(p) && Ample(p, fr)
    requires f < |p.functions| && a.authority.Parameter? && a.authority.root in fr.parameters && a in Naive(p, k)[f]
    ensures Runs(p, InFunction(f), fr, run) && HeldEvent(a.name, fr.parameters[a.authority.root]) in Events(p, InFunction(f), fr, run)
    decreases 2 * k, 0
  {
    hide InRange, HostRows, CallsApart, Naive, Universe, Contributed, Contributes, Ample;
    if !(k > 0 && a in Naive(p, k - 1)[f]) { RoundAdds(p, k, f, a); }
    if k > 0 && a in Naive(p, k - 1)[f] {
      run := FunctionRuns(p, k - 1, fr, f, a);
    } else if p.functions[f].body.None? {
      run := HostRun(p, InFunction(f), fr, a, HeldEvent(a.name, fr.parameters[a.authority.root]));
    } else {
      RootsListed(p, f);
      run := ContributionRuns(p, k - 1, fr, [], p.functions[f].body.value, a);
    }
  }

  /** Where an atom of a round comes from. */
  lemma {:induction false} RoundAdds(p: Program, k: nat, f: nat, a: Atom)
    requires InRange(p) && HostRows(p) && f < |p.functions| && a in Naive(p, k)[f] && !(k > 0 && a in Naive(p, k - 1)[f])
    ensures p.functions[f].body.None? ==> a in InitialRow(p.functions[f])
    ensures p.functions[f].body.Some? ==> k > 0 && BodyInRange(p, p.functions[f].body.value) && Contributes(p, Naive(p, k - 1), [], p.functions[f].body.value, a)
  {
    hide Universe, Contributes;
    if p.functions[f].body.Some? { assert OptionInRange(p, p.functions[f].body); }
  }

  lemma {:induction false} RootsListed(p: Program, f: nat)
    requires InRange(p) && CallsApart(p) && f < |p.functions| && p.functions[f].body.Some?
    ensures PartFit(p, p.functions[f].body.value)
  {
    assert OptionInRange(p, p.functions[f].body);
    hide InRange, Written;
    forall x | x in BodyRoots(p.functions[f].body.value) ensures x in ParametersOf(p) {
      assert x in EffectUniverse.Roots(p);
      assert Parameter(x) in Authorities(p);
    }
  }

  /** Rows are tight: whatever the least solution has on a parameter, some run performs on its
      token, in every activation whose parameters hold different tokens. */
  lemma {:induction false} RowsTight(p: Program, r: Family, fr: Frame, f: nat, a: Atom) returns (run: Run)
    requires InRange(p) && HostRows(p) && CallsApart(p) && IsLeast(p, r) && Ample(p, fr)
    requires f < |p.functions| && a.authority.Parameter? && a in r[f]
    ensures a.authority.root in fr.parameters
    ensures Runs(p, InFunction(f), fr, run) && HeldEvent(a.name, fr.parameters[a.authority.root]) in Events(p, InFunction(f), fr, run)
  {
    hide InRange, HostRows, CallsApart, Universe, Naive;
    NaiveReachesLeast(p, r);
    var k := |p.functions| * |Universe(p)|;
    TopIsClosed(p);
    NaiveBelow(p, Top(p), k);
    InUniverse(p, a);
    run := FunctionRuns(p, k, fr, f, a);
  }

  // --------------------------------------------------------- what is rejected, and why

  /** The row of a callable admits an atom if and only if it covers what the atom stands for in
      every activation; in a wrapper Self and the private source are the same. */
  lemma {:induction false} AllowedMeans(p: Program, r: Family, c: Context, a: Atom)
    requires |r| == |p.functions| && ContextInRange(p, c)
    ensures Allowed(p, r, c, a) <==> forall fr, e :: SourceIsSelf(p, c, fr) && Denotes(fr, a, e) ==> Covered(RowOf(p, r, c), fr, e)
  {
    hide RowOf;
    if Allowed(p, r, c, a) {
      forall fr, e | SourceIsSelf(p, c, fr) && Denotes(fr, a, e) ensures Covered(RowOf(p, r, c), fr, e) {
        assert a !in RowOf(p, r, c) ==> Denotes(fr, Atom(a.name, SelfAuthority), e);
      }
    } else {
      var fr, e := Witness(p, c, a);
      assert SourceIsSelf(p, c, fr) && Denotes(fr, a, e) && !Covered(RowOf(p, r, c), fr, e);
    }
  }

  /** An activation in which nothing else stands for the event of the atom. */
  lemma {:induction false} Witness(p: Program, c: Context, a: Atom) returns (fr: Frame, e: Event)
    requires ContextInRange(p, c)
    ensures SourceIsSelf(p, c, fr) && Denotes(fr, a, e)
    ensures forall b :: Denotes(fr, b, e) ==>
      b == a || (c.InMember? && p.members[c.member].source.Some? && a.authority == Parameter(p.members[c.member].source.value) && b == Atom(a.name, SelfAuthority))
  {
    match a.authority
    case NoArgument => fr, e := Frame(map[], 0, []), Event(a.name, Unowned);
    case StaticPath(s) => fr, e := Frame(map[], 0, []), Event(a.name, Static(s));
    case SelfAuthority => fr, e := Frame(map[], 0, []), Event(a.name, Held(0));
    case Parameter(q) =>
      var wrapper := c.InMember? && p.members[c.member].source == Some(q);
      fr, e := Frame(map[q := 1], if wrapper then 1 else 0, []), Event(a.name, Held(1));
  }

  /** A call whose callee has an authority that the checker cannot trace is rejected for a reason:
      the callee may perform an event that no row of the caller covers. */
  lemma {:induction false} UntracedUncovered(p: Program, fr: Frame, s: CallSite, a: Atom) returns (callee: Frame, e: Event)
    requires SiteInRange(p, s) && s.ToFunction? && SiteRoots(s, a.authority).None?
    ensures Dispatches(p, fr, s, InFunction(s.target), callee) && Denotes(callee, a, e)
    ensures forall row :: !Covered(row, fr, e)
  {
    var highest := Largest(fr.parameters.Values + {fr.self});
    var token := highest + 1;
    e := HeldEvent(a.name, token);
    callee := if a.authority.Parameter? then Frame(map[a.authority.root := token], 0, []) else Frame(map[], token, []);
    assert forall q :: q in fr.parameters ==> fr.parameters[q] in fr.parameters.Values;
  }
}
