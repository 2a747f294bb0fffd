/** The resolver: one stack of bindings with undo marks for all scopes, and a table of
    locals. It computes what the environment-passing resolver computes. */
module Resolver {
  import opened Options
  import opened Reachability
  import opened LexicalScope

  datatype LocalEntry = LocalEntry(owner: nat, site: Site)

  datatype Binding = Binding(name: string, index: nat, depth: nat)

  /** How many declarations of each kind the file has, and the definition of each. */
  datatype Arena = Arena(parameters: nat, statements: nat, patterns: nat, ownerOf: Site -> nat)

  function Capacity(a: Arena): nat { a.parameters + a.statements + a.patterns }

  predicate SiteFits(a: Arena, s: Site) {
    match s.kind
    case Parameter => s.id < a.parameters
    case Variable => s.id < a.statements
    case Pattern => s.id < a.patterns
  }

  /** Every site belongs to the definition and lies in the arenas. */
  ghost predicate SitesFit(a: Arena, owner: nat, sites: seq<Site>) {
    forall i :: 0 <= i < |sites| ==> SiteFits(a, sites[i]) && a.ownerOf(sites[i]) == owner
  }

  // ----------------------------------------------------------------- pigeonhole

  function Number(a: Arena, s: Site): nat {
    match s.kind
    case Parameter => s.id
    case Variable => a.parameters + s.id
    case Pattern => a.parameters + a.statements + s.id
  }

  /** Distinct declarations of a file never exceed the capacity of its tables. */
  lemma {:induction false} DistinctSitesFit(a: Arena, sites: seq<Site>)
    requires Distinct(sites) && forall i :: 0 <= i < |sites| ==> SiteFits(a, sites[i])
    ensures |sites| <= Capacity(a)
  {
    var numbers := seq(|sites|, i requires 0 <= i < |sites| => Number(a, sites[i]));
    forall i, j | 0 <= i < j < |numbers| ensures numbers[i] != numbers[j] {
      assert SiteFits(a, sites[i]) && SiteFits(a, sites[j]) && sites[i] != sites[j];
    }
    forall x | x in numbers ensures x < Capacity(a) {
      var i :| 0 <= i < |numbers| && numbers[i] == x;
      assert SiteFits(a, sites[i]);
    }
    DistinctBelow(numbers, Capacity(a));
  }

  // ---------------------------------------------------------- the stack as a scope

  ghost function LocalSites(locals: seq<LocalEntry>): seq<Site> {
    seq(|locals|, i requires 0 <= i < |locals| => locals[i].site)
  }

  ghost predicate BindingsFit(locals: seq<LocalEntry>, bs: seq<Binding>) {
    forall i :: 0 <= i < |bs| ==> bs[i].index < |locals|
  }

  ghost function StackSites(locals: seq<LocalEntry>, bs: seq<Binding>): seq<Site>
    requires BindingsFit(locals, bs)
  {
    seq(|bs|, i requires 0 <= i < |bs| => locals[bs[i].index].site)
  }

  /** The environment of a stack: later bindings shadow earlier ones. */
  ghost function EnvOf(locals: seq<LocalEntry>, bs: seq<Binding>): Env
    requires BindingsFit(locals, bs)
  {
    if bs == [] then map[]
    else EnvOf(locals, bs[..|bs| - 1])[bs[|bs| - 1].name := locals[bs[|bs| - 1].index].site]
  }

  ghost function OwnOf(bs: seq<Binding>, depth: nat): set<string> {
    set i | 0 <= i < |bs| && bs[i].depth == depth :: bs[i].name
  }

  ghost function ScopeOf(locals: seq<LocalEntry>, bs: seq<Binding>, depth: nat): Scope
    requires BindingsFit(locals, bs)
  {
    Scope(EnvOf(locals, bs), OwnOf(bs, depth))
  }

  ghost predicate DepthsAscend(bs: seq<Binding>, depth: nat) {
    && (forall i, j :: 0 <= i < j < |bs| ==> bs[i].depth <= bs[j].depth)
    && (forall i :: 0 <= i < |bs| ==> bs[i].depth <= depth)
  }

  ghost function Abstract(locals: seq<LocalEntry>, r: Resolution<nat>): Resolution<Site> {
    match r
    case Local(i) => if i < |locals| then Local(locals[i].site) else Unresolved
    case Definition(d) => Definition(d)
    case Builtin(n) => Builtin(n)
    case RefinementSelf(d) => RefinementSelf(d)
    case NotApplicable => NotApplicable
    case Unresolved => Unresolved
  }

  ghost function View(locals: seq<LocalEntry>, rs: map<nat, Resolution<nat>>): map<nat, Resolution<Site>> {
    map id | id in rs :: Abstract(locals, rs[id])
  }

  ghost predicate ResolutionsFit(locals: seq<LocalEntry>, rs: map<nat, Resolution<nat>>) {
    forall id :: id in rs && rs[id].Local? ==> rs[id].local < |locals|
  }

  // ------------------------------------------------------------------- small steps

  lemma {:induction false} EnvGrows(x: seq<LocalEntry>, y: seq<LocalEntry>, bs: seq<Binding>)
    requires x <= y && BindingsFit(x, bs)
    ensures BindingsFit(y, bs) && EnvOf(y, bs) == EnvOf(x, bs) && StackSites(y, bs) == StackSites(x, bs)
  {
    if bs != [] {
      EnvGrows(x, y, bs[..|bs| - 1]);
      assert y[bs[|bs| - 1].index] == x[bs[|bs| - 1].index];
    }
  }

  lemma {:induction false} ViewGrows(x: seq<LocalEntry>, y: seq<LocalEntry>, rs: map<nat, Resolution<nat>>)
    requires x <= y && ResolutionsFit(x, rs)
    ensures View(y, rs) == View(x, rs) && ResolutionsFit(y, rs)
  {
  }

  lemma {:induction false} PushedBinding(locals: seq<LocalEntry>, bs: seq<Binding>, b: Binding)
    requires BindingsFit(locals, bs) && b.index < |locals|
    ensures BindingsFit(locals, bs + [b])
    ensures ScopeOf(locals, bs + [b], b.depth) == Bind(ScopeOf(locals, bs, b.depth), b.name, locals[b.index].site)
    ensures StackSites(locals, bs + [b]) == StackSites(locals, bs) + [locals[b.index].site]
  {
    var after := bs + [b];
    assert after[..|bs|] == bs;
    assert OwnOf(after, b.depth) == OwnOf(bs, b.depth) + {b.name} by {
      forall i | 0 <= i < |bs| && bs[i].depth == b.depth ensures bs[i].name in OwnOf(after, b.depth) { assert after[i] == bs[i]; }
      assert after[|bs|] == b;
    }
  }

  /** The state of the resolver, as values. */
  ghost predicate Sound(a: Arena, owner: nat, locals: seq<LocalEntry>, bs: seq<Binding>, depth: nat, rs: map<nat, Resolution<nat>>)
    ensures Sound(a, owner, locals, bs, depth, rs) ==> BindingsFit(locals, bs)
  {
    && Distinct(LocalSites(locals))
    && (forall i :: 0 <= i < |locals| ==> SiteFits(a, locals[i].site) && locals[i].owner == a.ownerOf(locals[i].site))
    && BindingsFit(locals, bs) && Distinct(StackSites(locals, bs)) && DepthsAscend(bs, depth)
    && ResolutionsFit(locals, rs)
  }

  lemma {:induction false} Recorded(a: Arena, owner: nat, locals: seq<LocalEntry>, bs: seq<Binding>, depth: nat, rs: map<nat, Resolution<nat>>, id: nat, r: Resolution<nat>)
    requires Sound(a, owner, locals, bs, depth, rs) && (r.Local? ==> r.local < |locals|)
    ensures Sound(a, owner, locals, bs, depth, rs[id := r])
    ensures View(locals, rs[id := r]) == View(locals, rs) + map[id := Abstract(locals, r)]
  {
    hide EnvOf, StackSites, DepthsAscend, Distinct, LocalSites, SiteFits, BindingsFit, Abstract;
  }

  /** The declarations below are not on the stack, and fit the arenas. */
  ghost predicate Admitted(a: Arena, owner: nat, stack: seq<Site>, sites: seq<Site>) {
    && SitesFit(a, owner, sites) && Distinct(sites)
    && forall i :: 0 <= i < |sites| ==> sites[i] !in stack
  }

  datatype Snapshot = Snapshot(locals: seq<LocalEntry>, bindings: seq<Binding>, depth: nat, loops: nat,
                               resolutions: map<nat, Resolution<nat>>, problems: seq<Problem>)

  /** Between two states the outcome was recorded, and the stack is as before. */
  ghost predicate After(x: Snapshot, y: Snapshot, o: Outcome) {
    && x.locals <= y.locals && y.bindings == x.bindings && y.depth == x.depth && y.loops == x.loops
    && View(y.locals, y.resolutions) == View(x.locals, x.resolutions) + o.resolutions
    && y.problems == x.problems + o.problems
  }

  /** The same, but declarations among the given sites were added to the innermost scope. */
  ghost predicate Filled(x: Snapshot, y: Snapshot, s: Scope, o: Outcome, sites: seq<Site>) {
    && BindingsFit(x.locals, x.bindings) && BindingsFit(y.locals, y.bindings)
    && x.locals <= y.locals && x.bindings <= y.bindings && y.depth == x.depth && y.loops == x.loops
    && View(y.locals, y.resolutions) == View(x.locals, x.resolutions) + o.resolutions
    && y.problems == x.problems + o.problems
    && ScopeOf(y.locals, y.bindings, y.depth) == s
    && GrownWithin(StackSites(x.locals, x.bindings), StackSites(y.locals, y.bindings), sites)
  }

  ghost predicate GrownWithin(stack: seq<Site>, grown: seq<Site>, sites: seq<Site>) {
    forall t :: t in grown ==> t in stack || t in sites
  }

  // ---------------------------------------------------------- composing the steps

  lemma {:induction false} AfterNothing(x: Snapshot)
    ensures After(x, x, NOTHING)
  {
  }

  lemma {:induction false} MapsAssociate(x: map<nat, Resolution<Site>>, y: map<nat, Resolution<Site>>, z: map<nat, Resolution<Site>>)
    ensures (x + y) + z == x + (y + z)
  {
  }

  lemma {:induction false} SeqsAssociate(x: seq<Problem>, y: seq<Problem>, z: seq<Problem>)
    ensures (x + y) + z == x + (y + z)
  {
  }

  lemma {:induction false} AfterPlus(x: Snapshot, y: Snapshot, z: Snapshot, a: Outcome, b: Outcome)
    requires After(x, y, a) && After(y, z, b)
    ensures After(x, z, Plus(a, b))
  {
    hide View;
  }

  lemma {:induction false} AfterKeeps(x: Snapshot, y: Snapshot, o: Outcome)
    requires After(x, y, o) && BindingsFit(x.locals, x.bindings)
    ensures BindingsFit(y.locals, y.bindings) && y.bindings == x.bindings && y.depth == x.depth && y.loops == x.loops
    ensures EnvOf(y.locals, y.bindings) == EnvOf(x.locals, x.bindings)
    ensures StackSites(y.locals, y.bindings) == StackSites(x.locals, x.bindings)
  {
    EnvGrows(x.locals, y.locals, x.bindings);
  }

  lemma {:induction false} FilledNothing(x: Snapshot)
    requires BindingsFit(x.locals, x.bindings)
    ensures Filled(x, x, ScopeOf(x.locals, x.bindings, x.depth), NOTHING, [])
  {
  }

  lemma {:induction false} FilledAfter(x: Snapshot, y: Snapshot, z: Snapshot, s: Scope, a: Outcome, b: Outcome, sites: seq<Site>)
    requires Filled(x, y, s, a, sites) && After(y, z, b)
    ensures Filled(x, z, s, Plus(a, b), sites)
  {
    AfterKeeps(y, z, b);
    MapsAssociate(View(x.locals, x.resolutions), a.resolutions, b.resolutions);
    SeqsAssociate(x.problems, a.problems, b.problems);
    hide View, EnvOf, OwnOf;
  }

  lemma {:induction false} FilledMore(x: Snapshot, y: Snapshot, s: Scope, o: Outcome, sites: seq<Site>, more: seq<Site>)
    requires Filled(x, y, s, o, sites) && forall t :: t in sites ==> t in more
    ensures Filled(x, y, s, o, more)
  {
    hide View, ScopeOf;
  }

  /** Between two states exactly these names were bound, in this order. */
  ghost predicate BoundBy(x: Snapshot, y: Snapshot, bs: seq<Binder>) {
    && BindingsFit(x.locals, x.bindings) && BindingsFit(y.locals, y.bindings)
    && x.locals <= y.locals && x.bindings <= y.bindings && y.depth == x.depth && y.loops == x.loops
    && View(y.locals, y.resolutions) == View(x.locals, x.resolutions)
    && y.problems == x.problems + BindAllProblems(ScopeOf(x.locals, x.bindings, x.depth), bs)
    && ScopeOf(y.locals, y.bindings, y.depth) == BindAll(ScopeOf(x.locals, x.bindings, x.depth), bs)
    && StackSites(y.locals, y.bindings) == StackSites(x.locals, x.bindings) + BinderSites(bs)
  }

  lemma {:induction false} OneBinder(s: Scope, b: Binder)
    ensures BindAll(s, [b]) == Bind(s, b.name, b.site) && BindAllProblems(s, [b]) == BindProblems(s, b.name)
    ensures BinderSites([b]) == [b.site]
  {
    assert [b][..0] == [] && BindAll(s, []) == s && BindAllProblems(s, []) == [];
  }

  lemma {:induction false} BoundNothing(x: Snapshot)
    requires BindingsFit(x.locals, x.bindings)
    ensures BoundBy(x, x, [])
  {
  }

  lemma {:induction false} BinderSitesJoin(a: seq<Binder>, b: seq<Binder>)
    ensures BinderSites(a + b) == BinderSites(a) + BinderSites(b)
  {
  }

  lemma {:induction false} BoundJoin(x: Snapshot, y: Snapshot, z: Snapshot, a: seq<Binder>, b: seq<Binder>)
    requires BoundBy(x, y, a) && BoundBy(y, z, b)
    ensures BoundBy(x, z, a + b)
  {
    hide View, ScopeOf, StackSites, BindAll, BindAllProblems, BinderSites, BindingsFit;
    BindAllJoin(ScopeOf(x.locals, x.bindings, x.depth), a, b);
    BinderSitesJoin(a, b);
  }

  lemma {:induction false} FilledBinders(x: Snapshot, y: Snapshot, z: Snapshot, s: Scope, o: Outcome, sites: seq<Site>, bs: seq<Binder>)
    requires Filled(x, y, s, o, sites) && BoundBy(y, z, bs)
    ensures Filled(x, z, BindAll(s, bs), Plus(o, Outcome(map[], BindAllProblems(s, bs))), sites + BinderSites(bs))
  {
    hide View, ScopeOf, BindAll, BindAllProblems;
    assert o.resolutions + map[] == o.resolutions;
  }

  lemma {:induction false} FilledFacts(x: Snapshot, y: Snapshot, s: Scope, o: Outcome, sites: seq<Site>)
    requires Filled(x, y, s, o, sites)
    ensures BindingsFit(x.locals, x.bindings) && BindingsFit(y.locals, y.bindings) && y.loops == x.loops
    ensures GrownWithin(StackSites(x.locals, x.bindings), StackSites(y.locals, y.bindings), sites)
    ensures ScopeOf(y.locals, y.bindings, y.depth) == s && EnvOf(y.locals, y.bindings) == s.env
  {
    hide View, EnvOf, OwnOf, StackSites, GrownWithin;
  }

  lemma {:induction false} AdmittedParts(a: Arena, owner: nat, stack: seq<Site>, left: seq<Site>, right: seq<Site>)
    requires Admitted(a, owner, stack, left + right)
    ensures Admitted(a, owner, stack, left) && Admitted(a, owner, stack, right)
    ensures forall t :: t in left ==> t !in right
  {
    var all := left + right;
    assert forall i :: 0 <= i < |left| ==> all[i] == left[i];
    assert forall i :: 0 <= i < |right| ==> all[|left| + i] == right[i];
  }

  /** What comes later is still admitted once earlier declarations are on the stack. */
  lemma {:induction false} AdmittedLater(a: Arena, owner: nat, stack: seq<Site>, left: seq<Site>, right: seq<Site>, grown: seq<Site>)
    requires Admitted(a, owner, stack, left + right) && GrownWithin(stack, grown, left)
    ensures Admitted(a, owner, grown, right)
  {
    AdmittedParts(a, owner, stack, left, right);
    forall i | 0 <= i < |right| ensures right[i] !in grown { assert right[i] in right; }
  }

  /** Undoing a scope: the mark restores the bindings of the enclosing scopes. */
  lemma {:induction false} Undone(a: Arena, owner: nat, x: Snapshot, y: Snapshot, s: Scope, o: Outcome, sites: seq<Site>)
    requires Sound(a, owner, x.locals, x.bindings, x.depth, x.resolutions)
    requires Filled(x.(depth := x.depth + 1), y, s, o, sites) && Sound(a, owner, y.locals, y.bindings, y.depth, y.resolutions)
    ensures |x.bindings| <= |y.bindings| && y.bindings[..|x.bindings|] == x.bindings && y.depth == x.depth + 1
    ensures Sound(a, owner, y.locals, x.bindings, x.depth, y.resolutions)
    ensures After(x, y.(bindings := x.bindings, depth := x.depth), o)
  {
    EnvGrows(x.locals, y.locals, x.bindings);
    hide View, EnvOf, OwnOf, LocalSites, SiteFits;
  }

  lemma {:induction false} NewScope(a: Arena, owner: nat, locals: seq<LocalEntry>, bs: seq<Binding>, depth: nat, rs: map<nat, Resolution<nat>>)
    requires Sound(a, owner, locals, bs, depth, rs)
    ensures Sound(a, owner, locals, bs, depth + 1, rs)
    ensures ScopeOf(locals, bs, depth + 1) == Scope(EnvOf(locals, bs), {})
  {
    hide LocalSites, StackSites, SiteFits, ResolutionsFit, Distinct;
  }

  lemma {:induction false} SitesAt(a: Arena, owner: nat, stack: seq<Site>, es: seq<Expr>, i: nat)
    requires Admitted(a, owner, stack, AllSites(es)) && i < |es|
    ensures Admitted(a, owner, stack, Sites(es[i]))
    decreases |es|
  {
    hide Admitted;
    var n := |es| - 1;
    AdmittedParts(a, owner, stack, AllSites(es[..n]), Sites(es[n]));
    if i < n {
      SitesAt(a, owner, stack, es[..n], i);
      assert es[..n][i] == es[i];
    }
  }

  lemma {:induction false} ArmSitesAt(a: Arena, owner: nat, stack: seq<Site>, arms: seq<Arm>, i: nat)
    requires Admitted(a, owner, stack, ArmsSites(arms)) && i < |arms|
    ensures Admitted(a, owner, stack, ArmSites(arms[i]))
    decreases |arms|
  {
    hide Admitted;
    var n := |arms| - 1;
    AdmittedParts(a, owner, stack, ArmsSites(arms[..n]), ArmSites(arms[n]));
    if i < n {
      ArmSitesAt(a, owner, stack, arms[..n], i);
      assert arms[..n][i] == arms[i];
    }
  }

  lemma {:induction false} ArmParts(a: Arena, owner: nat, stack: seq<Site>, names: seq<Site>, guards: seq<Site>, values: seq<Site>)
    requires Admitted(a, owner, stack, names + guards + values)
    ensures Admitted(a, owner, stack, names)
  {
    AdmittedParts(a, owner, stack, names + guards, values);
    AdmittedParts(a, owner, stack, names, guards);
  }

  lemma {:induction false} ArmLater(a: Arena, owner: nat, x: Snapshot, y: Snapshot, s: Scope, o: Outcome, names: seq<Site>, guards: seq<Site>, values: seq<Site>)
    requires BindingsFit(x.locals, x.bindings) && Admitted(a, owner, StackSites(x.locals, x.bindings), names + guards + values)
    requires Filled(x, y, s, o, names)
    ensures BindingsFit(y.locals, y.bindings)
    ensures Admitted(a, owner, StackSites(y.locals, y.bindings), guards)
    ensures Admitted(a, owner, StackSites(y.locals, y.bindings), values)
  {
    assert names + guards + values == names + (guards + values);
    hide Admitted, Filled, StackSites, GrownWithin, BindingsFit;
    FilledFacts(x, y, s, o, names);
    AdmittedLater(a, owner, StackSites(x.locals, x.bindings), names, guards + values, StackSites(y.locals, y.bindings));
    AdmittedParts(a, owner, StackSites(y.locals, y.bindings), guards, values);
  }

  lemma {:induction false} FilledNames(x: Snapshot, y: Snapshot, bs: seq<Binder>) returns (o: Outcome)
    requires BoundBy(x, y, bs)
    ensures o == Outcome(map[], BindAllProblems(ScopeOf(x.locals, x.bindings, x.depth), bs))
    ensures Filled(x, y, BindAll(ScopeOf(x.locals, x.bindings, x.depth), bs), o, BinderSites(bs))
  {
    hide View, ScopeOf, BindAll, BindAllProblems;
    o := Outcome(map[], BindAllProblems(ScopeOf(x.locals, x.bindings, x.depth), bs));
  }

  lemma {:induction false} FilledAfterNothing(x: Snapshot, y: Snapshot, s: Scope, o: Outcome, sites: seq<Site>)
    requires Filled(x, y, s, o, sites)
    ensures Filled(x, y, s, Plus(o, NOTHING), sites)
  {
    AfterNothing(y);
    FilledAfter(x, y, y, s, o, NOTHING, sites);
  }

  lemma {:induction false} BoundFacts(x: Snapshot, y: Snapshot, bs: seq<Binder>)
    requires BoundBy(x, y, bs)
    ensures BindingsFit(x.locals, x.bindings) && BindingsFit(y.locals, y.bindings)
    ensures GrownWithin(StackSites(x.locals, x.bindings), StackSites(y.locals, y.bindings), BinderSites(bs))
  {
    hide View, ScopeOf, BindAll, BindAllProblems, BinderSites, StackSites;
  }

  lemma {:induction false} BindersAt(a: Arena, owner: nat, x: Snapshot, y: Snapshot, ps: seq<Pattern>, i: nat)
    requires BindingsFit(x.locals, x.bindings) && i < |ps|
    requires Admitted(a, owner, StackSites(x.locals, x.bindings), BinderSites(AllBinders(ps))) && BoundBy(x, y, AllBinders(ps[..i]))
    ensures BindingsFit(y.locals, y.bindings) && Admitted(a, owner, StackSites(y.locals, y.bindings), BinderSites(Binders(ps[i])))
  {
    hide Admitted, BoundBy, StackSites, BindingsFit, BinderSites, Binders, GrownWithin;
    BoundFacts(x, y, AllBinders(ps[..i]));
    BindersPrefix(a, owner, StackSites(x.locals, x.bindings), ps, i + 1);
    assert ps[..i + 1][..i] == ps[..i];
    var before, next := AllBinders(ps[..i]), Binders(ps[i]);
    BinderSitesJoin(before, next);
    AdmittedLater(a, owner, StackSites(x.locals, x.bindings), BinderSites(before), BinderSites(next), StackSites(y.locals, y.bindings));
  }

  lemma {:induction false} BindersPrefix(a: Arena, owner: nat, stack: seq<Site>, ps: seq<Pattern>, i: nat)
    requires Admitted(a, owner, stack, BinderSites(AllBinders(ps))) && i <= |ps|
    ensures Admitted(a, owner, stack, BinderSites(AllBinders(ps[..i])))
    decreases |ps|
  {
    hide Admitted;
    if i == |ps| {
      assert ps[..i] == ps;
    } else {
      var n := |ps| - 1;
      var x, y := AllBinders(ps[..n]), Binders(ps[n]);
      BinderSitesJoin(x, y);
      AdmittedParts(a, owner, stack, BinderSites(x), BinderSites(y));
      BindersPrefix(a, owner, stack, ps[..n], i);
      assert ps[..n][..i] == ps[..i];
    }
  }

  lemma {:induction false} ParameterAt(a: Arena, owner: nat, x: Snapshot, y: Snapshot, bs: seq<Binder>, later: seq<Site>, i: nat)
    requires i < |bs| && x.bindings == [] && Admitted(a, owner, [], BinderSites(bs) + later) && BoundBy(x, y, bs[..i])
    ensures BindingsFit(y.locals, y.bindings) && Admitted(a, owner, StackSites(y.locals, y.bindings), [bs[i].site])
    ensures bs[i] == Binder(bs[i].name, bs[i].site)
  {
    hide Admitted, BoundBy, GrownWithin;
    BoundFacts(x, y, bs[..i]);
    AdmittedParts(a, owner, [], BinderSites(bs), later);
    var before, next, rest := bs[..i], [bs[i]], bs[i + 1..];
    assert bs == before + next + rest;
    BinderSitesJoin(before + next, rest);
    BinderSitesJoin(before, next);
    AdmittedParts(a, owner, [], BinderSites(before + next), BinderSites(rest));
    assert BinderSites(next) == [bs[i].site];
    assert StackSites(x.locals, x.bindings) == [];
    AdmittedLater(a, owner, [], BinderSites(before), [bs[i].site], StackSites(y.locals, y.bindings));
  }

  lemma {:induction false} Cleared(a: Arena, owner: nat, locals: seq<LocalEntry>, bs: seq<Binding>, depth: nat, rs: map<nat, Resolution<nat>>)
    requires Sound(a, owner, locals, bs, depth, rs)
    ensures Sound(a, owner, locals, [], 0, rs) && ScopeOf(locals, [], 0) == Scope(map[], {}) && StackSites(locals, []) == []
  {
  }

  lemma {:induction false} FilledResult(x: Snapshot, y: Snapshot, s: Scope, o: Outcome, sites: seq<Site>)
    requires Filled(x, y, s, o, sites)
    ensures y.loops == x.loops && y.depth == x.depth && y.problems == x.problems + o.problems
    ensures View(y.locals, y.resolutions) == View(x.locals, x.resolutions) + o.resolutions
  {
  }

  ghost predicate StatementBelow(s: Statement, parent: Expr) {
    match s
    case Let(_, _, value) => value.Some? ==> value.value < parent
    case Loop(parts) => forall i :: 0 <= i < |parts| ==> parts[i] < parent
    case Exit => true
    case Other(parts) => forall i :: 0 <= i < |parts| ==> parts[i] < parent
  }

  lemma {:induction false} StatementsPrefix(a: Arena, owner: nat, stack: seq<Site>, ss: seq<Statement>, i: nat)
    requires Admitted(a, owner, stack, StatementsSites(ss)) && i <= |ss|
    ensures Admitted(a, owner, stack, StatementsSites(ss[..i]))
    decreases |ss|
  {
    hide Admitted;
    if i == |ss| {
      assert ss[..i] == ss;
    } else {
      var n := |ss| - 1;
      AdmittedParts(a, owner, stack, StatementsSites(ss[..n]), StatementSites(ss[n]));
      StatementsPrefix(a, owner, stack, ss[..n], i);
      assert ss[..n][..i] == ss[..i];
    }
  }

  lemma {:induction false} StatementAt(a: Arena, owner: nat, x: Snapshot, y: Snapshot, s: Scope, o: Outcome, ss: seq<Statement>, i: nat)
    requires BindingsFit(x.locals, x.bindings) && Admitted(a, owner, StackSites(x.locals, x.bindings), StatementsSites(ss)) && i < |ss|
    requires Filled(x, y, s, o, StatementsSites(ss[..i]))
    ensures BindingsFit(y.locals, y.bindings) && Admitted(a, owner, StackSites(y.locals, y.bindings), StatementSites(ss[i]))
  {
    hide Admitted, Filled, StackSites, GrownWithin, BindingsFit, StatementSites;
    FilledFacts(x, y, s, o, StatementsSites(ss[..i]));
    StatementsPrefix(a, owner, StackSites(x.locals, x.bindings), ss, i + 1);
    assert ss[..i + 1][..i] == ss[..i];
    AdmittedLater(a, owner, StackSites(x.locals, x.bindings), StatementsSites(ss[..i]), StatementSites(ss[i]), StackSites(y.locals, y.bindings));
  }

  lemma {:induction false} InsideLoop(x: Snapshot, y: Snapshot, z: Snapshot, s: Scope, o: Outcome, r: Outcome, sites: seq<Site>)
    requires y.loops > 0 && Filled(x, y.(loops := y.loops - 1), s, o, sites) && After(y, z, r)
    ensures z.loops > 0 && Filled(x, z.(loops := z.loops - 1), s, Plus(o, r), sites)
  {
    var y', z' := y.(loops := y.loops - 1), z.(loops := z.loops - 1);
    assert After(y', z', r) by { hide View; }
    FilledAfter(x, y', z', s, o, r, sites);
  }

  lemma {:induction false} Reported(y: Snapshot, z: Snapshot, r: Outcome)
    requires z == y.(problems := y.problems + r.problems) && r.resolutions == map[]
    ensures After(y, z, r)
  {
    hide View;
    assert View(y.locals, y.resolutions) + map[] == View(y.locals, y.resolutions);
  }

  lemma {:induction false} LetOutcome(x: Snapshot, y: Snapshot, s: Scope, o: Outcome, first: Outcome, ps: seq<Problem>, sites: seq<Site>, inner: seq<Site>, site: Site)
    requires Filled(x, y, s, Plus(Plus(o, first), Outcome(map[], ps)), sites + [site])
    ensures Filled(x, y, s, Plus(o, Plus(first, Outcome(map[], ps))), sites + (inner + [site]))
  {
    var before, after := sites + [site], sites + (inner + [site]);
    forall t | t in before ensures t in after { assert t in sites || t in [site]; }
    MapsAssociate(o.resolutions, first.resolutions, map[]);
    SeqsAssociate(o.problems, first.problems, ps);
    hide View, ScopeOf;
    FilledMore(x, y, s, Plus(Plus(o, first), Outcome(map[], ps)), before, after);
  }

  // -------------------------------------------------------------- binding in order

  lemma {:induction false} BindAllJoin(s: Scope, x: seq<Binder>, y: seq<Binder>)
    ensures BindAll(s, x + y) == BindAll(BindAll(s, x), y)
    ensures BindAllProblems(s, x + y) == BindAllProblems(s, x) + BindAllProblems(BindAll(s, x), y)
    decreases |y|
  {
    if y == [] {
      assert x + y == x;
    } else {
      var n := |y| - 1;
      assert (x + y)[..|x + y| - 1] == x + y[..n];
      assert (x + y)[|x + y| - 1] == y[n];
      BindAllJoin(s, x, y[..n]);
    }
  }

  /** Binding j is the last with the name. */
  ghost predicate InnermostBinding(bs: seq<Binding>, j: nat, name: string) {
    j < |bs| && bs[j].name == name && forall k :: j < k < |bs| ==> bs[k].name != name
  }

  /** What a name means that no binding has: what the module makes visible, else a builtin. */
  ghost predicate IsOutside(c: Context, name: string, r: Resolution<nat>) {
    || (r.Definition? && IsVisible(c, name, Some(r.definition)))
    || (IsVisible(c, name, None) && r == if name in BUILTINS then Builtin(name) else Unresolved)
  }

  class Resolver {
    const arena: Arena
    const context: Context
    var locals: seq<LocalEntry>
    var bindings: seq<Binding>
    var depth: nat
    var loops: nat
    var resolutions: map<nat, Resolution<nat>>
    var problems: seq<Problem>
    var exhausted: bool

    ghost predicate Valid()
      reads this
    {
      Sound(arena, context.owner, locals, bindings, depth, resolutions) && !exhausted
    }

    ghost function Names(): Scope
      reads this
      requires Valid()
    {
      ScopeOf(locals, bindings, depth)
    }

    ghost predicate Admits(sites: seq<Site>)
      reads this
      requires Valid()
    {
      Admitted(arena, context.owner, StackSites(locals, bindings), sites)
    }

    ghost function Snap(): Snapshot
      reads this
    {
      Snapshot(locals, bindings, depth, loops, resolutions, problems)
    }

    /** The search from the top of the stack finds the innermost binding; failing that, what is
        visible in the module; failing that, a builtin. */
    method Find(name: string) returns (r: Resolution<nat>)
      requires Valid()
      ensures forall j: nat :: InnermostBinding(bindings, j, name) ==> r == Local(bindings[j].index)
      ensures (forall j :: 0 <= j < |bindings| ==> bindings[j].name != name) ==> IsOutside(context, name, r)
      ensures Abstract(locals, r) == Lookup(context, EnvOf(locals, bindings), name)
      ensures r.Local? ==> r.local < |locals|
    {
      var i := |bindings|;
      assert bindings[..i] == bindings;
      while i > 0
        invariant 0 <= i <= |bindings| && forall j :: i <= j < |bindings| ==> bindings[j].name != name
        invariant name in EnvOf(locals, bindings) <==> name in EnvOf(locals, bindings[..i])
        invariant name in EnvOf(locals, bindings) ==> EnvOf(locals, bindings)[name] == EnvOf(locals, bindings[..i])[name]
      {
        assert bindings[..i][..i - 1] == bindings[..i - 1];
        if bindings[i - 1].name == name { return Local(bindings[i - 1].index); }
        i := i - 1;
      }
      var d := FindVisible(context, name);
      r := if d.Some? then Definition(d.value) else if name in BUILTINS then Builtin(name) else Unresolved;
    }

    /** Reports a name already bound in the innermost scope, then binds it. */
    method AddBinding(name: string, site: Site)
      requires Valid() && Admits([site])
      modifies this`locals, this`bindings, this`problems, this`exhausted
      ensures Valid() && BoundBy(old(Snap()), Snap(), [Binder(name, site)])
    {
      hide Sound, Bind, BindingsFit, LocalSites, ScopeOf, View, StackSites, SiteFits, BindAll, BindAllProblems, BinderSites, Admitted, Capacity;
      ghost var ls := locals;
      AdmitsOne(arena, context.owner, StackSites(locals, bindings), site);
      var duplicate := FindDuplicate(name);
      if duplicate { problems := problems + [DuplicateName(name)]; }
      RoomOnStack(arena, context.owner, locals, bindings, depth, resolutions, site);
      exhausted := |bindings| >= Capacity(arena);
      if !exhausted {
        var index := FindLocal(site);
        if index == |locals| {
          RoomInTable(arena, context.owner, locals, bindings, depth, resolutions, site);
          exhausted := |locals| >= Capacity(arena);
          if !exhausted { locals := locals + [LocalEntry(context.owner, site)]; }
        }
        if !exhausted {
          var b := Binding(name, index, depth);
          Bound(arena, context.owner, ls, locals, bindings, depth, resolutions, b, site);
          OneBinder(ScopeOf(ls, bindings, depth), Binder(name, site));
          bindings := bindings + [b];
        }
      }
    }

    constructor (arena: Arena, context: Context)
      ensures Valid() && this.arena == arena && this.context == context
      ensures bindings == [] && depth == 0 && loops == 0 && resolutions == map[] && problems == []
    {
      this.arena, this.context := arena, context;
      locals, bindings, depth, loops, resolutions, problems, exhausted := [], [], 0, 0, map[], [], false;
    }

    /** A body or a contract condition, under the parameters of its definition. The tables
        never run out, whatever was resolved before. */
    method Rooted(parameters: seq<Binder>, e: Expr)
      requires Valid() && loops == 0 && Admitted(arena, context.owner, [], BinderSites(parameters) + Sites(e))
      modifies this
      ensures Valid() && loops == 0 && bindings == [] && depth == 0
      ensures var top := Scope(map[], {});
              var o := Plus(Outcome(map[], BindAllProblems(top, parameters)), Resolve(context, BindAll(top, parameters).env, 0, e));
              && View(locals, resolutions) == old(View(locals, resolutions)) + o.resolutions
              && problems == old(problems) + o.problems
    {
      hide Admitted, Filled, BoundBy, EnvOf, GrownWithin, BinderSites, BindAll, BindAllProblems;
      Cleared(arena, context.owner, locals, bindings, depth, resolutions);
      bindings, depth := [], 0;
      ghost var x := Snap();
      Parameters(parameters, Sites(e));
      ghost var top := ScopeOf(x.locals, x.bindings, x.depth);
      ghost var y, inner := Snap(), BindAll(top, parameters);
      ghost var o := FilledNames(x, y, parameters);
      FilledFacts(x, y, inner, o, BinderSites(parameters));
      AdmittedLater(arena, context.owner, [], BinderSites(parameters), Sites(e), StackSites(locals, bindings));
      Expression(e);
      ghost var r := Resolve(context, inner.env, 0, e);
      FilledAfter(x, y, Snap(), inner, o, r, BinderSites(parameters));
      FilledResult(x, Snap(), inner, Plus(o, r), BinderSites(parameters));
      Cleared(arena, context.owner, locals, bindings, depth, resolutions);
      bindings := [];
    }

    method Parameters(parameters: seq<Binder>, ghost later: seq<Site>)
      requires Valid() && bindings == [] && depth == 0 && Admitted(arena, context.owner, [], BinderSites(parameters) + later)
      modifies this`locals, this`bindings, this`problems, this`exhausted
      ensures Valid() && BoundBy(old(Snap()), Snap(), parameters)
    {
      hide Sound, Admitted, BoundBy, ScopeOf, EnvOf, GrownWithin, BinderSites, BindAll, BindAllProblems;
      ghost var x := Snap();
      BoundNothing(x);
      var i := 0;
      while i < |parameters|
        invariant 0 <= i <= |parameters| && Valid()
        invariant BoundBy(x, Snap(), parameters[..i])
        invariant unchanged(this`depth) && unchanged(this`loops) && unchanged(this`resolutions)
      {
        ghost var y := Snap();
        ParameterAt(arena, context.owner, x, y, parameters, later, i);
        AddBinding(parameters[i].name, parameters[i].site);
        BoundJoin(x, y, Snap(), parameters[..i], [parameters[i]]);
        assert parameters[..i + 1] == parameters[..i] + [parameters[i]];
        i := i + 1;
      }
      assert parameters[..i] == parameters;
    }

    // ------------------------------------------------------------- the traversal

    method Expression(e: Expr)
      requires Valid() && Admits(Sites(e))
      modifies this
      ensures Valid() && After(old(Snap()), Snap(), Resolve(context, old(Names().env), old(loops), e))
      decreases e, 3
    {
      hide Sound, Admitted, After, EnvOf;
      match e
      case Path(id, name) => PathExpression(id, name);
      case Field(id, base, text) => FieldExpression(e, id, base, text);
      case Node(_, es) => Expressions(es, e);
      case Match(_, scrutinee, arms) =>
        ghost var x := Snap();
        AdmittedParts(arena, context.owner, StackSites(locals, bindings), Sites(scrutinee), ArmsSites(arms));
        Expression(scrutinee);
        ghost var y := Snap();
        ghost var first := Resolve(context, EnvOf(x.locals, x.bindings), x.loops, scrutinee);
        AfterKeeps(x, y, first);
        Arms(arms, e);
        AfterPlus(x, y, Snap(), first, ResolveArms(context, EnvOf(x.locals, x.bindings), x.loops, arms));
      case Block(_, statements) => BlockExpression(statements, e);
    }

    method PathExpression(id: nat, name: string)
      requires Valid()
      modifies this`resolutions, this`problems
      ensures Valid() && After(old(Snap()), Snap(), ResolvePath(context, old(Names().env), id, name))
    {
      hide Sound, After, EnvOf, Visible, Lookup, IsOutside, InnermostBinding;
      ghost var x := Snap();
      var r: Resolution<nat>;
      if context.refinementSelf.Some? && name == "self" {
        r := RefinementSelf(context.refinementSelf.value);
      } else {
        r := Find(name);
      }
      Record(id, r);
      ghost var y := Snap();
      if r.Unresolved? { problems := problems + [UnresolvedName(name)]; }
      ghost var a, b := Outcome(map[id := Abstract(locals, r)], []), Outcome(map[], if r.Unresolved? then [UnresolvedName(name)] else []);
      Reported(y, Snap(), b);
      AfterPlus(x, y, Snap(), a, b);
      assert a.resolutions + map[] == a.resolutions;
      assert Plus(a, b) == ResolvePath(context, EnvOf(x.locals, x.bindings), id, name);
    }

    /** Records what an expression stands for. */
    method Record(id: nat, r: Resolution<nat>)
      requires Valid() && (r.Local? ==> r.local < |locals|)
      modifies this`resolutions
      ensures Valid() && After(old(Snap()), Snap(), Outcome(map[id := Abstract(locals, r)], []))
    {
      hide Sound, View, Abstract;
      Recorded(arena, context.owner, locals, bindings, depth, resolutions, id, r);
      resolutions := resolutions[id := r];
    }

    method FieldExpression(e: Expr, id: nat, base: Expr, text: string)
      requires Valid() && e == Field(id, base, text) && Admits(Sites(base))
      modifies this
      ensures Valid() && After(old(Snap()), Snap(), Resolve(context, old(Names().env), old(loops), e))
      decreases e, 2
    {
      hide Sound, Admitted, After, EnvOf, StackSites, IsOutside, InnermostBinding, IsVisible;
      var root := FieldRoot(e);
      var local := false;
      if root.Path? {
        var r := Find(root.name);
        local := r.Local?;
      }
      if local {
        Expression(base);
      } else {
        ghost var x := Snap();
        var d := FindVisible(context, text);
        Record(id, if d.Some? then Definition(d.value) else NotApplicable);
        if d.None? {
          ghost var y := Snap();
          ghost var first := Outcome(map[id := NotApplicable], []);
          AfterKeeps(x, y, first);
          Expression(base);
          AfterPlus(x, y, Snap(), first, Resolve(context, EnvOf(x.locals, x.bindings), x.loops, base));
        }
      }
    }

    method Expressions(es: seq<Expr>, ghost parent: Expr)
      requires Valid() && Admits(AllSites(es)) && forall i :: 0 <= i < |es| ==> es[i] < parent
      modifies this
      ensures Valid() && After(old(Snap()), Snap(), ResolveAll(context, old(Names().env), old(loops), es))
      decreases parent, 0
    {
      hide Sound, Admitted, After, EnvOf;
      ghost var x, env := Snap(), EnvOf(locals, bindings);
      AfterNothing(x);
      var i := 0;
      while i < |es|
        invariant 0 <= i <= |es| && Valid()
        invariant After(x, Snap(), ResolveAll(context, env, x.loops, es[..i]))
      {
        ghost var y := Snap();
        AfterKeeps(x, y, ResolveAll(context, env, x.loops, es[..i]));
        SitesAt(arena, context.owner, StackSites(x.locals, x.bindings), es, i);
        Expression(es[i]);
        assert es[..i + 1][..i] == es[..i];
        AfterPlus(x, y, Snap(), ResolveAll(context, env, x.loops, es[..i]), Resolve(context, env, x.loops, es[i]));
        i := i + 1;
      }
      assert es[..i] == es;
    }

    method Arms(arms: seq<Arm>, ghost parent: Expr)
      requires Valid() && Admits(ArmsSites(arms))
      requires forall i :: 0 <= i < |arms| ==> arms[i].value < parent && (arms[i].guard.Some? ==> arms[i].guard.value < parent)
      modifies this
      ensures Valid() && After(old(Snap()), Snap(), ResolveArms(context, old(Names().env), old(loops), arms))
      decreases parent, 2
    {
      hide Sound, Admitted, After, EnvOf;
      ghost var x, env := Snap(), EnvOf(locals, bindings);
      AfterNothing(x);
      var i := 0;
      while i < |arms|
        invariant 0 <= i <= |arms| && Valid()
        invariant After(x, Snap(), ResolveArms(context, env, x.loops, arms[..i]))
      {
        ghost var y := Snap();
        AfterKeeps(x, y, ResolveArms(context, env, x.loops, arms[..i]));
        ArmSitesAt(arena, context.owner, StackSites(x.locals, x.bindings), arms, i);
        ArmExpression(arms[i], parent);
        assert arms[..i + 1][..i] == arms[..i];
        AfterPlus(x, y, Snap(), ResolveArms(context, env, x.loops, arms[..i]), ResolveArm(context, env, x.loops, arms[i]));
        i := i + 1;
      }
      assert arms[..i] == arms;
    }

    /** Opens a scope for the names of the pattern, and closes it by the mark. */
    method ArmExpression(arm: Arm, ghost parent: Expr)
      requires Valid() && Admits(ArmSites(arm)) && arm.value < parent && (arm.guard.Some? ==> arm.guard.value < parent)
      modifies this
      ensures Valid() && After(old(Snap()), Snap(), ResolveArm(context, old(Names().env), old(loops), arm))
      decreases parent, 1
    {
      hide Sound, Admitted, After, Filled, BoundBy, EnvOf, StackSites;
      ghost var x := Snap();
      ghost var names, guards := BinderSites(Binders(arm.pattern)), if arm.guard.Some? then Sites(arm.guard.value) else [];
      ArmParts(arena, context.owner, StackSites(locals, bindings), names, guards, Sites(arm.value));
      var mark := |bindings|;
      NewScope(arena, context.owner, locals, bindings, depth, resolutions);
      depth := depth + 1;
      ghost var x1 := Snap();
      PatternBindings(arm.pattern);
      ghost var inner := BindAll(ScopeOf(x1.locals, x1.bindings, x1.depth), Binders(arm.pattern));
      ghost var o := FilledNames(x1, Snap(), Binders(arm.pattern));
      FilledFacts(x1, Snap(), inner, o, names);
      if arm.guard.Some? {
        ArmLater(arena, context.owner, x1, Snap(), inner, o, names, guards, Sites(arm.value));
        ghost var y := Snap();
        Expression(arm.guard.value);
        FilledAfter(x1, y, Snap(), inner, o, Resolve(context, inner.env, x.loops, arm.guard.value), names);
        o := Plus(o, Resolve(context, inner.env, x.loops, arm.guard.value));
      } else {
        FilledAfterNothing(x1, Snap(), inner, o, names);
        o := Plus(o, NOTHING);
      }
      ghost var z := Snap();
      FilledFacts(x1, z, inner, o, names);
      ArmLater(arena, context.owner, x1, z, inner, o, names, guards, Sites(arm.value));
      Expression(arm.value);
      FilledAfter(x1, z, Snap(), inner, o, Resolve(context, inner.env, x.loops, arm.value), names);
      Undone(arena, context.owner, x, Snap(), inner, Plus(o, Resolve(context, inner.env, x.loops, arm.value)), names);
      bindings := bindings[..mark];
      depth := depth - 1;
    }

    method PatternBindings(p: Pattern)
      requires Valid() && Admits(BinderSites(Binders(p)))
      modifies this`locals, this`bindings, this`problems, this`exhausted
      ensures Valid() && BoundBy(old(Snap()), Snap(), Binders(p))
      decreases p
    {
      hide Sound, Admitted, BoundBy, StackSites, ScopeOf;
      match p
      case Binds(id, name) =>
        OneBinder(Names(), Binder(name, Site(Kind.Pattern, id)));
        AddBinding(name, Site(Kind.Pattern, id));
      case Matches(ps) =>
        ghost var x, stack := Snap(), StackSites(locals, bindings);
        BoundNothing(x);
        var i := 0;
        while i < |ps|
          invariant 0 <= i <= |ps| && Valid()
          invariant BoundBy(x, Snap(), AllBinders(ps[..i]))
          invariant unchanged(this`depth) && unchanged(this`loops) && unchanged(this`resolutions)
        {
          ghost var y := Snap();
          BindersAt(arena, context.owner, x, y, ps, i);
          PatternBindings(ps[i]);
          BoundJoin(x, y, Snap(), AllBinders(ps[..i]), Binders(ps[i]));
          assert ps[..i + 1][..i] == ps[..i];
          i := i + 1;
        }
        assert ps[..i] == ps;
    }

    /** A block: one scope, threaded through its statements. */
    method BlockExpression(ss: seq<Statement>, ghost parent: Expr)
      requires Valid() && Admits(StatementsSites(ss)) && forall i :: 0 <= i < |ss| ==> StatementBelow(ss[i], parent)
      modifies this
      ensures Valid() && After(old(Snap()), Snap(), ResolveStatements(context, Scope(old(Names().env), {}), old(loops), ss).1)
      decreases parent, 2
    {
      hide Sound, Admitted, After, Filled, EnvOf, StackSites, StatementBelow;
      ghost var x, outer := Snap(), Scope(Names().env, {});
      var mark := |bindings|;
      NewScope(arena, context.owner, locals, bindings, depth, resolutions);
      depth := depth + 1;
      ghost var x1 := Snap();
      FilledNothing(x1);
      var i := 0;
      while i < |ss|
        invariant 0 <= i <= |ss| && Valid()
        invariant var r := ResolveStatements(context, outer, x.loops, ss[..i]);
                  Filled(x1, Snap(), r.0, r.1, StatementsSites(ss[..i]))
      {
        ghost var r := ResolveStatements(context, outer, x.loops, ss[..i]);
        StatementAt(arena, context.owner, x1, Snap(), r.0, r.1, ss, i);
        StatementStep(ss[i], parent, x1, r.0, r.1, StatementsSites(ss[..i]));
        assert ss[..i + 1][..i] == ss[..i];
        i := i + 1;
      }
      assert ss[..i] == ss;
      ghost var r := ResolveStatements(context, outer, x.loops, ss);
      Undone(arena, context.owner, x, Snap(), r.0, r.1, StatementsSites(ss));
      bindings := bindings[..mark];
      depth := depth - 1;
    }

    method StatementStep(s: Statement, ghost parent: Expr, ghost x: Snapshot, ghost scope: Scope, ghost o: Outcome, ghost sites: seq<Site>)
      requires Valid() && Admits(StatementSites(s)) && StatementBelow(s, parent)
      requires Filled(x, Snap(), scope, o, sites)
      modifies this
      ensures Valid()
      ensures var r := ResolveStatement(context, scope, x.loops, s); Filled(x, Snap(), r.0, Plus(o, r.1), sites + StatementSites(s))
      decreases parent, 1
    {
      hide Sound, Admitted, After, Filled, BoundBy, EnvOf, StackSites;
      FilledFacts(x, Snap(), scope, o, sites);
      match s
      case Let(id, name, value) => LetStatement(s, parent, x, scope, o, sites);
      case Loop(parts) =>
        loops := loops + 1;
        ghost var y := Snap();
        Expressions(parts, parent);
        InsideLoop(x, y, Snap(), scope, o, ResolveAll(context, scope.env, y.loops, parts), sites);
        loops := loops - 1;
        FilledMore(x, Snap(), scope, Plus(o, ResolveAll(context, scope.env, y.loops, parts)), sites, sites + StatementSites(s));
      case Exit =>
        ghost var y := Snap();
        if loops == 0 { problems := problems + [MisplacedExit]; }
        ghost var r := Outcome(map[], if y.loops == 0 then [MisplacedExit] else []);
        Reported(y, Snap(), r);
        FilledAfter(x, y, Snap(), scope, o, r, sites);
        FilledMore(x, Snap(), scope, Plus(o, r), sites, sites + StatementSites(s));
      case Other(parts) =>
        ghost var y := Snap();
        Expressions(parts, parent);
        FilledAfter(x, y, Snap(), scope, o, ResolveAll(context, scope.env, y.loops, parts), sites);
        FilledMore(x, Snap(), scope, Plus(o, ResolveAll(context, scope.env, y.loops, parts)), sites, sites + StatementSites(s));
    }

    method LetStatement(s: Statement, ghost parent: Expr, ghost x: Snapshot, ghost scope: Scope, ghost o: Outcome, ghost sites: seq<Site>)
      requires Valid() && Admits(StatementSites(s)) && StatementBelow(s, parent) && s.Let?
      requires Filled(x, Snap(), scope, o, sites)
      modifies this
      ensures Valid()
      ensures var r := ResolveStatement(context, scope, x.loops, s); Filled(x, Snap(), r.0, Plus(o, r.1), sites + StatementSites(s))
      decreases parent, 0
    {
      hide Sound, Admitted, After, Filled, BoundBy, EnvOf, StackSites, Bind, BindProblems;
      FilledFacts(x, Snap(), scope, o, sites);
      var site := Site(Variable, s.id);
      ghost var y, inner := Snap(), (if s.value.Some? then Sites(s.value.value) else []);
      AdmittedParts(arena, context.owner, StackSites(locals, bindings), inner, [site]);
      ghost var first := NOTHING;
      AfterNothing(y);
      if s.value.Some? {
        Expression(s.value.value);
        first := Resolve(context, scope.env, y.loops, s.value.value);
      }
      ghost var z := Snap();
      AfterKeeps(y, z, first);
      FilledAfter(x, y, z, scope, o, first, sites);
      FilledFacts(x, z, scope, Plus(o, first), sites);
      AddBinding(s.name, site);
      FilledBinders(x, z, Snap(), scope, Plus(o, first), sites, [Binder(s.name, site)]);
      OneBinder(scope, Binder(s.name, site));
      LetOutcome(x, Snap(), Bind(scope, s.name, site), o, first, BindProblems(scope, s.name), sites, inner, site);
    }

    method FindDuplicate(name: string) returns (found: bool)
      requires Valid()
      ensures found <==> name in Names().own
    {
      var i := |bindings|;
      while i > 0
        invariant 0 <= i <= |bindings|
        invariant forall j :: i <= j < |bindings| ==> bindings[j].depth == depth && bindings[j].name != name
      {
        if bindings[i - 1].depth != depth {
          assert forall j :: 0 <= j < i ==> bindings[j].depth != depth;
          return false;
        }
        if bindings[i - 1].name == name { return true; }
        i := i - 1;
      }
      found := false;
    }

    /** The local of this definition and declaration, if there is one already. */
    method FindLocal(site: Site) returns (index: nat)
      requires Valid() && arena.ownerOf(site) == context.owner
      ensures index <= |locals| && (index < |locals| ==> locals[index].site == site)
      ensures index == |locals| ==> site !in LocalSites(locals)
    {
      index := 0;
      while index < |locals|
        invariant 0 <= index <= |locals| && forall j :: 0 <= j < index ==> locals[j].site != site
      {
        if locals[index].owner == context.owner && locals[index].site == site { return; }
        index := index + 1;
      }
    }
  }

  lemma {:induction false} AdmitsOne(a: Arena, owner: nat, stack: seq<Site>, site: Site)
    requires Admitted(a, owner, stack, [site])
    ensures a.ownerOf(site) == owner && SiteFits(a, site) && site !in stack
  {
    assert [site][0] == site;
  }

  lemma {:induction false} RoomOnStack(a: Arena, owner: nat, locals: seq<LocalEntry>, bs: seq<Binding>, depth: nat, rs: map<nat, Resolution<nat>>, site: Site)
    requires Sound(a, owner, locals, bs, depth, rs) && SiteFits(a, site) && site !in StackSites(locals, bs)
    ensures |bs| < Capacity(a)
  {
    var sites := StackSites(locals, bs) + [site];
    DistinctSitesFit(a, sites);
  }

  lemma {:induction false} RoomInTable(a: Arena, owner: nat, locals: seq<LocalEntry>, bs: seq<Binding>, depth: nat, rs: map<nat, Resolution<nat>>, site: Site)
    requires Sound(a, owner, locals, bs, depth, rs) && SiteFits(a, site) && site !in LocalSites(locals)
    ensures |locals| < Capacity(a)
  {
    DistinctSitesFit(a, LocalSites(locals) + [site]);
  }

  lemma {:induction false} TableGrows(a: Arena, owner: nat, ls: seq<LocalEntry>, locals: seq<LocalEntry>, bs: seq<Binding>, depth: nat, rs: map<nat, Resolution<nat>>, site: Site)
    requires Sound(a, owner, ls, bs, depth, rs) && SiteFits(a, site) && a.ownerOf(site) == owner
    requires locals == ls || (locals == ls + [LocalEntry(owner, site)] && site !in LocalSites(ls))
    ensures Sound(a, owner, locals, bs, depth, rs)
    ensures ScopeOf(locals, bs, depth) == ScopeOf(ls, bs, depth) && StackSites(locals, bs) == StackSites(ls, bs)
    ensures View(locals, rs) == View(ls, rs)
  {
    EnvGrows(ls, locals, bs);
    ViewGrows(ls, locals, rs);
    hide EnvOf, View, DepthsAscend;
    if locals != ls { assert LocalSites(locals) == LocalSites(ls) + [site]; }
  }

  lemma {:induction false} Bound(a: Arena, owner: nat, ls: seq<LocalEntry>, locals: seq<LocalEntry>, bs: seq<Binding>, depth: nat, rs: map<nat, Resolution<nat>>, b: Binding, site: Site)
    requires Sound(a, owner, ls, bs, depth, rs) && SiteFits(a, site) && a.ownerOf(site) == owner && b.depth == depth
    requires locals == ls || (locals == ls + [LocalEntry(owner, site)] && site !in LocalSites(ls))
    requires b.index < |locals| && locals[b.index].site == site && site !in StackSites(ls, bs)
    ensures Sound(a, owner, locals, bs + [b], depth, rs)
    ensures ScopeOf(locals, bs + [b], depth) == Bind(ScopeOf(ls, bs, depth), b.name, site)
    ensures StackSites(locals, bs + [b]) == StackSites(ls, bs) + [site]
    ensures View(locals, rs) == View(ls, rs)
  {
    TableGrows(a, owner, ls, locals, bs, depth, rs, site);
    PushedBinding(locals, bs, b);
    hide ScopeOf, View, LocalSites, SiteFits, ResolutionsFit, Bind;
    assert Distinct(StackSites(locals, bs) + [site]);
  }
}
