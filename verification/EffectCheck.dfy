/** The whole checker: graph, components, inference, coercions, recorded calls and the
    validation of declared rows, and what its verdict means. */
module EffectCheck {
  import opened Options
  import opened CallGraphs
  import opened Components
  import opened EffectProgram
  import opened EffectRows
  import opened EffectInference
  import opened EffectSchedule
  import opened EffectSemantics
  import opened EffectAcceptance
  import opened EffectSoundness
  import opened EffectCalls

  // ------------------------------------------------------- validation of one call

  ghost predicate IsCaller(p: Program, rows: seq<Row>, c: Context, caller: Row)
    requires |rows| == |p.functions| && ContextInRange(p, c)
  {
    RowOf(p, AtomsOf(rows), c) == set a | a in caller
  }

  /** An instance that is neither masked nor admitted is what the checker reports. */
  ghost predicate InstanceOk(p: Program, r: Family, c: Context, h: Handlers, a: Atom)
    requires |r| == |p.functions| && ContextInRange(p, c)
  {
    IsHandled(h, a) || Allowed(p, r, c, a)
  }

  ghost predicate AtomOk(p: Program, r: Family, c: Context, h: Handlers, s: CallSite, q: Atom)
    requires |r| == |p.functions| && ContextInRange(p, c)
  {
    SiteRoots(s, q.authority).Some? && forall a :: a in Instances(s, q) ==> InstanceOk(p, r, c, h, a)
  }

  ghost predicate SiteOk(p: Program, r: Family, c: Context, h: Handlers, s: CallSite)
    requires |r| == |p.functions| && ContextInRange(p, c) && SiteInRange(p, s)
  {
    (SiteTail(p, s).None? || h == []) && forall q :: Required(p, r, s, q) ==> AtomOk(p, r, c, h, s, q)
  }

  /** The search of the caller's row; in a wrapper Self stands for the private source. */
  method Admits(p: Program, rows: seq<Row>, c: Context, caller: Row, a: Atom) returns (found: bool)
    requires |rows| == |p.functions| && ContextInRange(p, c) && IsCaller(p, rows, c, caller)
    ensures found <==> Allowed(p, AtomsOf(rows), c, a)
  {
    found := false;
    var i := 0;
    while i < |caller|
      invariant 0 <= i <= |caller| && !found
      invariant forall j :: 0 <= j < i ==> caller[j] != a
      invariant c.InMember? && p.members[c.member].source.Some? && a.authority == Parameter(p.members[c.member].source.value) ==>
        forall j :: 0 <= j < i ==> caller[j] != Atom(a.name, SelfAuthority)
    {
      var derived := c.InMember? && caller[i].authority.SelfAuthority? && p.members[c.member].source.Some?
        && a.authority == Parameter(p.members[c.member].source.value) && caller[i].name == a.name;
      if derived || caller[i] == a {
        assert caller[i] in RowOf(p, AtomsOf(rows), c);
        return true;
      }
      i := i + 1;
    }
  }

  method ValidateInstances(p: Program, rows: seq<Row>, c: Context, caller: Row, h: Handlers, instances: Row) returns (ok: bool)
    requires |rows| == |p.functions| && ContextInRange(p, c) && IsCaller(p, rows, c, caller)
    ensures ok <==> forall a :: a in instances ==> InstanceOk(p, AtomsOf(rows), c, h, a)
  {
    hide Allowed, IsCaller;
    ok := true;
    var i := 0;
    while i < |instances|
      invariant 0 <= i <= |instances|
      invariant ok <==> forall j :: 0 <= j < i ==> InstanceOk(p, AtomsOf(rows), c, h, instances[j])
    {
      if !IsHandled(h, instances[i]) {
        var found := Admits(p, rows, c, caller, instances[i]);
        ok := ok && found;
      }
      i := i + 1;
    }
  }

  lemma {:induction false} TailInScope(p: Program, c: Context, s: CallSite)
    requires ContextInRange(p, c) && SiteInRange(p, s) && SiteScoped(p, c, s)
    ensures SiteTail(p, s).Some? ==> TailOf(p, c) == SiteTail(p, s)
  {
    if s.ToFunction? { CallbackTailListed(s.callbacks); }
  }

  lemma {:induction false} CallbackTailListed(cbs: seq<CallbackArgument>)
    ensures CallbackTail(cbs).Some? ==>
      exists i :: 0 <= i < |cbs| && cbs[i].Callback? && cbs[i].actual.SignatureValue? && cbs[i].actual.signature.tail == CallbackTail(cbs)
  {
    if cbs != [] {
      CallbackTailListed(cbs[1..]);
      assert forall i :: 0 <= i < |cbs| - 1 ==> cbs[1..][i] == cbs[i + 1];
    }
  }

  /** One call in validation mode. */
  method ValidateSite(p: Program, rows: seq<Row>, c: Context, caller: Row, h: Handlers, s: CallSite) returns (ok: bool)
    requires |rows| == |p.functions| && ContextInRange(p, c) && IsCaller(p, rows, c, caller)
    requires SiteInRange(p, s) && SiteScoped(p, c, s)
    ensures ok <==> SiteOk(p, AtomsOf(rows), c, h, s)
  {
    hide Required, RequiredRow, SiteTail, TailOf, SiteScoped, SiteInRange, IsCaller, SiteRoots, Instances, InstanceOk, AtomsOf;
    TailInScope(p, c, s);
    var tail := SiteTail(p, s);
    ok := tail.None? || (h == [] && TailOf(p, c) == tail);
    var required := RequiredRow(p, rows, s);
    var fits := true;
    var i := 0;
    while i < |required|
      invariant 0 <= i <= |required|
      invariant fits <==> forall j :: 0 <= j < i ==> AtomOk(p, AtomsOf(rows), c, h, s, required[j])
    {
      var admitted := ValidateInstances(p, rows, c, caller, h, Instances(s, required[i]));
      fits := fits && SiteRoots(s, required[i].authority).Some? && admitted;
      i := i + 1;
    }
    ok := ok && fits;
  }

  // ------------------------------------------------------- validation of one body

  ghost predicate BodyOk(p: Program, r: Family, c: Context, h: Handlers, b: Body)
    requires |r| == |p.functions| && ContextInRange(p, c) && BodyInRange(p, b)
    decreases b
  {
    match b
    case Node(cs) => forall i :: 0 <= i < |cs| ==> BodyOk(p, r, c, h, cs[i])
    case Call(s, ops) => SiteOk(p, r, c, h, s) && forall i :: 0 <= i < |ops| ==> BodyOk(p, r, c, h, ops[i])
    case Panic(m) => Allowed(p, r, c, PANIC) && BodyOk(p, r, c, h, m)
    case Handle(x, v, n, root, _, d) =>
      BodyOk(p, r, c, h, x) && BodyOk(p, r, c, h, v) && BodyOk(p, r, c, h + [(n, root)], d)
  }

  method ValidateBody(p: Program, rows: seq<Row>, c: Context, caller: Row, h: Handlers, b: Body) returns (ok: bool)
    requires |rows| == |p.functions| && ContextInRange(p, c) && IsCaller(p, rows, c, caller)
    requires BodyInRange(p, b) && Scoped(p, c, b)
    ensures ok <==> BodyOk(p, AtomsOf(rows), c, h, b)
    decreases b
  {
    hide IsCaller, SiteOk, SiteScoped, SiteInRange, Allowed;
    match b
    case Node(cs) =>
      ok := ValidateAll(p, rows, c, caller, h, cs, b);
    case Call(s, ops) =>
      var operands := ValidateAll(p, rows, c, caller, h, ops, b);
      var site := ValidateSite(p, rows, c, caller, h, s);
      ok := site && operands;
    case Panic(m) =>
      var message := ValidateBody(p, rows, c, caller, h, m);
      var found := Admits(p, rows, c, caller, PANIC);
      ok := message && found;
    case Handle(x, v, n, root, _, d) =>
      var authority := ValidateBody(p, rows, c, caller, h, x);
      var provider := ValidateBody(p, rows, c, caller, h, v);
      var body := ValidateBody(p, rows, c, caller, h + [(n, root)], d);
      ok := authority && provider && body;
  }

  method ValidateAll(p: Program, rows: seq<Row>, c: Context, caller: Row, h: Handlers, bs: seq<Body>, ghost parent: Body) returns (ok: bool)
    requires |rows| == |p.functions| && ContextInRange(p, c) && IsCaller(p, rows, c, caller)
    requires forall i :: 0 <= i < |bs| ==> bs[i] < parent && BodyInRange(p, bs[i]) && Scoped(p, c, bs[i])
    ensures ok <==> forall i :: 0 <= i < |bs| ==> BodyOk(p, AtomsOf(rows), c, h, bs[i])
    decreases parent, 0
  {
    hide IsCaller, BodyOk, BodyInRange, Scoped;
    ok := true;
    var i := 0;
    while i < |bs|
      invariant 0 <= i <= |bs|
      invariant ok <==> forall j :: 0 <= j < i ==> BodyOk(p, AtomsOf(rows), c, h, bs[j])
    {
      var good := ValidateBody(p, rows, c, caller, h, bs[i]);
      ok := ok && good;
      i := i + 1;
    }
  }

  lemma {:induction false} SiteOkMeans(p: Program, r: Family, c: Context, h: Handlers, s: CallSite)
    requires |r| == |p.functions| && ContextInRange(p, c) && SiteInRange(p, s)
    ensures SiteOk(p, r, c, h, s) <==>
      && !SiteDiagnosed(p, r, s) && (SiteTail(p, s).None? || h == [])
      && forall a :: SiteContributes(p, r, h, s, a) ==> Allowed(p, r, c, a)
  {
    hide Required, SiteTail, Allowed, SiteInRange, SiteRoots, Instances, IsHandled;
    if !SiteDiagnosed(p, r, s) && (forall a :: SiteContributes(p, r, h, s, a) ==> Allowed(p, r, c, a)) {
      forall q | Required(p, r, s, q) ensures AtomOk(p, r, c, h, s, q) {
        assert forall a :: a in Instances(s, q) && !IsHandled(h, a) ==> SiteContributes(p, r, h, s, a);
      }
    }
  }

  /** Validation reports nothing if and only if no site is diagnosed and everything the
      body contributes is admitted by the row of the callable. */
  lemma {:induction false} BodyOkMeans(p: Program, r: Family, c: Context, h: Handlers, b: Body)
    requires |r| == |p.functions| && ContextInRange(p, c) && BodyInRange(p, b)
    ensures BodyOk(p, r, c, h, b) <==> !BodyDiagnosed(p, r, h, b) && Admitted(p, r, c, h, b)
    decreases b
  {
    hide SiteOk, SiteContributes, SiteDiagnosed, SiteTail, Allowed, SiteInRange;
    match b
    case Node(cs) =>
      forall i | 0 <= i < |cs|
        ensures BodyOk(p, r, c, h, cs[i]) <==> !BodyDiagnosed(p, r, h, cs[i]) && Admitted(p, r, c, h, cs[i])
      {
        BodyOkMeans(p, r, c, h, cs[i]);
      }
      if Admitted(p, r, c, h, b) {
        forall i | 0 <= i < |cs| ensures Admitted(p, r, c, h, cs[i]) {
          assert forall a :: Contributes(p, r, h, cs[i], a) ==> Contributes(p, r, h, b, a);
        }
      }
    case Call(s, ops) =>
      SiteOkMeans(p, r, c, h, s);
      forall i | 0 <= i < |ops|
        ensures BodyOk(p, r, c, h, ops[i]) <==> !BodyDiagnosed(p, r, h, ops[i]) && Admitted(p, r, c, h, ops[i])
      {
        BodyOkMeans(p, r, c, h, ops[i]);
      }
      if Admitted(p, r, c, h, b) {
        assert forall a :: SiteContributes(p, r, h, s, a) ==> Contributes(p, r, h, b, a);
        forall i | 0 <= i < |ops| ensures Admitted(p, r, c, h, ops[i]) {
          assert forall a :: Contributes(p, r, h, ops[i], a) ==> Contributes(p, r, h, b, a);
        }
      }
    case Panic(m) =>
      BodyOkMeans(p, r, c, h, m);
      assert Contributes(p, r, h, b, PANIC);
      assert forall a :: Contributes(p, r, h, m, a) ==> Contributes(p, r, h, b, a);
    case Handle(x, v, n, root, _, d) =>
      BodyOkMeans(p, r, c, h, x);
      BodyOkMeans(p, r, c, h, v);
      BodyOkMeans(p, r, c, h + [(n, root)], d);
      assert forall a :: Contributes(p, r, h, b, a) <==>
        (Contributes(p, r, h, x, a) || Contributes(p, r, h, v, a) || Contributes(p, r, h + [(n, root)], d, a));
  }

  // ------------------------------------------------------------------- coercions

  method CoercionFits(actual: Row, expected: Signature) returns (ok: bool)
    ensures ok <==> forall a :: a in actual ==> AuthorityFree(a) && (expected.tail.None? ==> a in expected.effects)
  {
    ok := true;
    var i := 0;
    while i < |actual|
      invariant 0 <= i <= |actual|
      invariant ok <==> forall j :: 0 <= j < i ==> AuthorityFree(actual[j]) && (expected.tail.None? ==> actual[j] in expected.effects)
    {
      if !AuthorityFree(actual[i]) {
        ok := false;
      } else if actual[i] !in expected.effects && expected.tail.None? {
        ok := false;
      }
      i := i + 1;
    }
  }

  /** Coercions of definitions and operations; the type checker has compared the others. */
  method ValidateCoercions(p: Program, rows: seq<Row>) returns (ok: bool)
    requires InRange(p) && |rows| == |p.functions|
    ensures ok <==> forall i :: 0 <= i < |p.flows| ==> FlowAccepted(p, AtomsOf(rows), p.flows[i])
  {
    ok := true;
    var i := 0;
    while i < |p.flows|
      invariant 0 <= i <= |p.flows|
      invariant ok <==> forall j :: 0 <= j < i ==> FlowAccepted(p, AtomsOf(rows), p.flows[j])
    {
      if !p.flows[i].source.SignatureValue? {
        var fits := CoercionFits(SourceAtoms(p, rows, p.flows[i].source), p.flows[i].target);
        ok := ok && fits;
      }
      i := i + 1;
    }
  }

  // ---------------------------------------------------------------- all callables

  ghost predicate ContextOk(p: Program, r: Family, c: Context)
    requires InRange(p) && |r| == |p.functions| && ContextInRange(p, c)
  {
    BodyOf(p, c).Some? && Validated(p, c) ==> (ContextBodyInRange(p, c); BodyOk(p, r, c, [], BodyOf(p, c).value))
  }

  method ValidateFunctions(p: Program, rows: seq<Row>) returns (ok: bool)
    requires WellTyped(p) && |rows| == |p.functions|
    ensures ok <==> forall f: nat :: f < |p.functions| ==> ContextOk(p, AtomsOf(rows), InFunction(f))
  {
    hide InRange, ContextOk, Scoped;
    ok := true;
    var f := 0;
    while f < |p.functions|
      invariant 0 <= f <= |p.functions|
      invariant ok <==> forall g: nat :: g < f ==> ContextOk(p, AtomsOf(rows), InFunction(g))
    {
      var good := ValidateContext(p, rows, InFunction(f), p.functions[f].body, p.functions[f].clause.Some?, rows[f]);
      ok := ok && good;
      f := f + 1;
    }
  }

  method ValidateMembers(p: Program, rows: seq<Row>) returns (ok: bool)
    requires WellTyped(p) && |rows| == |p.functions|
    ensures ok <==> forall m: nat :: m < |p.members| ==> ContextOk(p, AtomsOf(rows), InMember(m))
  {
    hide InRange, ContextOk, Scoped;
    ok := true;
    var m := 0;
    while m < |p.members|
      invariant 0 <= m <= |p.members|
      invariant ok <==> forall k: nat :: k < m ==> ContextOk(p, AtomsOf(rows), InMember(k))
    {
      var good := ValidateContext(p, rows, InMember(m), p.members[m].body, true, p.members[m].row);
      ok := ok && good;
      m := m + 1;
    }
  }

  method ValidateTraitMethods(p: Program, rows: seq<Row>) returns (ok: bool)
    requires WellTyped(p) && |rows| == |p.functions|
    ensures ok <==> forall t: nat :: t < |p.traitMethods| ==> ContextOk(p, AtomsOf(rows), InTraitMethod(t))
  {
    hide InRange, ContextOk, Scoped;
    ok := true;
    var t := 0;
    while t < |p.traitMethods|
      invariant 0 <= t <= |p.traitMethods|
      invariant ok <==> forall k: nat :: k < t ==> ContextOk(p, AtomsOf(rows), InTraitMethod(k))
    {
      var good := ValidateContext(p, rows, InTraitMethod(t), p.traitMethods[t].body, true, p.traitMethods[t].row);
      ok := ok && good;
      t := t + 1;
    }
  }

  method ValidateContext(p: Program, rows: seq<Row>, c: Context, body: Option<Body>, declared: bool, caller: Row) returns (ok: bool)
    requires WellTyped(p) && |rows| == |p.functions| && ContextInRange(p, c)
    requires body == BodyOf(p, c) && (declared <==> Validated(p, c)) && IsCaller(p, rows, c, caller)
    ensures ok <==> ContextOk(p, AtomsOf(rows), c)
  {
    ok := true;
    if body.Some? && declared {
      ContextBodyInRange(p, c);
      assert Scoped(p, c, body.value);
      ok := ValidateBody(p, rows, c, caller, [], body.value);
    }
  }

  // --------------------------------------------------------- calls of the program

  ghost function Sites(b: Body): set<CallSite> {
    match b
    case Node(cs) => SitesOfAll(cs)
    case Call(s, ops) => {s} + SitesOfAll(ops)
    case Panic(m) => Sites(m)
    case Handle(x, v, _, _, _, d) => Sites(x) + Sites(v) + Sites(d)
  }

  ghost function SitesOfAll(bs: seq<Body>): set<CallSite> {
    set i, s | 0 <= i < |bs| && s in Sites(bs[i]) :: s
  }

  lemma {:induction false} CallsAcceptedBySite(p: Program, r: Family, b: Body)
    requires |r| == |p.functions| && BodyInRange(p, b)
    ensures CallsAccepted(p, r, b) <==> forall s :: s in Sites(b) ==> SiteInRange(p, s) && CallbacksAccepted(p, r, s)
    decreases b
  {
    hide CallbacksAccepted, SiteInRange;
    match b
    case Node(cs) => CallsAcceptedByAll(p, r, cs, b);
    case Call(s, ops) => CallsAcceptedByAll(p, r, ops, b);
    case Panic(m) => CallsAcceptedBySite(p, r, m);
    case Handle(x, v, _, _, _, d) =>
      CallsAcceptedBySite(p, r, x);
      CallsAcceptedBySite(p, r, v);
      CallsAcceptedBySite(p, r, d);
  }

  lemma {:induction false} CallsAcceptedByAll(p: Program, r: Family, bs: seq<Body>, parent: Body)
    requires |r| == |p.functions| && forall i :: 0 <= i < |bs| ==> bs[i] < parent && BodyInRange(p, bs[i])
    ensures (forall i :: 0 <= i < |bs| ==> CallsAccepted(p, r, bs[i])) <==>
      forall s :: s in SitesOfAll(bs) ==> SiteInRange(p, s) && CallbacksAccepted(p, r, s)
    decreases parent, 0
  {
    hide CallbacksAccepted, SiteInRange, CallsAccepted, Sites;
    forall i | 0 <= i < |bs|
      ensures CallsAccepted(p, r, bs[i]) <==> forall s :: s in Sites(bs[i]) ==> SiteInRange(p, s) && CallbacksAccepted(p, r, s)
    {
      CallsAcceptedBySite(p, r, bs[i]);
    }
  }

  /** The call expressions of the program include every call site of every body. */
  ghost predicate ListsAllCalls(p: Program, calls: seq<CallSite>) {
    && CallsInRange(p, calls)
    && forall c, s :: ContextInRange(p, c) && BodyOf(p, c).Some? && s in Sites(BodyOf(p, c).value) ==> s in calls
  }

  ghost predicate AllInOrder(p: Program, rows: seq<Row>, calls: seq<CallSite>)
    requires |rows| == |p.functions| && CallsInRange(p, calls)
  {
    forall i :: 0 <= i < |calls| ==> CallInOrder(p, rows, calls[i])
  }

  lemma {:induction false} InOrderMeans(p: Program, rows: seq<Row>, s: CallSite)
    requires |rows| == |p.functions| && SiteInRange(p, s)
    ensures CallInOrder(p, rows, s) <==> CallbacksAccepted(p, AtomsOf(rows), s)
  {
  }

  // ------------------------------------------------------------------ the verdict

  ghost predicate Clean(p: Program, rows: seq<Row>)
    requires InRange(p) && |rows| == |p.functions|
  {
    && ClausesAccepted(p) && TraitsAccepted(p) && !SomeDiagnosed(p, rows)
    && (forall i :: 0 <= i < |p.flows| ==> FlowAccepted(p, AtomsOf(rows), p.flows[i]))
    && (forall f: nat :: f < |p.functions| ==> ContextOk(p, AtomsOf(rows), InFunction(f)))
    && (forall m: nat :: m < |p.members| ==> ContextOk(p, AtomsOf(rows), InMember(m)))
    && (forall t: nat :: t < |p.traitMethods| ==> ContextOk(p, AtomsOf(rows), InTraitMethod(t)))
  }

  lemma {:induction false} ContextMeans(p: Program, rows: seq<Row>, calls: seq<CallSite>, c: Context)
    requires InRange(p) && |rows| == |p.functions| && ListsAllCalls(p, calls) && ContextInRange(p, c)
    requires ClausesAccepted(p) && AllInOrder(p, rows, calls)
    ensures ContextAccepted(p, AtomsOf(rows), c) <==>
      && ContextOk(p, AtomsOf(rows), c)
      && (BodyOf(p, c).Some? && !Validated(p, c) ==> (ContextBodyInRange(p, c); !BodyDiagnosed(p, AtomsOf(rows), [], BodyOf(p, c).value)))
  {
    hide BodyDiagnosed, BodyOk, Admitted, CallbacksAccepted, CallInOrder, SiteInRange, CallsAccepted, BodyInRange;
    if BodyOf(p, c).Some? {
      var r, b := AtomsOf(rows), BodyOf(p, c).value;
      ContextBodyInRange(p, c);
      BodyOkMeans(p, r, c, [], b);
      forall s | s in Sites(b) ensures SiteInRange(p, s) && CallbacksAccepted(p, r, s) {
        assert s in calls;
        var i :| 0 <= i < |calls| && calls[i] == s;
        InOrderMeans(p, rows, calls[i]);
      }
      CallsAcceptedBySite(p, r, b);
    }
  }

  lemma {:induction false} InferredDiagnosis(p: Program, rows: seq<Row>, c: Context)
    requires InRange(p) && |rows| == |p.functions| && ContextInRange(p, c) && ClausesAccepted(p) && !SomeDiagnosed(p, rows)
    requires BodyOf(p, c).Some? && !Validated(p, c)
    ensures BodyInRange(p, BodyOf(p, c).value) && !BodyDiagnosed(p, AtomsOf(rows), [], BodyOf(p, c).value)
  {
    hide BodyDiagnosed;
    ContextBodyInRange(p, c);
    assert p.functions[c.definition].callable && Inferred(p.functions[c.definition]);
  }

  lemma {:induction false} CleanAccepted(p: Program, rows: seq<Row>, calls: seq<CallSite>)
    requires InRange(p) && |rows| == |p.functions| && ListsAllCalls(p, calls) && AllInOrder(p, rows, calls) && Clean(p, rows)
    ensures Accepted(p, AtomsOf(rows))
  {
    hide ContextAccepted, ContextOk, ListsAllCalls, AllInOrder, SomeDiagnosed, FlowAccepted, ClausesAccepted, TraitsAccepted;
    forall c | ContextInRange(p, c) ensures ContextAccepted(p, AtomsOf(rows), c) {
      ContextMeans(p, rows, calls, c);
      if BodyOf(p, c).Some? && !Validated(p, c) { InferredDiagnosis(p, rows, c); }
      match c
      case InFunction(f) => assert ContextOk(p, AtomsOf(rows), InFunction(f));
      case InMember(m) => assert ContextOk(p, AtomsOf(rows), InMember(m));
      case InTraitMethod(t) => assert ContextOk(p, AtomsOf(rows), InTraitMethod(t));
    }
  }

  lemma {:induction false} AcceptedClean(p: Program, rows: seq<Row>, calls: seq<CallSite>)
    requires InRange(p) && |rows| == |p.functions| && ListsAllCalls(p, calls) && AllInOrder(p, rows, calls)
    requires Accepted(p, AtomsOf(rows))
    ensures Clean(p, rows)
  {
    hide ContextAccepted, ContextOk, ListsAllCalls, AllInOrder, FlowAccepted, ClausesAccepted, TraitsAccepted, BodyDiagnosed, InRange;
    var r := AtomsOf(rows);
    forall c | ContextInRange(p, c) ensures ContextOk(p, r, c) {
      assert ContextAccepted(p, r, c);
      ContextMeans(p, rows, calls, c);
    }
    forall f: nat | f < |rows| && Inferred(p.functions[f]) && p.functions[f].body.Some?
      ensures BodyInRange(p, p.functions[f].body.value) && !BodyDiagnosed(p, r, [], p.functions[f].body.value)
    {
      var c := InFunction(f);
      assert ContextAccepted(p, r, c);
      ContextBodyInRange(p, c);
      ContextMeans(p, rows, calls, c);
    }
  }

  method Infer(p: Program) returns (rows: seq<Row>, diagnosed: bool)
    requires InRange(p)
    ensures |rows| == |p.functions| && IsLeast(p, AtomsOf(rows))
    ensures diagnosed <==> SomeDiagnosed(p, rows)
  {
    hide *;
    var checker := new Checker(p);
    var graph := BuildGraph(p);
    var component, count := FindComponents(graph);
    InferFunctions(checker, component, count);
    rows, diagnosed := checker.rows[..], checker.diagnosed;
  }

  /** The checker as a whole. Its rows are the least solution of the equations, its table
      is the one the validator recomputes, and it reports nothing exactly on the programs
      that meet every rule under these rows. For these the soundness theorem applies, if no
      value flows into an open function type with more than its fixed effects and the row of
      the definition that owns its effect parameter. */
  method Check(p: Program, calls: seq<CallSite>) returns (rows: seq<Row>, table: Table, accepted: bool)
    requires WellTyped(p) && ListsAllCalls(p, calls)
    ensures |rows| == |p.functions| && IsLeast(p, AtomsOf(rows))
    ensures Recorded(p, rows, calls, table) && (accepted ==> Replayable(p, rows, calls, table))
    ensures accepted <==> Accepted(p, AtomsOf(rows)) && AllInOrder(p, rows, calls)
    ensures accepted && OpenFlowsCovered(p, AtomsOf(rows)) ==> Sound(p, AtomsOf(rows))
  {
    var clauses, traits := ClausesAccepted(p), TraitsAccepted(p);
    hide ClausesAccepted, TraitsAccepted, IsLeast, WellTyped, ListsAllCalls, OpenFlowsCovered, Sound, SomeDiagnosed, FlowAccepted, ContextOk, Accepted, CallInOrder, Recorded, Replayable;
    var diagnosed, inOrder;
    rows, diagnosed := Infer(p);
    var coercions := ValidateCoercions(p, rows);
    table, inOrder := RecordCalls(p, rows, calls);
    var functions := ValidateFunctions(p, rows);
    var members := ValidateMembers(p, rows);
    var traitMethods := ValidateTraitMethods(p, rows);
    accepted := clauses && traits && !diagnosed && coercions && inOrder && functions && members && traitMethods;
    if inOrder && Clean(p, rows) { CleanAccepted(p, rows, calls); }
    if inOrder && Accepted(p, AtomsOf(rows)) { AcceptedClean(p, rows, calls); }
    if accepted { RecordedInOrder(p, rows, calls, table); }
    if accepted && OpenFlowsCovered(p, AtomsOf(rows)) { AcceptedSound(p, AtomsOf(rows)); }
  }

  lemma {:induction false} AcceptedSound(p: Program, r: Family)
    requires WellTyped(p) && IsLeast(p, r) && Accepted(p, r) && OpenFlowsCovered(p, r)
    ensures Sound(p, r)
  {
  }
}
