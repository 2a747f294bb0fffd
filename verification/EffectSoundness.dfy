/** Effect soundness: in an accepted program, every event of every execution of a callable
    is covered by the callable's row, read in the activation. */
module EffectSoundness {
  import opened Options
  import opened EffectProgram
  import opened EffectRows
  import opened EffectSemantics
  import opened EffectAcceptance

  ghost predicate ValueInRange(p: Program, v: Value) {
    match v
    case Code(f) => f < |p.functions| && !p.functions[f].polymorphic
    case Operation(m, _) => m < |p.members|
  }

  ghost function ValueRow(p: Program, r: Family, v: Value): set<Atom>
    requires |r| == |p.functions| && ValueInRange(p, v)
  {
    match v
    case Code(f) => r[f]
    case Operation(m, _) => set a | a in p.members[m].row
  }

  /** A value whose row a structural type can represent. */
  ghost predicate ValueClosed(p: Program, r: Family, v: Value)
    requires |r| == |p.functions|
  {
    ValueInRange(p, v) && forall a :: a in ValueRow(p, r, v) ==> AuthorityFree(a)
  }

  ghost predicate FrameOk(p: Program, r: Family, c: Context, fr: Frame)
    requires |r| == |p.functions| && ContextInRange(p, c)
  {
    && SourceIsSelf(p, c, fr)
    && forall i :: 0 <= i < |fr.callbacks| ==> ValueClosed(p, r, fr.callbacks[i].value)
  }

  /** An effect that a bound callback may add beyond the fixed effects of its type: what
      the effect parameter stands for in this activation. */
  ghost predicate Escapes(p: Program, r: Family, fr: Frame, a: Atom)
    requires |r| == |p.functions|
  {
    exists i :: 0 <= i < |fr.callbacks| && ValueClosed(p, r, fr.callbacks[i].value)
                && a in ValueRow(p, r, fr.callbacks[i].value) && a !in fr.callbacks[i].fixed
  }

  ghost predicate EscapesEvent(p: Program, r: Family, fr: Frame, e: Event)
    requires |r| == |p.functions|
  {
    exists a :: Escapes(p, r, fr, a) && Denotes(fr, a, e)
  }

  ghost predicate MaskedBy(fr: Frame, h: Handlers, e: Event) {
    exists i :: 0 <= i < |h| && h[i].1 in fr.parameters && e == Event(h[i].0, Held(fr.parameters[h[i].1]))
  }

  /** Handlers mask an atom on a parameter if and only if one of them, innermost or not, does so
      in every activation. */
  lemma {:induction false} HandledMeans(h: Handlers, a: Atom)
    requires a.authority.Parameter?
    ensures IsHandled(h, a) <==> forall fr, e :: Denotes(fr, a, e) ==> MaskedBy(fr, h, e)
  {
    var root := a.authority.root;
    if IsHandled(h, a) {
      var i :| 0 <= i < |h| && h[i] == (a.name, root);
    } else {
      HandledApart(h, a);
    }
  }

  /** Where parameters hold different tokens, only a handler for this name and parameter masks. */
  lemma {:induction false} HandledApart(h: Handlers, a: Atom)
    requires a.authority.Parameter? && !IsHandled(h, a)
    ensures exists fr, e :: Denotes(fr, a, e) && !MaskedBy(fr, h, e)
  {
    var fr := Frame(map[a.authority.root := 0], 0, []);
    assert Denotes(fr, a, Event(a.name, Held(0)));
    assert !MaskedBy(fr, h, Event(a.name, Held(0)));
  }

  /** What the checker establishes. */
  ghost predicate Checked(p: Program, r: Family)
    ensures Checked(p, r) ==> |r| == |p.functions|
  {
    WellTyped(p) && Closed(p, r) && Accepted(p, r)
  }

  /** Everything soundness rests on. */
  ghost predicate Sound(p: Program, r: Family)
    ensures Sound(p, r) ==> |r| == |p.functions|
  {
    Checked(p, r) && OpenFlowsCovered(p, r)
  }

  // ------------------------------------------------------------- function values

  /** The row of any value of a structural type lies in its fixed effects, or in what the
      effect parameter stands for. */
  lemma {:induction false} InhabitantRow(p: Program, r: Family, fr: Frame, s: Signature, v: Value, k: nat)
    requires Sound(p, r) && Inhabits(p, fr, s, v, k)
    requires forall i :: 0 <= i < |fr.callbacks| ==> ValueClosed(p, r, fr.callbacks[i].value)
    ensures ValueClosed(p, r, v)
    ensures forall a :: a in ValueRow(p, r, v) ==> a in s.effects || (s.tail.Some? && Escapes(p, r, fr, a)) || OwnerAdmits(r, s, a)
    decreases k, 1
  {
    hide InRange, Closed, Scoped, ContextAccepted;
    if s.tail.Some? && exists i :: 0 <= i < |fr.callbacks| && fr.callbacks[i].value == v
                                   && EffectsWithin(fr.callbacks[i].fixed, s.effects) {
    } else {
      var j :| 0 <= j < |p.flows| && Subsumes(p.flows[j].target, s) && Yields(p, fr, p.flows[j].source, v, k);
      FlowRow(p, r, fr, j, v, k);
    }
  }

  lemma {:induction false} FlowRow(p: Program, r: Family, fr: Frame, j: nat, v: Value, k: nat)
    requires Sound(p, r) && j < |p.flows| && Yields(p, fr, p.flows[j].source, v, k)
    requires forall i :: 0 <= i < |fr.callbacks| ==> ValueClosed(p, r, fr.callbacks[i].value)
    ensures ValueClosed(p, r, v)
    ensures var t := p.flows[j].target;
            forall a :: a in ValueRow(p, r, v) ==> a in t.effects || (t.tail.Some? && Escapes(p, r, fr, a)) || OwnerAdmits(r, t, a)
    decreases k, 0
  {
    var x := p.flows[j];
    assert SourceInRange(p, x.source) && FlowAccepted(p, r, x);
    match x.source
    case FunctionValue(f) =>
    case OperationValue(m) =>
    case SignatureValue(s) =>
      InhabitantRow(p, r, fr, s, v, k - 1);
      assert Assignable(s, x.target);
      forall a | a in ValueRow(p, r, v) ensures a in x.target.effects || (x.target.tail.Some? && Escapes(p, r, fr, a)) || OwnerAdmits(r, x.target, a) {
        if a in s.effects { assert a in SourceRow(p, r, x.source); }
      }
  }

  // ------------------------------------------------------------------ call sites

  /** Substitution is right: the event an atom of the callee stands for is the event that
      one of its instances stands for in the caller. */
  lemma {:induction false} InstanceDenotes(p: Program, fr: Frame, s: CallSite, c: Context, callee: Frame, a: Atom, e: Event) returns (b: Atom)
    requires Dispatches(p, fr, s, c, callee) && Denotes(callee, a, e)
    requires SiteRoots(s, a.authority).Some?
    requires s.ToSignature? || s.ToTraitMethod? ==> AuthorityFree(a)
    ensures b in Instances(s, a) && Denotes(fr, b, e)
  {
    if AuthorityFree(a) {
      b := a;
    } else {
      var roots := SiteRoots(s, a.authority).value;
      var root;
      if a.authority.SelfAuthority? {
        root :| root in s.receiver && root in fr.parameters && callee.self == fr.parameters[root];
      } else {
        var q := a.authority.root;
        root :| root in SiteActuals(s)[q].roots && root in fr.parameters && callee.parameters[q] == fr.parameters[root];
      }
      b := Atom(a.name, Parameter(root));
      var i :| 0 <= i < |roots| && roots[i] == root;
      assert Instances(s, a)[i] == b;
    }
  }

  lemma {:induction false} AllowedCovers(p: Program, r: Family, c: Context, fr: Frame, a: Atom, e: Event)
    requires |r| == |p.functions| && ContextInRange(p, c) && FrameOk(p, r, c, fr)
    requires Allowed(p, r, c, a) && Denotes(fr, a, e)
    ensures Covered(RowOf(p, r, c), fr, e)
  {
    if a !in RowOf(p, r, c) {
      assert Denotes(fr, Atom(a.name, SelfAuthority), e);
    }
  }

  /** A required atom of the callee leads to a covered or a masked event of the caller. */
  lemma {:induction false} RequiredCovered(p: Program, r: Family, c: Context, fr: Frame, h: Handlers, b: Body, d: Context, callee: Frame, a: Atom, e: Event)
    requires |r| == |p.functions| && ContextInRange(p, c) && FrameOk(p, r, c, fr)
    requires b.Call? && BodyInRange(p, b) && !BodyDiagnosed(p, r, h, b) && Admitted(p, r, c, h, b)
    requires Dispatches(p, fr, b.site, d, callee) && Required(p, r, b.site, a) && Denotes(callee, a, e)
    requires b.site.ToSignature? || b.site.ToTraitMethod? ==> AuthorityFree(a)
    ensures Covered(RowOf(p, r, c), fr, e) || MaskedBy(fr, h, e)
  {
    assert SiteRoots(b.site, a.authority).Some?;
    var x := InstanceDenotes(p, fr, b.site, d, callee, a, e);
    if IsHandled(h, x) {
      var i :| 0 <= i < |h| && h[i] == (x.name, x.authority.root);
    } else {
      assert SiteContributes(p, r, h, b.site, x);
      AllowedCovers(p, r, c, fr, x, e);
    }
  }

  /** What acceptance gives for a part of an accepted body, under the handlers around it. */
  ghost predicate PartOk(p: Program, r: Family, c: Context, h: Handlers, b: Body)
    requires |r| == |p.functions| && ContextInRange(p, c)
  {
    && BodyInRange(p, b) && Scoped(p, c, b)
    && !BodyDiagnosed(p, r, h, b) && CallsAccepted(p, r, b) && Admitted(p, r, c, h, b)
  }

  lemma {:induction false} ChildOk(p: Program, r: Family, c: Context, h: Handlers, b: Body, i: nat)
    requires |r| == |p.functions| && ContextInRange(p, c) && PartOk(p, r, c, h, b) && i < |Children(b)|
    ensures PartOk(p, r, c, h, Children(b)[i])
  {
    var d := Children(b)[i];
    assert forall a :: Contributes(p, r, h, d, a) ==> Contributes(p, r, h, b, a);
  }

  lemma {:induction false} HandledOk(p: Program, r: Family, c: Context, h: Handlers, b: Body)
    requires |r| == |p.functions| && ContextInRange(p, c) && PartOk(p, r, c, h, b) && b.Handle?
    ensures PartOk(p, r, c, h + [(b.effectName, b.root)], b.body)
  {
    assert forall a :: Contributes(p, r, h + [(b.effectName, b.root)], b.body, a) ==> Contributes(p, r, h, b, a);
  }

  /** A bound callback adds exactly what the call site accounts for. */
  lemma {:induction false} BindingRow(p: Program, r: Family, c: Context, fr: Frame, s: CallSite, b: Binding)
    requires Sound(p, r) && ContextInRange(p, c) && FrameOk(p, r, c, fr)
    requires SiteInRange(p, s) && SiteScoped(p, c, s) && CallbacksAccepted(p, r, s)
    requires s.ToFunction? && p.functions[s.target].polymorphic && CallbackBound(p, fr, s.callbacks, b)
    ensures ValueClosed(p, r, b.value)
    ensures forall a :: a in ValueRow(p, r, b.value) && a !in b.fixed ==>
      || Required(p, r, s, a)
      || (CallbackTail(s.callbacks).Some? && ((TailOf(p, c).Some? && Escapes(p, r, fr, a)) || a in RowOf(p, r, c)))
  {
    hide InRange, Closed, Accepted, WellTyped, CallbackTail;
    var j, k: nat :| 0 <= j < |s.callbacks| && s.callbacks[j].Callback? && b.fixed == s.callbacks[j].fixed
                     && Yields(p, fr, s.callbacks[j].actual, b.value, k);
    var cb := s.callbacks[j];
    assert SourceInRange(p, cb.actual);
    if cb.actual.SignatureValue? {
      InhabitantRow(p, r, fr, cb.actual.signature, b.value, k - 1);
    }
    forall a | a in ValueRow(p, r, b.value) && a !in b.fixed
      ensures || Required(p, r, s, a)
              || (CallbackTail(s.callbacks).Some? && ((TailOf(p, c).Some? && Escapes(p, r, fr, a)) || a in RowOf(p, r, c)))
    {
      if a in SourceRow(p, r, cb.actual) {
        assert CallbackAdds(p, r, cb, a);
        assert SomeCallbackAdds(p, r, s.callbacks, a);
      } else {
        TailFound(s.callbacks, j);
        assert cb.actual.SignatureValue? && SignatureScoped(p, c, cb.actual.signature);
      }
    }
  }

  lemma {:induction false} TailFound(cbs: seq<CallbackArgument>, j: nat)
    requires j < |cbs| && cbs[j].Callback? && cbs[j].actual.SignatureValue? && cbs[j].actual.signature.tail.Some?
    ensures CallbackTail(cbs).Some?
  {
    if j > 0 { TailFound(cbs[1..], j - 1); }
  }

  lemma {:induction false} CalleeFrameOk(p: Program, r: Family, c: Context, fr: Frame, s: CallSite, d: Context, callee: Frame)
    requires Sound(p, r) && ContextInRange(p, c) && FrameOk(p, r, c, fr)
    requires SiteInRange(p, s) && SiteScoped(p, c, s) && CallbacksAccepted(p, r, s) && Dispatches(p, fr, s, d, callee)
    ensures ContextInRange(p, d) && FrameOk(p, r, d, callee)
  {
    hide Sound, InRange;
    forall i | 0 <= i < |callee.callbacks| ensures ValueClosed(p, r, callee.callbacks[i].value) {
      BindingRow(p, r, c, fr, s, callee.callbacks[i]);
    }
  }

  /** What a callee's event means: the callee's row covers it, or a bound callback does. */
  ghost predicate EventOk(p: Program, r: Family, c: Context, fr: Frame, e: Event)
    requires |r| == |p.functions| && ContextInRange(p, c)
  {
    Covered(RowOf(p, r, c), fr, e) || (TailOf(p, c).Some? && EscapesEvent(p, r, fr, e))
  }

  /** One call: an event that is in order for the callee is in order for the caller. */
  lemma {:induction false} CallSound(p: Program, r: Family, c: Context, fr: Frame, h: Handlers, b: Body, d: Context, callee: Frame, e: Event)
    requires Sound(p, r) && ContextInRange(p, c) && FrameOk(p, r, c, fr) && PartOk(p, r, c, h, b) && b.Call?
    requires Dispatches(p, fr, b.site, d, callee) && EventOk(p, r, d, callee, e)
    ensures EventOk(p, r, c, fr, e) || MaskedBy(fr, h, e)
  {
    match b.site
    case ToFunction(g, _, cbs) => FunctionCallSound(p, r, c, fr, h, b, d, callee, e);
    case ToSignature(t) => SignatureCallSound(p, r, c, fr, h, b, d, callee, e);
    case ToMember(m, _, _) =>
      var a :| a in RowOf(p, r, d) && Denotes(callee, a, e);
      RequiredCovered(p, r, c, fr, h, b, d, callee, a, e);
    case ToTraitMethod(t, _) => TraitCallSound(p, r, c, fr, h, b, d, callee, e);
  }

  lemma {:induction false} FunctionCallSound(p: Program, r: Family, c: Context, fr: Frame, h: Handlers, b: Body, d: Context, callee: Frame, e: Event)
    requires Sound(p, r) && ContextInRange(p, c) && FrameOk(p, r, c, fr) && PartOk(p, r, c, h, b) && b.Call? && b.site.ToFunction?
    requires Dispatches(p, fr, b.site, d, callee) && EventOk(p, r, d, callee, e)
    ensures EventOk(p, r, c, fr, e) || MaskedBy(fr, h, e)
  {
    hide Sound, InRange;
    if Covered(RowOf(p, r, d), callee, e) {
      var a :| a in RowOf(p, r, d) && Denotes(callee, a, e);
      RequiredCovered(p, r, c, fr, h, b, d, callee, a, e);
    } else {
      var a :| Escapes(p, r, callee, a) && Denotes(callee, a, e);
      var i :| 0 <= i < |callee.callbacks| && ValueClosed(p, r, callee.callbacks[i].value)
               && a in ValueRow(p, r, callee.callbacks[i].value) && a !in callee.callbacks[i].fixed;
      BindingRow(p, r, c, fr, b.site, callee.callbacks[i]);
      assert AuthorityFree(a) && Denotes(fr, a, e);
      if Required(p, r, b.site, a) {
        RequiredCovered(p, r, c, fr, h, b, d, callee, a, e);
      }
    }
  }

  lemma {:induction false} SignatureCallSound(p: Program, r: Family, c: Context, fr: Frame, h: Handlers, b: Body, d: Context, callee: Frame, e: Event)
    requires Sound(p, r) && ContextInRange(p, c) && FrameOk(p, r, c, fr) && PartOk(p, r, c, h, b) && b.Call? && b.site.ToSignature?
    requires Dispatches(p, fr, b.site, d, callee) && EventOk(p, r, d, callee, e)
    ensures EventOk(p, r, c, fr, e) || MaskedBy(fr, h, e)
  {
    hide InRange, WellTyped, Accepted, Closed, OpenFlowsCovered;
    var t, v := b.site.signature, ValueOf(d, callee);
    var k: nat :| Inhabits(p, fr, t, v, k);
    InhabitantRow(p, r, fr, t, v, k);
    assert TailOf(p, d).None?;
    var a :| a in RowOf(p, r, d) && Denotes(callee, a, e);
    assert a in ValueRow(p, r, v);
    assert AuthorityFree(a) && Denotes(fr, a, e);
    if a in t.effects {
      RequiredCovered(p, r, c, fr, h, b, d, callee, a, e);
    } else {
      assert SignatureScoped(p, c, t);
    }
  }

  lemma {:induction false} TraitCallSound(p: Program, r: Family, c: Context, fr: Frame, h: Handlers, b: Body, d: Context, callee: Frame, e: Event)
    requires Sound(p, r) && ContextInRange(p, c) && FrameOk(p, r, c, fr) && PartOk(p, r, c, h, b) && b.Call? && b.site.ToTraitMethod?
    requires Dispatches(p, fr, b.site, d, callee) && EventOk(p, r, d, callee, e)
    ensures EventOk(p, r, c, fr, e) || MaskedBy(fr, h, e)
  {
    hide Closed, OpenFlowsCovered, ContextAccepted, FlowAccepted, ClausesAccepted;
    var a :| a in RowOf(p, r, d) && Denotes(callee, a, e);
    var t := b.site.traitMethod;
    if d.traitMethod != t {
      assert (d.traitMethod, t) in p.implementations;
    }
    assert a in p.traitMethods[t].row;
    RequiredCovered(p, r, c, fr, h, b, d, callee, a, e);
  }

  /** Soundness inside a body: an event of the body is in order, or an enclosing handler
      of the same activation intercepts it. */
  lemma {:induction false} ExecutionSound(p: Program, r: Family, c: Context, fr: Frame, h: Handlers, b: Body, run: Run, e: Event)
    requires Sound(p, r) && ContextInRange(p, c) && FrameOk(p, r, c, fr) && PartOk(p, r, c, h, b)
    requires Executes(p, fr, b, run) && e in Trace(p, fr, b, run)
    ensures EventOk(p, r, c, fr, e) || MaskedBy(fr, h, e)
    decreases run, 0
  {
    hide Sound, PartOk, FrameOk, EventOk, Dispatches;
    match run
    case Then(x, y) =>
      if e in Trace(p, fr, b, x) {
        ExecutionSound(p, r, c, fr, h, b, x, e);
      } else {
        ExecutionSound(p, r, c, fr, h, b, y, e);
      }
    case At(i, x) =>
      ChildOk(p, r, c, h, b, i);
      ExecutionSound(p, r, c, fr, h, Children(b)[i], x, e);
    case Panicking => PanicSound(p, r, c, fr, h, b, e);
    case Calling(d, callee, x) =>
      CallFrameOk(p, r, c, fr, h, b, d, callee);
      ActivationSound(p, r, d, callee, x, e);
      CallSound(p, r, c, fr, h, b, d, callee, e);
    case Handling(x) =>
      HandledOk(p, r, c, h, b);
      ExecutionSound(p, r, c, fr, h + [(b.effectName, b.root)], b.body, x, e);
      StillMasked(fr, h, b.effectName, b.root, e);
    case Providing(callee, x) =>
      var d := InMember(b.providerMember);
      ProviderFrameOk(p, r, d, callee);
      ActivationSound(p, r, d, callee, x, e);
      ProviderSilent(p, r, c, h, b, callee, e);
  }

  lemma {:induction false} CallFrameOk(p: Program, r: Family, c: Context, fr: Frame, h: Handlers, b: Body, d: Context, callee: Frame)
    requires Sound(p, r) && ContextInRange(p, c) && FrameOk(p, r, c, fr) && PartOk(p, r, c, h, b) && b.Call?
    requires Dispatches(p, fr, b.site, d, callee)
    ensures ContextInRange(p, d) && FrameOk(p, r, d, callee)
  {
    hide Sound;
    CalleeFrameOk(p, r, c, fr, b.site, d, callee);
  }

  lemma {:induction false} ProviderFrameOk(p: Program, r: Family, d: Context, callee: Frame)
    requires |r| == |p.functions| && ContextInRange(p, d) && SourceIsSelf(p, d, callee) && callee.callbacks == []
    ensures FrameOk(p, r, d, callee)
  {
  }

  lemma {:induction false} PanicSound(p: Program, r: Family, c: Context, fr: Frame, h: Handlers, b: Body, e: Event)
    requires |r| == |p.functions| && ContextInRange(p, c) && FrameOk(p, r, c, fr) && PartOk(p, r, c, h, b)
    requires b.Panic? && e == Event("panic", Unowned)
    ensures EventOk(p, r, c, fr, e)
  {
    assert Contributes(p, r, h, b, PANIC);
    AllowedCovers(p, r, c, fr, PANIC, e);
  }

  lemma {:induction false} StillMasked(fr: Frame, h: Handlers, name: string, root: nat, e: Event)
    requires root in fr.parameters ==> e != Event(name, Held(fr.parameters[root]))
    ensures MaskedBy(fr, h + [(name, root)], e) ==> MaskedBy(fr, h, e)
  {
    var g := h + [(name, root)];
    if MaskedBy(fr, g, e) {
      var i :| 0 <= i < |g| && g[i].1 in fr.parameters && e == Event(g[i].0, Held(fr.parameters[g[i].1]));
      assert g[i] == h[i];
    }
  }

  /** A handler's provider operation is pure, so it performs nothing at all. */
  lemma {:induction false} ProviderSilent(p: Program, r: Family, c: Context, h: Handlers, b: Body, callee: Frame, e: Event)
    requires |r| == |p.functions| && ContextInRange(p, c) && PartOk(p, r, c, h, b) && b.Handle?
    ensures ContextInRange(p, InMember(b.providerMember)) && !EventOk(p, r, InMember(b.providerMember), callee, e)
  {
    assert p.members[b.providerMember].row == [];
  }

  lemma {:induction false} HostSound(p: Program, c: Context, fr: Frame, run: Run, e: Event)
    requires ContextInRange(p, c) && HostRuns(p, c, fr, run) && e in HostEvents(run)
    ensures Covered(DeclaredRow(p, c), fr, e)
  {
    if run.Then? {
      if e in HostEvents(run.first) {
        HostSound(p, c, fr, run.first, e);
      } else {
        HostSound(p, c, fr, run.rest, e);
      }
    }
  }

  /** Soundness of one activation. */
  lemma {:induction false} ActivationSound(p: Program, r: Family, c: Context, fr: Frame, run: Run, e: Event)
    requires Sound(p, r) && ContextInRange(p, c) && FrameOk(p, r, c, fr)
    requires Runs(p, c, fr, run) && e in Events(p, c, fr, run)
    ensures EventOk(p, r, c, fr, e)
    decreases run, 1
  {
    hide Checked, OpenFlowsCovered, FrameOk;
    match BodyOf(p, c)
    case Some(b) =>
      WholeBodyOk(p, r, c);
      ExecutionSound(p, r, c, fr, [], b, run, e);
    case None =>
      HostSound(p, c, fr, run, e);
      DeclaredCovered(p, r, c, fr, e);
  }

  lemma {:induction false} DeclaredCovered(p: Program, r: Family, c: Context, fr: Frame, e: Event)
    requires Checked(p, r) && ContextInRange(p, c) && Covered(DeclaredRow(p, c), fr, e)
    ensures Covered(RowOf(p, r, c), fr, e)
  {
    hide Accepted, WellTyped, RowClosed;
    var a :| a in DeclaredRow(p, c) && Denotes(fr, a, e);
    if c.InFunction? {
      assert (set x | x in InitialRow(p.functions[c.definition])) <= r[c.definition];
    }
    assert a in RowOf(p, r, c);
  }

  /** An accepted body, inferred or validated, contributes only what its row admits. */
  lemma {:induction false} WholeBodyOk(p: Program, r: Family, c: Context)
    requires Checked(p, r) && ContextInRange(p, c) && BodyOf(p, c).Some?
    ensures PartOk(p, r, c, [], BodyOf(p, c).value)
  {
    var b := BodyOf(p, c).value;
    ContextBodyInRange(p, c);
    assert ContextAccepted(p, r, c);
    if !Validated(p, c) {
      var f := c.definition;
      assert p.functions[f].callable && Inferred(p.functions[f]);
      assert RowClosed(p, r, f);
    }
  }

  /** The main theorem: no execution of a callable performs an event outside its row. The
      callbacks of an effect-polymorphic definition add what its parameter stands for. */
  lemma {:induction false} EffectSoundness(p: Program, r: Family, c: Context, fr: Frame, run: Run, e: Event)
    requires Sound(p, r) && ContextInRange(p, c) && FrameOk(p, r, c, fr)
    requires Runs(p, c, fr, run) && e in Events(p, c, fr, run)
    ensures Covered(RowOf(p, r, c), fr, e) || (TailOf(p, c).Some? && EscapesEvent(p, r, fr, e))
    ensures fr.callbacks == [] ==> Covered(RowOf(p, r, c), fr, e)
  {
    ActivationSound(p, r, c, fr, run, e);
  }
}
