/** What callables perform without a token, computed from the program alone: no frames, no
    tokens, no handlers and no runs. It decides whether every run stays within its row. */
module EffectExecuted {
  import opened Options
  import opened EffectProgram
  import opened EffectRows
  import opened EffectSemantics
  import opened EffectAcceptance
  import opened EffectSoundness
  import opened EffectOpenRows

  // ------------------------------------------------------------------- static calls

  /** A definition or operation bound to a callback parameter whose type has these effects. */
  datatype Bound = Bound(fixed: Row, source: CallableSource)

  /** The source can have type s where these callbacks are bound, in at most k steps. */
  ghost predicate ReachesType(p: Program, bound: set<Bound>, s: Signature, source: CallableSource, k: nat)
    decreases k, 1
  {
    || (s.tail.Some? && exists b :: b in bound && b.source == source && EffectsWithin(b.fixed, s.effects))
    || exists j :: 0 <= j < |p.flows| && Subsumes(p.flows[j].target, s) && Gives(p, bound, p.flows[j].source, source, k)
  }

  ghost predicate Gives(p: Program, bound: set<Bound>, from: CallableSource, source: CallableSource, k: nat)
    decreases k, 0
  {
    if from.SignatureValue? then k > 0 && ReachesType(p, bound, from.signature, source, k - 1) else source == from
  }

  ghost function AllSources(p: Program): set<CallableSource> {
    (set f | 0 <= f < |p.functions| :: FunctionValue(f)) + set m | 0 <= m < |p.members| :: OperationValue(m)
  }

  /** Everything that a call with these arguments binds. */
  ghost function Passed(p: Program, bound: set<Bound>, cbs: seq<CallbackArgument>): set<Bound> {
    set j, x | 0 <= j < |cbs| && x in AllSources(p) && cbs[j].Callback? && (exists k: nat :: Gives(p, bound, cbs[j].actual, x, k))
      :: Bound(cbs[j].fixed, x)
  }

  function SourceOfContext(d: Context): CallableSource {
    match d
    case InFunction(f) => FunctionValue(f)
    case InMember(m) => OperationValue(m)
    case InTraitMethod(_) => FunctionValue(0)
  }

  /** A call at the site may start callable d with these callbacks bound. */
  ghost predicate MayCall(p: Program, bound: set<Bound>, s: CallSite, d: Context, passed: set<Bound>)
    ensures MayCall(p, bound, s, d, passed) ==> ContextInRange(p, d)
  {
    && ContextInRange(p, d)
    && match s
       case NoRow => false
       case ToFunction(g, _, cbs) => d == InFunction(g) && passed == if p.functions[g].polymorphic then Passed(p, bound, cbs) else {}
       case ToSignature(t) => !d.InTraitMethod? && passed == {} && exists k: nat :: ReachesType(p, bound, t, SourceOfContext(d), k)
       case ToMember(m, _, _) => d == InMember(m) && passed == {}
       case ToTraitMethod(t, _) =>
         d.InTraitMethod? && (d.traitMethod == t || (d.traitMethod, t) in p.implementations) && passed == {}
  }

  /** The callable performs the authority-free effect, through at most n calls. */
  ghost predicate Performed(p: Program, c: Context, bound: set<Bound>, a: Atom, n: nat)
    requires ContextInRange(p, c)
    decreases n, 1
  {
    AuthorityFree(a)
    && match BodyOf(p, c)
       case None => a in DeclaredRow(p, c)
       case Some(b) => exists path :: PartAt(b, path).Some? && PartPerforms(p, bound, PartAt(b, path).value, a, n)
  }

  ghost predicate PartPerforms(p: Program, bound: set<Bound>, b: Body, a: Atom, n: nat)
    decreases n, 0
  {
    match b
    case Node(_) => false
    case Panic(_) => a == PANIC
    case Call(s, _) => n > 0 && exists d, passed :: MayCall(p, bound, s, d, passed) && Performed(p, d, passed, a, n - 1)
    case Handle(_, _, _, _, m, _) => n > 0 && ContextInRange(p, InMember(m)) && Performed(p, InMember(m), {}, a, n - 1)
  }

  // -------------------------------------------------------------- more bindings do more

  lemma {:induction false} ReachesMore(p: Program, x: set<Bound>, y: set<Bound>, s: Signature, source: CallableSource, k: nat)
    requires x <= y && ReachesType(p, x, s, source, k)
    ensures ReachesType(p, y, s, source, k)
    decreases k, 1
  {
    if j :| 0 <= j < |p.flows| && Subsumes(p.flows[j].target, s) && Gives(p, x, p.flows[j].source, source, k) {
      GivesMore(p, x, y, p.flows[j].source, source, k);
    }
  }

  lemma {:induction false} GivesMore(p: Program, x: set<Bound>, y: set<Bound>, from: CallableSource, source: CallableSource, k: nat)
    requires x <= y && Gives(p, x, from, source, k)
    ensures Gives(p, y, from, source, k)
    decreases k, 0
  {
    if from.SignatureValue? { ReachesMore(p, x, y, from.signature, source, k - 1); }
  }

  lemma {:induction false} PassedMore(p: Program, x: set<Bound>, y: set<Bound>, cbs: seq<CallbackArgument>)
    requires x <= y
    ensures Passed(p, x, cbs) <= Passed(p, y, cbs)
  {
    forall b | b in Passed(p, x, cbs) ensures b in Passed(p, y, cbs) {
      var j, source, k: nat :| 0 <= j < |cbs| && source in AllSources(p) && cbs[j].Callback? && Gives(p, x, cbs[j].actual, source, k)
                               && b == Bound(cbs[j].fixed, source);
      GivesMore(p, x, y, cbs[j].actual, source, k);
    }
  }

  lemma {:induction false} MayCallMore(p: Program, x: set<Bound>, y: set<Bound>, s: CallSite, d: Context, passed: set<Bound>) returns (more: set<Bound>)
    requires x <= y && MayCall(p, x, s, d, passed)
    ensures passed <= more && MayCall(p, y, s, d, more)
  {
    hide Passed, ReachesType;
    more := passed;
    match s
    case ToFunction(g, _, cbs) =>
      if p.functions[g].polymorphic {
        PassedMore(p, x, y, cbs);
        more := Passed(p, y, cbs);
      }
    case ToSignature(t) =>
      var k: nat :| ReachesType(p, x, t, SourceOfContext(d), k);
      ReachesMore(p, x, y, t, SourceOfContext(d), k);
    case _ =>
  }

  lemma {:induction false} PerformedMore(p: Program, c: Context, x: set<Bound>, y: set<Bound>, a: Atom, n: nat)
    requires ContextInRange(p, c) && x <= y && Performed(p, c, x, a, n)
    ensures Performed(p, c, y, a, n)
    decreases n
  {
    hide MayCall, DeclaredRow;
    if BodyOf(p, c).Some? {
      var b := BodyOf(p, c).value;
      var path :| PartAt(b, path).Some? && PartPerforms(p, x, PartAt(b, path).value, a, n);
      var part := PartAt(b, path).value;
      if part.Call? {
        var d, passed :| MayCall(p, x, part.site, d, passed) && Performed(p, d, passed, a, n - 1);
        var more := MayCallMore(p, x, y, part.site, d, passed);
        PerformedMore(p, d, passed, more, a, n - 1);
      }
      assert PartPerforms(p, y, part, a, n);
    }
  }

  // --------------------------------------------------------- every run is accounted for

  function SourceOf(v: Value): CallableSource {
    match v
    case Code(f) => FunctionValue(f)
    case Operation(m, _) => OperationValue(m)
  }

  ghost function BoundIn(fr: Frame): set<Bound> {
    set i | 0 <= i < |fr.callbacks| :: Bound(fr.callbacks[i].fixed, SourceOf(fr.callbacks[i].value))
  }

  lemma {:induction false} InhabitantReaches(p: Program, fr: Frame, s: Signature, v: Value, k: nat)
    requires Inhabits(p, fr, s, v, k)
    ensures ReachesType(p, BoundIn(fr), s, SourceOf(v), k)
    decreases k, 1
  {
    if i :| s.tail.Some? && 0 <= i < |fr.callbacks| && fr.callbacks[i].value == v && EffectsWithin(fr.callbacks[i].fixed, s.effects) {
      assert Bound(fr.callbacks[i].fixed, SourceOf(v)) in BoundIn(fr);
    } else {
      var j :| 0 <= j < |p.flows| && Subsumes(p.flows[j].target, s) && Yields(p, fr, p.flows[j].source, v, k);
      YieldGives(p, fr, p.flows[j].source, v, k);
    }
  }

  lemma {:induction false} YieldGives(p: Program, fr: Frame, from: CallableSource, v: Value, k: nat)
    requires Yields(p, fr, from, v, k)
    ensures Gives(p, BoundIn(fr), from, SourceOf(v), k)
    decreases k, 0
  {
    if from.SignatureValue? { InhabitantReaches(p, fr, from.signature, v, k - 1); }
  }

  ghost predicate ValuesInRange(p: Program, fr: Frame) {
    forall i :: 0 <= i < |fr.callbacks| ==> SourceOf(fr.callbacks[i].value) in AllSources(p)
  }

  lemma {:induction false} ReachedInRange(p: Program, bound: set<Bound>, s: Signature, source: CallableSource, k: nat)
    requires InRange(p) && (forall b :: b in bound ==> b.source in AllSources(p)) && ReachesType(p, bound, s, source, k)
    ensures source in AllSources(p)
    decreases k, 1
  {
    if b :| s.tail.Some? && b in bound && b.source == source && EffectsWithin(b.fixed, s.effects) {
    } else {
      var j :| 0 <= j < |p.flows| && Subsumes(p.flows[j].target, s) && Gives(p, bound, p.flows[j].source, source, k);
      GivenInRange(p, bound, p.flows[j].source, source, k);
    }
  }

  lemma {:induction false} GivenInRange(p: Program, bound: set<Bound>, from: CallableSource, source: CallableSource, k: nat)
    requires InRange(p) && (forall b :: b in bound ==> b.source in AllSources(p)) && SourceInRange(p, from) && Gives(p, bound, from, source, k)
    ensures source in AllSources(p)
    decreases k, 0
  {
    if from.SignatureValue? { ReachedInRange(p, bound, from.signature, source, k - 1); }
  }

  /** A dispatch is a static call, with at least the callbacks that were bound. */
  lemma {:induction false} DispatchIsCall(p: Program, fr: Frame, s: CallSite, d: Context, callee: Frame) returns (passed: set<Bound>)
    requires InRange(p) && ValuesInRange(p, fr) && SiteInRange(p, s) && Dispatches(p, fr, s, d, callee)
    ensures MayCall(p, BoundIn(fr), s, d, passed) && BoundIn(callee) <= passed && ValuesInRange(p, callee)
  {
    hide InRange, AllSources, ActualsBound, SourceIsSelf;
    passed := {};
    match s
    case ToFunction(g, _, cbs) =>
      if p.functions[g].polymorphic {
        passed := Passed(p, BoundIn(fr), cbs);
        forall i | 0 <= i < |callee.callbacks|
          ensures SourceOf(callee.callbacks[i].value) in AllSources(p)
          ensures Bound(callee.callbacks[i].fixed, SourceOf(callee.callbacks[i].value)) in passed
        {
          BindingPassed(p, fr, cbs, callee.callbacks[i]);
        }
      }
    case ToSignature(t) =>
      var k: nat :| Inhabits(p, fr, t, ValueOf(d, callee), k);
      InhabitantReaches(p, fr, t, ValueOf(d, callee), k);
      assert SourceOf(ValueOf(d, callee)) == SourceOfContext(d);
    case _ =>
  }

  lemma {:induction false} BindingPassed(p: Program, fr: Frame, cbs: seq<CallbackArgument>, b: Binding)
    requires InRange(p) && ValuesInRange(p, fr) && CallbackBound(p, fr, cbs, b)
    requires forall i :: 0 <= i < |cbs| && cbs[i].Callback? ==> SourceInRange(p, cbs[i].actual)
    ensures SourceOf(b.value) in AllSources(p) && Bound(b.fixed, SourceOf(b.value)) in Passed(p, BoundIn(fr), cbs)
  {
    hide InRange, AllSources;
    var j, k: nat :| 0 <= j < |cbs| && cbs[j].Callback? && b.fixed == cbs[j].fixed && Yields(p, fr, cbs[j].actual, b.value, k);
    YieldGives(p, fr, cbs[j].actual, b.value, k);
    GivenInRange(p, BoundIn(fr), cbs[j].actual, SourceOf(b.value), k);
  }

  ghost predicate Shows(fr: Frame, a: Atom, e: Event) { AuthorityFree(a) && Denotes(fr, a, e) }

  lemma {:induction false} RunPerforms(p: Program, c: Context, fr: Frame, run: Run, e: Event) returns (a: Atom, n: nat)
    requires InRange(p) && ContextInRange(p, c) && ValuesInRange(p, fr)
    requires Runs(p, c, fr, run) && e in Events(p, c, fr, run) && !e.authority.Held?
    ensures Shows(fr, a, e) && Performed(p, c, BoundIn(fr), a, n)
    decreases run, 1
  {
    hide InRange, ValuesInRange, BoundIn;
    match BodyOf(p, c)
    case Some(b) =>
      ContextBodyInRange(p, c);
      var path;
      path, a, n := PartRunPerforms(p, fr, b, run, e);
    case None =>
      HostSound(p, c, fr, run, e);
      a :| a in DeclaredRow(p, c) && Denotes(fr, a, e);
      n := 0;
  }

  lemma {:induction false} PartRunPerforms(p: Program, fr: Frame, b: Body, run: Run, e: Event) returns (path: seq<Step>, a: Atom, n: nat)
    requires InRange(p) && BodyInRange(p, b) && ValuesInRange(p, fr)
    requires Executes(p, fr, b, run) && e in Trace(p, fr, b, run) && !e.authority.Held?
    ensures Shows(fr, a, e) && PartAt(b, path).Some? && PartPerforms(p, BoundIn(fr), PartAt(b, path).value, a, n)
    decreases run, 0
  {
    hide InRange, ValuesInRange, BoundIn, Dispatches, MayCall;
    match run
    case Then(x, y) =>
      if e in Trace(p, fr, b, x) {
        path, a, n := PartRunPerforms(p, fr, b, x, e);
      } else {
        path, a, n := PartRunPerforms(p, fr, b, y, e);
      }
    case At(i, x) =>
      var rest;
      rest, a, n := PartRunPerforms(p, fr, Children(b)[i], x, e);
      path := [Child(i)] + rest;
      assert path[1..] == rest;
    case Panicking =>
      path, a, n := [], PANIC, 0;
    case Calling(d, callee, x) =>
      var passed := DispatchIsCall(p, fr, b.site, d, callee);
      a, n := RunPerforms(p, d, callee, x, e);
      PerformedMore(p, d, BoundIn(callee), passed, a, n);
      path, n := [], n + 1;
    case Handling(x) =>
      var rest;
      rest, a, n := PartRunPerforms(p, fr, b.body, x, e);
      path := [Inside] + rest;
      assert path[1..] == rest;
    case Providing(callee, x) =>
      NothingBound(p, callee);
      a, n := RunPerforms(p, InMember(b.providerMember), callee, x, e);
      path, n := [], n + 1;
  }

  lemma {:induction false} NothingBound(p: Program, fr: Frame)
    requires fr.callbacks == []
    ensures BoundIn(fr) == {} && ValuesInRange(p, fr)
  {
  }

  // ----------------------------------------------------- everything computed has a run

  function ValueFor(source: CallableSource): Value
    requires !source.SignatureValue?
  {
    match source
    case FunctionValue(f) => Code(f)
    case OperationValue(m) => Operation(m, 0)
  }

  /** The frame holds one token for all parameters, and exactly these callbacks. */
  ghost predicate Holds(parameters: set<nat>, bound: set<Bound>, fr: Frame) {
    && fr.self == 0 && fr.parameters == (map q | q in parameters :: 0)
    && (forall b :: b in bound ==> !b.source.SignatureValue? && Binding(b.fixed, ValueFor(b.source)) in fr.callbacks)
    && (forall i :: 0 <= i < |fr.callbacks| ==> exists b :: b in bound && !b.source.SignatureValue? && fr.callbacks[i] == Binding(b.fixed, ValueFor(b.source)))
  }

  /** Every capability argument and receiver of the call names some parameter. */
  ghost predicate SiteRooted(parameters: set<nat>, s: CallSite) {
    && (forall q :: q in SiteActuals(s) && SiteActuals(s)[q].Roots? ==> exists root :: root in SiteActuals(s)[q].roots && root in parameters)
    && (s.ToMember? ==> exists root :: root in s.receiver && root in parameters)
  }

  /** The parameters are all those of the program. */
  ghost predicate Rooted(p: Program, parameters: set<nat>) {
    forall c, path, s :: ContextInRange(p, c) && BodyOf(p, c).Some? && CallsAt(BodyOf(p, c).value, path, s) ==> SiteRooted(parameters, s)
  }

  ghost predicate CallsAt(b: Body, path: seq<Step>, s: CallSite) {
    PartAt(b, path).Some? && PartAt(b, path).value.Call? && PartAt(b, path).value.site == s
  }

  lemma {:induction false} FrameFor(parameters: set<nat>, bound: set<Bound>) returns (fr: Frame)
    requires forall b :: b in bound ==> !b.source.SignatureValue?
    ensures Holds(parameters, bound, fr) && (bound == {} ==> fr.callbacks == [])
    decreases |bound|
  {
    if bound == {} {
      fr := Frame(map q | q in parameters :: 0, 0, []);
    } else {
      var b :| b in bound;
      var rest := FrameFor(parameters, bound - {b});
      var last := Binding(b.fixed, ValueFor(b.source));
      fr := rest.(callbacks := rest.callbacks + [last]);
      forall x | x in bound ensures Binding(x.fixed, ValueFor(x.source)) in fr.callbacks {
        assert x == b || x in bound - {b};
      }
      forall i | 0 <= i < |fr.callbacks| ensures exists x :: x in bound && !x.source.SignatureValue? && fr.callbacks[i] == Binding(x.fixed, ValueFor(x.source)) {
        if i < |rest.callbacks| {
          var x :| x in bound - {b} && !x.source.SignatureValue? && rest.callbacks[i] == Binding(x.fixed, ValueFor(x.source));
          assert x in bound;
        }
      }
    }
  }

  lemma {:induction false} ReachedInhabits(p: Program, parameters: set<nat>, bound: set<Bound>, fr: Frame, s: Signature, source: CallableSource, k: nat)
    requires Holds(parameters, bound, fr) && !source.SignatureValue? && ReachesType(p, bound, s, source, k)
    ensures Inhabits(p, fr, s, ValueFor(source), k)
    decreases k, 1
  {
    if b :| s.tail.Some? && b in bound && b.source == source && EffectsWithin(b.fixed, s.effects) {
      var i :| 0 <= i < |fr.callbacks| && fr.callbacks[i] == Binding(b.fixed, ValueFor(source));
    } else {
      var j :| 0 <= j < |p.flows| && Subsumes(p.flows[j].target, s) && Gives(p, bound, p.flows[j].source, source, k);
      GivenYields(p, parameters, bound, fr, p.flows[j].source, source, k);
    }
  }

  lemma {:induction false} GivenYields(p: Program, parameters: set<nat>, bound: set<Bound>, fr: Frame, from: CallableSource, source: CallableSource, k: nat)
    requires Holds(parameters, bound, fr) && !source.SignatureValue? && Gives(p, bound, from, source, k)
    ensures Yields(p, fr, from, ValueFor(source), k)
    decreases k, 0
  {
    hide Holds;
    if from.SignatureValue? { ReachedInhabits(p, parameters, bound, fr, from.signature, source, k - 1); }
  }

  /** A static call can be dispatched between frames that hold its callbacks. */
  lemma {:induction false} CallIsDispatch(p: Program, parameters: set<nat>, bound: set<Bound>, fr: Frame, s: CallSite, d: Context, passed: set<Bound>)
    returns (callee: Frame)
    requires Holds(parameters, bound, fr) && SiteRooted(parameters, s) && MayCall(p, bound, s, d, passed)
    ensures Holds(parameters, passed, callee) && Dispatches(p, fr, s, d, callee)
  {
    assert forall b :: b in passed ==> !b.source.SignatureValue?;
    callee := FrameFor(parameters, passed);
    assert SourceIsSelf(p, d, callee);
    assert ActualsBound(SiteActuals(s), fr, callee);
    hide AllSources;
    match s
    case ToFunction(g, _, cbs) =>
      if p.functions[g].polymorphic {
        forall i | 0 <= i < |callee.callbacks| ensures CallbackBound(p, fr, cbs, callee.callbacks[i]) {
          var b :| b in passed && !b.source.SignatureValue? && callee.callbacks[i] == Binding(b.fixed, ValueFor(b.source));
          PassedBinding(p, parameters, bound, fr, cbs, b);
        }
      }
    case ToSignature(t) =>
      var k: nat :| ReachesType(p, bound, t, SourceOfContext(d), k);
      ReachedInhabits(p, parameters, bound, fr, t, SourceOfContext(d), k);
      assert ValueOf(d, callee) == ValueFor(SourceOfContext(d));
    case ToMember(m, receiver, _) =>
      var root :| root in receiver && root in parameters;
      assert callee.self == fr.parameters[root];
    case _ =>
  }

  lemma {:induction false} PassedBinding(p: Program, parameters: set<nat>, bound: set<Bound>, fr: Frame, cbs: seq<CallbackArgument>, b: Bound)
    requires Holds(parameters, bound, fr) && b in Passed(p, bound, cbs) && !b.source.SignatureValue?
    ensures CallbackBound(p, fr, cbs, Binding(b.fixed, ValueFor(b.source)))
  {
    hide Holds, AllSources;
    var j, source, k: nat :| 0 <= j < |cbs| && source in AllSources(p) && cbs[j].Callback? && Gives(p, bound, cbs[j].actual, source, k)
                             && b == Bound(cbs[j].fixed, source);
    GivenYields(p, parameters, bound, fr, cbs[j].actual, source, k);
  }

  function EventOf(a: Atom): Event
    requires AuthorityFree(a)
  {
    Event(a.name, if a.authority.NoArgument? then Unowned else Static(a.authority.path))
  }

  /** Every effect that is computed is performed by some run. */
  lemma {:induction false} PerformedRuns(p: Program, parameters: set<nat>, c: Context, bound: set<Bound>, fr: Frame, a: Atom, n: nat) returns (run: Run)
    requires Rooted(p, parameters) && ContextInRange(p, c) && Holds(parameters, bound, fr) && Performed(p, c, bound, a, n)
    ensures Runs(p, c, fr, run) && EventOf(a) in Events(p, c, fr, run)
    decreases n, 1
  {
    hide Rooted, Holds, MayCall, PartPerforms;
    if BodyOf(p, c).Some? {
      var b := BodyOf(p, c).value;
      var path :| PartAt(b, path).Some? && PartPerforms(p, bound, PartAt(b, path).value, a, n);
      var inner := PartPerformedRuns(p, parameters, c, path, bound, fr, a, n);
      RunAtExecutes(p, fr, b, path, inner, EventOf(a));
      run := RunAt(path, inner);
    } else {
      assert Denotes(fr, a, EventOf(a));
      run := Hosting(EventOf(a));
    }
  }

  lemma {:induction false} PartPerformedRuns(p: Program, parameters: set<nat>, c: Context, path: seq<Step>, bound: set<Bound>, fr: Frame, a: Atom, n: nat) returns (run: Run)
    requires Rooted(p, parameters) && ContextInRange(p, c) && BodyOf(p, c).Some? && PartAt(BodyOf(p, c).value, path).Some?
    requires Holds(parameters, bound, fr) && AuthorityFree(a) && PartPerforms(p, bound, PartAt(BodyOf(p, c).value, path).value, a, n)
    ensures var part := PartAt(BodyOf(p, c).value, path).value; Executes(p, fr, part, run) && EventOf(a) in Trace(p, fr, part, run)
    decreases n, 0
  {
    hide Holds, MayCall, PartAt, Performed, Dispatches, SiteRooted;
    var part := PartAt(BodyOf(p, c).value, path).value;
    match part
    case Panic(_) => run := Panicking;
    case Call(s, _) =>
      var d, passed :| MayCall(p, bound, s, d, passed) && Performed(p, d, passed, a, n - 1);
      assert CallsAt(BodyOf(p, c).value, path, s);
      var callee := CallIsDispatch(p, parameters, bound, fr, s, d, passed);
      hide Rooted;
      var inner := PerformedRuns(p, parameters, d, passed, callee, a, n - 1);
      DispatchedInRange(p, fr, s, d, callee);
      run := Calling(d, callee, inner);
    case Handle(_, _, _, _, m, _) =>
      hide Rooted;
      var callee := FrameFor(parameters, {});
      UniformSelf(p, parameters, {}, InMember(m), callee);
      var inner := PerformedRuns(p, parameters, InMember(m), {}, callee, a, n - 1);
      run := Providing(callee, inner);
  }

  lemma {:induction false} DispatchedInRange(p: Program, fr: Frame, s: CallSite, d: Context, callee: Frame)
    requires Dispatches(p, fr, s, d, callee)
    ensures ContextInRange(p, d)
  {
  }

  lemma {:induction false} UniformSelf(p: Program, parameters: set<nat>, bound: set<Bound>, c: Context, fr: Frame)
    requires ContextInRange(p, c) && Holds(parameters, bound, fr)
    ensures SourceIsSelf(p, c, fr)
  {
  }

  // -------------------------------------------------- events on tokens are always covered

  /** A value of structural type has an authority-free row, open types included. */
  lemma {:induction false} InhabitantClosed(p: Program, r: Family, fr: Frame, s: Signature, v: Value, k: nat)
    requires Checked(p, r) && Inhabits(p, fr, s, v, k)
    requires forall i :: 0 <= i < |fr.callbacks| ==> ValueClosed(p, r, fr.callbacks[i].value)
    ensures ValueClosed(p, r, v)
    decreases k, 1
  {
    hide WellTyped, Closed, ContextAccepted, ClausesAccepted, TraitsAccepted;
    if j :| 0 <= j < |p.flows| && Subsumes(p.flows[j].target, s) && Yields(p, fr, p.flows[j].source, v, k) {
      SourcesInRange(p, r, j);
      YieldClosed(p, r, fr, p.flows[j].source, v, k);
    }
  }

  lemma {:induction false} SourcesInRange(p: Program, r: Family, j: nat)
    requires Checked(p, r) && j < |p.flows|
    ensures SourceInRange(p, p.flows[j].source)
    ensures !p.flows[j].source.SignatureValue? ==> forall a :: a in SourceRow(p, r, p.flows[j].source) ==> AuthorityFree(a)
  {
    hide Closed, ContextAccepted, ClausesAccepted, TraitsAccepted, Scoped;
    assert FlowAccepted(p, r, p.flows[j]);
  }

  lemma {:induction false} YieldClosed(p: Program, r: Family, fr: Frame, source: CallableSource, v: Value, k: nat)
    requires Checked(p, r) && SourceInRange(p, source) && Yields(p, fr, source, v, k)
    requires !source.SignatureValue? ==> forall a :: a in SourceRow(p, r, source) ==> AuthorityFree(a)
    requires forall i :: 0 <= i < |fr.callbacks| ==> ValueClosed(p, r, fr.callbacks[i].value)
    ensures ValueClosed(p, r, v)
    decreases k, 0
  {
    hide Checked;
    if source.SignatureValue? { InhabitantClosed(p, r, fr, source.signature, v, k - 1); }
  }

  lemma {:induction false} CalleeClosed(p: Program, r: Family, c: Context, fr: Frame, h: Handlers, b: Body, d: Context, callee: Frame)
    requires Checked(p, r) && ContextInRange(p, c) && FrameOk(p, r, c, fr) && PartOk(p, r, c, h, b) && b.Call?
    requires Dispatches(p, fr, b.site, d, callee)
    ensures ContextInRange(p, d) && FrameOk(p, r, d, callee)
  {
    hide Checked;
    forall i | 0 <= i < |callee.callbacks| ensures ValueClosed(p, r, callee.callbacks[i].value) {
      var cbs := b.site.callbacks;
      assert CallbackBound(p, fr, cbs, callee.callbacks[i]);
      var j, k: nat :| 0 <= j < |cbs| && cbs[j].Callback? && callee.callbacks[i].fixed == cbs[j].fixed
                       && Yields(p, fr, cbs[j].actual, callee.callbacks[i].value, k);
      YieldClosed(p, r, fr, cbs[j].actual, callee.callbacks[i].value, k);
    }
  }

  /** An event on a token that the callee's row covers is covered or masked in the caller. */
  lemma {:induction false} HeldCall(p: Program, r: Family, c: Context, fr: Frame, h: Handlers, b: Body, d: Context, callee: Frame, e: Event)
    requires Checked(p, r) && ContextInRange(p, c) && FrameOk(p, r, c, fr) && PartOk(p, r, c, h, b) && b.Call?
    requires Dispatches(p, fr, b.site, d, callee) && ContextInRange(p, d) && Covered(RowOf(p, r, d), callee, e) && e.authority.Held?
    ensures Covered(RowOf(p, r, c), fr, e) || MaskedBy(fr, h, e)
  {
    var a :| a in RowOf(p, r, d) && Denotes(callee, a, e);
    assert !AuthorityFree(a);
    match b.site
    case ToFunction(g, _, cbs) =>
      hide Checked;
      RequiredCovered(p, r, c, fr, h, b, d, callee, a, e);
    case ToSignature(t) =>
      hide Checked;
      var k: nat :| Inhabits(p, fr, t, ValueOf(d, callee), k);
      InhabitantClosed(p, r, fr, t, ValueOf(d, callee), k);
    case ToMember(m, _, _) =>
      hide Checked;
      RequiredCovered(p, r, c, fr, h, b, d, callee, a, e);
    case ToTraitMethod(t, _) => TraitRowFree(p, r, d, a);
  }

  lemma {:induction false} TraitRowFree(p: Program, r: Family, d: Context, a: Atom)
    requires Checked(p, r) && ContextInRange(p, d) && d.InTraitMethod? && a in RowOf(p, r, d)
    ensures AuthorityFree(a)
  {
    hide Closed, ContextAccepted, ClausesAccepted, FlowAccepted, Scoped;
    assert TraitsAccepted(p);
  }

  /** Without the condition on open flows: events on tokens are covered or masked. */
  lemma {:induction false} HeldPart(p: Program, r: Family, c: Context, fr: Frame, h: Handlers, b: Body, run: Run, e: Event)
    requires Checked(p, r) && ContextInRange(p, c) && FrameOk(p, r, c, fr) && PartOk(p, r, c, h, b)
    requires Executes(p, fr, b, run) && e in Trace(p, fr, b, run) && e.authority.Held?
    ensures Covered(RowOf(p, r, c), fr, e) || MaskedBy(fr, h, e)
    decreases run, 0
  {
    hide Checked, PartOk, FrameOk, Dispatches, Covered;
    match run
    case Then(x, y) =>
      if e in Trace(p, fr, b, x) { HeldPart(p, r, c, fr, h, b, x, e); } else { HeldPart(p, r, c, fr, h, b, y, e); }
    case At(i, x) =>
      ChildOk(p, r, c, h, b, i);
      HeldPart(p, r, c, fr, h, Children(b)[i], x, e);
    case Panicking =>
    case Calling(d, callee, x) =>
      CalleeClosed(p, r, c, fr, h, b, d, callee);
      HeldCovered(p, r, d, callee, x, e);
      HeldCall(p, r, c, fr, h, b, d, callee, e);
    case Handling(x) =>
      HandledOk(p, r, c, h, b);
      HeldPart(p, r, c, fr, h + [(b.effectName, b.root)], b.body, x, e);
      StillMasked(fr, h, b.effectName, b.root, e);
    case Providing(callee, x) =>
      var d := InMember(b.providerMember);
      ProviderFrameOk(p, r, d, callee);
      HeldCovered(p, r, d, callee, x, e);
      ProviderSilent(p, r, c, h, b, callee, e);
  }

  lemma {:induction false} HeldCovered(p: Program, r: Family, c: Context, fr: Frame, run: Run, e: Event)
    requires Checked(p, r) && ContextInRange(p, c) && FrameOk(p, r, c, fr)
    requires Runs(p, c, fr, run) && e in Events(p, c, fr, run) && e.authority.Held?
    ensures Covered(RowOf(p, r, c), fr, e)
    decreases run, 1
  {
    hide Checked, FrameOk, Covered;
    match BodyOf(p, c)
    case Some(b) =>
      WholeBodyOk(p, r, c);
      HeldPart(p, r, c, fr, [], b, run, e);
    case None =>
      HostSound(p, c, fr, run, e);
      DeclaredCovered(p, r, c, fr, e);
  }

  // ------------------------------------------------------------------------- the test

  /** Everything that is performed without bound callbacks is in the row. */
  ghost predicate PerformedCovered(p: Program, r: Family)
    requires |r| == |p.functions|
  {
    forall c, a, n: nat :: ContextInRange(p, c) && Performed(p, c, {}, a, n) ==> a in RowOf(p, r, c)
  }

  /** In every accepted program, all runs stay within their rows if and only if the effects
      that are computed as performed do. */
  lemma {:induction false} PerformedExact(p: Program, r: Family, parameters: set<nat>)
    requires Checked(p, r) && Rooted(p, parameters)
    ensures RunsCovered(p, r) <==> PerformedCovered(p, r)
  {
    hide Checked, Rooted, Performed;
    if RunsCovered(p, r) {
      forall c, a, n: nat | ContextInRange(p, c) && Performed(p, c, {}, a, n) ensures a in RowOf(p, r, c) {
        PerformedInRow(p, r, parameters, c, a, n);
      }
    }
    if PerformedCovered(p, r) {
      forall c, fr, run, e | RunsTo(p, r, c, fr, run, e) ensures Covered(RowOf(p, r, c), fr, e) {
        RunInRow(p, r, c, fr, run, e);
      }
    }
  }

  lemma {:induction false} PerformedInRow(p: Program, r: Family, parameters: set<nat>, c: Context, a: Atom, n: nat)
    requires |r| == |p.functions| && Rooted(p, parameters) && RunsCovered(p, r) && ContextInRange(p, c) && Performed(p, c, {}, a, n)
    ensures a in RowOf(p, r, c)
  {
    assert AuthorityFree(a);
    hide Rooted, Performed, Holds, Runs, Events;
    var fr := FrameFor(parameters, {});
    var run := PerformedRuns(p, parameters, c, {}, fr, a, n);
    UniformSelf(p, parameters, {}, c, fr);
    assert RunsTo(p, r, c, fr, run, EventOf(a));
    CoveredIfIn(RowOf(p, r, c), fr, fr, a, EventOf(a));
  }

  lemma {:induction false} RunInRow(p: Program, r: Family, c: Context, fr: Frame, run: Run, e: Event)
    requires Checked(p, r) && PerformedCovered(p, r) && RunsTo(p, r, c, fr, run, e)
    ensures Covered(RowOf(p, r, c), fr, e)
  {
    if e.authority.Held? {
      hide Checked, PerformedCovered;
      HeldCovered(p, r, c, fr, run, e);
    } else {
      assert InRange(p);
      hide Checked, InRange;
      NothingBound(p, fr);
      var a, n := RunPerforms(p, c, fr, run, e);
      assert a in RowOf(p, r, c);
    }
  }

  /** So the condition on the final rows of open flows is enough, for every program. */
  lemma {:induction false} OpenFlowsEnough(p: Program, r: Family, parameters: set<nat>)
    requires Checked(p, r) && Rooted(p, parameters) && OpenFlowsCovered(p, r)
    ensures PerformedCovered(p, r)
  {
    hide Rooted, PerformedCovered;
    forall c, fr, run, e | RunsTo(p, r, c, fr, run, e) ensures Covered(RowOf(p, r, c), fr, e) {
      EffectSoundness.EffectSoundness(p, r, c, fr, run, e);
    }
    PerformedExact(p, r, parameters);
  }
}
