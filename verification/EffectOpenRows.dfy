/** The one condition of soundness that the checker does not test itself: values that flow
    into an open function type inside the definition that owns its effect parameter. */
module EffectOpenRows {
  import opened Options
  import opened EffectProgram
  import opened EffectRows
  import opened EffectSemantics
  import opened EffectAcceptance
  import opened EffectSoundness

  /** A step from a body to a part of it: a child, or the body of a handler. */
  datatype Step = Child(index: nat) | Inside

  /** The part of a body at a path of steps. */
  ghost function PartAt(b: Body, path: seq<Step>): Option<Body>
    decreases path
  {
    if path == [] then Some(b)
    else match path[0]
      case Child(i) => if i < |Children(b)| then PartAt(Children(b)[i], path[1..]) else None
      case Inside => if b.Handle? then PartAt(b.body, path[1..]) else None
  }

  ghost function RunAt(path: seq<Step>, run: Run): Run {
    if path == [] then run
    else match path[0]
      case Child(i) => At(i, RunAt(path[1..], run))
      case Inside => Handling(RunAt(path[1..], run))
  }

  /** No handler intercepts an event without a token. */
  lemma {:induction false} InterceptKeeps(fr: Frame, name: string, root: nat, trace: seq<Event>, e: Event)
    requires e in trace && !e.authority.Held?
    ensures e in Intercept(fr, name, root, trace)
  {
  }

  lemma {:induction false} RunAtExecutes(p: Program, fr: Frame, b: Body, path: seq<Step>, run: Run, e: Event)
    requires PartAt(b, path).Some? && Executes(p, fr, PartAt(b, path).value, run)
    requires e in Trace(p, fr, PartAt(b, path).value, run) && !e.authority.Held?
    ensures Executes(p, fr, b, RunAt(path, run)) && e in Trace(p, fr, b, RunAt(path, run))
    decreases path
  {
    if path != [] {
      match path[0]
      case Child(i) => RunAtExecutes(p, fr, Children(b)[i], path[1..], run, e);
      case Inside =>
        RunAtExecutes(p, fr, b.body, path[1..], run, e);
        InterceptKeeps(fr, b.effectName, b.root, Trace(p, fr, b.body, RunAt(path[1..], run)), e);
    }
  }

  /** The activation callee of callable d can be what a value of type s starts in fr. */
  ghost predicate Started(p: Program, fr: Frame, s: Signature, d: Context, callee: Frame, k: nat) {
    && ContextInRange(p, d) && !d.InTraitMethod? && callee.callbacks == [] && SourceIsSelf(p, d, callee)
    && Inhabits(p, fr, s, ValueOf(d, callee), k)
  }

  /** A call site of a structural type somewhere in a body, also under handlers. */
  ghost predicate CallsType(b: Body, path: seq<Step>, s: Signature) {
    PartAt(b, path).Some? && PartAt(b, path).value.Call? && PartAt(b, path).value.site == ToSignature(s)
  }

  /** Whatever a value does without a token, every callable that calls its type can do as
      well: definitions, operations, and values that got there through several types; at any
      call site, also under handlers; and whether or not any callback is bound. */
  lemma {:induction false} FlowIsExecuted(p: Program, c: Context, fr: Frame, path: seq<Step>, s: Signature, d: Context, callee: Frame, k: nat, run: Run, e: Event)
    requires ContextInRange(p, c) && BodyOf(p, c).Some? && CallsType(BodyOf(p, c).value, path, s)
    requires Started(p, fr, s, d, callee, k) && Runs(p, d, callee, run) && e in Events(p, d, callee, run) && !e.authority.Held?
    ensures exists run' :: Runs(p, c, fr, run') && e in Events(p, c, fr, run')
  {
    var b := BodyOf(p, c).value;
    var call := Calling(d, callee, run);
    hide Inhabits, Yields, Subsumes;
    assert Executes(p, fr, PartAt(b, path).value, call);
    RunAtExecutes(p, fr, b, path, call, e);
    assert Runs(p, c, fr, RunAt(path, call)) && e in Events(p, c, fr, RunAt(path, call));
  }

  // ------------------------------------------------------------ when the condition is exact

  /** Some value that comes from the source performs the effect. */
  ghost predicate Realised(p: Program, source: CallableSource, a: Atom) {
    AuthorityFree(a) && exists d, callee, k: nat, run, e :: Performs(p, source, a, d, callee, k, run, e)
  }

  ghost predicate Performs(p: Program, source: CallableSource, a: Atom, d: Context, callee: Frame, k: nat, run: Run, e: Event) {
    && ContextInRange(p, d) && !d.InTraitMethod? && callee.callbacks == [] && SourceIsSelf(p, d, callee)
    && Yields(p, Frame(map[], 0, []), source, ValueOf(d, callee), k)
    && Runs(p, d, callee, run) && e in Events(p, d, callee, run) && Denotes(callee, a, e)
  }

  /** Values do not depend on tokens. */
  lemma {:induction false} InhabitsAnyFrame(p: Program, x: Frame, y: Frame, s: Signature, v: Value, k: nat)
    requires x.callbacks == y.callbacks && Inhabits(p, x, s, v, k)
    ensures Inhabits(p, y, s, v, k)
    decreases k, 1
  {
    if j :| 0 <= j < |p.flows| && Subsumes(p.flows[j].target, s) && Yields(p, x, p.flows[j].source, v, k) {
      YieldsAnyFrame(p, x, y, p.flows[j].source, v, k);
    }
  }

  lemma {:induction false} YieldsAnyFrame(p: Program, x: Frame, y: Frame, source: CallableSource, v: Value, k: nat)
    requires x.callbacks == y.callbacks && Yields(p, x, source, v, k)
    ensures Yields(p, y, source, v, k)
    decreases k, 0
  {
    if source.SignatureValue? { InhabitsAnyFrame(p, x, y, source.signature, v, k - 1); }
  }

  /** A callable without a body realises every authority-free effect of its declared row. */
  lemma {:induction false} HostRealises(p: Program, source: CallableSource, a: Atom)
    requires SourceInRange(p, source) && !source.SignatureValue? && AuthorityFree(a)
    requires source.FunctionValue? ==> p.functions[source.definition].body.None? && a in InitialRow(p.functions[source.definition])
    requires source.OperationValue? ==> p.members[source.member].body.None? && a in p.members[source.member].row
    ensures Realised(p, source, a)
  {
    var d := if source.FunctionValue? then InFunction(source.definition) else InMember(source.member);
    var callee := Frame(map[], 0, []);
    var e := Event(a.name, if a.authority.NoArgument? then Unowned else Static(a.authority.path));
    assert a in DeclaredRow(p, d) && Denotes(callee, a, e);
    assert HostRuns(p, d, callee, Hosting(e));
    assert Performs(p, source, a, d, callee, 0, Hosting(e), e);
  }

  /** Every open flow is used: its source realises its row, and the definition that owns the
      effect parameter calls a type that the flow reaches. */
  ghost predicate OpenFlowsUsed(p: Program, r: Family)
    requires InRange(p) && |r| == |p.functions|
  {
    forall i :: 0 <= i < |p.flows| && p.flows[i].target.tail.Some? ==>
      && OwnerCalls(p, p.flows[i].target)
      && forall a :: a in SourceRow(p, r, p.flows[i].source) ==> Realised(p, p.flows[i].source, a)
  }

  ghost predicate OwnerCalls(p: Program, t: Signature) {
    && t.tail.Some? && t.tail.value < |p.functions| && p.functions[t.tail.value].body.Some?
    && exists path, s :: CallsType(p.functions[t.tail.value].body.value, path, s) && Subsumes(t, s)
  }

  /** No run without bound callbacks performs an event outside its row. */
  ghost predicate RunsCovered(p: Program, r: Family)
    requires |r| == |p.functions|
  {
    forall c, fr, run, e :: RunsTo(p, r, c, fr, run, e) ==> Covered(RowOf(p, r, c), fr, e)
  }

  ghost predicate RunsTo(p: Program, r: Family, c: Context, fr: Frame, run: Run, e: Event)
    requires |r| == |p.functions|
    ensures RunsTo(p, r, c, fr, run, e) ==> ContextInRange(p, c)
  {
    && ContextInRange(p, c) && FrameOk(p, r, c, fr) && fr.callbacks == []
    && Runs(p, c, fr, run) && e in Events(p, c, fr, run)
  }

  /** A flow beyond the fixed effects and the owner's row gives the owner an uncovered run. */
  lemma {:induction false} OpenFlowLeaks(p: Program, r: Family, i: nat, a: Atom)
    requires InRange(p) && |r| == |p.functions| && i < |p.flows| && OwnerCalls(p, p.flows[i].target)
    requires Realised(p, p.flows[i].source, a) && !OwnerAdmits(r, p.flows[i].target, a)
    ensures !RunsCovered(p, r)
  {
    var t, fr := p.flows[i].target, Frame(map[], 0, []);
    var o := t.tail.value;
    var c := InFunction(o);
    var path, s :| CallsType(p.functions[o].body.value, path, s) && Subsumes(t, s);
    var d, callee, k: nat, run, e :| Performs(p, p.flows[i].source, a, d, callee, k, run, e);
    hide InRange, Runs, Events, PartAt, Yields;
    assert Inhabits(p, fr, s, ValueOf(d, callee), k);
    FlowIsExecuted(p, c, fr, path, s, d, callee, k, run, e);
    var run' :| Runs(p, c, fr, run') && e in Events(p, c, fr, run');
    assert RunsTo(p, r, c, fr, run', e);
    CoveredIfIn(r[o], fr, callee, a, e);
  }

  /** An event without a token is covered by a row if and only if its atom is in the row. */
  lemma {:induction false} CoveredIfIn(row: set<Atom>, fr: Frame, callee: Frame, a: Atom, e: Event)
    requires AuthorityFree(a) && Denotes(callee, a, e)
    ensures Covered(row, fr, e) <==> a in row
  {
    assert Denotes(fr, a, e);
    assert forall x :: Denotes(fr, x, e) ==> x == a;
  }

  /** For accepted programs whose open flows are used, the condition on open flows holds if and
      only if no run without bound callbacks leaves its row. */
  lemma {:induction false} OpenFlowsExact(p: Program, r: Family)
    requires WellTyped(p) && Closed(p, r) && Accepted(p, r) && OpenFlowsUsed(p, r)
    ensures OpenFlowsCovered(p, r) <==> RunsCovered(p, r)
  {
    if OpenFlowsCovered(p, r) {
      forall c, fr, run, e | RunsTo(p, r, c, fr, run, e) ensures Covered(RowOf(p, r, c), fr, e) {
        EffectSoundness.EffectSoundness(p, r, c, fr, run, e);
      }
    } else {
      var i, a :| 0 <= i < |p.flows| && p.flows[i].target.tail.Some? && a in SourceRow(p, r, p.flows[i].source)
                  && !(a in p.flows[i].target.effects || OwnerAdmits(r, p.flows[i].target, a));
      hide WellTyped, Accepted, Closed, RunsCovered;
      OpenFlowLeaks(p, r, i, a);
    }
  }

  /** In the least solution a definition without a body has its declared row. */
  lemma {:induction false} HostRowDeclared(p: Program, r: Family, f: nat)
    requires InRange(p) && IsLeast(p, r) && f < |p.functions| && p.functions[f].body.None?
    ensures r[f] == set a | a in InitialRow(p.functions[f])
  {
    var q := r[f := set a | a in InitialRow(p.functions[f])];
    hide InRange;
    forall g: nat | g < |q| ensures RowClosed(p, q, g) {
      assert RowClosed(p, r, g);
      if g != f && Inferred(p.functions[g]) && p.functions[g].body.Some? {
        BodyOfInRange(p, g);
        var b := p.functions[g].body.value;
        forall a | Contributes(p, q, [], b, a) ensures a in q[g] { ContributesMonotone(p, q, r, [], b, a); }
      }
    }
    assert Closed(p, q);
    assert FamilyLe(r, q);
  }

  lemma {:induction false} BodyOfInRange(p: Program, g: nat)
    requires InRange(p) && g < |p.functions| && p.functions[g].body.Some?
    ensures BodyInRange(p, p.functions[g].body.value)
  {
    assert OptionInRange(p, p.functions[g].body);
  }

  /** Open flows come from definitions and operations without a body, into types that the
      owner of the effect parameter calls. */
  ghost predicate HostFlows(p: Program) {
    forall i :: 0 <= i < |p.flows| && p.flows[i].target.tail.Some? ==>
      && SourceInRange(p, p.flows[i].source) && OwnerCalls(p, p.flows[i].target)
      && match p.flows[i].source
         case FunctionValue(f) => p.functions[f].body.None?
         case OperationValue(m) => p.members[m].body.None?
         case SignatureValue(_) => false
  }

  /** For such programs a test of the final rows decides whether every run stays in its row. */
  lemma {:induction false} HostFlowsExact(p: Program, r: Family)
    requires WellTyped(p) && IsLeast(p, r) && Accepted(p, r) && HostFlows(p)
    ensures OpenFlowsCovered(p, r) <==> RunsCovered(p, r)
  {
    forall i, a | 0 <= i < |p.flows| && p.flows[i].target.tail.Some? && a in SourceRow(p, r, p.flows[i].source)
      ensures Realised(p, p.flows[i].source, a)
    {
      hide WellTyped, Realised, OwnerCalls, IsLeast;
      assert FlowAccepted(p, r, p.flows[i]);
      var source := p.flows[i].source;
      if source.FunctionValue? { HostRowDeclared(p, r, source.definition); }
      HostRealises(p, source, a);
    }
    hide WellTyped, Accepted, Realised, OwnerCalls;
    OpenFlowsExact(p, r);
  }

  // ------------------------------------------------------------ a program that fails

  /** A definition with effect parameter E and row { E } that calls a value of type
      `function() effects E`, a panicking definition used at that type inside it, and a
      definition that does nothing. */
  function Leaky(): Program {
    var open := Signature([], Some(0));
    Program(
      [ Function(true, false, true, Some([]), Some(Call(ToSignature(open), []))),
        Function(true, false, false, Some([PANIC]), Some(Panic(Node([])))),
        Function(true, false, false, Some([]), Some(Node([]))) ],
      [], [], {}, [Flow(FunctionValue(1), open)])
  }

  ghost function LeakyRows(): Family { [{}, {PANIC}, {}] }

  lemma {:induction false} LeakyTyped()
    ensures InRange(Leaky()) && WellTyped(Leaky())
  {
    var p := Leaky();
    assert BodyInRange(p, p.functions[0].body.value) && BodyInRange(p, p.functions[1].body.value) && BodyInRange(p, p.functions[2].body.value);
    assert InRange(p);
    forall c | ContextInRange(p, c) && BodyOf(p, c).Some? ensures Scoped(p, c, BodyOf(p, c).value) {
      assert c == InFunction(0) || c == InFunction(1) || c == InFunction(2);
    }
  }

  lemma {:induction false} LeakyContext(c: Context)
    requires InRange(Leaky()) && ContextInRange(Leaky(), c)
    ensures ContextAccepted(Leaky(), LeakyRows(), c)
  {
    hide InRange;
    var p, r := Leaky(), LeakyRows();
    assert c == InFunction(0) || c == InFunction(1) || c == InFunction(2);
  }

  lemma {:induction false} LeakyLeast()
    requires InRange(Leaky())
    ensures IsLeast(Leaky(), LeakyRows())
  {
    hide InRange;
    var p, r := Leaky(), LeakyRows();
    forall other | Closed(p, other) ensures FamilyLe(r, other) {
      assert (set a | a in InitialRow(p.functions[1])) <= other[1];
      assert PANIC in InitialRow(p.functions[1]);
    }
  }

  /** The checker infers the declared rows of the program, and accepts it. */
  lemma {:induction false} LeakyAccepted()
    ensures InRange(Leaky()) && IsLeast(Leaky(), LeakyRows()) && Accepted(Leaky(), LeakyRows())
    ensures !OpenFlowsCovered(Leaky(), LeakyRows())
  {
    var p, r := Leaky(), LeakyRows();
    LeakyTyped();
    LeakyLeast();
    hide InRange, WellTyped, ContextAccepted, IsLeast;
    forall c | ContextInRange(p, c) ensures ContextAccepted(p, r, c) {
      LeakyContext(c);
    }
    assert FlowAccepted(p, r, p.flows[0]);
    assert p.flows[0].target.tail.Some? && PANIC in SourceRow(p, r, p.flows[0].source) && PANIC !in p.flows[0].target.effects;
    assert !OwnerAdmits(r, p.flows[0].target, PANIC);
  }

  /** Yet it panics, with no callback bound and an empty row. */
  lemma {:induction false} LeakyPanics()
    ensures exists run, e :: Runs(Leaky(), InFunction(0), Frame(map[], 0, []), run)
                             && e in Events(Leaky(), InFunction(0), Frame(map[], 0, []), run)
                             && !Covered({}, Frame(map[], 0, []), e)
  {
    LeakyTyped();
    hide InRange, WellTyped;
    var p, fr, e := Leaky(), Frame(map[], 0, []), Event("panic", Unowned);
    assert Runs(p, InFunction(1), fr, Panicking) && e in Events(p, InFunction(1), fr, Panicking);
    assert Yields(p, fr, p.flows[0].source, Code(1), 0);
    assert Inhabits(p, fr, Signature([], Some(0)), Code(1), 0);
    assert CallsType(p.functions[0].body.value, [], Signature([], Some(0)));
    FlowIsExecuted(p, InFunction(0), fr, [], Signature([], Some(0)), InFunction(1), fr, 0, Panicking, e);
    var run :| Runs(p, InFunction(0), fr, run) && e in Events(p, InFunction(0), fr, run);
    assert !Covered({}, fr, e);
  }
}
