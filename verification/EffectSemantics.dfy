/** What a program does when it runs, independently of its rows: activations hold
    capability tokens, host operations and panics are events, and handlers intercept
    events of one name on one token. */
module EffectSemantics {
  import opened Options
  import opened EffectProgram

  datatype EventAuthority = Unowned | Static(path: string) | Held(token: int)

  datatype Event = Event(name: string, authority: EventAuthority)

  /** A function value at run time: code, or a capability operation bound to a receiver. */
  datatype Value = Code(definition: nat) | Operation(member: nat, receiver: int)

  /** A value bound to a callback parameter whose type has these fixed effects. */
  datatype Binding = Binding(fixed: Row, value: Value)

  /** An activation: one token per capability parameter, the token of Self, and the values
      bound to the callback parameters that mention the effect parameter. */
  datatype Frame = Frame(parameters: map<nat, int>, self: int, callbacks: seq<Binding>)

  /** The callable whose body or host operation is running. */
  datatype Context = InFunction(definition: nat) | InMember(member: nat) | InTraitMethod(traitMethod: nat)

  ghost predicate ContextInRange(p: Program, c: Context) {
    match c
    case InFunction(f) => f < |p.functions|
    case InMember(m) => m < |p.members|
    case InTraitMethod(t) => t < |p.traitMethods|
  }

  ghost function BodyOf(p: Program, c: Context): Option<Body>
    requires ContextInRange(p, c)
  {
    match c
    case InFunction(f) => p.functions[f].body
    case InMember(m) => p.members[m].body
    case InTraitMethod(t) => p.traitMethods[t].body
  }

  ghost function DeclaredRow(p: Program, c: Context): set<Atom>
    requires ContextInRange(p, c)
  {
    match c
    case InFunction(f) => set a | a in InitialRow(p.functions[f])
    case InMember(m) => set a | a in p.members[m].row
    case InTraitMethod(t) => set a | a in p.traitMethods[t].row
  }

  // --------------------------------------------------------------- rows as events

  /** The event an atom stands for in an activation. */
  ghost predicate Denotes(fr: Frame, a: Atom, e: Event) {
    && a.name == e.name
    && match a.authority
       case NoArgument => e.authority == Unowned
       case StaticPath(s) => e.authority == Static(s)
       case Parameter(q) => q in fr.parameters && e.authority == Held(fr.parameters[q])
       case SelfAuthority => e.authority == Held(fr.self)
  }

  ghost predicate Covered(row: set<Atom>, fr: Frame, e: Event) {
    exists a :: a in row && Denotes(fr, a, e)
  }

  // ------------------------------------------------------------- function values

  ghost predicate EffectsWithin(x: Row, y: Row) {
    forall a :: a in x ==> a in y
  }

  /** A value of type t may be used at type s. */
  ghost predicate Subsumes(t: Signature, s: Signature) {
    EffectsWithin(t.effects, s.effects) && (t.tail.None? || t.tail == s.tail)
  }

  /** Value v can have type s in the activation fr: it was bound by the call that created
      the activation, or it got there through the program's flows, in at most k steps. */
  ghost predicate Inhabits(p: Program, fr: Frame, s: Signature, v: Value, k: nat)
    decreases k, 1
  {
    || (s.tail.Some? && exists i :: 0 <= i < |fr.callbacks| && fr.callbacks[i].value == v
                                    && EffectsWithin(fr.callbacks[i].fixed, s.effects))
    || exists j :: 0 <= j < |p.flows| && Subsumes(p.flows[j].target, s) && Yields(p, fr, p.flows[j].source, v, k)
  }

  ghost predicate Yields(p: Program, fr: Frame, source: CallableSource, v: Value, k: nat)
    decreases k, 0
  {
    match source
    case FunctionValue(f) => v == Code(f)
    case OperationValue(m) => v.Operation? && v.member == m
    case SignatureValue(s) => k > 0 && Inhabits(p, fr, s, v, k - 1)
  }

  // ------------------------------------------------------------------ activations

  /** A wrapper's private source carries the authority of Self. */
  ghost predicate SourceIsSelf(p: Program, c: Context, fr: Frame)
    requires ContextInRange(p, c)
  {
    c.InMember? && p.members[c.member].source.Some? && p.members[c.member].source.value in fr.parameters ==>
      fr.parameters[p.members[c.member].source.value] == fr.self
  }

  /** Every capability argument holds the token of one of its possible roots. */
  ghost predicate ActualsBound(x: Actuals, fr: Frame, callee: Frame) {
    forall q :: q in x && x[q].Roots? && q in callee.parameters ==>
      exists root :: root in x[q].roots && root in fr.parameters && callee.parameters[q] == fr.parameters[root]
  }

  ghost predicate CallbackBound(p: Program, fr: Frame, cbs: seq<CallbackArgument>, b: Binding) {
    exists j, k: nat :: 0 <= j < |cbs| && cbs[j].Callback? && b.fixed == cbs[j].fixed && Yields(p, fr, cbs[j].actual, b.value, k)
  }

  ghost function ValueOf(c: Context, callee: Frame): Value {
    if c.InFunction? then Code(c.definition) else if c.InMember? then Operation(c.member, callee.self) else Code(0)
  }

  /** A call at site s, from activation fr, may start callable c in the activation callee. */
  ghost predicate Dispatches(p: Program, fr: Frame, s: CallSite, c: Context, callee: Frame) {
    && ContextInRange(p, c)
    && SourceIsSelf(p, c, callee)
    && match s
       case NoRow => false
       case ToFunction(g, x, cbs) =>
         && c == InFunction(g) && ActualsBound(x, fr, callee)
         && if p.functions[g].polymorphic
            then forall i :: 0 <= i < |callee.callbacks| ==> CallbackBound(p, fr, cbs, callee.callbacks[i])
            else callee.callbacks == []
       case ToSignature(t) =>
         && !c.InTraitMethod? && callee.callbacks == []
         && exists k: nat :: Inhabits(p, fr, t, ValueOf(c, callee), k)
       case ToMember(m, receiver, x) =>
         && c == InMember(m) && ActualsBound(x, fr, callee) && callee.callbacks == []
         && exists root :: root in receiver && root in fr.parameters && callee.self == fr.parameters[root]
       case ToTraitMethod(t, x) =>
         && c.InTraitMethod? && (c.traitMethod == t || (c.traitMethod, t) in p.implementations)
         && callee.callbacks == []
  }

  // -------------------------------------------------------------------- executions

  /** A finite execution: activity in a body, in any order, any number of times, stopping
      anywhere. This covers branches, loops, early exits and failures alike. */
  datatype Run =
    | Idle
    | Then(first: Run, rest: Run)
    | At(child: nat, run: Run)
    | Panicking
    | Calling(callee: Context, frame: Frame, run: Run)
    | Hosting(event: Event)
    | Handling(run: Run)
    | Providing(frame: Frame, run: Run)

  ghost function Children(b: Body): seq<Body> {
    match b
    case Node(cs) => cs
    case Call(_, ops) => ops
    case Panic(m) => [m]
    case Handle(x, v, _, _, _, _) => [x, v]
  }

  /** The run is an execution of body b in activation fr. */
  ghost predicate Executes(p: Program, fr: Frame, b: Body, run: Run)
    decreases run, 0
  {
    match run
    case Idle => true
    case Then(x, y) => Executes(p, fr, b, x) && Executes(p, fr, b, y)
    case At(i, x) => i < |Children(b)| && Executes(p, fr, Children(b)[i], x)
    case Panicking => b.Panic?
    case Calling(c, callee, x) => b.Call? && Dispatches(p, fr, b.site, c, callee) && Runs(p, c, callee, x)
    case Hosting(_) => false
    case Handling(x) => b.Handle? && Executes(p, fr, b.body, x)
    case Providing(callee, x) =>
      && b.Handle? && ContextInRange(p, InMember(b.providerMember))
      && SourceIsSelf(p, InMember(b.providerMember), callee) && callee.callbacks == []
      && Runs(p, InMember(b.providerMember), callee, x)
  }

  /** The run is an activation of callable c. Without a body it belongs to the host, which
      is trusted to stay within the declared row. */
  ghost predicate Runs(p: Program, c: Context, fr: Frame, run: Run)
    requires ContextInRange(p, c)
    decreases run, 1
  {
    match BodyOf(p, c)
    case Some(b) => Executes(p, fr, b, run)
    case None => HostRuns(p, c, fr, run)
  }

  ghost predicate HostRuns(p: Program, c: Context, fr: Frame, run: Run)
    requires ContextInRange(p, c)
  {
    match run
    case Idle => true
    case Then(x, y) => HostRuns(p, c, fr, x) && HostRuns(p, c, fr, y)
    case Hosting(e) => Covered(DeclaredRow(p, c), fr, e)
    case _ => false
  }

  ghost function Without(trace: seq<Event>, e: Event): (r: seq<Event>)
    ensures forall x :: x in r <==> x in trace && x != e
  {
    if trace == [] then []
    else (if trace[0] == e then [] else [trace[0]]) + Without(trace[1..], e)
  }

  /** What a handler for a name and a root intercepts in this activation. */
  ghost function Intercept(fr: Frame, name: string, root: nat, trace: seq<Event>): (r: seq<Event>)
    ensures forall x :: x in r ==> x in trace
    ensures root in fr.parameters ==> Event(name, Held(fr.parameters[root])) !in r
  {
    if root in fr.parameters then Without(trace, Event(name, Held(fr.parameters[root]))) else trace
  }

  /** The events of an execution that reach the outside of body b, in order. */
  ghost function Trace(p: Program, fr: Frame, b: Body, run: Run): seq<Event>
    requires Executes(p, fr, b, run)
    decreases run, 0
  {
    match run
    case Idle => []
    case Then(x, y) => Trace(p, fr, b, x) + Trace(p, fr, b, y)
    case At(i, x) => Trace(p, fr, Children(b)[i], x)
    case Panicking => [Event("panic", Unowned)]
    case Calling(c, callee, x) => Events(p, c, callee, x)
    case Handling(x) => Intercept(fr, b.effectName, b.root, Trace(p, fr, b.body, x))
    case Providing(callee, x) => Events(p, InMember(b.providerMember), callee, x)
  }

  /** The events of one activation. */
  ghost function Events(p: Program, c: Context, fr: Frame, run: Run): seq<Event>
    requires ContextInRange(p, c) && Runs(p, c, fr, run)
    decreases run, 1
  {
    match BodyOf(p, c)
    case Some(b) => Trace(p, fr, b, run)
    case None => HostEvents(run)
  }

  ghost function HostEvents(run: Run): seq<Event> {
    match run
    case Then(x, y) => HostEvents(x) + HostEvents(y)
    case Hosting(e) => [e]
    case _ => []
  }
}
