/** Contract predicates: the purity test of the contract stage, and why it is enough. */
module ContractPurity {
  import opened Options
  import opened EffectProgram
  import opened EffectRows
  import opened EffectSemantics
  import opened EffectAcceptance
  import opened EffectSoundness
  import opened EffectCalls
  import opened EffectOpenRows

  /** The test of one call. For an effect-polymorphic callee it looks at the recorded
      instantiation of this very call, not at the callee's declared row. */
  predicate CallIsPure(p: Program, rows: seq<Row>, t: Table, call: nat, s: CallSite)
    requires |rows| == |p.functions| && SiteInRange(p, s)
  {
    match s
    case NoRow => true
    case ToFunction(g, _, _) =>
      if p.functions[g].polymorphic then
        && call < |t.entries| && t.entries[call].Some?
        && var entry := t.entries[call].value; entry.definition == g && entry.parameter.None? && entry.rowCount == 0
      else |rows[g]| == 0
    case ToMember(m, _, _) => |p.members[m].row| == 0
    case ToSignature(f) => f.tail.None? && |f.effects| == 0
    case ToTraitMethod(m, _) => |p.traitMethods[m].row| == 0
  }

  /** On a recorded table the test holds exactly of the calls that demand nothing. */
  lemma {:induction false} PureCallDemandsNothing(p: Program, rows: seq<Row>, calls: seq<CallSite>, t: Table, call: nat)
    requires |rows| == |p.functions| && CallsInRange(p, calls) && call < |calls| && Recorded(p, rows, calls, t)
    ensures CallIsPure(p, rows, t, call, calls[call]) <==>
      SiteTail(p, calls[call]).None? && forall a :: !Required(p, AtomsOf(rows), calls[call], a)
  {
    hide AllArguments, AllRows, CallbackTail, CallRow, Required;
    var s := calls[call];
    RecordedParts(p, rows, calls, t, call);
    var required := RequiredRow(p, rows, s);
    assert |required| > 0 ==> Required(p, AtomsOf(rows), s, required[0]);
    if s.ToFunction? && p.functions[s.target].polymorphic {
      assert required == RowOfCall(p, rows, s);
    }
  }

  /** On any table that the replay accepts, a call that passes the test demands nothing. */
  lemma {:induction false} PureCallReplayed(p: Program, rows: seq<Row>, calls: seq<CallSite>, t: Table, call: nat)
    requires |rows| == |p.functions| && CallsInRange(p, calls) && call < |calls| && Replayable(p, rows, calls, t)
    requires CallIsPure(p, rows, t, call, calls[call])
    ensures SiteTail(p, calls[call]).None? && forall a :: !Required(p, AtomsOf(rows), calls[call], a)
  {
    hide PresentArguments, PresentRows, CallbackTail, CallRow, Required;
    var s := calls[call];
    assert EntryExact(p, rows, calls, t, call, |PresentArguments(p, rows, calls, t.entries, call)|, |PresentRows(p, rows, calls, t.entries, call)|);
    var required := RequiredRow(p, rows, s);
    if s.ToFunction? && p.functions[s.target].polymorphic {
      assert required == RowOfCall(p, rows, s);
    }
    assert required == [];
  }

  /** The traversal: no panics, no handlers, and only pure calls. */
  predicate PredicateAccepted(p: Program, rows: seq<Row>, t: Table, ids: map<CallSite, nat>, b: Body)
    requires |rows| == |p.functions| && BodyInRange(p, b)
    decreases b
  {
    match b
    case Node(cs) => forall i :: 0 <= i < |cs| ==> PredicateAccepted(p, rows, t, ids, cs[i])
    case Call(s, ops) =>
      && s in ids && CallIsPure(p, rows, t, ids[s], s)
      && forall i :: 0 <= i < |ops| ==> PredicateAccepted(p, rows, t, ids, ops[i])
    case Panic(_) => false
    case Handle(_, _, _, _, _, _) => false
  }

  /** Every call in the predicate is a listed call expression. */
  ghost predicate Listed(calls: seq<CallSite>, ids: map<CallSite, nat>) {
    forall s :: s in ids ==> ids[s] < |calls| && calls[ids[s]] == s
  }

  ghost predicate SiteDemandsNothing(p: Program, r: Family, s: CallSite)
    requires |r| == |p.functions| && SiteInRange(p, s)
  {
    SiteTail(p, s).None? && forall a :: !Required(p, r, s, a)
  }

  /** A call that demands nothing runs a callee none of whose events is in order. */
  lemma {:induction false} DemandlessCallIsSilent(p: Program, r: Family, c: Context, fr: Frame, s: CallSite, d: Context, callee: Frame, e: Event)
    requires Sound(p, r) && ContextInRange(p, c) && FrameOk(p, r, c, fr)
    requires SiteInRange(p, s) && SiteScoped(p, c, s) && CallbacksAccepted(p, r, s) && SiteDemandsNothing(p, r, s)
    requires Dispatches(p, fr, s, d, callee)
    ensures ContextInRange(p, d) && !EventOk(p, r, d, callee, e)
  {
    hide InRange, Closed, WellTyped, OpenFlowsCovered, ContextAccepted, FlowAccepted, ClausesAccepted, CallbackTail;
    if Covered(RowOf(p, r, d), callee, e) {
      var a :| a in RowOf(p, r, d) && Denotes(callee, a, e);
      assert !Required(p, r, s, a);
      if s.ToSignature? { SignatureSilent(p, r, fr, s.signature, d, callee, a); }
    } else if TailOf(p, d).Some? && EscapesEvent(p, r, callee, e) {
      var a :| Escapes(p, r, callee, a) && Denotes(callee, a, e);
      PolymorphicSilent(p, r, c, fr, s, d, callee, a);
    }
  }

  lemma {:induction false} SignatureSilent(p: Program, r: Family, fr: Frame, t: Signature, d: Context, callee: Frame, a: Atom)
    requires Sound(p, r) && t.tail.None? && ContextInRange(p, d) && !d.InTraitMethod?
    requires exists k: nat :: Inhabits(p, fr, t, ValueOf(d, callee), k)
    requires forall i :: 0 <= i < |fr.callbacks| ==> ValueClosed(p, r, fr.callbacks[i].value)
    requires a in RowOf(p, r, d)
    ensures a in t.effects
  {
    hide Sound;
    var k: nat :| Inhabits(p, fr, t, ValueOf(d, callee), k);
    InhabitantRow(p, r, fr, t, ValueOf(d, callee), k);
  }

  lemma {:induction false} PolymorphicSilent(p: Program, r: Family, c: Context, fr: Frame, s: CallSite, d: Context, callee: Frame, a: Atom)
    requires Sound(p, r) && ContextInRange(p, c) && FrameOk(p, r, c, fr)
    requires SiteInRange(p, s) && SiteScoped(p, c, s) && CallbacksAccepted(p, r, s) && SiteTail(p, s).None?
    requires Dispatches(p, fr, s, d, callee) && TailOf(p, d).Some? && Escapes(p, r, callee, a)
    ensures Required(p, r, s, a)
  {
    hide Sound, CallbackTail, Required;
    var i :| 0 <= i < |callee.callbacks| && ValueClosed(p, r, callee.callbacks[i].value)
             && a in ValueRow(p, r, callee.callbacks[i].value) && a !in callee.callbacks[i].fixed;
    assert s.ToFunction? || callee.callbacks == [];
    BindingRow(p, r, c, fr, s, callee.callbacks[i]);
  }

  lemma {:induction false} PartAccepted(p: Program, rows: seq<Row>, calls: seq<CallSite>, t: Table, ids: map<CallSite, nat>, c: Context, b: Body)
    requires |rows| == |p.functions| && ContextInRange(p, c) && CallsInRange(p, calls) && Replayable(p, rows, calls, t)
    requires forall i :: 0 <= i < |calls| ==> CallInOrder(p, rows, calls[i])
    requires BodyInRange(p, b) && b.Call? && Listed(calls, ids) && PredicateAccepted(p, rows, t, ids, b)
    ensures SiteInRange(p, b.site) && CallbacksAccepted(p, AtomsOf(rows), b.site) && SiteDemandsNothing(p, AtomsOf(rows), b.site)
  {
    hide Replayable, CallIsPure, SiteTail, Required;
    var call := ids[b.site];
    assert CallInOrder(p, rows, calls[call]);
    PureCallReplayed(p, rows, calls, t, call);
  }

  /** An accepted predicate performs no event in any of its executions, in any activation
      of its owner. */
  lemma {:induction false} PredicatesArePure(p: Program, rows: seq<Row>, calls: seq<CallSite>, t: Table, ids: map<CallSite, nat>,
                                             c: Context, fr: Frame, b: Body, run: Run)
    requires Sound(p, AtomsOf(rows)) && ContextInRange(p, c) && FrameOk(p, AtomsOf(rows), c, fr)
    requires CallsInRange(p, calls) && Replayable(p, rows, calls, t)
    requires forall i :: 0 <= i < |calls| ==> CallInOrder(p, rows, calls[i])
    requires BodyInRange(p, b) && Scoped(p, c, b) && Listed(calls, ids) && PredicateAccepted(p, rows, t, ids, b)
    requires Executes(p, fr, b, run)
    ensures Trace(p, fr, b, run) == []
    decreases run
  {
    hide Sound, FrameOk, EventOk, Dispatches, Replayable, CallInOrder, CallIsPure, CallsInRange, Listed, SiteInRange, SiteScoped, CallbacksAccepted;
    match run
    case Idle =>
    case Then(x, y) =>
      PredicatesArePure(p, rows, calls, t, ids, c, fr, b, x);
      PredicatesArePure(p, rows, calls, t, ids, c, fr, b, y);
    case At(i, x) =>
      PredicatesArePure(p, rows, calls, t, ids, c, fr, Children(b)[i], x);
    case Calling(d, callee, x) =>
      PartAccepted(p, rows, calls, t, ids, c, b);
      CalleeFrameOk(p, AtomsOf(rows), c, fr, b.site, d, callee);
      var events := Events(p, d, callee, x);
      if events != [] {
        ActivationSound(p, AtomsOf(rows), d, callee, x, events[0]);
        DemandlessCallIsSilent(p, AtomsOf(rows), c, fr, b.site, d, callee, events[0]);
      }
  }

  // ------------------------------------------------------------ a predicate that panics

  /** A predicate of Leaky: it calls the definition with the effect parameter, and passes the
      definition that does nothing. */
  function LeakySite(): CallSite { ToFunction(0, map[], [Callback([], FunctionValue(2))]) }

  function LeakyTable(): Table { Table([Some(Entry(0, 0, None, 0, 0, 0, 0))], [], []) }

  function LeakyRowList(): seq<Row> { [[], [PANIC], []] }

  lemma {:induction false} LeakyRowsListed()
    ensures AtomsOf(LeakyRowList()) == LeakyRows()
  {
    var x, y := AtomsOf(LeakyRowList()), LeakyRows();
    assert x[0] == {} && x[1] == {PANIC} && x[2] == {};
  }

  lemma {:induction false} LeakyInstance()
    ensures SiteInRange(Leaky(), LeakySite())
    ensures CallArguments(Leaky(), LeakyRowList(), LeakySite().callbacks) == [] && CallRow(Leaky(), LeakyRowList(), 0, LeakySite().callbacks) == []
    ensures CallbackTail(LeakySite().callbacks) == None && CallbacksFree(Leaky(), LeakyRowList(), LeakySite().callbacks)
  {
    var cbs := LeakySite().callbacks;
    assert cbs == [Callback([], FunctionValue(2))];
    assert cbs[1..] == [];
    assert AllCallbackAtoms(Leaky(), LeakyRowList(), cbs) == [];
  }

  lemma {:induction false} LeakyReplayed()
    ensures CallsInRange(Leaky(), [LeakySite()]) && CallInOrder(Leaky(), LeakyRowList(), LeakySite())
    ensures Replayable(Leaky(), LeakyRowList(), [LeakySite()], LeakyTable())
  {
    hide CallArguments, CallRow, CallbackTail, CallbacksFree;
    LeakyInstance();
    var p, rows, calls, t := Leaky(), LeakyRowList(), [LeakySite()], LeakyTable();
    assert LeakySite().callbacks[0].Callback?;
    assert PresentArguments(p, rows, calls, t.entries, 1) == [] && PresentRows(p, rows, calls, t.entries, 1) == [];
    assert EntryExact(p, rows, calls, t, 0, 0, 0);
  }

  /** The definition with the effect parameter panics, whatever it is passed. */
  lemma {:induction false} LeakyRun() returns (run: Run)
    ensures Executes(Leaky(), Frame(map[], 0, []), Call(LeakySite(), []), run)
    ensures Trace(Leaky(), Frame(map[], 0, []), Call(LeakySite(), []), run) == [Event("panic", Unowned)]
  {
    var p, fr := Leaky(), Frame(map[], 0, []);
    assert Yields(p, fr, p.flows[0].source, Code(1), 0);
    assert Inhabits(p, fr, Signature([], Some(0)), ValueOf(InFunction(1), fr), 0);
    assert Dispatches(p, fr, ToSignature(Signature([], Some(0))), InFunction(1), fr);
    hide Yields, Inhabits;
    var inner := Calling(InFunction(1), fr, Panicking);
    assert Runs(p, InFunction(0), fr, inner) && Events(p, InFunction(0), fr, inner) == [Event("panic", Unowned)];
    assert Dispatches(p, fr, LeakySite(), InFunction(0), fr);
    run := Calling(InFunction(0), fr, inner);
  }

  /** Purity rests on the condition on open flows as well: in Leaky, whose final rows are these,
      a predicate passes the test and panics. */
  lemma {:induction false} ImpurePredicate()
    ensures InRange(Leaky()) && IsLeast(Leaky(), AtomsOf(LeakyRowList())) && Accepted(Leaky(), AtomsOf(LeakyRowList()))
    ensures CallsInRange(Leaky(), [LeakySite()]) && Replayable(Leaky(), LeakyRowList(), [LeakySite()], LeakyTable())
    ensures BodyInRange(Leaky(), Call(LeakySite(), []))
    ensures PredicateAccepted(Leaky(), LeakyRowList(), LeakyTable(), map[LeakySite() := 0], Call(LeakySite(), []))
    ensures exists run :: Executes(Leaky(), Frame(map[], 0, []), Call(LeakySite(), []), run)
                          && Trace(Leaky(), Frame(map[], 0, []), Call(LeakySite(), []), run) == [Event("panic", Unowned)]
  {
    hide InRange, IsLeast, Accepted, Replayable, AtomsOf, Executes, Trace;
    LeakyRowsListed();
    LeakyAccepted();
    LeakyReplayed();
    var run := LeakyRun();
  }
}
