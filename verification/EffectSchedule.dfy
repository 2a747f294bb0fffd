/** The call graph of a program and the inference of its rows, component by component. */
module EffectSchedule {
  import opened Options
  import opened Reachability
  import opened CallGraphs
  import opened Components
  import opened ComponentGroups
  import opened EffectProgram
  import opened EffectUniverse
  import opened EffectRows
  import opened EffectInference

  // ------------------------------------------------------------------- the graph

  ghost function EdgesFrom(f: nat, targets: set<nat>): Graph {
    set g | g in targets :: (f, g)
  }

  ghost function DefinitionReads(p: Program, f: nat): set<nat>
    requires InRange(p) && f < |p.functions|
  {
    if p.functions[f].body.Some? then Reads(p, p.functions[f].body.value) else {}
  }

  /** An edge for every inferred row that a definition's equation may read. */
  ghost function GraphOf(p: Program): Graph
    requires InRange(p)
  {
    set f, g | 0 <= f < |p.functions| && g in DefinitionReads(p, f) :: (f, g)
  }

  method GraphWalk(p: Program, f: nat, b: Body, graph: CallGraph)
    requires graph.Valid() && graph.count == |p.functions| && f < graph.count && BodyInRange(p, b)
    modifies graph`edges, graph.firstOutgoing, graph.firstIncoming
    ensures graph.Valid() && EdgeSet(graph.edges) == old(EdgeSet(graph.edges)) + EdgesFrom(f, Reads(p, b))
    decreases b
  {
    hide EdgeSet, Threaded, LastFrom, LastTo, ReadsAll;
    match b
    case Node(cs) => GraphWalkAll(p, f, cs, graph, b);
    case Call(s, ops) =>
      if s.ToFunction? {
        graph.AddEdge(f, s.target);
        if p.functions[s.target].polymorphic {
          GraphCallbacks(p, f, s.callbacks, graph);
        }
      }
      GraphWalkAll(p, f, ops, graph, b);
    case Panic(m) => GraphWalk(p, f, m, graph);
    case Handle(x, v, _, _, _, c) =>
      GraphWalk(p, f, x, graph);
      GraphWalk(p, f, v, graph);
      GraphWalk(p, f, c, graph);
  }

  method GraphWalkAll(p: Program, f: nat, bs: seq<Body>, graph: CallGraph, ghost parent: Body)
    requires graph.Valid() && graph.count == |p.functions| && f < graph.count
    requires forall i :: 0 <= i < |bs| ==> bs[i] < parent && BodyInRange(p, bs[i])
    modifies graph`edges, graph.firstOutgoing, graph.firstIncoming
    ensures graph.Valid()
    ensures EdgeSet(graph.edges) == old(EdgeSet(graph.edges))
              + EdgesFrom(f, ReadsAll(p, bs))
    decreases parent, 0
  {
    hide EdgeSet, Threaded, LastFrom, LastTo, BodyInRange, Reads, ReadsAll;
    var i := 0;
    NoReads(p, bs[..i]);
    while i < |bs|
      invariant 0 <= i <= |bs| && graph.Valid()
      invariant EdgeSet(graph.edges) == old(EdgeSet(graph.edges)) + EdgesFrom(f, ReadsAll(p, bs[..i]))
    {
      GraphWalk(p, f, bs[i], graph);
      ReadsNext(p, bs, i);
      i := i + 1;
    }
    assert bs[..i] == bs;
  }

  lemma {:induction false} NoReads(p: Program, bs: seq<Body>)
    requires bs == []
    ensures ReadsAll(p, bs) == {}
  {
  }

  lemma {:induction false} ReadsNext(p: Program, bs: seq<Body>, i: nat)
    requires i < |bs| && forall j :: 0 <= j < |bs| ==> BodyInRange(p, bs[j])
    ensures ReadsAll(p, bs[..i + 1]) == ReadsAll(p, bs[..i]) + Reads(p, bs[i])
  {
    var x, y := bs[..i], bs[..i + 1];
    assert y == x + [bs[i]];
    forall g | g in ReadsAll(p, x) ensures g in ReadsAll(p, y) {
      var k :| 0 <= k < |x| && g in Reads(p, x[k]);
      assert y[k] == x[k];
    }
    assert y[i] == bs[i];
  }

  /** Callback arguments that are definitions: their rows instantiate the effect parameter. */
  method GraphCallbacks(p: Program, f: nat, cbs: seq<CallbackArgument>, graph: CallGraph)
    requires graph.Valid() && graph.count == |p.functions| && f < graph.count
    requires forall i :: 0 <= i < |cbs| && cbs[i].Callback? ==> SourceInRange(p, cbs[i].actual)
    modifies graph`edges, graph.firstOutgoing, graph.firstIncoming
    ensures graph.Valid() && EdgeSet(graph.edges) == old(EdgeSet(graph.edges)) + EdgesFrom(f, CallbackReads(cbs))
  {
    hide EdgeSet, Threaded, LastFrom, LastTo;
    var i := 0;
    while i < |cbs|
      invariant 0 <= i <= |cbs| && graph.Valid()
      invariant EdgeSet(graph.edges) == old(EdgeSet(graph.edges)) + EdgesFrom(f, CallbackReads(cbs[..i]))
    {
      CallbackReadsNext(cbs, i);
      if cbs[i].Callback? && cbs[i].actual.FunctionValue? {
        graph.AddEdge(f, cbs[i].actual.definition);
      }
      i := i + 1;
    }
    assert cbs[..i] == cbs;
  }

  lemma {:induction false} CallbackReadsNext(cbs: seq<CallbackArgument>, i: nat)
    requires i < |cbs|
    ensures CallbackReads(cbs[..i + 1]) == CallbackReads(cbs[..i])
      + if cbs[i].Callback? && cbs[i].actual.FunctionValue? then {cbs[i].actual.definition} else {}
  {
    var x, y := cbs[..i], cbs[..i + 1];
    assert y == x + [cbs[i]];
    forall g | g in CallbackReads(x) ensures g in CallbackReads(y) {
      var k :| 0 <= k < |x| && x[k].Callback? && x[k].actual.FunctionValue? && x[k].actual.definition == g;
      assert y[k] == x[k];
    }
    assert y[i] == cbs[i];
  }

  method BuildGraph(p: Program) returns (graph: CallGraph)
    requires InRange(p)
    ensures fresh(graph) && fresh(graph.firstOutgoing) && fresh(graph.firstIncoming)
    ensures graph.Valid() && graph.count == |p.functions| && EdgeSet(graph.edges) == GraphOf(p)
  {
    graph := new CallGraph(|p.functions|);
    var f := 0;
    assert EdgeSet(graph.edges) == {};
    hide EdgeSet, Threaded, LastFrom, LastTo, BodyInRange, Reads;
    while f < |p.functions|
      invariant 0 <= f <= |p.functions| && graph.Valid()
      invariant EdgeSet(graph.edges) == set i, g | 0 <= i < f && g in DefinitionReads(p, i) :: (i, g)
    {
      if p.functions[f].body.Some? {
        assert p.functions[f].callable && OptionInRange(p, p.functions[f].body);
        GraphWalk(p, f, p.functions[f].body.value, graph);
      }
      assert (set i, g | 0 <= i < f + 1 && g in DefinitionReads(p, i) :: (i, g))
          == (set i, g | 0 <= i < f && g in DefinitionReads(p, i) :: (i, g)) + EdgesFrom(f, DefinitionReads(p, f));
      f := f + 1;
    }
  }

  // ------------------------------------------------------------ one definition

  /** Definition f needs no further visit while the rows it reads stay as they are. */
  ghost predicate Finished(p: Program, rows: seq<Row>, flag: bool, f: nat)
    requires InRange(p) && |rows| == |p.functions| && f < |rows|
  {
    && RowClosed(p, AtomsOf(rows), f)
    && (Inferred(p.functions[f]) && p.functions[f].body.Some? && !flag ==>
          !BodyDiagnosed(p, AtomsOf(rows), [], p.functions[f].body.value))
  }

  /** Some inferred definition deserves a diagnostic. */
  ghost predicate SomeDiagnosed(p: Program, rows: seq<Row>)
    requires InRange(p) && |rows| == |p.functions|
  {
    exists f: nat :: f < |rows| && Inferred(p.functions[f]) && p.functions[f].body.Some?
                     && BodyDiagnosed(p, AtomsOf(rows), [], p.functions[f].body.value)
  }

  /** Rows only grow, and only those for which the condition holds change. */
  ghost predicate GrowsWithin(before: seq<Row>, after: seq<Row>, component: seq<int>, c: int) {
    && |before| == |after| == |component|
    && (forall f :: 0 <= f < |after| ==> before[f] <= after[f])
    && (forall f :: 0 <= f < |after| && component[f] != c ==> before[f] == after[f])
  }

  lemma {:induction false} DefinitionJustified(p: Program, f: nat)
    requires InRange(p) && f < |p.functions| && Inferred(p.functions[f]) && p.functions[f].body.Some?
    ensures Justified(p, f, [], p.functions[f].body.value)
  {
    forall other, a | Closed(p, other) && Contributes(p, other, [], p.functions[f].body.value, a)
      ensures a in other[f]
    {
      assert RowClosed(p, other, f);
    }
  }

  lemma {:induction false} StillDiagnosed(p: Program, before: seq<Row>, after: seq<Row>)
    requires InRange(p) && |before| == |after| == |p.functions|
    requires forall f :: 0 <= f < |after| ==> before[f] <= after[f]
    requires SomeDiagnosed(p, before)
    ensures SomeDiagnosed(p, after)
  {
    var f: nat :| f < |before| && Inferred(p.functions[f]) && p.functions[f].body.Some?
                  && BodyDiagnosed(p, AtomsOf(before), [], p.functions[f].body.value);
    DiagnosedMonotone(p, AtomsOf(before), AtomsOf(after), [], p.functions[f].body.value);
  }

  /** One visit of the fixpoint loop. */
  method Visit(checker: Checker, f: nat) returns (grew: bool)
    requires checker.Valid() && f < checker.rows.Length
    requires checker.diagnosed ==> SomeDiagnosed(checker.program, checker.rows[..])
    modifies checker.rows, checker`diagnosed
    ensures checker.Valid() && (old(checker.diagnosed) ==> checker.diagnosed)
    ensures Grown(old(checker.rows[..]), checker.rows[..], f)
    ensures grew <==> |checker.rows[f]| > |old(checker.rows[f])|
    ensures !grew ==> checker.rows[..] == old(checker.rows[..])
    ensures !grew ==> Finished(checker.program, checker.rows[..], checker.diagnosed, f)
    ensures checker.diagnosed ==> SomeDiagnosed(checker.program, checker.rows[..])
  {
    var p := checker.program;
    grew := false;
    if Inferred(p.functions[f]) && p.functions[f].body.Some? {
      var previous := |checker.rows[f]|;
      DefinitionJustified(p, f);
      assert OptionInRange(p, p.functions[f].body);
      checker.Walk(f, [], p.functions[f].body.value);
      grew := |checker.rows[f]| != previous;
      if !grew {
        assert checker.rows[f] == old(checker.rows[f]);
        assert checker.rows[..][f] == checker.rows[f];
        assert forall a :: a in checker.rows[f] <==> a in AtomsOf(checker.rows[..])[f];
      }
      if old(checker.diagnosed) {
        StillDiagnosed(p, old(checker.rows[..]), checker.rows[..]);
      }
    }
  }

  /** A finished definition of a higher component is not invalidated by a lower one. */
  lemma {:induction false} FinishedStays(p: Program, component: seq<int>, count: nat, before: seq<Row>, flag: bool, after: seq<Row>, flag': bool, c: int, f: nat)
    requires InRange(p) && |before| == |after| == |p.functions| && f < |before|
    requires IsComponentNumbering(GraphOf(p), |p.functions|, component, count)
    requires GrowsWithin(before, after, component, c) && (flag ==> flag')
    requires component[f] > c && Finished(p, before, flag, f)
    ensures Finished(p, after, flag', f)
  {
    forall g | g in DefinitionReads(p, f) && g < |before| ensures after[g] == before[g] {
      assert (f, g) in GraphOf(p);
      assert component[f] <= component[g];
    }
    var x, y := AtomsOf(before), AtomsOf(after);
    RowClosedLocal(p, x, y, f);
    if Inferred(p.functions[f]) && p.functions[f].body.Some? && BodyDiagnosed(p, y, [], p.functions[f].body.value) {
      DiagnosedMonotone(p, y, x, [], p.functions[f].body.value);
    }
  }

  // ----------------------------------------------------------------- termination

  ghost function TotalLength(rows: seq<Row>): nat {
    if rows == [] then 0 else TotalLength(rows[..|rows| - 1]) + |rows[|rows| - 1]|
  }

  lemma {:induction false} TotalGrows(before: seq<Row>, after: seq<Row>)
    requires |before| == |after| && forall f :: 0 <= f < |after| ==> |before[f]| <= |after[f]|
    ensures TotalLength(before) <= TotalLength(after)
    ensures (exists f :: 0 <= f < |after| && |before[f]| < |after[f]|) ==> TotalLength(before) < TotalLength(after)
  {
    if before != [] {
      var n := |before| - 1;
      TotalGrows(before[..n], after[..n]);
      if f :| 0 <= f < |after| && |before[f]| < |after[f]| {
        if f < n { assert |before[..n][f]| < |after[..n][f]|; }
      }
    }
  }

  lemma {:induction false} RowFits(row: Row, universe: set<Atom>)
    requires NoRepeats(row) && forall a :: a in row ==> a in universe
    ensures |row| <= |universe|
  {
    if row != [] {
      var last := row[|row| - 1];
      assert last in row && last !in row[..|row| - 1];
      RowFits(row[..|row| - 1], universe - {last});
    }
  }

  lemma {:induction false} TotalFits(rows: seq<Row>, bound: nat)
    requires forall f :: 0 <= f < |rows| ==> |rows[f]| <= bound
    ensures TotalLength(rows) <= |rows| * bound
  {
    if rows != [] {
      TotalFits(rows[..|rows| - 1], bound);
      assert |rows| * bound == (|rows| - 1) * bound + bound;
    }
  }

  ghost function Limit(p: Program): nat {
    |p.functions| * |Universe(p)|
  }

  lemma {:induction false} RowWithin(p: Program, rows: seq<Row>, f: nat)
    requires InRange(p) && f < |rows| == |p.functions| && BelowLeast(p, AtomsOf(rows)) && NoRepeats(rows[f])
    ensures |rows[f]| <= |Universe(p)|
  {
    TopIsClosed(p);
    assert FamilyLe(AtomsOf(rows), Top(p));
    hide Universe, InRange, BelowLeast, Closed, NoRepeats;
    assert forall a :: a in rows[f] ==> a in AtomsOf(rows)[f];
    RowFits(rows[f], Universe(p));
  }

  /** Rows below every solution cannot outgrow the universe. */
  lemma {:induction false} WithinLimit(p: Program, rows: seq<Row>)
    requires InRange(p) && |rows| == |p.functions| && BelowLeast(p, AtomsOf(rows))
    requires forall f :: 0 <= f < |rows| ==> NoRepeats(rows[f])
    ensures TotalLength(rows) <= Limit(p)
  {
    hide Universe, TotalLength, InRange, BelowLeast, NoRepeats;
    forall f | 0 <= f < |rows| ensures |rows[f]| <= |Universe(p)| {
      RowWithin(p, rows, f);
    }
    TotalFits(rows, |Universe(p)|);
  }

  // ---------------------------------------------------------------- the schedule

  /** One pass over the members of component c. */
  method Pass(checker: Checker, offsets: array<nat>, members: array<nat>, ghost component: seq<int>, count: nat, c: nat)
    returns (changed: bool)
    requires checker.Valid() && c < count && |component| == checker.rows.Length
    requires Grouped(component, count, offsets[..], members[..])
    requires checker.diagnosed ==> SomeDiagnosed(checker.program, checker.rows[..])
    modifies checker.rows, checker`diagnosed
    ensures checker.Valid() && (old(checker.diagnosed) ==> checker.diagnosed)
    ensures checker.diagnosed ==> SomeDiagnosed(checker.program, checker.rows[..])
    ensures GrowsWithin(old(checker.rows[..]), checker.rows[..], component, c)
    ensures changed ==> TotalLength(checker.rows[..]) > TotalLength(old(checker.rows[..]))
    ensures !changed ==> forall f :: 0 <= f < |component| && component[f] == c ==>
      Finished(checker.program, checker.rows[..], checker.diagnosed, f)
  {
    hide *;
    ghost var p, start := checker.program, checker.rows[..];
    ValidFacts(checker);
    GroupBounds(component, count, offsets[..], members[..], c);
    NothingGrew(start, component, c);
    changed := false;
    var k := offsets[c];
    while k < offsets[c + 1]
      invariant offsets[c] <= k <= offsets[c + 1]
      invariant checker.Valid() && (old(checker.diagnosed) ==> checker.diagnosed)
      invariant checker.diagnosed ==> SomeDiagnosed(p, checker.rows[..])
      invariant GrowsWithin(start, checker.rows[..], component, c)
      invariant changed ==> TotalLength(checker.rows[..]) > TotalLength(start)
      invariant !changed ==> checker.rows[..] == start
      invariant !changed ==> forall j :: offsets[c] <= j < k ==> Finished(p, start, checker.diagnosed, members[j])
    {
      ghost var middle, flag := checker.rows[..], checker.diagnosed;
      var grew := Visit(checker, members[k]);
      VisitGrows(start, middle, checker.rows[..], component, c, members[k]);
      if grew { changed := true; }
      if !changed {
        forall j | offsets[c] <= j < k ensures Finished(p, start, checker.diagnosed, members[j]) {
          FinishedFlag(p, start, flag, checker.diagnosed, members[j]);
        }
      }
      k := k + 1;
    }
    if !changed {
      forall f | 0 <= f < |component| && component[f] == c ensures Finished(p, checker.rows[..], checker.diagnosed, f) {
        MemberListed(component, count, offsets[..], members[..], c, f);
      }
    }
  }

  lemma {:induction false} ValidFacts(checker: Checker)
    requires checker.Valid()
    ensures InRange(checker.program) && checker.rows.Length == |checker.program.functions|
    ensures BelowLeast(checker.program, AtomsOf(checker.rows[..]))
    ensures forall f :: 0 <= f < checker.rows.Length ==> NoRepeats(checker.rows[f])
  {
  }

  lemma {:induction false} GrowsOn(x: seq<Row>, y: seq<Row>, z: seq<Row>, component: seq<int>, c: int)
    requires GrowsWithin(x, y, component, c) && GrowsWithin(y, z, component, c)
    ensures GrowsWithin(x, z, component, c)
  {
  }

  lemma {:induction false} NothingGrew(rows: seq<Row>, component: seq<int>, c: int)
    requires |rows| == |component|
    ensures GrowsWithin(rows, rows, component, c)
  {
  }

  lemma {:induction false} VisitGrows(start: seq<Row>, before: seq<Row>, after: seq<Row>, component: seq<int>, c: int, f: nat)
    requires GrowsWithin(start, before, component, c) && Grown(before, after, f) && f < |component| && component[f] == c
    ensures |before| == |after| && GrowsWithin(start, after, component, c)
    ensures TotalLength(before) <= TotalLength(after)
    ensures |before[f]| < |after[f]| ==> TotalLength(start) < TotalLength(after)
  {
    hide TotalLength;
    assert forall i :: 0 <= i < |after| && i != f ==> after[i] == before[i];
    TotalGrows(before, after);
    TotalGrows(start, after);
  }

  lemma {:induction false} FinishedFlag(p: Program, rows: seq<Row>, flag: bool, flag': bool, f: nat)
    requires InRange(p) && |rows| == |p.functions| && f < |rows| && Finished(p, rows, flag, f) && (flag ==> flag')
    ensures Finished(p, rows, flag', f)
  {
  }

  lemma {:induction false} GroupBounds(component: seq<int>, count: nat, offsets: seq<nat>, members: seq<nat>, c: nat)
    requires Grouped(component, count, offsets, members) && c < count
    ensures |offsets| == count + 1 && offsets[c] <= offsets[c + 1] <= |members|
    ensures forall k :: offsets[c] <= k < offsets[c + 1] ==> members[k] < |component| && component[members[k]] == c
  {
    BelowMonotone(component, c, c + 1);
  }

  lemma {:induction false} MemberListed(component: seq<int>, count: nat, offsets: seq<nat>, members: seq<nat>, c: nat, f: nat)
    requires Grouped(component, count, offsets, members) && c < count && f < |component| && component[f] == c
    ensures |offsets| == count + 1 && exists k :: offsets[c] <= k < offsets[c + 1] && k < |members| && members[k] == f
  {
    SlotInGroup(component, f);
    assert members[Slot(component, f)] == f;
  }

  /** The do-while loop of one component. */
  method FixComponent(checker: Checker, offsets: array<nat>, members: array<nat>, ghost component: seq<int>, count: nat, c: nat)
    requires checker.Valid() && c < count && |component| == checker.rows.Length
    requires Grouped(component, count, offsets[..], members[..])
    requires checker.diagnosed ==> SomeDiagnosed(checker.program, checker.rows[..])
    modifies checker.rows, checker`diagnosed
    ensures checker.Valid() && (old(checker.diagnosed) ==> checker.diagnosed)
    ensures checker.diagnosed ==> SomeDiagnosed(checker.program, checker.rows[..])
    ensures GrowsWithin(old(checker.rows[..]), checker.rows[..], component, c)
    ensures forall f :: 0 <= f < |component| && component[f] == c ==>
      Finished(checker.program, checker.rows[..], checker.diagnosed, f)
  {
    hide *;
    ValidFacts(checker);
    NothingGrew(checker.rows[..], component, c);
    var changed := true;
    while changed
      invariant checker.Valid() && (old(checker.diagnosed) ==> checker.diagnosed)
      invariant checker.diagnosed ==> SomeDiagnosed(checker.program, checker.rows[..])
      invariant GrowsWithin(old(checker.rows[..]), checker.rows[..], component, c)
      invariant !changed ==> forall f :: 0 <= f < |component| && component[f] == c ==>
        Finished(checker.program, checker.rows[..], checker.diagnosed, f)
      decreases changed, Limit(checker.program) - TotalLength(checker.rows[..])
    {
      ghost var before := checker.rows[..];
      changed := Pass(checker, offsets, members, component, count, c);
      GrowsOn(old(checker.rows[..]), before, checker.rows[..], component, c);
      ValidFacts(checker);
      WithinLimit(checker.program, checker.rows[..]);
    }
  }

  /** Inference: components from the last to the first, so that callees come first. */
  method InferFunctions(checker: Checker, component: array<int>, count: nat)
    requires checker.Valid() && component.Length == checker.rows.Length && !checker.diagnosed
    requires forall f :: 0 <= f < checker.rows.Length ==> checker.rows[f] == InitialRow(checker.program.functions[f])
    requires IsComponentNumbering(GraphOf(checker.program), |checker.program.functions|, component[..], count)
    modifies checker.rows, checker`diagnosed
    ensures checker.Valid() && IsLeast(checker.program, AtomsOf(checker.rows[..]))
    ensures checker.diagnosed <==> SomeDiagnosed(checker.program, checker.rows[..])
  {
    hide *;
    ghost var p, start := checker.program, checker.rows[..];
    ghost var comp := component[..];
    ValidFacts(checker);
    NumbersInRange(p, comp, count);
    var offsets, members := Group(component, count);
    var c := count;
    while c != 0
      invariant 0 <= c <= count && checker.Valid()
      invariant Grouped(comp, count, offsets[..], members[..])
      invariant checker.diagnosed ==> SomeDiagnosed(p, checker.rows[..])
      invariant forall f :: 0 <= f < |start| ==> start[f] <= checker.rows[f]
      invariant forall f :: 0 <= f < |comp| && comp[f] >= c ==> Finished(p, checker.rows[..], checker.diagnosed, f)
    {
      c := c - 1;
      ghost var before, flag := checker.rows[..], checker.diagnosed;
      FixComponent(checker, offsets, members, comp, count, c);
      GrowsPointwise(before, checker.rows[..], comp, c);
      forall f | 0 <= f < |comp| && comp[f] > c ensures Finished(p, checker.rows[..], checker.diagnosed, f) {
        FinishedStays(p, comp, count, before, flag, checker.rows[..], checker.diagnosed, c, f);
      }
    }
    ValidFacts(checker);
    AllFinished(p, comp, count, start, checker.rows[..], checker.diagnosed);
  }

  lemma {:induction false} GrowsPointwise(before: seq<Row>, after: seq<Row>, component: seq<int>, c: int)
    requires GrowsWithin(before, after, component, c)
    ensures |before| == |after| && forall f :: 0 <= f < |after| ==> before[f] <= after[f]
  {
  }

  lemma {:induction false} NumbersInRange(p: Program, component: seq<int>, count: nat)
    requires InRange(p) && IsComponentNumbering(GraphOf(p), |p.functions|, component, count)
    ensures |component| == |p.functions| && forall f :: 0 <= f < |component| ==> 0 <= component[f] < count
  {
  }

  lemma {:induction false} AllFinished(p: Program, component: seq<int>, count: nat, start: seq<Row>, rows: seq<Row>, flag: bool)
    requires InRange(p) && |start| == |rows| == |p.functions| && BelowLeast(p, AtomsOf(rows))
    requires IsComponentNumbering(GraphOf(p), |p.functions|, component, count)
    requires forall f :: 0 <= f < |start| ==> start[f] == InitialRow(p.functions[f]) && start[f] <= rows[f]
    requires forall f :: 0 <= f < |component| && component[f] >= 0 ==> Finished(p, rows, flag, f)
    ensures IsLeast(p, AtomsOf(rows))
    ensures SomeDiagnosed(p, rows) ==> flag
  {
    hide BodyDiagnosed, RowClosed;
    NumbersInRange(p, component, count);
    forall f | 0 <= f < |rows| ensures (set a | a in InitialRow(p.functions[f])) <= AtomsOf(rows)[f] {
      assert forall a :: a in start[f] ==> a in rows[f];
    }
    forall f: nat | f < |rows| ensures RowClosed(p, AtomsOf(rows), f) {
      assert Finished(p, rows, flag, f);
    }
    assert Closed(p, AtomsOf(rows));
    if SomeDiagnosed(p, rows) {
      var f: nat :| f < |rows| && Inferred(p.functions[f]) && p.functions[f].body.Some?
                    && BodyDiagnosed(p, AtomsOf(rows), [], p.functions[f].body.value);
      assert Finished(p, rows, flag, f);
    }
  }
}
