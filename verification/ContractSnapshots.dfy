/** Entry-state snapshots of contract predicates: how lowering fills their arena, and what
    the inspection of the finished table demands. */
module ContractSnapshots {
  import opened Options

  datatype Expr = Old(id: nat, operand: Expr) | Node(id: nat, children: seq<Expr>)

  /** A contract condition; a refinement of a type has no entry state. */
  datatype Condition = Condition(expression: Expr, ofType: bool)

  datatype Snapshot = Snapshot(id: nat, obligation: nat, source: nat, operand: nat)

  datatype Obligation = Obligation(id: nat, first: nat, count: nat)

  /** The syntax as the later stage sees it: the operand of each old expression. */
  type Syntax = seq<Option<nat>>

  datatype Table = Table(obligations: seq<Obligation>, snapshots: seq<Snapshot>, ofExpression: seq<Option<nat>>)

  // ------------------------------------------------------------------ old expressions

  /** The old expressions of a predicate in the order of traversal, with their operands. */
  function Olds(e: Expr): seq<(nat, nat)> {
    match e
    case Old(id, operand) => [(id, operand.id)] + Olds(operand)
    case Node(_, es) => AllOlds(es)
  }

  function AllOlds(es: seq<Expr>): seq<(nat, nat)> {
    if es == [] then [] else AllOlds(es[..|es| - 1]) + Olds(es[|es| - 1])
  }

  function OldsOf(c: Condition): seq<(nat, nat)> {
    if c.ofType then [] else Olds(c.expression)
  }

  function ConditionOlds(cs: seq<Condition>): seq<(nat, nat)> {
    if cs == [] then [] else ConditionOlds(cs[..|cs| - 1]) + OldsOf(cs[|cs| - 1])
  }

  ghost predicate IdsDistinct(olds: seq<(nat, nat)>) {
    forall i, j :: 0 <= i < j < |olds| ==> olds[i].0 != olds[j].0
  }

  ghost predicate OldsFit(syntax: Syntax, olds: seq<(nat, nat)>) {
    forall i :: 0 <= i < |olds| ==> olds[i].0 < |syntax| && olds[i].1 < |syntax| && syntax[olds[i].0] == Some(olds[i].1)
  }

  // ------------------------------------------------------------------------ lowering

  /** Snapshot k of the arena records the k-th old expression. */
  ghost predicate Records(snapshots: seq<Snapshot>, olds: seq<(nat, nat)>) {
    && |snapshots| == |olds|
    && forall k :: 0 <= k < |snapshots| ==> snapshots[k].id == k && snapshots[k].source == olds[k].0 && snapshots[k].operand == olds[k].1
  }

  /** The expression table points from each old expression to its snapshot. */
  ghost predicate Points(ofExpression: seq<Option<nat>>, olds: seq<(nat, nat)>) {
    && (forall k :: 0 <= k < |olds| ==> olds[k].0 < |ofExpression| && ofExpression[olds[k].0] == Some(k))
    && (forall e :: 0 <= e < |ofExpression| && ofExpression[e].Some? ==> ofExpression[e].value < |olds| && olds[ofExpression[e].value].0 == e)
  }

  lemma {:induction false} NextOld(snapshots: seq<Snapshot>, ofExpression: seq<Option<nat>>, olds: seq<(nat, nat)>, x: (nat, nat), obligation: nat)
    requires Records(snapshots, olds) && Points(ofExpression, olds) && x.0 < |ofExpression|
    requires IdsDistinct(olds + [x])
    ensures Records(snapshots + [Snapshot(|snapshots|, obligation, x.0, x.1)], olds + [x])
    ensures Points(ofExpression[x.0 := Some(|olds|)], olds + [x])
  {
    var after := olds + [x];
    assert after[|olds|] == x;
    forall k | 0 <= k < |olds| ensures after[k] == olds[k] && olds[k].0 != x.0 { assert after[k] == olds[k]; }
  }

  class Lowerer {
    var snapshots: seq<Snapshot>
    var obligation: Obligation
    const ofExpression: array<Option<nat>>
    ghost var olds: seq<(nat, nat)>

    ghost predicate Valid()
      reads this, ofExpression
    {
      Records(snapshots, olds) && Points(ofExpression[..], olds) && obligation.first + obligation.count == |snapshots|
    }

    constructor (expressions: nat)
      ensures Valid() && fresh(ofExpression) && ofExpression.Length == expressions
      ensures snapshots == [] && olds == [] && obligation == Obligation(0, 0, 0)
    {
      snapshots, olds, obligation := [], [], Obligation(0, 0, 0);
      ofExpression := new Option<nat>[expressions](_ => None);
    }

    /** Appends the snapshot of an old expression to the arena and to the obligation. */
    method Append(source: nat, operand: nat)
      requires Valid() && source < ofExpression.Length && IdsDistinct(olds + [(source, operand)])
      modifies this, ofExpression
      ensures Valid() && olds == old(olds) + [(source, operand)]
      ensures obligation == old(obligation).(count := old(obligation).count + 1)
      ensures snapshots == old(snapshots) + [Snapshot(|old(snapshots)|, obligation.id, source, operand)]
    {
      NextOld(snapshots, ofExpression[..], olds, (source, operand), obligation.id);
      var id := |snapshots|;
      snapshots := snapshots + [Snapshot(id, obligation.id, source, operand)];
      ofExpression[source] := Some(id);
      obligation := obligation.(count := obligation.count + 1);
      olds := olds + [(source, operand)];
    }

    /** The traversal of a predicate. */
    method Expression(e: Expr)
      requires Valid() && IdsDistinct(olds + Olds(e)) && IdsIn(ofExpression.Length, Olds(e))
      modifies this, ofExpression
      ensures Valid() && olds == old(olds) + Olds(e)
      ensures Appended(old(snapshots), snapshots, old(obligation), obligation)
      decreases e
    {
      hide Records, Points, IdsDistinct;
      match e
      case Old(id, operand) =>
        ghost var x := (id, operand.id);
        assert olds + ([x] + Olds(operand)) == (olds + [x]) + Olds(operand);
        DistinctPrefix(olds + [x], Olds(operand));
        assert Olds(e)[0] == x;
        TailIn(ofExpression.Length, x, Olds(operand));
        Append(id, operand.id);
        Expression(operand);
      case Node(_, es) => Expressions(es, e);
    }

    method Expressions(es: seq<Expr>, ghost parent: Expr)
      requires Valid() && IdsDistinct(olds + AllOlds(es)) && IdsIn(ofExpression.Length, AllOlds(es))
      requires forall i :: 0 <= i < |es| ==> es[i] < parent
      modifies this, ofExpression
      ensures Valid() && olds == old(olds) + AllOlds(es)
      ensures Appended(old(snapshots), snapshots, old(obligation), obligation)
      decreases parent, 0
    {
      hide Records, Points, IdsDistinct, IdsIn, Appended;
      NothingAppended(snapshots, obligation);
      var i := 0;
      while i < |es|
        invariant 0 <= i <= |es| && Valid() && olds == old(olds) + AllOlds(es[..i])
        invariant Appended(old(snapshots), snapshots, old(obligation), obligation)
      {
        ghost var before, was := snapshots, obligation;
        AllOldsAt(old(olds), ofExpression.Length, es, i);
        assert es[..i + 1][..i] == es[..i];
        Expression(es[i]);
        AppendedTwice(old(snapshots), before, snapshots, old(obligation), was, obligation);
        i := i + 1;
      }
      assert es[..i] == es;
    }
  }

  ghost predicate IdsIn(n: nat, olds: seq<(nat, nat)>) {
    forall i :: 0 <= i < |olds| ==> olds[i].0 < n
  }

  /** Only snapshots of the current obligation were added, and it counts them. */
  ghost predicate Appended(x: seq<Snapshot>, y: seq<Snapshot>, o: Obligation, o': Obligation) {
    && x <= y && o'.id == o.id && o'.first == o.first && o'.count == o.count + |y| - |x|
    && forall k :: |x| <= k < |y| ==> y[k].obligation == o.id
  }

  lemma {:induction false} NothingAppended(x: seq<Snapshot>, o: Obligation)
    ensures Appended(x, x, o, o)
  {
  }

  lemma {:induction false} AppendedTwice(x: seq<Snapshot>, y: seq<Snapshot>, z: seq<Snapshot>, o: Obligation, o': Obligation, o'': Obligation)
    requires Appended(x, y, o, o') && Appended(y, z, o', o'')
    ensures Appended(x, z, o, o'')
  {
  }

  lemma {:induction false} DistinctPrefix(x: seq<(nat, nat)>, y: seq<(nat, nat)>)
    requires IdsDistinct(x + y)
    ensures IdsDistinct(x)
  {
    assert forall i :: 0 <= i < |x| ==> (x + y)[i] == x[i];
  }

  lemma {:induction false} TailIn(n: nat, x: (nat, nat), ys: seq<(nat, nat)>)
    requires IdsIn(n, [x] + ys)
    ensures x.0 < n && IdsIn(n, ys)
  {
    assert ([x] + ys)[0] == x;
    assert forall i :: 0 <= i < |ys| ==> ([x] + ys)[i + 1] == ys[i];
  }

  lemma {:induction false} PartsIn(n: nat, x: seq<(nat, nat)>, y: seq<(nat, nat)>)
    requires IdsIn(n, x + y)
    ensures IdsIn(n, x) && IdsIn(n, y)
  {
    assert forall i :: 0 <= i < |x| ==> (x + y)[i] == x[i];
    assert forall i :: 0 <= i < |y| ==> (x + y)[|x| + i] == y[i];
  }

  lemma {:induction false} AllOldsAt(before: seq<(nat, nat)>, n: nat, es: seq<Expr>, i: nat)
    requires i < |es| && IdsDistinct(before + AllOlds(es)) && IdsIn(n, AllOlds(es))
    ensures IdsDistinct((before + AllOlds(es[..i])) + Olds(es[i])) && IdsIn(n, Olds(es[i]))
    decreases |es|
  {
    hide IdsDistinct, IdsIn;
    var m := |es| - 1;
    var x, y := AllOlds(es[..m]), Olds(es[m]);
    assert before + (x + y) == (before + x) + y;
    PartsIn(n, x, y);
    if i < m {
      DistinctPrefix(before + x, y);
      AllOldsAt(before, n, es[..m], i);
      assert es[..m][..i] == es[..i] && es[..m][i] == es[i];
    }
  }

  // -------------------------------------------------------------- the obligation loop

  /** Slices lie end to end in the order of the conditions, and hold their snapshots. */
  ghost predicate SlicedFor(cs: seq<Condition>, obligations: seq<Obligation>, snapshots: seq<Snapshot>) {
    && |obligations| <= |cs|
    && forall i :: 0 <= i < |obligations| ==> SliceOf(cs, obligations, snapshots, i)
  }

  ghost predicate SliceOf(cs: seq<Condition>, obligations: seq<Obligation>, snapshots: seq<Snapshot>, i: nat)
    requires i < |obligations| && i < |cs|
  {
    var o := obligations[i];
    && o == Obligation(i, |ConditionOlds(cs[..i])|, |OldsOf(cs[i])|)
    && o.first + o.count == |ConditionOlds(cs[..i + 1])| <= |snapshots|
    && forall k :: o.first <= k < o.first + o.count ==> snapshots[k].obligation == i
  }

  method Lower(cs: seq<Condition>, syntax: Syntax) returns (t: Table)
    requires OldsFit(syntax, ConditionOlds(cs)) && IdsDistinct(ConditionOlds(cs))
    ensures |t.obligations| == |cs| && |t.ofExpression| == |syntax|
    ensures SlicedFor(cs, t.obligations, t.snapshots)
    ensures Records(t.snapshots, ConditionOlds(cs)) && Points(t.ofExpression, ConditionOlds(cs))
    ensures Preflight(t, syntax)
  {
    var l := new Lowerer(|syntax|);
    var obligations: seq<Obligation> := [];
    FitIn(syntax, ConditionOlds(cs));
    hide Records, Points, IdsDistinct, IdsIn, Appended, SliceOf, Olds, Preflight;
    var i := 0;
    while i < |cs|
      invariant 0 <= i <= |cs| && |obligations| == i && fresh(l) && fresh(l.ofExpression) && l.ofExpression.Length == |syntax|
      invariant l.Valid() && l.olds == ConditionOlds(cs[..i]) && |l.snapshots| == |l.olds|
      invariant SlicedFor(cs, obligations, l.snapshots)
    {
      ConditionAt(|syntax|, cs, i);
      ghost var before, slices := l.snapshots, obligations;
      l.obligation := Obligation(i, |l.snapshots|, 0);
      ghost var current := l.obligation;
      NothingAppended(before, current);
      if !cs[i].ofType { l.Expression(cs[i].expression); }
      RecordsLength(l.snapshots, l.olds);
      obligations := obligations + [l.obligation];
      SliceAdded(cs, slices, before, l.snapshots, current, l.obligation, i);
      i := i + 1;
    }
    assert cs[..i] == cs;
    t := Table(obligations, l.snapshots, l.ofExpression[..]);
    LoweringPassesPreflight(cs, syntax, t);
  }

  lemma {:induction false} RecordsLength(snapshots: seq<Snapshot>, olds: seq<(nat, nat)>)
    requires Records(snapshots, olds)
    ensures |snapshots| == |olds|
  {
  }

  lemma {:induction false} FitIn(syntax: Syntax, olds: seq<(nat, nat)>)
    requires OldsFit(syntax, olds)
    ensures IdsIn(|syntax|, olds)
  {
  }

  lemma {:induction false} ConditionAt(n: nat, cs: seq<Condition>, i: nat)
    requires i < |cs| && IdsDistinct(ConditionOlds(cs)) && IdsIn(n, ConditionOlds(cs))
    ensures ConditionOlds(cs[..i + 1]) == ConditionOlds(cs[..i]) + OldsOf(cs[i])
    ensures IdsDistinct(ConditionOlds(cs[..i]) + OldsOf(cs[i])) && IdsIn(n, OldsOf(cs[i]))
    decreases |cs|
  {
    hide IdsDistinct, IdsIn, OldsOf;
    assert cs[..i + 1][..i] == cs[..i];
    var m := |cs| - 1;
    var x, y := ConditionOlds(cs[..m]), OldsOf(cs[m]);
    PartsIn(n, x, y);
    if i < m {
      DistinctPrefix(x, y);
      ConditionAt(n, cs[..m], i);
      assert cs[..m][..i] == cs[..i] && cs[..m][..i + 1] == cs[..i + 1] && cs[..m][i] == cs[i];
    } else {
      assert cs[..i + 1] == cs;
    }
  }

  lemma {:induction false} SliceAdded(cs: seq<Condition>, obligations: seq<Obligation>, x: seq<Snapshot>, y: seq<Snapshot>, o: Obligation, o': Obligation, i: nat)
    requires i == |obligations| < |cs| && SlicedFor(cs, obligations, x) && Appended(x, y, o, o')
    requires o == Obligation(i, |x|, 0) && |x| == |ConditionOlds(cs[..i])|
    requires ConditionOlds(cs[..i + 1]) == ConditionOlds(cs[..i]) + OldsOf(cs[i]) && |y| == |ConditionOlds(cs[..i + 1])|
    ensures SlicedFor(cs, obligations + [o'], y)
  {
    hide ConditionOlds, OldsOf;
    var after := obligations + [o'];
    forall j | 0 <= j < |after| ensures SliceOf(cs, after, y, j) {
      if j < i { assert SliceOf(cs, obligations, x, j) && after[j] == obligations[j]; } else { assert after[i] == o'; }
    }
  }

  // ---------------------------------------------------------------------- inspection

  predicate ObligationFits(t: Table, i: nat)
    requires i < |t.obligations|
  {
    var o := t.obligations[i];
    && o.id == i && o.first <= |t.snapshots| && o.count <= |t.snapshots| - o.first
    && forall k :: o.first <= k < o.first + o.count ==> t.snapshots[k].obligation == o.id
  }

  predicate SnapshotFits(t: Table, syntax: Syntax, k: nat)
    requires k < |t.snapshots|
  {
    var s := t.snapshots[k];
    && s.id == k && s.obligation < |t.obligations| && s.source < |syntax| && s.operand < |syntax|
    && t.obligations[s.obligation].first <= k && k - t.obligations[s.obligation].first < t.obligations[s.obligation].count
    && syntax[s.source] == Some(s.operand)
    && s.source < |t.ofExpression| && t.ofExpression[s.source] == Some(k)
  }

  predicate ExpressionFits(t: Table, e: nat)
    requires e < |t.ofExpression|
  {
    t.ofExpression[e].Some? ==> t.ofExpression[e].value < |t.snapshots| && t.snapshots[t.ofExpression[e].value].source == e
  }

  /** The checks on snapshots before a package is inspected. */
  predicate Preflight(t: Table, syntax: Syntax) {
    && |t.ofExpression| == |syntax|
    && (forall i :: 0 <= i < |t.obligations| ==> ObligationFits(t, i))
    && (forall k :: 0 <= k < |t.snapshots| ==> SnapshotFits(t, syntax, k))
    && (forall e :: 0 <= e < |t.ofExpression| ==> ExpressionFits(t, e))
  }

  lemma {:induction false} SnapshotHome(cs: seq<Condition>, t: Table, n: nat, k: nat) returns (i: nat)
    requires |t.obligations| == |cs| && SlicedFor(cs, t.obligations, t.snapshots)
    requires n <= |cs| && k < |ConditionOlds(cs[..n])|
    ensures i < n && t.obligations[i].first <= k < t.obligations[i].first + t.obligations[i].count
    decreases n
  {
    assert SliceOf(cs, t.obligations, t.snapshots, n - 1);
    if k >= |ConditionOlds(cs[..n - 1])| {
      i := n - 1;
    } else {
      i := SnapshotHome(cs, t, n - 1, k);
    }
  }

  /** The inspection loops. */
  method Inspect(t: Table, syntax: Syntax) returns (ok: bool)
    ensures ok <==> Preflight(t, syntax)
  {
    hide SnapshotFits, ExpressionFits;
    if |t.ofExpression| != |syntax| { return false; }
    var i := 0;
    while i < |t.obligations|
      invariant 0 <= i <= |t.obligations| && forall j :: 0 <= j < i ==> ObligationFits(t, j)
    {
      var fits := InspectSlice(t, i);
      if !fits { return false; }
      i := i + 1;
    }
    i := 0;
    while i < |t.snapshots|
      invariant 0 <= i <= |t.snapshots| && forall j :: 0 <= j < i ==> SnapshotFits(t, syntax, j)
    {
      if !SnapshotFits(t, syntax, i) { return false; }
      i := i + 1;
    }
    i := 0;
    while i < |t.ofExpression|
      invariant 0 <= i <= |t.ofExpression| && forall j :: 0 <= j < i ==> ExpressionFits(t, j)
    {
      if !ExpressionFits(t, i) { return false; }
      i := i + 1;
    }
    ok := true;
  }

  method InspectSlice(t: Table, i: nat) returns (ok: bool)
    requires i < |t.obligations|
    ensures ok <==> ObligationFits(t, i)
  {
    var o := t.obligations[i];
    if o.id != i || o.first > |t.snapshots| || o.count > |t.snapshots| - o.first { return false; }
    var k := 0;
    while k < o.count
      invariant 0 <= k <= o.count && forall j :: o.first <= j < o.first + k ==> t.snapshots[j].obligation == o.id
    {
      if t.snapshots[o.first + k].obligation != o.id { return false; }
      k := k + 1;
    }
    ok := true;
  }

  /** What lowering produces passes inspection, for all conditions whose old expressions
      occur once. */
  lemma {:induction false} LoweringPassesPreflight(cs: seq<Condition>, syntax: Syntax, t: Table)
    requires OldsFit(syntax, ConditionOlds(cs)) && |t.obligations| == |cs| && |t.ofExpression| == |syntax|
    requires SlicedFor(cs, t.obligations, t.snapshots)
    requires Records(t.snapshots, ConditionOlds(cs)) && Points(t.ofExpression, ConditionOlds(cs))
    ensures Preflight(t, syntax)
  {
    var olds := ConditionOlds(cs);
    assert cs[..|cs|] == cs;
    forall i | 0 <= i < |t.obligations| ensures ObligationFits(t, i) {
      assert SliceOf(cs, t.obligations, t.snapshots, i);
    }
    forall k | 0 <= k < |t.snapshots| ensures SnapshotFits(t, syntax, k) {
      var i := SnapshotHome(cs, t, |cs|, k);
      assert SliceOf(cs, t.obligations, t.snapshots, i);
      assert t.snapshots[k].source == olds[k].0;
    }
  }

  /** Inspection accepts only tables whose slices partition the arena ... */
  lemma {:induction false} PreflightPartitions(t: Table, syntax: Syntax, k: nat, i: nat)
    requires Preflight(t, syntax) && k < |t.snapshots| && i < |t.obligations|
    ensures t.obligations[i].first <= k < t.obligations[i].first + t.obligations[i].count <==> t.snapshots[k].obligation == i
  {
    assert SnapshotFits(t, syntax, k) && ObligationFits(t, i);
  }

  /** ... and whose two tables are inverse to each other. */
  lemma {:induction false} PreflightInverse(t: Table, syntax: Syntax, k: nat, e: nat)
    requires Preflight(t, syntax) && k < |t.snapshots| && e < |t.ofExpression|
    ensures t.snapshots[k].source == e <==> t.ofExpression[e] == Some(k)
  {
    assert SnapshotFits(t, syntax, k) && ExpressionFits(t, e);
  }
}
