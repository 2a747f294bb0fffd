/** Lexical scoping by positions: which declarations enclose a path in the tree, and that a path
    means the innermost of them with its name. */
module ScopePositions {
  import opened Options
  import opened LexicalScope

  // ------------------------------------------------------------------------ positions

  /** A step from an expression to one that it contains. */
  datatype Move =
    | ToBase
    | ToChild(child: nat)
    | ToScrutinee
    | ToGuard(arm: nat)
    | ToValue(arm: nat)
    | ToInitializer(statement: nat)
    | ToPart(statement: nat, part: nat)

  function Sub(e: Expr, m: Move): (r: Option<Expr>)
    ensures r.Some? ==> r.value < e
  {
    match (e, m)
    case (Field(_, base, _), ToBase) => Some(base)
    case (Node(_, es), ToChild(i)) => if i < |es| then Some(es[i]) else None
    case (Match(_, s, _), ToScrutinee) => Some(s)
    case (Match(_, _, arms), ToGuard(i)) => if i < |arms| then arms[i].guard else None
    case (Match(_, _, arms), ToValue(i)) => if i < |arms| then Some(arms[i].value) else None
    case (Block(_, ss), ToInitializer(k)) => if k < |ss| && ss[k].Let? then ss[k].value else None
    case (Block(_, ss), ToPart(k, j)) => if k < |ss| && j < |Parts(ss[k])| then Some(Parts(ss[k])[j]) else None
    case _ => None
  }

  function Parts(s: Statement): seq<Expr> {
    if s.Loop? || s.Other? then s.parts else []
  }

  /** The names that the statements before the k-th declare. */
  function Declared(ss: seq<Statement>, k: nat): seq<Binder>
    requires k <= |ss|
  {
    if k == 0 then []
    else Declared(ss, k - 1) + if ss[k - 1].Let? then [Binder(ss[k - 1].name, Site(Variable, ss[k - 1].id))] else []
  }

  /** The declarations that a step comes under: an arm's guard and value under those of its
      pattern, a statement under those of the statements before it. */
  function Added(e: Expr, m: Move): seq<Binder> {
    match (e, m)
    case (Match(_, _, arms), ToGuard(i)) => if i < |arms| then Binders(arms[i].pattern) else []
    case (Match(_, _, arms), ToValue(i)) => if i < |arms| then Binders(arms[i].pattern) else []
    case (Block(_, ss), ToInitializer(k)) => if k <= |ss| then Declared(ss, k) else []
    case (Block(_, ss), ToPart(k, _)) => if k <= |ss| then Declared(ss, k) else []
    case _ => []
  }

  function At(e: Expr, path: seq<Move>): Option<Expr>
    decreases |path|
  {
    if path == [] then Some(e)
    else if Sub(e, path[0]).None? then None else At(Sub(e, path[0]).value, path[1..])
  }

  /** All declarations around a position, outermost first. */
  function Around(e: Expr, path: seq<Move>): seq<Binder>
    decreases |path|
  {
    if path == [] || Sub(e, path[0]).None? then []
    else Added(e, path[0]) + Around(Sub(e, path[0]).value, path[1..])
  }

  // ---------------------------------------------------------------------- environments

  ghost function Under(env: Env, bs: seq<Binder>): Env { BindAll(Scope(env, {}), bs).env }

  lemma {:induction false} BindAllEnv(s: Scope, bs: seq<Binder>)
    ensures BindAll(s, bs).env == Under(s.env, bs)
    decreases |bs|
  {
    if bs != [] { BindAllEnv(s, bs[..|bs| - 1]); }
  }

  lemma {:induction false} UnderJoin(env: Env, x: seq<Binder>, y: seq<Binder>)
    ensures Under(env, x + y) == Under(Under(env, x), y)
    decreases |y|
  {
    if y == [] {
      assert x + y == x;
    } else {
      var n := |y| - 1;
      UnderJoin(env, x, y[..n]);
      assert (x + y)[..|x + y| - 1] == x + y[..n];
    }
  }

  /** Declaration j is the innermost with the name. */
  ghost predicate Innermost(bs: seq<Binder>, j: nat, name: string) {
    j < |bs| && bs[j].name == name && forall k :: j < k < |bs| ==> bs[k].name != name
  }

  lemma {:induction false} UnderMeans(env: Env, bs: seq<Binder>, name: string)
    ensures forall j: nat :: Innermost(bs, j, name) ==> name in Under(env, bs) && Under(env, bs)[name] == bs[j].site
    ensures (forall j :: 0 <= j < |bs| ==> bs[j].name != name) ==>
      (name in Under(env, bs) <==> name in env) && (name in env ==> Under(env, bs)[name] == env[name])
    decreases |bs|
  {
    hide Under, Innermost;
    if bs == [] {
      NoneUnder(env);
      NoInnermost(name);
    } else {
      var n := |bs| - 1;
      UnderMeans(env, bs[..n], name);
      UnderNext(env, bs);
      InnermostNext(bs, name);
    }
  }

  lemma {:induction false} NoneUnder(env: Env)
    ensures Under(env, []) == env
  {
  }

  lemma {:induction false} NoInnermost(name: string)
    ensures forall j: nat :: !Innermost([], j, name)
  {
  }

  lemma {:induction false} UnderNext(env: Env, bs: seq<Binder>)
    requires bs != []
    ensures Under(env, bs) == Under(env, bs[..|bs| - 1])[bs[|bs| - 1].name := bs[|bs| - 1].site]
  {
  }

  lemma {:induction false} InnermostNext(bs: seq<Binder>, name: string)
    requires bs != []
    ensures bs[|bs| - 1].name == name ==> forall j: nat :: Innermost(bs, j, name) ==> j == |bs| - 1
    ensures bs[|bs| - 1].name != name ==> forall j: nat :: Innermost(bs, j, name) ==> Innermost(bs[..|bs| - 1], j, name) && bs[..|bs| - 1][j] == bs[j]
  {
  }

  // --------------------------------------------------------------------- identifiers

  /** The identifiers that resolving the expression records. */
  function Ids(e: Expr): set<nat>
    decreases e, 0
  {
    match e
    case Path(id, _) => {id}
    case Field(id, base, _) => {id} + Ids(base)
    case Node(_, es) => AllIds(es)
    case Match(_, s, arms) => Ids(s) + ArmsIds(arms)
    case Block(_, ss) => StatementsIds(ss)
  }

  function AllIds(es: seq<Expr>): set<nat>
    decreases es, 0
  {
    if es == [] then {} else AllIds(es[..|es| - 1]) + Ids(es[|es| - 1])
  }

  function ArmIds(arm: Arm): set<nat>
    decreases arm, 0
  {
    (if arm.guard.Some? then Ids(arm.guard.value) else {}) + Ids(arm.value)
  }

  function ArmsIds(arms: seq<Arm>): set<nat>
    decreases arms, 0
  {
    if arms == [] then {} else ArmsIds(arms[..|arms| - 1]) + ArmIds(arms[|arms| - 1])
  }

  function StatementIds(s: Statement): set<nat>
    decreases s, 0
  {
    match s
    case Let(_, _, value) => if value.Some? then Ids(value.value) else {}
    case Loop(parts) => AllIds(parts)
    case Exit => {}
    case Other(parts) => AllIds(parts)
  }

  function StatementsIds(ss: seq<Statement>): set<nat>
    decreases ss, 0
  {
    if ss == [] then {} else StatementsIds(ss[..|ss| - 1]) + StatementIds(ss[|ss| - 1])
  }

  /** No two expressions of the tree have the same identifier. */
  predicate Unique(e: Expr)
    decreases e, 0
  {
    match e
    case Path(_, _) => true
    case Field(id, base, _) => id !in Ids(base) && Unique(base)
    case Node(_, es) => AllUnique(es)
    case Match(_, s, arms) => Ids(s) !! ArmsIds(arms) && Unique(s) && ArmsUnique(arms)
    case Block(_, ss) => StatementsUnique(ss)
  }

  predicate AllUnique(es: seq<Expr>)
    decreases es, 0
  {
    es == [] || (AllUnique(es[..|es| - 1]) && AllIds(es[..|es| - 1]) !! Ids(es[|es| - 1]) && Unique(es[|es| - 1]))
  }

  predicate ArmUnique(arm: Arm)
    decreases arm, 0
  {
    (arm.guard.Some? ==> Ids(arm.guard.value) !! Ids(arm.value) && Unique(arm.guard.value)) && Unique(arm.value)
  }

  predicate ArmsUnique(arms: seq<Arm>)
    decreases arms, 0
  {
    arms == [] || (ArmsUnique(arms[..|arms| - 1]) && ArmsIds(arms[..|arms| - 1]) !! ArmIds(arms[|arms| - 1]) && ArmUnique(arms[|arms| - 1]))
  }

  predicate StatementUnique(s: Statement)
    decreases s, 0
  {
    match s
    case Let(_, _, value) => value.Some? ==> Unique(value.value)
    case Loop(parts) => AllUnique(parts)
    case Exit => true
    case Other(parts) => AllUnique(parts)
  }

  predicate StatementsUnique(ss: seq<Statement>)
    decreases ss, 0
  {
    ss == [] || (StatementsUnique(ss[..|ss| - 1]) && StatementsIds(ss[..|ss| - 1]) !! StatementIds(ss[|ss| - 1]) && StatementUnique(ss[|ss| - 1]))
  }

  lemma {:induction false} Recorded(c: Context, env: Env, loops: nat, e: Expr)
    ensures Resolve(c, env, loops, e).resolutions.Keys <= Ids(e)
    decreases e, 0
  {
    hide RootIsLocal, Visible;
    match e
    case Path(_, _) =>
    case Field(_, base, _) => Recorded(c, env, loops, base);
    case Node(_, es) => AllRecorded(c, env, loops, es);
    case Match(_, s, arms) =>
      Recorded(c, env, loops, s);
      ArmsRecorded(c, env, loops, arms);
    case Block(_, ss) => StatementsRecorded(c, Scope(env, {}), loops, ss);
  }

  lemma {:induction false} AllRecorded(c: Context, env: Env, loops: nat, es: seq<Expr>)
    ensures ResolveAll(c, env, loops, es).resolutions.Keys <= AllIds(es)
    decreases es, 0
  {
    if es != [] {
      AllRecorded(c, env, loops, es[..|es| - 1]);
      Recorded(c, env, loops, es[|es| - 1]);
    }
  }

  lemma {:induction false} ArmRecorded(c: Context, env: Env, loops: nat, arm: Arm)
    ensures ResolveArm(c, env, loops, arm).resolutions.Keys <= ArmIds(arm)
    decreases arm, 0
  {
    var inner := BindAll(Scope(env, {}), Binders(arm.pattern)).env;
    if arm.guard.Some? { Recorded(c, inner, loops, arm.guard.value); }
    Recorded(c, inner, loops, arm.value);
  }

  lemma {:induction false} ArmsRecorded(c: Context, env: Env, loops: nat, arms: seq<Arm>)
    ensures ResolveArms(c, env, loops, arms).resolutions.Keys <= ArmsIds(arms)
    decreases arms, 0
  {
    if arms != [] {
      ArmsRecorded(c, env, loops, arms[..|arms| - 1]);
      ArmRecorded(c, env, loops, arms[|arms| - 1]);
    }
  }

  lemma {:induction false} StatementRecorded(c: Context, s: Scope, loops: nat, statement: Statement)
    ensures ResolveStatement(c, s, loops, statement).1.resolutions.Keys <= StatementIds(statement)
    decreases statement, 0
  {
    match statement
    case Let(_, _, value) => if value.Some? { Recorded(c, s.env, loops, value.value); }
    case Loop(parts) => AllRecorded(c, s.env, loops + 1, parts);
    case Exit =>
    case Other(parts) => AllRecorded(c, s.env, loops, parts);
  }

  lemma {:induction false} StatementsRecorded(c: Context, s: Scope, loops: nat, ss: seq<Statement>)
    ensures ResolveStatements(c, s, loops, ss).1.resolutions.Keys <= StatementsIds(ss)
    decreases ss, 0
  {
    if ss != [] {
      StatementsRecorded(c, s, loops, ss[..|ss| - 1]);
      StatementRecorded(c, ResolveStatements(c, s, loops, ss[..|ss| - 1]).0, loops, ss[|ss| - 1]);
    }
  }

  // ----------------------------------------------------- one step down the tree

  /** The part of an outcome about some identifiers. */
  ghost predicate Agrees(x: Outcome, y: Outcome, ids: set<nat>) {
    forall id :: id in ids ==> (id in x.resolutions <==> id in y.resolutions) && (id in y.resolutions ==> x.resolutions[id] == y.resolutions[id])
  }

  lemma {:induction false} PlusAgrees(x: Outcome, y: Outcome, ids: set<nat>)
    ensures x.resolutions.Keys !! ids ==> Agrees(Plus(x, y), y, ids)
    ensures y.resolutions.Keys !! ids ==> Agrees(Plus(x, y), x, ids)
  {
  }

  lemma {:induction false} AgreesOn(x: Outcome, y: Outcome, z: Outcome, ids: set<nat>, more: set<nat>)
    requires Agrees(x, y, more) && Agrees(y, z, ids) && ids <= more
    ensures Agrees(x, z, ids)
  {
  }

  lemma {:induction false} ChildAgrees(c: Context, env: Env, loops: nat, es: seq<Expr>, i: nat)
    requires AllUnique(es) && i < |es|
    ensures Unique(es[i]) && Ids(es[i]) <= AllIds(es)
    ensures Agrees(ResolveAll(c, env, loops, es), Resolve(c, env, loops, es[i]), Ids(es[i]))
    decreases |es|
  {
    var n := |es| - 1;
    var x, y := ResolveAll(c, env, loops, es[..n]), Resolve(c, env, loops, es[n]);
    AllRecorded(c, env, loops, es[..n]);
    Recorded(c, env, loops, es[n]);
    PlusAgrees(x, y, Ids(es[i]));
    if i < n {
      ChildAgrees(c, env, loops, es[..n], i);
      assert es[..n][i] == es[i];
      AgreesOn(Plus(x, y), x, Resolve(c, env, loops, es[i]), Ids(es[i]), Ids(es[i]));
    }
  }

  lemma {:induction false} ArmAgrees(c: Context, env: Env, loops: nat, arms: seq<Arm>, i: nat)
    requires ArmsUnique(arms) && i < |arms|
    ensures ArmUnique(arms[i]) && ArmIds(arms[i]) <= ArmsIds(arms)
    ensures Agrees(ResolveArms(c, env, loops, arms), ResolveArm(c, env, loops, arms[i]), ArmIds(arms[i]))
    decreases |arms|
  {
    hide ArmIds, ArmUnique, ResolveArm;
    var n := |arms| - 1;
    var x, y := ResolveArms(c, env, loops, arms[..n]), ResolveArm(c, env, loops, arms[n]);
    ArmsRecorded(c, env, loops, arms[..n]);
    ArmRecorded(c, env, loops, arms[n]);
    PlusAgrees(x, y, ArmIds(arms[i]));
    if i < n {
      ArmAgrees(c, env, loops, arms[..n], i);
      assert arms[..n][i] == arms[i];
      AgreesOn(Plus(x, y), x, ResolveArm(c, env, loops, arms[i]), ArmIds(arms[i]), ArmIds(arms[i]));
    }
  }

  lemma {:induction false} InArmAgrees(c: Context, env: Env, loops: nat, arm: Arm)
    requires ArmUnique(arm)
    ensures
      var inner := Under(env, Binders(arm.pattern));
      && Agrees(ResolveArm(c, env, loops, arm), Resolve(c, inner, loops, arm.value), Ids(arm.value))
      && (arm.guard.Some? ==> Agrees(ResolveArm(c, env, loops, arm), Resolve(c, inner, loops, arm.guard.value), Ids(arm.guard.value)))
  {
    var inner := Under(env, Binders(arm.pattern));
    Recorded(c, inner, loops, arm.value);
    if arm.guard.Some? { Recorded(c, inner, loops, arm.guard.value); }
    hide Resolve, Ids, Unique, BindAllProblems;
  }

  /** Statement k of a block is resolved under the declarations of the statements before it. */
  lemma {:induction false} StatementAgrees(c: Context, s: Scope, loops: nat, ss: seq<Statement>, k: nat) returns (before: Scope)
    requires StatementsUnique(ss) && k < |ss|
    ensures before.env == Under(s.env, Declared(ss, k))
    ensures StatementUnique(ss[k]) && StatementIds(ss[k]) <= StatementsIds(ss)
    ensures Agrees(ResolveStatements(c, s, loops, ss).1, ResolveStatement(c, before, loops, ss[k]).1, StatementIds(ss[k]))
    decreases |ss|
  {
    hide StatementIds, StatementUnique, ResolveStatement;
    var n := |ss| - 1;
    var scope := ResolveStatements(c, s, loops, ss[..n]).0;
    var x, y := ResolveStatements(c, s, loops, ss[..n]).1, ResolveStatement(c, scope, loops, ss[n]).1;
    StatementsRecorded(c, s, loops, ss[..n]);
    StatementRecorded(c, scope, loops, ss[n]);
    PlusAgrees(x, y, StatementIds(ss[k]));
    if k < n {
      before := StatementAgrees(c, s, loops, ss[..n], k);
      assert ss[..n][k] == ss[k];
      DeclaredPrefix(ss, n, k);
      AgreesOn(Plus(x, y), x, ResolveStatement(c, before, loops, ss[k]).1, StatementIds(ss[k]), StatementIds(ss[k]));
    } else {
      before := scope;
      ScopeAfter(c, s, loops, ss[..n]);
      DeclaredPrefix(ss, n, n);
    }
  }

  lemma {:induction false} DeclaredPrefix(ss: seq<Statement>, n: nat, k: nat)
    requires k <= n <= |ss|
    ensures Declared(ss[..n], k) == Declared(ss, k)
    decreases k
  {
    if k > 0 { DeclaredPrefix(ss, n, k - 1); }
  }

  lemma {:induction false} ScopeAfter(c: Context, s: Scope, loops: nat, ss: seq<Statement>)
    ensures ResolveStatements(c, s, loops, ss).0.env == Under(s.env, Declared(ss, |ss|))
    decreases |ss|
  {
    if ss != [] {
      var n := |ss| - 1;
      ScopeAfter(c, s, loops, ss[..n]);
      DeclaredPrefix(ss, n, n);
      UnderJoin(s.env, Declared(ss, n), if ss[n].Let? then [Binder(ss[n].name, Site(Variable, ss[n].id))] else []);
      OneUnder(Under(s.env, Declared(ss, n)), ss[n]);
    }
  }

  lemma {:induction false} OneUnder(env: Env, s: Statement)
    ensures s.Let? ==> Under(env, [Binder(s.name, Site(Variable, s.id))]) == env[s.name := Site(Variable, s.id)]
    ensures Under(env, []) == env
  {
    if s.Let? {
      var b := [Binder(s.name, Site(Variable, s.id))];
      assert b[..0] == [];
      assert BindAll(Scope(env, {}), b[..0]) == Scope(env, {});
    }
  }

  // ------------------------------------------------------------------- the whole way

  /** The base of a field access is resolved only if the access is not taken for a qualified name. */
  ghost predicate BaseResolved(c: Context, env: Env, e: Expr) {
    e.Field? ==> RootIsLocal(c, env, e) || Visible(c, e.text).None?
  }

  ghost predicate Resolved(c: Context, env: Env, e: Expr, path: seq<Move>)
    decreases |path|
  {
    path != [] && Sub(e, path[0]).Some? ==>
      BaseResolved(c, env, e) && Resolved(c, Under(env, Added(e, path[0])), Sub(e, path[0]).value, path[1..])
  }

  /** One step down: what is resolved there is resolved under the declarations of the step. */
  lemma {:induction false} StepAgrees(c: Context, env: Env, loops: nat, e: Expr, m: Move) returns (inside: nat)
    requires Unique(e) && Sub(e, m).Some? && BaseResolved(c, env, e)
    ensures Unique(Sub(e, m).value) && Ids(Sub(e, m).value) <= Ids(e)
    ensures Agrees(Resolve(c, env, loops, e), Resolve(c, Under(env, Added(e, m)), inside, Sub(e, m).value), Ids(Sub(e, m).value))
  {
    inside := loops;
    NoneUnder(env);
    match e
    case Path(_, _) =>
    case Field(id, base, _) => FieldAgrees(c, env, loops, e);
    case Node(_, es) => ChildAgrees(c, env, loops, es, m.child);
    case Match(_, s, arms) => MatchAgrees(c, env, loops, e, m);
    case Block(_, ss) => inside := BlockAgrees(c, env, loops, e, m);
  }

  lemma {:induction false} FieldAgrees(c: Context, env: Env, loops: nat, e: Expr)
    requires Unique(e) && e.Field? && BaseResolved(c, env, e)
    ensures Agrees(Resolve(c, env, loops, e), Resolve(c, env, loops, e.base), Ids(e.base))
  {
    hide RootIsLocal, Visible, Ids;
    if !RootIsLocal(c, env, e) { PlusAgrees(Outcome(map[e.id := NotApplicable], []), Resolve(c, env, loops, e.base), Ids(e.base)); }
  }

  lemma {:induction false} MatchAgrees(c: Context, env: Env, loops: nat, e: Expr, m: Move)
    requires Unique(e) && e.Match? && Sub(e, m).Some?
    ensures Unique(Sub(e, m).value) && Ids(Sub(e, m).value) <= Ids(e)
    ensures Agrees(Resolve(c, env, loops, e), Resolve(c, Under(env, Added(e, m)), loops, Sub(e, m).value), Ids(Sub(e, m).value))
  {
    NoneUnder(env);
    Recorded(c, env, loops, e.scrutinee);
    ArmsRecorded(c, env, loops, e.arms);
    var x, y := Resolve(c, env, loops, e.scrutinee), ResolveArms(c, env, loops, e.arms);
    if m.ToScrutinee? {
      hide Ids, Resolve, ResolveArms;
      MatchParts(c, env, loops, e);
      PlusAgrees(x, y, Ids(e.scrutinee));
    } else {
      var arm := e.arms[m.arm];
      ArmAgrees(c, env, loops, e.arms, m.arm);
      InArmAgrees(c, env, loops, arm);
      var sub, ids := Sub(e, m).value, Ids(Sub(e, m).value);
      assert ids <= ArmIds(arm);
      MatchParts(c, env, loops, e);
      hide Resolve, ResolveArms, ArmsIds, ArmIds, Unique, Ids;
      PlusAgrees(x, y, ids);
      AgreesOn(y, ResolveArm(c, env, loops, arm), Resolve(c, Under(env, Binders(arm.pattern)), loops, sub), ids, ArmIds(arm));
      AgreesOn(Plus(x, y), y, Resolve(c, Under(env, Binders(arm.pattern)), loops, sub), ids, ids);
    }
  }

  lemma {:induction false} MatchParts(c: Context, env: Env, loops: nat, e: Expr)
    requires e.Match?
    ensures Resolve(c, env, loops, e) == Plus(Resolve(c, env, loops, e.scrutinee), ResolveArms(c, env, loops, e.arms))
    ensures Ids(e) == Ids(e.scrutinee) + ArmsIds(e.arms)
    ensures Unique(e) ==> Ids(e.scrutinee) !! ArmsIds(e.arms) && Unique(e.scrutinee)
  {
  }

  lemma {:induction false} BlockAgrees(c: Context, env: Env, loops: nat, e: Expr, m: Move) returns (inside: nat)
    requires Unique(e) && e.Block? && Sub(e, m).Some?
    ensures Unique(Sub(e, m).value) && Ids(Sub(e, m).value) <= Ids(e)
    ensures Agrees(Resolve(c, env, loops, e), Resolve(c, Under(env, Added(e, m)), inside, Sub(e, m).value), Ids(Sub(e, m).value))
  {
    var k := m.statement;
    var s := e.statements[k];
    var before := StatementAgrees(c, Scope(env, {}), loops, e.statements, k);
    inside := if s.Loop? then loops + 1 else loops;
    InStatementAgrees(c, before, loops, s, m);
    var sub := Sub(e, m).value;
    hide Resolve, ResolveStatement, ResolveStatements, Ids, StatementIds, StatementsIds, Unique, StatementUnique;
    BlockParts(c, env, loops, e);
    AgreesOn(Resolve(c, env, loops, e), ResolveStatement(c, before, loops, s).1, Resolve(c, before.env, inside, sub), Ids(sub), StatementIds(s));
  }

  lemma {:induction false} BlockParts(c: Context, env: Env, loops: nat, e: Expr)
    requires e.Block?
    ensures Resolve(c, env, loops, e) == ResolveStatements(c, Scope(env, {}), loops, e.statements).1
    ensures Ids(e) == StatementsIds(e.statements) && (Unique(e) ==> StatementsUnique(e.statements))
  {
  }

  lemma {:induction false} InStatementAgrees(c: Context, before: Scope, loops: nat, s: Statement, m: Move)
    requires StatementUnique(s)
    ensures s.Let? && s.value.Some? ==>
      && Unique(s.value.value) && Ids(s.value.value) <= StatementIds(s)
      && Agrees(ResolveStatement(c, before, loops, s).1, Resolve(c, before.env, loops, s.value.value), Ids(s.value.value))
    ensures m.ToPart? && m.part < |Parts(s)| ==>
      var sub, inside := Parts(s)[m.part], if s.Loop? then loops + 1 else loops;
      && Unique(sub) && Ids(sub) <= StatementIds(s)
      && Agrees(ResolveStatement(c, before, loops, s).1, Resolve(c, before.env, inside, sub), Ids(sub))
  {
    if s.Let? && s.value.Some? {
      hide Ids, Unique, Resolve;
      PlusAgrees(Resolve(c, before.env, loops, s.value.value), Outcome(map[], BindProblems(before, s.name)), Ids(s.value.value));
    } else if m.ToPart? && m.part < |Parts(s)| {
      ChildAgrees(c, before.env, if s.Loop? then loops + 1 else loops, Parts(s), m.part);
    }
  }

  /** What is resolved at a position is resolved under all declarations around it. */
  lemma {:induction false} PositionAgrees(c: Context, env: Env, loops: nat, e: Expr, path: seq<Move>) returns (inside: nat)
    requires Unique(e) && At(e, path).Some? && Resolved(c, env, e, path)
    ensures Ids(At(e, path).value) <= Ids(e)
    ensures Agrees(Resolve(c, env, loops, e), Resolve(c, Under(env, Around(e, path)), inside, At(e, path).value), Ids(At(e, path).value))
    decreases |path|
  {
    hide Resolve, Ids, Unique, Under, Sub, Added, BaseResolved;
    inside := loops;
    NoneUnder(env);
    if path != [] {
      var sub, added := Sub(e, path[0]).value, Added(e, path[0]);
      var middle := StepAgrees(c, env, loops, e, path[0]);
      inside := PositionAgrees(c, Under(env, added), middle, sub, path[1..]);
      UnderJoin(env, added, Around(sub, path[1..]));
      var end := At(e, path).value;
      AgreesOn(Resolve(c, env, loops, e), Resolve(c, Under(env, added), middle, sub), Resolve(c, Under(env, Around(e, path)), inside, end), Ids(end), Ids(sub));
    }
  }

  lemma {:induction false} VisibleMeans(c: Context, name: string)
    ensures IsVisible(c, name, Visible(c, name))
  {
    var d := FirstDeclaration(c, name, 0);
    forall i: nat | FirstDeclares(c, i, name) ensures Visible(c, name) == Some(i) {
      assert d.Some? && !(d.value < i) && !(i < d.value);
    }
    if forall j :: 0 <= j < |c.declarations| ==> !Declares(c, j, name) {
      forall i: nat | FirstImports(c, i, name) ensures Visible(c, name) == c.imports[i].target {
        var k: nat :| k < |c.imports| && Imports(c, k, name) && c.imports[k].target == FirstImport(c, name, 0) && forall j :: 0 <= j < k ==> !Imports(c, j, name);
        assert !(k < i) && !(i < k);
      }
    }
  }

  /** Lexical scoping: a path means the innermost declaration around it that has its name; if none
      has, what the environment binds the name to; else what the module makes visible, else a
      builtin. In a refinement, self means the refined value. */
  lemma {:induction false} PathMeans(c: Context, env: Env, loops: nat, e: Expr, path: seq<Move>, id: nat, name: string)
    requires Unique(e) && At(e, path) == Some(Path(id, name)) && Resolved(c, env, e, path)
    ensures id in Resolve(c, env, loops, e).resolutions
    ensures
      var r, bs := Resolve(c, env, loops, e).resolutions[id], Around(e, path);
      if c.refinementSelf.Some? && name == "self" then r == RefinementSelf(c.refinementSelf.value)
      else
        && (forall j: nat :: Innermost(bs, j, name) ==> r == Local(bs[j].site))
        && ((forall j :: 0 <= j < |bs| ==> bs[j].name != name) ==>
              && (name in env ==> r == Local(env[name]))
              && (name !in env ==>
                    || (r.Definition? && IsVisible(c, name, Some(r.definition)))
                    || (IsVisible(c, name, None) && r == if name in BUILTINS then Builtin(name) else Unresolved)))
  {
    hide Visible, IsVisible, Around, Under;
    var inside := PositionAgrees(c, env, loops, e, path);
    UnderMeans(env, Around(e, path), name);
    VisibleMeans(c, name);
    PathOutcome(c, Under(env, Around(e, path)), inside, id, name);
    hide Resolve, Ids;
  }

  lemma {:induction false} PathOutcome(c: Context, env: Env, loops: nat, id: nat, name: string)
    ensures Resolve(c, env, loops, Path(id, name)) == ResolvePath(c, env, id, name) && Ids(Path(id, name)) == {id}
  {
  }

  // ------------------------------------------------------------------------ problems

  function LoopsIn(e: Expr, m: Move, loops: nat): nat {
    if e.Block? && m.ToPart? && m.statement < |e.statements| && e.statements[m.statement].Loop? then loops + 1 else loops
  }

  function LoopsAround(e: Expr, path: seq<Move>, loops: nat): nat
    decreases |path|
  {
    if path == [] || Sub(e, path[0]).None? then loops else LoopsAround(Sub(e, path[0]).value, path[1..], LoopsIn(e, path[0], loops))
  }

  ghost predicate NamedTwice(bs: seq<Binder>, name: string) {
    exists j, k :: 0 <= j < k < |bs| && bs[j].name == name && bs[k].name == name
  }

  ghost predicate NamedIn(bs: seq<Binder>, name: string) {
    exists j :: 0 <= j < |bs| && bs[j].name == name
  }

  /** What is wrong with the expression itself: a path that means nothing, a pattern or a block
      that declares a name twice, or an exit outside every loop. */
  ghost predicate Cause(c: Context, env: Env, loops: nat, e: Expr, problem: Problem) {
    match e
    case Path(id, name) => problem == UnresolvedName(name) && ResolvePath(c, env, id, name).resolutions[id].Unresolved?
    case Match(_, _, arms) => problem.DuplicateName? && exists i :: 0 <= i < |arms| && NamedTwice(Binders(arms[i].pattern), problem.name)
    case Block(_, ss) => exists k :: 0 <= k < |ss| && StatementCause(loops, ss, k, problem)
    case _ => false
  }

  ghost predicate StatementCause(loops: nat, ss: seq<Statement>, k: nat, problem: Problem)
    requires k < |ss|
  {
    || (problem.DuplicateName? && ss[k].Let? && ss[k].name == problem.name && NamedIn(Declared(ss, k), problem.name))
    || (problem.MisplacedExit? && ss[k].Exit? && loops == 0)
  }

  lemma {:induction false} OwnNames(s: Scope, bs: seq<Binder>, name: string)
    requires s.own == {}
    ensures name in BindAll(s, bs).own <==> NamedIn(bs, name)
    decreases |bs|
  {
    if bs != [] {
      var n := |bs| - 1;
      OwnNames(s, bs[..n], name);
      assert NamedIn(bs, name) <==> NamedIn(bs[..n], name) || bs[n].name == name by { NamedNext(bs, name); }
    }
  }

  lemma {:induction false} NamedNext(bs: seq<Binder>, name: string)
    requires bs != []
    ensures NamedIn(bs, name) <==> NamedIn(bs[..|bs| - 1], name) || bs[|bs| - 1].name == name
  {
    var n := |bs| - 1;
    if NamedIn(bs[..n], name) {
      var j :| 0 <= j < n && bs[..n][j].name == name;
      assert bs[j].name == name;
    }
    if NamedIn(bs, name) && bs[n].name != name {
      var j :| 0 <= j < |bs| && bs[j].name == name;
      assert bs[..n][j].name == name;
    }
  }

  lemma {:induction false} TwiceNext(bs: seq<Binder>, name: string)
    requires bs != []
    ensures NamedTwice(bs, name) <==> NamedTwice(bs[..|bs| - 1], name) || (bs[|bs| - 1].name == name && NamedIn(bs[..|bs| - 1], name))
  {
    var n := |bs| - 1;
    if NamedTwice(bs[..n], name) {
      var j, k :| 0 <= j < k < n && bs[..n][j].name == name && bs[..n][k].name == name;
      assert bs[j].name == name && bs[k].name == name;
    }
    if bs[n].name == name && NamedIn(bs[..n], name) {
      var j :| 0 <= j < n && bs[..n][j].name == name;
      assert bs[j].name == name;
    }
    if NamedTwice(bs, name) {
      var j, k :| 0 <= j < k < |bs| && bs[j].name == name && bs[k].name == name;
      assert bs[..n][j].name == name && (k < n ==> bs[..n][k].name == name);
    }
  }

  lemma {:induction false} PatternProblems(s: Scope, bs: seq<Binder>, problem: Problem)
    requires s.own == {}
    ensures problem in BindAllProblems(s, bs) <==> problem.DuplicateName? && NamedTwice(bs, problem.name)
    decreases |bs|
  {
    if bs != [] {
      var n := |bs| - 1;
      PatternProblems(s, bs[..n], problem);
      OwnNames(s, bs[..n], bs[n].name);
      if problem.DuplicateName? { TwiceNext(bs, problem.name); }
    }
  }

  lemma {:induction false} AllProblems(c: Context, env: Env, loops: nat, es: seq<Expr>, problem: Problem)
    ensures problem in ResolveAll(c, env, loops, es).problems <==> exists i :: 0 <= i < |es| && problem in Resolve(c, env, loops, es[i]).problems
    decreases |es|
  {
    hide Resolve;
    if es != [] {
      var n := |es| - 1;
      AllProblems(c, env, loops, es[..n], problem);
      if i :| 0 <= i < n && problem in Resolve(c, env, loops, es[..n][i]).problems { assert es[..n][i] == es[i]; }
      if i :| 0 <= i < n && problem in Resolve(c, env, loops, es[i]).problems { assert es[..n][i] == es[i]; }
    }
  }

  lemma {:induction false} ArmsProblems(c: Context, env: Env, loops: nat, arms: seq<Arm>, problem: Problem)
    ensures problem in ResolveArms(c, env, loops, arms).problems <==> exists i :: 0 <= i < |arms| && problem in ResolveArm(c, env, loops, arms[i]).problems
    decreases |arms|
  {
    hide ResolveArm;
    if arms != [] {
      var n := |arms| - 1;
      ArmsProblems(c, env, loops, arms[..n], problem);
      if i :| 0 <= i < n && problem in ResolveArm(c, env, loops, arms[..n][i]).problems { assert arms[..n][i] == arms[i]; }
      if i :| 0 <= i < n && problem in ResolveArm(c, env, loops, arms[i]).problems { assert arms[..n][i] == arms[i]; }
    }
  }

  lemma {:induction false} ArmProblems(c: Context, env: Env, loops: nat, arm: Arm, problem: Problem)
    ensures
      var inner := Under(env, Binders(arm.pattern));
      problem in ResolveArm(c, env, loops, arm).problems <==>
        || (problem.DuplicateName? && NamedTwice(Binders(arm.pattern), problem.name))
        || (arm.guard.Some? && problem in Resolve(c, inner, loops, arm.guard.value).problems)
        || problem in Resolve(c, inner, loops, arm.value).problems
  {
    PatternProblems(Scope(env, {}), Binders(arm.pattern), problem);
    hide Resolve, NamedTwice, BindAllProblems;
  }

  ghost predicate StatementProblem(c: Context, env: Env, loops: nat, ss: seq<Statement>, k: nat, problem: Problem)
    requires k < |ss|
  {
    var inner := Under(env, Declared(ss, k));
    || StatementCause(loops, ss, k, problem)
    || (ss[k].Let? && ss[k].value.Some? && problem in Resolve(c, inner, loops, ss[k].value.value).problems)
    || exists j :: 0 <= j < |Parts(ss[k])| && problem in Resolve(c, inner, if ss[k].Loop? then loops + 1 else loops, Parts(ss[k])[j]).problems
  }

  lemma {:induction false} StatementsProblems(c: Context, env: Env, loops: nat, ss: seq<Statement>, problem: Problem)
    ensures problem in ResolveStatements(c, Scope(env, {}), loops, ss).1.problems <==> exists k :: 0 <= k < |ss| && StatementProblem(c, env, loops, ss, k, problem)
    decreases |ss|
  {
    hide Resolve, ResolveStatement, StatementProblem;
    if ss != [] {
      var n := |ss| - 1;
      StatementsProblems(c, env, loops, ss[..n], problem);
      LastProblems(c, env, loops, ss, problem);
      forall k | 0 <= k < n ensures StatementProblem(c, env, loops, ss[..n], k, problem) <==> StatementProblem(c, env, loops, ss, k, problem) {
        ProblemPrefix(c, env, loops, ss, n, k, problem);
      }
    }
  }

  lemma {:induction false} ProblemPrefix(c: Context, env: Env, loops: nat, ss: seq<Statement>, n: nat, k: nat, problem: Problem)
    requires k < n <= |ss|
    ensures StatementProblem(c, env, loops, ss[..n], k, problem) <==> StatementProblem(c, env, loops, ss, k, problem)
  {
    hide Resolve;
    DeclaredPrefix(ss, n, k);
  }

  lemma {:induction false} OneStatement(c: Context, before: Scope, loops: nat, s: Statement, problem: Problem)
    ensures problem in ResolveStatement(c, before, loops, s).1.problems <==>
      || (problem.DuplicateName? && s.Let? && s.name == problem.name && s.name in before.own)
      || (problem.MisplacedExit? && s.Exit? && loops == 0)
      || (s.Let? && s.value.Some? && problem in Resolve(c, before.env, loops, s.value.value).problems)
      || exists j :: 0 <= j < |Parts(s)| && problem in Resolve(c, before.env, if s.Loop? then loops + 1 else loops, Parts(s)[j]).problems
  {
    hide Resolve, ResolveAll;
    AllProblems(c, before.env, if s.Loop? then loops + 1 else loops, Parts(s), problem);
  }

  lemma {:induction false} LastProblems(c: Context, env: Env, loops: nat, ss: seq<Statement>, problem: Problem)
    requires ss != []
    ensures
      var n := |ss| - 1;
      var before := ResolveStatements(c, Scope(env, {}), loops, ss[..n]).0;
      problem in ResolveStatement(c, before, loops, ss[n]).1.problems <==> StatementProblem(c, env, loops, ss, n, problem)
  {
    hide Resolve, ResolveStatements, ResolveStatement, Under, NamedIn, Declared;
    var n := |ss| - 1;
    var before := ResolveStatements(c, Scope(env, {}), loops, ss[..n]).0;
    ScopeAfter(c, Scope(env, {}), loops, ss[..n]);
    OwnAfter(c, env, loops, ss[..n], if ss[n].Let? then ss[n].name else "");
    DeclaredPrefix(ss, n, n);
    OneStatement(c, before, loops, ss[n], problem);
  }

  lemma {:induction false} OwnAfter(c: Context, env: Env, loops: nat, ss: seq<Statement>, name: string)
    ensures name in ResolveStatements(c, Scope(env, {}), loops, ss).0.own <==> NamedIn(Declared(ss, |ss|), name)
    decreases |ss|
  {
    hide Resolve;
    if ss != [] {
      var n := |ss| - 1;
      OwnAfter(c, env, loops, ss[..n], name);
      DeclaredPrefix(ss, n, n);
      if ss[n].Let? { NamedNext(Declared(ss, n + 1), name); }
    }
  }

  ghost predicate ProblemBelow(c: Context, env: Env, loops: nat, e: Expr, m: Move, problem: Problem) {
    && Sub(e, m).Some? && BaseResolved(c, env, e)
    && problem in Resolve(c, Under(env, Added(e, m)), LoopsIn(e, m, loops), Sub(e, m).value).problems
  }

  /** A problem of an expression is its own or that of an expression in it. */
  lemma {:induction false} StepProblems(c: Context, env: Env, loops: nat, e: Expr, problem: Problem)
    ensures problem in Resolve(c, env, loops, e).problems <==> Cause(c, env, loops, e, problem) || exists m :: ProblemBelow(c, env, loops, e, m, problem)
  {
    match e
    case Path(_, _) =>
    case Field(_, base, _) => FieldProblems(c, env, loops, e, problem);
    case Node(_, es) => NodeProblems(c, env, loops, e, problem);
    case Match(_, s, arms) => MatchProblems(c, env, loops, e, problem);
    case Block(_, ss) => BlockProblems(c, env, loops, e, problem);
  }

  lemma {:induction false} FieldProblems(c: Context, env: Env, loops: nat, e: Expr, problem: Problem)
    requires e.Field?
    ensures problem in Resolve(c, env, loops, e).problems <==> exists m :: ProblemBelow(c, env, loops, e, m, problem)
  {
    hide RootIsLocal, Visible;
    NoneUnder(env);
    hide Under;
    assert ProblemBelow(c, env, loops, e, ToBase, problem) <==> BaseResolved(c, env, e) && problem in Resolve(c, env, loops, e.base).problems;
    assert problem in Resolve(c, env, loops, e).problems <==> ProblemBelow(c, env, loops, e, ToBase, problem);
  }

  lemma {:induction false} NodeProblems(c: Context, env: Env, loops: nat, e: Expr, problem: Problem)
    requires e.Node?
    ensures problem in Resolve(c, env, loops, e).problems <==> exists m :: ProblemBelow(c, env, loops, e, m, problem)
  {
    AllProblems(c, env, loops, e.children, problem);
    NoneUnder(env);
    hide Under;
    assert problem in Resolve(c, env, loops, e).problems <==> problem in ResolveAll(c, env, loops, e.children).problems;
    hide Resolve, ResolveAll;
    if i :| 0 <= i < |e.children| && problem in Resolve(c, env, loops, e.children[i]).problems { assert ProblemBelow(c, env, loops, e, ToChild(i), problem); }
  }

  lemma {:induction false} MatchProblems(c: Context, env: Env, loops: nat, e: Expr, problem: Problem)
    requires e.Match?
    ensures problem in Resolve(c, env, loops, e).problems <==> Cause(c, env, loops, e, problem) || exists m :: ProblemBelow(c, env, loops, e, m, problem)
  {
    hide Resolve, ResolveArms, Cause, ProblemBelow;
    MatchParts(c, env, loops, e);
    ArmsProblems(c, env, loops, e.arms, problem);
    ScrutineeBelow(c, env, loops, e, problem);
    if i :| 0 <= i < |e.arms| && problem in ResolveArm(c, env, loops, e.arms[i]).problems { ArmDown(c, env, loops, e, i, problem); }
    if Cause(c, env, loops, e, problem) || exists m :: ProblemBelow(c, env, loops, e, m, problem) { ArmUp(c, env, loops, e, problem); }
  }

  lemma {:induction false} ScrutineeBelow(c: Context, env: Env, loops: nat, e: Expr, problem: Problem)
    requires e.Match?
    ensures ProblemBelow(c, env, loops, e, ToScrutinee, problem) <==> problem in Resolve(c, env, loops, e.scrutinee).problems
  {
    hide Resolve, Under;
    NoneUnder(env);
  }

  lemma {:induction false} ArmDown(c: Context, env: Env, loops: nat, e: Expr, i: nat, problem: Problem)
    requires e.Match? && i < |e.arms| && problem in ResolveArm(c, env, loops, e.arms[i]).problems
    ensures Cause(c, env, loops, e, problem) || exists m :: ProblemBelow(c, env, loops, e, m, problem)
  {
    hide Resolve, ResolveArm, Under, NamedTwice;
    ArmProblems(c, env, loops, e.arms[i], problem);
    assert Cause(c, env, loops, e, problem) || ProblemBelow(c, env, loops, e, ToGuard(i), problem) || ProblemBelow(c, env, loops, e, ToValue(i), problem);
  }

  lemma {:induction false} ArmUp(c: Context, env: Env, loops: nat, e: Expr, problem: Problem)
    requires e.Match? && (Cause(c, env, loops, e, problem) || exists m :: ProblemBelow(c, env, loops, e, m, problem))
    ensures problem in Resolve(c, env, loops, e.scrutinee).problems || exists i :: 0 <= i < |e.arms| && problem in ResolveArm(c, env, loops, e.arms[i]).problems
  {
    hide Resolve, ResolveArm, Under, NamedTwice;
    NoneUnder(env);
    if Cause(c, env, loops, e, problem) {
      var i :| 0 <= i < |e.arms| && NamedTwice(Binders(e.arms[i].pattern), problem.name);
      ArmProblems(c, env, loops, e.arms[i], problem);
    } else {
      var m :| ProblemBelow(c, env, loops, e, m, problem);
      if m.ToGuard? || m.ToValue? { ArmProblems(c, env, loops, e.arms[m.arm], problem); }
    }
  }

  lemma {:induction false} BlockProblems(c: Context, env: Env, loops: nat, e: Expr, problem: Problem)
    requires e.Block?
    ensures problem in Resolve(c, env, loops, e).problems <==> Cause(c, env, loops, e, problem) || exists m :: ProblemBelow(c, env, loops, e, m, problem)
  {
    hide Resolve, ResolveStatements, Cause, ProblemBelow, StatementProblem;
    BlockParts(c, env, loops, e);
    StatementsProblems(c, env, loops, e.statements, problem);
    if k :| 0 <= k < |e.statements| && StatementProblem(c, env, loops, e.statements, k, problem) { StatementDown(c, env, loops, e, k, problem); }
    if Cause(c, env, loops, e, problem) || exists m :: ProblemBelow(c, env, loops, e, m, problem) { StatementUp(c, env, loops, e, problem); }
  }

  lemma {:induction false} StatementDown(c: Context, env: Env, loops: nat, e: Expr, k: nat, problem: Problem)
    requires e.Block? && k < |e.statements| && StatementProblem(c, env, loops, e.statements, k, problem)
    ensures Cause(c, env, loops, e, problem) || exists m :: ProblemBelow(c, env, loops, e, m, problem)
  {
    hide Resolve, Under, StatementCause;
    var ss := e.statements;
    if !StatementCause(loops, ss, k, problem) {
      if ss[k].Let? && ss[k].value.Some? && problem in Resolve(c, Under(env, Declared(ss, k)), loops, ss[k].value.value).problems {
        assert ProblemBelow(c, env, loops, e, ToInitializer(k), problem);
      } else {
        var j :| 0 <= j < |Parts(ss[k])| && problem in Resolve(c, Under(env, Declared(ss, k)), if ss[k].Loop? then loops + 1 else loops, Parts(ss[k])[j]).problems;
        assert ProblemBelow(c, env, loops, e, ToPart(k, j), problem);
      }
    }
  }

  lemma {:induction false} StatementUp(c: Context, env: Env, loops: nat, e: Expr, problem: Problem)
    requires e.Block? && (Cause(c, env, loops, e, problem) || exists m :: ProblemBelow(c, env, loops, e, m, problem))
    ensures exists k :: 0 <= k < |e.statements| && StatementProblem(c, env, loops, e.statements, k, problem)
  {
    hide Resolve, Under, StatementCause;
    if Cause(c, env, loops, e, problem) {
      var k :| 0 <= k < |e.statements| && StatementCause(loops, e.statements, k, problem);
      assert StatementProblem(c, env, loops, e.statements, k, problem);
    } else {
      var m :| ProblemBelow(c, env, loops, e, m, problem);
      assert StatementProblem(c, env, loops, e.statements, m.statement, problem);
    }
  }

  /** A problem is reported if and only if some expression in the tree is its cause, under the
      declarations and loops around it. */
  ghost predicate CausedAt(c: Context, env: Env, loops: nat, e: Expr, path: seq<Move>, problem: Problem) {
    At(e, path).Some? && Resolved(c, env, e, path)
    && Cause(c, Under(env, Around(e, path)), LoopsAround(e, path, loops), At(e, path).value, problem)
  }

  lemma {:induction false} CausedBelow(c: Context, env: Env, loops: nat, e: Expr, path: seq<Move>, problem: Problem)
    requires path != [] && Sub(e, path[0]).Some?
    ensures CausedAt(c, env, loops, e, path, problem) <==>
      BaseResolved(c, env, e) && CausedAt(c, Under(env, Added(e, path[0])), LoopsIn(e, path[0], loops), Sub(e, path[0]).value, path[1..], problem)
  {
    hide Cause, BaseResolved, Under, Added, LoopsIn;
    UnderJoin(env, Added(e, path[0]), Around(Sub(e, path[0]).value, path[1..]));
  }

  lemma {:induction false} ReportIsCaused(c: Context, env: Env, loops: nat, e: Expr, problem: Problem) returns (path: seq<Move>)
    requires problem in Resolve(c, env, loops, e).problems
    ensures CausedAt(c, env, loops, e, path, problem)
    decreases e
  {
    hide Resolve, Cause, Under;
    StepProblems(c, env, loops, e, problem);
    NoneUnder(env);
    path := [];
    if !Cause(c, env, loops, e, problem) {
      var m :| ProblemBelow(c, env, loops, e, m, problem);
      var rest := ReportIsCaused(c, Under(env, Added(e, m)), LoopsIn(e, m, loops), Sub(e, m).value, problem);
      path := [m] + rest;
      assert path[1..] == rest;
      CausedBelow(c, env, loops, e, path, problem);
    }
  }

  lemma {:induction false} CauseIsReported(c: Context, env: Env, loops: nat, e: Expr, path: seq<Move>, problem: Problem)
    requires CausedAt(c, env, loops, e, path, problem)
    ensures problem in Resolve(c, env, loops, e).problems
    decreases |path|
  {
    hide Resolve, Cause, Under;
    NoneUnder(env);
    if path != [] {
      CausedBelow(c, env, loops, e, path, problem);
      CauseIsReported(c, Under(env, Added(e, path[0])), LoopsIn(e, path[0], loops), Sub(e, path[0]).value, path[1..], problem);
      assert ProblemBelow(c, env, loops, e, path[0], problem);
    }
    StepProblems(c, env, loops, e, problem);
  }

  lemma {:induction false} ProblemsMean(c: Context, env: Env, loops: nat, e: Expr, problem: Problem)
    ensures problem in Resolve(c, env, loops, e).problems <==> exists path :: CausedAt(c, env, loops, e, path, problem)
  {
    hide Resolve, CausedAt;
    if problem in Resolve(c, env, loops, e).problems {
      var path := ReportIsCaused(c, env, loops, e, problem);
    }
    if path :| CausedAt(c, env, loops, e, path, problem) { CauseIsReported(c, env, loops, e, path, problem); }
  }
}
