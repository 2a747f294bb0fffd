/** Names and their meaning by lexical scoping: a resolver that passes an environment. */
module LexicalScope {
  import opened Options

  datatype Kind = Parameter | Variable | Pattern

  /** The declaration that introduces a local name. */
  datatype Site = Site(kind: Kind, id: nat)

  /** What a path stands for; locals are identified by L. */
  datatype Resolution<+L> =
    | Local(local: L)
    | Definition(definition: nat)
    | Builtin(name: string)
    | RefinementSelf(owner: nat)
    | NotApplicable
    | Unresolved

  datatype Problem = UnresolvedName(name: string) | DuplicateName(name: string) | MisplacedExit

  // ------------------------------------------------------------------------ trees

  datatype Expr =
    | Path(id: nat, name: string)
    | Field(id: nat, base: Expr, text: string)
    | Node(id: nat, children: seq<Expr>)
    | Match(id: nat, scrutinee: Expr, arms: seq<Arm>)
    | Block(id: nat, statements: seq<Statement>)

  datatype Arm = Arm(pattern: Pattern, guard: Option<Expr>, value: Expr)

  datatype Pattern = Binds(id: nat, name: string) | Matches(children: seq<Pattern>)

  /** A loop's parts are its condition, invariants, measure and body; the parts of other
      statements are their operands, in evaluation order. */
  datatype Statement =
    | Let(id: nat, name: string, value: Option<Expr>)
    | Loop(parts: seq<Expr>)
    | Exit
    | Other(parts: seq<Expr>)

  // ----------------------------------------------------------------- declarations

  datatype Declaration = Declaration(moduleName: string, name: string, test: bool)

  datatype Import = Import(name: string, target: Option<nat>)

  /** Everything a name may refer to outside its own definition. */
  datatype Context = Context(owner: nat, refinementSelf: Option<nat>, moduleName: string,
                             declarations: seq<Declaration>, imports: seq<Import>)

  const BUILTINS: set<string> := {"ok", "err", "some", "none"}

  predicate Declares(c: Context, i: nat, name: string)
    requires i < |c.declarations|
  {
    !c.declarations[i].test && c.declarations[i].moduleName == c.moduleName && c.declarations[i].name == name
  }

  predicate Imports(c: Context, i: nat, name: string)
    requires i < |c.imports|
  {
    c.imports[i].target.Some? && c.imports[i].name == name
  }

  function FirstDeclaration(c: Context, name: string, from: nat): (d: Option<nat>)
    requires from <= |c.declarations|
    ensures d.Some? ==> from <= d.value < |c.declarations| && Declares(c, d.value, name)
    ensures forall j :: from <= j < (if d.Some? then d.value else |c.declarations|) ==> !Declares(c, j, name)
    decreases |c.declarations| - from
  {
    if from == |c.declarations| then None
    else if Declares(c, from, name) then Some(from) else FirstDeclaration(c, name, from + 1)
  }

  function FirstImport(c: Context, name: string, from: nat): (d: Option<nat>)
    requires from <= |c.imports|
    ensures d.Some? ==> exists i: nat :: from <= i < |c.imports| && Imports(c, i, name) && c.imports[i].target == d
                                         && forall j :: from <= j < i ==> !Imports(c, j, name)
    ensures d.None? ==> forall j :: from <= j < |c.imports| ==> !Imports(c, j, name)
    decreases |c.imports| - from
  {
    if from == |c.imports| then None
    else if Imports(c, from, name) then c.imports[from].target else FirstImport(c, name, from + 1)
  }

  /** The first declaration of the module, else the first import. */
  function Visible(c: Context, name: string): Option<nat> {
    if FirstDeclaration(c, name, 0).Some? then FirstDeclaration(c, name, 0) else FirstImport(c, name, 0)
  }

  /** The declaration i is the first of the name in the module. */
  ghost predicate FirstDeclares(c: Context, i: nat, name: string) {
    i < |c.declarations| && Declares(c, i, name) && forall j :: 0 <= j < i ==> !Declares(c, j, name)
  }

  ghost predicate FirstImports(c: Context, i: nat, name: string) {
    i < |c.imports| && Imports(c, i, name) && forall j :: 0 <= j < i ==> !Imports(c, j, name)
  }

  /** What is found is the first declaration in the module; without one, the target of the first
      import of the name; and without either, nothing. */
  ghost predicate IsVisible(c: Context, name: string, d: Option<nat>) {
    && (forall i: nat :: FirstDeclares(c, i, name) ==> d == Some(i))
    && ((forall j :: 0 <= j < |c.declarations| ==> !Declares(c, j, name)) ==>
          && (forall i: nat :: FirstImports(c, i, name) ==> d == c.imports[i].target)
          && ((forall j :: 0 <= j < |c.imports| ==> !Imports(c, j, name)) ==> d == None))
  }

  method FindVisible(c: Context, name: string) returns (d: Option<nat>)
    ensures d == Visible(c, name) && IsVisible(c, name, d)
  {
    var i := 0;
    while i < |c.declarations|
      invariant 0 <= i <= |c.declarations| && FirstDeclaration(c, name, 0) == FirstDeclaration(c, name, i)
      invariant forall j :: 0 <= j < i ==> !Declares(c, j, name)
    {
      if Declares(c, i, name) { return Some(i); }
      i := i + 1;
    }
    i := 0;
    while i < |c.imports|
      invariant 0 <= i <= |c.imports| && FirstImport(c, name, 0) == FirstImport(c, name, i)
      invariant forall j :: 0 <= j < i ==> !Imports(c, j, name)
    {
      if Imports(c, i, name) { return c.imports[i].target; }
      i := i + 1;
    }
    d := None;
  }

  // ------------------------------------------------------------------ environments

  type Env = map<string, Site>

  /** Innermost binding, else declaration, else import, else builtin. */
  ghost function Lookup(c: Context, env: Env, name: string): Resolution<Site> {
    if name in env then Local(env[name])
    else match Visible(c, name)
      case Some(d) => Definition(d)
      case None => if name in BUILTINS then Builtin(name) else Unresolved
  }

  datatype Outcome = Outcome(resolutions: map<nat, Resolution<Site>>, problems: seq<Problem>)

  const NOTHING := Outcome(map[], [])

  ghost function Plus(a: Outcome, b: Outcome): Outcome {
    Outcome(a.resolutions + b.resolutions, a.problems + b.problems)
  }

  /** A scope being filled: the visible names, and those of the innermost scope. */
  datatype Scope = Scope(env: Env, own: set<string>)

  function Bind(s: Scope, name: string, site: Site): Scope {
    Scope(s.env[name := site], s.own + {name})
  }

  function BindProblems(s: Scope, name: string): seq<Problem> {
    if name in s.own then [DuplicateName(name)] else []
  }

  datatype Binder = Binder(name: string, site: Site)

  function Binders(p: Pattern): seq<Binder> {
    match p
    case Binds(id, name) => [Binder(name, Site(Kind.Pattern, id))]
    case Matches(ps) => AllBinders(ps)
  }

  function AllBinders(ps: seq<Pattern>): seq<Binder> {
    if ps == [] then [] else AllBinders(ps[..|ps| - 1]) + Binders(ps[|ps| - 1])
  }

  function BindAll(s: Scope, bs: seq<Binder>): Scope {
    if bs == [] then s else Bind(BindAll(s, bs[..|bs| - 1]), bs[|bs| - 1].name, bs[|bs| - 1].site)
  }

  function BindAllProblems(s: Scope, bs: seq<Binder>): seq<Problem> {
    if bs == [] then []
    else BindAllProblems(s, bs[..|bs| - 1]) + BindProblems(BindAll(s, bs[..|bs| - 1]), bs[|bs| - 1].name)
  }

  function FieldRoot(e: Expr): Expr {
    if e.Field? then FieldRoot(e.base) else e
  }

  ghost predicate RootIsLocal(c: Context, env: Env, e: Expr) {
    FieldRoot(e).Path? && Lookup(c, env, FieldRoot(e).name).Local?
  }

  ghost function ResolvePath(c: Context, env: Env, id: nat, name: string): Outcome {
    var r := if c.refinementSelf.Some? && name == "self" then RefinementSelf(c.refinementSelf.value) else Lookup(c, env, name);
    Outcome(map[id := r], if r.Unresolved? then [UnresolvedName(name)] else [])
  }

  /** The meaning of an expression under an environment, inside a number of loops. */
  ghost function Resolve(c: Context, env: Env, loops: nat, e: Expr): Outcome
    decreases e, 0
  {
    match e
    case Path(id, name) => ResolvePath(c, env, id, name)
    case Field(id, base, text) =>
      if RootIsLocal(c, env, e) then Resolve(c, env, loops, base)
      else (match Visible(c, text)
            case Some(d) => Outcome(map[id := Definition(d)], [])
            case None => Plus(Outcome(map[id := NotApplicable], []), Resolve(c, env, loops, base)))
    case Node(_, es) => ResolveAll(c, env, loops, es)
    case Match(_, s, arms) => Plus(Resolve(c, env, loops, s), ResolveArms(c, env, loops, arms))
    case Block(_, statements) => ResolveStatements(c, Scope(env, {}), loops, statements).1
  }

  ghost function ResolveAll(c: Context, env: Env, loops: nat, es: seq<Expr>): Outcome
    decreases es, 0
  {
    if es == [] then NOTHING
    else Plus(ResolveAll(c, env, loops, es[..|es| - 1]), Resolve(c, env, loops, es[|es| - 1]))
  }

  ghost function ResolveArms(c: Context, env: Env, loops: nat, arms: seq<Arm>): Outcome
    decreases arms, 0
  {
    if arms == [] then NOTHING
    else Plus(ResolveArms(c, env, loops, arms[..|arms| - 1]), ResolveArm(c, env, loops, arms[|arms| - 1]))
  }

  ghost function ResolveArm(c: Context, env: Env, loops: nat, arm: Arm): Outcome
    decreases arm, 0
  {
    var s := BindAll(Scope(env, {}), Binders(arm.pattern));
    Plus(Plus(Outcome(map[], BindAllProblems(Scope(env, {}), Binders(arm.pattern))),
              if arm.guard.Some? then Resolve(c, s.env, loops, arm.guard.value) else NOTHING),
         Resolve(c, s.env, loops, arm.value))
  }

  /** Statements thread the scope: a name is visible after its declaration. */
  ghost function ResolveStatements(c: Context, s: Scope, loops: nat, ss: seq<Statement>): (Scope, Outcome)
    decreases ss, 0
  {
    if ss == [] then (s, NOTHING)
    else
      var before := ResolveStatements(c, s, loops, ss[..|ss| - 1]);
      var after := ResolveStatement(c, before.0, loops, ss[|ss| - 1]);
      (after.0, Plus(before.1, after.1))
  }

  ghost function ResolveStatement(c: Context, s: Scope, loops: nat, statement: Statement): (Scope, Outcome)
    decreases statement, 0
  {
    match statement
    case Let(id, name, value) =>
      (Bind(s, name, Site(Variable, id)),
       Plus(if value.Some? then Resolve(c, s.env, loops, value.value) else NOTHING, Outcome(map[], BindProblems(s, name))))
    case Loop(parts) => (s, ResolveAll(c, s.env, loops + 1, parts))
    case Exit => (s, Outcome(map[], if loops == 0 then [MisplacedExit] else []))
    case Other(parts) => (s, ResolveAll(c, s.env, loops, parts))
  }

  // ------------------------------------------------------- the sites a tree declares

  function BinderSites(bs: seq<Binder>): seq<Site> {
    seq(|bs|, i requires 0 <= i < |bs| => bs[i].site)
  }

  function Sites(e: Expr): seq<Site>
    decreases e, 0
  {
    match e
    case Path(_, _) => []
    case Field(_, base, _) => Sites(base)
    case Node(_, es) => AllSites(es)
    case Match(_, s, arms) => Sites(s) + ArmsSites(arms)
    case Block(_, statements) => StatementsSites(statements)
  }

  function AllSites(es: seq<Expr>): seq<Site>
    decreases es, 0
  {
    if es == [] then [] else AllSites(es[..|es| - 1]) + Sites(es[|es| - 1])
  }

  function ArmsSites(arms: seq<Arm>): seq<Site>
    decreases arms, 0
  {
    if arms == [] then [] else ArmsSites(arms[..|arms| - 1]) + ArmSites(arms[|arms| - 1])
  }

  function ArmSites(arm: Arm): seq<Site>
    decreases arm, 0
  {
    BinderSites(Binders(arm.pattern)) + (if arm.guard.Some? then Sites(arm.guard.value) else []) + Sites(arm.value)
  }

  function StatementsSites(ss: seq<Statement>): seq<Site>
    decreases ss, 0
  {
    if ss == [] then [] else StatementsSites(ss[..|ss| - 1]) + StatementSites(ss[|ss| - 1])
  }

  function StatementSites(s: Statement): seq<Site>
    decreases s, 0
  {
    match s
    case Let(id, _, value) => (if value.Some? then Sites(value.value) else []) + [Site(Variable, id)]
    case Loop(parts) => AllSites(parts)
    case Exit => []
    case Other(parts) => AllSites(parts)
  }
}
