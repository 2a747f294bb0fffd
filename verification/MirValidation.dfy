/** The validator of concrete programs: every check is paid for from a budget that is
    computed beforehand and must be spent exactly. */
module MirValidation {
  import opened Options
  import opened Reachability

  const SIZE_MAX: nat := 0xFFFF_FFFF_FFFF_FFFF

  datatype TypeKind = ParameterType | SelfType | ConcreteType

  datatype TargetKind = ToInstance | ToImport | NoTarget

  datatype Binding = Binding(demand: nat, kind: TargetKind, instance: Option<nat>, imported: Option<nat>)

  datatype Image = Image(instance: nat, offset: nat, count: nat)

  datatype InstructionKind = Construct | PatternTest | PatternValue | Unary | Binary | CompoundUpdate | CaptureSnapshot | Plain

  datatype TerminatorKind = Propagate | CheckContract | CheckRefined | Invoke | Leave

  datatype Block = Block(started: bool, kind: TerminatorKind, binding: Option<nat>, callableSite: Option<nat>)

  /** Counts that a later stage repeats from an earlier one. */
  datatype Stages = Stages(
    instances: nat, plannedImports: nat,
    imports: nat, projections: nat, places: nat,
    recipes: nat, fields: nat, variants: nat,
    layoutTypes: nat, layoutFields: nat, layoutVariants: nat, layoutProjections: nat,
    accessPlans: nat, importEnvelopes: nat, callables: nat,
    linkedCallables: nat, linkedBindings: nat, hostRequirements: nat, callableValues: nat)

  datatype Census = Census(constructors: nat, patternTests: nat, patternExtractions: nat, arithmetic: nat, snapshots: nat)

  datatype Exits = Exits(propagations: nat, predicates: nat)

  /** What the linkage stage declared, and what its own validator reports. */
  datatype Linkage = Linkage(work: nat, scratch: nat, measured: Option<(nat, nat)>)

  datatype Program = Program(
    linked: bool, stages: Stages,
    plannedTypes: seq<TypeKind>, demands: nat,
    types: seq<TypeKind>, images: seq<Image>, bindings: seq<Binding>,
    instructions: seq<InstructionKind>, blocks: seq<Block>, sites: seq<Option<nat>>,
    operations: Census, exits: Exits, linkage: Linkage)

  // --------------------------------------------------------------- what must hold

  predicate CensusHolds(p: Program) {
    var s := p.stages;
    && |p.images| == s.instances && s.imports == s.plannedImports && |p.bindings| == p.demands
    && s.recipes == |p.types|
    && s.layoutTypes == s.recipes && s.layoutFields == s.fields && s.layoutVariants == s.variants && s.layoutProjections == s.projections
    && s.accessPlans == s.places && s.importEnvelopes == s.imports
    && s.linkedCallables == |p.images| && s.linkedBindings == |p.bindings| && s.hostRequirements == s.imports && s.callableValues == s.callables
  }

  predicate AllConcrete(types: seq<TypeKind>) {
    forall i :: 0 <= i < |types| ==> types[i].ConcreteType?
  }

  predicate Dense(images: seq<Image>) {
    forall i :: 0 <= i < |images| ==> images[i].instance == i
  }

  predicate TargetClosed(p: Program, b: Binding) {
    match b.kind
    case ToInstance => b.instance.Some? && b.instance.value < |p.images| && b.imported.None?
    case ToImport => b.imported.Some? && b.imported.value < p.stages.imports && b.instance.None?
    case NoTarget => false
  }

  ghost predicate DemandsDistinct(bs: seq<Binding>) {
    forall i, j :: 0 <= i < j < |bs| ==> bs[i].demand != bs[j].demand
  }

  ghost predicate BindingsClosed(p: Program, bs: seq<Binding>) {
    DemandsDistinct(bs) && forall i :: 0 <= i < |bs| ==> bs[i].demand < p.demands && TargetClosed(p, bs[i])
  }

  ghost predicate AllResolved(p: Program) {
    forall d: nat :: d < p.demands ==> Demanded(p.bindings, d)
  }

  /** The number of blocks of the first n images. */
  function Extent(images: seq<Image>, n: nat): nat
    requires n <= |images|
  {
    if n == 0 then 0 else Extent(images, n - 1) + images[n - 1].count
  }

  predicate SliceFits(p: Program, i: nat)
    requires i < |p.images|
  {
    p.images[i].offset == Extent(p.images, i) && Extent(p.images, i + 1) <= |p.blocks|
  }

  /** Each image's blocks start where those of the previous one end, up to the last block. */
  predicate Sliced(p: Program) {
    (forall i :: 0 <= i < |p.images| ==> SliceFits(p, i)) && Extent(p.images, |p.images|) == |p.blocks|
  }

  function Count(c: Census, k: InstructionKind): Census {
    match k
    case Construct => c.(constructors := c.constructors + 1)
    case PatternTest => c.(patternTests := c.patternTests + 1)
    case PatternValue => c.(patternExtractions := c.patternExtractions + 1)
    case Unary => c.(arithmetic := c.arithmetic + 1)
    case Binary => c.(arithmetic := c.arithmetic + 1)
    case CompoundUpdate => c.(arithmetic := c.arithmetic + 1)
    case CaptureSnapshot => c.(snapshots := c.snapshots + 1)
    case Plain => c
  }

  function CountAll(ks: seq<InstructionKind>): Census {
    if ks == [] then Census(0, 0, 0, 0, 0) else Count(CountAll(ks[..|ks| - 1]), ks[|ks| - 1])
  }

  /** The census has, for each class of instructions, how many there are of it. */
  lemma {:induction false} CensusCounts(ks: seq<InstructionKind>)
    ensures
      var c, m := CountAll(ks), multiset(ks);
      && c.constructors == m[Construct] && c.patternTests == m[PatternTest] && c.patternExtractions == m[PatternValue]
      && c.arithmetic == m[Unary] + m[Binary] + m[CompoundUpdate] && c.snapshots == m[CaptureSnapshot]
    decreases |ks|
  {
    if ks != [] {
      CensusCounts(ks[..|ks| - 1]);
      assert ks == ks[..|ks| - 1] + [ks[|ks| - 1]];
    }
  }

  function Terminators(bs: seq<Block>): seq<TerminatorKind> {
    seq(|bs|, i requires 0 <= i < |bs| => bs[i].kind)
  }

  lemma {:induction false} ExitsCount(bs: seq<Block>)
    ensures
      var c, m := CountExits(bs), multiset(Terminators(bs));
      c.propagations == m[Propagate] && c.predicates == m[CheckContract] + m[CheckRefined]
    decreases |bs|
  {
    if bs != [] {
      ExitsCount(bs[..|bs| - 1]);
      assert Terminators(bs) == Terminators(bs[..|bs| - 1]) + [bs[|bs| - 1].kind];
    }
  }

  function CountExit(c: Exits, b: Block): Exits {
    Exits(c.propagations + if b.kind.Propagate? then 1 else 0,
          c.predicates + if b.kind.CheckContract? || b.kind.CheckRefined? then 1 else 0)
  }

  function CountExits(bs: seq<Block>): Exits {
    if bs == [] then Exits(0, 0) else CountExit(CountExits(bs[..|bs| - 1]), bs[|bs| - 1])
  }

  predicate BlockClosed(p: Program, b: Block) {
    && b.started
    && (b.kind.Invoke? ==>
          && b.binding.Some? && b.binding.value < |p.bindings|
          && (b.callableSite.Some? ==>
                && b.callableSite.value < |p.sites| && p.sites[b.callableSite.value].Some?
                && p.sites[b.callableSite.value].value < |p.bindings|))
  }

  predicate BlocksClosed(p: Program) {
    forall i :: 0 <= i < |p.blocks| ==> BlockClosed(p, p.blocks[i])
  }

  predicate LinkageHolds(p: Program) {
    p.linkage.measured == Some((p.linkage.work, p.linkage.scratch))
  }

  /** All semantic checks, without any budget. */
  ghost predicate Holds(p: Program) {
    && p.linked && CensusHolds(p) && LinkageHolds(p)
    && AllConcrete(p.plannedTypes) && AllConcrete(p.types) && Dense(p.images)
    && BindingsClosed(p, p.bindings) && AllResolved(p)
    && Sliced(p) && BlocksClosed(p)
    && CountAll(p.instructions) == p.operations && CountExits(p.blocks) == p.exits
  }

  // ----------------------------------------------------------------- requirements

  function Required(p: Program): nat {
    8 + 14 + p.linkage.work + |p.plannedTypes| + |p.types| + |p.images| + 2 * |p.bindings| + p.demands
      + |p.images| + |p.instructions| + |p.blocks| + 7
  }

  function RequiredScratch(p: Program): nat {
    if p.linkage.scratch > p.demands then p.linkage.scratch else p.demands
  }

  // ------------------------------------------------------------------ the validator

  class Validator {
    const program: Program
    const limit: nat
    var work: nat

    ghost predicate Valid() reads this { work <= limit <= SIZE_MAX }

    constructor (p: Program, limit: nat)
      requires limit <= SIZE_MAX
      ensures program == p && this.limit == limit && work == 0 && Valid()
    {
      program, this.limit, work := p, limit, 0;
    }

    /** Pays for some checks, unless the budget is exceeded. */
    method Tick(amount: nat) returns (ok: bool)
      requires Valid()
      modifies this`work
      ensures ok <==> old(work) + amount <= limit
      ensures ok ==> Valid() && work == old(work) + amount
    {
      if amount > SIZE_MAX - work { return false; }
      work := work + amount;
      ok := work <= limit;
    }

    method CheckTypes(types: seq<TypeKind>) returns (ok: bool)
      requires Valid()
      modifies this`work
      ensures ok <==> AllConcrete(types) && old(work) + |types| <= limit
      ensures ok ==> Valid() && work == old(work) + |types|
    {
      var i := 0;
      while i < |types|
        invariant 0 <= i <= |types| && Valid() && work == old(work) + i
        invariant AllConcrete(types[..i])
      {
        ok := Tick(1);
        if !ok || !types[i].ConcreteType? { return false; }
        i := i + 1;
      }
      ok := true;
    }

    method CheckImages() returns (ok: bool)
      requires Valid()
      modifies this`work
      ensures ok <==> Dense(program.images) && old(work) + |program.images| <= limit
      ensures ok ==> Valid() && work == old(work) + |program.images|
    {
      var i := 0;
      while i < |program.images|
        invariant 0 <= i <= |program.images| && Valid() && work == old(work) + i
        invariant Dense(program.images[..i])
      {
        ok := Tick(1);
        if !ok || program.images[i].instance != i { return false; }
        i := i + 1;
      }
      ok := true;
    }

    /** Marks the demand of every binding, and checks where the binding leads. */
    method CheckBindings(resolved: array<bool>) returns (ok: bool)
      requires Valid() && resolved.Length == program.demands && forall d :: 0 <= d < resolved.Length ==> !resolved[d]
      modifies this`work, resolved
      ensures ok <==> BindingsClosed(program, program.bindings) && old(work) + 2 * |program.bindings| <= limit
      ensures ok ==> Valid() && work == old(work) + 2 * |program.bindings|
      ensures ok ==> forall d :: 0 <= d < resolved.Length ==> (resolved[d] <==> Demanded(program.bindings, d))
    {
      var bs := program.bindings;
      var i := 0;
      while i < |bs|
        invariant 0 <= i <= |bs| && Valid() && work == old(work) + 2 * i
        invariant BindingsClosed(program, bs[..i])
        invariant forall d :: 0 <= d < resolved.Length ==> (resolved[d] <==> Demanded(bs[..i], d))
      {
        BindingNext(program, bs, i);
        ok := Tick(1);
        if !ok { return; }
        if bs[i].demand >= program.demands || resolved[bs[i].demand] { return false; }
        resolved[bs[i].demand] := true;
        ok := Tick(1);
        if !ok || !TargetClosed(program, bs[i]) { return false; }
        i := i + 1;
      }
      assert bs[..i] == bs;
      ok := true;
    }

    method CheckResolved(resolved: array<bool>) returns (ok: bool)
      requires Valid() && resolved.Length == program.demands
      modifies this`work
      ensures ok <==> (forall d :: 0 <= d < resolved.Length ==> resolved[d]) && old(work) + program.demands <= limit
      ensures ok ==> Valid() && work == old(work) + program.demands
    {
      var d := 0;
      while d < program.demands
        invariant 0 <= d <= program.demands && Valid() && work == old(work) + d
        invariant forall e :: 0 <= e < d ==> resolved[e]
      {
        ok := Tick(1);
        if !ok || !resolved[d] { return false; }
        d := d + 1;
      }
      ok := true;
    }

    method CheckSlices() returns (ok: bool)
      requires Valid()
      modifies this`work
      ensures ok <==> Sliced(program) && old(work) + |program.images| <= limit
      ensures ok ==> Valid() && work == old(work) + |program.images|
    {
      var images := program.images;
      var total := 0;
      var i := 0;
      while i < |images|
        invariant 0 <= i <= |images| && Valid() && work == old(work) + i
        invariant total == Extent(images, i) <= |program.blocks|
        invariant forall j :: 0 <= j < i ==> SliceFits(program, j)
      {
        assert SliceFits(program, i) <==> images[i].offset == total && images[i].count <= |program.blocks| - total;
        ok := Tick(1);
        if !ok { return; }
        if images[i].offset != total || images[i].count > |program.blocks| - total { return false; }
        total := total + images[i].count;
        i := i + 1;
      }
      ok := total == |program.blocks|;
    }

    method CountInstructions() returns (ok: bool, census: Census)
      requires Valid()
      modifies this`work
      ensures ok <==> old(work) + |program.instructions| <= limit
      ensures ok ==> Valid() && work == old(work) + |program.instructions| && census == CountAll(program.instructions)
    {
      var ks := program.instructions;
      census := Census(0, 0, 0, 0, 0);
      var i := 0;
      while i < |ks|
        invariant 0 <= i <= |ks| && Valid() && work == old(work) + i && census == CountAll(ks[..i])
      {
        assert ks[..i + 1][..i] == ks[..i];
        ok := Tick(1);
        if !ok { return; }
        census := Count(census, ks[i]);
        i := i + 1;
      }
      assert ks[..i] == ks;
      ok := true;
    }

    method CheckBlocks() returns (ok: bool, exits: Exits)
      requires Valid()
      modifies this`work
      ensures ok <==> BlocksClosed(program) && old(work) + |program.blocks| <= limit
      ensures ok ==> Valid() && work == old(work) + |program.blocks| && exits == CountExits(program.blocks)
    {
      var bs := program.blocks;
      exits := Exits(0, 0);
      var i := 0;
      while i < |bs|
        invariant 0 <= i <= |bs| && Valid() && work == old(work) + i && exits == CountExits(bs[..i])
        invariant forall j :: 0 <= j < i ==> BlockClosed(program, bs[j])
      {
        assert bs[..i + 1][..i] == bs[..i];
        ok := Tick(1);
        if !ok || !BlockClosed(program, bs[i]) { return false, exits; }
        exits := CountExit(exits, bs[i]);
        i := i + 1;
      }
      assert bs[..i] == bs;
      ok := true;
    }
  }

  ghost predicate Demanded(bs: seq<Binding>, d: nat) {
    exists i :: 0 <= i < |bs| && bs[i].demand == d
  }

  lemma {:induction false} BindingNext(p: Program, bs: seq<Binding>, i: nat)
    requires i < |bs|
    ensures BindingsClosed(p, bs[..i + 1]) <==>
      BindingsClosed(p, bs[..i]) && bs[i].demand < p.demands && !Demanded(bs[..i], bs[i].demand) && TargetClosed(p, bs[i])
    ensures BindingsClosed(p, bs) ==> BindingsClosed(p, bs[..i + 1])
    ensures forall d: nat :: Demanded(bs[..i + 1], d) <==> Demanded(bs[..i], d) || d == bs[i].demand
  {
    var x, y := bs[..i], bs[..i + 1];
    assert y == x + [bs[i]];
    assert forall j :: 0 <= j < i ==> y[j] == x[j] == bs[j];
    assert y[i] == bs[i];
    forall d: nat ensures Demanded(y, d) <==> Demanded(x, d) || d == bs[i].demand {
      if Demanded(x, d) {
        var k :| 0 <= k < |x| && x[k].demand == d;
        assert y[k].demand == d;
      }
    }
  }

  /** Every binding resolves another demand, and there are as many bindings as demands: so
      every demand is resolved, and the last of the three loops rejects nothing. */
  lemma {:induction false} PigeonholeResolves(p: Program)
    requires BindingsClosed(p, p.bindings) && |p.bindings| == p.demands
    ensures AllResolved(p)
  {
    forall d: nat | d < p.demands ensures Demanded(p.bindings, d) {
      var found := seq(|p.bindings|, i requires 0 <= i < |p.bindings| => p.bindings[i].demand);
      if d !in found {
        var all := found + [d];
        DistinctBelow(all, p.demands);
      } else {
        var i :| 0 <= i < |found| && found[i] == d;
      }
    }
  }

  /** An accepted program pairs bindings with demands, one to one. */
  lemma {:induction false} BindingsBijective(p: Program, d: nat) returns (i: nat)
    requires Holds(p) && d < p.demands
    ensures i < |p.bindings| && p.bindings[i].demand == d
    ensures forall j: nat :: j < |p.bindings| && p.bindings[j].demand == d ==> j == i
  {
    assert Demanded(p.bindings, d);
    i :| 0 <= i < |p.bindings| && p.bindings[i].demand == d;
  }

  lemma {:induction false} ExtentGrows(images: seq<Image>, m: nat, n: nat)
    requires m <= n <= |images|
    ensures Extent(images, m) <= Extent(images, n)
    decreases n - m
  {
    if m < n { ExtentGrows(images, m, n - 1); }
  }

  predicate InSlice(p: Program, i: nat, b: nat)
    requires i < |p.images|
  {
    p.images[i].offset <= b < p.images[i].offset + p.images[i].count
  }

  /** In an accepted program every invocation leads to an image or an import that exists. */
  lemma {:induction false} InvocationsResolve(p: Program, b: nat)
    requires Holds(p) && b < |p.blocks| && p.blocks[b].kind.Invoke?
    ensures p.blocks[b].binding.Some? && p.blocks[b].binding.value < |p.bindings|
    ensures
      var t := p.bindings[p.blocks[b].binding.value];
      && (t.kind.ToInstance? ==> t.instance.Some? && t.instance.value < |p.images| && p.images[t.instance.value].instance == t.instance.value)
      && (t.kind.ToImport? ==> t.imported.Some? && t.imported.value < p.stages.plannedImports)
      && !t.kind.NoTarget?
  {
    hide CountAll, CountExits, Sliced, AllResolved, DemandsDistinct;
    assert BlockClosed(p, p.blocks[b]);
    assert TargetClosed(p, p.bindings[p.blocks[b].binding.value]);
  }

  /** In an accepted program every block belongs to exactly one image. */
  lemma {:induction false} BlocksPartitioned(p: Program, b: nat) returns (i: nat)
    requires Sliced(p) && b < |p.blocks|
    ensures i < |p.images| && InSlice(p, i, b)
    ensures forall j: nat :: j < |p.images| && InSlice(p, j, b) ==> j == i
  {
    i := ImageAt(p, |p.images|, b);
    forall j: nat | j < |p.images| && InSlice(p, j, b) ensures j == i {
      assert SliceFits(p, i) && SliceFits(p, j);
      if j < i { ExtentGrows(p.images, j + 1, i); }
      if i < j { ExtentGrows(p.images, i + 1, j); }
    }
  }

  lemma {:induction false} ImageAt(p: Program, n: nat, b: nat) returns (i: nat)
    requires Sliced(p) && n <= |p.images| && b < Extent(p.images, n)
    ensures i < n && InSlice(p, i, b)
    decreases n
  {
    assert SliceFits(p, n - 1);
    if b >= Extent(p.images, n - 1) {
      i := n - 1;
    } else {
      i := ImageAt(p, n - 1, b);
    }
  }

  // -------------------------------------------------------------------- the verdict

  function ClosureCost(p: Program): nat {
    |p.plannedTypes| + |p.types| + |p.images| + 2 * |p.bindings| + p.demands + |p.images| + |p.instructions| + |p.blocks| + 7
  }

  ghost predicate ClosureHolds(p: Program) {
    && AllConcrete(p.plannedTypes) && AllConcrete(p.types) && Dense(p.images)
    && BindingsClosed(p, p.bindings) && AllResolved(p)
    && Sliced(p) && BlocksClosed(p)
    && CountAll(p.instructions) == p.operations && CountExits(p.blocks) == p.exits
  }

  /** The counts that consecutive stages must agree on. */
  method CheckCensus(v: Validator) returns (ok: bool)
    requires v.Valid()
    modifies v`work
    ensures ok <==> CensusHolds(v.program) && old(v.work) + 14 <= v.limit
    ensures ok ==> v.Valid() && v.work == old(v.work) + 14
  {
    var p, s := v.program, v.program.stages;
    ok := v.Tick(3);
    if !ok || |p.images| != s.instances || s.imports != s.plannedImports || |p.bindings| != p.demands { return false; }
    ok := v.Tick(1);
    if !ok || s.recipes != |p.types| { return false; }
    ok := v.Tick(4);
    if !ok || s.layoutTypes != s.recipes || s.layoutFields != s.fields || s.layoutVariants != s.variants
      || s.layoutProjections != s.projections { return false; }
    ok := v.Tick(2);
    if !ok || s.accessPlans != s.places || s.importEnvelopes != s.imports { return false; }
    ok := v.Tick(4);
    if !ok || s.linkedCallables != |p.images| || s.linkedBindings != |p.bindings| || s.hostRequirements != s.imports
      || s.callableValues != s.callables { return false; }
  }

  method CheckClosure(v: Validator) returns (ok: bool)
    requires v.Valid()
    modifies v`work
    ensures ok <==> ClosureHolds(v.program) && old(v.work) + ClosureCost(v.program) <= v.limit
    ensures ok ==> v.Valid() && v.work == old(v.work) + ClosureCost(v.program)
  {
    hide AllConcrete, Dense, BindingsClosed, Sliced, BlocksClosed, CountAll, CountExits;
    ok := v.CheckTypes(v.program.plannedTypes);
    if !ok { return; }
    ok := v.CheckTypes(v.program.types);
    if !ok { return; }
    ok := v.CheckImages();
    if !ok { return; }
    ok := CheckDemands(v);
    if !ok { return; }
    ok := v.CheckSlices();
    if !ok { return; }
    var census, exits;
    ok, census := v.CountInstructions();
    if !ok { return; }
    ok, exits := v.CheckBlocks();
    if !ok { return; }
    ok := v.Tick(7);
    ok := ok && census == v.program.operations && exits == v.program.exits;
  }

  method CheckDemands(v: Validator) returns (ok: bool)
    requires v.Valid()
    modifies v`work
    ensures ok <==>
      && BindingsClosed(v.program, v.program.bindings) && AllResolved(v.program)
      && old(v.work) + 2 * |v.program.bindings| + v.program.demands <= v.limit
    ensures ok ==> v.Valid() && v.work == old(v.work) + 2 * |v.program.bindings| + v.program.demands
  {
    hide BindingsClosed, Demanded;
    var resolved := new bool[v.program.demands](_ => false);
    ok := v.CheckBindings(resolved);
    if !ok { return; }
    if AllResolved(v.program) {
      forall d: nat | d < v.program.demands ensures resolved[d] { assert Demanded(v.program.bindings, d); }
    }
    ok := v.CheckResolved(resolved);
    if ok {
      forall d: nat | d < v.program.demands ensures Demanded(v.program.bindings, d) { assert resolved[d]; }
    }
  }

  /** Validation with the exact limits: it succeeds if and only if every semantic check
      holds, and then the work done is exactly the work required. The budget alone never
      rejects a program whose requirements can be represented. */
  method Validate(p: Program) returns (ok: bool, work: nat, scratch: nat)
    ensures ok <==> Holds(p) && Required(p) <= SIZE_MAX
    ensures ok ==> work == Required(p) && scratch == RequiredScratch(p)
  {
    hide ClosureHolds, CensusHolds;
    HoldsParts(p);
    work, scratch := 0, 0;
    if Required(p) > SIZE_MAX { return false, work, scratch; }
    var v := new Validator(p, Required(p));
    ok := v.Tick(8);
    ok := ok && p.linked;
    if !ok { return; }
    ok := CheckCensus(v);
    if !ok { return; }
    ok := v.Tick(p.linkage.work);
    ok := ok && LinkageHolds(p);
    if !ok { return; }
    ok := CheckClosure(v);
    if !ok { return; }
    work := v.work;
    scratch := if p.linkage.scratch > p.demands then p.linkage.scratch else p.demands;
    ok := work == Required(p);
  }

  lemma {:induction false} HoldsParts(p: Program)
    ensures Holds(p) <==> p.linked && CensusHolds(p) && LinkageHolds(p) && ClosureHolds(p)
    ensures Required(p) == 8 + 14 + p.linkage.work + ClosureCost(p)
  {
  }
}
