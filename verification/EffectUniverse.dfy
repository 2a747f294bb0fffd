/** The finite universe of atoms that inference can ever produce, and naive iteration. */
module EffectUniverse {
  import opened Options
  import opened EffectProgram

  ghost function SiteAtoms(s: CallSite): set<Atom> {
    match s
    case ToSignature(g) => set a | a in g.effects
    case ToFunction(_, _, cbs) =>
      set i, a | 0 <= i < |cbs| && cbs[i].Callback? && cbs[i].actual.SignatureValue?
                 && a in cbs[i].actual.signature.effects :: a
    case _ => {}
  }

  ghost function OriginRoots(o: Origin): seq<nat> {
    if o.Roots? then o.roots else []
  }

  ghost function SiteRootSet(s: CallSite): set<nat> {
    (set q, r | q in SiteActuals(s) && r in OriginRoots(SiteActuals(s)[q]) :: r)
    + (if s.ToMember? then set r | r in s.receiver else {})
  }

  /** Atoms and roots written in a body, apart from the rows of the definitions it calls. */
  ghost function BodyAtoms(b: Body): set<Atom> {
    match b
    case Node(cs) => set i, a | 0 <= i < |cs| && a in BodyAtoms(cs[i]) :: a
    case Call(s, ops) => SiteAtoms(s) + set i, a | 0 <= i < |ops| && a in BodyAtoms(ops[i]) :: a
    case Panic(m) => BodyAtoms(m)
    case Handle(x, v, _, _, _, c) => BodyAtoms(x) + BodyAtoms(v) + BodyAtoms(c)
  }

  ghost function BodyRoots(b: Body): set<nat> {
    match b
    case Node(cs) => set i, r | 0 <= i < |cs| && r in BodyRoots(cs[i]) :: r
    case Call(s, ops) => SiteRootSet(s) + set i, r | 0 <= i < |ops| && r in BodyRoots(ops[i]) :: r
    case Panic(m) => BodyRoots(m)
    case Handle(x, v, _, _, _, c) => BodyRoots(x) + BodyRoots(v) + BodyRoots(c)
  }

  ghost function FunctionAtoms(f: Function): set<Atom> {
    (set a | a in InitialRow(f)) + (if f.body.Some? then BodyAtoms(f.body.value) else {})
  }

  ghost function Written(p: Program): set<Atom> {
    {PANIC}
    + (set i, a | 0 <= i < |p.functions| && a in FunctionAtoms(p.functions[i]) :: a)
    + (set i, a | 0 <= i < |p.members| && a in p.members[i].row :: a)
    + (set i, a | 0 <= i < |p.traitMethods| && a in p.traitMethods[i].row :: a)
  }

  ghost function Roots(p: Program): set<nat> {
    set i, r | 0 <= i < |p.functions| && p.functions[i].body.Some? && r in BodyRoots(p.functions[i].body.value) :: r
  }

  ghost function Authorities(p: Program): set<Authority> {
    (set a | a in Written(p) :: a.authority) + (set r | r in Roots(p) :: Parameter(r))
  }

  /** Every written name, with every written authority and every root. */
  ghost function Universe(p: Program): set<Atom> {
    set x, y | x in Written(p) && y in Authorities(p) :: Atom(x.name, y)
  }

  ghost function Top(p: Program): (t: Family)
    ensures |t| == |p.functions| && forall i :: 0 <= i < |t| ==> t[i] == Universe(p)
  {
    seq(|p.functions|, _ => Universe(p))
  }

  lemma {:induction false} WrittenInUniverse(p: Program, a: Atom)
    requires a in Written(p)
    ensures a in Universe(p)
  {
    assert a.authority in Authorities(p);
    assert a == Atom(a.name, a.authority);
  }

  lemma {:induction false} RootedInUniverse(p: Program, a: Atom, r: nat)
    requires a in Universe(p) && r in Roots(p)
    ensures Atom(a.name, Parameter(r)) in Universe(p)
  {
    var x :| x in Written(p) && x.name == a.name;
    assert Parameter(r) in Authorities(p);
    assert Atom(x.name, Parameter(r)) in Universe(p);
  }

  lemma {:induction false} RequiredInUniverse(p: Program, r: Family, s: CallSite, a: Atom)
    requires |r| == |p.functions| && SiteInRange(p, s)
    requires forall i :: 0 <= i < |r| ==> r[i] <= Universe(p)
    requires SiteAtoms(s) <= Universe(p)
    requires Required(p, r, s, a)
    ensures a in Universe(p)
  {
    match s
    case ToFunction(g, _, cbs) =>
      if a !in r[g] {
        var i :| 0 <= i < |cbs| && CallbackAdds(p, r, cbs[i], a);
        match cbs[i].actual
        case SignatureValue(_) => assert a in SiteAtoms(s);
        case OperationValue(m) => assert a in Written(p); WrittenInUniverse(p, a);
        case FunctionValue(_) =>
      }
    case ToSignature(_) => assert a in SiteAtoms(s);
    case ToMember(m, _, _) => assert a in Written(p); WrittenInUniverse(p, a);
    case ToTraitMethod(t, _) => assert a in Written(p); WrittenInUniverse(p, a);
  }

  lemma {:induction false} InstanceInUniverse(p: Program, s: CallSite, q: Atom, a: Atom)
    requires q in Universe(p) && SiteRootSet(s) <= Roots(p) && a in Instances(s, q)
    ensures a in Universe(p)
  {
    if !AuthorityFree(q) {
      var roots := SiteRoots(s, q.authority).value;
      var i :| 0 <= i < |roots| && a == Atom(q.name, Parameter(roots[i]));
      if q.authority.Parameter? {
        assert roots[i] in OriginRoots(SiteActuals(s)[q.authority.root]);
      }
      assert roots[i] in SiteRootSet(s);
      RootedInUniverse(p, q, roots[i]);
    }
  }

  /** No equation leads out of the universe. */
  lemma {:induction false} ContributesInUniverse(p: Program, r: Family, h: Handlers, b: Body, a: Atom)
    requires |r| == |p.functions| && BodyInRange(p, b)
    requires forall i :: 0 <= i < |r| ==> r[i] <= Universe(p)
    requires BodyAtoms(b) <= Universe(p) && BodyRoots(b) <= Roots(p)
    requires Contributes(p, r, h, b, a)
    ensures a in Universe(p)
    decreases b
  {
    match b
    case Node(cs) =>
      var i :| 0 <= i < |cs| && Contributes(p, r, h, cs[i], a);
      ContributesInUniverse(p, r, h, cs[i], a);
    case Call(s, ops) =>
      if SiteContributes(p, r, h, s, a) {
        var q :| Required(p, r, s, q) && a in Instances(s, q);
        RequiredInUniverse(p, r, s, q);
        InstanceInUniverse(p, s, q, a);
      } else {
        var i :| 0 <= i < |ops| && Contributes(p, r, h, ops[i], a);
        ContributesInUniverse(p, r, h, ops[i], a);
      }
    case Panic(m) =>
      if a == PANIC {
        assert PANIC in Written(p);
        WrittenInUniverse(p, a);
      } else {
        ContributesInUniverse(p, r, h, m, a);
      }
    case Handle(x, v, n, root, _, c) =>
      if Contributes(p, r, h, x, a) {
        ContributesInUniverse(p, r, h, x, a);
      } else if Contributes(p, r, h, v, a) {
        ContributesInUniverse(p, r, h, v, a);
      } else {
        ContributesInUniverse(p, r, h + [(n, root)], c, a);
      }
  }

  lemma {:induction false} DefinitionInUniverse(p: Program, r: Family, f: nat, a: Atom)
    requires InRange(p) && |r| == |p.functions| && f < |r|
    requires forall i :: 0 <= i < |r| ==> r[i] <= Universe(p)
    requires p.functions[f].body.Some? && Contributes(p, r, [], p.functions[f].body.value, a)
    ensures a in Universe(p)
  {
    var b := p.functions[f].body.value;
    forall x | x in BodyAtoms(b) ensures x in Universe(p) {
      assert x in FunctionAtoms(p.functions[f]);
      WrittenInUniverse(p, x);
    }
    assert BodyRoots(b) <= Roots(p);
    ContributesInUniverse(p, r, [], b, a);
  }

  /** The universe, taken for every row, is closed: so the least family is finite. */
  lemma {:induction false} TopIsClosed(p: Program)
    requires InRange(p)
    ensures Closed(p, Top(p))
  {
    var t := Top(p);
    forall f: nat | f < |t| ensures (set a | a in InitialRow(p.functions[f])) <= t[f] && RowClosed(p, t, f) {
      forall a | a in InitialRow(p.functions[f]) ensures a in t[f] {
        assert a in FunctionAtoms(p.functions[f]);
        WrittenInUniverse(p, a);
      }
      if Inferred(p.functions[f]) && p.functions[f].body.Some? {
        forall a | Contributes(p, t, [], p.functions[f].body.value, a) ensures a in t[f] {
          DefinitionInUniverse(p, t, f, a);
        }
      }
    }
  }

  // -------------------------------------------------------------- naive iteration

  ghost function Initial(p: Program): (r: Family)
    ensures |r| == |p.functions| && forall f :: 0 <= f < |r| ==> r[f] == set a | a in InitialRow(p.functions[f])
  {
    seq(|p.functions|, i requires 0 <= i < |p.functions| => set a | a in InitialRow(p.functions[i]))
  }

  ghost function Contributed(p: Program, r: Family, f: nat): set<Atom>
    requires InRange(p) && |r| == |p.functions| && f < |r|
  {
    if Inferred(p.functions[f]) && p.functions[f].body.Some? then
      set a | a in Universe(p) && Contributes(p, r, [], p.functions[f].body.value, a)
    else {}
  }

  /** All equations applied at once, to every definition. */
  ghost function Round(p: Program, r: Family): (next: Family)
    requires InRange(p) && |r| == |p.functions|
    ensures |next| == |r| && forall f :: 0 <= f < |r| ==> next[f] == r[f] + Contributed(p, r, f)
  {
    seq(|r|, f requires 0 <= f < |r| => r[f] + Contributed(p, r, f))
  }

  ghost function Naive(p: Program, rounds: nat): (r: Family)
    requires InRange(p)
    ensures |r| == |p.functions|
  {
    if rounds == 0 then Initial(p) else Round(p, Naive(p, rounds - 1))
  }

  lemma {:induction false} ContributedBelow(p: Program, r: Family, closed: Family, f: nat)
    requires InRange(p) && Closed(p, closed) && FamilyLe(r, closed) && f < |r|
    ensures Contributed(p, r, f) <= closed[f]
  {
    hide Universe;
    assert RowClosed(p, closed, f);
    forall a | a in Contributed(p, r, f) ensures a in closed[f] {
      ContributesMonotone(p, r, closed, [], p.functions[f].body.value, a);
    }
  }

  lemma {:induction false} NaiveBelow(p: Program, closed: Family, rounds: nat)
    requires InRange(p) && Closed(p, closed)
    ensures FamilyLe(Naive(p, rounds), closed)
  {
    hide Universe, Contributes, InRange, Reads;
    if rounds > 0 {
      NaiveBelow(p, closed, rounds - 1);
      var r := Naive(p, rounds - 1);
      forall f: nat | 0 <= f < |r| ensures Contributed(p, r, f) <= closed[f] {
        ContributedBelow(p, r, closed, f);
      }
    }
  }

  ghost function Size(r: Family): nat {
    if r == [] then 0 else |r[0]| + Size(r[1..])
  }

  lemma {:induction false} SubsetSize<T>(x: set<T>, y: set<T>)
    requires x <= y
    ensures |x| <= |y| && (|x| == |y| ==> x == y)
  {
    assert y == x + (y - x);
  }

  lemma {:induction false} FamilySize(x: Family, y: Family)
    requires FamilyLe(x, y)
    ensures Size(x) <= Size(y) && (Size(x) == Size(y) ==> x == y)
  {
    if x != [] {
      SubsetSize(x[0], y[0]);
      FamilySize(x[1..], y[1..]);
      assert x == [x[0]] + x[1..] && y == [y[0]] + y[1..];
    }
  }

  lemma {:induction false} FlatSize(r: Family, u: set<Atom>)
    requires forall i :: 0 <= i < |r| ==> r[i] == u
    ensures Size(r) == |r| * |u|
  {
    if r != [] {
      FlatSize(r[1..], u);
      assert |r| * |u| == |u| + (|r| - 1) * |u|;
    }
  }

  lemma {:induction false} StableIsClosed(p: Program, rounds: nat)
    requires InRange(p) && Naive(p, rounds + 1) == Naive(p, rounds)
    ensures Closed(p, Naive(p, rounds))
  {
    TopIsClosed(p);
    NaiveBelow(p, Top(p), rounds);
    var r := Naive(p, rounds);
    InitialBelow(p, rounds);
    forall f: nat | f < |r| ensures RowClosed(p, r, f) {
      if Inferred(p.functions[f]) && p.functions[f].body.Some? {
        forall a | Contributes(p, r, [], p.functions[f].body.value, a) ensures a in r[f] {
          DefinitionInUniverse(p, r, f, a);
          assert a in Contributed(p, r, f);
          assert Round(p, r)[f] == r[f];
        }
      }
    }
  }

  lemma {:induction false} InitialBelow(p: Program, rounds: nat)
    requires InRange(p)
    ensures FamilyLe(Initial(p), Naive(p, rounds))
  {
    if rounds > 0 { InitialBelow(p, rounds - 1); }
  }

  /** Either an earlier round was already stable, or every round added an atom. */
  lemma {:induction false} NaiveProgress(p: Program, rounds: nat)
    requires InRange(p)
    ensures Naive(p, rounds + 1) == Naive(p, rounds) || Size(Naive(p, rounds + 1)) > rounds
  {
    hide Contributed, InRange, Size;
    var x, y := Naive(p, rounds), Naive(p, rounds + 1);
    FamilySize(x, y);
    if x != y && rounds > 0 {
      NaiveProgress(p, rounds - 1);
    }
  }

  /** The least family is what naive global iteration reaches, within one round per atom
      of the universe and definition. */
  lemma {:induction false} NaiveReachesLeast(p: Program, least: Family)
    requires InRange(p) && IsLeast(p, least)
    ensures Naive(p, |p.functions| * |Universe(p)|) == least
  {
    hide Contributed, InRange, Size, Universe, RowClosed, Naive;
    var k := |p.functions| * |Universe(p)|;
    TopIsClosed(p);
    NaiveBelow(p, Top(p), k + 1);
    FamilySize(Naive(p, k + 1), Top(p));
    FlatSize(Top(p), Universe(p));
    NaiveProgress(p, k);
    StableIsClosed(p, k);
    NaiveBelow(p, least, k);
    FamilySize(Naive(p, k), least);
    FamilySize(least, Naive(p, k));
  }
}
