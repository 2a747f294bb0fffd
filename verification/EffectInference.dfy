/** Inference of rows by walking bodies, in place, on the checker's table of rows. */
module EffectInference {
  import opened Options
  import opened EffectProgram
  import opened EffectUniverse
  import opened EffectRows

  /** Nothing has been added to a row that any solution could do without. */
  ghost predicate BelowLeast(p: Program, r: Family)
    requires InRange(p)
  {
    forall other :: Closed(p, other) ==> FamilyLe(r, other)
  }

  /** What body b contributes under handlers h belongs to f's row in every solution. */
  ghost predicate Justified(p: Program, f: nat, h: Handlers, b: Body)
    requires InRange(p) && f < |p.functions| && BodyInRange(p, b)
  {
    forall other, a :: Closed(p, other) && Contributes(p, other, h, b, a) ==> a in other[f]
  }

  ghost predicate AtomJustified(p: Program, f: nat, a: Atom)
    requires InRange(p)
  {
    forall other :: Closed(p, other) ==> f < |other| && a in other[f]
  }

  lemma {:induction false} InstanceJustified(p: Program, r: Family, f: nat, h: Handlers, s: CallSite, ops: seq<Body>, q: Atom, a: Atom)
    requires InRange(p) && f < |p.functions| && BodyInRange(p, Call(s, ops)) && |r| == |p.functions|
    requires Justified(p, f, h, Call(s, ops)) && BelowLeast(p, r)
    requires Required(p, r, s, q) && a in Instances(s, q) && !IsHandled(h, a)
    ensures AtomJustified(p, f, a)
  {
    forall other | Closed(p, other) ensures f < |other| && a in other[f] {
      assert FamilyLe(r, other);
      RequiredMonotone(p, r, other, s, ops, q);
      assert Contributes(p, other, h, Call(s, ops), a);
    }
  }

  // ------------------------------------------- what a walk over a body guarantees

  ghost predicate Covers(p: Program, r: Family, h: Handlers, b: Body, row: Row)
    requires |r| == |p.functions| && BodyInRange(p, b)
  {
    forall a :: Contributes(p, r, h, b, a) ==> a in row
  }

  /** Row f has grown, and no other row changed. */
  ghost predicate Grown(before: seq<Row>, after: seq<Row>, f: nat) {
    && |before| == |after| && f < |before|
    && after == before[f := after[f]]
    && before[f] <= after[f]
  }

  /** A walk that adds nothing has seen a row that covers the body, and has flagged it if
      anything in it deserves a diagnostic. */
  ghost predicate Quiet(p: Program, f: nat, h: Handlers, b: Body, before: seq<Row>, after: seq<Row>, flag: bool)
    requires |before| == |after| == |p.functions| && f < |before| && BodyInRange(p, b)
  {
    after[f] == before[f] ==>
      && Covers(p, AtomsOf(after), h, b, after[f])
      && (flag || !BodyDiagnosed(p, AtomsOf(after), h, b))
  }

  lemma {:induction false} QuietLater(p: Program, f: nat, h: Handlers, b: Body, first: seq<Row>, before: seq<Row>, middle: seq<Row>, flag: bool, after: seq<Row>, flag': bool)
    requires |first| == |before| == |middle| == |after| == |p.functions| && f < |before| && BodyInRange(p, b)
    requires Grown(first, before, f) && Grown(before, middle, f) && Grown(middle, after, f)
    requires Quiet(p, f, h, b, before, middle, flag) && (flag ==> flag')
    ensures Quiet(p, f, h, b, first, after, flag')
  {
    if after[f] == first[f] {
      assert before[f] == first[f] == middle[f];
      assert middle == after;
    }
  }

  lemma {:induction false} DiagnosedLater(p: Program, f: nat, h: Handlers, b: Body, before: seq<Row>, after: seq<Row>)
    requires |before| == |after| == |p.functions| && Grown(before, after, f) && BodyInRange(p, b)
    requires BodyDiagnosed(p, AtomsOf(before), h, b)
    ensures BodyDiagnosed(p, AtomsOf(after), h, b)
  {
    assert forall i :: 0 <= i < |after| ==> before[i] <= after[i];
    DiagnosedMonotone(p, AtomsOf(before), AtomsOf(after), h, b);
  }

  class Checker {
    const program: Program
    const rows: array<Row>
    var diagnosed: bool

    ghost predicate Valid()
      reads rows
    {
      && InRange(program)
      && rows.Length == |program.functions|
      && (forall f :: 0 <= f < rows.Length ==> NoRepeats(rows[f]))
      && BelowLeast(program, AtomsOf(rows[..]))
    }

    ghost function Family(): Family
      reads rows
    {
      AtomsOf(rows[..])
    }

    constructor (p: Program)
      requires InRange(p)
      ensures program == p && fresh(rows) && Valid() && !diagnosed
      ensures rows.Length == |p.functions|
      ensures forall f :: 0 <= f < rows.Length ==> rows[f] == InitialRow(p.functions[f])
    {
      program := p;
      diagnosed := false;
      rows := new Row[|p.functions|](i requires 0 <= i < |p.functions| => InitialRow(p.functions[i]));
      new;
      assert forall other :: Closed(p, other) ==> FamilyLe(AtomsOf(rows[..]), other);
    }

    /** Appends one atom that every solution has in row f. */
    method Add(f: nat, a: Atom)
      requires Valid() && f < rows.Length
      requires AtomJustified(program, f, a)
      modifies rows
      ensures Valid()
      ensures rows[..] == old(rows[..])[f := Insert(old(rows[f]), a)]
    {
      ghost var before := rows[..];
      rows[f] := Append(rows[f], a);
      forall other | Closed(program, other) ensures FamilyLe(AtomsOf(rows[..]), other) {
        assert FamilyLe(AtomsOf(before), other);
        assert forall i :: 0 <= i < rows.Length && i != f ==> rows[i] == before[i];
      }
    }

    /** The instances of one required atom, one per possible root. */
    method AddInstances(f: nat, h: Handlers, instances: Row)
      requires Valid() && f < rows.Length
      requires forall a :: a in instances && !IsHandled(h, a) ==> AtomJustified(program, f, a)
      modifies rows
      ensures Valid() && Grown(old(rows[..]), rows[..], f)
      ensures forall a :: a in rows[f] <==> a in old(rows[f]) || (a in instances && !IsHandled(h, a))
    {
      hide BelowLeast, InRange, AtomJustified;
      ghost var before := rows[..];
      var i := 0;
      while i < |instances|
        invariant 0 <= i <= |instances| && Valid() && Grown(before, rows[..], f)
        invariant forall a :: a in rows[f] <==> a in before[f] || (a in instances[..i] && !IsHandled(h, a))
      {
        assert instances[i] in instances;
        if !IsHandled(h, instances[i]) {
          Add(f, instances[i]);
        }
        assert instances[..i + 1] == instances[..i] + [instances[i]];
        i := i + 1;
      }
      assert instances[..i] == instances;
    }

    /** One call in inference mode: the callee's row is read before any instance is added. */
    method InferCall(f: nat, h: Handlers, s: CallSite, ghost ops: seq<Body>)
      requires Valid() && f < rows.Length && BodyInRange(program, Call(s, ops))
      requires Justified(program, f, h, Call(s, ops))
      modifies rows, this`diagnosed
      ensures Valid() && Grown(old(rows[..]), rows[..], f)
      ensures forall a :: SiteContributes(program, old(Family()), h, s, a) ==> a in rows[f]
      ensures diagnosed <==> old(diagnosed) || SiteDiagnosed(program, old(Family()), s) || (SiteTail(program, s).Some? && h != [])
    {
      ghost var r := Family();
      var required := RequiredAtoms(s);
      hide BelowLeast, InRange, Justified, Required, Instances, SiteRoots, IsHandled, BodyInRange, NoRepeats, SiteTail, RequiredRow;
      var resolved := AddRequired(f, h, s, required, ops, r);
      if !resolved || (SiteTail(program, s).Some? && h != []) { diagnosed := true; }
    }

    /** The loop over required atoms. */
    method AddRequired(f: nat, h: Handlers, s: CallSite, required: Row, ghost ops: seq<Body>, ghost r: Family)
      returns (resolved: bool)
      requires Valid() && f < rows.Length && BodyInRange(program, Call(s, ops))
      requires Justified(program, f, h, Call(s, ops))
      requires |r| == |program.functions| && BelowLeast(program, r)
      requires forall q :: q in required ==> Required(program, r, s, q)
      modifies rows
      ensures Valid() && Grown(old(rows[..]), rows[..], f)
      ensures forall q, a :: q in required && a in Instances(s, q) && !IsHandled(h, a) ==> a in rows[f]
      ensures resolved <==> forall q :: q in required ==> SiteRoots(s, q.authority).Some?
    {
      hide BelowLeast, InRange, AtomJustified, Justified, Required, Instances, SiteRoots, IsHandled, BodyInRange, NoRepeats;
      resolved := true;
      ghost var before := rows[..];
      var i := 0;
      while i < |required|
        invariant 0 <= i <= |required| && Valid() && Grown(before, rows[..], f)
        invariant forall q, a :: q in required[..i] && a in Instances(s, q) && !IsHandled(h, a) ==> a in rows[f]
        invariant resolved <==> forall q :: q in required[..i] ==> SiteRoots(s, q.authority).Some?
      {
        var q := required[i];
        assert required[..i + 1] == required[..i] + [q];
        resolved := resolved && SiteRoots(s, q.authority).Some?;
        forall a | a in Instances(s, q) && !IsHandled(h, a) ensures AtomJustified(program, f, a) {
          InstanceJustified(program, r, f, h, s, ops, q, a);
        }
        AddInstances(f, h, Instances(s, q));
        i := i + 1;
      }
      assert required[..i] == required;
    }

    method RequiredAtoms(s: CallSite) returns (required: Row)
      requires Valid() && SiteInRange(program, s)
      ensures required == RequiredRow(program, rows[..], s)
    {
      if s.ToFunction? && program.functions[s.target].polymorphic {
        var arguments, determined;
        arguments, required, determined := InferCallRow(program, rows[..], s.target, s.callbacks);
      } else {
        required := RequiredRow(program, rows[..], s);
      }
    }

    /** The walk over one body in inference mode. */
    method Walk(f: nat, h: Handlers, b: Body)
      requires Valid() && f < rows.Length && BodyInRange(program, b) && Justified(program, f, h, b)
      modifies rows, this`diagnosed
      ensures Valid() && Grown(old(rows[..]), rows[..], f) && (old(diagnosed) ==> diagnosed)
      ensures Quiet(program, f, h, b, old(rows[..]), rows[..], diagnosed)
      ensures diagnosed ==> old(diagnosed) || BodyDiagnosed(program, Family(), h, b)
      decreases b
    {
      match b
      case Node(cs) =>
        assert forall i :: 0 <= i < |cs| ==> Justified(program, f, h, cs[i]);
        WalkAll(f, h, cs, b);
      case Call(s, ops) =>
        WalkCall(f, h, s, ops);
      case Panic(m) =>
        WalkPanic(f, h, m);
      case Handle(x, v, n, root, pm, c) =>
        WalkHandle(f, h, x, v, n, root, pm, c);
    }

    method WalkAll(f: nat, h: Handlers, bs: seq<Body>, ghost parent: Body)
      requires Valid() && f < rows.Length
      requires forall i :: 0 <= i < |bs| ==> bs[i] < parent && BodyInRange(program, bs[i]) && Justified(program, f, h, bs[i])
      modifies rows, this`diagnosed
      ensures Valid() && Grown(old(rows[..]), rows[..], f) && (old(diagnosed) ==> diagnosed)
      ensures forall i :: 0 <= i < |bs| ==> Quiet(program, f, h, bs[i], old(rows[..]), rows[..], diagnosed)
      ensures diagnosed ==> old(diagnosed) || exists i :: 0 <= i < |bs| && BodyDiagnosed(program, Family(), h, bs[i])
      decreases parent, 0
    {
      hide BelowLeast, InRange, Justified, BodyInRange, NoRepeats, BodyDiagnosed, Quiet;
      ghost var before := rows[..];
      var i := 0;
      while i < |bs|
        invariant 0 <= i <= |bs| && Valid() && Grown(before, rows[..], f) && (old(diagnosed) ==> diagnosed)
        invariant forall j :: 0 <= j < i ==> Quiet(program, f, h, bs[j], before, rows[..], diagnosed)
        invariant diagnosed ==> old(diagnosed) || exists j :: 0 <= j < i && BodyDiagnosed(program, Family(), h, bs[j])
      {
        ghost var middle, flag := rows[..], diagnosed;
        Walk(f, h, bs[i]);
        QuietLater(program, f, h, bs[i], before, middle, rows[..], diagnosed, rows[..], diagnosed);
        forall j | 0 <= j < i ensures Quiet(program, f, h, bs[j], before, rows[..], diagnosed) {
          QuietLater(program, f, h, bs[j], before, before, middle, flag, rows[..], diagnosed);
        }
        if flag && !old(diagnosed) {
          var j :| 0 <= j < i && BodyDiagnosed(program, AtomsOf(middle), h, bs[j]);
          DiagnosedLater(program, f, h, bs[j], middle, rows[..]);
        }
        i := i + 1;
      }
    }

    method WalkCall(f: nat, h: Handlers, s: CallSite, ops: seq<Body>)
      requires Valid() && f < rows.Length && BodyInRange(program, Call(s, ops)) && Justified(program, f, h, Call(s, ops))
      modifies rows, this`diagnosed
      ensures Valid() && Grown(old(rows[..]), rows[..], f) && (old(diagnosed) ==> diagnosed)
      ensures Quiet(program, f, h, Call(s, ops), old(rows[..]), rows[..], diagnosed)
      ensures diagnosed ==> old(diagnosed) || BodyDiagnosed(program, Family(), h, Call(s, ops))
      decreases Call(s, ops), 1
    {
      ghost var b, before := Call(s, ops), rows[..];
      assert forall i :: 0 <= i < |ops| ==> Justified(program, f, h, ops[i]);
      InferCall(f, h, s, ops);
      ghost var middle, flag := rows[..], diagnosed;
      WalkAll(f, h, ops, b);
      CallQuiet(program, f, h, s, ops, before, middle, flag, rows[..], diagnosed);
      if flag && !old(diagnosed) {
        assert BodyDiagnosed(program, AtomsOf(before), h, b);
        DiagnosedLater(program, f, h, b, before, rows[..]);
      }
    }

    method WalkPanic(f: nat, h: Handlers, m: Body)
      requires Valid() && f < rows.Length && BodyInRange(program, Panic(m)) && Justified(program, f, h, Panic(m))
      modifies rows, this`diagnosed
      ensures Valid() && Grown(old(rows[..]), rows[..], f) && (old(diagnosed) ==> diagnosed)
      ensures Quiet(program, f, h, Panic(m), old(rows[..]), rows[..], diagnosed)
      ensures diagnosed ==> old(diagnosed) || BodyDiagnosed(program, Family(), h, Panic(m))
      decreases Panic(m), 1
    {
      ghost var before := rows[..];
      assert Justified(program, f, h, m);
      Walk(f, h, m);
      ghost var middle := rows[..];
      assert AtomJustified(program, f, PANIC) by {
        forall other | Closed(program, other) ensures f < |other| && PANIC in other[f] {
          assert Contributes(program, other, h, Panic(m), PANIC);
        }
      }
      Add(f, PANIC);
      QuietLater(program, f, h, m, before, before, middle, diagnosed, rows[..], diagnosed);
      if diagnosed && !old(diagnosed) {
        DiagnosedLater(program, f, h, m, middle, rows[..]);
      }
    }

    method WalkHandle(f: nat, h: Handlers, x: Body, v: Body, n: string, root: nat, ghost pm: nat, c: Body)
      requires Valid() && f < rows.Length && BodyInRange(program, Handle(x, v, n, root, pm, c))
      requires Justified(program, f, h, Handle(x, v, n, root, pm, c))
      modifies rows, this`diagnosed
      ensures Valid() && Grown(old(rows[..]), rows[..], f) && (old(diagnosed) ==> diagnosed)
      ensures Quiet(program, f, h, Handle(x, v, n, root, pm, c), old(rows[..]), rows[..], diagnosed)
      ensures diagnosed ==> old(diagnosed) || BodyDiagnosed(program, Family(), h, Handle(x, v, n, root, pm, c))
      decreases Handle(x, v, n, root, pm, c), 1
    {
      ghost var b, before := Handle(x, v, n, root, pm, c), rows[..];
      var inner := h + [(n, root)];
      assert Justified(program, f, h, x) && Justified(program, f, h, v) && Justified(program, f, inner, c);
      Walk(f, h, x);
      ghost var r1, d1 := rows[..], diagnosed;
      Walk(f, h, v);
      ghost var r2, d2 := rows[..], diagnosed;
      Walk(f, inner, c);
      HandleQuiet(program, f, h, b, before, old(diagnosed), r1, d1, r2, d2, rows[..], diagnosed);
    }
  }

  lemma {:induction false} CallQuiet(p: Program, f: nat, h: Handlers, s: CallSite, ops: seq<Body>, before: seq<Row>, middle: seq<Row>, flag: bool, after: seq<Row>, flag': bool)
    requires |before| == |middle| == |after| == |p.functions| && f < |before| && BodyInRange(p, Call(s, ops))
    requires Grown(before, middle, f) && Grown(middle, after, f) && (flag ==> flag')
    requires forall a :: SiteContributes(p, AtomsOf(before), h, s, a) ==> a in middle[f]
    requires SiteDiagnosed(p, AtomsOf(before), s) || (SiteTail(p, s).Some? && h != []) ==> flag
    requires forall i :: 0 <= i < |ops| ==> Quiet(p, f, h, ops[i], middle, after, flag')
    ensures Quiet(p, f, h, Call(s, ops), before, after, flag')
  {
    if after[f] == before[f] {
      assert middle[f] == before[f];
      assert middle == after == before;
    }
  }

  lemma {:induction false} HandleQuiet(p: Program, f: nat, h: Handlers, b: Body, before: seq<Row>, was: bool, r1: seq<Row>, d1: bool, r2: seq<Row>, d2: bool, after: seq<Row>, now: bool)
    requires |before| == |r1| == |r2| == |after| == |p.functions| && f < |before| && b.Handle? && BodyInRange(p, b)
    requires Grown(before, r1, f) && Grown(r1, r2, f) && Grown(r2, after, f) && (was ==> d1) && (d1 ==> d2) && (d2 ==> now)
    requires Quiet(p, f, h, b.authority, before, r1, d1) && Quiet(p, f, h, b.provider, r1, r2, d2)
    requires Quiet(p, f, h + [(b.effectName, b.root)], b.body, r2, after, now)
    requires d1 ==> was || BodyDiagnosed(p, AtomsOf(r1), h, b.authority)
    requires d2 ==> d1 || BodyDiagnosed(p, AtomsOf(r2), h, b.provider)
    requires now ==> d2 || BodyDiagnosed(p, AtomsOf(after), h + [(b.effectName, b.root)], b.body)
    ensures Quiet(p, f, h, b, before, after, now)
    ensures now ==> was || BodyDiagnosed(p, AtomsOf(after), h, b)
  {
    QuietLater(p, f, h, b.authority, before, before, r1, d1, after, now);
    QuietLater(p, f, h, b.provider, before, r1, r2, d2, after, now);
    QuietLater(p, f, h + [(b.effectName, b.root)], b.body, before, r2, after, now, after, now);
    if d1 && !was {
      DiagnosedLater(p, f, h, b.authority, r1, after);
    } else if d2 && !d1 {
      DiagnosedLater(p, f, h, b.provider, r2, after);
    }
  }
}
