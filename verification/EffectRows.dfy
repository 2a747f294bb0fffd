/** Row operations of the checker, executable, and what they mean for the equations. */
module EffectRows {
  import opened Options
  import opened EffectProgram

  /** A row append that finds an equal atom changes nothing. */
  function Insert(row: Row, a: Atom): (r: Row)
    ensures forall x :: x in r <==> x in row || x == a
    ensures NoRepeats(row) ==> NoRepeats(r)
    ensures row <= r
  {
    if a in row then row else row + [a]
  }

  function InsertAll(row: Row, atoms: Row): Row
    decreases atoms
  {
    if atoms == [] then row else InsertAll(Insert(row, atoms[0]), atoms[1..])
  }

  /** Inserting is set union, and keeps a row free of repetitions. */
  lemma {:induction false} InsertAllIsUnion(row: Row, atoms: Row)
    ensures forall x :: x in InsertAll(row, atoms) <==> x in row || x in atoms
    ensures NoRepeats(row) ==> NoRepeats(InsertAll(row, atoms))
    decreases atoms
  {
    if atoms != [] {
      InsertAllIsUnion(Insert(row, atoms[0]), atoms[1..]);
      assert atoms == [atoms[0]] + atoms[1..];
    }
  }

  lemma {:induction false} InsertAllAppend(row: Row, atoms: Row, a: Atom)
    ensures InsertAll(row, atoms + [a]) == Insert(InsertAll(row, atoms), a)
    decreases atoms
  {
    if atoms == [] {
      assert atoms + [a] == [a] && [a][1..] == [];
    } else {
      assert (atoms + [a])[0] == atoms[0] && (atoms + [a])[1..] == atoms[1..] + [a];
      InsertAllAppend(Insert(row, atoms[0]), atoms[1..], a);
    }
  }

  method Append(row: Row, a: Atom) returns (r: Row)
    ensures r == Insert(row, a)
  {
    var index := 0;
    while index < |row|
      invariant 0 <= index <= |row| && a !in row[..index]
    {
      if row[index] == a { return row; }
      index := index + 1;
    }
    assert row[..|row|] == row;
    r := row + [a];
  }

  // ------------------------------------------------------------- required atoms

  function SourceAtoms(p: Program, rows: seq<Row>, s: CallableSource): Row
    requires |rows| == |p.functions| && SourceInRange(p, s)
  {
    match s
    case FunctionValue(f) => rows[f]
    case OperationValue(m) => p.members[m].row
    case SignatureValue(g) => g.effects
  }

  /** The atoms that instantiate the effect parameter: authority-free and not fixed. */
  function Free(atoms: Row, fixed: Row): (r: Row)
    ensures forall a :: a in r <==> a in atoms && AuthorityFree(a) && a !in fixed
  {
    if atoms == [] then []
    else (if AuthorityFree(atoms[0]) && atoms[0] !in fixed then [atoms[0]] else []) + Free(atoms[1..], fixed)
  }

  function CallbackAtoms(p: Program, rows: seq<Row>, c: CallbackArgument): Row
    requires |rows| == |p.functions| && (c.Callback? ==> SourceInRange(p, c.actual))
  {
    if c.Callback? then Free(SourceAtoms(p, rows, c.actual), c.fixed) else []
  }

  function AllCallbackAtoms(p: Program, rows: seq<Row>, cbs: seq<CallbackArgument>): Row
    requires |rows| == |p.functions|
    requires forall i :: 0 <= i < |cbs| && cbs[i].Callback? ==> SourceInRange(p, cbs[i].actual)
  {
    if cbs == [] then []
    else AllCallbackAtoms(p, rows, cbs[..|cbs| - 1]) + CallbackAtoms(p, rows, cbs[|cbs| - 1])
  }

  lemma {:induction false} SomeAddsNext(p: Program, r: Family, cbs: seq<CallbackArgument>, a: Atom)
    requires |r| == |p.functions| && cbs != []
    requires forall i :: 0 <= i < |cbs| && cbs[i].Callback? ==> SourceInRange(p, cbs[i].actual)
    ensures SomeCallbackAdds(p, r, cbs, a) <==>
      SomeCallbackAdds(p, r, cbs[..|cbs| - 1], a) || CallbackAdds(p, r, cbs[|cbs| - 1], a)
  {
    hide CallbackAdds, SourceInRange;
    var last := |cbs| - 1;
    if SomeCallbackAdds(p, r, cbs[..last], a) {
      var i :| 0 <= i < last && CallbackAdds(p, r, cbs[..last][i], a);
      assert CallbackAdds(p, r, cbs[i], a);
    }
    if SomeCallbackAdds(p, r, cbs, a) {
      var i :| 0 <= i < |cbs| && CallbackAdds(p, r, cbs[i], a);
      if i < last { assert CallbackAdds(p, r, cbs[..last][i], a); }
    }
  }

  lemma {:induction false} CallbackAtomAdded(p: Program, rows: seq<Row>, cbs: seq<CallbackArgument>, a: Atom)
    requires |rows| == |p.functions|
    requires forall i :: 0 <= i < |cbs| && cbs[i].Callback? ==> SourceInRange(p, cbs[i].actual)
    ensures a in AllCallbackAtoms(p, rows, cbs) <==> SomeCallbackAdds(p, AtomsOf(rows), cbs, a)
    decreases |cbs|
  {
    hide CallbackAdds, CallbackAtoms, SourceInRange;
    if cbs != [] {
      var last := |cbs| - 1;
      CallbackAtomAdded(p, rows, cbs[..last], a);
      SomeAddsNext(p, AtomsOf(rows), cbs, a);
      OneCallback(p, rows, cbs[last], a);
    }
  }

  lemma {:induction false} OneCallback(p: Program, rows: seq<Row>, c: CallbackArgument, a: Atom)
    requires |rows| == |p.functions| && (c.Callback? ==> SourceInRange(p, c.actual))
    ensures a in CallbackAtoms(p, rows, c) <==> CallbackAdds(p, AtomsOf(rows), c, a)
  {
  }

  lemma {:induction false} AllCallbackAtomsAreAdded(p: Program, rows: seq<Row>, cbs: seq<CallbackArgument>)
    requires |rows| == |p.functions|
    requires forall i :: 0 <= i < |cbs| && cbs[i].Callback? ==> SourceInRange(p, cbs[i].actual)
    ensures forall a :: a in AllCallbackAtoms(p, rows, cbs) <==> SomeCallbackAdds(p, AtomsOf(rows), cbs, a)
  {
    hide SomeCallbackAdds, AllCallbackAtoms;
    forall a ensures a in AllCallbackAtoms(p, rows, cbs) <==> SomeCallbackAdds(p, AtomsOf(rows), cbs, a) {
      CallbackAtomAdded(p, rows, cbs, a);
    }
  }

  /** The effect argument is the least that, with the fixed effects of each callback's type, covers
      what the callback may do. */
  lemma {:induction false} ArgumentIsLeast(p: Program, r: Family, cbs: seq<CallbackArgument>, argument: set<Atom>)
    requires |r| == |p.functions|
    requires forall i :: 0 <= i < |cbs| && cbs[i].Callback? ==> SourceInRange(p, cbs[i].actual)
    ensures (forall a :: SomeCallbackAdds(p, r, cbs, a) ==> a in argument) <==>
      forall i, a :: 0 <= i < |cbs| && cbs[i].Callback? && a in SourceRow(p, r, cbs[i].actual) && AuthorityFree(a) ==> a in cbs[i].fixed || a in argument
  {
    if forall a :: SomeCallbackAdds(p, r, cbs, a) ==> a in argument {
      forall i, a | 0 <= i < |cbs| && cbs[i].Callback? && a in SourceRow(p, r, cbs[i].actual) && AuthorityFree(a) ensures a in cbs[i].fixed || a in argument {
        if a !in cbs[i].fixed { assert CallbackAdds(p, r, cbs[i], a); }
      }
    }
  }

  /** The inferred effect argument of a polymorphic call. */
  function CallArguments(p: Program, rows: seq<Row>, cbs: seq<CallbackArgument>): Row
    requires |rows| == |p.functions|
    requires forall i :: 0 <= i < |cbs| && cbs[i].Callback? ==> SourceInRange(p, cbs[i].actual)
  {
    InsertAll([], AllCallbackAtoms(p, rows, cbs))
  }

  /** The callee's row with the effect argument substituted for its parameter. */
  function CallRow(p: Program, rows: seq<Row>, g: nat, cbs: seq<CallbackArgument>): Row
    requires |rows| == |p.functions| && g < |rows|
    requires forall i :: 0 <= i < |cbs| && cbs[i].Callback? ==> SourceInRange(p, cbs[i].actual)
  {
    InsertAll(InsertAll([], rows[g]), AllCallbackAtoms(p, rows, cbs))
  }

  /** The atoms of a call, in the callee's terms, as the checker lists them. */
  function RequiredRow(p: Program, rows: seq<Row>, s: CallSite): (r: Row)
    requires |rows| == |p.functions| && SiteInRange(p, s)
    ensures forall a :: a in r <==> Required(p, AtomsOf(rows), s, a)
  {
    match s
    case NoRow => []
    case ToFunction(g, _, cbs) =>
      InsertAllIsUnion([], rows[g]);
      AllCallbackAtomsAreAdded(p, rows, cbs);
      InsertAllIsUnion(InsertAll([], rows[g]), AllCallbackAtoms(p, rows, cbs));
      if p.functions[g].polymorphic then CallRow(p, rows, g, cbs) else rows[g]
    case ToSignature(g) => g.effects
    case ToMember(m, _, _) => p.members[m].row
    case ToTraitMethod(t, _) => p.traitMethods[t].row
  }

  /** The loop over the callee's parameters that infers the effect argument. */
  method InferCallRow(p: Program, rows: seq<Row>, g: nat, cbs: seq<CallbackArgument>)
    returns (arguments: Row, row: Row, determined: bool)
    requires |rows| == |p.functions| && g < |rows|
    requires forall i :: 0 <= i < |cbs| && cbs[i].Callback? ==> SourceInRange(p, cbs[i].actual)
    ensures arguments == CallArguments(p, rows, cbs)
    ensures row == CallRow(p, rows, g, cbs)
    ensures determined <==> exists i :: 0 <= i < |cbs| && cbs[i].Callback?
  {
    hide InsertAll, Free, AllCallbackAtoms, Insert;
    row := AppendAll([], rows[g]);
    ghost var declared := row;
    NoCallbacks(p, rows, cbs, declared);
    arguments, determined := [], false;
    var i := 0;
    while i < |cbs|
      invariant 0 <= i <= |cbs|
      invariant determined <==> exists j :: 0 <= j < i && cbs[j].Callback?
      invariant arguments == InsertAll([], AllCallbackAtoms(p, rows, cbs[..i]))
      invariant row == InsertAll(declared, AllCallbackAtoms(p, rows, cbs[..i]))
    {
      NextCallback(p, rows, cbs, i, []);
      NextCallback(p, rows, cbs, i, declared);
      if cbs[i].Callback? {
        determined := true;
        var added := Free(SourceAtoms(p, rows, cbs[i].actual), cbs[i].fixed);
        arguments := AppendAll(arguments, added);
        row := AppendAll(row, added);
      }
      i := i + 1;
    }
    assert cbs[..i] == cbs;
  }

  lemma {:induction false} NoCallbacks(p: Program, rows: seq<Row>, cbs: seq<CallbackArgument>, declared: Row)
    requires |rows| == |p.functions|
    requires forall j :: 0 <= j < |cbs| && cbs[j].Callback? ==> SourceInRange(p, cbs[j].actual)
    ensures InsertAll([], AllCallbackAtoms(p, rows, cbs[..0])) == [] && InsertAll(declared, AllCallbackAtoms(p, rows, cbs[..0])) == declared
  {
  }

  lemma {:induction false} NextCallback(p: Program, rows: seq<Row>, cbs: seq<CallbackArgument>, i: nat, row: Row)
    requires |rows| == |p.functions| && i < |cbs|
    requires forall j :: 0 <= j < |cbs| && cbs[j].Callback? ==> SourceInRange(p, cbs[j].actual)
    ensures InsertAll(row, AllCallbackAtoms(p, rows, cbs[..i + 1])) ==
      if cbs[i].Callback? then InsertAll(InsertAll(row, AllCallbackAtoms(p, rows, cbs[..i])), Free(SourceAtoms(p, rows, cbs[i].actual), cbs[i].fixed))
      else InsertAll(row, AllCallbackAtoms(p, rows, cbs[..i]))
  {
    hide InsertAll, Free, SourceAtoms;
    assert cbs[..i + 1][..i] == cbs[..i];
    var before := AllCallbackAtoms(p, rows, cbs[..i]);
    if cbs[i].Callback? {
      InsertAllJoin(row, before, Free(SourceAtoms(p, rows, cbs[i].actual), cbs[i].fixed));
    } else {
      assert before + [] == before;
    }
  }

  method AppendAll(row: Row, atoms: Row) returns (r: Row)
    ensures r == InsertAll(row, atoms)
  {
    hide Insert, NoRepeats;
    r := row;
    var i := 0;
    while i < |atoms|
      invariant 0 <= i <= |atoms| && r == InsertAll(row, atoms[..i])
    {
      InsertAllAppend(row, atoms[..i], atoms[i]);
      assert atoms[..i + 1] == atoms[..i] + [atoms[i]];
      r := Append(r, atoms[i]);
      i := i + 1;
    }
    assert atoms[..i] == atoms;
  }

  lemma {:induction false} InsertAllJoin(row: Row, x: Row, y: Row)
    ensures InsertAll(row, x + y) == InsertAll(InsertAll(row, x), y)
    decreases x
  {
    if x == [] {
      assert x + y == y;
    } else {
      assert (x + y)[0] == x[0] && (x + y)[1..] == x[1..] + y;
      InsertAllJoin(Insert(row, x[0]), x[1..], y);
    }
  }

  // ------------------------------------------------------------------ diagnosis

  /** An atom whose authority the site cannot express in the caller's terms. */
  ghost predicate SiteDiagnosed(p: Program, r: Family, s: CallSite)
    requires |r| == |p.functions| && SiteInRange(p, s)
  {
    exists q :: Required(p, r, s, q) && SiteRoots(s, q.authority).None?
  }

  function CallbackTail(cbs: seq<CallbackArgument>): Option<nat> {
    if cbs == [] then None
    else if cbs[0].Callback? && cbs[0].actual.SignatureValue? && cbs[0].actual.signature.tail.Some? then
      cbs[0].actual.signature.tail
    else CallbackTail(cbs[1..])
  }

  /** The effect parameter that the call leaves unresolved. */
  function SiteTail(p: Program, s: CallSite): Option<nat>
    requires SiteInRange(p, s)
  {
    match s
    case ToSignature(g) => g.tail
    case ToFunction(g, _, cbs) => if p.functions[g].polymorphic then CallbackTail(cbs) else None
    case _ => None
  }

  /** A site the checker reports on its own: unknown authority, or a handler around an
      unresolved row. */
  ghost predicate BodyDiagnosed(p: Program, r: Family, h: Handlers, b: Body)
    requires |r| == |p.functions| && BodyInRange(p, b)
    decreases b
  {
    match b
    case Node(cs) => exists i :: 0 <= i < |cs| && BodyDiagnosed(p, r, h, cs[i])
    case Call(s, ops) =>
      || SiteDiagnosed(p, r, s) || (SiteTail(p, s).Some? && h != [])
      || exists i :: 0 <= i < |ops| && BodyDiagnosed(p, r, h, ops[i])
    case Panic(m) => BodyDiagnosed(p, r, h, m)
    case Handle(x, v, n, root, _, c) =>
      BodyDiagnosed(p, r, h, x) || BodyDiagnosed(p, r, h, v) || BodyDiagnosed(p, r, h + [(n, root)], c)
  }

  lemma {:induction false} DiagnosedMonotone(p: Program, x: Family, y: Family, h: Handlers, b: Body)
    requires |x| == |y| == |p.functions| && BodyInRange(p, b)
    requires forall g :: g in Reads(p, b) && g < |x| ==> x[g] <= y[g]
    requires BodyDiagnosed(p, x, h, b)
    ensures BodyDiagnosed(p, y, h, b)
    decreases b
  {
    match b
    case Node(cs) =>
      var i :| 0 <= i < |cs| && BodyDiagnosed(p, x, h, cs[i]);
      assert Reads(p, cs[i]) <= ReadsAll(p, cs);
      DiagnosedMonotone(p, x, y, h, cs[i]);
    case Call(s, ops) =>
      if SiteDiagnosed(p, x, s) {
        var q :| Required(p, x, s, q) && SiteRoots(s, q.authority).None?;
        RequiredMonotone(p, x, y, s, ops, q);
      } else if !(SiteTail(p, s).Some? && h != []) {
        var i :| 0 <= i < |ops| && BodyDiagnosed(p, x, h, ops[i]);
        assert Reads(p, ops[i]) <= ReadsAll(p, ops);
        DiagnosedMonotone(p, x, y, h, ops[i]);
      }
    case Panic(m) => DiagnosedMonotone(p, x, y, h, m);
    case Handle(z, v, n, root, _, c) =>
      if BodyDiagnosed(p, x, h, z) {
        DiagnosedMonotone(p, x, y, h, z);
      } else if BodyDiagnosed(p, x, h, v) {
        DiagnosedMonotone(p, x, y, h, v);
      } else {
        DiagnosedMonotone(p, x, y, h + [(n, root)], c);
      }
  }
}
