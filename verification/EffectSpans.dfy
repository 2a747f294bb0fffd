/** Effect atoms as the checker stores them, with spans of source text for names. */
module EffectSpans {
  import opened Lexer
  import opened Paths
  import opened EffectProgram
  import opened EffectRows

  datatype Argument = NoPath | PathSpan(span: Span) | ParameterId(root: nat) | SelfName

  datatype SpanAtom = SpanAtom(name: Span, argument: Argument)

  predicate AtomIn(s: Text, a: SpanAtom) {
    SpanIn(s, a.name) && (a.argument.PathSpan? ==> SpanIn(s, a.argument.span))
  }

  /** The atom that the spans stand for. */
  ghost function Meaning(s: Text, a: SpanAtom): Atom
    requires AtomIn(s, a)
  {
    Atom(Normal(s, a.name),
         match a.argument
         case NoPath => NoArgument
         case PathSpan(p) => StaticPath(Normal(s, p))
         case ParameterId(q) => Parameter(q)
         case SelfName => SelfAuthority)
  }

  ghost predicate AtomsIn(s: Text, row: seq<SpanAtom>) {
    forall i :: 0 <= i < |row| ==> AtomIn(s, row[i])
  }

  ghost function MeaningRow(s: Text, row: seq<SpanAtom>): (r: Row)
    requires AtomsIn(s, row)
    ensures |r| == |row| && forall i :: 0 <= i < |r| ==> r[i] == Meaning(s, row[i])
  {
    seq(|row|, i requires 0 <= i < |row| => Meaning(s, row[i]))
  }

  /** Comparing kinds and spans decides equality of what they stand for. */
  method AtomEqual(s: Text, left: SpanAtom, right: SpanAtom) returns (equal: bool)
    requires AtomIn(s, left) && AtomIn(s, right)
    ensures equal <==> Meaning(s, left) == Meaning(s, right)
  {
    hide Normal;
    var names := SpanEqual(s, left.name, right.name);
    if !names { return false; }
    match left.argument
    case NoPath => equal := right.argument.NoPath?;
    case PathSpan(p) =>
      equal := false;
      if right.argument.PathSpan? { equal := SpanEqual(s, p, right.argument.span); }
    case ParameterId(q) => equal := right.argument == ParameterId(q);
    case SelfName => equal := right.argument.SelfName?;
  }

  /** Appending to a row of spans is insertion into the set of atoms it stands for. */
  method AppendAtom(s: Text, row: seq<SpanAtom>, a: SpanAtom) returns (r: seq<SpanAtom>)
    requires AtomsIn(s, row) && AtomIn(s, a)
    ensures AtomsIn(s, r) && row <= r
    ensures MeaningRow(s, r) == Insert(MeaningRow(s, row), Meaning(s, a))
  {
    hide Meaning, AtomIn;
    var i := 0;
    while i < |row|
      invariant 0 <= i <= |row| && forall j :: 0 <= j < i ==> Meaning(s, row[j]) != Meaning(s, a)
    {
      var equal := AtomEqual(s, row[i], a);
      if equal {
        assert MeaningRow(s, row)[i] == Meaning(s, a);
        return row;
      }
      i := i + 1;
    }
    r := row + [a];
    assert MeaningRow(s, r) == MeaningRow(s, row) + [Meaning(s, a)];
  }
}
