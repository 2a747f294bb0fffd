/** What the formatter's output looks like: how lines are indented, and where blanks stand. */
module Layout {
  import opened Options
  import opened Lexer
  import opened Formatter
  import opened Relexing

  // ----------------------------------------------------------------- counting brackets

  /** What a piece adds to the open braces, or to the open parentheses and square brackets. */
  function Weight(p: Piece, braces: bool): int {
    if braces then (if Is(p, "{") then 1 else if Is(p, "}") then -1 else 0)
    else if IsLeft(p) then 1 else if IsRight(p) then -1 else 0
  }

  /** Openings less closings among the pieces from j up to i. */
  function Surplus(ps: seq<Piece>, j: nat, i: nat, braces: bool): int
    requires j <= i <= |ps|
  {
    if i == j then 0 else Surplus(ps, j, i - 1, braces) + Weight(ps[i - 1], braces)
  }

  /** So many are open before piece i: the largest surplus since some earlier piece. A closing
      bracket that nothing opened counts for nothing. */
  ghost predicate OpenBefore(ps: seq<Piece>, i: nat, braces: bool, n: nat) {
    && i <= |ps|
    && (forall j :: 0 <= j <= i ==> Surplus(ps, j, i, braces) <= n)
    && (exists j :: 0 <= j <= i && Surplus(ps, j, i, braces) == n)
  }

  ghost function Counter(ps: seq<Piece>, i: nat, braces: bool): nat
    requires i <= |ps|
  {
    if braces then Steps(START, ps[..i]).depth else Steps(START, ps[..i]).continuation
  }

  lemma {:induction false} CounterStep(ps: seq<Piece>, i: nat, braces: bool)
    requires i < |ps|
    ensures Counter(ps, i + 1, braces) == if Counter(ps, i, braces) + Weight(ps[i], braces) < 0 then 0 else Counter(ps, i, braces) + Weight(ps[i], braces)
  {
    assert ps[..i + 1][..i] == ps[..i];
    hide Before;
  }

  /** The renderer's counters are the numbers of open brackets. */
  lemma {:induction false} CounterCounts(ps: seq<Piece>, i: nat, braces: bool)
    requires i <= |ps|
    ensures OpenBefore(ps, i, braces, Counter(ps, i, braces))
    decreases i
  {
    hide Counter, Weight, OpenBefore;
    if i == 0 {
      NothingOpen(ps, braces);
    } else {
      CounterCounts(ps, i - 1, braces);
      CounterStep(ps, i - 1, braces);
      OpenNext(ps, i - 1, braces, Counter(ps, i - 1, braces));
    }
  }

  lemma {:induction false} NothingOpen(ps: seq<Piece>, braces: bool)
    ensures OpenBefore(ps, 0, braces, 0) && Counter(ps, 0, braces) == 0
  {
    assert ps[..0] == [];
    assert Surplus(ps, 0, 0, braces) == 0;
  }

  lemma {:induction false} OpenNext(ps: seq<Piece>, i: nat, braces: bool, n: nat)
    requires i < |ps| && OpenBefore(ps, i, braces, n)
    ensures OpenBefore(ps, i + 1, braces, if n + Weight(ps[i], braces) < 0 then 0 else n + Weight(ps[i], braces))
  {
    hide Weight;
    var m := if n + Weight(ps[i], braces) < 0 then 0 else n + Weight(ps[i], braces);
    var next := i + 1;
    forall k | 0 <= k <= next ensures Surplus(ps, k, next, braces) <= m {
      if k <= i { assert Surplus(ps, k, i, braces) <= n; }
    }
    assert Surplus(ps, i + 1, i + 1, braces) == 0;
    var j :| 0 <= j <= i && Surplus(ps, j, i, braces) == n;
    assert Surplus(ps, j, i + 1, braces) == n + Weight(ps[i], braces);
  }

  lemma {:induction false} OpenUnique(ps: seq<Piece>, i: nat, braces: bool, m: nat, n: nat)
    requires OpenBefore(ps, i, braces, m) && OpenBefore(ps, i, braces, n)
    ensures m == n
  {
    var j :| 0 <= j <= i && Surplus(ps, j, i, braces) == m;
    var k :| 0 <= k <= i && Surplus(ps, k, i, braces) == n;
  }

  // ---------------------------------------------------------------------------- lines

  predicate Closing(p: Piece) { Is(p, "}") || IsRight(p) }

  /** How deep a piece stands if it starts a line: as many levels as brackets are open before it,
      one less if it closes one itself. */
  function Level(p: Piece, open: nat): nat { if Closing(p) && open > 0 then open - 1 else open }

  /** The piece is the first of its line. */
  ghost predicate StartsLine(ps: seq<Piece>, i: nat)
    requires i < |ps|
  {
    ps[i].newlines > 0 || AtLineStart(Steps(START, ps[..i]).out)
  }

  lemma {:induction false} BreakEnds(out: string, count: nat)
    requires count > 0
    ensures AtLineStart(Break(out, count))
  {
    var wanted, present := Min(count, 2), TrailingBreaks(out);
    if present < wanted {
      assert Break(out, count)[|Break(out, count)| - 1] == '\n';
    } else {
      assert Break(out, count) == out;
    }
  }

  /** Before the first piece of a line stand line breaks, then four blanks for each level. */
  lemma {:induction false} LineIndented(ps: seq<Piece>, i: nat, braces: nat, brackets: nat) returns (breaks: nat)
    requires i < |ps| && StartsLine(ps, i) && OpenBefore(ps, i, true, braces) && OpenBefore(ps, i, false, brackets)
    ensures breaks <= 2 && Gap(ps, i) == Repeat('\n', breaks) + Repeat(' ', 4 * Level(ps[i], braces + brackets))
  {
    CounterCounts(ps, i, true);
    CounterCounts(ps, i, false);
    OpenUnique(ps, i, true, braces, Counter(ps, i, true));
    OpenUnique(ps, i, false, brackets, Counter(ps, i, false));
    hide OpenBefore, Surplus;
    var st, p := Steps(START, ps[..i]), ps[i];
    assert LineDepth(st, p) == Level(p, braces + brackets);
    hide Steps, LineDepth, Level, NeedsSpace;
    if p.newlines > 0 {
      BreakEnds(st.out, p.newlines);
      breaks := |Break(st.out, p.newlines)| - |st.out|;
      assert Break(st.out, p.newlines) == st.out + Repeat('\n', breaks);
      hide Break;
      assert Before(st, p) == st.out + Repeat('\n', breaks) + Repeat(' ', 4 * Level(p, braces + brackets));
    } else {
      breaks := 0;
      assert Before(st, p) == st.out + Repeat(' ', 4 * Level(p, braces + brackets));
      assert Repeat('\n', 0) == "";
    }
    hide Before;
    assert Before(st, p)[|st.out|..] == Repeat('\n', breaks) + Repeat(' ', 4 * Level(p, braces + brackets));
  }

  /** Within a line there is one blank before a piece, or none. */
  lemma {:induction false} LineSpaced(ps: seq<Piece>, i: nat)
    requires 0 < i < |ps| && !StartsLine(ps, i)
    ensures Gap(ps, i) == if NeedsSpace(ps[i - 1], ps[i]) then " " else ""
  {
    PreviousIs(ps, i - 1);
    hide Steps, NeedsSpace, LineDepth;
  }

  // ------------------------------------------------------------------ matching brackets

  /** Between two places every closing bracket has its opening one, and the other way round. */
  ghost predicate Balanced(ps: seq<Piece>, j: nat, i: nat, braces: bool) {
    && j <= i <= |ps| && Surplus(ps, j, i, braces) == 0
    && forall k :: j <= k <= i ==> Surplus(ps, j, k, braces) >= 0
  }

  lemma {:induction false} CounterAdds(ps: seq<Piece>, j: nat, i: nat, braces: bool)
    requires j <= i <= |ps| && forall k :: j <= k <= i ==> Surplus(ps, j, k, braces) >= 0
    ensures Counter(ps, i, braces) == Counter(ps, j, braces) + Surplus(ps, j, i, braces)
    decreases i
  {
    hide Counter;
    if j < i {
      CounterAdds(ps, j, i - 1, braces);
      CounterStep(ps, i - 1, braces);
      assert Surplus(ps, j, i, braces) >= 0;
    }
  }

  /** What is open before a closing bracket: what was open before the opening one, and that. */
  lemma {:induction false} OpenAtClosing(ps: seq<Piece>, i: nat, j: nat, braces: bool)
    requires i < j < |ps| && Balanced(ps, i + 1, j, braces) && Counter(ps, i, braces) + Weight(ps[i], braces) >= 0
    ensures Counter(ps, j, braces) == Counter(ps, i, braces) + Weight(ps[i], braces)
  {
    hide Counter, Weight;
    CounterStep(ps, i, braces);
    CounterAdds(ps, i + 1, j, braces);
  }

  /** A closing bracket at the start of a line stands as deep as a piece at the place of its
      opening bracket would. */
  lemma {:induction false} ClosingAligned(ps: seq<Piece>, i: nat, j: nat, braces: nat, brackets: nat) returns (breaks: nat)
    requires i < j < |ps| && StartsLine(ps, j) && Balanced(ps, i + 1, j, true) && Balanced(ps, i + 1, j, false)
    requires (Is(ps[i], "{") && Is(ps[j], "}")) || (IsLeft(ps[i]) && IsRight(ps[j]))
    requires OpenBefore(ps, i, true, braces) && OpenBefore(ps, i, false, brackets)
    ensures breaks <= 2 && Gap(ps, j) == Repeat('\n', breaks) + Repeat(' ', 4 * (braces + brackets))
  {
    hide OpenBefore, Counter, Gap, StartsLine, Balanced, Repeat;
    CounterCounts(ps, i, true);
    CounterCounts(ps, i, false);
    OpenUnique(ps, i, true, braces, Counter(ps, i, true));
    OpenUnique(ps, i, false, brackets, Counter(ps, i, false));
    OpenAtClosing(ps, i, j, true);
    OpenAtClosing(ps, i, j, false);
    CounterCounts(ps, j, true);
    CounterCounts(ps, j, false);
    breaks := LineIndented(ps, j, Counter(ps, j, true), Counter(ps, j, false));
  }

  // -------------------------------------------------------------------------- spacing

  /** No comment, no angle bracket and no unary operator. */
  predicate Ordinary(p: Piece) { !IsComment(p) && p.angle == NoAngle && !p.unary }

  /** Written without a blank before it. */
  predicate Hangs(p: Piece) { Is(p, ",") || Is(p, ".") || Is(p, "?") || Is(p, ":") || IsRight(p) }

  /** Written without a blank after it. */
  predicate Leads(p: Piece) { Is(p, ".") || Is(p, "@") || IsLeft(p) }

  /** Commas, dots, colons, question marks and closing brackets follow directly; names follow
      opening brackets, dots and at signs directly. */
  lemma {:induction false} NoBlank(p: Piece, c: Piece)
    requires Ordinary(p) && Ordinary(c)
    ensures Hangs(c) || Leads(p) ==> !NeedsSpace(p, c)
  {
  }

  /** Everywhere else one blank stands exactly after commas and colons, around operators, inside
      braces that are not empty, before an opening brace, between words, between a closing brace
      and a word, and between a closing bracket and an if. */
  lemma {:induction false} OneBlank(p: Piece, c: Piece)
    requires Ordinary(p) && Ordinary(c) && !Hangs(c) && !Leads(p)
    ensures NeedsSpace(p, c) <==>
      || Is(p, ",") || Is(p, ":") || IsBinary(p) || IsBinary(c)
      || (Is(p, "{") != Is(c, "}"))
      || (!Is(p, "{") && (Is(c, "{") || (IsWord(p) && IsWord(c)) || (Is(p, "}") && IsWord(c)) || (IsRight(p) && Is(c, "if"))))
  {
  }

  /** A unary operator is written directly before its operand, and apart from a word before it. */
  lemma {:induction false} UnarySpacing(p: Piece, c: Piece)
    requires !IsComment(p) && !IsComment(c) && p.angle == NoAngle && c.angle == NoAngle
    ensures p.unary && !Is(p, ",") && !Is(p, ":") && !(IsBinary(c) && !c.unary) && !(c.unary && IsWord(p)) ==> !NeedsSpace(p, c)
    ensures c.unary && IsWord(p) && !Hangs(c) && !Leads(p) ==> NeedsSpace(p, c)
  {
  }

  /** Comments and comparisons stand apart; the brackets of a type do not, except that a word
      stands apart from the end of a type. */
  lemma {:induction false} AngleSpacing(p: Piece, c: Piece)
    ensures IsComment(p) || IsComment(c) || p.angle.Comparison? || c.angle.Comparison? ==> NeedsSpace(p, c)
    ensures !IsComment(p) && !IsComment(c) && !p.angle.Comparison? && c.angle.Delimiter? ==> !NeedsSpace(p, c)
    ensures !IsComment(p) && !IsComment(c) && !c.angle.Comparison? && p.angle.Delimiter? && Is(p, "<") ==> !NeedsSpace(p, c)
    ensures !IsComment(p) && !IsComment(c) && c.angle == NoAngle && p.angle.Delimiter? && Is(p, ">") && IsWord(c) ==> NeedsSpace(p, c)
  {
  }
}
