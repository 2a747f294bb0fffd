/** The formatter: a renderer of tokens, and a driver that accepts its own output only if
    it lexes, parses, keeps the tokens and renders to itself. */
module Formatter {
  import opened Options
  import opened Lexer

  datatype Role = NoAngle | Delimiter | Comparison

  /** What the renderer needs of the syntax tree: where unary operators start, and for each
      comparison with < or > the operator and the ends of its operands. */
  datatype Tree = Tree(unaries: set<(nat, string)>, comparisons: seq<(string, nat, nat)>)

  /** The front end: nothing if lexing or parsing reports an error. */
  type Parser = (Text, seq<Token>) -> Option<Tree>

  /** A token to be rendered, and the line breaks since the previous one. */
  datatype Piece = Piece(kind: Kind, text: string, unary: bool, angle: Role, newlines: nat)

  // ----------------------------------------------------------------------- spacing

  predicate IsComment(p: Piece) { p.kind.LineComment? || p.kind.BlockComment? }

  predicate IsWord(p: Piece) { p.kind.Identifier? || p.kind.Integer? || p.kind.Quoted? || p.kind.Keyword? }

  predicate Is(p: Piece, text: string) { (p.kind.Symbol? || p.kind.Keyword?) && p.text == text }

  const BINARY: set<string> := {
    "<=", ">=", "=", "==", "!=", "+", "-", "*", "/", "%", "+=", "-=", "*=", "/=", "%=", "&&", "||", "->", "=>" }

  predicate IsBinary(p: Piece) { p.kind.Symbol? && p.text in BINARY }

  predicate IsLeft(p: Piece) { Is(p, "(") || Is(p, "[") }

  predicate IsRight(p: Piece) { Is(p, ")") || Is(p, "]") }

  predicate NeedsSpace(p: Piece, c: Piece) {
    if IsComment(c) || IsComment(p) then true
    else if p.angle.Comparison? || c.angle.Comparison? then true
    else if c.angle.Delimiter? || (p.angle.Delimiter? && Is(p, "<")) then false
    else if p.angle.Delimiter? && Is(p, ">") && IsWord(c) then true
    else if Is(c, ",") || Is(c, ".") || Is(c, "?") || Is(c, ":") || IsRight(c) then false
    else if Is(p, ".") || Is(p, "@") || IsLeft(p) then false
    else if Is(p, ",") || Is(p, ":") || (IsBinary(p) && !p.unary) || (IsBinary(c) && !c.unary) then true
    else if c.unary && IsWord(p) then true
    else if p.unary then false
    else if Is(p, "{") then !Is(c, "}")
    else if Is(c, "}") then true
    else if Is(p, "}") && IsWord(c) then true
    else if Is(c, "if") && IsRight(p) then true
    else if Is(c, "{") then true
    else IsWord(p) && IsWord(c)
  }

  // --------------------------------------------------------------------- rendering

  /** The renderer's state: output so far, nesting, and the previous piece. */
  datatype State = State(out: string, depth: nat, continuation: nat, previous: Option<Piece>)

  predicate AtLineStart(out: string) { out == "" || out[|out| - 1] == '\n' }

  function TrailingBreaks(out: string): nat {
    if out == "" || out[|out| - 1] != '\n' then 0 else 1 + TrailingBreaks(out[..|out| - 1])
  }

  function Min(a: nat, b: nat): nat { if a < b then a else b }

  function Repeat(c: char, n: nat): (r: string)
    ensures |r| == n && forall i :: 0 <= i < n ==> r[i] == c
  {
    seq(n, i requires 0 <= i < n => c)
  }

  /** Up to two line breaks, counting those already there. */
  function Break(out: string, count: nat): string {
    var wanted, present := Min(count, 2), TrailingBreaks(out);
    out + Repeat('\n', if present < wanted then wanted - present else 0)
  }

  function LineDepth(st: State, p: Piece): nat {
    var d := st.depth + st.continuation;
    if (Is(p, "}") || IsRight(p)) && d > 0 then d - 1 else d
  }

  function Before(st: State, p: Piece): string {
    var out := if p.newlines > 0 then Break(st.out, p.newlines)
               else if st.previous.Some? && !AtLineStart(st.out) && NeedsSpace(st.previous.value, p) then st.out + " "
               else st.out;
    if AtLineStart(out) then out + Repeat(' ', 4 * LineDepth(st, p)) else out
  }

  function Step(st: State, p: Piece): State {
    State(Before(st, p) + p.text,
          if Is(p, "{") then st.depth + 1 else if Is(p, "}") && st.depth > 0 then st.depth - 1 else st.depth,
          if IsLeft(p) then st.continuation + 1 else if IsRight(p) && st.continuation > 0 then st.continuation - 1 else st.continuation,
          Some(p))
  }

  const START := State("", 0, 0, None)

  function Steps(st: State, ps: seq<Piece>): State {
    if ps == [] then st else Step(Steps(st, ps[..|ps| - 1]), ps[|ps| - 1])
  }

  function Render(ps: seq<Piece>): string { Steps(START, ps).out + "\n" }

  // ------------------------------------------------------------ pieces of a source

  /** The first token with this text that lies between two operands. */
  function OperatorAt(s: Text, ts: seq<Token>, c: (string, nat, nat), i: nat): Option<nat>
    requires i <= |ts| && forall k :: 0 <= k < |ts| ==> ts[k].start <= ts[k].end <= |s|
    decreases |ts| - i
  {
    if i == |ts| then None
    else if ts[i].start < c.1 then OperatorAt(s, ts, c, i + 1)
    else if ts[i].end > c.2 then None
    else if ts[i].kind.Symbol? && TextOf(s, ts[i]) == c.0 then Some(i)
    else OperatorAt(s, ts, c, i + 1)
  }

  predicate InText(s: Text, ts: seq<Token>) {
    forall k :: 0 <= k < |ts| ==> ts[k].start <= ts[k].end <= |s|
  }

  predicate AnglesFound(s: Text, ts: seq<Token>, tree: Tree)
    requires InText(s, ts)
  {
    forall k :: 0 <= k < |tree.comparisons| ==> OperatorAt(s, ts, tree.comparisons[k], 0).Some?
  }

  function RoleOf(s: Text, ts: seq<Token>, tree: Tree, i: nat): Role
    requires InText(s, ts) && i < |ts|
  {
    if exists k :: 0 <= k < |tree.comparisons| && OperatorAt(s, ts, tree.comparisons[k], 0) == Some(i) then Comparison
    else if ts[i].kind.Symbol? && (TextOf(s, ts[i]) == "<" || TextOf(s, ts[i]) == ">") then Delimiter
    else NoAngle
  }

  predicate IsUnary(s: Text, ts: seq<Token>, tree: Tree, i: nat)
    requires InText(s, ts) && i < |ts|
  {
    && ts[i].kind.Symbol? && (TextOf(s, ts[i]) == "-" || TextOf(s, ts[i]) == "!")
    && (ts[i].start, TextOf(s, ts[i])) in tree.unaries
  }

  predicate IsSpacing(k: Kind) { k.Whitespace? || k.Newline? }

  /** The pieces among the first n tokens, and the line breaks after the last of them. */
  function PiecesOf(s: Text, ts: seq<Token>, tree: Tree, n: nat): (seq<Piece>, nat)
    requires InText(s, ts) && n <= |ts|
  {
    if n == 0 then ([], 0)
    else
      var (ps, pending) := PiecesOf(s, ts, tree, n - 1);
      var t := ts[n - 1];
      if t.kind.Whitespace? || t.kind.Eof? then (ps, pending)
      else if t.kind.Newline? then (ps, pending + 1)
      else (ps + [Piece(t.kind, TextOf(s, t), IsUnary(s, ts, tree, n - 1), RoleOf(s, ts, tree, n - 1), pending)], 0)
  }

  /** What the formatter makes of a source with this tree. */
  function RenderSource(s: Text, ts: seq<Token>, tree: Tree): Option<string>
    requires InText(s, ts)
  {
    if AnglesFound(s, ts, tree) then Some(Render(PiecesOf(s, ts, tree, |ts|).0)) else None
  }

  // ---------------------------------------------------------------------- the loops

  method AppendBreak(out: string, count: nat) returns (r: string)
    ensures r == Break(out, count)
  {
    var wanted := if count > 2 then 2 else count;
    var present: nat := 0;
    var cursor := |out|;
    assert out[..cursor] == out;
    while cursor != 0 && out[cursor - 1] == '\n'
      invariant 0 <= cursor <= |out| && TrailingBreaks(out) == present + TrailingBreaks(out[..cursor])
    {
      assert out[..cursor][..cursor - 1] == out[..cursor - 1];
      cursor, present := cursor - 1, present + 1;
    }
    ghost var had := present;
    r := out;
    while present < wanted
      invariant r == out + Repeat('\n', present - had) && had <= present
      invariant present == had || present <= wanted
    {
      r := r + ['\n'];
      present := present + 1;
    }
  }

  method AppendIndent(out: string, depth: nat) returns (r: string)
    ensures r == out + Repeat(' ', 4 * depth)
  {
    var remaining := depth * 4;
    r := out;
    while remaining != 0
      invariant 0 <= remaining <= 4 * depth && r == out + Repeat(' ', 4 * depth - remaining)
    {
      var count := if remaining < 32 then remaining else 32;
      r := r + Repeat(' ', count);
      remaining := remaining - count;
    }
  }

  /** Everything the renderer writes before and with one piece. */
  method AppendPiece(st: State, p: Piece) returns (r: State)
    ensures r == Step(st, p)
  {
    var out := st.out;
    if p.newlines != 0 {
      out := AppendBreak(out, p.newlines);
    } else if st.previous.Some? && !AtLineStart(out) && NeedsSpace(st.previous.value, p) {
      out := out + " ";
    }
    if AtLineStart(out) { out := AppendIndent(out, LineDepth(st, p)); }
    out := out + p.text;
    var depth, continuation := st.depth, st.continuation;
    if Is(p, "{") {
      depth := depth + 1;
    } else if Is(p, "}") && depth != 0 {
      depth := depth - 1;
    } else if IsLeft(p) {
      continuation := continuation + 1;
    } else if IsRight(p) && continuation != 0 {
      continuation := continuation - 1;
    }
    r := State(out, depth, continuation, Some(p));
  }

  method RenderRaw(s: Text, ts: seq<Token>, tree: Tree) returns (r: Option<string>)
    requires Tiles(s, 0, ts) && InText(s, ts)
    ensures r == RenderSource(s, ts, tree)
  {
    hide Step, RoleOf, IsUnary, AnglesFound, TextOf;
    if !AnglesFound(s, ts, tree) { return None; }
    var st := START;
    var pending: nat := 0;
    var i := 0;
    assert Steps(START, []) == START;
    while i < |ts| && !ts[i].kind.Eof?
      invariant 0 <= i < |ts|
      invariant st == Steps(START, PiecesOf(s, ts, tree, i).0) && pending == PiecesOf(s, ts, tree, i).1
    {
      var t := ts[i];
      if t.kind.Whitespace? {
      } else if t.kind.Newline? {
        pending := pending + 1;
      } else {
        var p := Piece(t.kind, TextOf(s, t), IsUnary(s, ts, tree, i), RoleOf(s, ts, tree, i), pending);
        ghost var ps := PiecesOf(s, ts, tree, i).0;
        assert (ps + [p])[..|ps|] == ps;
        st := AppendPiece(st, p);
        pending := 0;
      }
      i := i + 1;
    }
    assert i == |ts| - 1;
    r := Some(st.out + "\n");
  }

  // ----------------------------------------------------------- what rendering keeps

  function Clip(p: Piece): Piece { p.(newlines := Min(p.newlines, 2)) }

  function ClipAll(ps: seq<Piece>): (r: seq<Piece>)
    ensures |r| == |ps| && forall i :: 0 <= i < |r| ==> r[i] == Clip(ps[i])
  {
    seq(|ps|, i requires 0 <= i < |ps| => Clip(ps[i]))
  }

  ghost predicate SameButBreaks(x: Option<Piece>, y: Option<Piece>) {
    (x.None? && y.None?) || (x.Some? && y.Some? && Clip(x.value) == Clip(y.value))
  }

  lemma {:induction false} ClipIs(p: Piece, text: string)
    ensures Is(p, text) == Is(Clip(p), text)
    ensures IsLeft(p) == IsLeft(Clip(p)) && IsRight(p) == IsRight(Clip(p))
  {
  }

  lemma {:induction false} ClipSpace(p: Piece, q: Piece, c: Piece)
    requires Clip(p) == Clip(q)
    ensures NeedsSpace(p, c) == NeedsSpace(q, Clip(c))
  {
    assert forall t: string :: Is(p, t) == Is(q, t) && Is(c, t) == Is(Clip(c), t);
    assert IsComment(p) == IsComment(q) && IsWord(p) == IsWord(q) && IsBinary(p) == IsBinary(q) && IsLeft(p) == IsLeft(q) && IsRight(p) == IsRight(q);
    assert IsComment(c) == IsComment(Clip(c)) && IsWord(c) == IsWord(Clip(c)) && IsBinary(c) == IsBinary(Clip(c)) && IsRight(c) == IsRight(Clip(c));
    assert p.angle == q.angle && p.unary == q.unary && c.angle == Clip(c).angle && c.unary == Clip(c).unary;
    hide Is, IsComment, IsWord, IsBinary, IsLeft, IsRight, Clip;
  }

  lemma {:induction false} ClipBefore(x: State, y: State, p: Piece)
    requires x.out == y.out && x.depth == y.depth && x.continuation == y.continuation && SameButBreaks(x.previous, y.previous)
    ensures Before(x, p) == Before(y, Clip(p))
  {
    ClipIs(p, "}");
    if x.previous.Some? { ClipSpace(x.previous.value, y.previous.value, p); }
    assert Break(x.out, p.newlines) == Break(y.out, Clip(p).newlines);
    assert LineDepth(x, p) == LineDepth(y, Clip(p));
    hide NeedsSpace, Is, IsRight, Break, LineDepth, Repeat;
  }

  lemma {:induction false} ClipStep(x: State, y: State, p: Piece)
    requires x.out == y.out && x.depth == y.depth && x.continuation == y.continuation && SameButBreaks(x.previous, y.previous)
    ensures var a, b := Step(x, p), Step(y, Clip(p));
            a.out == b.out && a.depth == b.depth && a.continuation == b.continuation && SameButBreaks(a.previous, b.previous)
  {
    ClipBefore(x, y, p);
    ClipIs(p, "{");
    ClipIs(p, "}");
    hide Before, Is, IsLeft, IsRight;
  }

  /** Rendering looks at kinds, texts, unary and angle marks, and at no more than two line
      breaks before each token. */
  lemma {:induction false} ClipSteps(ps: seq<Piece>)
    ensures var a, b := Steps(START, ps), Steps(START, ClipAll(ps));
            a.out == b.out && a.depth == b.depth && a.continuation == b.continuation && SameButBreaks(a.previous, b.previous)
    decreases |ps|
  {
    hide Step, Clip;
    if ps == [] {
      assert ClipAll(ps) == [];
    } else {
      var n := |ps| - 1;
      ClipSteps(ps[..n]);
      assert ClipAll(ps)[..n] == ClipAll(ps[..n]);
      ClipStep(Steps(START, ps[..n]), Steps(START, ClipAll(ps[..n])), ps[n]);
    }
  }

  /** So a source whose pieces are, up to clipping, those it was rendered from is a fixed
      point of rendering. */
  lemma {:induction false} FixedPoint(x: seq<Piece>, y: seq<Piece>)
    requires ClipAll(x) == ClipAll(y)
    ensures Render(x) == Render(y)
  {
    ClipSteps(x);
    ClipSteps(y);
  }

  predicate IsGap(g: string) { forall i :: 0 <= i < |g| ==> g[i] == ' ' || g[i] == '\n' }

  function Breaks(g: string): nat {
    if g == "" then 0 else Breaks(g[..|g| - 1]) + if g[|g| - 1] == '\n' then 1 else 0
  }

  /** Gaps and texts in turn. */
  ghost function Weave(gaps: seq<string>, ps: seq<Piece>): string
    requires |gaps| == |ps|
  {
    if ps == [] then "" else Weave(gaps[..|ps| - 1], ps[..|ps| - 1]) + gaps[|ps| - 1] + ps[|ps| - 1].text
  }

  lemma {:induction false} BreaksOfRepeat(x: string, c: char, n: nat)
    ensures Breaks(x + Repeat(c, n)) == Breaks(x) + if c == '\n' then n else 0
    decreases n
  {
    var y := x + Repeat(c, n);
    if n == 0 {
      assert y == x;
    } else {
      BreaksOfRepeat(x, c, n - 1);
      assert y[..|y| - 1] == x + Repeat(c, n - 1);
    }
  }

  /** Before a token the renderer writes blanks and line breaks only, and its line breaks
      are those of the source, up to two. */
  lemma {:induction false} StepGap(st: State, p: Piece) returns (gap: string)
    ensures IsGap(gap) && Step(st, p).out == st.out + gap + p.text
    ensures Breaks(gap) == if Min(p.newlines, 2) > TrailingBreaks(st.out) then Min(p.newlines, 2) - TrailingBreaks(st.out) else 0
  {
    hide NeedsSpace, Is, IsRight, IsLeft, LineDepth, TrailingBreaks, AtLineStart, Breaks;
    EmptyBreaks();
    var out := st.out;
    var n := if TrailingBreaks(out) < Min(p.newlines, 2) then Min(p.newlines, 2) - TrailingBreaks(out) else 0;
    var first := if p.newlines > 0 then Repeat('\n', n)
                 else if st.previous.Some? && !AtLineStart(out) && NeedsSpace(st.previous.value, p) then Repeat(' ', 1)
                 else Repeat(' ', 0);
    var m := if AtLineStart(out + first) then 4 * LineDepth(st, p) else 0;
    gap := first + Repeat(' ', m);
    assert Repeat(' ', 1) == " ";
    assert out + Repeat(' ', 0) == out;
    assert Before(st, p) == out + gap;
    BreaksOfRepeat("", '\n', n);
    BreaksOfRepeat("", ' ', 1);
    assert "" + first == first;
    BreaksOfRepeat(first, ' ', m);
  }

  lemma {:induction false} EmptyBreaks()
    ensures Breaks("") == 0
  {
  }

  /** The output consists of the tokens' texts, in order, and layout between them. */
  lemma {:induction false} RenderedIsWoven(ps: seq<Piece>) returns (gaps: seq<string>)
    ensures |gaps| == |ps| && (forall i :: 0 <= i < |gaps| ==> IsGap(gaps[i]))
    ensures Steps(START, ps).out == Weave(gaps, ps)
    decreases |ps|
  {
    hide Step, IsGap;
    if ps == [] {
      gaps := [];
    } else {
      var n := |ps| - 1;
      var before := RenderedIsWoven(ps[..n]);
      var gap := StepGap(Steps(START, ps[..n]), ps[n]);
      gaps := before + [gap];
      assert gaps[..n] == before;
    }
  }

  lemma {:induction false} WeaveChars(gaps: seq<string>, ps: seq<Piece>, c: char)
    requires |gaps| == |ps| && c != ' ' && c != '\n'
    requires (forall i :: 0 <= i < |gaps| ==> IsGap(gaps[i])) && forall i :: 0 <= i < |ps| ==> c !in ps[i].text
    ensures c !in Weave(gaps, ps)
    decreases |ps|
  {
    if ps != [] {
      var n := |ps| - 1;
      WeaveChars(gaps[..n], ps[..n], c);
      assert IsGap(gaps[n]);
    }
  }

  lemma {:induction false} PieceTexts(s: Text, ts: seq<Token>, tree: Tree, n: nat, i: nat, c: char)
    requires InText(s, ts) && n <= |ts| && i < |PiecesOf(s, ts, tree, n).0| && c !in s
    ensures c !in PiecesOf(s, ts, tree, n).0[i].text
    decreases n
  {
    hide IsUnary, RoleOf;
    if i < |PiecesOf(s, ts, tree, n - 1).0| { PieceTexts(s, ts, tree, n - 1, i, c); }
  }

  /** Without a NUL in the source there is none in the output. */
  lemma {:induction false} NoNul(s: Text, ts: seq<Token>, tree: Tree, c: char)
    requires InText(s, ts) && c !in s && c != ' ' && c != '\n'
    requires RenderSource(s, ts, tree).Some?
    ensures c !in RenderSource(s, ts, tree).value
  {
    hide IsUnary, RoleOf, Steps, PiecesOf, AnglesFound;
    var ps := PiecesOf(s, ts, tree, |ts|).0;
    var gaps := RenderedIsWoven(ps);
    forall i | 0 <= i < |ps| ensures c !in ps[i].text { PieceTexts(s, ts, tree, |ts|, i, c); }
    WeaveChars(gaps, ps, c);
  }

  // ---------------------------------------------------------------- same tokens

  datatype Seen = Seen(kind: Kind, text: string)

  function SeenAt(s: Text, ts: seq<Token>, i: nat): Seen
    requires InText(s, ts) && i < |ts|
  {
    Seen(ts[i].kind, TextOf(s, ts[i]))
  }

  /** Tokens from i on, other than blanks and line breaks, as kinds and texts. */
  function VisibleFrom(s: Text, ts: seq<Token>, i: nat): seq<Seen>
    requires InText(s, ts) && i <= |ts|
    decreases |ts| - i
  {
    if i == |ts| then []
    else if IsSpacing(ts[i].kind) then VisibleFrom(s, ts, i + 1)
    else [SeenAt(s, ts, i)] + VisibleFrom(s, ts, i + 1)
  }

  function Visible(s: Text, ts: seq<Token>): seq<Seen>
    requires InText(s, ts)
  {
    VisibleFrom(s, ts, 0)
  }

  method SkipSpacing(s: Text, ts: seq<Token>, start: nat) returns (i: nat)
    requires InText(s, ts) && start < |ts| && !IsSpacing(ts[|ts| - 1].kind)
    ensures start <= i < |ts| && !IsSpacing(ts[i].kind)
    ensures VisibleFrom(s, ts, start) == VisibleFrom(s, ts, i)
  {
    hide InText, SeenAt;
    i := start;
    while i < |ts| && IsSpacing(ts[i].kind)
      invariant start <= i < |ts| && VisibleFrom(s, ts, start) == VisibleFrom(s, ts, i)
    {
      i := i + 1;
    }
  }

  /** Two sources have the same tokens up to layout. */
  method TokensEqual(x: Text, xs: seq<Token>, y: Text, ys: seq<Token>) returns (equal: bool)
    requires Tiles(x, 0, xs) && InText(x, xs) && Tiles(y, 0, ys) && InText(y, ys)
    ensures equal <==> Visible(x, xs) == Visible(y, ys)
  {
    hide VisibleFrom, TextOf, Tiles, InText, SeenAt;
    var i, j := 0, 0;
    EofLast(x, xs);
    EofLast(y, ys);
    while true
      invariant 0 <= i < |xs| && 0 <= j < |ys|
      invariant Visible(x, xs) == Visible(y, ys) <==> VisibleFrom(x, xs, i) == VisibleFrom(y, ys, j)
      decreases |xs| - i
    {
      i := SkipSpacing(x, xs, i);
      j := SkipSpacing(y, ys, j);
      CompareNext(x, xs, i, y, ys, j);
      if SeenAt(x, xs, i) != SeenAt(y, ys, j) { return false; }
      if xs[i].kind.Eof? { return true; }
      i, j := i + 1, j + 1;
    }
  }

  /** Comparing one token of each source, and what remains. */
  lemma {:induction false} CompareNext(x: Text, xs: seq<Token>, i: nat, y: Text, ys: seq<Token>, j: nat)
    requires Tiles(x, 0, xs) && InText(x, xs) && Tiles(y, 0, ys) && InText(y, ys)
    requires i < |xs| && j < |ys| && !IsSpacing(xs[i].kind) && !IsSpacing(ys[j].kind)
    ensures VisibleFrom(x, xs, i) == VisibleFrom(y, ys, j) <==>
      SeenAt(x, xs, i) == SeenAt(y, ys, j) && VisibleFrom(x, xs, i + 1) == VisibleFrom(y, ys, j + 1)
    ensures xs[i].kind.Eof? <==> i + 1 == |xs|
    ensures ys[j].kind.Eof? <==> j + 1 == |ys|
    ensures SeenAt(x, xs, i) == SeenAt(y, ys, j) ==> xs[i].kind == ys[j].kind
    ensures xs[i].kind.Eof? && ys[j].kind.Eof? ==> VisibleFrom(x, xs, i + 1) == VisibleFrom(y, ys, j + 1)
  {
    EofLast(x, xs);
    EofLast(y, ys);
    SameFirst(SeenAt(x, xs, i), SeenAt(y, ys, j), VisibleFrom(x, xs, i + 1), VisibleFrom(y, ys, j + 1));
  }

  lemma {:induction false} EofLast(s: Text, ts: seq<Token>)
    requires Tiles(s, 0, ts)
    ensures |ts| > 0 && forall k :: 0 <= k < |ts| ==> (ts[k].kind.Eof? <==> k == |ts| - 1)
  {
  }

  lemma {:induction false} SameFirst(a: Seen, b: Seen, x: seq<Seen>, y: seq<Seen>)
    ensures [a] + x == [b] + y <==> a == b && x == y
  {
    assert ([a] + x)[0] == a && ([b] + y)[0] == b && ([a] + x)[1..] == x && ([b] + y)[1..] == y;
  }

  // -------------------------------------------------------------------- the driver

  const NUL: char := 0 as char

  /** A C string ends at its first NUL. */
  function UpToNul(s: string): (r: string)
    ensures NUL !in s ==> r == s
  {
    if s == "" || s[0] == NUL then "" else [s[0]] + UpToNul(s[1..])
  }

  lemma {:induction false} TokensInText(s: Text, ts: seq<Token>)
    requires Tiles(s, 0, ts)
    ensures InText(s, ts)
  {
  }

  function Rendered(parse: Parser, s: Text): Option<string> {
    var ts := Tokens(s, 0);
    TokensInText(s, ts);
    match parse(s, ts)
    case None => None
    case Some(tree) => RenderSource(s, ts, tree)
  }

  ghost predicate SameTokens(x: Text, y: Text) {
    TokensInText(x, Tokens(x, 0));
    TokensInText(y, Tokens(y, 0));
    Visible(x, Tokens(x, 0)) == Visible(y, Tokens(y, 0))
  }

  /** The result of formatting: the rendering of a source without NUL that keeps the tokens
      and renders to itself. */
  ghost function Format(parse: Parser, s: Text): Option<string> {
    var first := Rendered(parse, s);
    if NUL in s || first.None? then None
    else if SameTokens(s, first.value) && Rendered(parse, first.value) == first then first
    else None
  }

  method FormatSource(parse: Parser, s: Text) returns (r: Option<string>)
    ensures r == Format(parse, s)
  {
    hide Tokens, RenderSource, VisibleFrom;
    if NUL in s { return None; }
    var ts := Lex(s);
    TokensInText(s, ts);
    var tree := parse(s, ts);
    if tree.None? { return None; }
    var first := RenderRaw(s, ts, tree.value);
    if first.None? { return None; }
    NoNul(s, ts, tree.value, NUL);
    var source := UpToNul(first.value);
    var us := Lex(source);
    TokensInText(source, us);
    var second := parse(source, us);
    if second.None? { return None; }
    var equal := TokensEqual(s, ts, source, us);
    if !equal { return None; }
    var again := RenderRaw(source, us, second.value);
    if again != first { return None; }
    r := first;
  }

  /** Formatting keeps the tokens, and is idempotent as a whole function: for every front
      end and every source, what it returns it also returns for its own output. */
  lemma {:induction false} FormatIdempotent(parse: Parser, s: Text)
    requires Format(parse, s).Some?
    ensures Format(parse, Format(parse, s).value) == Format(parse, s)
    ensures SameTokens(s, Format(parse, s).value)
  {
    hide Tokens, RenderSource, VisibleFrom;
    var t := Format(parse, s).value;
    var ts := Tokens(s, 0);
    TokensInText(s, ts);
    NoNul(s, ts, parse(s, ts).value, NUL);
    assert NUL !in t;
    assert SameTokens(t, t);
  }
}
