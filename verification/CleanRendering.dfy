/** The formatter on sources that the lexer reports nothing about: the rendering keeps the
    tokens unless an angle bracket of a type stands next to an operator. */
module CleanRendering {
  import opened Options
  import opened Lexer
  import opened Formatter
  import opened Relexing

  // -------------------------------------------------------- closed literals and comments

  predicate CleanText(t: string, k: Kind) { CleanToken(t, Token(k, 0, |t|)) }

  lemma {:induction false} QuotedClosesWithin(s: Text, i: nat, e: nat, j: nat)
    requires i <= j <= e <= |s| && QuotedEnd(s, j) == e && QuotedCloses(s, j)
    ensures QuotedCloses(s[i..e], j - i)
    decreases e - j
  {
    if s[j] != '"' { QuotedClosesWithin(s, i, e, if s[j] == '\\' && j + 1 < |s| then j + 2 else j + 1); }
  }

  lemma {:induction false} CommentClosesWithin(s: Text, i: nat, e: nat, j: nat, depth: nat)
    requires i <= j <= e <= |s| && CommentEnd(s, j, depth) == e && CommentCloses(s, j, depth)
    ensures CommentCloses(s[i..e], j - i, depth)
    decreases e - j
  {
    if depth > 0 {
      var t := s[i..e];
      if Opens(s, j) {
        assert Opens(t, j - i);
        CommentClosesWithin(s, i, e, j + 2, depth + 1);
      } else if Closes(s, j) {
        assert !Opens(t, j - i) && Closes(t, j - i);
        CommentClosesWithin(s, i, e, j + 2, depth - 1);
      } else {
        assert !Opens(t, j - i) && !Closes(t, j - i);
        CommentClosesWithin(s, i, e, j + 1, depth);
      }
    }
  }

  lemma {:induction false} QuotedStays(t: string, c: char, i: nat)
    requires i <= |t| && QuotedEnd(t, i) == |t| && QuotedCloses(t, i)
    ensures QuotedEnd(t + [c], i) == |t| && t[|t| - 1] == '"'
    decreases |t| - i
  {
    if t[i] != '"' { QuotedStays(t, c, if t[i] == '\\' && i + 1 < |t| then i + 2 else i + 1); }
  }

  lemma {:induction false} CommentStays(t: string, c: char, i: nat, depth: nat)
    requires i <= |t| && CommentEnd(t, i, depth) == |t| && CommentCloses(t, i, depth)
    ensures CommentEnd(t + [c], i, depth) == |t| && (depth > 0 ==> t[|t| - 1] == '/')
    decreases |t| - i
  {
    if depth > 0 {
      var x := t + [c];
      if Opens(t, i) {
        assert Opens(x, i);
        CommentStays(t, c, i + 2, depth + 1);
      } else if Closes(t, i) {
        assert !Opens(x, i) && Closes(x, i);
        CommentStays(t, c, i + 2, depth - 1);
      } else if i + 1 < |t| {
        assert !Opens(x, i) && !Closes(x, i);
        CommentStays(t, c, i + 1, depth);
      }
    }
  }

  lemma {:induction false} LiteralStart(t: string, k: Kind)
    requires Whole(t, k) && (k.Quoted? || k.BlockComment?)
    ensures k.Quoted? ==> t[0] == '"' && QuotedEnd(t, 1) == |t|
    ensures k.BlockComment? ==> Opens(t, 0) && CommentEnd(t, 2, 1) == |t|
  {
    hide BlankEnd, WordEnd, DigitsEnd, LineEnd, QuotedEnd, CommentEnd, KEYWORDS, PAIRS, SINGLES;
  }

  /** A closed literal or comment runs on into nothing. */
  lemma {:induction false} ClosedStays(t: string, k: Kind, c: char)
    requires Whole(t, k) && (k.Quoted? || k.BlockComment?) && CleanText(t, k)
    ensures !Sticks(t, k, c) && t[|t| - 1] != '\n'
  {
    LiteralStart(t, k);
    if k.Quoted? { QuotedStays(t, c, 1); } else { CommentStays(t, c, 2, 1); }
    hide BlankEnd, WordEnd, DigitsEnd, LineEnd, QuotedEnd, CommentEnd, KEYWORDS, PAIRS, SINGLES, QuotedCloses, CommentCloses;
    var x := t + [c];
    assert x[0] == t[0] && (|t| > 1 ==> x[1] == t[1]);
  }

  // ------------------------------------------------------------------- pieces of a source

  lemma {:induction false} PieceToken(s: Text, ts: seq<Token>, tree: Tree, n: nat, i: nat) returns (j: nat)
    requires InText(s, ts) && n <= |ts| && i < |PiecesOf(s, ts, tree, n).0|
    ensures j < n && !ts[j].kind.Eof?
    ensures var p := PiecesOf(s, ts, tree, n).0[i]; p.kind == ts[j].kind && p.text == TextOf(s, ts[j])
    ensures
      var p := PiecesOf(s, ts, tree, n).0[i];
      (p.unary ==> p.text == "-" || p.text == "!") && (p.angle.Delimiter? ==> p.kind.Symbol? && (p.text == "<" || p.text == ">"))
    ensures
      var p := PiecesOf(s, ts, tree, n).0[i];
      p.kind.Symbol? && (p.text == "<" || p.text == ">") ==> p.angle != NoAngle
    decreases n
  {
    hide InText, OperatorAt;
    if i < |PiecesOf(s, ts, tree, n - 1).0| { j := PieceToken(s, ts, tree, n - 1, i); } else { j := n - 1; }
  }

  lemma {:induction false} CleanTokenText(s: Text, i: nat)
    requires i < |s| && CleanToken(s, TokenAt(s, i))
    ensures CleanText(TextOf(s, TokenAt(s, i)), TokenAt(s, i).kind)
  {
    var t := TokenAt(s, i);
    Shift(s, i);
    assert Whole(s[i..][..t.end - i], t.kind) by { Cut(s[i..]); }
    assert s[i..][..t.end - i] == s[i..t.end];
    if t.kind.Quoted? {
      TokenLiteralEnd(s, i);
      QuotedClosesWithin(s, i, t.end, i + 1);
    } else if t.kind.BlockComment? {
      TokenLiteralEnd(s, i);
      CommentClosesWithin(s, i, t.end, i + 2, 1);
    }
    hide TokenAt, Whole, QuotedCloses, CommentCloses;
  }

  lemma {:induction false} TokenLiteralEnd(s: Text, i: nat)
    requires i < |s|
    ensures TokenAt(s, i).kind.Quoted? ==> TokenAt(s, i).end == QuotedEnd(s, i + 1)
    ensures TokenAt(s, i).kind.BlockComment? ==> i + 2 <= |s| && TokenAt(s, i).end == CommentEnd(s, i + 2, 1)
  {
    hide BlankEnd, WordEnd, DigitsEnd, LineEnd, QuotedEnd, CommentEnd, KEYWORDS, PAIRS, SINGLES;
  }

  /** What is known of a piece of a source that lexes cleanly. */
  ghost predicate CleanPiece(p: Piece) {
    && Whole(p.text, p.kind) && !IsSpacing(p.kind) && CleanText(p.text, p.kind)
    && (p.unary ==> p.text == "-" || p.text == "!")
    && (p.angle.Delimiter? ==> p.kind.Symbol? && (p.text == "<" || p.text == ">"))
    && (p.kind.Symbol? && (p.text == "<" || p.text == ">") ==> p.angle != NoAngle)
  }

  lemma {:induction false} CleanPieces(s: Text, tree: Tree, i: nat)
    requires LexesCleanly(s) && i < |PiecesIn(s, tree)|
    ensures CleanPiece(PiecesIn(s, tree)[i])
  {
    hide Tokens, TokenAt, Whole, Units, UnitsOf, CleanText;
    SourcePieces(s, tree);
    var ts := Tokens(s, 0);
    TokensInText(s, ts);
    var j := PieceToken(s, ts, tree, |ts|, i);
    assert Tiles(s, 0, ts);
    TokenIn(s, 0, j);
    assert CleanToken(s, ts[j]);
    CleanTokenText(s, ts[j].start);
  }

  lemma {:induction false} CleanEnd(t: string, k: Kind)
    requires Whole(t, k) && !IsSpacing(k) && CleanText(t, k)
    ensures t[|t| - 1] != '\n'
  {
    KindsOf(t, k);
    RunShape(t, k);
    if k.Quoted? || k.BlockComment? { ClosedStays(t, k, ' '); }
    hide BlankEnd, WordEnd, DigitsEnd, LineEnd, QuotedEnd, CommentEnd, KEYWORDS, QuotedCloses, CommentCloses;
  }

  /** A source that lexes cleanly leaves no literal open. */
  lemma {:induction false} CleanIsEnded(s: Text, tree: Tree)
    requires LexesCleanly(s)
    ensures Ended(PiecesIn(s, tree))
  {
    hide PiecesIn, LexesCleanly, TokenAt, Whole, CleanText;
    var ps := PiecesIn(s, tree);
    forall i | 0 <= i < |ps| ensures ps[i].text != "" ==> ps[i].text[|ps[i].text| - 1] != '\n' {
      CleanPieces(s, tree, i);
      CleanEnd(ps[i].text, ps[i].kind);
    }
  }

  // --------------------------------------------------------------------- angle brackets

  /** An angle bracket of a type next to an operator, on the same line: a closing one after a
      minus or equals sign, or an equals sign after an opening one. */
  predicate AngleClash(p: Piece, c: Piece) {
    && c.newlines == 0 && p.kind.Symbol? && c.kind.Symbol? && !p.angle.Comparison? && !c.angle.Comparison?
    && (|| (c.angle.Delimiter? && c.text == ">" && (p.text == "-" || p.text == "="))
        || (p.angle.Delimiter? && p.text == "<" && c.text != "" && c.text[0] == '='))
  }

  predicate NoClash(ps: seq<Piece>) {
    forall i :: 0 <= i < |ps| - 1 ==> !AngleClash(ps[i], ps[i + 1])
  }

  /** A pair of characters that the lexer reads as one symbol, or as the start of a comment. */
  predicate OneSymbol(two: string) { two in PAIRS || two == "//" || two == "/*" }

  lemma {:induction false} SecondOf(p: string, c: char)
    requires |p| == 1 && OneSymbol(p + [c]) && p[0] in SINGLES
    ensures c == '=' || (c == '>' && (p == "-" || p == "=")) || (c == '/' && p == "/") || (c == '*' && p == "/")
    ensures p != "." && p != "@" && p != "(" && p != "["
  {
    var two := p + [c];
    assert two[0] == p[0] && two[1] == c && p == [p[0]];
  }

  lemma {:induction false} SymbolText(t: string, k: Kind)
    requires Whole(t, k)
    ensures t != ""
    ensures k.Symbol? ==> (|t| == 1 && t[0] in SINGLES) || (|t| == 2 && t in PAIRS)
    ensures t[0] == '=' || t[0] == '>' || t[0] == '*' ==> k.Symbol?
    ensures t[0] == '/' ==> k.Symbol? || k.LineComment? || k.BlockComment?
  {
    hide BlankEnd, WordEnd, DigitsEnd, LineEnd, QuotedEnd, CommentEnd, KEYWORDS;
    assert |t| == 2 ==> t[0..2] == t;
  }

  lemma {:induction false} BinaryText(t: string)
    requires (|t| == 1 && t[0] in SINGLES) || (|t| == 2 && t in PAIRS)
    ensures t[0] == '=' || t[0] == '*' || t[0] == '/' || (t[0] == '>' && t != ">") ==> t in BINARY
  {
    assert |t| == 1 ==> t == [t[0]];
  }

  /** Two pieces written without a space that would read as one symbol clash. */
  lemma {:induction false} TightPair(p: Piece, c: Piece)
    requires CleanPiece(p) && CleanPiece(c) && p.kind.Symbol? && |p.text| == 1 && c.newlines == 0
    requires OneSymbol(p.text + [c.text[0]]) && !NeedsSpace(p, c)
    ensures AngleClash(p, c)
  {
    hide TokenAt, Whole, Sticks, CleanText;
    SymbolText(p.text, p.kind);
    SymbolText(c.text, c.kind);
    SecondOf(p.text, c.text[0]);
    if c.kind.Symbol? { BinaryText(c.text); }
    hide OneSymbol, PAIRS, SINGLES;
  }

  lemma {:induction false} ClashIsTight(p: Piece, c: Piece)
    requires AngleClash(p, c)
    ensures !NeedsSpace(p, c)
  {
  }

  lemma {:induction false} ClashReads(p: Piece, c: Piece)
    requires AngleClash(p, c) && CleanPiece(c)
    ensures |p.text| == 1 && c.text != "" && OneSymbol(p.text + [c.text[0]])
  {
    assert "-" + ['>'] == "->" && "=" + ['>'] == "=>" && "<" + ['='] == "<=";
  }

  /** The layout between two pieces on one line. */
  lemma {:induction false} GapOnLine(ps: seq<Piece>, i: nat)
    requires AreTokens(ps) && i + 1 < |ps| && ps[i].text != "" && ps[i].text[|ps[i].text| - 1] != '\n'
    ensures Gap(ps, i + 1) == "" <==> ps[i + 1].newlines == 0 && !NeedsSpace(ps[i], ps[i + 1])
  {
    hide Steps, TokenAt, Sticks, AreTokens, NeedsSpace, TrailingBreaks, LineDepth;
    var st, p, c := Steps(START, ps[..i + 1]), ps[i], ps[i + 1];
    PreviousIs(ps, i);
    if c.newlines > 0 || NeedsSpace(p, c) {
      hide Before;
      BeforeGrows(st, p, c);
    } else {
      assert Before(st, c) == st.out;
    }
  }

  /** In a source that lexes cleanly a piece runs on if and only if it clashes with the next. */
  lemma {:induction false} GluedIsClash(s: Text, tree: Tree, i: nat)
    requires LexesCleanly(s) && i < |PiecesIn(s, tree)|
    ensures
      var ps := PiecesIn(s, tree);
      Glued(ps, i) <==> i + 1 < |ps| && AngleClash(ps[i], ps[i + 1])
  {
    hide PiecesIn, LexesCleanly, TokenAt, Units, UnitsOf, Gap, Tail, Sticks, Whole, CleanText, NeedsSpace, AngleClash, PAIRS;
    var ps := PiecesIn(s, tree);
    SourcePieces(s, tree);
    CleanPieces(s, tree, i);
    CleanEnd(ps[i].text, ps[i].kind);
    var p := ps[i];
    if Glued(ps, i) {
      if p.kind.Quoted? || p.kind.BlockComment? { ClosedStays(p.text, p.kind, Tail(ps, i + 1)[0]); }
      OnlySymbolsGlue(s, tree, i);
      NotInvalid(p);
      GapOnLine(ps, i);
      CleanPieces(s, tree, i + 1);
      TightPair(p, ps[i + 1]);
    } else if i + 1 < |ps| && AngleClash(p, ps[i + 1]) {
      ClashGlued(s, tree, i);
    }
  }

  lemma {:induction false} NotInvalid(p: Piece)
    requires CleanPiece(p)
    ensures !p.kind.Invalid?
  {
  }

  lemma {:induction false} ClashGlued(s: Text, tree: Tree, i: nat)
    requires LexesCleanly(s) && i + 1 < |PiecesIn(s, tree)| && AngleClash(PiecesIn(s, tree)[i], PiecesIn(s, tree)[i + 1])
    ensures Glued(PiecesIn(s, tree), i)
  {
    hide PiecesIn, LexesCleanly, TokenAt, Units, UnitsOf, Gap, Tail, Sticks, Whole, CleanText, NeedsSpace, PAIRS;
    var ps := PiecesIn(s, tree);
    var p, c := ps[i], ps[i + 1];
    SourcePieces(s, tree);
    CleanPieces(s, tree, i);
    CleanPieces(s, tree, i + 1);
    CleanEnd(p.text, p.kind);
    ClashIsTight(p, c);
    ClashReads(p, c);
    GapOnLine(ps, i);
    FollowedBy(ps, i);
    SymbolSticks(p.text, p.kind, c.text[0]);
  }

  /** For a source that lexes cleanly, lexing the rendering gives the same tokens if and only if
      no angle bracket of a type stands next to an operator. */
  lemma {:induction false} CleanRenderingKeepsTokens(s: Text, tree: Tree)
    requires LexesCleanly(s)
    ensures SameTokens(s, Render(PiecesIn(s, tree))) <==> NoClash(PiecesIn(s, tree))
    ensures Apart(PiecesIn(s, tree), 0) <==> NoClash(PiecesIn(s, tree))
  {
    hide PiecesIn, LexesCleanly, SameTokens, Render, Glued, AngleClash;
    var ps := PiecesIn(s, tree);
    RenderingKeepsTokens(s, tree);
    if i: nat :| i < |ps| - 1 && AngleClash(ps[i], ps[i + 1]) { GluedIsClash(s, tree, i); }
    if i: nat :| i < |ps| && Glued(ps, i) { GluedIsClash(s, tree, i); }
  }

  /** A front end rejects what the lexer reports an error for. */
  ghost predicate RejectsErrors(parse: Parser) {
    forall s :: parse(s, Tokens(s, 0)).Some? ==> LexesCleanly(s)
  }

  /** The self-check of a driver with such a front end: tokens are lost only by a clash, and
      without one formatting fails only if the front end does not read the output as it read
      the source. */
  lemma {:induction false} CleanSelfCheck(parse: Parser, s: Text, tree: Tree)
    requires RejectsErrors(parse) && NUL !in s && parse(s, Tokens(s, 0)) == Some(tree) && Rendered(parse, s).Some?
    ensures
      var ps := PiecesIn(s, tree);
      var out := Render(ps);
      && Rendered(parse, s) == Some(out)
      && (SameTokens(s, out) <==> NoClash(ps))
      && (Format(parse, s) == Some(out) <==> NoClash(ps) && Rendered(parse, out) == Some(out))
      && (forall again ::
            (NoClash(ps) && parse(out, Tokens(out, 0)) == Some(again) && Rendered(parse, out).Some? && SameMarks(ps, PiecesIn(out, again)))
            ==> Format(parse, s) == Some(out))
  {
    assert LexesCleanly(s);
    hide PiecesIn, Tokens, Render, Apart, Ended, SameMarks, Rendered, SameTokens, Format, NoClash, LexesCleanly, RejectsErrors;
    SelfCheck(parse, s, tree);
    CleanRenderingKeepsTokens(s, tree);
    CleanIsEnded(s, tree);
  }
}
