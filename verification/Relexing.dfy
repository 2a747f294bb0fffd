/** What the lexer makes of the formatter's output: the tokens that were rendered, unless the
    text of one runs on into what follows it. */
module Relexing {
  import opened Options
  import opened Lexer
  import opened Formatter
  import Paths

  // -------------------------------------------------------------- one token by itself

  /** The text is one token of this kind. */
  predicate Whole(t: string, k: Kind) { t != "" && TokenAt(t, 0) == Token(k, 0, |t|) }

  /** The token reads differently, or on, if this character follows. */
  predicate Sticks(t: string, k: Kind, c: char) { TokenAt(t + [c], 0) != Token(k, 0, |t|) }

  lemma {:induction false} QuotedAhead(t: string, r: string, i: nat)
    requires r != "" && i <= |t|
    ensures QuotedEnd(t + r, i) == |t| <==> QuotedEnd(t + [r[0]], i) == |t|
    decreases |t| - i
  {
    if i < |t| && t[i] != '"' && !IsBreak(t[i]) && i + 1 < |t| {
      QuotedAhead(t, r, if t[i] == '\\' then i + 2 else i + 1);
    } else if i < |t| && t[i] != '"' && !IsBreak(t[i]) && t[i] != '\\' {
      QuotedAhead(t, r, i + 1);
    }
  }

  lemma {:induction false} CommentAhead(t: string, r: string, i: nat, depth: nat)
    requires r != "" && i <= |t|
    ensures CommentEnd(t + r, i, depth) == |t| <==> CommentEnd(t + [r[0]], i, depth) == |t|
    decreases |t| - i
  {
    var x, y := t + r, t + [r[0]];
    if i < |t| && depth > 0 {
      assert Opens(x, i) == Opens(y, i) && Closes(x, i) == Closes(y, i);
      if Opens(x, i) {
        if i + 2 <= |t| { CommentAhead(t, r, i + 2, depth + 1); }
      } else if Closes(x, i) {
        if i + 2 <= |t| { CommentAhead(t, r, i + 2, depth - 1); }
      } else {
        CommentAhead(t, r, i + 1, depth);
      }
    }
  }

  /** A run of blanks, word characters or digits, or the rest of a line, goes on exactly if the
      next character does. */
  lemma {:induction false} BlankAhead(t: string, r: string, i: nat)
    requires r != "" && i <= |t|
    ensures BlankEnd(t + r, i) == |t| <==> BlankEnd(t + [r[0]], i) == |t|
    ensures LineEnd(t + r, i) == |t| <==> LineEnd(t + [r[0]], i) == |t|
    decreases |t| - i
  {
    if i < |t| { BlankAhead(t, r, i + 1); }
  }

  lemma {:induction false} WordAhead(t: string, r: string, i: nat)
    requires r != "" && i <= |t|
    ensures WordEnd(t + r, i) == |t| <==> WordEnd(t + [r[0]], i) == |t|
    ensures DigitsEnd(t + r, i) == |t| <==> DigitsEnd(t + [r[0]], i) == |t|
    decreases |t| - i
  {
    if i < |t| { WordAhead(t, r, i + 1); }
  }

  /** What is compared of x from i and y from j: the first two characters, and whether each kind
      of run ends after n characters. */
  ghost predicate SameEnds(x: Text, i: nat, y: Text, j: nat, n: nat) {
    SameChars(x, i, y, j, n) && SameRuns(x, i, y, j, n) && SameTails(x, i, y, j, n)
  }

  ghost predicate SameChars(x: Text, i: nat, y: Text, j: nat, n: nat) {
    && i < i + n <= |x| && j + n <= |y| && x[i..i + n] == y[j..j + n] && x[i] == y[j]
    && (i + 1 < |x| <==> j + 1 < |y|) && (i + 1 < |x| ==> x[i + 1] == y[j + 1])
  }

  ghost predicate SameRuns(x: Text, i: nat, y: Text, j: nat, n: nat)
    requires i < |x| && j < |y|
  {
    && (BlankEnd(x, i + 1) == i + n <==> BlankEnd(y, j + 1) == j + n)
    && (WordEnd(x, i + 1) == i + n <==> WordEnd(y, j + 1) == j + n)
    && (DigitsEnd(x, i + 1) == i + n <==> DigitsEnd(y, j + 1) == j + n)
    && (QuotedEnd(x, i + 1) == i + n <==> QuotedEnd(y, j + 1) == j + n)
  }

  ghost predicate SameTails(x: Text, i: nat, y: Text, j: nat, n: nat) {
    i + 1 < |x| && j + 1 < |y| ==>
      && (LineEnd(x, i + 2) == i + n <==> LineEnd(y, j + 2) == j + n)
      && (CommentEnd(x, i + 2, 1) == i + n <==> CommentEnd(y, j + 2, 1) == j + n)
  }

  lemma {:induction false} SameStarts(x: Text, i: nat, y: Text, j: nat, n: nat)
    requires SameChars(x, i, y, j, n)
    ensures Opens(x, i) == Opens(y, j) && (i + 1 < |x| ==> x[i..i + 2] == y[j..j + 2])
    ensures IsBreak(x[i]) ==> BreakEnd(x, i) - i == BreakEnd(y, j) - j
  {
  }

  /** A token whose first character decides its kind. */
  predicate ByFirst(c: char) { IsBlank(c) || IsBreak(c) || StartsWord(c) || IsDigit(c) || c == '"' }

  lemma {:induction false} SameRunToken(x: Text, i: nat, y: Text, j: nat, n: nat, k: Kind)
    requires SameChars(x, i, y, j, n) && SameRuns(x, i, y, j, n) && ByFirst(x[i]) && TokenAt(x, i) == Token(k, i, i + n)
    ensures TokenAt(y, j) == Token(k, j, j + n)
  {
    hide BlankEnd, WordEnd, DigitsEnd, LineEnd, QuotedEnd, CommentEnd, BreakEnd, Opens, KEYWORDS, PAIRS, SINGLES, IsBlank, IsBreak, StartsWord, ContinuesWord, IsDigit;
    SameStarts(x, i, y, j, n);
  }

  lemma {:induction false} SameSymbolToken(x: Text, i: nat, y: Text, j: nat, n: nat, k: Kind)
    requires SameChars(x, i, y, j, n) && SameTails(x, i, y, j, n) && !ByFirst(x[i]) && TokenAt(x, i) == Token(k, i, i + n)
    ensures TokenAt(y, j) == Token(k, j, j + n)
  {
    hide BlankEnd, WordEnd, DigitsEnd, LineEnd, QuotedEnd, CommentEnd, BreakEnd, Opens, KEYWORDS, PAIRS, SINGLES, IsBlank, IsBreak, StartsWord, ContinuesWord, IsDigit;
    SameStarts(x, i, y, j, n);
  }

  lemma {:induction false} SameEndsSameToken(x: Text, i: nat, y: Text, j: nat, n: nat, k: Kind)
    requires SameEnds(x, i, y, j, n) && TokenAt(x, i) == Token(k, i, i + n)
    ensures TokenAt(y, j) == Token(k, j, j + n)
  {
    hide TokenAt, SameRuns, SameTails, ByFirst;
    if ByFirst(x[i]) { SameRunToken(x, i, y, j, n, k); } else { SameSymbolToken(x, i, y, j, n, k); }
  }

  lemma {:induction false} AheadEnds(t: string, r: string)
    requires t != "" && r != ""
    ensures SameEnds(t + r, 0, t + [r[0]], 0, |t|)
  {
    var x, y := t + r, t + [r[0]];
    hide BlankEnd, WordEnd, DigitsEnd, LineEnd, QuotedEnd, CommentEnd, IsBlank, StartsWord, ContinuesWord, IsDigit, IsBreak;
    assert SameChars(x, 0, y, 0, |t|) by { assert x[0..|t|] == t == y[0..|t|]; }
    BlankAhead(t, r, 1);
    WordAhead(t, r, 1);
    QuotedAhead(t, r, 1);
    assert SameRuns(x, 0, y, 0, |t|);
    if |t| > 1 {
      BlankAhead(t, r, 2);
      CommentAhead(t, r, 2, 1);
    }
    assert SameTails(x, 0, y, 0, |t|);
  }

  lemma {:induction false} SameEndsBack(x: Text, y: Text, n: nat)
    requires SameEnds(x, 0, y, 0, n)
    ensures SameEnds(y, 0, x, 0, n)
  {
    hide BlankEnd, WordEnd, DigitsEnd, LineEnd, QuotedEnd, CommentEnd;
  }

  /** One character of lookahead decides whether a token keeps its extent. */
  lemma {:induction false} Ahead(t: string, k: Kind, r: string)
    requires Whole(t, k) && r != ""
    ensures TokenAt(t + r, 0) == Token(k, 0, |t|) <==> !Sticks(t, k, r[0])
  {
    var x, y := t + r, t + [r[0]];
    hide TokenAt, SameEnds;
    AheadEnds(t, r);
    SameEndsBack(x, y, |t|);
    if TokenAt(x, 0) == Token(k, 0, |t|) { SameEndsSameToken(x, 0, y, 0, |t|, k); }
    if TokenAt(y, 0) == Token(k, 0, |t|) { SameEndsSameToken(y, 0, x, 0, |t|, k); }
  }

  lemma {:induction false} RunCut(y: Text, e: nat, i: nat)
    requires i <= e <= |y|
    ensures BlankEnd(y, i) == e ==> BlankEnd(y[..e], i) == e
    ensures WordEnd(y, i) == e ==> WordEnd(y[..e], i) == e
    ensures DigitsEnd(y, i) == e ==> DigitsEnd(y[..e], i) == e
    ensures LineEnd(y, i) == e ==> LineEnd(y[..e], i) == e
    decreases e - i
  {
    if i < e { RunCut(y, e, i + 1); }
  }

  lemma {:induction false} QuotedCut(y: Text, e: nat, i: nat)
    requires i <= e <= |y| && QuotedEnd(y, i) == e
    ensures QuotedEnd(y[..e], i) == e
    decreases e - i
  {
    if i < e && y[i] != '"' { QuotedCut(y, e, if y[i] == '\\' && i + 1 < |y| then i + 2 else i + 1); }
  }

  lemma {:induction false} LiteralEnds(y: Text)
    requires y != ""
    ensures y[0] == '"' ==> QuotedEnd(y, 1) == TokenAt(y, 0).end
    ensures TokenAt(y, 0).kind.BlockComment? ==> |y| > 1 && CommentEnd(y, 2, 1) == TokenAt(y, 0).end
  {
    hide BlankEnd, WordEnd, DigitsEnd, LineEnd, QuotedEnd, CommentEnd, KEYWORDS, PAIRS, SINGLES;
  }

  /** The text of a token is this token by itself. */
  lemma {:induction false} Cut(y: Text)
    requires y != ""
    ensures Whole(y[..TokenAt(y, 0).end], TokenAt(y, 0).kind)
  {
    var t := TokenAt(y, 0);
    LiteralEnds(y);
    hide TokenAt, Whole, BlankEnd, WordEnd, DigitsEnd, LineEnd, QuotedEnd, CommentEnd;
    RunCut(y, t.end, 1);
    if y[0] == '"' { QuotedCut(y, t.end, 1); }
    if t.end > 1 {
      RunCut(y, t.end, 2);
      if t.kind.BlockComment? { Paths.CommentCut(y, t.end, 2, 1); }
      CutLong(y, t.end, t.kind);
    } else {
      CutShort(y, t.kind);
    }
  }

  lemma {:induction false} CutShort(y: Text, k: Kind)
    requires y != "" && TokenAt(y, 0) == Token(k, 0, 1)
    ensures Whole(y[..1], k)
  {
    var c := y[..1];
    assert c[0] == y[0] && y[0..1] == c[0..1];
    assert BlankEnd(c, 1) == 1 && WordEnd(c, 1) == 1 && DigitsEnd(c, 1) == 1 && QuotedEnd(c, 1) == 1;
    hide BlankEnd, WordEnd, DigitsEnd, LineEnd, QuotedEnd, CommentEnd, KEYWORDS, PAIRS, SINGLES, StartsWord, ContinuesWord, IsDigit;
  }

  lemma {:induction false} CutLong(y: Text, e: nat, k: Kind)
    requires 1 < e <= |y| && TokenAt(y, 0) == Token(k, 0, e)
    requires BlankEnd(y, 1) == e ==> BlankEnd(y[..e], 1) == e
    requires WordEnd(y, 1) == e ==> WordEnd(y[..e], 1) == e
    requires DigitsEnd(y, 1) == e ==> DigitsEnd(y[..e], 1) == e
    requires LineEnd(y, 2) == e ==> LineEnd(y[..e], 2) == e
    requires y[0] == '"' ==> QuotedEnd(y[..e], 1) == e
    requires k.BlockComment? ==> CommentEnd(y[..e], 2, 1) == e
    ensures Whole(y[..e], k)
  {
    var c := y[..e];
    hide BlankEnd, WordEnd, DigitsEnd, LineEnd, QuotedEnd, CommentEnd, KEYWORDS, PAIRS, SINGLES;
    assert c[0] == y[0] && c[1] == y[1] && c[0..2] == y[0..2] && c[0..e] == y[0..e];
  }

  // --------------------------------------------------------------- tokens of a suffix

  lemma {:induction false} BlankShift(s: Text, i: nat, j: nat)
    requires i <= j <= |s|
    ensures BlankEnd(s[i..], j - i) == BlankEnd(s, j) - i && LineEnd(s[i..], j - i) == LineEnd(s, j) - i
    decreases |s| - j
  {
    if j < |s| { BlankShift(s, i, j + 1); }
  }

  lemma {:induction false} WordShift(s: Text, i: nat, j: nat)
    requires i <= j <= |s|
    ensures WordEnd(s[i..], j - i) == WordEnd(s, j) - i && DigitsEnd(s[i..], j - i) == DigitsEnd(s, j) - i
    decreases |s| - j
  {
    if j < |s| { WordShift(s, i, j + 1); }
  }

  lemma {:induction false} QuotedShift(s: Text, i: nat, j: nat)
    requires i <= j <= |s|
    ensures QuotedEnd(s[i..], j - i) == QuotedEnd(s, j) - i
    decreases |s| - j
  {
    if j < |s| {
      QuotedShift(s, i, j + 1);
      if j + 1 < |s| { QuotedShift(s, i, j + 2); }
    }
  }

  lemma {:induction false} CommentShift(s: Text, i: nat, j: nat, depth: nat)
    requires i <= j <= |s|
    ensures CommentEnd(s[i..], j - i, depth) == CommentEnd(s, j, depth) - i
    decreases |s| - j
  {
    assert Opens(s[i..], j - i) == Opens(s, j) && Closes(s[i..], j - i) == Closes(s, j);
    if j < |s| && depth > 0 {
      if Opens(s, j) { CommentShift(s, i, j + 2, depth + 1); }
      else if Closes(s, j) { CommentShift(s, i, j + 2, depth - 1); }
      else { CommentShift(s, i, j + 1, depth); }
    }
  }

  lemma {:induction false} ShiftEnds(s: Text, i: nat, n: nat)
    requires i < i + n <= |s|
    ensures SameEnds(s, i, s[i..], 0, n)
  {
    var y := s[i..];
    hide BlankEnd, WordEnd, DigitsEnd, LineEnd, QuotedEnd, CommentEnd, IsBlank, StartsWord, ContinuesWord, IsDigit, IsBreak;
    assert SameChars(s, i, y, 0, n);
    BlankShift(s, i, i + 1);
    WordShift(s, i, i + 1);
    QuotedShift(s, i, i + 1);
    assert SameRuns(s, i, y, 0, n);
    if i + 1 < |s| {
      BlankShift(s, i, i + 2);
      CommentShift(s, i, i + 2, 1);
    }
    assert SameTails(s, i, y, 0, n);
  }

  /** A token depends on nothing before it. */
  lemma {:induction false} Shift(s: Text, i: nat)
    requires i < |s|
    ensures TokenAt(s[i..], 0) == Token(TokenAt(s, i).kind, 0, TokenAt(s, i).end - i)
  {
    var t := TokenAt(s, i);
    ShiftEnds(s, i, t.end - i);
    SameEndsSameToken(s, i, s[i..], 0, t.end - i, t.kind);
  }

  // ------------------------------------------------------------- tokens without positions

  /** A visible token: its kind, its text, and the line breaks before it. */
  datatype Unit = Unit(kind: Kind, text: string, newlines: nat)

  /** The visible tokens of a text, with line breaks pending from before. */
  function Units(y: Text, pending: nat): seq<Unit>
    decreases |y|
  {
    if y == "" then []
    else
      var t := TokenAt(y, 0);
      if t.kind.Whitespace? then Units(y[t.end..], pending)
      else if t.kind.Newline? then Units(y[t.end..], pending + 1)
      else [Unit(t.kind, y[..t.end], pending)] + Units(y[t.end..], 0)
  }

  function SeenOf(us: seq<Unit>): (r: seq<Seen>)
    ensures |r| == |us|
  {
    seq(|us|, i requires 0 <= i < |us| => Seen(us[i].kind, us[i].text))
  }

  function UnitsOf(ps: seq<Piece>): (r: seq<Unit>)
    ensures |r| == |ps|
  {
    seq(|ps|, i requires 0 <= i < |ps| => Unit(ps[i].kind, ps[i].text, ps[i].newlines))
  }

  lemma {:induction false} Associate<T>(x: seq<T>, y: seq<T>, z: seq<T>)
    ensures x + (y + z) == (x + y) + z && x + [] == x == [] + x && [] + z == z
  {
  }

  lemma {:induction false} TokenIn(s: Text, i: nat, k: nat)
    requires i <= |s| && k < |Tokens(s, i)| - 1
    ensures Tokens(s, i)[k].start < |s| && Tokens(s, i)[k] == TokenAt(s, Tokens(s, i)[k].start)
    decreases k
  {
    hide TokenAt, Tiles;
    if i < |s| && k > 0 { TokenIn(s, TokenAt(s, i).end, k - 1); }
  }

  /** Reading one more token of a text. */
  lemma {:induction false} NextUnit(s: Text, i: nat, pending: nat)
    requires i < |s|
    ensures
      var t := TokenAt(s, i);
      Units(s[i..], pending) ==
        if t.kind.Whitespace? then Units(s[t.end..], pending)
        else if t.kind.Newline? then Units(s[t.end..], pending + 1)
        else [Unit(t.kind, TextOf(s, t), pending)] + Units(s[t.end..], 0)
  {
    hide TokenAt;
    Shift(s, i);
    var e := TokenAt(s, i).end;
    assert s[i..][..e - i] == s[i..e] && s[i..][e - i..] == s[e..];
  }

  lemma {:induction false} VisibleNext(s: Text, ts: seq<Token>, k: nat)
    requires InText(s, ts) && k < |ts|
    ensures VisibleFrom(s, ts, k) == (if IsSpacing(ts[k].kind) then [] else [Seen(ts[k].kind, TextOf(s, ts[k]))]) + VisibleFrom(s, ts, k + 1)
  {
  }

  lemma {:induction false} SeenNext(u: Unit, us: seq<Unit>)
    ensures SeenOf([u] + us) == [Seen(u.kind, u.text)] + SeenOf(us)
  {
  }

  lemma {:induction false} VisibleEnd(s: Text, ts: seq<Token>, pending: nat)
    requires Tiles(s, 0, ts) && InText(s, ts)
    ensures VisibleFrom(s, ts, |ts| - 1) == SeenOf(Units(s[ts[|ts| - 1].start..], pending)) + [Seen(Eof, "")]
  {
    assert s[|s|..] == "";
    assert VisibleFrom(s, ts, |ts|) == [];
    assert TextOf(s, ts[|ts| - 1]) == "";
    hide TokenAt, VisibleFrom, Tokens;
    VisibleNext(s, ts, |ts| - 1);
    NoUnits(pending);
  }

  /** The visible tokens, with the end token, are the units. */
  lemma {:induction false} VisibleUnits(s: Text, k: nat, pending: nat)
    requires InText(s, Tokens(s, 0)) && k < |Tokens(s, 0)|
    ensures VisibleFrom(s, Tokens(s, 0), k) == SeenOf(Units(s[Tokens(s, 0)[k].start..], pending)) + [Seen(Eof, "")]
    decreases |Tokens(s, 0)| - k
  {
    var ts := Tokens(s, 0);
    var t := ts[k];
    hide TokenAt, Tokens, Units, VisibleFrom, SeenOf, TextOf;
    if k < |ts| - 1 {
      TokenIn(s, 0, k);
      assert t.end == ts[k + 1].start;
      hide Tiles, InText;
      NextUnit(s, t.start, pending);
      VisibleNext(s, ts, k);
      VisibleUnits(s, k + 1, if t.kind.Whitespace? then pending else if t.kind.Newline? then pending + 1 else 0);
      var rest := Units(s[t.end..], 0);
      SeenNext(Unit(t.kind, TextOf(s, t), pending), rest);
      Associate([Seen(t.kind, TextOf(s, t))], SeenOf(rest), [Seen(Eof, "")]);
      Associate([], VisibleFrom(s, ts, k + 1), []);
    } else {
      VisibleEnd(s, ts, pending);
    }
  }

  lemma {:induction false} NoUnits(pending: nat)
    ensures Units("", pending) == []
  {
  }

  /** How one more token changes the pieces. */
  lemma {:induction false} PiecesNext(s: Text, ts: seq<Token>, tree: Tree, n: nat)
    requires InText(s, ts) && n < |ts| && !ts[n].kind.Eof?
    ensures
      var (ps, pending) := PiecesOf(s, ts, tree, n);
      var t := ts[n];
      && UnitsOf(PiecesOf(s, ts, tree, n + 1).0) == UnitsOf(ps) + (if IsSpacing(t.kind) then [] else [Unit(t.kind, TextOf(s, t), pending)])
      && PiecesOf(s, ts, tree, n + 1).1 == if t.kind.Whitespace? then pending else if t.kind.Newline? then pending + 1 else 0
  {
    hide IsUnary, RoleOf, TextOf, InText;
  }

  /** The pieces of a source are its units, with marks. */
  lemma {:induction false} PieceUnits(s: Text, tree: Tree, n: nat)
    requires InText(s, Tokens(s, 0)) && n < |Tokens(s, 0)|
    ensures UnitsOf(PiecesOf(s, Tokens(s, 0), tree, n).0) + Units(s[Tokens(s, 0)[n].start..], PiecesOf(s, Tokens(s, 0), tree, n).1) == Units(s, 0)
    decreases n
  {
    hide TokenAt, Tokens, Units, TextOf;
    var ts := Tokens(s, 0);
    if n == 0 {
      assert s[ts[0].start..] == s;
      assert UnitsOf([]) == [];
    } else {
      hide PiecesOf, UnitsOf;
      PieceUnits(s, tree, n - 1);
      TokenIn(s, 0, n - 1);
      var t := ts[n - 1];
      assert t.end == ts[n].start && !t.kind.Eof?;
      hide Tiles, InText;
      var before, pending := UnitsOf(PiecesOf(s, ts, tree, n - 1).0), PiecesOf(s, ts, tree, n - 1).1;
      NextUnit(s, t.start, pending);
      PiecesNext(s, ts, tree, n - 1);
      Associate(before, [Unit(t.kind, TextOf(s, t), pending)], Units(s[t.end..], 0));
    }
  }

  lemma {:induction false} AllPieceUnits(s: Text, tree: Tree)
    requires InText(s, Tokens(s, 0))
    ensures UnitsOf(PiecesOf(s, Tokens(s, 0), tree, |Tokens(s, 0)|).0) == Units(s, 0)
  {
    var n := |Tokens(s, 0)| - 1;
    PieceUnits(s, tree, n);
    assert s[Tokens(s, 0)[n].start..] == "";
    hide TokenAt, Tokens, InText, IsUnary, RoleOf;
    NoUnits(PiecesOf(s, Tokens(s, 0), tree, n).1);
  }

  lemma {:induction false} UnitsWhole(y: Text, pending: nat, i: nat)
    requires i < |Units(y, pending)|
    ensures Whole(Units(y, pending)[i].text, Units(y, pending)[i].kind) && !IsSpacing(Units(y, pending)[i].kind)
    decreases |y|
  {
    Cut(y);
    hide TokenAt, Whole;
    var t := TokenAt(y, 0);
    if t.kind.Whitespace? {
      UnitsWhole(y[t.end..], pending, i);
    } else if t.kind.Newline? {
      UnitsWhole(y[t.end..], pending + 1, i);
    } else if i > 0 {
      UnitsWhole(y[t.end..], 0, i - 1);
    }
  }

  // ---------------------------------------------------------------------- the output

  /** The output from just after the first i pieces. */
  ghost function Tail(ps: seq<Piece>, i: nat): (r: string)
    requires i <= |ps|
    ensures r != ""
    decreases |ps| - i
  {
    if i == |ps| then "\n" else Gap(ps, i) + ps[i].text + Tail(ps, i + 1)
  }

  /** The layout that the renderer writes before piece i. */
  ghost function Gap(ps: seq<Piece>, i: nat): string
    requires i < |ps|
  {
    var st := Steps(START, ps[..i]);
    if |st.out| <= |Before(st, ps[i])| then Before(st, ps[i])[|st.out|..] else ""
  }

  lemma {:induction false} GapIs(ps: seq<Piece>, i: nat)
    requires i < |ps|
    ensures IsGap(Gap(ps, i)) && Steps(START, ps[..i + 1]).out == Steps(START, ps[..i]).out + Gap(ps, i) + ps[i].text
    ensures Breaks(Gap(ps, i)) + TrailingBreaks(Steps(START, ps[..i]).out) >= Min(ps[i].newlines, 2)
    ensures TrailingBreaks(Steps(START, ps[..i]).out) == 0 ==> Breaks(Gap(ps, i)) == Min(ps[i].newlines, 2)
  {
    var st := Steps(START, ps[..i]);
    assert ps[..i + 1][..i] == ps[..i];
    var gap := StepGap(st, ps[i]);
    assert Before(st, ps[i]) + ps[i].text == st.out + gap + ps[i].text;
    hide Before, Steps, IsGap, Breaks, TrailingBreaks;
    SameEnd(Before(st, ps[i]), st.out + gap, ps[i].text);
    assert Gap(ps, i) == gap;
  }

  lemma {:induction false} SameEnd(x: string, y: string, z: string)
    requires x + z == y + z
    ensures x == y
  {
    assert |x| == |y| && (x + z)[..|x|] == x && (y + z)[..|y|] == y;
  }

  lemma {:induction false} TailNext(ps: seq<Piece>, i: nat)
    requires i < |ps|
    ensures Tail(ps, i) == Gap(ps, i) + (ps[i].text + Tail(ps, i + 1))
  {
    hide Gap;
  }

  /** The output is what was written for the first pieces, and the rest. */
  lemma {:induction false} RenderTail(ps: seq<Piece>, i: nat)
    requires i <= |ps|
    ensures Render(ps) == Steps(START, ps[..i]).out + Tail(ps, i)
    decreases |ps| - i
  {
    hide Steps, Gap;
    if i == |ps| {
      assert ps[..i] == ps;
    } else {
      RenderTail(ps, i + 1);
      GapIs(ps, i);
      hide Render, Tail, IsGap, Breaks, TrailingBreaks, Min;
      TailNext(ps, i);
      var before := Steps(START, ps[..i]).out;
      Associate(before + Gap(ps, i), ps[i].text, Tail(ps, i + 1));
      Associate(before, Gap(ps, i), ps[i].text + Tail(ps, i + 1));
    }
  }

  lemma {:induction false} WholeOutput(ps: seq<Piece>)
    ensures Tail(ps, 0) == Render(ps)
  {
    RenderTail(ps, 0);
    assert ps[..0] == [];
    hide Tail, Render;
  }

  // ------------------------------------------------------------------ layout is skipped

  lemma {:induction false} BlankSkipped(y: Text, pending: nat)
    ensures Units([' '] + y, pending) == Units(y, pending)
  {
    var x := [' '] + y;
    assert x[1..] == y;
    BlankShift(x, 1, 1);
    var e := BlankEnd(x, 1);
    assert TokenAt(x, 0) == Token(Whitespace, 0, e);
    assert x[e..] == y[e - 1..];
    if y != "" && IsBlank(y[0]) {
      assert TokenAt(y, 0) == Token(Whitespace, 0, e - 1);
    } else {
      assert e == 1 && y[0..] == y;
    }
  }

  lemma {:induction false} BreakSkipped(y: Text, pending: nat)
    ensures Units(['\n'] + y, pending) == Units(y, pending + 1)
  {
    var x := ['\n'] + y;
    assert TokenAt(x, 0) == Token(Newline, 0, 1);
    assert x[1..] == y;
  }

  lemma {:induction false} LayoutSkipped(gap: string, y: Text, pending: nat)
    requires IsGap(gap)
    ensures Units(gap + y, pending) == Units(y, pending + Breaks(gap))
    decreases |gap|
  {
    hide TokenAt, Units;
    if gap == "" {
      assert gap + y == y;
    } else {
      var n := |gap| - 1;
      LayoutSkipped(gap[..n], [gap[n]] + y, pending);
      assert gap[..n] + ([gap[n]] + y) == gap + y;
      if gap[n] == '\n' { BreakSkipped(y, pending + Breaks(gap[..n])); } else { BlankSkipped(y, pending + Breaks(gap[..n])); }
    }
  }

  // -------------------------------------------------------------- the tokens of the output

  ghost predicate AreTokens(ps: seq<Piece>) {
    forall i :: 0 <= i < |ps| ==> Whole(ps[i].text, ps[i].kind) && !IsSpacing(ps[i].kind)
  }

  /** The text of piece i runs on into what the renderer writes after it. */
  ghost predicate Glued(ps: seq<Piece>, i: nat)
    requires i < |ps|
  {
    Sticks(ps[i].text, ps[i].kind, Tail(ps, i + 1)[0])
  }

  ghost predicate Apart(ps: seq<Piece>, i: nat) {
    forall j :: i <= j < |ps| ==> !Glued(ps, j)
  }

  /** Reading one token: the expected one, or one that differs from it. */
  lemma {:induction false} ReadToken(t: string, k: Kind, r: string, pending: nat)
    requires Whole(t, k) && !IsSpacing(k) && r != ""
    ensures !Sticks(t, k, r[0]) ==> Units(t + r, pending) == [Unit(k, t, pending)] + Units(r, 0)
    ensures Sticks(t, k, r[0]) ==> Units(t + r, pending) != [] && SeenOf(Units(t + r, pending))[0] != Seen(k, t)
  {
    Ahead(t, k, r);
    var x := t + r;
    assert !IsSpacing(TokenAt(x, 0).kind) by { assert x[0] == t[0]; }
    hide TokenAt, Sticks;
    var e := TokenAt(x, 0).end;
    if e == |t| { assert x[..e] == t && x[e..] == r; } else { assert |x[..e]| != |t|; }
  }

  lemma {:induction false} PiecesFrom(ps: seq<Piece>, i: nat)
    requires i < |ps|
    ensures SeenOf(UnitsOf(ps[i..])) == [Seen(ps[i].kind, ps[i].text)] + SeenOf(UnitsOf(ps[i + 1..]))
  {
    assert ps[i..] == [ps[i]] + ps[i + 1..];
  }

  lemma {:induction false} FirstSeen(a: Seen, x: seq<Seen>, y: seq<Seen>)
    ensures y == [a] + x ==> y != [] && y[0] == a && y[1..] == x
  {
  }

  lemma {:induction false} NothingAfter(ps: seq<Piece>, pending: nat)
    ensures Units(Tail(ps, |ps|), pending) == []
  {
    hide TokenAt, Units;
    BreakSkipped("", pending);
    assert Tail(ps, |ps|) == ['\n'] + "";
    NoUnits(pending + 1);
  }

  /** What is read from before piece i. */
  lemma {:induction false} ReadPiece(ps: seq<Piece>, i: nat, pending: nat)
    requires AreTokens(ps) && i < |ps|
    ensures
      var q := pending + Breaks(Gap(ps, i));
      var units := Units(Tail(ps, i), pending);
      && (!Glued(ps, i) ==> units == [Unit(ps[i].kind, ps[i].text, q)] + Units(Tail(ps, i + 1), 0))
      && (Glued(ps, i) ==> units != [] && SeenOf(units)[0] != Seen(ps[i].kind, ps[i].text))
  {
    hide TokenAt, Units, Whole, Sticks, Gap, Tail, SeenOf, IsGap, Breaks, TrailingBreaks, Steps;
    GapIs(ps, i);
    TailNext(ps, i);
    var r := Tail(ps, i + 1);
    LayoutSkipped(Gap(ps, i), ps[i].text + r, pending);
    ReadToken(ps[i].text, ps[i].kind, r, pending + Breaks(Gap(ps, i)));
  }

  /** The output reads as the pieces it was written from if and only if none runs on. */
  lemma {:induction false} TokensKept(ps: seq<Piece>, i: nat, pending: nat)
    requires AreTokens(ps) && i <= |ps|
    ensures SeenOf(Units(Tail(ps, i), pending)) == SeenOf(UnitsOf(ps[i..])) <==> Apart(ps, i)
    decreases |ps| - i
  {
    hide TokenAt, Units, Gap, Tail, Breaks, AreTokens, Glued;
    if i == |ps| {
      NothingAfter(ps, pending);
    } else {
      ReadPiece(ps, i, pending);
      PiecesFrom(ps, i);
      TokensKept(ps, i + 1, 0);
      hide SeenOf, UnitsOf;
      assert Apart(ps, i) <==> !Glued(ps, i) && Apart(ps, i + 1);
      hide Apart;
      var a, x, y := Seen(ps[i].kind, ps[i].text), Units(Tail(ps, i), pending), Units(Tail(ps, i + 1), 0);
      SeenNext(Unit(ps[i].kind, ps[i].text, pending + Breaks(Gap(ps, i))), y);
      FirstSeen(a, SeenOf(UnitsOf(ps[i + 1..])), SeenOf(x));
      FirstSeen(a, SeenOf(y), SeenOf(x));
    }
  }

  /** Literals and comments are closed before a line ends within them. */
  predicate Ended(ps: seq<Piece>) {
    forall i :: 0 <= i < |ps| && ps[i].text != "" ==> ps[i].text[|ps[i].text| - 1] != '\n'
  }

  lemma {:induction false} NoneTrailing(ps: seq<Piece>, i: nat)
    requires AreTokens(ps) && Ended(ps) && i <= |ps|
    ensures TrailingBreaks(Steps(START, ps[..i]).out) == 0
  {
    if i > 0 {
      assert Whole(ps[i - 1].text, ps[i - 1].kind);
      hide Steps, Gap, IsGap, Breaks, TokenAt, Sticks, Min, AreTokens;
      GapIs(ps, i - 1);
      EndsWith(Steps(START, ps[..i - 1]).out + Gap(ps, i - 1), ps[i - 1].text);
    } else {
      assert ps[..0] == [];
    }
  }

  lemma {:induction false} EndsWith(x: string, t: string)
    requires t != "" && t[|t| - 1] != '\n'
    ensures TrailingBreaks(x + t) == 0
  {
  }

  /** Then its line breaks are those of the pieces, up to two. */
  lemma {:induction false} LayoutKept(ps: seq<Piece>, i: nat)
    requires AreTokens(ps) && Ended(ps) && i <= |ps| && Apart(ps, i)
    ensures Units(Tail(ps, i), 0) == UnitsOf(ClipAll(ps[i..]))
    decreases |ps| - i
  {
    hide TokenAt, Units, Gap, Tail, IsGap, Breaks, TrailingBreaks, Steps, Ended, AreTokens, Glued;
    if i == |ps| {
      NothingAfter(ps, 0);
    } else {
      ClippedFrom(ps, i);
      hide UnitsOf, ClipAll;
      GapIs(ps, i);
      NoneTrailing(ps, i);
      ReadPiece(ps, i, 0);
      LayoutKept(ps, i + 1);
    }
  }

  lemma {:induction false} ClippedFrom(ps: seq<Piece>, i: nat)
    requires i < |ps|
    ensures UnitsOf(ClipAll(ps[i..])) == [Unit(ps[i].kind, ps[i].text, Min(ps[i].newlines, 2))] + UnitsOf(ClipAll(ps[i + 1..]))
  {
  }

  // -------------------------------------------------------- which tokens run on into what

  lemma {:induction false} WordSticks(t: string, k: Kind, c: char)
    requires Whole(t, k) && (k.Identifier? || k.Keyword? || k.Integer? || k.LineComment?)
    ensures k.Identifier? || k.Keyword? ==> (Sticks(t, k, c) <==> ContinuesWord(c))
    ensures k.Integer? ==> (Sticks(t, k, c) <==> IsDigit(c) || c == '_')
    ensures k.LineComment? ==> (Sticks(t, k, c) <==> !IsBreak(c))
  {
    var x := t + [c];
    hide QuotedEnd, CommentEnd, KEYWORDS, PAIRS, SINGLES;
    assert x[0] == t[0] && x[|t|] == c && x[0..|t|] == t == t[0..|t|];
    assert |t| > 1 ==> x[1] == t[1];
    if k.LineComment? {
      assert LineEnd(t, 2) == |t| && forall i :: 2 <= i < |t| ==> x[i] == t[i];
      LineRuns(t, c);
    } else {
      WordRuns(t, c);
    }
  }

  lemma {:induction false} WordRuns(t: string, c: char)
    requires t != ""
    ensures WordEnd(t, 1) == |t| ==> (WordEnd(t + [c], 1) == |t| <==> !ContinuesWord(c))
    ensures DigitsEnd(t, 1) == |t| ==> (DigitsEnd(t + [c], 1) == |t| <==> !IsDigit(c) && c != '_')
  {
    var x := t + [c];
    assert x[|t|] == c && forall i :: 0 <= i < |t| ==> x[i] == t[i];
  }

  lemma {:induction false} LineRuns(t: string, c: char)
    requires |t| > 1
    ensures LineEnd(t, 2) == |t| ==> (LineEnd(t + [c], 2) == |t| <==> IsBreak(c))
  {
    var x := t + [c];
    assert x[|t|] == c && forall i :: 0 <= i < |t| ==> x[i] == t[i];
  }

  /** A symbol runs on only if it is one character that forms a longer symbol, or opens a
      comment, with the next. */
  lemma {:induction false} SymbolSticks(t: string, k: Kind, c: char)
    requires Whole(t, k) && (k.Symbol? || k.Invalid?)
    ensures Sticks(t, k, c) <==> |t| == 1 && (t + [c] in PAIRS || t + [c] == "//" || t + [c] == "/*")
  {
    var x := t + [c];
    hide BlankEnd, WordEnd, DigitsEnd, LineEnd, QuotedEnd, CommentEnd, KEYWORDS;
    assert x[0] == t[0];
    if |t| == 1 {
      assert x[0..2] == x && x[1] == c;
    } else {
      assert |t| == 2 && x[0..2] == t == t[0..2] && x[1] == t[1];
    }
  }

  // -------------------------------------------------------------- when the self-check passes

  function PiecesIn(s: Text, tree: Tree): seq<Piece> {
    TokensInText(s, Tokens(s, 0));
    PiecesOf(s, Tokens(s, 0), tree, |Tokens(s, 0)|).0
  }

  lemma {:induction false} SourcePieces(s: Text, tree: Tree)
    ensures AreTokens(PiecesIn(s, tree)) && UnitsOf(PiecesIn(s, tree)) == Units(s, 0)
  {
    TokensInText(s, Tokens(s, 0));
    AllPieceUnits(s, tree);
    var ps := PiecesIn(s, tree);
    hide PiecesIn, Units, Tokens, TokenAt, Whole;
    forall i | 0 <= i < |ps| ensures Whole(ps[i].text, ps[i].kind) && !IsSpacing(ps[i].kind) {
      UnitsWhole(s, 0, i);
      assert UnitsOf(ps)[i] == Unit(ps[i].kind, ps[i].text, ps[i].newlines);
    }
  }

  lemma {:induction false} SameTokensMeans(x: Text, y: Text)
    ensures SameTokens(x, y) <==> SeenOf(Units(x, 0)) == SeenOf(Units(y, 0))
  {
    TokensInText(x, Tokens(x, 0));
    TokensInText(y, Tokens(y, 0));
    VisibleUnits(x, 0, 0);
    VisibleUnits(y, 0, 0);
    assert x[0..] == x && y[0..] == y;
    var a, b, e := SeenOf(Units(x, 0)), SeenOf(Units(y, 0)), [Seen(Eof, "")];
    assert Tokens(x, 0)[0].start == 0 && Tokens(y, 0)[0].start == 0;
    hide Tokens, TokenAt, Units, SeenOf, VisibleFrom, Tiles, InText;
    if a + e == b + e { SamePrefix(a, b, e); }
  }

  lemma {:induction false} SamePrefix(x: seq<Seen>, y: seq<Seen>, z: seq<Seen>)
    requires x + z == y + z
    ensures x == y
  {
    assert |x| == |y| && (x + z)[..|x|] == x && (y + z)[..|y|] == y;
  }

  /** Rendering keeps the tokens of a source, as the lexer reads them back, if and only if no
      piece runs on into what follows it. */
  lemma {:induction false} RenderingKeepsTokens(s: Text, tree: Tree)
    ensures SameTokens(s, Render(PiecesIn(s, tree))) <==> Apart(PiecesIn(s, tree), 0)
  {
    var ps := PiecesIn(s, tree);
    hide PiecesIn, SameTokens, Units, UnitsOf, SeenOf, Render, Tail, Apart, AreTokens;
    SourcePieces(s, tree);
    SameTokensMeans(s, Render(ps));
    WholeOutput(ps);
    TokensKept(ps, 0, 0);
    assert ps[0..] == ps;
  }

  /** The front end finds the same unary operators and the same angle brackets. */
  predicate SameMarks(ps: seq<Piece>, qs: seq<Piece>) {
    forall i :: 0 <= i < |ps| && i < |qs| ==> qs[i].unary == ps[i].unary && qs[i].angle == ps[i].angle
  }

  /** And then rendering the output again changes nothing, if the marks stay. */
  lemma {:induction false} RenderingStable(s: Text, tree: Tree, again: Tree)
    requires
      var ps := PiecesIn(s, tree);
      Apart(ps, 0) && Ended(ps) && SameMarks(ps, PiecesIn(Render(ps), again))
    ensures Render(PiecesIn(Render(PiecesIn(s, tree)), again)) == Render(PiecesIn(s, tree))
  {
    var ps := PiecesIn(s, tree);
    var qs := PiecesIn(Render(ps), again);
    hide PiecesIn, Units, Render, Tail, Apart, AreTokens, Ended;
    SourcePieces(s, tree);
    SourcePieces(Render(ps), again);
    WholeOutput(ps);
    LayoutKept(ps, 0);
    assert ps[0..] == ps;
    SameUnitsClip(ps, qs);
    FixedPoint(ps, qs);
  }

  lemma {:induction false} SameUnitsClip(ps: seq<Piece>, qs: seq<Piece>)
    requires UnitsOf(qs) == UnitsOf(ClipAll(ps)) && SameMarks(ps, qs)
    ensures ClipAll(ps) == ClipAll(qs)
  {
    assert |ps| == |qs|;
    forall i | 0 <= i < |ps| ensures Clip(ps[i]) == Clip(qs[i]) {
      assert UnitsOf(qs)[i] == UnitsOf(ClipAll(ps))[i];
    }
  }

  /** The driver's self-check: what it rejects has a piece that runs on, or a second rendering
      that differs; and the second cannot happen if no literal is left open and the front end
      reads the output as it read the source. */
  lemma {:induction false} SelfCheck(parse: Parser, s: Text, tree: Tree)
    requires NUL !in s && parse(s, Tokens(s, 0)) == Some(tree) && Rendered(parse, s).Some?
    ensures
      var ps := PiecesIn(s, tree);
      var out := Render(ps);
      && Rendered(parse, s) == Some(out)
      && (Format(parse, s) == Some(out) <==> Apart(ps, 0) && Rendered(parse, out) == Some(out))
      && (Format(parse, s) != Some(out) ==> Format(parse, s) == None)
      && (forall again ::
            (&& parse(out, Tokens(out, 0)) == Some(again) && Rendered(parse, out).Some?
             && Apart(ps, 0) && Ended(ps) && SameMarks(ps, PiecesIn(out, again)))
            ==> Format(parse, s) == Some(out))
  {
    var ps := PiecesIn(s, tree);
    var out := Render(ps);
    RenderedPieces(parse, s, tree);
    RenderingKeepsTokens(s, tree);
    forall again | parse(out, Tokens(out, 0)) == Some(again) && Rendered(parse, out).Some?
      && Apart(ps, 0) && Ended(ps) && SameMarks(ps, PiecesIn(out, again))
      ensures Rendered(parse, out) == Some(out)
    {
      RenderedPieces(parse, out, again);
      RenderingStable(s, tree, again);
    }
    hide PiecesIn, Tokens, Render, Apart, Ended, SameMarks, Rendered, SameTokens;
  }

  lemma {:induction false} RenderedPieces(parse: Parser, s: Text, tree: Tree)
    requires parse(s, Tokens(s, 0)) == Some(tree) && Rendered(parse, s).Some?
    ensures Rendered(parse, s) == Some(Render(PiecesIn(s, tree)))
  {
    TokensInText(s, Tokens(s, 0));
    hide Tokens, PiecesOf, AnglesFound, Render;
  }

  // ---------------------------------------------------------------- what can be glued at all

  /** Marks are found on symbols only. */
  lemma {:induction false} MarksOnSymbols(s: Text, ts: seq<Token>, tree: Tree, n: nat, i: nat)
    requires InText(s, ts) && n <= |ts| && i < |PiecesOf(s, ts, tree, n).0|
    ensures var p := PiecesOf(s, ts, tree, n).0[i]; !p.kind.Symbol? ==> !p.unary && p.angle == NoAngle
    decreases n
  {
    if i < |PiecesOf(s, ts, tree, n - 1).0| {
      MarksOnSymbols(s, ts, tree, n - 1, i);
    } else {
      var t := ts[n - 1];
      forall k | 0 <= k < |tree.comparisons| && OperatorAt(s, ts, tree.comparisons[k], 0) == Some(n - 1) ensures t.kind.Symbol? {
        OperatorIsSymbol(s, ts, tree.comparisons[k], 0);
      }
    }
  }

  lemma {:induction false} OperatorIsSymbol(s: Text, ts: seq<Token>, c: (string, nat, nat), i: nat)
    requires InText(s, ts) && i <= |ts| && OperatorAt(s, ts, c, i).Some?
    ensures OperatorAt(s, ts, c, i).value < |ts| && ts[OperatorAt(s, ts, c, i).value].kind.Symbol?
    decreases |ts| - i
  {
    var t := ts[i];
    if t.start < c.1 || !(t.kind.Symbol? && TextOf(s, t) == c.0) { OperatorIsSymbol(s, ts, c, i + 1); }
  }

  lemma {:induction false} PendingStays(y: Text, pending: nat)
    ensures Units(y, pending) != [] ==> Units(y, pending)[0].newlines >= pending
    decreases |y|
  {
    hide TokenAt;
    if y != "" {
      var t := TokenAt(y, 0);
      PendingStays(y[t.end..], if t.kind.Newline? then pending + 1 else pending);
    }
  }

  lemma {:induction false} AfterComment(y: Text)
    requires y != "" && TokenAt(y, 0).kind.LineComment? && y[TokenAt(y, 0).end..] != ""
    ensures TokenAt(y[TokenAt(y, 0).end..], 0).kind.Newline?
  {
    hide BlankEnd, WordEnd, DigitsEnd, QuotedEnd, CommentEnd, KEYWORDS, PAIRS, SINGLES;
  }

  /** A line comment is followed by a line break. */
  lemma {:induction false} BreakAfterComment(y: Text, pending: nat, i: nat)
    requires i + 1 < |Units(y, pending)| && Units(y, pending)[i].kind.LineComment?
    ensures Units(y, pending)[i + 1].newlines > 0
    decreases |y|
  {
    hide TokenAt;
    var t := TokenAt(y, 0);
    var rest := y[t.end..];
    if i == 0 && t.kind.LineComment? {
      AfterComment(y);
      PendingStays(rest[TokenAt(rest, 0).end..], 1);
    } else {
      if t.kind.Whitespace? { BreakAfterComment(rest, pending, i); }
      else if t.kind.Newline? { BreakAfterComment(rest, pending + 1, i); }
      else { BreakAfterComment(rest, 0, i - 1); }
    }
  }

  /** A name, keyword, number or line comment. */
  predicate IsRun(k: Kind) { k.Identifier? || k.Keyword? || k.Integer? || k.LineComment? }

  predicate IsPlainWord(k: Kind) { k.Identifier? || k.Keyword? || k.Integer? }

  lemma {:induction false} RunShape(t: string, k: Kind)
    requires Whole(t, k)
    ensures t != ""
    ensures ContinuesWord(t[0]) <==> IsPlainWord(k)
    ensures IsRun(k) ==> t[|t| - 1] != '\n'
  {
    hide QuotedEnd, CommentEnd, KEYWORDS, PAIRS, SINGLES;
  }

  lemma {:induction false} WordsSpaced(p: Piece, c: Piece)
    requires IsPlainWord(p.kind) && IsPlainWord(c.kind) && !p.unary && !c.unary && p.angle == NoAngle && c.angle == NoAngle
    requires StartsText(p) && StartsText(c)
    ensures NeedsSpace(p, c)
  {
    hide ContinuesWord;
    PunctuationStarts();
  }

  predicate StartsText(p: Piece) { p.text != "" && ContinuesWord(p.text[0]) }

  lemma {:induction false} PunctuationStarts()
    ensures !ContinuesWord('(') && !ContinuesWord('[') && !ContinuesWord(')') && !ContinuesWord(']')
    ensures !ContinuesWord(',') && !ContinuesWord('.') && !ContinuesWord('?') && !ContinuesWord(':') && !ContinuesWord('@')
    ensures !ContinuesWord('{') && !ContinuesWord('}') && !ContinuesWord('<') && !ContinuesWord('>')
  {
  }

  lemma {:induction false} BeforeGrows(st: State, p: Piece, c: Piece)
    requires st.previous == Some(p) && st.out != "" && st.out[|st.out| - 1] != '\n'
    requires c.newlines > 0 || NeedsSpace(p, c)
    ensures |Before(st, c)| > |st.out| && (c.newlines > 0 ==> Before(st, c)[|st.out|] == '\n')
  {
    hide NeedsSpace, LineDepth;
    assert TrailingBreaks(st.out) == 0;
  }

  /** Between a run and a word, or a line break, the renderer writes something. */
  lemma {:induction false} GapAfterRun(ps: seq<Piece>, i: nat)
    requires AreTokens(ps) && i + 1 < |ps| && IsRun(ps[i].kind)
    requires ps[i + 1].newlines > 0 || (IsPlainWord(ps[i].kind) && IsPlainWord(ps[i + 1].kind))
    requires !ps[i].unary && ps[i].angle == NoAngle && (IsPlainWord(ps[i + 1].kind) ==> !ps[i + 1].unary && ps[i + 1].angle == NoAngle)
    ensures Gap(ps, i + 1) != ""
    ensures ps[i + 1].newlines > 0 ==> Gap(ps, i + 1)[0] == '\n'
  {
    hide Steps, TokenAt, Sticks, IsGap, Breaks, Before, NeedsSpace, TrailingBreaks, ContinuesWord;
    var st, p, c := Steps(START, ps[..i + 1]), ps[i], ps[i + 1];
    assert Whole(p.text, p.kind) && Whole(c.text, c.kind);
    hide AreTokens;
    PreviousIs(ps, i);
    RunShape(p.text, p.kind);
    RunShape(c.text, c.kind);
    if IsPlainWord(p.kind) && IsPlainWord(c.kind) { WordsSpaced(p, c); }
    BeforeGrows(st, p, c);
  }

  lemma {:induction false} PreviousIs(ps: seq<Piece>, i: nat)
    requires i < |ps|
    ensures
      var st, t := Steps(START, ps[..i + 1]), ps[i].text;
      st.previous == Some(ps[i]) && (t != "" ==> st.out != "" && st.out[|st.out| - 1] == t[|t| - 1])
  {
    assert ps[..i + 1][..i] == ps[..i];
    hide Before;
  }

  /** In the rendering of a source, only a literal or comment that was left open runs on into
      layout, and besides these only a one-character symbol into the symbol that touches it. */
  lemma {:induction false} OnlySymbolsGlue(s: Text, tree: Tree, i: nat)
    requires i < |PiecesIn(s, tree)| && Glued(PiecesIn(s, tree), i)
    ensures
      var ps := PiecesIn(s, tree);
      || ps[i].kind.Quoted? || ps[i].kind.BlockComment?
      || (&& (ps[i].kind.Symbol? || ps[i].kind.Invalid?) && |ps[i].text| == 1
          && i + 1 < |ps| && Gap(ps, i + 1) == "" && ps[i + 1].text != ""
          && (var two := ps[i].text + [ps[i + 1].text[0]]; two in PAIRS || two == "//" || two == "/*"))
  {
    var ps := PiecesIn(s, tree);
    SourcePieces(s, tree);
    var t, k := ps[i].text, ps[i].kind;
    assert Whole(t, k) && !IsSpacing(k);
    KindsOf(t, k);
    if IsRun(k) {
      RunNotGlued(s, tree, i);
    } else if k.Symbol? || k.Invalid? {
      var c := Tail(ps, i + 1)[0];
      hide PiecesIn, TokenAt, Units, UnitsOf, Gap, AreTokens;
      SymbolSticks(t, k, c);
      assert c != ' ' && c != '\n' by { NoLayoutPairs(t, c); }
      FollowedBy(ps, i);
    }
  }

  lemma {:induction false} NoLayoutPairs(t: string, c: char)
    requires |t| == 1 && (t + [c] in PAIRS || t + [c] == "//" || t + [c] == "/*")
    ensures c != ' ' && c != '\n'
  {
    assert (t + [c])[1] == c;
  }

  lemma {:induction false} KindsOf(t: string, k: Kind)
    requires Whole(t, k)
    ensures IsSpacing(k) || IsRun(k) || k.Symbol? || k.Invalid? || k.Quoted? || k.BlockComment?
  {
  }

  /** What follows a piece: layout, or the piece after it. */
  lemma {:induction false} FollowedBy(ps: seq<Piece>, i: nat)
    requires AreTokens(ps) && i < |ps|
    ensures
      var c := Tail(ps, i + 1)[0];
      if i + 1 == |ps| then c == '\n'
      else if Gap(ps, i + 1) != "" then c == Gap(ps, i + 1)[0] && (c == ' ' || c == '\n')
      else ps[i + 1].text != "" && c == ps[i + 1].text[0]
  {
    if i + 1 < |ps| {
      GapIs(ps, i + 1);
      TailNext(ps, i + 1);
      assert Whole(ps[i + 1].text, ps[i + 1].kind);
      hide Tail, Gap, TokenAt, Steps;
    }
  }

  lemma {:induction false} MarksIn(s: Text, tree: Tree, i: nat)
    requires i < |PiecesIn(s, tree)|
    ensures var p := PiecesIn(s, tree)[i]; !p.kind.Symbol? ==> !p.unary && p.angle == NoAngle
  {
    TokensInText(s, Tokens(s, 0));
    hide Tokens;
    MarksOnSymbols(s, Tokens(s, 0), tree, |Tokens(s, 0)|, i);
  }

  lemma {:induction false} RunNotGlued(s: Text, tree: Tree, i: nat)
    requires i < |PiecesIn(s, tree)| && IsRun(PiecesIn(s, tree)[i].kind)
    ensures !Glued(PiecesIn(s, tree), i)
  {
    hide PiecesIn, TokenAt, Sticks, Gap, Tail, Whole, Units, UnitsOf;
    var ps := PiecesIn(s, tree);
    MarksIn(s, tree, i);
    SourcePieces(s, tree);
    var p := ps[i];
    assert Whole(p.text, p.kind);
    FollowedBy(ps, i);
    WordSticks(p.text, p.kind, Tail(ps, i + 1)[0]);
    if i + 1 < |ps| {
      MarksIn(s, tree, i + 1);
      var q := ps[i + 1];
      assert Whole(q.text, q.kind);
      RunShape(q.text, q.kind);
      if p.kind.LineComment? { CommentThenBreak(s, ps, i); }
      if p.kind.LineComment? || IsPlainWord(q.kind) { GapAfterRun(ps, i); }
    }
  }

  lemma {:induction false} CommentThenBreak(s: Text, ps: seq<Piece>, i: nat)
    requires UnitsOf(ps) == Units(s, 0) && i + 1 < |ps| && ps[i].kind.LineComment?
    ensures ps[i + 1].newlines > 0
  {
    hide Units;
    assert UnitsOf(ps)[i].kind == ps[i].kind && UnitsOf(ps)[i + 1].newlines == ps[i + 1].newlines;
    BreakAfterComment(s, 0, i);
  }

  lemma {:induction false} GluedTokens()
    ensures Tokens("- >", 0) == [Token(Symbol, 0, 1), Token(Whitespace, 1, 2), Token(Symbol, 2, 3), Token(Eof, 3, 3)]
  {
    var s := "- >";
    assert s[0..2] == "- " && "- " !in PAIRS by { assert "- "[1] == ' '; }
    assert TokenAt(s, 0) == Token(Symbol, 0, 1);
    assert BlankEnd(s, 2) == 2;
    assert TokenAt(s, 1) == Token(Whitespace, 1, 2);
    assert TokenAt(s, 2) == Token(Symbol, 2, 3);
    hide TokenAt, Tiles;
    assert Tokens(s, 3) == [Token(Eof, 3, 3)];
    assert Tokens(s, 2) == [Token(Symbol, 2, 3)] + Tokens(s, 3);
    assert Tokens(s, 1) == [Token(Whitespace, 1, 2)] + Tokens(s, 2);
  }

  lemma {:induction false} GluedPieces() returns (ps: seq<Piece>)
    ensures ps == PiecesIn("- >", Tree({}, []))
    ensures ps == [Piece(Symbol, "-", false, NoAngle, 0), Piece(Symbol, ">", false, Delimiter, 0)]
  {
    hide TokenAt, Tokens;
    var s, tree := "- >", Tree({}, []);
    GluedTokens();
    var ts := Tokens(s, 0);
    TokensInText(s, ts);
    ps := [Piece(Symbol, "-", false, NoAngle, 0), Piece(Symbol, ">", false, Delimiter, 0)];
    assert TextOf(s, ts[0]) == "-" && TextOf(s, ts[2]) == ">";
    assert PiecesOf(s, ts, tree, 1).0 == [ps[0]];
    assert PiecesOf(s, ts, tree, 2).0 == [ps[0]];
    assert PiecesOf(s, ts, tree, 3).0 == ps;
  }

  lemma {:induction false} SingleWhole()
    ensures Whole("-", Symbol)
  {
    hide BlankEnd, WordEnd, DigitsEnd, LineEnd, QuotedEnd, CommentEnd, KEYWORDS;
  }

  lemma {:induction false} FirstOut(p: Piece)
    requires p.newlines == 0
    ensures Steps(START, [p]).out == p.text && Steps(START, [p]).previous == Some(p)
  {
    assert [p][..0] == [];
    assert LineDepth(START, p) == 0;
    hide LineDepth;
    assert Before(START, p) == "";
    hide Before;
  }

  lemma {:induction false} NoSpaceBefore(ps: seq<Piece>)
    requires ps == [Piece(Symbol, "-", false, NoAngle, 0), Piece(Symbol, ">", false, Delimiter, 0)]
    ensures Tail(ps, 1)[0] == '>'
  {
    assert ps[..1] == [ps[0]];
    assert !NeedsSpace(ps[0], ps[1]);
    hide NeedsSpace, Steps;
    FirstOut(ps[0]);
    assert Before(Steps(START, [ps[0]]), ps[1]) == "-";
    hide Before;
    assert Gap(ps, 1) == "";
  }

  /** A minus sign and an angle bracket that is no comparison are written without a space, and
      read back as an arrow. */
  lemma {:induction false} TokensGlue() returns (s: Text, tree: Tree)
    ensures !SameTokens(s, Render(PiecesIn(s, tree)))
  {
    hide TokenAt, PiecesIn, SameTokens, Render, Tail, Sticks;
    s, tree := "- >", Tree({}, []);
    var ps := GluedPieces();
    NoSpaceBefore(ps);
    SingleWhole();
    SymbolSticks("-", Symbol, '>');
    assert "-" + ['>'] == "->";
    assert Glued(ps, 0);
    RenderingKeepsTokens(s, tree);
  }
}
