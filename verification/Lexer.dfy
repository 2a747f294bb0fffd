/** The lexer: a cursor over the source bytes, and tokens that cover all of them. */
module Lexer {

  /** One character stands for one source byte. */
  type Text = string

  datatype Kind =
    | Whitespace | Newline | LineComment | BlockComment
    | Identifier | Keyword | Integer | Quoted | Symbol | Invalid | Eof

  datatype Token = Token(kind: Kind, start: nat, end: nat)

  predicate IsTrivia(k: Kind) {
    k.Whitespace? || k.Newline? || k.LineComment? || k.BlockComment?
  }

  predicate IsBlank(c: char) { c == ' ' || c == '\t' }

  predicate IsBreak(c: char) { c == '\n' || c == '\r' }

  predicate IsDigit(c: char) { '0' <= c <= '9' }

  predicate StartsWord(c: char) { c == '_' || 'a' <= c <= 'z' || 'A' <= c <= 'Z' }

  predicate ContinuesWord(c: char) { StartsWord(c) || IsDigit(c) }

  const KEYWORDS: set<string> := {
    "module", "edition", "use", "public", "private", "record", "enum", "type", "distinct", "refined", "where", "open",
    "capability", "trait", "implementation", "for", "function", "borrow", "inout", "test", "region", "modify", "effects",
    "requires", "ensures", "pure", "require", "panic", "unreachable", "because", "let", "var", "return", "if", "else",
    "match", "handle", "with", "true", "false", "loop", "while", "invariant", "decreases", "break", "continue" }

  const PAIRS: set<string> := { "+=", "*=", "%=", "/=", "->", "-=", "==", "=>", "!=", "<=", ">=", "&&", "||" }

  const SINGLES: set<char> := { '(', ')', '{', '}', '[', ']', '+', '*', '%', '.', ',', ':', '@', '?', '/', '-', '=', '!', '<', '>' }

  // ------------------------------------------------------- where the parts end

  function BlankEnd(s: Text, i: nat): (e: nat)
    requires i <= |s|
    ensures i <= e <= |s| && (forall k :: i <= k < e ==> IsBlank(s[k])) && (e < |s| ==> !IsBlank(s[e]))
    decreases |s| - i
  {
    if i < |s| && IsBlank(s[i]) then BlankEnd(s, i + 1) else i
  }

  function WordEnd(s: Text, i: nat): (e: nat)
    requires i <= |s|
    ensures i <= e <= |s| && (forall k :: i <= k < e ==> ContinuesWord(s[k])) && (e < |s| ==> !ContinuesWord(s[e]))
    decreases |s| - i
  {
    if i < |s| && ContinuesWord(s[i]) then WordEnd(s, i + 1) else i
  }

  function DigitsEnd(s: Text, i: nat): (e: nat)
    requires i <= |s|
    ensures i <= e <= |s| && (forall k :: i <= k < e ==> IsDigit(s[k]) || s[k] == '_') && (e < |s| ==> !IsDigit(s[e]) && s[e] != '_')
    decreases |s| - i
  {
    if i < |s| && (IsDigit(s[i]) || s[i] == '_') then DigitsEnd(s, i + 1) else i
  }

  function LineEnd(s: Text, i: nat): (e: nat)
    requires i <= |s|
    ensures i <= e <= |s| && (forall k :: i <= k < e ==> !IsBreak(s[k])) && (e < |s| ==> IsBreak(s[e]))
    decreases |s| - i
  {
    if i < |s| && !IsBreak(s[i]) then LineEnd(s, i + 1) else i
  }

  /** After an opening quote: past the closing quote, or at a line break or the end. */
  function QuotedEnd(s: Text, i: nat): (e: nat)
    requires i <= |s|
    ensures i <= e <= |s|
    decreases |s| - i
  {
    if i == |s| then i
    else if s[i] == '"' then i + 1
    else if IsBreak(s[i]) then i
    else if s[i] == '\\' && i + 1 < |s| then QuotedEnd(s, i + 2)
    else QuotedEnd(s, i + 1)
  }

  predicate Opens(s: Text, i: nat) { i + 1 < |s| && s[i] == '/' && s[i + 1] == '*' }

  predicate Closes(s: Text, i: nat) { i + 1 < |s| && s[i] == '*' && s[i + 1] == '/' }

  /** Inside nested block comments: past the outermost close, or at the end. */
  function CommentEnd(s: Text, i: nat, depth: nat): (e: nat)
    requires i <= |s|
    ensures i <= e <= |s|
    decreases |s| - i
  {
    if i == |s| || depth == 0 then i
    else if Opens(s, i) then CommentEnd(s, i + 2, depth + 1)
    else if Closes(s, i) then CommentEnd(s, i + 2, depth - 1)
    else CommentEnd(s, i + 1, depth)
  }

  /** After an opening quote: the literal is closed before its line ends. */
  predicate QuotedCloses(s: Text, i: nat)
    requires i <= |s|
    decreases |s| - i
  {
    i < |s|
    && (s[i] == '"'
        || (!IsBreak(s[i]) && if s[i] == '\\' && i + 1 < |s| then QuotedCloses(s, i + 2) else QuotedCloses(s, i + 1)))
  }

  /** Inside nested block comments: every one of them is closed. */
  predicate CommentCloses(s: Text, i: nat, depth: nat)
    requires i <= |s|
    decreases |s| - i
  {
    if depth == 0 then true
    else if i == |s| then false
    else if Opens(s, i) then CommentCloses(s, i + 2, depth + 1)
    else if Closes(s, i) then CommentCloses(s, i + 2, depth - 1)
    else CommentCloses(s, i + 1, depth)
  }

  function BreakEnd(s: Text, i: nat): (e: nat)
    requires i < |s| && IsBreak(s[i])
    ensures i < e <= |s| && forall k :: i <= k < e ==> IsBreak(s[k])
  {
    if s[i] == '\r' && i + 1 < |s| && s[i + 1] == '\n' then i + 2 else i + 1
  }

  // ------------------------------------------------------------------------ tokens

  /** The token that starts at i. */
  function TokenAt(s: Text, i: nat): (t: Token)
    requires i < |s|
    ensures t.start == i < t.end <= |s| && !t.kind.Eof?
  {
    var c := s[i];
    if IsBlank(c) then Token(Whitespace, i, BlankEnd(s, i + 1))
    else if IsBreak(c) then Token(Newline, i, BreakEnd(s, i))
    else if StartsWord(c) then
      var e := WordEnd(s, i + 1);
      Token(if s[i..e] in KEYWORDS then Keyword else Identifier, i, e)
    else if IsDigit(c) then Token(Integer, i, DigitsEnd(s, i + 1))
    else if c == '"' then Token(Quoted, i, QuotedEnd(s, i + 1))
    else if c == '/' && i + 1 < |s| && s[i + 1] == '/' then Token(LineComment, i, LineEnd(s, i + 2))
    else if Opens(s, i) then Token(BlockComment, i, CommentEnd(s, i + 2, 1))
    else if i + 1 < |s| && s[i..i + 2] in PAIRS then Token(Symbol, i, i + 2)
    else if c in SINGLES then Token(Symbol, i, i + 1)
    else Token(Invalid, i, i + 1)
  }

  /** The first characters of a token decide its kind. */
  lemma {:induction false} KindDecided(s: Text, i: nat)
    requires i < |s|
    ensures
      var t, c := TokenAt(s, i), s[i];
      var slashed := i + 1 < |s| && c == '/' && (s[i + 1] == '/' || s[i + 1] == '*');
      && (t.kind.Whitespace? <==> c == ' ' || c == '\t')
      && (t.kind.Newline? <==> c == '\n' || c == '\r')
      && (t.kind.Identifier? || t.kind.Keyword? <==> c == '_' || 'a' <= c <= 'z' || 'A' <= c <= 'Z')
      && (t.kind.Integer? <==> '0' <= c <= '9')
      && (t.kind.Quoted? <==> c == '"')
      && (t.kind.LineComment? <==> slashed && s[i + 1] == '/')
      && (t.kind.BlockComment? <==> slashed && s[i + 1] == '*')
      && (t.kind.Symbol? <==> !slashed && (c in SINGLES || (i + 1 < |s| && (s[i..i + 2] == "&&" || s[i..i + 2] == "||"))))
  {
    hide BlankEnd, WordEnd, DigitsEnd, LineEnd, QuotedEnd, CommentEnd, KEYWORDS;
    if i + 1 < |s| {
      var two := s[i..i + 2];
      assert two[0] == s[i] && two[1] == s[i + 1] && two == [s[i], s[i + 1]];
    }
  }

  /** Words are keywords by their text; and a symbol is as long as it can be. */
  lemma {:induction false} TextDecided(s: Text, i: nat)
    requires i < |s|
    ensures
      var t := TokenAt(s, i);
      var text := TextOf(s, t);
      && (t.kind.Keyword? ==> text in KEYWORDS) && (t.kind.Identifier? ==> text !in KEYWORDS)
      && (t.kind.Symbol? <==> text in PAIRS || (|text| == 1 && text[0] in SINGLES))
      && (t.kind.Symbol? || t.kind.Invalid? ==> (|text| == 2 <==> i + 1 < |s| && s[i..i + 2] in PAIRS))
  {
    hide BlankEnd, WordEnd, DigitsEnd, LineEnd, QuotedEnd, CommentEnd;
    var t := TokenAt(s, i);
    assert TextOf(s, t)[0] == s[i];
    if i + 1 < |s| { assert s[i..i + 2][0] == s[i] && s[i..i + 2][1] == s[i + 1]; }
    if t.end == i + 1 { assert TextOf(s, t) == [s[i]]; }
  }

  /** All tokens from i, with the end token at the length of the text. */
  function Tokens(s: Text, i: nat): (ts: seq<Token>)
    requires i <= |s|
    ensures Tiles(s, i, ts)
    decreases |s| - i
  {
    if i == |s| then [Token(Eof, i, i)]
    else
      var t := TokenAt(s, i);
      var rest := Tokens(s, t.end);
      TilesCons(s, t, rest);
      [t] + rest
  }

  /** The tokens lie end to end from i to the end of the text. */
  predicate Tiles(s: Text, i: nat, ts: seq<Token>) {
    && |ts| > 0 && ts[0].start == i
    && (forall k :: 0 <= k < |ts| - 1 ==> ts[k].start < ts[k].end == ts[k + 1].start && ts[k].end <= |s| && !ts[k].kind.Eof?)
    && ts[|ts| - 1] == Token(Eof, |s|, |s|)
  }

  lemma {:induction false} TilesCons(s: Text, t: Token, rest: seq<Token>)
    requires Tiles(s, t.end, rest) && t.start < t.end <= |s| && !t.kind.Eof?
    ensures Tiles(s, t.start, [t] + rest)
  {
    var ts := [t] + rest;
    forall k | 0 <= k < |ts| - 1 ensures ts[k].start < ts[k].end == ts[k + 1].start && ts[k].end <= |s| && !ts[k].kind.Eof? {
      if k > 0 { assert ts[k] == rest[k - 1] && ts[k + 1] == rest[k]; }
    }
  }

  function TextOf(s: Text, t: Token): Text
    requires t.start <= t.end <= |s|
  {
    s[t.start..t.end]
  }

  function Concat(s: Text, ts: seq<Token>): Text
    requires forall k :: 0 <= k < |ts| ==> ts[k].start <= ts[k].end <= |s|
  {
    if ts == [] then "" else TextOf(s, ts[0]) + Concat(s, ts[1..])
  }

  /** Nothing is lost: the texts of the tokens, in order, are the source. */
  lemma {:induction false} Lossless(s: Text, i: nat, ts: seq<Token>)
    requires i <= |s| && Tiles(s, i, ts)
    ensures forall k :: 0 <= k < |ts| ==> ts[k].start <= ts[k].end <= |s|
    ensures Concat(s, ts) == s[i..]
    decreases |ts|
  {
    if |ts| > 1 {
      assert ts[1..][0] == ts[1] && forall k :: 0 <= k < |ts| - 1 ==> ts[1..][k] == ts[k + 1];
      assert ts[0].end == ts[1].start;
      Lossless(s, ts[0].end, ts[1..]);
      assert s[i..] == s[i..ts[0].end] + s[ts[0].end..];
    } else {
      assert ts[1..] == [];
      assert Concat(s, ts[1..]) == "";
    }
  }

  /** The lexer reports nothing about the token: no invalid byte, no open literal or comment. */
  predicate CleanToken(s: Text, t: Token) {
    && !t.kind.Invalid?
    && (t.kind.Quoted? ==> t.start + 1 <= |s| && QuotedCloses(s, t.start + 1))
    && (t.kind.BlockComment? ==> t.start + 2 <= |s| && CommentCloses(s, t.start + 2, 1))
  }

  predicate LexesCleanly(s: Text) {
    forall k :: 0 <= k < |Tokens(s, 0)| ==> CleanToken(s, Tokens(s, 0)[k])
  }

  // ---------------------------------------------------------------------- the loops

  method SkipWord(s: Text, start: nat) returns (e: nat)
    requires start <= |s|
    ensures e == WordEnd(s, start)
  {
    e := start;
    while e < |s| && ContinuesWord(s[e])
      invariant start <= e <= |s| && WordEnd(s, start) == WordEnd(s, e)
    {
      e := e + 1;
    }
  }

  method SkipBlanks(s: Text, start: nat) returns (e: nat)
    requires start <= |s|
    ensures e == BlankEnd(s, start)
  {
    e := start;
    while e < |s| && IsBlank(s[e])
      invariant start <= e <= |s| && BlankEnd(s, start) == BlankEnd(s, e)
    {
      e := e + 1;
    }
  }

  method SkipDigits(s: Text, start: nat) returns (e: nat)
    requires start <= |s|
    ensures e == DigitsEnd(s, start)
  {
    e := start;
    while e < |s| && (IsDigit(s[e]) || s[e] == '_')
      invariant start <= e <= |s| && DigitsEnd(s, start) == DigitsEnd(s, e)
    {
      e := e + 1;
    }
  }

  method SkipLine(s: Text, start: nat) returns (e: nat)
    requires start <= |s|
    ensures e == LineEnd(s, start)
  {
    e := start;
    while e < |s| && !IsBreak(s[e])
      invariant start <= e <= |s| && LineEnd(s, start) == LineEnd(s, e)
    {
      e := e + 1;
    }
  }

  /** A string literal; terminated tells whether its closing quote was found. */
  method SkipQuoted(s: Text, start: nat) returns (e: nat, terminated: bool)
    requires start <= |s|
    ensures e == QuotedEnd(s, start) && (terminated <==> QuotedCloses(s, start))
    ensures terminated ==> start < e && s[e - 1] == '"'
    ensures !terminated ==> e == |s| || IsBreak(s[e])
  {
    e, terminated := start, false;
    while e < |s|
      invariant start <= e <= |s| && QuotedEnd(s, start) == QuotedEnd(s, e) && !terminated
      invariant QuotedCloses(s, start) <==> QuotedCloses(s, e)
    {
      if s[e] == '"' {
        return e + 1, true;
      } else if IsBreak(s[e]) {
        return;
      } else if s[e] == '\\' && e + 1 < |s| {
        e := e + 2;
      } else {
        e := e + 1;
      }
    }
  }

  /** A block comment, counting nested openings; depth 0 means that it was closed. */
  method SkipComment(s: Text, start: nat) returns (e: nat, depth: nat)
    requires start <= |s|
    ensures e == CommentEnd(s, start, 1) && (depth == 0 <==> CommentCloses(s, start, 1))
    ensures depth > 0 ==> e == |s|
    ensures depth == 0 ==> start + 2 <= e && s[e - 2..e] == "*/"
  {
    e, depth := start, 1;
    while e < |s| && depth > 0
      invariant start <= e <= |s| && CommentEnd(s, start, 1) == CommentEnd(s, e, depth)
      invariant CommentCloses(s, start, 1) <==> CommentCloses(s, e, depth)
      invariant depth == 0 ==> start + 2 <= e && s[e - 2..e] == "*/"
    {
      if e + 1 < |s| && s[e] == '/' && s[e + 1] == '*' {
        depth, e := depth + 1, e + 2;
      } else if e + 1 < |s| && s[e] == '*' && s[e + 1] == '/' {
        depth, e := depth - 1, e + 2;
      } else {
        e := e + 1;
      }
    }
  }

  method NextToken(s: Text, i: nat) returns (t: Token)
    requires i < |s|
    ensures t == TokenAt(s, i)
  {
    hide BlankEnd, WordEnd, DigitsEnd, LineEnd, QuotedEnd, CommentEnd;
    var c := s[i];
    var e: nat;
    if IsBlank(c) {
      e := SkipBlanks(s, i + 1);
      t := Token(Whitespace, i, e);
    } else if IsBreak(c) {
      t := Token(Newline, i, if c == '\r' && i + 1 < |s| && s[i + 1] == '\n' then i + 2 else i + 1);
    } else if StartsWord(c) {
      e := SkipWord(s, i + 1);
      t := Token(if s[i..e] in KEYWORDS then Keyword else Identifier, i, e);
    } else if IsDigit(c) {
      e := SkipDigits(s, i + 1);
      t := Token(Integer, i, e);
    } else if c == '"' {
      var terminated;
      e, terminated := SkipQuoted(s, i + 1);
      t := Token(Quoted, i, e);
    } else if c == '/' && i + 1 < |s| && s[i + 1] == '/' {
      e := SkipLine(s, i + 2);
      t := Token(LineComment, i, e);
    } else if c == '/' && i + 1 < |s| && s[i + 1] == '*' {
      var depth;
      e, depth := SkipComment(s, i + 2);
      t := Token(BlockComment, i, e);
    } else if i + 1 < |s| && s[i..i + 2] in PAIRS {
      t := Token(Symbol, i, i + 2);
    } else if c in SINGLES {
      t := Token(Symbol, i, i + 1);
    } else {
      t := Token(Invalid, i, i + 1);
    }
  }

  /** The lexer: for every text, its tokens tile the text. */
  method Lex(s: Text) returns (tokens: seq<Token>)
    ensures tokens == Tokens(s, 0) && Tiles(s, 0, tokens)
  {
    hide TokenAt, Tiles;
    tokens := [];
    var cursor := 0;
    while cursor < |s|
      invariant 0 <= cursor <= |s| && tokens + Tokens(s, cursor) == Tokens(s, 0)
      decreases |s| - cursor
    {
      var t := NextToken(s, cursor);
      ghost var rest := Tokens(s, t.end);
      assert Tokens(s, cursor) == [t] + rest;
      assert tokens + ([t] + rest) == (tokens + [t]) + rest;
      tokens := tokens + [t];
      cursor := t.end;
    }
    tokens := tokens + [Token(Eof, |s|, |s|)];
  }
}
