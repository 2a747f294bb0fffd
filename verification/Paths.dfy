/** Paths as spans of source text: the reader that skips layout and comments, what it
    yields on spans made of tokens, and the comparisons built on it. */
module Paths {
  import opened Lexer

  datatype Span = Span(start: nat, end: nat)

  predicate SpanIn(s: Text, p: Span) { p.start <= p.end <= |s| }

  // ---------------------------------------------------------------- the normal form

  predicate IsLayout(c: char) { IsBlank(c) || IsBreak(c) }

  predicate OpensLine(s: Text, i: nat) { i + 1 < |s| && s[i] == '/' && s[i + 1] == '/' }

  /** What is left of s from i once blanks, line breaks and comments are dropped. */
  function Strip(s: Text, i: nat): string
    requires i <= |s|
    decreases |s| - i
  {
    if i == |s| then ""
    else if IsLayout(s[i]) then Strip(s, i + 1)
    else if OpensLine(s, i) then Strip(s, LineEnd(s, i + 2))
    else if Opens(s, i) then Strip(s, CommentEnd(s, i + 2, 1))
    else [s[i]] + Strip(s, i + 1)
  }

  /** The normal form of a path: nothing beyond the end of its span is looked at. */
  function Normal(s: Text, p: Span): string
    requires SpanIn(s, p)
  {
    Strip(s[..p.end], p.start)
  }

  // ---------------------------------------------------------------------- reading

  /** The reader: the next byte of the normal form, or -1 at the end of the span. */
  method NextByte(s: Text, end: nat, start: nat) returns (byte: int, cursor: nat)
    requires start <= end <= |s|
    ensures start <= cursor <= end && -1 <= byte
    ensures byte < 0 <==> Strip(s[..end], start) == ""
    ensures byte >= 0 ==> start < cursor && Strip(s[..end], start) == [s[cursor - 1]] + Strip(s[..end], cursor) && byte == s[cursor - 1] as int
  {
    var t := s[..end];
    cursor := start;
    while cursor < end
      invariant start <= cursor <= end && Strip(t, start) == Strip(t, cursor)
      decreases end - cursor
    {
      assert t[cursor] == s[cursor];
      if IsLayout(s[cursor]) {
        cursor := cursor + 1;
      } else if s[cursor] == '/' && cursor + 1 < end && s[cursor + 1] == '/' {
        cursor := SkipLine(t, cursor + 2);
      } else if s[cursor] == '/' && cursor + 1 < end && s[cursor + 1] == '*' {
        var depth;
        cursor, depth := SkipComment(t, cursor + 2);
      } else {
        return s[cursor] as int, cursor + 1;
      }
    }
    byte := -1;
  }

  /** Equality of two path spans is equality of their normal forms. */
  method SpanEqual(s: Text, left: Span, right: Span) returns (equal: bool)
    requires SpanIn(s, left) && SpanIn(s, right)
    ensures equal <==> Normal(s, left) == Normal(s, right)
  {
    hide Strip;
    var i, j := left.start, right.start;
    ghost var x, y := s[..left.end], s[..right.end];
    while true
      invariant left.start <= i <= left.end && right.start <= j <= right.end
      invariant Strip(x, left.start) == Strip(y, right.start) <==> Strip(x, i) == Strip(y, j)
      decreases left.end - i
    {
      var a, b;
      ghost var i0, j0 := i, j;
      a, i := NextByte(s, left.end, i);
      b, j := NextByte(s, right.end, j);
      if a >= 0 { HeadTail(s[i - 1], Strip(x, i), Strip(y, j0)); }
      if a != b { return false; }
      if a < 0 { return true; }
      SameHead(s[i - 1], s[j - 1], Strip(x, i), Strip(y, j));
    }
  }

  lemma {:induction false} HeadTail(c: char, rest: string, t: string)
    ensures [c] + rest == t ==> t != "" && t[0] == c
  {
  }

  lemma {:induction false} SameHead(c: char, d: char, x: string, y: string)
    requires c == d
    ensures [c] + x == [d] + y <==> x == y
  {
    if [c] + x == [d] + y { assert ([c] + x)[1..] == x && ([d] + y)[1..] == y; }
  }

  /** Reads one span against another: on success the second is left past a normal form
      that starts with the first. */
  method ReadsPrefix(s: Text, prefix: Span, path: Span, from: nat) returns (ok: bool, cursor: nat)
    requires SpanIn(s, prefix) && SpanIn(s, path) && path.start <= from <= path.end
    ensures from <= cursor <= path.end
    ensures ok <==> Normal(s, prefix) <= Strip(s[..path.end], from)
    ensures ok ==> Strip(s[..path.end], from) == Normal(s, prefix) + Strip(s[..path.end], cursor)
  {
    hide Strip;
    ghost var x, y := s[..prefix.end], s[..path.end];
    var i := prefix.start;
    cursor := from;
    ghost var seen := "";
    while true
      invariant prefix.start <= i <= prefix.end && from <= cursor <= path.end
      invariant Normal(s, prefix) == seen + Strip(x, i) && Strip(y, from) == seen + Strip(y, cursor)
      decreases prefix.end - i
    {
      var a, b;
      ghost var i0, cursor0 := i, cursor;
      a, i := NextByte(s, prefix.end, i);
      if a < 0 {
        assert seen + Strip(x, i0) == seen;
        return true, cursor;
      }
      b, cursor := NextByte(s, path.end, cursor);
      if a != b {
        Mismatch(seen, s[i - 1], Strip(x, i), Strip(y, cursor0));
        return false, cursor;
      }
      assert seen + ([s[i - 1]] + Strip(x, i)) == (seen + [s[i - 1]]) + Strip(x, i);
      assert seen + ([s[i - 1]] + Strip(y, cursor)) == (seen + [s[i - 1]]) + Strip(y, cursor);
      seen := seen + [s[i - 1]];
    }
  }

  lemma {:induction false} Mismatch(seen: string, c: char, x: string, y: string)
    requires y == "" || y[0] != c
    ensures !(seen + ([c] + x) <= seen + y)
  {
    assert (seen + ([c] + x))[|seen|] == c;
    assert y != "" ==> (seen + y)[|seen|] == y[0];
  }

  /** A path names a declaration of a module. */
  method JoinEqual(s: Text, moduleName: Span, declaration: Span, path: Span) returns (equal: bool)
    requires SpanIn(s, moduleName) && SpanIn(s, declaration) && SpanIn(s, path)
    ensures equal <==> Normal(s, path) == Normal(s, moduleName) + "." + Normal(s, declaration)
  {
    hide Strip;
    var ok, cursor := ReadsPrefix(s, moduleName, path, path.start);
    ghost var whole, m, d := Normal(s, path), Normal(s, moduleName), Normal(s, declaration);
    if !ok { PrefixNeeded(whole, m, "." + d); return false; }
    var dot, after := NextByte(s, path.end, cursor);
    ghost var tail := Strip(s[..path.end], cursor);
    AfterPrefix(whole, m, tail, "." + d);
    assert m + "." + d == m + ("." + d);
    HeadTail('.', d, tail);
    if dot != '.' as int { return false; }
    var rest := Strip(s[..path.end], after);
    SameHead('.', '.', rest, d);
    ok, cursor := ReadsPrefix(s, declaration, path, after);
    if !ok { assert rest != d; return false; }
    var last, end := NextByte(s, path.end, cursor);
    AfterPrefix(rest, d, Strip(s[..path.end], cursor), "");
    equal := last < 0;
  }

  lemma {:induction false} PrefixNeeded(whole: string, m: string, rest: string)
    requires !(m <= whole)
    ensures whole != m + rest
  {
  }

  lemma {:induction false} AfterPrefix(whole: string, m: string, tail: string, rest: string)
    requires whole == m + tail
    ensures whole == m + rest <==> tail == rest
  {
    assert (m + tail)[|m|..] == tail && (m + rest)[|m|..] == rest;
  }

  ghost predicate NamesIn(m: string, whole: string) {
    exists name :: name != "" && '.' !in name && whole == m + "." + name
  }

  /** A path names something directly inside a module. */
  method ModuleEqual(s: Text, moduleName: Span, path: Span) returns (equal: bool)
    requires SpanIn(s, moduleName) && SpanIn(s, path)
    ensures equal <==> NamesIn(Normal(s, moduleName), Normal(s, path))
  {
    hide Strip;
    ghost var whole, m := Normal(s, path), Normal(s, moduleName);
    ghost var y := s[..path.end];
    var ok, cursor := ReadsPrefix(s, moduleName, path, path.start);
    if !ok {
      forall name ensures whole != m + "." + name { PrefixNeeded(whole, m, "." + name); assert m + "." + name == m + ("." + name); }
      return false;
    }
    var byte, after := NextByte(s, path.end, cursor);
    ghost var tail := Strip(y, cursor);
    forall name ensures whole == m + "." + name <==> tail == "." + name {
      AfterPrefix(whole, m, tail, "." + name);
      assert m + "." + name == m + ("." + name);
    }
    forall name ensures tail == "." + name ==> tail != "" && tail[0] == '.' { HeadTail('.', name, tail); }
    if byte != '.' as int { return false; }
    ghost var rest := Strip(y, after);
    forall name ensures tail == "." + name <==> rest == name { SameHead('.', '.', rest, name); }
    var named := false;
    cursor := after;
    ghost var seen := "";
    while true
      invariant after <= cursor <= path.end && rest == seen + Strip(y, cursor)
      invariant '.' !in seen && (named <==> seen != "")
      decreases path.end - cursor
    {
      ghost var cursor0 := cursor;
      byte, cursor := NextByte(s, path.end, cursor);
      if byte < 0 {
        assert rest == seen;
        return named;
      }
      assert seen + ([s[cursor - 1]] + Strip(y, cursor)) == (seen + [s[cursor - 1]]) + Strip(y, cursor);
      seen := seen + [s[cursor - 1]];
      if byte == '.' as int {
        assert seen[|seen| - 1] == '.' && rest[|seen| - 1] == '.';
        return false;
      }
      named := true;
    }
  }

  /** The part of a path after its last dot. */
  method FinalComponent(s: Text, path: Span) returns (p: Span)
    requires SpanIn(s, path)
    ensures SpanIn(s, p) && p.end == path.end && '.' !in Normal(s, p)
    ensures exists m :: Normal(s, path) == m + Normal(s, p) && (m == "" || m[|m| - 1] == '.')
  {
    hide Strip;
    ghost var y := s[..path.end];
    var cursor, component := path.start, path.start;
    ghost var before, seen := "", "";
    while true
      invariant path.start <= component <= cursor <= path.end
      invariant Strip(y, component) == seen + Strip(y, cursor) && '.' !in seen
      invariant Normal(s, path) == before + Strip(y, component) && (before == "" || before[|before| - 1] == '.')
      decreases path.end - cursor
    {
      var byte;
      byte, cursor := NextByte(s, path.end, cursor);
      if byte < 0 {
        p := Span(component, path.end);
        assert Normal(s, p) == seen;
        assert Normal(s, path) == before + Normal(s, p);
        return;
      }
      assert seen + ([s[cursor - 1]] + Strip(y, cursor)) == (seen + [s[cursor - 1]]) + Strip(y, cursor);
      seen := seen + [s[cursor - 1]];
      if byte == '.' as int {
        assert before + (seen + Strip(y, cursor)) == (before + seen) + Strip(y, cursor);
        before, seen, component := before + seen, "", cursor;
      }
    }
  }

  // ---------------------------------------------------------------------- identity

  datatype SemanticId = SemanticId(high: bv64, low: bv64)

  function HashByte(h: SemanticId, c: char): SemanticId {
    SemanticId((h.high ^ ((c as int) as bv64)) * 1099511628211, (h.low ^ ((c as int) as bv64)) * 14029467366897019727)
  }

  function HashText(h: SemanticId, t: string): SemanticId
    decreases t
  {
    if t == "" then h else HashText(HashByte(h, t[0]), t[1..])
  }

  /** The semantic identity of a path depends on its normal form alone. */
  method HashPath(s: Text, p: Span, h: SemanticId) returns (r: SemanticId)
    requires SpanIn(s, p)
    ensures r == HashByte(HashText(h, Normal(s, p)), 255 as char)
  {
    hide Strip, HashByte;
    r := h;
    var cursor := p.start;
    while true
      invariant p.start <= cursor <= p.end
      invariant HashText(h, Normal(s, p)) == HashText(r, Strip(s[..p.end], cursor))
      decreases p.end - cursor
    {
      var byte;
      ghost var before := Strip(s[..p.end], cursor);
      byte, cursor := NextByte(s, p.end, cursor);
      if byte < 0 {
        return HashByte(r, 255 as char);
      }
      assert before[0] == s[cursor - 1] && before[1..] == Strip(s[..p.end], cursor);
      r := HashByte(r, s[cursor - 1]);
    }
  }

  // ------------------------------------------------------- spans made of tokens

  /** Tokens of a path: names, dots, and layout or comments between them. */
  predicate PathToken(s: Text, t: Token)
    requires t.start <= t.end <= |s|
  {
    IsTrivia(t.kind) || t.kind.Identifier? || t.kind.Keyword? || (t.kind.Symbol? && TextOf(s, t) == ".")
  }

  function VisibleText(s: Text, ts: seq<Token>): string
    requires forall k :: 0 <= k < |ts| ==> ts[k].start <= ts[k].end <= |s|
  {
    if ts == [] then ""
    else (if IsTrivia(ts[0].kind) then "" else TextOf(s, ts[0])) + VisibleText(s, ts[1..])
  }

  /** Consecutive tokens of the text, from i to the end e. */
  ghost predicate Run(s: Text, i: nat, e: nat, ts: seq<Token>) {
    && i <= e <= |s|
    && (ts == [] ==> i == e)
    && (forall k :: 0 <= k < |ts| ==> ts[k].start < |s| && ts[k] == TokenAt(s, ts[k].start) && PathToken(s, ts[k]))
    && (ts != [] ==> ts[0].start == i && ts[|ts| - 1].end == e)
    && (forall k :: 0 <= k < |ts| - 1 ==> ts[k].end == ts[k + 1].start)
  }

  /** On a span of whole tokens the normal form is the text of the names and dots. Nested
      comments count as layout, also where the reader stops at the end of the span. */
  lemma {:induction false} AlignedSpan(s: Text, i: nat, e: nat, ts: seq<Token>)
    requires Run(s, i, e, ts)
    ensures Strip(s[..e], i) == VisibleText(s, ts)
    decreases |ts|
  {
    hide TokenAt;
    if ts != [] {
      var t := ts[0];
      RunTail(s, i, e, ts);
      AlignedSpan(s, t.end, e, ts[1..]);
      AlignedToken(s, i, e, t);
    }
  }

  lemma {:induction false} TokensLexed(s: Text, i: nat, k: nat)
    requires i <= |s| && k < |Tokens(s, i)| - 1
    ensures var t := Tokens(s, i)[k]; t.start < |s| && t == TokenAt(s, t.start)
    decreases |s| - i
  {
    hide TokenAt, Tiles;
    if i < |s| {
      var t := TokenAt(s, i);
      assert Tokens(s, i) == [t] + Tokens(s, t.end);
      if k > 0 { TokensLexed(s, t.end, k - 1); }
    }
  }

  lemma {:induction false} TokenBounds(s: Text, ts: seq<Token>, k: nat)
    requires Tiles(s, 0, ts) && k < |ts|
    ensures ts[k].start <= ts[k].end <= |s| && (k + 1 < |ts| ==> ts[k].end == ts[k + 1].start)
  {
  }

  /** The same for the tokens of the lexer: a span from the start of one token to the end of
      another, with names, dots, layout and comments between, normalises to the text of its
      names and dots. */
  lemma {:induction false} LexedSpan(s: Text, ts: seq<Token>, j: nat, k: nat)
    requires ts == Tokens(s, 0) && j < k < |ts|
    requires forall m :: j <= m < k ==> ts[m].start <= ts[m].end <= |s| && PathToken(s, ts[m])
    ensures ts[j].start <= ts[k - 1].end <= |s| && forall m :: 0 <= m < k - j ==> ts[j..k][m].start <= ts[j..k][m].end <= |s|
    ensures Normal(s, Span(ts[j].start, ts[k - 1].end)) == VisibleText(s, ts[j..k])
  {
    hide TokenAt, Tiles, Tokens, PathToken, Strip, VisibleText;
    var run := ts[j..k];
    forall m | 0 <= m < |run| ensures run[m].start < |s| && run[m] == TokenAt(s, run[m].start) && PathToken(s, run[m]) {
      assert run[m] == ts[j + m];
      TokensLexed(s, 0, j + m);
    }
    forall m | 0 <= m < |run| - 1 ensures run[m].end == run[m + 1].start { TokenBounds(s, ts, j + m); }
    TokenBounds(s, ts, k - 1);
    TailEnds(s, ts[k - 1].end, run, 0);
    AlignedSpan(s, ts[j].start, ts[k - 1].end, run);
  }

  lemma {:induction false} RunTail(s: Text, i: nat, e: nat, ts: seq<Token>)
    requires Run(s, i, e, ts) && ts != []
    ensures i < ts[0].end <= e && Run(s, ts[0].end, e, ts[1..])
    decreases |ts|
  {
    hide TokenAt;
    if |ts| > 1 {
      assert forall k :: 0 <= k < |ts| - 1 ==> ts[1..][k] == ts[k + 1];
      TailEnds(s, e, ts, 1);
    }
  }

  lemma {:induction false} TailEnds(s: Text, e: nat, ts: seq<Token>, k: nat)
    requires k < |ts| && ts[|ts| - 1].end == e
    requires forall j :: 0 <= j < |ts| ==> ts[j].start <= ts[j].end
    requires forall j :: 0 <= j < |ts| - 1 ==> ts[j].end == ts[j + 1].start
    ensures ts[k].start <= e
    decreases |ts| - k
  {
    if k < |ts| - 1 { TailEnds(s, e, ts, k + 1); }
  }

  lemma {:induction false} AlignedToken(s: Text, i: nat, e: nat, t: Token)
    requires i < |s| && t == TokenAt(s, i) && t.end <= e <= |s| && PathToken(s, t)
    ensures Strip(s[..e], i) == (if IsTrivia(t.kind) then "" else TextOf(s, t)) + Strip(s[..e], t.end)
  {
    TokenShape(s, i, t);
    hide Strip, TokenAt, CommentEnd, LineEnd;
    var c := s[..e];
    assert forall k :: i <= k < t.end ==> c[k] == s[k];
    if t.kind.LineComment? {
      LineCut(s, e, i + 2);
      StripLine(c, i);
    } else if t.kind.BlockComment? {
      CommentCut(s, e, i + 2, 1);
      StripComment(c, i);
    } else if IsTrivia(t.kind) {
      SkipsLayout(c, i, t.end);
    } else {
      KeepsPlain(c, i, t.end);
      assert c[i..t.end] == TextOf(s, t);
    }
  }

  ghost predicate Plain(c: char) { !IsLayout(c) && c != '/' }

  /** What the bytes of a path token look like. */
  lemma {:induction false} TokenShape(s: Text, i: nat, t: Token)
    requires i < |s| && t == TokenAt(s, i) && PathToken(s, t)
    ensures t.kind.LineComment? ==> OpensLine(s, i) && t.end == LineEnd(s, i + 2)
    ensures t.kind.BlockComment? ==> Opens(s, i) && t.end == CommentEnd(s, i + 2, 1)
    ensures t.kind.Whitespace? || t.kind.Newline? ==> forall k :: i <= k < t.end ==> IsLayout(s[k])
    ensures !IsTrivia(t.kind) ==> forall k :: i <= k < t.end ==> Plain(s[k])
  {
    if t.kind.Symbol? {
      assert TextOf(s, t)[0] == s[i] && t.end == i + 1;
    }
  }

  lemma {:induction false} StripLine(c: Text, i: nat)
    requires OpensLine(c, i)
    ensures Strip(c, i) == Strip(c, LineEnd(c, i + 2))
  {
  }

  lemma {:induction false} StripComment(c: Text, i: nat)
    requires Opens(c, i)
    ensures Strip(c, i) == Strip(c, CommentEnd(c, i + 2, 1))
  {
  }

  lemma {:induction false} SkipsLayout(c: Text, i: nat, j: nat)
    requires i <= j <= |c| && forall k :: i <= k < j ==> IsLayout(c[k])
    ensures Strip(c, i) == Strip(c, j)
    decreases j - i
  {
    if i < j { SkipsLayout(c, i + 1, j); }
  }

  lemma {:induction false} StripPlain(c: Text, i: nat)
    requires i < |c| && Plain(c[i])
    ensures Strip(c, i) == [c[i]] + Strip(c, i + 1)
  {
  }

  lemma {:induction false} KeepsPlain(c: Text, i: nat, j: nat)
    requires i <= j <= |c| && forall k :: i <= k < j ==> Plain(c[k])
    ensures Strip(c, i) == c[i..j] + Strip(c, j)
    decreases j - i
  {
    hide Strip, Plain;
    if i < j {
      StripPlain(c, i);
      KeepsPlain(c, i + 1, j);
      assert c[i..j] == [c[i]] + c[i + 1..j];
    }
  }

  lemma {:induction false} LineCut(s: Text, e: nat, i: nat)
    requires i <= e <= |s| && LineEnd(s, i) <= e
    ensures LineEnd(s[..e], i) == LineEnd(s, i)
    decreases e - i
  {
    if i < |s| && !IsBreak(s[i]) { LineCut(s, e, i + 1); }
  }

  /** A comment that ends within a span is read the same with the span's end as limit. */
  lemma {:induction false} CommentCut(s: Text, e: nat, i: nat, depth: nat)
    requires i <= e <= |s| && CommentEnd(s, i, depth) <= e
    ensures CommentEnd(s[..e], i, depth) == CommentEnd(s, i, depth)
    decreases e - i
  {
    if i < |s| && depth > 0 {
      if Opens(s, i) { CommentCut(s, e, i + 2, depth + 1); }
      else if Closes(s, i) { CommentCut(s, e, i + 2, depth - 1); }
      else { CommentCut(s, e, i + 1, depth); }
    }
  }
}
