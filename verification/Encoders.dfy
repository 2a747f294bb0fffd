/** The writers of JSON strings and base64 in the inspection format, and the readers that
    undo them. */
module Encoders {
  import opened Options

  type Byte = x: int | 0 <= x < 256

  type Bytes = seq<Byte>

  // ------------------------------------------------- section 3 of RFC 3629, by scalar

  predicate Scalar(c: int) { 0 <= c <= 0x10FFFF && !(0xD800 <= c <= 0xDFFF) }

  function EncodeScalar(c: int): Bytes
    requires Scalar(c)
  {
    if c < 0x80 then [c]
    else if c < 0x800 then [0xC0 + c / 64, 0x80 + c % 64]
    else if c < 0x10000 then [0xE0 + c / 4096, 0x80 + c / 64 % 64, 0x80 + c % 64]
    else [0xF0 + c / 262144, 0x80 + c / 4096 % 64, 0x80 + c / 64 % 64, 0x80 + c % 64]
  }

  function EncodeScalars(cs: seq<int>): Bytes
    requires forall i :: 0 <= i < |cs| ==> Scalar(cs[i])
  {
    if cs == [] then [] else EncodeScalar(cs[0]) + EncodeScalars(cs[1..])
  }

  // ------------------------------------------------------------------- the classifier

  predicate Within(x: int, low: int, high: int) { low <= x <= high }

  /** The length of the well-formed sequence at the start of the text, or 0. */
  function Utf8(s: Bytes): nat
    requires s != []
  {
    var a, n := s[0], |s|;
    if a < 0x80 then 1
    else if n >= 2 && Within(a, 0xC2, 0xDF) && Within(s[1], 0x80, 0xBF) then 2
    else if n >= 3
      && ((a == 0xE0 && Within(s[1], 0xA0, 0xBF)) || (Within(a, 0xE1, 0xEC) && Within(s[1], 0x80, 0xBF))
          || (a == 0xED && Within(s[1], 0x80, 0x9F)) || (Within(a, 0xEE, 0xEF) && Within(s[1], 0x80, 0xBF)))
      && Within(s[2], 0x80, 0xBF) then 3
    else if n >= 4
      && ((a == 0xF0 && Within(s[1], 0x90, 0xBF)) || (Within(a, 0xF1, 0xF3) && Within(s[1], 0x80, 0xBF))
          || (a == 0xF4 && Within(s[1], 0x80, 0x8F)))
      && Within(s[2], 0x80, 0xBF) && Within(s[3], 0x80, 0xBF) then 4
    else 0
  }

  lemma {:induction false} TwoBytes(a: int, b: int) returns (c: int)
    requires Within(a, 0xC2, 0xDF) && Within(b, 0x80, 0xBF)
    ensures Scalar(c) && EncodeScalar(c) == [a, b]
  {
    c := (a - 0xC0) * 64 + (b - 0x80);
    assert c / 64 == a - 0xC0;
  }

  lemma {:induction false} ThreeBytes(a: int, b: int, d: int) returns (c: int)
    requires Within(a, 0xE0, 0xEF) && Within(b, 0x80, 0xBF) && Within(d, 0x80, 0xBF)
    requires (a == 0xE0 ==> b >= 0xA0) && (a == 0xED ==> b <= 0x9F)
    ensures Scalar(c) && EncodeScalar(c) == [a, b, d]
  {
    c := (a - 0xE0) * 4096 + (b - 0x80) * 64 + (d - 0x80);
    assert c / 4096 == a - 0xE0;
    assert c / 64 == (a - 0xE0) * 64 + (b - 0x80);
  }

  lemma {:induction false} FourBytes(a: int, b: int, d: int, e: int) returns (c: int)
    requires Within(a, 0xF0, 0xF4) && Within(b, 0x80, 0xBF) && Within(d, 0x80, 0xBF) && Within(e, 0x80, 0xBF)
    requires (a == 0xF0 ==> b >= 0x90) && (a == 0xF4 ==> b <= 0x8F)
    ensures Scalar(c) && EncodeScalar(c) == [a, b, d, e]
  {
    c := (a - 0xF0) * 262144 + (b - 0x80) * 4096 + (d - 0x80) * 64 + (e - 0x80);
    assert c / 262144 == a - 0xF0;
    assert c / 4096 == (a - 0xF0) * 64 + (b - 0x80);
    assert c / 64 == (a - 0xF0) * 4096 + (b - 0x80) * 64 + (d - 0x80);
  }

  /** What the classifier accepts is the encoding of a scalar value ... */
  lemma {:induction false} ClassifierSound(s: Bytes) returns (c: int)
    requires s != [] && Utf8(s) > 0
    ensures Scalar(c) && Utf8(s) <= |s| && s[..Utf8(s)] == EncodeScalar(c)
  {
    var n := Utf8(s);
    if n == 1 {
      c := s[0];
    } else if n == 2 {
      c := TwoBytes(s[0], s[1]);
    } else if n == 3 {
      c := ThreeBytes(s[0], s[1], s[2]);
    } else {
      c := FourBytes(s[0], s[1], s[2], s[3]);
    }
  }

  /** ... and it accepts every such encoding. */
  lemma {:induction false} ClassifierComplete(s: Bytes, c: int)
    requires Scalar(c) && EncodeScalar(c) <= s
    ensures s != [] && Utf8(s) == |EncodeScalar(c)|
  {
    var e := EncodeScalar(c);
    assert forall i :: 0 <= i < |e| ==> s[i] == e[i];
    if c < 0x80 {
    } else if c < 0x800 {
      assert Within(e[0], 0xC2, 0xDF) && Within(e[1], 0x80, 0xBF);
    } else if c < 0x10000 {
      ThreeByteRanges(c);
    } else {
      FourByteRanges(c);
    }
  }

  lemma {:induction false} ThreeByteRanges(c: int)
    requires Scalar(c) && 0x800 <= c < 0x10000
    ensures
      var a, b, d := 0xE0 + c / 4096, 0x80 + c / 64 % 64, 0x80 + c % 64;
      && Within(a, 0xE0, 0xEF) && Within(b, 0x80, 0xBF) && Within(d, 0x80, 0xBF)
      && (a == 0xE0 ==> b >= 0xA0) && (a == 0xED ==> b <= 0x9F)
  {
    assert c / 64 == c / 4096 * 64 + c / 64 % 64;
  }

  lemma {:induction false} FourByteRanges(c: int)
    requires Scalar(c) && 0x10000 <= c
    ensures
      var a, b, d, e := 0xF0 + c / 262144, 0x80 + c / 4096 % 64, 0x80 + c / 64 % 64, 0x80 + c % 64;
      && Within(a, 0xF0, 0xF4) && Within(b, 0x80, 0xBF) && Within(d, 0x80, 0xBF) && Within(e, 0x80, 0xBF)
      && (a == 0xF0 ==> b >= 0x90) && (a == 0xF4 ==> b <= 0x8F)
  {
    assert c / 4096 == c / 262144 * 64 + c / 4096 % 64;
  }

  // ----------------------------------------------------------------------- escaping

  function Hex(d: int): Byte
    requires 0 <= d < 16
  {
    if d < 10 then 0x30 + d else 0x61 + d - 10
  }

  const QUOTE: Byte := 0x22
  const BACKSLASH: Byte := 0x5C

  /** The letter after the backslash of a short escape. */
  function Short(b: Byte): Option<Byte> {
    if b == QUOTE || b == BACKSLASH then Some(b)
    else if b == 0x08 then Some(0x62)
    else if b == 0x0C then Some(0x66)
    else if b == 0x0A then Some(0x6E)
    else if b == 0x0D then Some(0x72)
    else if b == 0x09 then Some(0x74)
    else None
  }

  function EscapeByte(b: Byte): Bytes {
    match Short(b)
    case Some(c) => [BACKSLASH, c]
    case None => if b < 0x20 || b >= 0x80 then [BACKSLASH, 0x75, 0x30, 0x30, Hex(b / 16), Hex(b % 16)] else [b]
  }

  /** How many bytes the writer takes at once, and what it writes for them. */
  function Taken(s: Bytes): (n: nat)
    requires s != []
    ensures 1 <= n <= |s|
  {
    if s[0] >= 0x80 && Utf8(s) != 0 then Utf8(s) else 1
  }

  function Written(s: Bytes): Bytes
    requires s != []
  {
    if s[0] >= 0x80 && Utf8(s) != 0 then s[..Utf8(s)] else EscapeByte(s[0])
  }

  function Escape(s: Bytes): Bytes {
    if s == [] then [] else Written(s) + Escape(s[Taken(s)..])
  }

  method WriteString(s: Bytes) returns (out: Bytes)
    ensures out == [QUOTE] + Escape(s) + [QUOTE]
  {
    hide Utf8, EscapeByte, Taken, Written;
    out := [QUOTE];
    var i := 0;
    assert s[0..] == s;
    while i < |s|
      invariant 0 <= i <= |s| && out + Escape(s[i..]) == [QUOTE] + Escape(s)
    {
      assert s[i..][Taken(s[i..])..] == s[i + Taken(s[i..])..];
      out := out + Written(s[i..]);
      i := i + Taken(s[i..]);
    }
    out := out + [QUOTE];
  }

  // ---------------------------------------------------------------------- unescaping

  function Unhex(b: Byte): Option<int> {
    if 0x30 <= b <= 0x39 then Some(b - 0x30) else if 0x61 <= b <= 0x66 then Some(b - 0x61 + 10) else None
  }

  function Unshort(c: Byte): Option<Byte> {
    if c == QUOTE || c == BACKSLASH then Some(c)
    else if c == 0x62 then Some(0x08)
    else if c == 0x66 then Some(0x0C)
    else if c == 0x6E then Some(0x0A)
    else if c == 0x72 then Some(0x0D)
    else if c == 0x74 then Some(0x09)
    else None
  }

  /** A byte is written as it is unless it must be escaped, and then as short as the reader allows. */
  lemma {:induction false} EscapeShortest(b: Byte)
    ensures
      |EscapeByte(b)| ==
        if 0x20 <= b < 0x80 && b != QUOTE && b != BACKSLASH then 1
        else if exists c :: Unshort(c) == Some(b) then 2 else 6
  {
    if Short(b).Some? { assert Unshort(Short(b).value) == Some(b); }
  }

  /** A reader of bytes: escapes stand for single bytes, all other bytes for themselves. */
  function Unescape(t: Bytes): Option<Bytes> {
    if t == [] then Some([])
    else if t[0] != BACKSLASH then Prepend(t[0], Unescape(t[1..]))
    else if |t| < 2 then None
    else if Unshort(t[1]).Some? then Prepend(Unshort(t[1]).value, Unescape(t[2..]))
    else if |t| >= 6 && t[1] == 0x75 && t[2] == 0x30 && t[3] == 0x30 && Unhex(t[4]).Some? && Unhex(t[5]).Some? then
      Prepend(Unhex(t[4]).value * 16 + Unhex(t[5]).value, Unescape(t[6..]))
    else None
  }

  function Prepend(b: Byte, rest: Option<Bytes>): Option<Bytes> {
    if rest.Some? then Some([b] + rest.value) else None
  }

  lemma {:induction false} UnescapeByte(b: Byte, rest: Bytes)
    ensures Unescape(EscapeByte(b) + rest) == Prepend(b, Unescape(rest))
  {
    var t := EscapeByte(b) + rest;
    if Short(b).Some? {
      assert t[2..] == rest;
    } else if b < 0x20 || b >= 0x80 {
      assert t[6..] == rest;
      assert Unhex(Hex(b / 16)) == Some(b / 16) && Unhex(Hex(b % 16)) == Some(b % 16);
    } else {
      assert t[1..] == rest;
    }
  }

  lemma {:induction false} UnescapePlain(plain: Bytes, rest: Bytes)
    requires BACKSLASH !in plain && Unescape(rest).Some?
    ensures Unescape(plain + rest) == Some(plain + Unescape(rest).value)
    decreases |plain|
  {
    if plain == [] {
      assert plain + rest == rest && plain + Unescape(rest).value == Unescape(rest).value;
    } else {
      assert (plain + rest)[0] == plain[0] && (plain + rest)[1..] == plain[1..] + rest;
      UnescapePlain(plain[1..], rest);
      assert plain + Unescape(rest).value == [plain[0]] + (plain[1..] + Unescape(rest).value);
    }
  }

  /** Escaping is undone for every byte string, whether or not it is well-formed UTF-8. */
  lemma {:induction false} EscapeRoundTrip(s: Bytes)
    ensures Unescape(Escape(s)) == Some(s)
    decreases |s|
  {
    hide Unescape, EscapeByte;
    if s == [] {
      EmptyUnescape();
    } else {
      var rest := s[Taken(s)..];
      EscapeRoundTrip(rest);
      if s[0] >= 0x80 && Utf8(s) != 0 {
        HighBytes(s);
        UnescapePlain(s[..Utf8(s)], Escape(rest));
        assert s[..Utf8(s)] + rest == s;
      } else {
        UnescapeByte(s[0], Escape(rest));
        assert [s[0]] + s[1..] == s;
      }
    }
  }

  lemma {:induction false} EmptyUnescape()
    ensures Unescape([]) == Some([])
  {
  }

  lemma {:induction false} HighBytes(s: Bytes)
    requires s != [] && s[0] >= 0x80 && Utf8(s) > 0
    ensures Utf8(s) <= |s| && forall i :: 0 <= i < Utf8(s) ==> s[i] >= 0x80
  {
  }

  // --------------------------------------------------- section 7 of RFC 8259, strings

  predicate Plain(b: Byte) { b >= 0x20 && b != QUOTE && b != BACKSLASH }

  predicate HexDigit(b: Byte) { 0x30 <= b <= 0x39 || 0x41 <= b <= 0x46 || 0x61 <= b <= 0x66 }

  /** The inside of a JSON string, byte by byte. */
  predicate JsonChars(t: Bytes) {
    t == []
    || (Plain(t[0]) && JsonChars(t[1..]))
    || (|t| >= 2 && t[0] == BACKSLASH && t[1] in {0x22, 0x5C, 0x2F, 0x62, 0x66, 0x6E, 0x72, 0x74} && JsonChars(t[2..]))
    || (|t| >= 6 && t[0] == BACKSLASH && t[1] == 0x75 && HexDigit(t[2]) && HexDigit(t[3]) && HexDigit(t[4]) && HexDigit(t[5])
        && JsonChars(t[6..]))
  }

  lemma {:induction false} JsonByte(b: Byte, rest: Bytes)
    requires JsonChars(rest)
    ensures JsonChars(EscapeByte(b) + rest)
  {
    var t := EscapeByte(b) + rest;
    if Short(b).Some? {
      assert t[2..] == rest;
    } else if b < 0x20 || b >= 0x80 {
      assert t[6..] == rest;
    } else {
      assert t[1..] == rest;
    }
  }

  lemma {:induction false} JsonPlain(plain: Bytes, rest: Bytes)
    requires (forall i :: 0 <= i < |plain| ==> Plain(plain[i])) && JsonChars(rest)
    ensures JsonChars(plain + rest)
    decreases |plain|
  {
    if plain == [] {
      assert plain + rest == rest;
    } else {
      assert (plain + rest)[0] == plain[0] && (plain + rest)[1..] == plain[1..] + rest;
      JsonPlain(plain[1..], rest);
    }
  }

  /** What is written is a JSON string, for every byte string. */
  lemma {:induction false} EscapeIsJson(s: Bytes)
    ensures JsonChars(Escape(s))
    decreases |s|
  {
    hide JsonChars, EscapeByte;
    if s == [] {
      EmptyJson();
    } else {
      var rest := s[Taken(s)..];
      EscapeIsJson(rest);
      if s[0] >= 0x80 && Utf8(s) != 0 {
        HighBytes(s);
        JsonPlain(s[..Utf8(s)], Escape(rest));
      } else {
        JsonByte(s[0], Escape(rest));
      }
    }
  }

  lemma {:induction false} EmptyJson()
    ensures JsonChars([])
  {
  }

  // --------------------------------------------------------------- well-formed output

  lemma {:induction false} EncodeJoin(xs: seq<int>, ys: seq<int>)
    requires (forall i :: 0 <= i < |xs| ==> Scalar(xs[i])) && (forall i :: 0 <= i < |ys| ==> Scalar(ys[i]))
    ensures (forall i :: 0 <= i < |xs + ys| ==> Scalar((xs + ys)[i])) && EncodeScalars(xs + ys) == EncodeScalars(xs) + EncodeScalars(ys)
    decreases |xs|
  {
    hide EncodeScalar;
    if xs == [] {
      assert xs + ys == ys;
    } else {
      assert (xs + ys)[0] == xs[0] && (xs + ys)[1..] == xs[1..] + ys;
      EncodeJoin(xs[1..], ys);
    }
  }

  lemma {:induction false} EncodeAscii(t: Bytes)
    requires forall i :: 0 <= i < |t| ==> t[i] < 0x80
    ensures (forall i :: 0 <= i < |t| ==> Scalar(t[i])) && EncodeScalars(t) == t
    decreases |t|
  {
    if t != [] {
      EncodeAscii(t[1..]);
      assert t == [t[0]] + t[1..];
    }
  }

  lemma {:induction false} EncodeOne(c: int)
    requires Scalar(c)
    ensures EncodeScalars([c]) == EncodeScalar(c)
  {
    assert [c][1..] == [] && EncodeScalars([]) == [];
  }

  lemma {:induction false} EscapedAscii(b: Byte)
    ensures forall i :: 0 <= i < |EscapeByte(b)| ==> EscapeByte(b)[i] < 0x80
  {
  }

  /** What is written is well-formed UTF-8: it encodes a sequence of scalar values. */
  lemma {:induction false} EscapeIsUtf8(s: Bytes) returns (cs: seq<int>)
    ensures (forall i :: 0 <= i < |cs| ==> Scalar(cs[i])) && Escape(s) == EncodeScalars(cs)
    decreases |s|
  {
    hide EscapeByte, EncodeScalar, Utf8;
    if s == [] {
      cs := [];
    } else {
      var rest := EscapeIsUtf8(s[Taken(s)..]);
      var head;
      if s[0] >= 0x80 && Utf8(s) != 0 {
        var c := ClassifierSound(s);
        EncodeOne(c);
        head := [c];
      } else {
        EscapedAscii(s[0]);
        EncodeAscii(EscapeByte(s[0]));
        head := EscapeByte(s[0]);
      }
      EncodeJoin(head, rest);
      cs := head + rest;
    }
  }

  // -------------------------------------------------------- base64, section 4 of RFC 4648

  function Letter(d: int): char
    requires 0 <= d < 64
  {
    if d < 26 then 'A' + d as char
    else if d < 52 then 'a' + (d - 26) as char
    else if d < 62 then '0' + (d - 52) as char
    else if d == 62 then '+' else '/'
  }

  function Digit(c: char): Option<int> {
    if 'A' <= c <= 'Z' then Some(c as int - 'A' as int)
    else if 'a' <= c <= 'z' then Some(c as int - 'a' as int + 26)
    else if '0' <= c <= '9' then Some(c as int - '0' as int + 52)
    else if c == '+' then Some(62) else if c == '/' then Some(63) else None
  }

  lemma {:induction false} DigitOfLetter(d: int)
    requires 0 <= d < 64
    ensures Digit(Letter(d)) == Some(d) && Letter(d) != '='
  {
  }

  /** Three bytes in one number. */
  function Packed(x: Byte, y: Byte, z: Byte): (v: int)
    ensures 0 <= v < 0x1000000
  {
    var a: int, b: int, c: int := x, y, z;
    a * 65536 + b * 256 + c
  }

  function Group(s: Bytes): (g: string)
    requires s != []
    ensures |g| == 4
  {
    var v := Packed(s[0], if |s| > 1 then s[1] else 0, if |s| > 2 then s[2] else 0);
    [Letter(v / 262144 % 64), Letter(v / 4096 % 64),
     if |s| > 1 then Letter(v / 64 % 64) else '=',
     if |s| > 2 then Letter(v % 64) else '=']
  }

  function Base64(s: Bytes): string
    decreases |s|
  {
    if s == [] then "" else Group(s) + Base64(if |s| > 3 then s[3..] else [])
  }

  method WriteBase64(s: Bytes) returns (out: string)
    ensures out == "\"" + Base64(s) + "\""
  {
    hide Group;
    out := "\"";
    var i := 0;
    assert s[0..] == s;
    while i < |s|
      invariant 0 <= i && out + Base64(if i < |s| then s[i..] else []) == "\"" + Base64(s)
      decreases |s| - i
    {
      if i + 3 < |s| { assert s[i..][3..] == s[i + 3..]; }
      out := out + Group(s[i..]);
      i := i + 3;
    }
    out := out + "\"";
  }

  /** The bytes of a group of four, with padding for one or two missing bytes and the bits
      that padding leaves unused zero. */
  function DecodeGroup(g: string): (r: Option<Bytes>)
    requires |g| == 4
    ensures r.Some? ==> 1 <= |r.value| <= 3
  {
    if Digit(g[0]).None? || Digit(g[1]).None? then None
    else if g[2] == '=' then
      if g[3] == '=' && Digit(g[1]).value % 16 == 0 then Some([First(g)]) else None
    else if Digit(g[2]).None? then None
    else if g[3] == '=' then
      if Digit(g[2]).value % 4 == 0 then Some([First(g), Second(g)]) else None
    else if Digit(g[3]).None? then None
    else Some([First(g), Second(g), Third(g)])
  }

  function First(g: string): Byte
    requires |g| == 4 && Digit(g[0]).Some? && Digit(g[1]).Some?
  {
    Digit(g[0]).value * 4 + Digit(g[1]).value / 16
  }

  function Second(g: string): Byte
    requires |g| == 4 && Digit(g[1]).Some? && Digit(g[2]).Some?
  {
    Digit(g[1]).value % 16 * 16 + Digit(g[2]).value / 4
  }

  function Third(g: string): Byte
    requires |g| == 4 && Digit(g[2]).Some? && Digit(g[3]).Some?
  {
    Digit(g[2]).value % 4 * 64 + Digit(g[3]).value
  }

  /** The standard decoder: groups of four, padding in the last group only. */
  function Decode64(t: string): Option<Bytes> {
    if t == "" then Some([])
    else if |t| < 4 || DecodeGroup(t[..4]).None? then None
    else if |DecodeGroup(t[..4]).value| < 3 then (if |t| == 4 then DecodeGroup(t[..4]) else None)
    else match Decode64(t[4..])
      case None => None
      case Some(rest) => Some(DecodeGroup(t[..4]).value + rest)
  }

  lemma {:induction false} Sextets(x: Byte, y: Byte, z: Byte)
    ensures var v := Packed(x, y, z);
            v / 262144 % 64 == x / 4 && v / 4096 % 64 == x % 4 * 16 + y / 16 && v / 64 % 64 == y % 16 * 4 + z / 64 && v % 64 == z % 64
  {
    var v := Packed(x, y, z);
    var a: int, b: int, c: int := x, y, z;
    assert v / 262144 == a / 4;
    assert v / 4096 == a * 16 + b / 16;
    assert v / 64 == a * 1024 + b * 4 + c / 64;
  }

  lemma {:induction false} Decoded(g: string, x: Byte, y: Byte, z: Byte)
    requires |g| == 4 && Digit(g[0]) == Some(x / 4) && Digit(g[1]) == Some(x % 4 * 16 + y / 16)
    ensures First(g) == x
    ensures Digit(g[2]) == Some(y % 16 * 4 + z / 64) ==> Second(g) == y
    ensures Digit(g[2]) == Some(y % 16 * 4 + z / 64) && Digit(g[3]) == Some(z % 64) ==> Third(g) == z
    ensures y == 0 ==> Digit(g[1]).value % 16 == 0
    ensures Digit(g[2]) == Some(y % 16 * 4 + z / 64) && z == 0 ==> Digit(g[2]).value % 4 == 0
  {
    hide Digit;
    Recombine(x, y, z);
  }

  lemma {:induction false} GroupDigits(s: Bytes, y: Byte, z: Byte)
    requires s != [] && y == (if |s| > 1 then s[1] else 0) && z == (if |s| > 2 then s[2] else 0)
    ensures var g := Group(s);
            && Digit(g[0]) == Some(s[0] / 4) && Digit(g[1]) == Some(s[0] % 4 * 16 + y / 16)
            && (if |s| > 1 then g[2] != '=' && Digit(g[2]) == Some(y % 16 * 4 + z / 64) else g[2] == '=')
            && (if |s| > 2 then g[3] != '=' && Digit(g[3]) == Some(z % 64) else g[3] == '=')
  {
    hide Letter, Digit, Packed;
    Sextets(s[0], y, z);
    var v := Packed(s[0], y, z);
    DigitOfLetter(v / 262144 % 64);
    DigitOfLetter(v / 4096 % 64);
    DigitOfLetter(v / 64 % 64);
    DigitOfLetter(v % 64);
  }

  lemma {:induction false} GroupRoundTrip(s: Bytes)
    requires s != []
    ensures DecodeGroup(Group(s)) == Some(if |s| > 3 then s[..3] else s)
  {
    hide Digit, Group, First, Second, Third;
    var y, z := if |s| > 1 then s[1] else 0, if |s| > 2 then s[2] else 0;
    GroupDigits(s, y, z);
    Decoded(Group(s), s[0], y, z);
    if |s| == 1 {
      assert s == [s[0]];
    } else if |s| == 2 {
      assert s == [s[0], s[1]];
    } else {
      assert (if |s| > 3 then s[..3] else s) == [s[0], s[1], s[2]];
    }
  }

  lemma {:induction false} Recombine(x: int, y: int, z: int)
    requires 0 <= x < 256 && 0 <= y < 256 && 0 <= z < 256
    ensures x / 4 * 4 + (x % 4 * 16 + y / 16) / 16 == x
    ensures (x % 4 * 16 + y / 16) % 16 * 16 + (y % 16 * 4 + z / 64) / 4 == y
    ensures (y % 16 * 4 + z / 64) % 4 * 64 + z % 64 == z
    ensures y == 0 ==> (x % 4 * 16 + y / 16) % 16 == 0
    ensures z == 0 ==> (y % 16 * 4 + z / 64) % 4 == 0
  {
    assert (x % 4 * 16 + y / 16) % 16 == y / 16;
    assert (y % 16 * 4 + z / 64) % 4 == z / 64;
  }

  lemma {:induction false} Base64RoundTrip(s: Bytes)
    ensures Decode64(Base64(s)) == Some(s)
    decreases |s|
  {
    hide Group, DecodeGroup;
    if s != [] {
      var rest := if |s| > 3 then s[3..] else [];
      Base64RoundTrip(rest);
      GroupRoundTrip(s);
      var t := Base64(s);
      assert t[..4] == Group(s) && t[4..] == Base64(rest);
      assert (if |s| > 3 then s[..3] else s) + rest == s;
    }
  }
}
