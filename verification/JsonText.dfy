/** The text scanner and the string literals JSON rests on (section 2.5 of RFC 4627). */
module JsonText {
  import opened Bytes

  const QUOTE: Byte := 34
  const COMMA: Byte := 44
  const SLASH: Byte := 47
  const COLON: Byte := 58
  const BACKSLASH: Byte := 92
  const NEWLINE: Byte := 10
  const SPACE: Byte := 32

  // ----- the scanner, on what lies ahead of its cursor -----

  /** The character under the cursor; at the end of the input it is the terminating NUL. */
  function Hd(r: Bytes): Byte {
    if r == [] then 0 else r[0]
  }

  predicate IsSpace(b: Byte) {
    b == SPACE || b == 9
  }

  predicate IsNewline(b: Byte) {
    b == NEWLINE || b == 13
  }

  /** `pj_scan_skip_whitespace` with the options JSON uses. */
  function Skip(r: Bytes): (s: Bytes)
    ensures |s| <= |r|
    ensures !IsSpace(Hd(s)) && !IsNewline(Hd(s))
  {
    if r != [] && (IsSpace(r[0]) || IsNewline(r[0])) then Skip(r[1..]) else r
  }

  /** `pj_scan_get_char`; nothing at the end of the input or on a NUL. */
  function GetChar(r: Bytes): (s: Option<Bytes>)
    ensures s.Some? ==> |s.value| < |r|
  {
    if Hd(r) == 0 then None else Some(Skip(r[1..]))
  }

  /** The characters before the first `ch`, or all. */
  function UntilCh(r: Bytes, ch: Byte): (k: nat)
    ensures k <= |r| && (k < |r| ==> r[k] == ch) && forall i :: 0 <= i < k ==> r[i] != ch
  {
    if r == [] || r[0] == ch then 0 else 1 + UntilCh(r[1..], ch)
  }

  /** A token and what lies ahead behind it. */
  datatype Token = Token(text: Bytes, rest: Bytes)

  /** `pj_scan_get_until_ch`. */
  function GetUntilCh(r: Bytes, ch: Byte): (t: Option<Token>)
    ensures t.Some? ==> |t.value.rest| <= |r|
  {
    if r == [] then None else Some(Token(r[..UntilCh(r, ch)], Skip(r[UntilCh(r, ch)..])))
  }

  // ----- quoted strings -----

  /** The backslashes directly before position j, but not the character at 0. */
  function Backslashes(r: Bytes, j: nat): (n: nat)
    requires j <= |r|
    ensures n < j || n == 0
  {
    if j > 1 && r[j - 1] == BACKSLASH then 1 + Backslashes(r, j - 1) else 0
  }

  /** A quote at position j ends the literal exactly when this is even. */
  predicate Closes(r: Bytes, j: nat) {
    j < |r| && r[j] == QUOTE && Backslashes(r, j) % 2 == 0
  }

  /** Where the search from position i stops: at the closing quote, a newline or the end. */
  function QuoteEnd(r: Bytes, i: nat): (j: nat)
    requires i <= |r|
    ensures i <= j <= |r|
    ensures j < |r| ==> r[j] == NEWLINE || Closes(r, j)
    ensures forall k :: i <= k < j ==> r[k] != NEWLINE && !Closes(r, k)
    decreases |r| - i
  {
    if i == |r| || r[i] == NEWLINE || Closes(r, i) then i else QuoteEnd(r, i + 1)
  }

  /** `pj_scan_get_quote(scanner, '"', '"', out)`; the token keeps its quotes. */
  function GetQuote(r: Bytes): (t: Option<Token>)
    ensures t.Some? ==> |t.value.text| >= 2 && |t.value.rest| < |r|
  {
    if Hd(r) != QUOTE then None
    else
      var j := QuoteEnd(r, 1);
      if j < |r| && r[j] == QUOTE then Some(Token(r[..j + 1], Skip(r[j + 1..]))) else None
  }

  /** Left to right: the character at j is taken literally because of a backslash before it. */
  function Escaped(r: Bytes, j: nat): bool
    requires j <= |r|
  {
    j > 1 && r[j - 1] == BACKSLASH && !Escaped(r, j - 1)
  }

  /** Counting backslashes to the left tells the same as reading from the left. */
  lemma {:induction false} ParityIsEscape(r: Bytes, j: nat)
    requires j <= |r|
    ensures Backslashes(r, j) % 2 == 1 <==> Escaped(r, j)
  {
    if j > 1 && r[j - 1] == BACKSLASH {
      ParityIsEscape(r, j - 1);
    }
  }

  // ----- escaping -----

  function HexDigit(v: nat): Byte
    requires v < 16
  {
    if v < 10 then 48 + v else 97 + v - 10
  }

  /** The letter of a two-character escape, or zero. */
  function ShortEscape(b: Byte): Byte {
    if b == QUOTE || b == BACKSLASH || b == SLASH then b
    else if b == 8 then 98
    else if b == 12 then 102
    else if b == NEWLINE then 110
    else if b == 13 then 114
    else if b == 9 then 116
    else 0
  }

  predicate IsPlain(b: Byte) {
    32 <= b < 127
  }

  /** What `write_string_escaped` writes for one character. */
  function EscapeByte(b: Byte): (e: Bytes)
    ensures 1 <= |e| <= 6
  {
    if ShortEscape(b) != 0 then [BACKSLASH, ShortEscape(b)]
    else if IsPlain(b) then [b]
    else [BACKSLASH, 117, 48, 48, HexDigit(b / 16), HexDigit(b % 16)]
  }

  function Escape(v: Bytes): Bytes {
    if v == [] then [] else EscapeByte(v[0]) + Escape(v[1..])
  }

  // ----- unescaping -----

  function HexValue(b: Byte): (v: nat)
    ensures v < 16
  {
    if b <= 57 then (b + 208) % 16 else if b <= 70 then (b - 55) % 16 else (b + 169) % 16
  }

  lemma HexRoundTrip(v: nat)
    requires v < 16
    ensures HexValue(HexDigit(v)) == v
  {
  }

  /** The character a two-character escape stands for, by its letter. */
  function LetterValue(c: Byte): Option<Byte> {
    if c == QUOTE || c == BACKSLASH || c == SLASH then Some(c)
    else if c == 98 then Some(8)
    else if c == 102 then Some(12)
    else if c == 110 then Some(10)
    else if c == 114 then Some(13)
    else if c == 116 then Some(9)
    else None
  }

  /** One character of a literal and the octets it takes. */
  datatype Piece = Piece(value: Byte, len: nat)

  function NextPiece(t: Bytes): (p: Option<Piece>)
    requires t != []
    ensures p.Some? ==> 1 <= p.value.len <= |t|
  {
    if t[0] != BACKSLASH then Some(Piece(t[0], 1))
    else if |t| == 1 then None
    else if t[1] == 117 then
      if |t| < 6 then None else Some(Piece(HexValue(t[4]) * 16 + HexValue(t[5]), 6))
    else
      match LetterValue(t[1])
      case Some(b) => Some(Piece(b, 2))
      case None => None
  }

  /** The loop of `parse_quoted_string`; nothing for an invalid escape. */
  function Unescape(t: Bytes): Option<Bytes>
    decreases |t|
  {
    if t == [] then Some([])
    else
      match NextPiece(t)
      case None => None
      case Some(p) =>
        match Unescape(t[p.len..])
        case None => None
        case Some(rest) => Some([p.value] + rest)
  }

  /** `parse_quoted_string`: the value and what lies ahead. */
  function QuotedString(r: Bytes): (t: Option<Token>)
    ensures t.Some? ==> |t.value.rest| < |r|
  {
    match GetQuote(r)
    case None => None
    case Some(q) =>
      match Unescape(q.text[1..|q.text| - 1])
      case None => None
      case Some(v) => Some(Token(v, q.rest))
  }

  // ----- the round trip of string literals -----

  lemma PieceOfEscape(b: Byte, more: Bytes)
    ensures NextPiece(EscapeByte(b) + more) == Some(Piece(b, |EscapeByte(b)|))
  {
    if ShortEscape(b) == 0 && !IsPlain(b) {
      HexRoundTrip(b / 16);
      HexRoundTrip(b % 16);
      var t := EscapeByte(b) + more;
      assert t[4] == HexDigit(b / 16) && t[5] == HexDigit(b % 16);
    }
  }

  lemma {:induction false} UnescapeEscape(v: Bytes)
    ensures Unescape(Escape(v)) == Some(v)
  {
    if v != [] {
      var e := EscapeByte(v[0]);
      PieceOfEscape(v[0], Escape(v[1..]));
      UnescapeEscape(v[1..]);
      assert (e + Escape(v[1..]))[|e|..] == Escape(v[1..]);
      assert v == [v[0]] + v[1..];
    }
  }

  /** A token without backslashes stands for itself. */
  lemma {:induction false} UnescapePlain(t: Bytes)
    requires forall i :: 0 <= i < |t| ==> t[i] != BACKSLASH
    ensures Unescape(t) == Some(t)
  {
    if t != [] {
      UnescapePlain(t[1..]);
      assert t == [t[0]] + t[1..];
    }
  }

  lemma ClosesIff(r: Bytes, j: nat)
    requires j <= |r|
    ensures Closes(r, j) <==> j < |r| && r[j] == QUOTE && !Escaped(r, j)
  {
    ParityIsEscape(r, j);
  }

  /** The search passes over a character that is neither a newline nor an unescaped quote. */
  lemma QuoteEndStep(r: Bytes, i: nat)
    requires i < |r| && r[i] != NEWLINE && (r[i] == QUOTE ==> Escaped(r, i))
    ensures QuoteEnd(r, i) == QuoteEnd(r, i + 1)
  {
    ClosesIff(r, i);
  }

  /** The search passes over one escaped character and is again outside any escape. */
  lemma QuoteEndByte(r: Bytes, i: nat, b: Byte)
    requires 1 <= i && EqualAt(r, i, EscapeByte(b)) && !Escaped(r, i)
    ensures QuoteEnd(r, i) == QuoteEnd(r, i + |EscapeByte(b)|) && !Escaped(r, i + |EscapeByte(b)|)
  {
    var e := EscapeByte(b);
    assert e[0] == r[i + 0];
    QuoteEndStep(r, i);
    if |e| > 1 {
      assert e[1] == r[i + 1];
      QuoteEndStep(r, i + 1);
    }
    if |e| == 6 {
      assert e[2] == r[i + 2] && e[3] == r[i + 3] && e[4] == r[i + 4] && e[5] == r[i + 5];
      PlainStep(r, i + 2);
      PlainStep(r, i + 3);
      PlainStep(r, i + 4);
      PlainStep(r, i + 5);
    }
  }

  lemma PlainStep(r: Bytes, i: nat)
    requires 1 <= i < |r| && r[i] != NEWLINE && r[i] != QUOTE && r[i] != BACKSLASH
    ensures QuoteEnd(r, i) == QuoteEnd(r, i + 1) && !Escaped(r, i + 1)
  {
    QuoteEndStep(r, i);
  }

  lemma {:induction false} EscapeCloses(r: Bytes, i: nat, v: Bytes)
    requires 1 <= i && EqualAt(r, i, Escape(v) + [QUOTE]) && !Escaped(r, i)
    ensures QuoteEnd(r, i) == i + |Escape(v)| && Closes(r, i + |Escape(v)|)
    decreases |v|
  {
    if v == [] {
      assert (Escape(v) + [QUOTE])[0] == r[i + 0];
      ClosesIff(r, i);
    } else {
      var e, rest := EscapeByte(v[0]), Escape(v[1..]);
      Associate(e, rest, [QUOTE]);
      EqualConcat(r, i, e, rest + [QUOTE]);
      QuoteEndByte(r, i, v[0]);
      EscapeCloses(r, i + |e|, v[1..]);
    }
  }

  function Literal(v: Bytes): Bytes {
    [QUOTE] + Escape(v) + [QUOTE]
  }

  /**
   * Every string literal is read back, whatever text follows: the search stops exactly at its
   * closing quote, and unescaping gives the original octets.
   */
  lemma LiteralRoundTrip(v: Bytes, after: Bytes)
    ensures QuoteEnd(Literal(v) + after, 1) == 1 + |Escape(v)|
    ensures QuotedString(Literal(v) + after) == Some(Token(v, Skip(after)))
  {
    var r, n := Literal(v) + after, |Escape(v)|;
    LiteralHeld(v, after);
    EscapeCloses(r, 1, v);
    LiteralParts(Escape(v), after);
    UnescapeEscape(v);
    QuoteFrom(r, n);
    QuotedFrom(r, Token(r[..n + 2], Skip(after)), v);
  }

  lemma QuoteFrom(r: Bytes, n: nat)
    requires n + 2 <= |r| && r[0] == QUOTE == r[n + 1] && QuoteEnd(r, 1) == n + 1
    ensures GetQuote(r) == Some(Token(r[..n + 2], Skip(r[n + 2..])))
  {
  }

  lemma QuotedFrom(r: Bytes, t: Token, v: Bytes)
    requires GetQuote(r) == Some(t) && Unescape(t.text[1..|t.text| - 1]) == Some(v)
    ensures QuotedString(r) == Some(Token(v, t.rest))
  {
  }

  lemma LiteralHeld(v: Bytes, after: Bytes)
    ensures EqualAt(Literal(v) + after, 1, Escape(v) + [QUOTE])
  {
  }

  lemma LiteralParts(e: Bytes, after: Bytes)
    ensures var r, n := [QUOTE] + e + [QUOTE] + after, |e|;
            r[..n + 2][1..n + 1] == e && r[n + 2..] == after && r[0] == QUOTE == r[n + 1]
  {
  }

  // ----- text that needs no escapes -----

  /** Printable, and free of quotes, backslashes and slashes. */
  predicate PlainText(v: Bytes) {
    forall i :: 0 <= i < |v| ==> IsPlain(v[i]) && ShortEscape(v[i]) == 0
  }

  lemma {:induction false} EscapePlain(v: Bytes)
    requires PlainText(v)
    ensures Escape(v) == v
  {
    if v != [] {
      EscapePlain(v[1..]);
      assert v == [v[0]] + v[1..];
    }
  }

  lemma {:induction false} UntilQuote(v: Bytes, more: Bytes)
    requires PlainText(v)
    ensures UntilCh(v + [QUOTE] + more, QUOTE) == |v|
  {
    if v == [] {
      assert (v + [QUOTE] + more)[0] == QUOTE;
    } else {
      UntilQuote(v[1..], more);
      assert (v + [QUOTE] + more)[1..] == v[1..] + [QUOTE] + more;
      assert (v + [QUOTE] + more)[0] == v[0];
    }
  }

  lemma SkipStops(r: Bytes)
    requires !IsSpace(Hd(r)) && !IsNewline(Hd(r))
    ensures Skip(r) == r
  {
  }

  function Spaces(n: nat): (s: Bytes)
    ensures |s| == n && forall i :: 0 <= i < n ==> s[i] == SPACE
  {
    if n == 0 then [] else [SPACE] + Spaces(n - 1)
  }

  lemma {:induction false} SkipSpaces(n: nat, r: Bytes)
    ensures Skip(Spaces(n) + r) == Skip(r)
  {
    if n > 0 {
      SkipSpaces(n - 1, r);
      Associate([SPACE], Spaces(n - 1), r);
      SkipOne(SPACE, Spaces(n - 1) + r);
    } else {
      assert Spaces(0) + r == r;
    }
  }

  lemma Associate(a: Bytes, b: Bytes, c: Bytes)
    ensures a + b + c == a + (b + c)
  {
  }

  lemma SkipOne(b: Byte, r: Bytes)
    requires IsSpace(b) || IsNewline(b)
    ensures Skip([b] + r) == Skip(r)
  {
    assert ([b] + r)[1..] == r;
  }
}
