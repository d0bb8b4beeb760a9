/** The tables and the layout of the JSON modules in plain characters. */
module JsonCharacters {
  import opened Bytes
  import opened JsonText
  import opened JsonDoc

  lemma WordsAre()
    ensures NULL_WORD == ['n' as int, 'u' as int, 'l' as int, 'l' as int]
    ensures TRUE_WORD == ['t' as int, 'r' as int, 'u' as int, 'e' as int]
    ensures FALSE_WORD == ['f' as int, 'a' as int, 'l' as int, 's' as int, 'e' as int]
  {
  }

  /**
   * The characters of section 2.5 of RFC 4627 that have a letter of their own, or are escaped as
   * themselves: quote, backslash, slash, backspace, form feed, newline, carriage return and tab.
   */
  function LetterOf(b: Byte): (c: Option<char>)
    ensures c.Some? ==> c.value < 128 as char
  {
    if b == '\"' as int || b == '\\' as int || b == '/' as int then Some(b as char)
    else if b == 8 then Some('b')
    else if b == 12 then Some('f')
    else if b == 10 then Some('n')
    else if b == 13 then Some('r')
    else if b == 9 then Some('t')
    else None
  }

  function HexChar(v: nat): char
    requires v < 16
  {
    "0123456789abcdef"[v]
  }

  /** The writer's escapes, every character by one of three rules. */
  lemma EscapesAre(b: Byte)
    ensures LetterOf(b).Some? ==> EscapeByte(b) == ['\\' as int, LetterOf(b).value as int]
    ensures LetterOf(b).None? && 32 <= b < 127 ==> EscapeByte(b) == [b]
    ensures LetterOf(b).None? && !(32 <= b < 127) ==>
              EscapeByte(b) == ['\\' as int, 'u' as int, '0' as int, '0' as int, HexDigit(b / 16), HexDigit(b % 16)]
  {
  }

  lemma HexDigitsAre(v: nat)
    requires v < 16
    ensures HexDigit(v) == HexChar(v) as int
  {
  }

  /** The parser reads hexadecimal digits in either case. */
  lemma HexMeans(v: nat)
    requires v < 16
    ensures HexValue(HexChar(v) as int) == v
    ensures v >= 10 ==> HexValue('A' as int + v - 10) == v
  {
  }

  /** What the parser makes of a backslash and the character behind it, whatever follows. */
  lemma LettersMean(c: Byte, more: Bytes)
    requires c != 'u' as int
    ensures NextPiece(['\\' as int, c] + more) ==
            if c in {'\"' as int, '\\' as int, '/' as int} then Some(Piece(c, 2))
            else if c == 'b' as int then Some(Piece(8, 2))
            else if c == 'f' as int then Some(Piece(12, 2))
            else if c == 'n' as int then Some(Piece(10, 2))
            else if c == 'r' as int then Some(Piece(13, 2))
            else if c == 't' as int then Some(Piece(9, 2))
            else None
  {
  }

  /** Skipping passes over blanks, tabs, carriage returns and newlines, and over nothing else. */
  lemma {:induction false} SkipExact(r: Bytes)
    ensures var s := Skip(r);
            && s == r[|r| - |s|..]
            && (forall i :: 0 <= i < |r| - |s| ==> r[i] in {32, 9, 13, 10})
            && (s != [] ==> s[0] !in {32, 9, 13, 10})
    decreases |r|
  {
    if r != [] && (IsSpace(r[0]) || IsNewline(r[0])) {
      SkipExact(r[1..]);
      var s := Skip(r[1..]);
      assert r[1..][|r| - 1 - |s|..] == r[|r| - |s|..];
      forall i | 0 <= i < |r| - |s| ensures r[i] in {32, 9, 13, 10} {
        if i > 0 {
          assert r[i] == r[1..][i - 1];
        }
      }
    }
  }

  /** The values of members line up: each begins twenty-four columns behind the indent, for names of up to twenty octets. */
  lemma ValuesLineUp(name: Bytes, indent: nat)
    requires PlainText(name) && 0 < |name| <= 20
    ensures |NamePart(name, indent, false)| == indent + 24
  {
    EscapePlain(name);
  }

  /** An object of two members at an indent: a line for each, three columns further in. */
  lemma ObjectIs(a: Elem, b: Elem, indent: nat)
    requires a.name != [] && indent < 100
    ensures ValueText(Obj([a, b]), indent)
         == ['{' as int, ' ' as int]
            + (['\n' as int] + (ElemText(a, indent + 3, false) + [',' as int, '\n' as int] + (ElemText(b, indent + 3, false) + ['\n' as int]))
               + Spaces(indent))
            + ['}' as int]
  {
    BodyOfTwo(a, b, indent + 3, false, false);
  }

  /** An array of two elements: in one line. */
  lemma ArrayIs(a: Elem, b: Elem, indent: nat)
    requires a.name == []
    ensures ValueText(Arr([a, b]), indent)
         == ['[' as int, ' ' as int] + (ElemText(a, indent, true) + [',' as int, ' ' as int] + ElemText(b, indent, true)) + [']' as int]
  {
    BodyOfTwo(a, b, indent, true, true);
    assert ElemText(b, indent, true) + [] == ElemText(b, indent, true);
  }

  lemma BodyOfTwo(a: Elem, b: Elem, indent: nat, noName: bool, simple: bool)
    ensures Body([a, b], indent, noName, simple)
         == ElemText(a, indent, noName) + Behind(true, simple) + (ElemText(b, indent, noName) + Behind(false, simple))
  {
    BodyOfOne(b, indent, noName, simple);
    assert [a, b][1..] == [b];
  }

  lemma BodyOfOne(b: Elem, indent: nat, noName: bool, simple: bool)
    ensures Body([b], indent, noName, simple) == ElemText(b, indent, noName) + Behind(false, simple)
  {
    assert [b][1..] == [];
    assert Body([], indent, noName, simple) == [];
    var t := ElemText(b, indent, noName) + Behind(false, simple);
    assert t + [] == t;
  }
}
