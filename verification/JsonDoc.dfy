/** The document `elem_write` prints and the tree `pj_json_parse` builds, and the way back. */
module JsonDoc {
  import opened Bytes
  import opened JsonText

  /** A number is kept as its text: C's float formatting is not part of the model. */
  datatype Value =
    | Null
    | Bool(isTrue: bool)
    | Num(neg: bool, digits: Bytes)
    | Str(str: Bytes)
    | Arr(children: seq<Elem>)
    | Obj(children: seq<Elem>)

  datatype Elem = Elem(name: Bytes, value: Value)

  const LBRACKET: Byte := 91
  const RBRACKET: Byte := 93
  const LBRACE: Byte := 123
  const RBRACE: Byte := 125
  const MINUS: Byte := 45

  const NULL_WORD: Bytes := [110, 117, 108, 108]
  const TRUE_WORD: Bytes := [116, 114, 117, 101]
  const FALSE_WORD: Bytes := [102, 97, 108, 115, 101]

  const MAX_INDENT := 100
  const NAME_MIN_LEN := 20
  const INDENT_SIZE := 3

  // ----- the writer -----

  function Deeper(indent: nat): (d: nat)
    ensures indent <= d
  {
    if indent < MAX_INDENT then indent + INDENT_SIZE else indent
  }

  /** The spaces that bring a short name to its column. */
  function Padding(name: Bytes): Bytes {
    if |name| < NAME_MIN_LEN then Spaces(NAME_MIN_LEN - |name|) else []
  }

  function NameText(name: Bytes): Bytes {
    Literal(name) + ([COLON] + ([SPACE] + Padding(name)))
  }

  /** What `elem_write` writes at an indent. */
  function ElemText(e: Elem, indent: nat, noName: bool): Bytes
    decreases e, 0
  {
    NamePart(e.name, indent, noName) + ValueText(e.value, indent)
  }

  function NamePart(name: Bytes, indent: nat, noName: bool): Bytes {
    if name == [] then [] else if noName then Spaces(indent) else Spaces(indent) + NameText(name)
  }

  function ValueText(v: Value, indent: nat): Bytes
    decreases v, 0
  {
    match v
    case Null => NULL_WORD
    case Bool(b) => if b then TRUE_WORD else FALSE_WORD
    case Num(neg, digits) => (if neg then [MINUS] else []) + digits
    case Str(s) => Literal(s)
    case Arr(cs) => [LBRACKET, SPACE] + ListText(cs, indent, true) + [RBRACKET]
    case Obj(cs) => [LBRACE, SPACE] + ListText(cs, indent, false) + [RBRACE]
  }

  /** What `write_children` writes between the brackets; the first child decides on the layout. */
  function ListText(cs: seq<Elem>, indent: nat, noName: bool): Bytes
    decreases cs, 1
  {
    if cs == [] then []
    else if cs[0].name == [] then Body(cs, indent, noName, true)
    else [NEWLINE] + Body(cs, Deeper(indent), noName, false) + Spaces(indent)
  }

  function Body(cs: seq<Elem>, indent: nat, noName: bool, simple: bool): Bytes
    decreases cs, 0
  {
    if cs == [] then []
    else ElemText(cs[0], indent, noName) + Behind(|cs| > 1, simple) + Body(cs[1..], indent, noName, simple)
  }

  function Behind(more: bool, simple: bool): Bytes {
    if more then (if simple then [COMMA, SPACE] else [COMMA, NEWLINE])
    else if simple then [] else [NEWLINE]
  }

  /** The document `pj_json_write` leaves in its buffer. */
  function Document(root: Elem): Bytes {
    ElemText(root, 0, false)
  }

  // ----- the parser, on what lies ahead of the scanner -----

  datatype Named = Named(name: Bytes, str: Bytes, rest: Bytes)
  datatype Valued = Valued(value: Value, rest: Bytes)
  datatype Parsed = Parsed(elem: Elem, rest: Bytes)
  datatype Listed = Listed(children: seq<Elem>, rest: Bytes)

  predicate IsNumberChar(b: Byte) {
    b == 46 || 48 <= b <= 57
  }

  predicate IsAlpha(b: Byte) {
    65 <= b <= 90 || 97 <= b <= 122
  }

  /** The first string of an element: its name if a colon follows, otherwise its value. */
  function ParseName(r: Bytes): (n: Option<Named>)
    ensures n.Some? ==> |n.value.rest| <= |r| && (n.value.str != [] ==> |n.value.rest| < |r|)
  {
    if Hd(r) != QUOTE then Some(Named([], [], r))
    else
      match GetChar(r)
      case None => None
      case Some(r1) =>
        match GetUntilCh(r1, QUOTE)
        case None => None
        case Some(t) =>
          match GetChar(t.rest)
          case None => None
          case Some(r2) => AfterName(t.text, r2)
  }

  function AfterName(text: Bytes, r: Bytes): (n: Option<Named>)
    ensures n.Some? ==> |n.value.rest| <= |r|
  {
    if Hd(r) != COLON then Some(Named([], text, r))
    else
      match GetChar(r)
      case None => None
      case Some(rest) => Some(Named(text, [], rest))
  }

  /** How many characters of a number lie ahead. */
  function Span(r: Bytes): (k: nat)
    ensures k <= |r|
  {
    if r == [] || !IsNumberChar(r[0]) then 0 else 1 + Span(r[1..])
  }

  function ParseDigits(neg: bool, r: Bytes): (v: Option<Valued>)
    ensures v.Some? ==> |v.value.rest| < |r|
  {
    if Span(r) == 0 then None else Some(Valued(Num(neg, r[..Span(r)]), Skip(r[Span(r)..])))
  }

  function ParseNumber(r: Bytes): (v: Option<Valued>)
    ensures v.Some? ==> |v.value.rest| < |r|
  {
    if Hd(r) != MINUS then ParseDigits(false, r)
    else
      match GetChar(r)
      case None => None
      case Some(r1) => ParseDigits(true, r1)
  }

  /** The keywords, each compared by `pj_scan_strcmp`, which fails near the end of the input. */
  function ParseKeyword(r: Bytes): (v: Option<Valued>)
    ensures v.Some? ==> |v.value.rest| < |r|
  {
    if |r| < 5 then None
    else if r[..5] == FALSE_WORD then Some(Valued(Bool(false), Skip(r[5..])))
    else if r[..4] == TRUE_WORD then Some(Valued(Bool(true), Skip(r[4..])))
    else if r[..4] == NULL_WORD then Some(Valued(Null, Skip(r[4..])))
    else None
  }

  function ParseString(r: Bytes): (v: Option<Valued>)
    ensures v.Some? ==> |v.value.rest| < |r|
  {
    match QuotedString(r)
    case None => None
    case Some(t) => Some(Valued(Str(t.text), t.rest))
  }

  function ParseValue(r: Bytes): (v: Option<Valued>)
    ensures v.Some? ==> |v.value.rest| < |r|
    decreases |r|, 0
  {
    if IsNumberChar(Hd(r)) || Hd(r) == MINUS then ParseNumber(r)
    else if Hd(r) == QUOTE then ParseString(r)
    else if IsAlpha(Hd(r)) then ParseKeyword(r)
    else if Hd(r) == LBRACKET then
      match ParseChildren(Skip(r[1..]), RBRACKET)
      case None => None
      case Some(l) => Some(Valued(Arr(l.children), l.rest))
    else if Hd(r) == LBRACE then
      match ParseChildren(Skip(r[1..]), RBRACE)
      case None => None
      case Some(l) => Some(Valued(Obj(l.children), l.rest))
    else None
  }

  /** `parse_elem_throw`. */
  function ParseElem(r: Bytes): (p: Option<Parsed>)
    ensures p.Some? ==> |p.value.rest| < |r|
    decreases |r|, 1
  {
    match ParseName(r)
    case None => None
    case Some(n) =>
      if n.str != [] then Some(Parsed(Elem([], Str(n.str)), n.rest))
      else
        match ParseValue(n.rest)
        case None => None
        case Some(v) => Some(Parsed(Elem(n.name, v.value), v.rest))
  }

  /** Any number of commas. */
  function Commas(r: Bytes): (s: Bytes)
    ensures |s| <= |r| && Hd(s) != COMMA
    decreases |r|
  {
    if Hd(r) == COMMA then Commas(Skip(r[1..])) else r
  }

  /** The loop of `parse_children`, up to and including the closing bracket. */
  function ParseChildren(r: Bytes, close: Byte): (l: Option<Listed>)
    requires close != 0
    ensures l.Some? ==> |l.value.rest| < |r|
    decreases |r|, 2
  {
    var c := Commas(r);
    if Hd(c) == close then Some(Listed([], Skip(c[1..])))
    else
      match ParseElem(c)
      case None => None
      case Some(p) =>
        match ParseChildren(p.rest, close)
        case None => None
        case Some(l) => Some(Listed([p.elem] + l.children, l.rest))
  }

  /** `pj_json_parse`: the root and what lies behind it. */
  function Parse(text: Bytes): Option<Parsed> {
    if text == [] then None else ParseElem(Skip(text))
  }

  // ----- the documents that come back -----

  /** Printable, free of quotes, backslashes and slashes, and not starting with a space. */
  predicate GoodName(name: Bytes) {
    name != [] && PlainText(name) && name[0] != SPACE
  }

  predicate GoodDigits(digits: Bytes) {
    digits != [] && forall i :: 0 <= i < |digits| ==> IsNumberChar(digits[i])
  }

  /** A member of an object is named, an element of an array is not. */
  predicate GoodElem(e: Elem, member: bool)
    decreases e, 0
  {
    if member then GoodName(e.name) && GoodValue(e.value)
    else e.name == [] && (e.value.Str? ==> GoodName(e.value.str)) && GoodValue(e.value)
  }

  predicate GoodValue(v: Value)
    decreases v, 0
  {
    match v
    case Num(_, digits) => GoodDigits(digits)
    case Arr(cs) => forall c :: c in cs ==> GoodElem(c, false)
    case Obj(cs) => forall c :: c in cs ==> GoodElem(c, true)
    case _ => true
  }

  /** The keyword comparison looks one octet behind these. */
  predicate FourLetters(v: Value) {
    v == Null || v == Bool(true)
  }

  /** What may follow a value. */
  predicate Follows(after: Bytes) {
    !IsNumberChar(Hd(after)) && Hd(Skip(after)) != COLON
  }

  // ----- names -----

  lemma GoodNameSkip(name: Bytes, more: Bytes)
    requires GoodName(name)
    ensures Skip(name + more) == name + more
  {
    assert (name + more)[0] == name[0];
    assert IsPlain(name[0]) && ShortEscape(name[0]) == 0;
  }

  /** A good name between quotes is scanned up to the closing one. */
  lemma GoodNameScan(name: Bytes, more: Bytes)
    requires GoodName(name)
    ensures GetChar(Literal(name) + more) == Some(name + [QUOTE] + more)
    ensures GetUntilCh(name + [QUOTE] + more, QUOTE) == Some(Token(name, [QUOTE] + more))
    ensures GetChar([QUOTE] + more) == Some(Skip(more))
  {
    EscapePlain(name);
    var r := Literal(name) + more;
    assert r[1..] == name + ([QUOTE] + more);
    Associate(name, [QUOTE], more);
    GoodNameSkip(name, [QUOTE] + more);
    UntilQuote(name, more);
    var s := name + [QUOTE] + more;
    assert s[..|name|] == name && s[|name|..] == [QUOTE] + more;
    SkipStops([QUOTE] + more);
    assert ([QUOTE] + more)[1..] == more;
  }

  lemma GoodNameParses(name: Bytes, more: Bytes)
    requires GoodName(name)
    ensures ParseName(Literal(name) + more) == AfterName(name, Skip(more))
  {
    GoodNameScan(name, more);
    assert Hd(Literal(name) + more) == QUOTE;
  }

  /** A name, its colon and the padding are read back. */
  lemma NameBack(name: Bytes, more: Bytes)
    requires GoodName(name)
    ensures ParseName(NameText(name) + more) == Some(Named(name, [], Skip(more)))
  {
    var pad := [SPACE] + Padding(name);
    Associate(Literal(name), [COLON] + pad, more);
    Associate([COLON], pad, more);
    GoodNameParses(name, [COLON] + (pad + more));
    SkipStops([COLON] + (pad + more));
    Associate([SPACE], Padding(name), more);
    SkipOne(SPACE, Padding(name) + more);
    PaddingSkipped(name, more);
    ColonRead(name, pad + more);
  }

  lemma ColonRead(name: Bytes, more: Bytes)
    ensures AfterName(name, [COLON] + more) == Some(Named(name, [], Skip(more)))
  {
    assert ([COLON] + more)[1..] == more;
  }

  lemma PaddingSkipped(name: Bytes, more: Bytes)
    ensures Skip(Padding(name) + more) == Skip(more)
  {
    if |name| < NAME_MIN_LEN {
      SkipSpaces(NAME_MIN_LEN - |name|, more);
    } else {
      assert [] + more == more;
    }
  }

  /** An unnamed string is read back as the value. */
  lemma UnnamedBack(s: Bytes, after: Bytes)
    requires GoodName(s) && Follows(after)
    ensures ParseElem(Literal(s) + after) == Some(Parsed(Elem([], Str(s)), Skip(after)))
  {
    GoodNameParses(s, after);
  }

  // ----- values without children -----

  /**
   * A number at the end of the text runs on into whatever lies behind it: nothing but the NUL that
   * the caller puts there ends it.
   */
  lemma {:induction false} SpanRunsOn(digits: Bytes, behind: Bytes)
    requires forall i :: 0 <= i < |digits| ==> IsNumberChar(digits[i])
    ensures Span(digits + behind) == |digits| + Span(behind)
    ensures Span(digits + behind) == |digits| <==> !IsNumberChar(Hd(behind))
  {
    if digits == [] {
      assert digits + behind == behind;
    } else {
      SpanRunsOn(digits[1..], behind);
      assert (digits + behind)[1..] == digits[1..] + behind;
      assert (digits + behind)[0] == digits[0];
    }
  }

  lemma DigitsBack(neg: bool, digits: Bytes, after: Bytes)
    requires GoodDigits(digits) && !IsNumberChar(Hd(after))
    ensures ParseDigits(neg, digits + after) == Some(Valued(Num(neg, digits), Skip(after)))
  {
    SpanRunsOn(digits, after);
    var r := digits + after;
    assert r[..|digits|] == digits && r[|digits|..] == after;
  }

  lemma NumberBack(neg: bool, digits: Bytes, after: Bytes)
    requires GoodDigits(digits) && !IsNumberChar(Hd(after))
    ensures ParseNumber(ValueText(Num(neg, digits), 0) + after) == Some(Valued(Num(neg, digits), Skip(after)))
  {
    var r := digits + after;
    assert r[0] == digits[0] && IsNumberChar(r[0]);
    DigitsBack(neg, digits, after);
    if neg {
      Associate([MINUS], digits, after);
      assert ([MINUS] + r)[1..] == r;
      SkipStops(r);
    } else {
      assert [] + digits == digits;
    }
  }

  lemma KeywordBack(v: Value, after: Bytes)
    requires (v.Null? || v.Bool?) && (FourLetters(v) ==> after != [])
    ensures ParseKeyword(ValueText(v, 0) + after) == Some(Valued(v, Skip(after)))
  {
    var w := ValueText(v, 0);
    var r := w + after;
    assert r[|w|..] == after && r[..|w|] == w;
    if FourLetters(v) {
      assert r[..5][0] == w[0];
    }
  }

  predicate Opens(b: Byte) {
    b != COMMA && b != RBRACKET && b != RBRACE && !IsSpace(b) && !IsNewline(b)
  }

  /** Each kind of value is told by its first character. */
  lemma ValueOpens(v: Value, indent: nat)
    requires GoodValue(v)
    ensures ValueText(v, indent) != [] && Opens(ValueText(v, indent)[0])
    ensures v.Str? <==> ValueText(v, indent)[0] == QUOTE
  {
    match v
    case Num(neg, digits) => assert IsNumberChar(digits[0]);
    case _ =>
  }

  // ----- lists -----

  /** One child is read, and the rest behind it. */
  lemma ChildThen(r: Bytes, p: Parsed, next: Bytes, l: Listed, close: Byte)
    requires close != 0 && Hd(r) != COMMA && Hd(r) != close
    requires ParseElem(r) == Some(p) && Commas(p.rest) == Commas(next) && ParseChildren(next, close) == Some(l)
    ensures ParseChildren(r, close) == Some(Listed([p.elem] + l.children, l.rest))
  {
    assert Commas(r) == r;
    SameCommas(p.rest, next, close);
  }

  lemma SameCommas(r: Bytes, s: Bytes, close: Byte)
    requires close != 0 && Commas(r) == Commas(s)
    ensures ParseChildren(r, close) == ParseChildren(s, close)
  {
  }

  /** Nothing but blanks up to the closing bracket. */
  lemma NoMore(tail: Bytes, close: Byte)
    requires close != 0 && close != COMMA && Hd(Skip(tail)) == close
    ensures ParseChildren(Skip(tail), close) == Some(Listed([], Skip(Skip(tail)[1..])))
  {
  }

  /** A separator is skipped together with the blanks behind it. */
  lemma BehindSkipped(more: bool, simple: bool, rest: Bytes)
    requires more ==> Hd(Skip(rest)) != COMMA
    ensures Commas(Skip(Behind(more, simple) + rest)) == Commas(Skip(rest))
  {
    if more {
      var blank: Byte := if simple then SPACE else NEWLINE;
      assert Behind(more, simple) + rest == [COMMA] + ([blank] + rest);
      SkipOne(blank, rest);
      SkipStops([COMMA] + ([blank] + rest));
      assert ([COMMA] + ([blank] + rest))[1..] == [blank] + rest;
    } else if simple {
      assert [] + rest == rest;
    } else {
      SkipOne(NEWLINE, rest);
    }
  }

  lemma BehindFollows(more: bool, simple: bool, rest: Bytes)
    requires rest != [] && (more || Follows(rest))
    ensures Follows(Behind(more, simple) + rest)
  {
    var b := Behind(more, simple);
    if more {
      assert (b + rest)[0] == COMMA;
      SkipStops(b + rest);
    } else if simple {
      assert b + rest == rest;
    } else {
      assert (b + rest)[0] == NEWLINE;
      SkipOne(NEWLINE, rest);
    }
  }

  /** What stands behind the last child, up to the closing bracket. */
  lemma TailSkips(indent: nat, close: Byte, after: Bytes)
    requires close == RBRACKET || close == RBRACE
    ensures Skip(Spaces(indent) + ([close] + after)) == [close] + after
    ensures !IsNumberChar(Hd(Spaces(indent) + ([close] + after)))
  {
    SkipSpaces(indent, [close] + after);
    SkipStops([close] + after);
    if indent == 0 {
      assert Spaces(0) + ([close] + after) == [close] + after;
    } else {
      assert (Spaces(indent) + ([close] + after))[0] == SPACE;
    }
  }

  lemma CloseRead(close: Byte, after: Bytes)
    ensures ([close] + after)[1..] == after && Hd([close] + after) == close
  {
  }

  /** An array or object, given its list of children. */
  lemma ListRead(l: Bytes, cs: seq<Elem>, isArr: bool, after: Bytes)
    requires ParseChildren(Skip(l + ([if isArr then RBRACKET else RBRACE] + after)), if isArr then RBRACKET else RBRACE)
             == Some(Listed(cs, Skip(after)))
    ensures var open := if isArr then LBRACKET else LBRACE;
            var close := if isArr then RBRACKET else RBRACE;
            ParseValue([open, SPACE] + l + [close] + after) == Some(Valued(if isArr then Arr(cs) else Obj(cs), Skip(after)))
  {
    var open := if isArr then LBRACKET else LBRACE;
    var close := if isArr then RBRACKET else RBRACE;
    var behind := l + ([close] + after);
    var r := [open] + ([SPACE] + behind);
    assert [open, SPACE] + l + [close] + after == r;
    SkipOne(SPACE, behind);
    CloseRead(open, [SPACE] + behind);
  }

  // ----- the round trip -----

  lemma {:induction false} ValueBack(v: Value, indent: nat, after: Bytes)
    requires GoodValue(v) && Follows(after) && (FourLetters(v) ==> after != [])
    ensures ParseValue(ValueText(v, indent) + after) == Some(Valued(v, Skip(after)))
    decreases v, 0
  {
    ValueOpens(v, indent);
    assert Hd(ValueText(v, indent) + after) == ValueText(v, indent)[0];
    match v
    case Null => KeywordBack(v, after);
    case Bool(_) => KeywordBack(v, after);
    case Num(neg, digits) =>
      NumberBack(neg, digits, after);
      assert IsNumberChar(digits[0]);
    case Str(s) => LiteralRoundTrip(s, after);
    case Arr(cs) =>
      ListBack(cs, indent, false, RBRACKET, after);
      ListRead(ListText(cs, indent, true), cs, true, after);
    case Obj(cs) =>
      ListBack(cs, indent, true, RBRACE, after);
      ListRead(ListText(cs, indent, false), cs, false, after);
  }

  lemma {:induction false} ListBack(cs: seq<Elem>, indent: nat, member: bool, close: Byte, after: Bytes)
    requires (forall c :: c in cs ==> GoodElem(c, member)) && (close == RBRACKET || close == RBRACE)
    ensures ParseChildren(Skip(ListText(cs, indent, !member) + ([close] + after)), close) == Some(Listed(cs, Skip(after)))
    decreases cs, 2
  {
    var tail := [close] + after;
    CloseRead(close, after);
    SkipStops(tail);
    if cs == [] {
      assert [] + tail == tail;
      NoMore(tail, close);
    } else if member {
      var text := Body(cs, Deeper(indent), false, false);
      assert cs[0] in cs;
      TailSkips(indent, close, after);
      ChildrenBack(cs, Deeper(indent), member, Spaces(indent) + tail, close);
      BodyParts([NEWLINE], text, Spaces(indent), tail);
      SkipOne(NEWLINE, text + (Spaces(indent) + tail));
    } else {
      assert cs[0] in cs;
      ChildrenBack(cs, indent, member, tail, close);
    }
  }

  lemma {:induction false} ChildrenBack(cs: seq<Elem>, indent: nat, member: bool, tail: Bytes, close: Byte)
    requires (forall c :: c in cs ==> GoodElem(c, member)) && (close == RBRACKET || close == RBRACE)
    requires Hd(Skip(tail)) == close && !IsNumberChar(Hd(tail))
    ensures Hd(Skip(Body(cs, indent, !member, !member) + tail)) != COMMA
    ensures ParseChildren(Skip(Body(cs, indent, !member, !member) + tail), close)
         == Some(Listed(cs, Skip(Skip(tail)[1..])))
    decreases cs, 1
  {
    if cs == [] {
      assert [] + tail == tail;
      NoMore(tail, close);
    } else {
      var more, simple := |cs| > 1, !member;
      var rest := Body(cs[1..], indent, simple, simple) + tail;
      ChildrenBack(cs[1..], indent, member, tail, close);
      assert !more ==> rest == tail;
      BehindSkipped(more, simple, rest);
      BehindFollows(more, simple, rest);
      ElemBack(cs[0], indent, member, Behind(more, simple) + rest);
      BodyStep(cs, indent, simple, simple, tail);
      FirstThenRest(cs, Skip(ElemText(cs[0], indent, simple) + (Behind(more, simple) + rest)),
                    Skip(Behind(more, simple) + rest), Skip(rest), Skip(Skip(tail)[1..]), close);
    }
  }

  lemma FirstThenRest(cs: seq<Elem>, r: Bytes, r1: Bytes, next: Bytes, end: Bytes, close: Byte)
    requires cs != [] && (close == RBRACKET || close == RBRACE) && Opens(Hd(r))
    requires ParseElem(r) == Some(Parsed(cs[0], r1)) && Commas(r1) == Commas(next)
    requires ParseChildren(next, close) == Some(Listed(cs[1..], end))
    ensures ParseChildren(r, close) == Some(Listed(cs, end))
  {
    ChildThen(r, Parsed(cs[0], r1), next, Listed(cs[1..], end), close);
    Rejoin(cs);
  }

  lemma Rejoin(cs: seq<Elem>)
    requires cs != []
    ensures [cs[0]] + cs[1..] == cs
  {
  }

  lemma BodyStep(cs: seq<Elem>, indent: nat, noName: bool, simple: bool, tail: Bytes)
    requires cs != []
    ensures Body(cs, indent, noName, simple) + tail
         == ElemText(cs[0], indent, noName) + (Behind(|cs| > 1, simple) + (Body(cs[1..], indent, noName, simple) + tail))
  {
    BodyParts(ElemText(cs[0], indent, noName), Behind(|cs| > 1, simple), Body(cs[1..], indent, noName, simple), tail);
  }

  lemma BodyParts(a: Bytes, b: Bytes, c: Bytes, d: Bytes)
    ensures a + b + c + d == a + (b + (c + d))
  {
    Associate(a + b, c, d);
    Associate(a, b, c + d);
  }

  lemma {:induction false} ElemBack(e: Elem, indent: nat, member: bool, after: Bytes)
    requires GoodElem(e, member) && Follows(after) && (FourLetters(e.value) ==> after != [])
    ensures Opens(Hd(Skip(ElemText(e, indent, !member) + after)))
    ensures ParseElem(Skip(ElemText(e, indent, !member) + after)) == Some(Parsed(e, Skip(after)))
    decreases e, 0
  {
    var text := ValueText(e.value, indent);
    ValueOpens(e.value, indent);
    assert (text + after)[0] == text[0];
    SkipStops(text + after);
    if member {
      ValueBack(e.value, indent, after);
      MemberRead(e, Spaces(indent), text + after, after);
      BodyParts(Spaces(indent), NameText(e.name), text, after);
      SkipSpaces(indent, NameText(e.name) + (text + after));
    } else {
      assert [] + text == text;
      if e.value.Str? {
        UnnamedBack(e.value.str, after);
      } else {
        ValueBack(e.value, indent, after);
      }
    }
  }

  lemma MemberRead(e: Elem, spaces: Bytes, value: Bytes, after: Bytes)
    requires GoodName(e.name) && Skip(value) == value && ParseValue(value) == Some(Valued(e.value, Skip(after)))
    ensures ParseElem(NameText(e.name) + value) == Some(Parsed(e, Skip(after)))
    ensures Skip(NameText(e.name) + value) == NameText(e.name) + value
  {
    NameBack(e.name, value);
    assert Hd(NameText(e.name) + value) == QUOTE;
  }

  /**
   * Documents come back: parsing what was printed gives the same tree and stops behind it, whatever
   * follows, as long as that does not look like a part of the value.
   */
  lemma DocumentBack(root: Elem, member: bool, after: Bytes)
    requires GoodElem(root, member) && (root.name == [] <==> !member) && Follows(after)
    requires FourLetters(root.value) ==> after != []
    ensures Parse(Document(root) + after) == Some(Parsed(root, Skip(after)))
  {
    ElemBack(root, 0, member, after);
    ValueOpens(root.value, 0);
    assert !member ==> ElemText(root, 0, true) == ElemText(root, 0, false);
  }

  /**
   * A document with nothing behind it comes back exactly when its root is not `null` or `true`:
   * `pj_scan_strcmp` for "false" fails first, for want of a fifth character.
   */
  lemma RootExact(root: Elem, member: bool)
    requires GoodElem(root, member) && (root.name == [] <==> !member)
    ensures Parse(Document(root)) == Some(Parsed(root, [])) <==> !FourLetters(root.value)
    ensures FourLetters(root.value) ==> Parse(Document(root)) == None
  {
    if FourLetters(root.value) {
      FourLettersFail(root, member);
    } else {
      assert Document(root) + [] == Document(root);
      DocumentBack(root, member, []);
    }
  }

  lemma FourLettersFail(root: Elem, member: bool)
    requires GoodElem(root, member) && (root.name == [] <==> !member) && FourLetters(root.value)
    ensures Parse(Document(root)) == None
  {
    var text := ValueText(root.value, 0);
    assert |text| == 4 && text[0] in [110, 116];
    SkipStops(text);
    NoKeyword(text);
    if member {
      NameBack(root.name, text);
      Associate(Spaces(0), NameText(root.name), text);
      assert Spaces(0) + (NameText(root.name) + text) == NameText(root.name) + text;
      assert Hd(NameText(root.name) + text) == QUOTE;
      SkipStops(NameText(root.name) + text);
      NoValue(NameText(root.name) + text, Named(root.name, [], text));
    } else {
      assert [] + text == text;
      NoValue(text, Named([], [], text));
    }
  }

  lemma NoKeyword(r: Bytes)
    requires |r| == 4 && r[0] in [110, 116]
    ensures ParseValue(r) == None
  {
  }

  lemma NoValue(r: Bytes, n: Named)
    requires ParseName(r) == Some(n) && n.str == [] && ParseValue(n.rest) == None
    ensures ParseElem(r) == None
  {
  }

  // ----- exactly which names and unnamed strings come back -----

  lemma {:induction false} EscapeLonger(v: Bytes)
    ensures |Escape(v)| >= |v| && (!PlainText(v) ==> |Escape(v)| > |v|)
    ensures QUOTE !in v ==> QUOTE !in Escape(v)
  {
    if v != [] {
      EscapeLonger(v[1..]);
      EscapeByteLonger(v[0]);
      assert v == [v[0]] + v[1..];
    }
  }

  lemma EscapeByteLonger(b: Byte)
    ensures |EscapeByte(b)| == 1 <==> IsPlain(b) && ShortEscape(b) == 0
    ensures b != QUOTE ==> QUOTE !in EscapeByte(b)
    ensures EscapeByte(b)[0] != QUOTE && !IsNewline(EscapeByte(b)[0]) && (IsSpace(EscapeByte(b)[0]) ==> b == SPACE)
  {
  }

  /** The text in front of the next quote, blanks skipped, as `parse_elem_throw` takes it. */
  function FirstText(v: Bytes, more: Bytes): Bytes {
    var s := Skip(Escape(v) + ([QUOTE] + more));
    s[..UntilCh(s, QUOTE)]
  }

  /** It is the string itself exactly for the good names. */
  lemma FirstTextExact(v: Bytes, more: Bytes)
    requires v != [] && FirstText(v, more) == v
    ensures GoodName(v)
  {
    var s := Skip(Escape(v) + ([QUOTE] + more));
    assert QUOTE !in v;
    assert v[0] == s[0];
    EscapeLonger(v);
    EscapeByteLonger(v[0]);
    assert (Escape(v) + ([QUOTE] + more))[0] == EscapeByte(v[0])[0];
    SkipStops(Escape(v) + ([QUOTE] + more));
    UntilBehind(Escape(v), [QUOTE] + more);
  }

  lemma UntilBehind(a: Bytes, b: Bytes)
    requires QUOTE !in a
    ensures UntilCh(a + b, QUOTE) >= |a|
  {
  }

  /** Only blanks can be skipped up to the closing quote. */
  lemma {:induction false} FirstTextEmpty(v: Bytes, more: Bytes)
    ensures var s := Skip(Escape(v) + ([QUOTE] + more)); s != [] && (s[0] == QUOTE ==> s == [QUOTE] + more)
  {
    if v == [] {
      assert Escape(v) + ([QUOTE] + more) == [QUOTE] + more;
    } else {
      EscapeByteLonger(v[0]);
      var rest := Escape(v[1..]) + ([QUOTE] + more);
      Associate(EscapeByte(v[0]), Escape(v[1..]), [QUOTE] + more);
      assert (EscapeByte(v[0]) + rest)[0] == EscapeByte(v[0])[0];
      if v[0] == SPACE {
        SkipOne(SPACE, rest);
        FirstTextEmpty(v[1..], more);
      } else {
        SkipStops(EscapeByte(v[0]) + rest);
      }
    }
  }

  /** What `parse_elem_throw` makes of a literal at its start. */
  lemma FirstOf(v: Bytes, more: Bytes)
    ensures var r := Literal(v) + more;
            match ParseName(r)
            case None => true
            case Some(n) =>
              (n.name == FirstText(v, more) && n.str == []) || (n.name == [] && n.str == FirstText(v, more))
  {
    var r := Literal(v) + more;
    assert r[0] == QUOTE && r[1..] == Escape(v) + ([QUOTE] + more);
  }

  /** A printed name is read back if and only if it is a good one. */
  lemma NameExact(name: Bytes, more: Bytes)
    requires name != []
    ensures ParseName(NameText(name) + more) == Some(Named(name, [], Skip(more))) <==> GoodName(name)
  {
    if GoodName(name) {
      NameBack(name, more);
    } else {
      var behind := [COLON] + ([SPACE] + Padding(name)) + more;
      Associate(Literal(name), [COLON] + ([SPACE] + Padding(name)), more);
      FirstOf(name, behind);
      if FirstText(name, behind) == name {
        FirstTextExact(name, behind);
      }
    }
  }

  /** An empty text: the closing quote has been reached, and no colon follows. */
  lemma EmptyText(v: Bytes, after: Bytes)
    requires FirstText(v, after) == [] && Follows(after)
    ensures ParseName(Literal(v) + after) == Some(Named([], [], Skip(after)))
  {
    var r, s := Literal(v) + after, [QUOTE] + after;
    FirstTextEmpty(v, after);
    CloseRead(QUOTE, Escape(v) + s);
    Associate([QUOTE] + Escape(v), [QUOTE], after);
    Associate([QUOTE], Escape(v), s);
    SkipStops(s);
    CloseRead(QUOTE, after);
    assert s[..0] == [] && s[0..] == s;
    NameOf(r, s, Token([], s), Skip(after));
  }

  lemma NameOf(r: Bytes, r1: Bytes, t: Token, r2: Bytes)
    requires Hd(r) == QUOTE && GetChar(r) == Some(r1) && GetUntilCh(r1, QUOTE) == Some(t) && GetChar(t.rest) == Some(r2)
    ensures ParseName(r) == AfterName(t.text, r2)
  {
  }

  /** An unnamed string is read back if and only if it could be a name. */
  lemma UnnamedExact(s: Bytes, after: Bytes)
    requires Follows(after)
    ensures ParseElem(Literal(s) + after) == Some(Parsed(Elem([], Str(s)), Skip(after))) <==> GoodName(s)
  {
    if GoodName(s) {
      UnnamedBack(s, after);
    } else {
      FirstOf(s, after);
      if FirstText(s, after) == [] {
        EmptyText(s, after);
      } else if FirstText(s, after) == s {
        FirstTextExact(s, after);
      }
    }
  }

  // ----- the indent buffer -----

  /** Every indent written is within the hundred spaces of the buffer. */
  predicate IndentFits(e: Elem, indent: nat)
    decreases e, 0
  {
    (e.name != [] ==> indent <= MAX_INDENT) && ValueIndentFits(e.value, indent)
  }

  predicate ValueIndentFits(v: Value, indent: nat)
    decreases v, 0
  {
    match v
    case Arr(cs) => ListIndentFits(cs, indent)
    case Obj(cs) => ListIndentFits(cs, indent)
    case _ => true
  }

  predicate ListIndentFits(cs: seq<Elem>, indent: nat)
    decreases cs, 1
  {
    if cs == [] then true
    else if cs[0].name == [] then AllIndentFits(cs, indent)
    else indent <= MAX_INDENT && AllIndentFits(cs, Deeper(indent))
  }

  predicate AllIndentFits(cs: seq<Elem>, indent: nat)
    decreases cs, 0
  {
    forall i :: 0 <= i < |cs| ==> IndentFits(cs[i], indent)
  }

  /** How many lists starting with a named child are nested in a value. */
  function Depth(v: Value): nat
    decreases v, 0
  {
    match v
    case Arr(cs) => ListDepth(cs)
    case Obj(cs) => ListDepth(cs)
    case _ => 0
  }

  function ListDepth(cs: seq<Elem>): nat
    decreases cs, 1
  {
    if cs == [] then 0 else (if cs[0].name == [] then 0 else 1) + MaxDepth(cs)
  }

  function MaxDepth(cs: seq<Elem>): nat
    decreases cs, 0
  {
    if cs == [] then 0
    else
      var rest := MaxDepth(cs[1..]);
      if Depth(cs[0].value) > rest then Depth(cs[0].value) else rest
  }

  const DEEPEST := 33

  /** The buffer is long enough exactly for thirty-three nestings. */
  lemma {:induction false} DepthExact(v: Value, d: nat)
    requires d <= DEEPEST
    ensures ValueIndentFits(v, INDENT_SIZE * d) <==> d + Depth(v) <= DEEPEST
    decreases v, 0
  {
    match v
    case Arr(cs) => ListDepthExact(cs, d);
    case Obj(cs) => ListDepthExact(cs, d);
    case _ =>
  }

  lemma {:induction false} ListDepthExact(cs: seq<Elem>, d: nat)
    requires d <= DEEPEST
    ensures ListIndentFits(cs, INDENT_SIZE * d) <==> d + ListDepth(cs) <= DEEPEST
    decreases cs, 1
  {
    if cs != [] {
      if cs[0].name == [] {
        MaxDepthExact(cs, d);
      } else if d < DEEPEST {
        MaxDepthExact(cs, d + 1);
      } else {
        assert !IndentFits(cs[0], Deeper(INDENT_SIZE * d));
      }
    }
  }

  lemma AllIndentFitsParts(cs: seq<Elem>, indent: nat)
    requires cs != []
    ensures AllIndentFits(cs, indent) <==> IndentFits(cs[0], indent) && AllIndentFits(cs[1..], indent)
  {
    if IndentFits(cs[0], indent) && AllIndentFits(cs[1..], indent) {
      forall i | 0 <= i < |cs| ensures IndentFits(cs[i], indent) {
        assert i > 0 ==> cs[i] == cs[1..][i - 1];
      }
    }
  }

  lemma {:induction false} MaxDepthExact(cs: seq<Elem>, d: nat)
    requires d <= DEEPEST
    ensures AllIndentFits(cs, INDENT_SIZE * d) <==> d + MaxDepth(cs) <= DEEPEST
    decreases cs, 0
  {
    if cs != [] {
      DepthExact(cs[0].value, d);
      MaxDepthExact(cs[1..], d);
      var indent := INDENT_SIZE * d;
      assert IndentFits(cs[0], indent) <==> ValueIndentFits(cs[0].value, indent);
      AllIndentFitsParts(cs, indent);
    }
  }
}
