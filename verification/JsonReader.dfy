/** The scanner with its cursor and the recursive parser that moves it, against JsonText and JsonDoc. */
module JsonReader {
  import opened Bytes
  import opened JsonText
  import opened JsonDoc

  // ----- what one step of a loop keeps -----

  lemma SuffixStep(t: Bytes, s: nat)
    requires s < |t|
    ensures t[s..] != [] && t[s..][0] == t[s] && t[s..][1..] == t[s + 1..]
  {
  }

  lemma SuffixSplit(t: Bytes, i: nat, s: nat)
    requires i <= s <= |t|
    ensures t[i..][..s - i] == t[i..s] && t[i..][s - i..] == t[s..]
  {
  }

  lemma SuffixAt(t: Bytes, i: nat, s: nat)
    requires i < s <= |t|
    ensures t[i..][s - 1 - i] == t[s - 1] && (s < |t| ==> t[i..][s - i] == t[s])
  {
  }

  lemma StopsHere(r: Bytes, j: nat)
    requires j <= |r| && (j < |r| ==> r[j] == NEWLINE || Closes(r, j))
    ensures QuoteEnd(r, j) == j
  {
  }

  lemma SkipStep(t: Bytes, s: nat)
    requires s < |t| && (IsSpace(t[s]) || IsNewline(t[s]))
    ensures Skip(t[s..]) == Skip(t[s + 1..])
  {
    SuffixStep(t, s);
  }

  lemma UntilStep(t: Bytes, s: nat, ch: Byte)
    requires s <= |t|
    ensures UntilCh(t[s..], ch) == if s == |t| || t[s] == ch then 0 else 1 + UntilCh(t[s + 1..], ch)
  {
    if s < |t| {
      SuffixStep(t, s);
    }
  }

  lemma SpanStep(t: Bytes, s: nat)
    requires s <= |t|
    ensures Span(t[s..]) == if s == |t| || !IsNumberChar(t[s]) then 0 else 1 + Span(t[s + 1..])
  {
    if s < |t| {
      SuffixStep(t, s);
    }
  }

  /** What has been unescaped so far, and the rest. */
  function Onto(done: Bytes, rest: Option<Bytes>): Option<Bytes> {
    match rest
    case None => None
    case Some(v) => Some(done + v)
  }

  lemma OntoNothing(rest: Option<Bytes>)
    ensures Onto([], rest) == rest
  {
    match rest
    case None =>
    case Some(v) => assert [] + v == v;
  }

  lemma OntoStep(done: Bytes, t: Bytes, i: nat)
    requires i < |t|
    ensures match NextPiece(t[i..])
            case None => Onto(done, Unescape(t[i..])) == None
            case Some(p) =>
              i + p.len <= |t| && Onto(done, Unescape(t[i..])) == Onto(done + [p.value], Unescape(t[i + p.len..]))
  {
    match NextPiece(t[i..])
    case None =>
    case Some(p) =>
      assert t[i..][p.len..] == t[i + p.len..];
      match Unescape(t[i + p.len..])
      case None =>
      case Some(v) => assert done + ([p.value] + v) == done + [p.value] + v;
  }

  function OntoList(done: seq<Elem>, rest: Option<Listed>): Option<Listed> {
    match rest
    case None => None
    case Some(l) => Some(Listed(done + l.children, l.rest))
  }

  lemma OntoListNothing(rest: Option<Listed>)
    ensures OntoList([], rest) == rest
  {
    match rest
    case None =>
    case Some(l) => assert [] + l.children == l.children;
  }

  /** The closing bracket ends the list. */
  lemma OntoListEnd(done: seq<Elem>, r: Bytes, close: Byte)
    requires close != 0 && close != COMMA && Hd(r) == close
    ensures OntoList(done, ParseChildren(r, close)) == Some(Listed(done, Skip(r[1..])))
  {
    assert Commas(r) == r;
    assert done + [] == done;
  }

  lemma OntoListStep(done: seq<Elem>, r: Bytes, close: Byte)
    requires close != 0 && Hd(r) != COMMA && Hd(r) != close
    ensures match ParseElem(r)
            case None => OntoList(done, ParseChildren(r, close)) == None
            case Some(p) =>
              OntoList(done, ParseChildren(r, close)) == OntoList(done + [p.elem], ParseChildren(p.rest, close))
  {
    assert Commas(r) == r;
    match ParseElem(r)
    case None =>
    case Some(p) =>
      match ParseChildren(p.rest, close)
      case None =>
      case Some(l) => assert done + ([p.elem] + l.children) == done + [p.elem] + l.children;
  }

  lemma CommaStep(r: Bytes, close: Byte)
    requires close != 0 && Hd(r) == COMMA
    ensures ParseChildren(r, close) == ParseChildren(Skip(r[1..]), close)
  {
    SameCommas(r, Skip(r[1..]), close);
  }

  class Scanner {
    const text: Bytes
    var cur: nat

    predicate Valid()
      reads this
    {
      cur <= |text|
    }

    /** What lies ahead of the cursor. */
    ghost function Ahead(): (r: Bytes)
      reads this
      requires Valid()
      ensures |r| == |text| - cur
    {
      text[cur..]
    }

    /** The buffer ends in a NUL. */
    function At(i: nat): (b: Byte)
      requires i <= |text|
      ensures b == Hd(text[i..])
    {
      if i < |text| then text[i] else 0
    }

    constructor (buffer: Bytes)
      ensures Valid() && text == buffer && Ahead() == Skip(buffer)
    {
      text := buffer;
      cur := 0;
      new;
      assert text[0..] == buffer;
      SkipBlanks();
    }

    /** Blanks, and then lines with their leading blanks. */
    method BlanksEnd(start: nat) returns (s: nat)
      requires start <= |text|
      ensures start <= s <= |text| && text[s..] == Skip(text[start..])
    {
      s := start;
      while IsSpace(At(s))
        invariant start <= s <= |text| && Skip(text[s..]) == Skip(text[start..])
        decreases |text| - s
      {
        SkipStep(text, s);
        s := s + 1;
      }
      if IsNewline(At(s)) {
        while IsSpace(At(s)) || IsNewline(At(s))
          invariant start <= s <= |text| && Skip(text[s..]) == Skip(text[start..])
          decreases |text| - s
        {
          SkipStep(text, s);
          s := s + 1;
          if At(s - 1) == 13 && At(s) == NEWLINE {
            SkipStep(text, s);
            s := s + 1;
          }
        }
      }
      SkipStops(text[s..]);
    }

    /** `pj_scan_skip_whitespace`. */
    method SkipBlanks()
      requires Valid()
      modifies this`cur
      ensures Valid() && Ahead() == Skip(old(Ahead()))
    {
      cur := BlanksEnd(cur);
    }

    /** The cursor moves, and over blanks if there may be some. */
    method MoveTo(s: nat)
      requires s <= |text|
      modifies this`cur
      ensures Valid() && Ahead() == Skip(text[s..])
    {
      cur := s;
      if At(cur) <= 32 {
        SkipBlanks();
      } else {
        SkipStops(text[s..]);
      }
    }

    /** `pj_scan_get_char`. */
    method TakeChar() returns (ok: bool)
      requires Valid()
      modifies this`cur
      ensures Valid()
      ensures match GetChar(old(Ahead()))
              case None => !ok
              case Some(r) => ok && Ahead() == r
    {
      ok := At(cur) != 0;
      if ok {
        SuffixStep(text, cur);
        MoveTo(cur + 1);
      }
    }

    /** `pj_scan_get_until_ch`. */
    method TakeUntil(ch: Byte) returns (token: Option<Bytes>)
      requires Valid()
      modifies this`cur
      ensures Valid()
      ensures match GetUntilCh(old(Ahead()), ch)
              case None => token == None
              case Some(t) => token == Some(t.text) && Ahead() == t.rest
    {
      if cur >= |text| {
        return None;
      }
      var s := UntilEnd(cur, ch);
      SuffixSplit(text, cur, s);
      token := Some(text[cur..s]);
      MoveTo(s);
    }

    method UntilEnd(start: nat, ch: Byte) returns (s: nat)
      requires start <= |text|
      ensures start <= s <= |text| && s - start == UntilCh(text[start..], ch)
    {
      s := start;
      while s != |text| && text[s] != ch
        invariant start <= s <= |text| && UntilCh(text[start..], ch) == s - start + UntilCh(text[s..], ch)
        decreases |text| - s
      {
        UntilStep(text, s, ch);
        s := s + 1;
      }
      UntilStep(text, s, ch);
    }

    /** `pj_scan_get` for the characters of a number. */
    method TakeNumber() returns (token: Option<Bytes>)
      requires Valid()
      modifies this`cur
      ensures Valid()
      ensures var r := old(Ahead());
              if Span(r) == 0 then token == None else token == Some(r[..Span(r)]) && Ahead() == Skip(r[Span(r)..])
    {
      SpanStep(text, cur);
      if !IsNumberChar(At(cur)) {
        return None;
      }
      var s := SpanEnd(cur);
      SuffixSplit(text, cur, s);
      token := Some(text[cur..s]);
      MoveTo(s);
    }

    method SpanEnd(start: nat) returns (s: nat)
      requires start <= |text|
      ensures start <= s <= |text| && s - start == Span(text[start..])
    {
      s := start;
      while IsNumberChar(At(s))
        invariant start <= s <= |text| && Span(text[start..]) == s - start + Span(text[s..])
        decreases |text| - s
      {
        SpanStep(text, s);
        s := s + 1;
      }
      SpanStep(text, s);
    }

    /** The backslashes in front of s, the first of which has been seen. */
    method MoreBackslashes(s: nat) returns (n: nat)
      requires Valid() && cur + 1 < s <= |text| && text[cur] == QUOTE && text[s - 1] == BACKSLASH
      ensures Backslashes(Ahead(), s - cur) == 1 + n
    {
      var r := Ahead();
      var q := s - 2;
      var p := q;
      assert r[s - cur - 1] == text[s - 1];
      while p != 0 && text[p] == BACKSLASH
        invariant cur <= p <= q
        invariant Backslashes(r, s - cur) == 1 + (q - p) + Backslashes(r, p + 1 - cur)
        decreases p
      {
        assert r[p - cur] == text[p];
        p := p - 1;
      }
      assert r[p - cur] == text[p];
      n := q - p;
    }

    /** On to the next quote or newline. */
    method NextStop(start: nat) returns (s: nat)
      requires Valid() && cur + 1 <= start <= |text|
      ensures start <= s <= |text| && (s < |text| ==> text[s] == NEWLINE || text[s] == QUOTE)
      ensures QuoteEnd(Ahead(), start - cur) == QuoteEnd(Ahead(), s - cur)
    {
      ghost var r := Ahead();
      s := start;
      while s != |text| && text[s] != NEWLINE && text[s] != QUOTE
        invariant start <= s <= |text| && QuoteEnd(r, start - cur) == QuoteEnd(r, s - cur)
        decreases |text| - s
      {
        assert r[s - cur] == text[s];
        s := s + 1;
      }
    }

    /** The test for an even number of backslashes, the last of which is looked at first. */
    method ClosesAt(s: nat) returns (closes: bool)
      requires Valid() && At(cur) == QUOTE && cur < s < |text| && text[s] == QUOTE
      ensures closes == Closes(Ahead(), s - cur)
    {
      SuffixAt(text, cur, s);
      if text[s - 1] != BACKSLASH {
        return true;
      }
      var n := MoreBackslashes(s);
      closes := n % 2 == 1;
    }

    /** The search for the closing quote. */
    method FindQuote() returns (s: nat)
      requires Valid() && At(cur) == QUOTE
      ensures cur + 1 <= s <= |text| && s - cur == QuoteEnd(Ahead(), 1)
    {
      ghost var r := Ahead();
      s := cur + 1;
      while true
        invariant cur + 1 <= s <= |text| && QuoteEnd(r, 1) == QuoteEnd(r, s - cur)
        decreases |text| - s
      {
        s := NextStop(s);
        SuffixAt(text, cur, s);
        if At(s) != QUOTE {
          StopsHere(r, s - cur);
          return;
        }
        var closes := ClosesAt(s);
        if closes {
          StopsHere(r, s - cur);
          return;
        }
        s := s + 1;
      }
    }

    /** `pj_scan_get_quote`; the token keeps its quotes. */
    method TakeQuote() returns (token: Option<Bytes>)
      requires Valid()
      modifies this`cur
      ensures Valid()
      ensures match GetQuote(old(Ahead()))
              case None => token == None
              case Some(t) => token == Some(t.text) && Ahead() == t.rest
    {
      if At(cur) != QUOTE {
        return None;
      }
      var s := FindQuote();
      if At(s) != QUOTE {
        return None;
      }
      SuffixSplit(text, cur, s + 1);
      token := Some(text[cur..s + 1]);
      MoveTo(s + 1);
    }

    /** `pj_scan_strcmp`: no answer if fewer characters than in the word lie ahead. */
    method Compare(word: Bytes) returns (same: Option<bool>)
      requires Valid()
      ensures same == if |Ahead()| < |word| then None else Some(Ahead()[..|word|] == word)
    {
      if cur + |word| > |text| {
        return None;
      }
      assert text[cur..][..|word|] == text[cur..cur + |word|];
      return Some(text[cur..cur + |word|] == word);
    }

    /** `pj_scan_advance_n`. */
    method Advance(n: nat) returns (ok: bool)
      requires Valid()
      modifies this`cur
      ensures Valid() && ok == (n <= old(|Ahead()|))
      ensures ok ==> Ahead() == Skip(old(Ahead())[n..])
    {
      ok := cur + n <= |text|;
      if ok {
        assert text[cur..][n..] == text[cur + n..];
        MoveTo(cur + n);
      }
    }
 
    // ----- the parser -----

    /** The character an escape stands for; p is at the backslash. */
    static method TakeEscape(t: Bytes, p: nat) returns (value: Byte, next: nat, ok: bool)
      requires p < |t| && t[p] == BACKSLASH
      ensures p < next && (ok ==> next <= |t|)
      ensures NextPiece(t[p..]) == if ok then Some(Piece(value, next - p)) else None
    {
      value, next, ok := 0, p + 1, true;
      SuffixStep(t, p);
      if next == |t| {
        return value, next, false;
      }
      assert t[p..][1] == t[next];
      if t[next] == 117 {
        next := next + 1;
        if |t| - next < 4 {
          return value, next, false;
        }
        assert t[p..][4] == t[next + 2] && t[p..][5] == t[next + 3];
        value := HexValue(t[next + 2]) * 16 + HexValue(t[next + 3]);
        next := next + 4;
        return;
      }
      match LetterValue(t[next]) {
        case Some(b) => return b, next + 1, true;
        case None => return value, next, false;
      }
    }

    /** The loop of `parse_quoted_string`. */
    static method UnescapeToken(t: Bytes) returns (v: Option<Bytes>)
      ensures v == Unescape(t)
    {
      var op: Bytes, ip: nat := [], 0;
      assert t[0..] == t;
      OntoNothing(Unescape(t));
      while ip != |t|
        invariant ip <= |t| && Onto(op, Unescape(t[ip..])) == Unescape(t)
        decreases |t| - ip
      {
        OntoStep(op, t, ip);
        SuffixStep(t, ip);
        if t[ip] == BACKSLASH {
          var b, next, ok := TakeEscape(t, ip);
          if !ok {
            return None;
          }
          op := op + [b];
          ip := next;
        } else {
          op := op + [t[ip]];
          ip := ip + 1;
        }
      }
      assert t[ip..] == [] && op + [] == op;
      return Some(op);
    }

    /** `parse_quoted_string`: without backslashes the token is the value. */
    method TakeString() returns (v: Option<Bytes>)
      requires Valid()
      modifies this`cur
      ensures Valid()
      ensures match QuotedString(old(Ahead()))
              case None => v == None
              case Some(t) => v == Some(t.text) && Ahead() == t.rest
    {
      var token := TakeQuote();
      if token == None {
        return None;
      }
      var inner := token.value[1..|token.value| - 1];
      if BACKSLASH !in inner {
        UnescapePlain(inner);
        return Some(inner);
      }
      v := UnescapeToken(inner);
    }

    /** The name of an element, or the string it consists of. */
    method TakeName() returns (ok: bool, name: Bytes, str: Bytes)
      requires Valid()
      modifies this`cur
      ensures Valid()
      ensures match ParseName(old(Ahead()))
              case None => !ok
              case Some(n) => ok && name == n.name && str == n.str && Ahead() == n.rest
    {
      ok, name, str := true, [], [];
      if At(cur) == QUOTE {
        ok := TakeChar();
        if !ok {
          return;
        }
        var token := TakeUntil(QUOTE);
        if token == None {
          return false, name, str;
        }
        ok := TakeChar();
        if !ok {
          return;
        }
        if At(cur) == COLON {
          ok := TakeChar();
          name := token.value;
        } else {
          str := token.value;
        }
      }
    }

    method TakeSigned() returns (v: Option<Value>)
      requires Valid()
      modifies this`cur
      ensures Valid()
      ensures match ParseNumber(old(Ahead()))
              case None => v == None
              case Some(p) => v == Some(p.value) && Ahead() == p.rest
    {
      var neg := false;
      if At(cur) == MINUS {
        var ok := TakeChar();
        neg := true;
      }
      var digits := TakeNumber();
      if digits == None {
        return None;
      }
      return Some(Num(neg, digits.value));
    }

    /** The three comparisons, of which the longest word comes first. */
    method TakeKeyword() returns (v: Option<Value>)
      requires Valid()
      modifies this`cur
      ensures Valid()
      ensures match ParseKeyword(old(Ahead()))
              case None => v == None
              case Some(p) => v == Some(p.value) && Ahead() == p.rest
    {
      var same := Compare(FALSE_WORD);
      if same == None {
        return None;
      }
      if same.value {
        var ok := Advance(5);
        return Some(Bool(false));
      }
      same := Compare(TRUE_WORD);
      if same.value {
        var ok := Advance(4);
        return Some(Bool(true));
      }
      same := Compare(NULL_WORD);
      if same.value {
        var ok := Advance(4);
        return Some(Null);
      }
      return None;
    }

    /** The part of `parse_elem_throw` that reads a value. */
    method TakeValue() returns (v: Option<Value>)
      requires Valid()
      modifies this`cur
      ensures Valid()
      ensures match ParseValue(old(Ahead()))
              case None => v == None
              case Some(p) => v == Some(p.value) && Ahead() == p.rest
      decreases |text| - cur, 1
    {
      var c := At(cur);
      if IsNumberChar(c) || c == MINUS {
        v := TakeSigned();
      } else if c == QUOTE {
        var s := TakeString();
        return if s == None then None else Some(Str(s.value));
      } else if IsAlpha(c) {
        v := TakeKeyword();
      } else if c == LBRACKET {
        var cs := TakeChildren(RBRACKET);
        return if cs == None then None else Some(Arr(cs.value));
      } else if c == LBRACE {
        var cs := TakeChildren(RBRACE);
        return if cs == None then None else Some(Obj(cs.value));
      } else {
        return None;
      }
    }

    /** `parse_elem_throw`. */
    method TakeElem() returns (e: Option<Elem>)
      requires Valid()
      modifies this`cur
      ensures Valid()
      ensures match ParseElem(old(Ahead()))
              case None => e == None
              case Some(p) => e == Some(p.elem) && Ahead() == p.rest
      decreases |text| - cur, 2
    {
      var ok, name, str := TakeName();
      if !ok {
        return None;
      }
      if str != [] {
        return Some(Elem([], Str(str)));
      }
      var v := TakeValue();
      return if v == None then None else Some(Elem(name, v.value));
    }

    /** `parse_children`, from the opening bracket to the closing one. */
    method TakeChildren(close: Byte) returns (cs: Option<seq<Elem>>)
      requires Valid() && At(cur) != 0 && close != 0 && close != COMMA
      modifies this`cur
      ensures Valid()
      ensures match ParseChildren(Skip(old(Ahead())[1..]), close)
              case None => cs == None
              case Some(l) => cs == Some(l.children) && Ahead() == l.rest
      decreases |text| - cur, 0
    {
      var ok := TakeChar();
      ghost var start := Ahead();
      var children: seq<Elem> := [];
      OntoListNothing(ParseChildren(start, close));
      while At(cur) != close
        invariant Valid() && |Ahead()| <= |start|
        invariant ParseChildren(start, close) == OntoList(children, ParseChildren(Ahead(), close))
        decreases |text| - cur
      {
        SkipCommas(close);
        if At(cur) == close {
          break;
        }
        OntoListStep(children, Ahead(), close);
        var child := TakeElem();
        if child == None {
          return None;
        }
        children := children + [child.value];
      }
      OntoListEnd(children, Ahead(), close);
      ok := TakeChar();
      return Some(children);
    }

    method SkipCommas(ghost close: Byte)
      requires Valid() && close != 0
      modifies this`cur
      ensures Valid() && Hd(Ahead()) != COMMA && |Ahead()| <= old(|Ahead()|)
      ensures ParseChildren(Ahead(), close) == ParseChildren(old(Ahead()), close)
    {
      ghost var start := Ahead();
      while At(cur) == COMMA
        invariant Valid() && |Ahead()| <= |start| && ParseChildren(Ahead(), close) == ParseChildren(start, close)
        decreases |text| - cur
      {
        CommaStep(Ahead(), close);
        var ok := TakeChar();
      }
    }
  }

  /** `pj_json_parse`: the root element, if any, and how much of the input is left. */
  method ParseJson(buffer: Bytes) returns (root: Option<Elem>, left: nat)
    ensures left <= |buffer|
    ensures match Parse(buffer)
            case None => root == None
            case Some(p) => root == Some(p.elem) && left == |p.rest|
  {
    if |buffer| == 0 {
      return None, 0;
    }
    var scanner := new Scanner(buffer);
    root := scanner.TakeElem();
    left := |scanner.text| - scanner.cur;
  }
}
