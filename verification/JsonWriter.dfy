/** `pj_json_write`: the recursive writer over a buffer of limited size, against JsonDoc. */
module JsonWriter {
  import opened Bytes
  import opened JsonText
  import opened JsonDoc

  const ESC_BUF_LEN := 64

  /**
   * A text was written whole, or did not fit: `buf_writer` keeps more than one octet free. Before,
   * w0 had been written and s0 octets were left; now w1 and s1.
   */
  predicate Did(ok: bool, w0: Bytes, s0: nat, w1: Bytes, s1: nat, text: Bytes) {
    && (ok <==> |text| + 1 < s0)
    && (ok ==> w1 == w0 + text && s1 == s0 - |text|)
  }

  lemma DidBoth(ok: bool, w0: Bytes, s0: nat, w1: Bytes, s1: nat, w2: Bytes, s2: nat, a: Bytes, b: Bytes)
    requires Did(true, w0, s0, w1, s1, a) && Did(ok, w1, s1, w2, s2, b)
    ensures Did(ok, w0, s0, w2, s2, a + b)
  {
    Associate(w0, a, b);
  }

  lemma DidNot(w0: Bytes, s0: nat, w1: Bytes, s1: nat, a: Bytes, b: Bytes)
    requires Did(false, w0, s0, w1, s1, a)
    ensures Did(false, w0, s0, w1, s1, a + b)
  {
  }

  /** The first i texts of a list were written, done in all. */
  predicate DidSoFar(i: nat, w0: Bytes, s0: nat, w1: Bytes, s1: nat, done: Bytes) {
    if i == 0 then w1 == w0 && s1 == s0 && done == [] else Did(true, w0, s0, w1, s1, done)
  }

  lemma DidOneMore(ok: bool, i: nat, w0: Bytes, s0: nat, w1: Bytes, s1: nat, w2: Bytes, s2: nat, done: Bytes, one: Bytes)
    requires DidSoFar(i, w0, s0, w1, s1, done) && Did(ok, w1, s1, w2, s2, one)
    ensures Did(ok, w0, s0, w2, s2, done + one)
  {
    if i == 0 {
      assert [] + one == one;
    } else {
      DidBoth(ok, w0, s0, w1, s1, w2, s2, done, one);
    }
  }

  lemma ChunkStep(chunk: Bytes, v: Bytes, i: nat)
    requires i < |v|
    ensures chunk + Escape(v[i..]) == chunk + EscapeByte(v[i]) + Escape(v[i + 1..])
  {
    assert v[i..][0] == v[i] && v[i..][1..] == v[i + 1..];
    Associate(chunk, EscapeByte(v[i]), Escape(v[i + 1..]));
  }

  /** One escaped character goes into the chunk at op. */
  method PutEscaped(buf: array<Byte>, op: nat, b: Byte)
    requires op + |EscapeByte(b)| <= buf.Length
    modifies buf
    ensures buf[..op + |EscapeByte(b)|] == old(buf[..op]) + EscapeByte(b)
  {
    if ShortEscape(b) != 0 {
      buf[op] := BACKSLASH;
      buf[op + 1] := ShortEscape(b);
    } else if IsPlain(b) {
      buf[op] := b;
    } else {
      buf[op] := BACKSLASH;
      buf[op + 1] := 117;
      buf[op + 2] := 48;
      buf[op + 3] := 48;
      buf[op + 4] := HexDigit(b / 16);
      buf[op + 5] := HexDigit(b % 16);
    }
    assert forall i :: 0 <= i < |EscapeByte(b)| ==> buf[op + i] == EscapeByte(b)[i];
  }

  /** The inner loop of `write_string_escaped`: as many characters as are sure to fit. */
  method FillChunk(v: Bytes, start: nat, buf: array<Byte>) returns (ip: nat, op: nat)
    requires start < |v| && buf.Length == ESC_BUF_LEN
    modifies buf
    ensures start < ip <= |v| && op <= ESC_BUF_LEN && buf[..op] + Escape(v[ip..]) == Escape(v[start..])
  {
    ip, op := start, 0;
    ghost var chunk: Bytes := [];
    while ip != |v| && op != ESC_BUF_LEN
      invariant start <= ip <= |v| && op <= ESC_BUF_LEN && (ip == start ==> op == 0)
      invariant buf[..op] == chunk && chunk + Escape(v[ip..]) == Escape(v[start..])
      decreases |v| - ip
    {
      if ESC_BUF_LEN - op < 2 {
        break;
      }
      var b := v[ip];
      if ShortEscape(b) == 0 && !IsPlain(b) && ESC_BUF_LEN - op < 6 {
        break;
      }
      ChunkStep(chunk, v, ip);
      PutEscaped(buf, op, b);
      chunk := chunk + EscapeByte(b);
      op := op + |EscapeByte(b)|;
      ip := ip + 1;
    }
  }

  class Writer {
    const buffer: array<Byte>
    var pos: nat
    var size: nat
    const indentBuf: Bytes := Spaces(MAX_INDENT)
    const space: Bytes := Spaces(NAME_MIN_LEN)
    var indent: nat

    predicate Valid()
      reads this
    {
      pos + size <= buffer.Length
    }

    ghost function Written(): Bytes
      reads this, buffer
      requires Valid()
    {
      buffer[..pos]
    }

    constructor (buffer: array<Byte>, size: nat)
      requires size <= buffer.Length
      ensures Valid() && this.buffer == buffer && this.size == size && pos == 0 && indent == 0
    {
      this.buffer := buffer;
      this.size := size;
      pos := 0;
      indent := 0;
    }

    /** `buf_writer`. */
    method Write(s: Bytes) returns (ok: bool)
      requires Valid()
      modifies this`pos, this`size, buffer
      ensures Valid() && Did(ok, old(Written()), old(size), Written(), size, s)
      ensures !ok ==> Written() == old(Written()) && size == old(size)
      ensures pos >= old(pos) && forall i :: pos <= i < buffer.Length ==> buffer[i] == old(buffer[i])
    {
      if |s| + 1 >= size {
        return false;
      }
      var i := 0;
      while i < |s|
        invariant Valid() && pos == old(pos) && size == old(size) && 0 <= i <= |s|
        invariant buffer[..pos + i] == old(Written()) + s[..i]
        invariant forall k :: pos + i <= k < buffer.Length ==> buffer[k] == old(buffer[k])
      {
        buffer[pos + i] := s[i];
        i := i + 1;
      }
      pos := pos + |s|;
      size := size - |s|;
      ok := true;
    }

    /** `write_string_escaped`: an empty string is not written at all. */
    method WriteEscaped(v: Bytes) returns (ok: bool)
      requires Valid()
      modifies this`pos, this`size, buffer
      ensures Valid() && if v == [] then ok && Written() == old(Written()) && size == old(size)
                         else Did(ok, old(Written()), old(size), Written(), size, Escape(v))
    {
      var ip := 0;
      var buf := new Byte[ESC_BUF_LEN];
      ok := true;
      ghost var w, s := Written(), size;
      assert v[0..] == v;
      while ip != |v|
        invariant Valid() && 0 <= ip <= |v| && (ip > 0 ==> 1 < size)
        invariant Written() + Escape(v[ip..]) == w + Escape(v) && |Written()| + size == |w| + s
        decreases |v| - ip
      {
        var op: nat;
        ghost var from := ip;
        ip, op := FillChunk(v, ip, buf);
        Associate(Written(), buf[..op], Escape(v[ip..]));
        ok := Write(buf[..op]);
        if !ok {
          return;
        }
      }
      assert v[ip..] == [] && Written() + [] == Written() && (v == [] ==> w + [] == w);
    }
    /** A text between quotes: `end` is what follows it directly. */
    method WriteQuoted(v: Bytes, end: Bytes) returns (ok: bool)
      requires Valid() && end != [] && end[0] == QUOTE
      modifies this`pos, this`size, buffer
      ensures Valid() && Did(ok, old(Written()), old(size), Written(), size, Literal(v) + end[1..])
    {
      ghost var w, s := Written(), size;
      assert Literal(v) + end[1..] == [QUOTE] + Escape(v) + end;
      ok := Write([QUOTE]);
      if !ok {
        return;
      }
      ok := WriteEscaped(v);
      if !ok {
        return;
      }
      DidQuote(w, s, Written(), size, v);
      ghost var w2, s2 := Written(), size;
      ok := Write(end);
      DidBoth(ok, w, s, w2, s2, Written(), size, [QUOTE] + Escape(v), end);
    }

    /** The name of an element, with its colon and padding. */
    method WriteName(name: Bytes) returns (ok: bool)
      requires Valid()
      modifies this`pos, this`size, buffer
      ensures Valid() && Did(ok, old(Written()), old(size), Written(), size, NameText(name))
    {
      ghost var w, s := Written(), size;
      var end := [QUOTE, COLON, SPACE];
      NameTextParts(name);
      ok := WriteQuoted(name, end);
      if !ok {
        return;
      }
      ghost var w1, s1 := Written(), size;
      if |name| < NAME_MIN_LEN {
        SpacesPrefix(NAME_MIN_LEN - |name|, NAME_MIN_LEN);
        ok := Write(space[..NAME_MIN_LEN - |name|]);
        DidBoth(ok, w, s, w1, s1, Written(), size, Literal(name) + [COLON, SPACE], Padding(name));
      }
    }

    /** `elem_write`. */
    method WriteElem(e: Elem, noName: bool) returns (ok: bool)
      requires Valid() && IndentFits(e, indent)
      modifies this`pos, this`size, this`indent, buffer
      ensures Valid() && (ok ==> indent == old(indent))
      ensures Did(ok, old(Written()), old(size), Written(), size, ElemText(e, old(indent), noName))
      decreases e, 1
    {
      ghost var w, s := Written(), size;
      ghost var name, text := NamePart(e.name, indent, noName), ValueText(e.value, indent);
      if |e.name| != 0 {
        ok := WriteIndented(e.name, noName);
        if !ok {
          return;
        }
        ghost var w1, s1 := Written(), size;
        ok := WriteValue(e.value);
        DidBoth(ok, w, s, w1, s1, Written(), size, name, text);
      } else {
        assert name + text == text;
        ok := WriteValue(e.value);
      }
    }

    /** The part of `elem_write` for a named element. */
    method WriteIndented(name: Bytes, noName: bool) returns (ok: bool)
      requires Valid() && indent <= MAX_INDENT && name != []
      modifies this`pos, this`size, buffer
      ensures Valid() && Did(ok, old(Written()), old(size), Written(), size, NamePart(name, indent, noName))
    {
      ghost var w, s := Written(), size;
      SpacesPrefix(indent, MAX_INDENT);
      ok := Write(indentBuf[..indent]);
      if !ok || noName {
        return;
      }
      ghost var w1, s1 := Written(), size;
      ok := WriteName(name);
      DidBoth(ok, w, s, w1, s1, Written(), size, Spaces(indent), NameText(name));
    }

    method WriteValue(v: Value) returns (ok: bool)
      requires Valid() && ValueIndentFits(v, indent)
      modifies this`pos, this`size, this`indent, buffer
      ensures Valid() && (ok ==> indent == old(indent))
      ensures Did(ok, old(Written()), old(size), Written(), size, ValueText(v, old(indent)))
      decreases v, 0
    {
      match v {
        case Null => ok := Write(NULL_WORD);
        case Bool(b) => ok := Write(if b then TRUE_WORD else FALSE_WORD);
        case Num(neg, digits) => ok := Write((if neg then [MINUS] else []) + digits);
        case Str(s) =>
          assert Literal(s) + [] == Literal(s);
          ok := WriteQuoted(s, [QUOTE]);
        case Arr(cs) => ok := WriteChildren(cs, LBRACKET, RBRACKET);
        case Obj(cs) => ok := WriteChildren(cs, LBRACE, RBRACE);
      }
    }

    /** `write_children`. */
    method WriteChildren(cs: seq<Elem>, open: Byte, close: Byte) returns (ok: bool)
      requires Valid() && ListIndentFits(cs, indent)
      modifies this`pos, this`size, this`indent, buffer
      ensures Valid() && (ok ==> indent == old(indent))
      ensures Did(ok, old(Written()), old(size), Written(), size,
                  [open, SPACE] + ListText(cs, old(indent), open == LBRACKET) + [close])
      decreases cs, 2
    {
      ghost var w, s := Written(), size;
      ghost var text := ListText(cs, indent, open == LBRACKET);
      ok := Write([open]);
      if !ok {
        return;
      }
      ghost var w1, s1 := Written(), size;
      ok := Write([SPACE]);
      DidBoth(ok, w, s, w1, s1, Written(), size, [open], [SPACE]);
      if !ok {
        return;
      }
      ghost var w2, s2 := Written(), size;
      if |cs| != 0 {
        ok := WriteList(cs, open == LBRACKET);
        DidBoth(ok, w, s, w2, s2, Written(), size, [open, SPACE], text);
        if !ok {
          return;
        }
      }
      ghost var w3, s3 := Written(), size;
      ok := Write([close]);
      DidBoth(ok, w, s, w3, s3, Written(), size, [open, SPACE] + text, [close]);
    }

    /** The part of `write_children` for a list that is not empty. */
    method WriteList(cs: seq<Elem>, noName: bool) returns (ok: bool)
      requires Valid() && cs != [] && ListIndentFits(cs, indent)
      modifies this`pos, this`size, this`indent, buffer
      ensures Valid() && (ok ==> indent == old(indent))
      ensures Did(ok, old(Written()), old(size), Written(), size, ListText(cs, old(indent), noName))
      decreases cs, 1
    {
      if |cs[0].name| == 0 {
        ok := WriteBody(cs, noName, true);
        return;
      }
      ghost var w, s := Written(), size;
      ghost var text := Body(cs, Deeper(indent), noName, false);
      var added := indent < MAX_INDENT;
      if added {
        indent := indent + INDENT_SIZE;
      }
      ok := Write([NEWLINE]);
      if !ok {
        return;
      }
      ghost var w1, s1 := Written(), size;
      ok := WriteBody(cs, noName, false);
      DidBoth(ok, w, s, w1, s1, Written(), size, [NEWLINE], text);
      if !ok {
        return;
      }
      if added {
        indent := indent - INDENT_SIZE;
      }
      ghost var w2, s2 := Written(), size;
      SpacesPrefix(indent, MAX_INDENT);
      ok := Write(indentBuf[..indent]);
      DidBoth(ok, w, s, w2, s2, Written(), size, [NEWLINE] + text, Spaces(indent));
    }

    /** The two loops over the children; they differ in what they write between and behind them. */
    method WriteBody(cs: seq<Elem>, noName: bool, simple: bool) returns (ok: bool)
      requires Valid() && cs != [] && AllIndentFits(cs, indent)
      modifies this`pos, this`size, this`indent, buffer
      ensures Valid() && (ok ==> indent == old(indent))
      ensures Did(ok, old(Written()), old(size), Written(), size, Body(cs, old(indent), noName, simple))
      decreases cs, 0
    {
      ghost var w, s, d := Written(), size, indent;
      ghost var done: Bytes := [];
      BodyFirst(cs, d, noName, simple);
      var i := 0;
      while i < |cs|
        invariant Valid() && indent == d && 0 <= i <= |cs|
        invariant BodyLeft(done, cs, i, d, noName, simple) && DidSoFar(i, w, s, Written(), size, done)
      {
        ok, done := WriteNext(cs, i, noName, simple, w, s, done);
        if !ok {
          return;
        }
        i := i + 1;
      }
      BodyAll(done, cs, d, noName, simple);
      ok := true;
    }

    /** The child at i, behind those already written. */
    method WriteNext(cs: seq<Elem>, i: nat, noName: bool, simple: bool, ghost w: Bytes, ghost s: nat, ghost done: Bytes)
      returns (ok: bool, ghost more: Bytes)
      requires Valid() && i < |cs| && AllIndentFits(cs, indent)
      requires DidSoFar(i, w, s, Written(), size, done) && BodyLeft(done, cs, i, indent, noName, simple)
      modifies this`pos, this`size, this`indent, buffer
      ensures Valid() && (ok ==> indent == old(indent) && BodyLeft(more, cs, i + 1, indent, noName, simple))
      ensures if ok then DidSoFar(i + 1, w, s, Written(), size, more)
              else Did(false, w, s, Written(), size, Body(cs, old(indent), noName, simple))
      decreases cs[i], 3
    {
      ghost var d, w1, s1 := indent, Written(), size;
      ghost var one := ElemText(cs[i], d, noName) + Behind(i + 1 < |cs|, simple);
      more := done + one;
      BodyNext(done, cs, i, d, noName, simple);
      ok := WriteOne(cs[i], i + 1 < |cs|, noName, simple);
      DidOneMore(ok, i, w, s, w1, s1, Written(), size, done, one);
      if !ok {
        BodyFailed(w, s, Written(), size, more, cs, i + 1, d, noName, simple);
      }
    }

    /** A child and what is written behind it. */
    method WriteOne(c: Elem, more: bool, noName: bool, simple: bool) returns (ok: bool)
      requires Valid() && IndentFits(c, indent)
      modifies this`pos, this`size, this`indent, buffer
      ensures Valid() && (ok ==> indent == old(indent))
      ensures Did(ok, old(Written()), old(size), Written(), size, ElemText(c, old(indent), noName) + Behind(more, simple))
      decreases c, 2
    {
      ghost var w, s := Written(), size;
      ghost var text := ElemText(c, indent, noName);
      ok := WriteElem(c, noName);
      if !ok {
        return;
      }
      ghost var w1, s1 := Written(), size;
      if more || !simple {
        ok := Write(if !more then [NEWLINE] else if simple then [COMMA, SPACE] else [COMMA, NEWLINE]);
        DidBoth(ok, w, s, w1, s1, Written(), size, text, Behind(more, simple));
      } else {
        assert text + [] == text;
      }
    }
  }

  // ----- how the parts fit together -----

  lemma DidQuote(w: Bytes, s: nat, w2: Bytes, s2: nat, v: Bytes)
    requires 2 < s
    requires if v == [] then w2 == w + [QUOTE] && s2 == s - 1 else Did(true, w + [QUOTE], s - 1, w2, s2, Escape(v))
    ensures Did(true, w, s, w2, s2, [QUOTE] + Escape(v))
  {
    Associate(w, [QUOTE], Escape(v));
  }

  lemma NameTextParts(name: Bytes)
    ensures NameText(name) == Literal(name) + [COLON, SPACE] + Padding(name)
  {
    assert [COLON] + ([SPACE] + Padding(name)) == [COLON, SPACE] + Padding(name);
    Associate(Literal(name), [COLON, SPACE], Padding(name));
  }

  lemma SpacesPrefix(n: nat, m: nat)
    requires n <= m
    ensures Spaces(m)[..n] == Spaces(n)
  {
  }

  /** The texts of the first i children, done, and those of the others make up the whole. */
  ghost predicate BodyLeft(done: Bytes, cs: seq<Elem>, i: nat, indent: nat, noName: bool, simple: bool) {
    i <= |cs| && done + Body(cs[i..], indent, noName, simple) == Body(cs, indent, noName, simple)
  }

  lemma BodyFirst(cs: seq<Elem>, indent: nat, noName: bool, simple: bool)
    ensures BodyLeft([], cs, 0, indent, noName, simple)
  {
    assert cs[0..] == cs;
    assert [] + Body(cs, indent, noName, simple) == Body(cs, indent, noName, simple);
  }

  lemma BodyNext(done: Bytes, cs: seq<Elem>, i: nat, indent: nat, noName: bool, simple: bool)
    requires i < |cs| && BodyLeft(done, cs, i, indent, noName, simple)
    ensures BodyLeft(done + (ElemText(cs[i], indent, noName) + Behind(i + 1 < |cs|, simple)), cs, i + 1, indent, noName, simple)
  {
    assert cs[i..][0] == cs[i] && cs[i..][1..] == cs[i + 1..];
    Associate(done, ElemText(cs[i], indent, noName) + Behind(i + 1 < |cs|, simple), Body(cs[i + 1..], indent, noName, simple));
  }

  lemma BodyFailed(w: Bytes, s: nat, w1: Bytes, s1: nat, done: Bytes, cs: seq<Elem>, i: nat, indent: nat, noName: bool, simple: bool)
    requires BodyLeft(done, cs, i, indent, noName, simple) && Did(false, w, s, w1, s1, done)
    ensures Did(false, w, s, w1, s1, Body(cs, indent, noName, simple))
  {
    DidNot(w, s, w1, s1, done, Body(cs[i..], indent, noName, simple));
  }

  lemma BodyAll(done: Bytes, cs: seq<Elem>, indent: nat, noName: bool, simple: bool)
    requires BodyLeft(done, cs, |cs|, indent, noName, simple)
    ensures done == Body(cs, indent, noName, simple)
  {
    assert cs[|cs|..] == [];
    assert done + [] == done;
  }

  /**
   * `pj_json_write`: it succeeds exactly if the document leaves two octets of the buffer, and then
   * the buffer holds the document and a NUL.
   */
  method WriteJson(root: Elem, buffer: array<Byte>, size: nat) returns (ok: bool, len: nat)
    requires size <= buffer.Length && Depth(root.value) <= DEEPEST
    modifies buffer
    ensures ok <==> |Document(root)| + 1 < size
    ensures ok ==> len == |Document(root)| && buffer[..len] == Document(root) && buffer[len] == 0
  {
    DepthExact(root.value, 0);
    var writer := new Writer(buffer, size);
    ok := writer.WriteElem(root, false);
    len := writer.pos;
    if ok {
      buffer[len] := 0;
    }
  }
}
