/** Reading possibly compressed domain names (section 4.1.4 of RFC 1035). */
module DnsNames {
  import opened Bytes
  import opened DnsPackets

  /**
   * The octets from the start of the packet on: those of the packet, and behind its end whatever
   * happens to lie there, for as far as anything is ever read.
   */
  type Memory = Bytes

  function At(mem: Memory, p: nat): Byte {
    if p < |mem| then mem[p] else 0
  }

  datatype Error = InNamePtr | InSize | InClass

  datatype Result<T> = Ok(value: T) | Err(error: Error)

  const MAX_HOPS := 10
  const DOT: Byte := 46

  predicate IsPointer(b: Byte) {
    b >= 0xC0
  }

  /** The 14-bit offset in the two octets at p. */
  function Offset(mem: Memory, p: nat): nat {
    0x100 * (At(mem, p) % 0x40) + At(mem, p + 1)
  }

  function Slice(mem: Memory, p: nat, len: nat): (s: Bytes)
    ensures |s| == len && forall i :: 0 <= i < len ==> s[i] == At(mem, p + i)
  {
    if len == 0 then [] else Slice(mem, p, len - 1) + [At(mem, p + len - 1)]
  }

  /** How far a scan at p can still go in a packet of n octets. */
  function Ahead(n: nat, p: nat): nat {
    if p < n then n - p else 0
  }

  /** What a pass over a name reports: the octets it takes up, and the octets of its text. */
  datatype Lengths = Lengths(parsed: nat, name: nat)

  /** `get_name_len` from octet p on, within a packet of n octets. */
  function NameLen(mem: Memory, n: nat, rec: nat, p: nat): Result<Lengths>
    decreases MAX_HOPS + 1 - rec, Ahead(n, p)
  {
    if rec > MAX_HOPS then Err(InNamePtr)
    else if At(mem, p) == 0 then Ok(Lengths(1, 0))
    else if IsPointer(At(mem, p)) then
      if Offset(mem, p) >= n then Err(InNamePtr)
      else
        match NameLen(mem, n, rec + 1, Offset(mem, p))
        case Err(e) => Err(e)
        case Ok(l) => Ok(Lengths(2, l.name))
    else
      var len: nat := At(mem, p);
      var next := p + len + 1;
      if len > n then Err(InNamePtr)
      else if next >= n then Err(InSize)
      else
        match NameLen(mem, n, rec, next)
        case Err(e) => Err(e)
        case Ok(l) => Ok(Lengths(len + 1 + l.parsed, len + (if At(mem, next) != 0 then 1 else 0) + l.name))
  }

  /** `get_name` from octet p on: the text it appends. */
  function GetName(mem: Memory, n: nat, rec: nat, p: nat): Result<Name>
    decreases MAX_HOPS + 1 - rec, Ahead(n, p)
  {
    if rec > MAX_HOPS then Err(InNamePtr)
    else if At(mem, p) == 0 then Ok([])
    else if IsPointer(At(mem, p)) then
      if Offset(mem, p) >= n then Err(InNamePtr) else GetName(mem, n, rec + 1, Offset(mem, p))
    else
      var len: nat := At(mem, p);
      var next := p + len + 1;
      if len > n then Err(InNamePtr)
      else if next >= n then Err(InSize)
      else
        match GetName(mem, n, rec, next)
        case Err(e) => Err(e)
        case Ok(rest) => Ok(Slice(mem, p + 1, len) + (if At(mem, next) != 0 then [DOT] else []) + rest)
  }

  /** The two passes always agree, and the second writes exactly the octets the first announced. */
  lemma {:induction false} PassesAgree(mem: Memory, n: nat, rec: nat, p: nat)
    ensures var l, t := NameLen(mem, n, rec, p), GetName(mem, n, rec, p);
            match l
            case Err(e) => t == Err(e)
            case Ok(len) => t.Ok? && |t.value| == len.name
    decreases MAX_HOPS + 1 - rec, Ahead(n, p)
  {
    if rec <= MAX_HOPS && At(mem, p) != 0 {
      if IsPointer(At(mem, p)) {
        if Offset(mem, p) < n {
          PassesAgree(mem, n, rec + 1, Offset(mem, p));
        }
      } else if At(mem, p) <= n && p + At(mem, p) + 1 < n {
        PassesAgree(mem, n, rec, p + At(mem, p) + 1);
      }
    }
  }

  // ----- what the RFC says is there -----

  /**
   * The labels spelled at octet p: a sequence of labels ending in a zero octet, a pointer, or a
   * sequence of labels ending in a pointer; `hops` bounds the pointers followed. Every label and
   * pointer target lies within the packet.
   */
  predicate Spells(mem: Memory, n: nat, p: nat, labels: seq<Name>, hops: nat)
    decreases hops, |labels|
  {
    if At(mem, p) == 0 then labels == []
    else if IsPointer(At(mem, p)) then
      hops > 0 && Offset(mem, p) < n && Spells(mem, n, Offset(mem, p), labels, hops - 1)
    else
      && labels != [] && p + At(mem, p) + 1 < n && labels[0] == Slice(mem, p + 1, At(mem, p))
      && Spells(mem, n, p + At(mem, p) + 1, labels[1..], hops)
  }

  function Join(labels: seq<Name>): Name {
    if labels == [] then []
    else if |labels| == 1 then labels[0]
    else labels[0] + [DOT] + Join(labels[1..])
  }

  /** The last label is followed by a pointer, which leads to nothing but the root. */
  predicate PointsToRoot(mem: Memory, n: nat, p: nat, labels: seq<Name>, hops: nat)
    requires Spells(mem, n, p, labels, hops)
    decreases hops, |labels|
  {
    At(mem, p) != 0 &&
    if IsPointer(At(mem, p)) then PointsToRoot(mem, n, Offset(mem, p), labels, hops - 1)
    else if |labels| == 1 then At(mem, p + At(mem, p) + 1) != 0
    else PointsToRoot(mem, n, p + At(mem, p) + 1, labels[1..], hops)
  }

  lemma {:induction false} SpellsUnique(mem: Memory, n: nat, p: nat, a: seq<Name>, b: seq<Name>, hops: nat)
    requires Spells(mem, n, p, a, hops) && Spells(mem, n, p, b, hops)
    ensures a == b
    decreases hops, |a|
  {
    if At(mem, p) != 0 {
      if IsPointer(At(mem, p)) {
        SpellsUnique(mem, n, Offset(mem, p), a, b, hops - 1);
      } else {
        SpellsUnique(mem, n, p + At(mem, p) + 1, a[1..], b[1..], hops);
        assert a == [a[0]] + a[1..] && b == [b[0]] + b[1..];
      }
    }
  }

  function Dotted(text: Name, dot: bool): Name {
    if dot then text + [DOT] else text
  }

  lemma DottedLater(first: Name, rest: Name, dot: bool)
    ensures first + [DOT] + Dotted(rest, dot) == Dotted(first + [DOT] + rest, dot)
    ensures first + [] + [] == first && first + [DOT] + [] == Dotted(first, true)
  {
  }

  /** Whatever is read was spelled there. */
  lemma {:induction false} ReadIsSpelled(mem: Memory, n: nat, rec: nat, p: nat) returns (labels: seq<Name>)
    requires GetName(mem, n, rec, p).Ok?
    ensures Spells(mem, n, p, labels, MAX_HOPS - rec)
    decreases MAX_HOPS + 1 - rec, Ahead(n, p)
  {
    labels := [];
    if At(mem, p) != 0 {
      if IsPointer(At(mem, p)) {
        labels := ReadIsSpelled(mem, n, rec + 1, Offset(mem, p));
      } else {
        var rest := ReadIsSpelled(mem, n, rec, p + At(mem, p) + 1);
        labels := [Slice(mem, p + 1, At(mem, p))] + rest;
        assert labels[1..] == rest;
      }
    }
  }

  /** Whatever is spelled is read as its labels joined by dots, but for one dot too many. */
  lemma {:induction false} SpelledIsRead(mem: Memory, n: nat, rec: nat, p: nat, labels: seq<Name>)
    requires rec <= MAX_HOPS && Spells(mem, n, p, labels, MAX_HOPS - rec)
    ensures GetName(mem, n, rec, p) ==
            Ok(Dotted(Join(labels), PointsToRoot(mem, n, p, labels, MAX_HOPS - rec)))
    decreases MAX_HOPS - rec, |labels|
  {
    if At(mem, p) != 0 {
      if IsPointer(At(mem, p)) {
        SpelledIsRead(mem, n, rec + 1, Offset(mem, p), labels);
      } else {
        SpelledIsRead(mem, n, rec, p + At(mem, p) + 1, labels[1..]);
        DottedLater(labels[0], Join(labels[1..]), PointsToRoot(mem, n, p, labels, MAX_HOPS - rec));
        if |labels| == 1 {
          assert labels[1..] == [];
          RestIsRoot(mem, n, rec, p + At(mem, p) + 1);
        } else {
          NotAtEnd(mem, n, p + At(mem, p) + 1, labels[1..], MAX_HOPS - rec);
        }
      }
    }
  }

  lemma {:induction false} RestIsRoot(mem: Memory, n: nat, rec: nat, p: nat)
    requires rec <= MAX_HOPS && Spells(mem, n, p, [], MAX_HOPS - rec)
    ensures !PointsToRoot(mem, n, p, [], MAX_HOPS - rec)
    decreases MAX_HOPS - rec
  {
    if At(mem, p) != 0 {
      RestIsRoot(mem, n, rec + 1, Offset(mem, p));
    }
  }

  lemma NotAtEnd(mem: Memory, n: nat, p: nat, labels: seq<Name>, hops: nat)
    requires Spells(mem, n, p, labels, hops) && labels != []
    ensures At(mem, p) != 0
  {
  }

  /** The name at octet p, found with at most ten pointers. */
  predicate Names(mem: Memory, n: nat, p: nat, labels: seq<Name>) {
    Spells(mem, n, p, labels, MAX_HOPS)
  }

  /**
   * On every octet sequence, cyclic pointers included: reading succeeds exactly when a name is
   * spelled there with at most ten pointers, which is then the only one; and the text is its
   * labels joined by dots, unless the last of them is followed by a pointer to the root.
   */
  lemma NameRead(mem: Memory, n: nat, p: nat)
    ensures GetName(mem, n, 0, p).Ok? <==> exists labels :: Names(mem, n, p, labels)
    ensures forall labels :: Names(mem, n, p, labels) ==>
              (GetName(mem, n, 0, p) == Ok(Join(labels)) <==> !PointsToRoot(mem, n, p, labels, MAX_HOPS))
  {
    if GetName(mem, n, 0, p).Ok? {
      var labels := ReadIsSpelled(mem, n, 0, p);
      assert Names(mem, n, p, labels);
    }
    forall labels | Names(mem, n, p, labels)
      ensures GetName(mem, n, 0, p) ==
              Ok(Dotted(Join(labels), PointsToRoot(mem, n, p, labels, MAX_HOPS)))
    {
      SpelledIsRead(mem, n, 0, p, labels);
    }
  }

  /**
   * The label "a" and a pointer to a zero octet right behind it: the name is "a", but what is read
   * is "a.".
   */
  lemma TrailingDot()
    ensures var mem: Memory := [1, 97, 0xC0, 4, 0];
            && Names(mem, 5, 0, [[97]]) && PointsToRoot(mem, 5, 0, [[97]], MAX_HOPS)
            && NameLen(mem, 5, 0, 0) == Ok(Lengths(4, 2))
            && GetName(mem, 5, 0, 0) == Ok([97, DOT]) && Join([[97]]) == [97]
  {
    var mem: Memory := [1, 97, 0xC0, 4, 0];
    assert Slice(mem, 1, 1) == [97];
    assert [[97]][1..] == [];
    assert Spells(mem, 5, 4, [], MAX_HOPS - 1);
    assert Spells(mem, 5, 2, [], MAX_HOPS);
    assert NameLen(mem, 5, 1, 4) == Ok(Lengths(1, 0)) && GetName(mem, 5, 1, 4) == Ok([]);
    assert NameLen(mem, 5, 0, 2) == Ok(Lengths(2, 0)) && GetName(mem, 5, 0, 2) == Ok([]);
    assert [97] + [DOT] + [] == [97, DOT];
  }

  // ----- the program -----

  /** `get_name_len`. */
  method NameLength(rec: nat, mem: Memory, n: nat, start: nat) returns (r: Result<Lengths>)
    ensures r == NameLen(mem, n, rec, start)
    decreases MAX_HOPS + 1 - rec
  {
    if rec > MAX_HOPS {
      return Err(InNamePtr);
    }
    var parsedLen: nat, nameLen: nat := 0, 0;
    var p: nat := start;
    while At(mem, p) != 0
      invariant NameLen(mem, n, rec, start) ==
                match NameLen(mem, n, rec, p)
                case Err(e) => Err(e)
                case Ok(l) => Ok(Lengths(parsedLen + l.parsed, nameLen + l.name))
      decreases Ahead(n, p)
    {
      if IsPointer(At(mem, p)) {
        var offset := Offset(mem, p);
        if offset >= n {
          return Err(InNamePtr);
        }
        var target := NameLength(rec + 1, mem, n, offset);
        if target.Err? {
          return Err(target.error);
        }
        return Ok(Lengths(parsedLen + 2, nameLen + target.value.name));
      }
      var labelLen: nat := At(mem, p);
      if labelLen > n {
        return Err(InNamePtr);
      }
      p := p + labelLen + 1;
      parsedLen := parsedLen + labelLen + 1;
      if At(mem, p) != 0 {
        labelLen := labelLen + 1;
      }
      nameLen := nameLen + labelLen;
      if p >= n {
        return Err(InSize);
      }
    }
    return Ok(Lengths(parsedLen + 1, nameLen));
  }

  /** `get_name`, which appends to the name it is given. */
  method ReadName(rec: nat, mem: Memory, n: nat, start: nat, name: Name) returns (r: Result<Name>)
    ensures r == match GetName(mem, n, rec, start)
                 case Err(e) => Err(e)
                 case Ok(text) => Ok(name + text)
    decreases MAX_HOPS + 1 - rec
  {
    if rec > MAX_HOPS {
      return Err(InNamePtr);
    }
    var text := name;
    var p: nat := start;
    while At(mem, p) != 0
      invariant Appended(name, GetName(mem, n, rec, start)) == Appended(text, GetName(mem, n, rec, p))
      decreases Ahead(n, p)
    {
      if IsPointer(At(mem, p)) {
        if Offset(mem, p) >= n {
          return Err(InNamePtr);
        }
        r := ReadName(rec + 1, mem, n, Offset(mem, p), text);
        return;
      }
      var labelLen: nat := At(mem, p);
      if labelLen > n {
        return Err(InNamePtr);
      }
      ghost var was, at := text, p;
      text := text + Slice(mem, p + 1, labelLen);
      p := p + labelLen + 1;
      if At(mem, p) != 0 {
        text := text + [DOT];
      }
      if p >= n {
        return Err(InSize);
      }
      AppendedLater(was, Slice(mem, at + 1, At(mem, at)), if At(mem, p) != 0 then [DOT] else [], GetName(mem, n, rec, p));
    }
    assert text + [] == text;
    r := Ok(text);
  }

  lemma AppendedLater(name: Name, first: Name, dot: Name, r: Result<Name>)
    ensures r.Ok? ==> name + (first + dot + r.value) == name + first + dot + r.value
    ensures name + first + [] == name + first
  {
  }

  function Appended(name: Name, r: Result<Name>): Result<Name> {
    match r
    case Err(e) => Err(e)
    case Ok(text) => Ok(name + text)
  }
}
