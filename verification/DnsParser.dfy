/** `pj_dns_parse_packet`. */
module DnsParser {
  import opened Bytes
  import opened DnsPackets
  import opened DnsNames

  const TYPE_A := 1
  const TYPE_NS := 2
  const TYPE_CNAME := 5
  const TYPE_PTR := 12
  const TYPE_AAAA := 28
  const TYPE_SRV := 33

  const HEADER := 12

  /** A value, and how many octets of the packet it took. */
  datatype Parsed<T> = Parsed(value: T, len: nat)

  function U16(mem: Memory, p: nat): (v: nat)
    ensures v < 0x1_0000
  {
    ReadBe16(At(mem, p), At(mem, p + 1))
  }

  function U32(mem: Memory, p: nat): (v: nat)
    ensures v < 0x1_0000_0000
  {
    ReadBe32(At(mem, p), At(mem, p + 1), At(mem, p + 2), At(mem, p + 3))
  }

  function NamedAt(mem: Memory, n: nat, p: nat): Result<Parsed<Name>> {
    match NameLen(mem, n, 0, p)
    case Err(e) => Err(e)
    case Ok(l) =>
      match GetName(mem, n, 0, p)
      case Err(e) => Err(e)
      case Ok(name) => Ok(Parsed(name, l.parsed))
  }

  /** `parse_query`. */
  function QueryAt(mem: Memory, n: nat, p: nat): Result<Parsed<Query>> {
    match NamedAt(mem, n, p)
    case Err(e) => Err(e)
    case Ok(name) =>
      var e := p + name.len;
      Ok(Parsed(Query(name.value, U16(mem, e), U16(mem, e + 2)), name.len + 4))
  }

  predicate IsNameType(t: nat) {
    t == TYPE_CNAME || t == TYPE_NS || t == TYPE_PTR
  }

  /** The end of `parse_rr`: the resource data at octet p. */
  function DataAt(mem: Memory, n: nat, p: nat, rtype: nat, rdlength: nat): Result<Parsed<RData>> {
    if rtype == TYPE_A then Ok(Parsed(AddressData(Slice(mem, p, 4)), 4))
    else if rtype == TYPE_AAAA then Ok(Parsed(AddressData(Slice(mem, p, 16)), 16))
    else if IsNameType(rtype) then
      match NamedAt(mem, n, p)
      case Err(e) => Err(e)
      case Ok(name) => Ok(Parsed(NameData(name.value), name.len))
    else if rtype == TYPE_SRV then
      match NamedAt(mem, n, p + 6)
      case Err(e) => Err(e)
      case Ok(name) =>
        Ok(Parsed(SrvData(U16(mem, p), U16(mem, p + 2), U16(mem, p + 4), name.value), 6 + name.len))
    else Ok(Parsed(RawData(Slice(mem, p, rdlength)), rdlength))
  }

  /** `parse_rr`. */
  function RecordAt(mem: Memory, n: nat, p: nat): Result<Parsed<RR>> {
    match NamedAt(mem, n, p)
    case Err(e) => Err(e)
    case Ok(name) =>
      var e := p + name.len;
      if e + 10 > n then Err(InSize)
      else if U16(mem, e + 2) != 1 then Err(InClass)
      else if e + 10 + U16(mem, e + 8) > n then Err(InSize)
      else
        match DataAt(mem, n, e + 10, U16(mem, e), U16(mem, e + 8))
        case Err(err) => Err(err)
        case Ok(data) =>
          Ok(Parsed(RR(name.value, U16(mem, e), 1, U32(mem, e + 4), data.value), name.len + 10 + data.len))
  }

  /** A reader of one record, by the octet it begins at. */
  type Reader<T> = nat -> Result<Parsed<T>>

  /** `count` records one behind the other, from octet p on. */
  function Many<T>(f: Reader<T>, p: nat, count: nat): Result<Parsed<seq<T>>>
    decreases count
  {
    if count == 0 then Ok(Parsed([], 0))
    else
      match Many(f, p, count - 1)
      case Err(e) => Err(e)
      case Ok(before) =>
        match f(p + before.len)
        case Err(e) => Err(e)
        case Ok(x) => Ok(Parsed(before.value + [x.value], before.len + x.len))
  }

  lemma ManyNext<T>(f: Reader<T>, p: nat, i: nat, before: seq<T>, len: nat)
    requires Many(f, p, i) == Ok(Parsed(before, len))
    ensures Many(f, p, i + 1) ==
            match f(p + len)
            case Err(e) => Err(e)
            case Ok(x) => Ok(Parsed(before + [x.value], len + x.len))
  {
  }

  lemma {:induction false} ManyFails<T>(f: Reader<T>, p: nat, i: nat, count: nat)
    requires i <= count && Many(f, p, i).Err?
    ensures Many(f, p, count) == Many(f, p, i)
    decreases count
  {
    if i < count {
      ManyFails(f, p, i, count - 1);
    }
  }

  datatype RRSections = RRSections(ans: seq<RR>, ns: seq<RR>, ar: seq<RR>)

  /** The three record sections, from octet p on. */
  function RecordSections(f: Reader<RR>, mem: Memory, p: nat): Result<RRSections> {
    match Many(f, p, U16(mem, 6))
    case Err(e) => Err(e)
    case Ok(ans) =>
      match Many(f, p + ans.len, U16(mem, 8))
      case Err(e) => Err(e)
      case Ok(ns) =>
        match Many(f, p + ans.len + ns.len, U16(mem, 10))
        case Err(e) => Err(e)
        case Ok(ar) => Ok(RRSections(ans.value, ns.value, ar.value))
  }

  function PacketBy(fq: Reader<Query>, fr: Reader<RR>, mem: Memory, n: nat): Result<Packet> {
    if n < HEADER then Err(InSize)
    else
      match Many(fq, HEADER, U16(mem, 4))
      case Err(e) => Err(e)
      case Ok(q) =>
        match RecordSections(fr, mem, HEADER + q.len)
        case Err(e) => Err(e)
        case Ok(s) => Ok(Packet(U16(mem, 0), U16(mem, 2), q.value, s.ans, s.ns, s.ar))
  }

  function Queries(mem: Memory, n: nat): Reader<Query> {
    (p: nat) => QueryAt(mem, n, p)
  }

  function Records(mem: Memory, n: nat): Reader<RR> {
    (p: nat) => RecordAt(mem, n, p)
  }

  /** `pj_dns_parse_packet` on a packet of n octets. */
  function PacketAt(mem: Memory, n: nat): Result<Packet> {
    PacketBy(Queries(mem, n), Records(mem, n), mem, n)
  }

  // ----- the program -----

  /** The two passes over a name, as every record makes them. */
  method ParseName(mem: Memory, n: nat, start: nat) returns (r: Result<Parsed<Name>>)
    ensures r == NamedAt(mem, n, start)
  {
    var lengths := NameLength(0, mem, n, start);
    if lengths.Err? {
      return Err(lengths.error);
    }
    var name := ReadName(0, mem, n, start, []);
    if name.Err? {
      return Err(name.error);
    }
    assert GetName(mem, n, 0, start).Ok? ==> [] + GetName(mem, n, 0, start).value == GetName(mem, n, 0, start).value;
    return Ok(Parsed(name.value, lengths.value.parsed));
  }

  /** `parse_query`. */
  method ParseQuery(mem: Memory, n: nat, start: nat) returns (r: Result<Parsed<Query>>)
    ensures r == QueryAt(mem, n, start)
  {
    var name := ParseName(mem, n, start);
    if name.Err? {
      return Err(name.error);
    }
    var p: nat := start + name.value.len;
    var qtype := U16(mem, p);
    p := p + 2;
    var qclass := U16(mem, p);
    p := p + 2;
    return Ok(Parsed(Query(name.value.value, qtype, qclass), p - start));
  }

  /** `parse_rr`. */
  method ParseRR(mem: Memory, n: nat, start: nat) returns (r: Result<Parsed<RR>>)
    ensures r == RecordAt(mem, n, start)
  {
    var name := ParseName(mem, n, start);
    if name.Err? {
      return Err(name.error);
    }
    var p: nat := start + name.value.len;
    if p + 10 > n {
      return Err(InSize);
    }
    var rtype := U16(mem, p);
    p := p + 2;
    var rclass := U16(mem, p);
    p := p + 2;
    if rclass != 1 {
      return Err(InClass);
    }
    var ttl := U32(mem, p);
    p := p + 4;
    var rdlength := U16(mem, p);
    p := p + 2;
    if p + rdlength > n {
      return Err(InSize);
    }
    var data := ParseData(mem, n, p, rtype, rdlength);
    if data.Err? {
      return Err(data.error);
    }
    p := p + data.value.len;
    return Ok(Parsed(RR(name.value.value, rtype, rclass, ttl, data.value.value), p - start));
  }

  method ParseData(mem: Memory, n: nat, start: nat, rtype: nat, rdlength: nat) returns (r: Result<Parsed<RData>>)
    ensures r == DataAt(mem, n, start, rtype, rdlength)
  {
    if rtype == TYPE_A {
      return Ok(Parsed(AddressData(Slice(mem, start, 4)), 4));
    } else if rtype == TYPE_AAAA {
      return Ok(Parsed(AddressData(Slice(mem, start, 16)), 16));
    } else if IsNameType(rtype) {
      var name := ParseName(mem, n, start);
      if name.Err? {
        return Err(name.error);
      }
      return Ok(Parsed(NameData(name.value.value), name.value.len));
    } else if rtype == TYPE_SRV {
      var p: nat := start;
      var prio := U16(mem, p);
      p := p + 2;
      var weight := U16(mem, p);
      p := p + 2;
      var port := U16(mem, p);
      p := p + 2;
      var name := ParseName(mem, n, p);
      if name.Err? {
        return Err(name.error);
      }
      p := p + name.value.len;
      return Ok(Parsed(SrvData(prio, weight, port, name.value.value), p - start));
    }
    return Ok(Parsed(RawData(Slice(mem, start, rdlength)), rdlength));
  }

  /** f reads what `QueryAt` reads. */
  ghost predicate ReadsQueries(f: Reader<Query>, mem: Memory, n: nat) {
    forall p: nat {:trigger QueryAt(mem, n, p)} :: f(p) == QueryAt(mem, n, p)
  }

  method ParseQueryBy(mem: Memory, n: nat, start: nat, ghost f: Reader<Query>) returns (r: Result<Parsed<Query>>)
    requires ReadsQueries(f, mem, n)
    ensures r == f(start)
  {
    r := ParseQuery(mem, n, start);
  }

  method ParseQueries(mem: Memory, n: nat, start: nat, count: nat, ghost f: Reader<Query>) returns (r: Result<Parsed<seq<Query>>>)
    requires ReadsQueries(f, mem, n)
    ensures r == Many(f, start, count)
  {
    var qs: seq<Query>, p: nat, i := [], start, 0;
    while i < count
      invariant i <= count && start <= p
      invariant Many(f, start, i) == Ok(Parsed(qs, p - start))
    {
      var q := ParseQueryBy(mem, n, p, f);
      ManyNext(f, start, i, qs, p - start);
      if q.Err? {
        ManyFails(f, start, i + 1, count);
        return Err(q.error);
      }
      qs, p, i := qs + [q.value.value], p + q.value.len, i + 1;
    }
    return Ok(Parsed(qs, p - start));
  }

  /** f reads what `RecordAt` reads. */
  ghost predicate ReadsRecords(f: Reader<RR>, mem: Memory, n: nat) {
    forall p: nat {:trigger RecordAt(mem, n, p)} :: f(p) == RecordAt(mem, n, p)
  }

  method ParseRRBy(mem: Memory, n: nat, start: nat, ghost f: Reader<RR>) returns (r: Result<Parsed<RR>>)
    requires ReadsRecords(f, mem, n)
    ensures r == f(start)
  {
    r := ParseRR(mem, n, start);
  }

  /** The loop over one of the three record sections. */
  method ParseRRs(mem: Memory, n: nat, start: nat, count: nat, ghost f: Reader<RR>) returns (r: Result<Parsed<seq<RR>>>)
    requires ReadsRecords(f, mem, n)
    ensures r == Many(f, start, count)
  {
    var rrs: seq<RR>, p: nat, i := [], start, 0;
    while i < count
      invariant i <= count && start <= p
      invariant Many(f, start, i) == Ok(Parsed(rrs, p - start))
    {
      var rr := ParseRRBy(mem, n, p, f);
      ManyNext(f, start, i, rrs, p - start);
      if rr.Err? {
        ManyFails(f, start, i + 1, count);
        return Err(rr.error);
      }
      rrs, p, i := rrs + [rr.value.value], p + rr.value.len, i + 1;
    }
    return Ok(Parsed(rrs, p - start));
  }

  method ParseSections(mem: Memory, size: nat, from: nat, ghost f: Reader<RR>) returns (r: Result<RRSections>)
    requires ReadsRecords(f, mem, size)
    ensures r == RecordSections(f, mem, from)
  {
    var start := from;
    var ans := ParseRRs(mem, size, start, U16(mem, 6), f);
    if ans.Err? {
      return Err(ans.error);
    }
    start := start + ans.value.len;
    var ns := ParseRRs(mem, size, start, U16(mem, 8), f);
    if ns.Err? {
      return Err(ns.error);
    }
    start := start + ns.value.len;
    var ar := ParseRRs(mem, size, start, U16(mem, 10), f);
    if ar.Err? {
      return Err(ar.error);
    }
    return Ok(RRSections(ans.value.value, ns.value.value, ar.value.value));
  }

  method ParsePacketBy(mem: Memory, size: nat, ghost fq: Reader<Query>, ghost fr: Reader<RR>) returns (r: Result<Packet>)
    requires ReadsQueries(fq, mem, size) && ReadsRecords(fr, mem, size)
    ensures r == PacketBy(fq, fr, mem, size)
  {
    if size < HEADER {
      return Err(InSize);
    }
    var q := ParseQueries(mem, size, HEADER, U16(mem, 4), fq);
    if q.Err? {
      return Err(q.error);
    }
    var sections := ParseSections(mem, size, HEADER + q.value.len, fr);
    if sections.Err? {
      return Err(sections.error);
    }
    var RRSections(ans, ns, ar) := sections.value;
    return Ok(Packet(U16(mem, 0), U16(mem, 2), q.value.value, ans, ns, ar));
  }

  /** `pj_dns_parse_packet`. */
  method ParsePacket(mem: Memory, size: nat) returns (r: Result<Packet>)
    ensures r == PacketAt(mem, size)
  {
    r := ParsePacketBy(mem, size, Queries(mem, size), Records(mem, size));
  }
}
