/** `print_packet` of the DNS server, with name compression. */
module DnsPrinter {
  import opened Bytes
  import opened DnsPackets
  import opened DnsNames
  import opened DnsParser
  import opened DnsLabels

  /** An entry of struct label_tab: a name of `slen` octets of text printed in full at `pos`. */
  datatype Entry = Entry(pos: nat, slen: nat)

  type Table = seq<Entry>

  /** The table compares the text of a name with the octets printed behind the first length octet. */
  predicate Matches(out: Bytes, e: Entry, name: Name) {
    e.slen == |name| && EqualAt(out, e.pos + 1, name)
  }

  function Find(out: Bytes, tab: Table, name: Name): (i: nat)
    ensures i <= |tab| && (i < |tab| ==> Matches(out, tab[i], name))
    ensures forall j :: 0 <= j < i ==> !Matches(out, tab[j], name)
  {
    if tab == [] || Matches(out, tab[0], name) then 0 else 1 + Find(out, tab[1..], name)
  }

  /** `pos | 0xC000`, as sixteen bits. */
  function Pointer(pos: nat): Bytes {
    Be16(0xC000 + pos % 0x4000)
  }

  /** What `print_name` writes, behind `out` or a few octets further. */
  function NameBytes(out: Bytes, tab: Table, name: Name): (b: Bytes)
    ensures 1 <= |b| <= |name| + 2
  {
    var i := Find(out, tab, name);
    if i < |tab| then Pointer(tab[i].pos) else Encode(name)
  }

  /** The table afterwards; `at` is where the name was written. */
  function TableAfter(out: Bytes, tab: Table, name: Name, at: nat): Table {
    if Find(out, tab, name) < |tab| || |tab| >= MAX_LABEL then tab else tab + [Entry(at, |name|)]
  }

  /** `write16` of a value that is converted to sixteen bits. */
  function Low16(v: nat): (b: Bytes)
    ensures |b| == 2
  {
    Be16(v % 0x1_0000)
  }

  /** The fixed fields behind the name of a record: type, class and TTL. */
  function Fixed(r: RR): (b: Bytes)
    ensures |b| == 8
  {
    Low16(r.rtype) + Low16(r.rclass) + Be32(r.ttl % 0x1_0000_0000)
  }

  datatype Out = Out(bytes: Bytes, tab: Table)

  function QueryFields(q: Query): (b: Bytes)
    ensures |b| == 4
  {
    Low16(q.qtype) + Low16(q.qclass)
  }

  function PrintQuery(o: Out, q: Query): Out {
    Out(o.bytes + NameBytes(o.bytes, o.tab, q.name) + QueryFields(q),
        TableAfter(o.bytes, o.tab, q.name, |o.bytes|))
  }

  /** The owner name and the fixed fields. */
  function PrintHead(o: Out, r: RR): Out {
    Out(o.bytes + NameBytes(o.bytes, o.tab, r.name) + Fixed(r), TableAfter(o.bytes, o.tab, r.name, |o.bytes|))
  }

  function PrintAddress(o: Out, ip: Bytes): Out {
    o.(bytes := o.bytes + Be16(4) + ip)
  }

  function PrintTarget(o: Out, target: Name): Out {
    var b := NameBytes(o.bytes, o.tab, target);
    Out(o.bytes + Low16(|b|) + b, TableAfter(o.bytes, o.tab, target, |o.bytes| + 2))
  }

  function PrintSrv(o: Out, d: RData): Out
    requires d.SrvData?
  {
    var b := NameBytes(o.bytes, o.tab, d.srvTarget);
    Out(o.bytes + SrvPad(|b|, d) + b, TableAfter(o.bytes, o.tab, d.srvTarget, |o.bytes| + 8))
  }

  /** The length and the data; other types are not supported. */
  function PrintData(o: Out, r: RR): Option<Out> {
    if r.rtype == TYPE_A && r.rdata.AddressData? && |r.rdata.ip| == 4 then Some(PrintAddress(o, r.rdata.ip))
    else if IsNameType(r.rtype) && r.rdata.NameData? then Some(PrintTarget(o, r.rdata.target))
    else if r.rtype == TYPE_SRV && r.rdata.SrvData? then Some(PrintSrv(o, r.rdata))
    else None
  }

  /** What precedes the target: the length of the data, priority, weight and port. */
  function SrvPad(len: nat, d: RData): (b: Bytes)
    requires d.SrvData?
    ensures |b| == 8
  {
    Low16(len + 6) + SrvFields(d)
  }

  function SrvFields(d: RData): (b: Bytes)
    requires d.SrvData?
    ensures |b| == 6
  {
    Low16(d.prio) + Low16(d.weight) + Low16(d.port)
  }

  /** `print_rr`. */
  function PrintRR(o: Out, r: RR): Option<Out> {
    PrintData(PrintHead(o, r), r)
  }

  function PrintQueries(o: Out, qs: seq<Query>): Out
    decreases |qs|
  {
    if qs == [] then o else PrintQuery(PrintQueries(o, qs[..|qs| - 1]), qs[|qs| - 1])
  }

  function PrintRRs(o: Out, rrs: seq<RR>): Option<Out>
    decreases |rrs|
  {
    if rrs == [] then Some(o)
    else
      var before := PrintRRs(o, rrs[..|rrs| - 1]);
      if before.None? then None else PrintRR(before.value, rrs[|rrs| - 1])
  }

  function Header(p: Packet): (b: Bytes)
    ensures |b| == HEADER
  {
    Low16(p.id) + Low16(p.flags) + Low16(|p.q|) + Low16(|p.ans|) + Low16(|p.ns|) + Low16(|p.ar|)
  }

  /** `print_packet`. */
  function Print(p: Packet): Option<Out> {
    var o1 := PrintQueries(Out(Header(p), []), p.q);
    var o2 := PrintRRs(o1, p.ans);
    if o2.None? then None
    else
      var o3 := PrintRRs(o2.value, p.ns);
      if o3.None? then None else PrintRRs(o3.value, p.ar)
  }

  // ----- what the table finds -----

  /**
   * The table takes the name printed at an entry for exactly one name, its own shifted form; and so
   * for a wrong one exactly when that is not the name itself.
   */
  lemma MatchExact(out: Bytes, e: Entry, printed: Name, name: Name)
    requires e.slen == |printed| && EqualAt(out, e.pos, Encode(printed))
    ensures Matches(out, e, name) <==> name == Shifted(printed)
  {
    ShiftedHeld(out, e.pos, printed);
    MatchOf(out, e, Shifted(printed), name);
  }

  lemma MatchOf(out: Bytes, e: Entry, s: Name, name: Name)
    requires |s| == e.slen && EqualAt(out, e.pos + 1, s)
    ensures Matches(out, e, name) <==> name == s
  {
  }

  lemma MatchWrong(out: Bytes, e: Entry, printed: Name, name: Name)
    requires e.slen == |printed| && EqualAt(out, e.pos, Encode(printed))
    ensures Matches(out, e, name) && name != printed <==> name == Shifted(printed) && Shifted(printed) != printed
  {
    MatchExact(out, e, printed, name);
  }

  lemma ShiftedHeld(out: Bytes, p: nat, name: Name)
    requires EqualAt(out, p, Encode(name))
    ensures EqualAt(out, p + 1, Shifted(name))
  {
    var s := Shifted(name);
    EncodeLonger(name);
    forall i | 0 <= i < |s| ensures p + 1 + i < |out| && s[i] == out[p + 1 + i] {
      EncodedAt(name, i);
      ShiftedToIs(name, |name|, i);
      HeldAt(out, p, Encode(name), i + 1);
    }
  }

  lemma HeldAt(out: Bytes, p: nat, e: Bytes, i: nat)
    requires EqualAt(out, p, e) && i < |e|
    ensures p + i < |out| && e[i] == out[p + i]
  {
  }

  // ----- reading back a name -----

  lemma SliceHeld(mem: Memory, p: nat, b: Bytes)
    requires EqualAt(mem, p, b)
    ensures Slice(mem, p, |b|) == b
  {
  }

  lemma PartsHeld(mem: Memory, p: nat, k: nat, text: Bytes, more: Bytes)
    requires k < 256 && |text| == k && EqualAt(mem, p, [k as Byte] + text + more)
    ensures At(mem, p) == k && EqualAt(mem, p + 1, text) && EqualAt(mem, p + k + 1, more)
  {
    var enc := [k as Byte] + text + more;
    assert enc[0] == mem[p + 0];
    forall i | 0 <= i < k ensures text[i] == mem[p + 1 + i] {
      assert enc[1 + i] == mem[p + (1 + i)];
    }
    forall i | 0 <= i < |more| ensures more[i] == mem[p + k + 1 + i] {
      assert enc[k + 1 + i] == mem[p + (k + 1 + i)];
    }
  }

  /** What was printed in full spells the same labels, without pointers, and ends where it should. */
  lemma {:induction false} ReadEncoded(mem: Memory, n: nat, rec: nat, p: nat, labels: Labels)
    requires GoodLabels(labels) && rec <= MAX_HOPS && EqualAt(mem, p, EncodeLabels(labels))
    requires p + |EncodeLabels(labels)| <= n
    ensures Spells(mem, n, p, labels, MAX_HOPS - rec) && !PointsToRoot(mem, n, p, labels, MAX_HOPS - rec)
    ensures At(mem, p) == 0 <==> labels == []
    ensures !IsPointer(At(mem, p))
    ensures NameLen(mem, n, rec, p).Ok? && NameLen(mem, n, rec, p).value.parsed == |EncodeLabels(labels)|
    decreases labels
  {
    if labels == [] {
      assert EncodeLabels(labels)[0] == mem[p + 0];
    } else {
      var l := labels[0];
      assert GoodLabel(l);
      PartsHeld(mem, p, |l|, l, EncodeLabels(labels[1..]));
      ReadEncoded(mem, n, rec, p + |l| + 1, labels[1..]);
      SliceHeld(mem, p + 1, l);
    }
  }

  /** A name printed in full. */
  lemma FullNameRead(mem: Memory, n: nat, rec: nat, p: nat, name: Name)
    requires Printable(name) && rec <= MAX_HOPS && EqualAt(mem, p, Encode(name)) && p + |Encode(name)| <= n
    ensures GetName(mem, n, rec, p) == Ok(name) && !IsPointer(At(mem, p))
    ensures NameLen(mem, n, rec, p).Ok? && NameLen(mem, n, rec, p).value.parsed == |Encode(name)|
  {
    var labels :| MadeOf(name, labels);
    EncodeIsLabels(labels);
    ReadEncoded(mem, n, rec, p, labels);
    SpelledIsRead(mem, n, rec, p, labels);
  }

  /** One label, and what follows it. */
  lemma LabelRead(mem: Memory, n: nat, rec: nat, p: nat, l: Name)
    requires rec <= MAX_HOPS && 0 < |l| <= MAX_LABEL_LEN && At(mem, p) == |l| && EqualAt(mem, p + 1, l) && p + |l| + 1 < n
    ensures var next := p + |l| + 1;
            match NameLen(mem, n, rec, next)
            case Err(e) => NameLen(mem, n, rec, p) == Err(e)
            case Ok(len) =>
              && NameLen(mem, n, rec, p).Ok? && NameLen(mem, n, rec, p).value.parsed == |l| + 1 + len.parsed
              && GetName(mem, n, rec, next).Ok?
              && GetName(mem, n, rec, p)
                 == Ok(l + (if At(mem, next) != 0 then [DOT] else []) + GetName(mem, n, rec, next).value)
  {
    SliceHeld(mem, p + 1, l);
    PassesAgree(mem, n, rec, p + |l| + 1);
  }

  /** What is read does not take the octets of the printed name, or is another text. */
  predicate ReadOtherwise(mem: Memory, n: nat, rec: nat, p: nat, len: nat, name: Name) {
    var l, t := NameLen(mem, n, rec, p), GetName(mem, n, rec, p);
    l.Ok? && t.Ok? && l.value.parsed == len ==> t.value != name
  }

  lemma LastDot(mem: Memory, n: nat, rec: nat, p: nat, l: Name)
    requires rec <= MAX_HOPS && 0 < |l| <= MAX_LABEL_LEN && At(mem, p) == |l| && EqualAt(mem, p + 1, l) && p + |l| + 1 < n
    requires At(mem, p + |l| + 1) == 0
    ensures ReadOtherwise(mem, n, rec, p, |l| + 2, l + [DOT])
  {
    LabelRead(mem, n, rec, p, l);
    assert GetName(mem, n, rec, p + |l| + 1) == Ok([]);
    assert |l + [] + []| == |l|;
  }

  lemma LaterOtherwise(mem: Memory, n: nat, rec: nat, p: nat, l: Name, len: nat, rest: Name)
    requires rec <= MAX_HOPS && 0 < |l| <= MAX_LABEL_LEN && At(mem, p) == |l| && EqualAt(mem, p + 1, l) && p + |l| + 1 < n
    requires len > 1 && ReadOtherwise(mem, n, rec, p + |l| + 1, len, rest)
    ensures ReadOtherwise(mem, n, rec, p, |l| + 1 + len, l + [DOT] + rest)
  {
    LabelRead(mem, n, rec, p, l);
    var next := p + |l| + 1;
    if GetName(mem, n, rec, next).Ok? && At(mem, next) != 0 {
      var t := GetName(mem, n, rec, next).value;
      if l + [DOT] + t == l + [DOT] + rest {
        assert (l + [DOT] + t)[|l| + 1..] == t && (l + [DOT] + rest)[|l| + 1..] == rest;
      }
    }
  }

  /** A text with an empty label, or a dot at its end, is not read back. */
  lemma {:induction false} FullNameNotRead(mem: Memory, n: nat, rec: nat, p: nat, labels: Labels)
    requires AnyLabels(labels) && |labels| > 1 && [] in labels && rec <= MAX_HOPS
    requires EqualAt(mem, p, EncodeAny(labels)) && p + |EncodeAny(labels)| <= n
    ensures ReadOtherwise(mem, n, rec, p, |EncodeAny(labels)|, Join(labels))
    decreases labels
  {
    var l, rest := labels[0], labels[1..];
    assert l in labels;
    PartsHeld(mem, p, |l|, l, EncodeAny(rest));
    if l != [] && rest == [[]] {
      assert l + [DOT] + [] == l + [DOT];
      HeldAt(mem, p + |l| + 1, [0], 0);
      LastDot(mem, n, rec, p, l);
    } else if l != [] {
      assert [] in rest;
      FullNameNotRead(mem, n, rec, p + |l| + 1, rest);
      LaterOtherwise(mem, n, rec, p, l, |EncodeAny(rest)|, Join(rest));
    }
  }

  /**
   * A name printed in full is read back exactly if it is the root, or has no empty label and so no dot
   * at its end.
   */
  lemma FullNameExact(mem: Memory, n: nat, p: nat, labels: Labels)
    requires AnyLabels(labels) && EqualAt(mem, p, Encode(Join(labels))) && p + |Encode(Join(labels))| <= n
    ensures NamedAt(mem, n, p) == Ok(Parsed(Join(labels), |Encode(Join(labels))|)) <==> labels == [[]] || [] !in labels
  {
    EncodeIsAny(labels);
    if labels == [[]] {
      assert MadeOf(Join(labels), []);
      FullNameRead(mem, n, 0, p, Join(labels));
    } else if [] !in labels {
      assert MadeOf(Join(labels), labels);
      FullNameRead(mem, n, 0, p, Join(labels));
    } else {
      FullNameNotRead(mem, n, 0, p, labels);
    }
  }

  lemma PointerOctets(mem: Memory, p: nat, pos: nat)
    requires EqualAt(mem, p, Pointer(pos)) && pos < 0x4000
    ensures IsPointer(At(mem, p)) && Offset(mem, p) == pos
  {
    var hi, lo := pos / 0x100, pos % 0x100;
    assert hi < 0x40 && pos % 0x4000 == pos && 0xC000 + pos == 0x100 * (0xC0 + hi) + lo;
    assert Pointer(pos) == [0xC0 + hi, lo];
    assert Pointer(pos)[0] == mem[p + 0] && Pointer(pos)[1] == mem[p + 1];
    assert (0xC0 + hi) % 0x40 == hi;
  }

  /** A pointer to a name printed in full. */
  lemma PointerRead(mem: Memory, n: nat, p: nat, pos: nat, name: Name)
    requires Printable(name) && EqualAt(mem, pos, Encode(name)) && pos + |Encode(name)| <= n && pos < 0x4000
    requires EqualAt(mem, p, Pointer(pos))
    ensures NamedAt(mem, n, p) == Ok(Parsed(name, 2))
  {
    PointerOctets(mem, p, pos);
    FullNameRead(mem, n, 1, pos, name);
  }

  /** The table lists names that lie in full where it says. */
  ghost predicate TableOk(out: Bytes, tab: Table, names: seq<Name>) {
    |names| == |tab| && forall i :: 0 <= i < |tab| ==> EntryOk(out, tab[i], names[i])
  }

  ghost predicate EntryOk(out: Bytes, e: Entry, name: Name) {
    Printable(name) && e.slen == |name| && EqualAt(out, e.pos, Encode(name))
  }

  predicate Begins(more: Bytes, out: Bytes) {
    EqualAt(more, 0, out)
  }

  lemma BeginsThrough(more: Bytes, mid: Bytes, out: Bytes)
    requires Begins(more, mid) && Begins(mid, out)
    ensures Begins(more, out)
  {
    forall i | 0 <= i < |out| ensures out[i] == more[0 + i] {
      assert out[i] == mid[0 + i] && mid[i] == more[0 + i];
    }
  }

  lemma EqualLonger(out: Bytes, more: Bytes, p: nat, b: Bytes)
    requires Begins(more, out) && EqualAt(out, p, b)
    ensures EqualAt(more, p, b)
  {
  }

  lemma TableLonger(out: Bytes, tab: Table, names: seq<Name>, more: Bytes)
    requires TableOk(out, tab, names) && Begins(more, out)
    ensures TableOk(more, tab, names)
  {
    forall i | 0 <= i < |tab| ensures EntryOk(more, tab[i], names[i]) {
      EqualLonger(out, more, tab[i].pos, Encode(names[i]));
    }
  }

  lemma TableGrows(out: Bytes, tab: Table, names: seq<Name>, name: Name, at: nat, more: Bytes)
    requires TableOk(out, tab, names) && Printable(name) && Begins(more, out)
    requires EqualAt(more, at, NameBytes(out, tab, name))
    ensures TableOk(more, TableAfter(out, tab, name, at), NamesAfter(names, name))
  {
    TableLonger(out, tab, names, more);
    FindSeen(out, tab, names, name);
  }

  lemma FindSeen(out: Bytes, tab: Table, names: seq<Name>, name: Name)
    requires TableOk(out, tab, names)
    ensures Find(out, tab, name) == FirstShifted(names, name)
  {
    forall i | 0 <= i < |tab| ensures Matches(out, tab[i], name) <==> name == Shifted(names[i]) {
      assert EntryOk(out, tab[i], names[i]);
      MatchExact(out, tab[i], names[i], name);
    }
  }

  /** Whatever `print_name` wrote, in full or as a pointer, is read back as the name it was taken for. */
  lemma NameReadBack(out: Bytes, tab: Table, names: seq<Name>, name: Name, mem: Memory, n: nat, at: nat)
    requires TableOk(out, tab, names) && Printable(name) && Begins(mem, out) && |out| <= n <= 0x4000
    requires EqualAt(mem, at, NameBytes(out, tab, name)) && at + |NameBytes(out, tab, name)| <= n
    ensures NamedAt(mem, n, at) == Ok(Parsed(SeenName(names, name), |NameBytes(out, tab, name)|))
  {
    FindSeen(out, tab, names, name);
    var i := Find(out, tab, name);
    if i < |tab| {
      var e := tab[i];
      assert EntryOk(out, e, names[i]);
      EqualLonger(out, mem, e.pos, Encode(names[i]));
      PointerRead(mem, n, at, e.pos, names[i]);
    } else {
      FullNameRead(mem, n, 0, at, name);
    }
  }

  // ----- reading back numbers -----

  lemma PrefixHolds(mem: Bytes, a: Bytes, b: Bytes)
    requires Begins(mem, a + b)
    ensures Begins(mem, a) && EqualAt(mem, |a|, b)
  {
    EqualConcat(mem, 0, a, b);
  }

  lemma TwoHeld(all: Bytes, a: Bytes, b: Bytes, c: Bytes)
    requires Begins(all, a + b + c)
    ensures Begins(all, a) && EqualAt(all, |a|, b) && EqualAt(all, |a| + |b|, c)
  {
    PrefixHolds(all, a + b, c);
    PrefixHolds(all, a, b);
  }

  lemma BeginsItself(all: Bytes)
    ensures Begins(all, all)
  {
  }

  lemma ReadU16(mem: Memory, p: nat, v: nat)
    requires v < 0x1_0000 && EqualAt(mem, p, Be16(v))
    ensures U16(mem, p) == v
  {
    assert Be16(v)[0] == mem[p + 0] && Be16(v)[1] == mem[p + 1];
  }

  lemma ReadLow16(mem: Memory, p: nat, v: nat)
    requires v < 0x1_0000 && EqualAt(mem, p, Low16(v))
    ensures U16(mem, p) == v
  {
    ReadU16(mem, p, v);
  }

  lemma ReadU32(mem: Memory, p: nat, v: nat)
    requires v < 0x1_0000_0000 && EqualAt(mem, p, Be32(v))
    ensures U32(mem, p) == v
  {
    EqualConcat(mem, p, Be16(v / 0x1_0000), Be16(v % 0x1_0000));
    ReadU16(mem, p, v / 0x1_0000);
    ReadU16(mem, p + 2, v % 0x1_0000);
  }

  // ----- reading back records -----

  ghost predicate PrintableQuery(q: Query) {
    Printable(q.name) && q.qtype < 0x1_0000 && q.qclass == 1
  }

  ghost predicate PrintableData(rtype: nat, d: RData) {
    match d
    case AddressData(ip) => rtype == TYPE_A && |ip| == 4
    case NameData(target) => IsNameType(rtype) && Printable(target)
    case SrvData(prio, weight, port, target) =>
      rtype == TYPE_SRV && prio < 0x1_0000 && weight < 0x1_0000 && port < 0x1_0000 && Printable(target)
    case RawData(_) => false
  }

  /** A class IN record of a type the server supports. */
  ghost predicate PrintableRR(r: RR) {
    Printable(r.name) && r.rclass == 1 && r.ttl < 0x1_0000_0000 && PrintableData(r.rtype, r.rdata)
  }

  lemma FirstTable(out: Bytes, tab: Table, names: seq<Name>, name: Name, tail: Bytes)
    requires TableOk(out, tab, names) && Printable(name)
    ensures TableOk(out + NameBytes(out, tab, name) + tail, TableAfter(out, tab, name, |out|), NamesAfter(names, name))
  {
    var all := out + NameBytes(out, tab, name) + tail;
    BeginsItself(all);
    TwoHeld(all, out, NameBytes(out, tab, name), tail);
    TableGrows(out, tab, names, name, |out|, all);
  }

  /** The name comes first. */
  lemma NameFirst(out: Bytes, tab: Table, names: seq<Name>, name: Name, tail: Bytes, mem: Memory, n: nat)
    requires TableOk(out, tab, names) && Printable(name)
    requires Begins(mem, out + NameBytes(out, tab, name) + tail) && |out + NameBytes(out, tab, name) + tail| <= n <= 0x4000
    ensures var b := NameBytes(out, tab, name);
            NamedAt(mem, n, |out|) == Ok(Parsed(SeenName(names, name), |b|)) && EqualAt(mem, |out| + |b|, tail)
  {
    TwoHeld(mem, out, NameBytes(out, tab, name), tail);
    NameReadBack(out, tab, names, name, mem, n, |out|);
  }

  ghost predicate QueryBack(p: nat, end: nat, q: Query, mem: Memory, n: nat) {
    p <= end && QueryAt(mem, n, p) == Ok(Parsed(q, end - p))
  }

  lemma QueryTable(o: Out, names: seq<Name>, q: Query)
    requires TableOk(o.bytes, o.tab, names) && PrintableQuery(q)
    ensures Begins(PrintQuery(o, q).bytes, o.bytes)
    ensures TableOk(PrintQuery(o, q).bytes, PrintQuery(o, q).tab, NamesAfter(names, q.name))
  {
    FirstTable(o.bytes, o.tab, names, q.name, QueryFields(q));
  }

  lemma QueryReadBack(o: Out, names: seq<Name>, q: Query, mem: Memory, n: nat)
    requires TableOk(o.bytes, o.tab, names) && PrintableQuery(q)
    requires Begins(mem, PrintQuery(o, q).bytes) && |PrintQuery(o, q).bytes| <= n <= 0x4000
    ensures QueryBack(|o.bytes|, |PrintQuery(o, q).bytes|, SeenQuery(names, q), mem, n)
  {
    NameFirst(o.bytes, o.tab, names, q.name, QueryFields(q), mem, n);
    QueryOfParts(mem, n, |o.bytes|, SeenQuery(names, q), |NameBytes(o.bytes, o.tab, q.name)|, |PrintQuery(o, q).bytes|);
  }

  lemma QueryOfParts(mem: Memory, n: nat, p: nat, q: Query, len: nat, end: nat)
    requires end == p + len + 4 && q.qtype < 0x1_0000 && q.qclass == 1 && NamedAt(mem, n, p) == Ok(Parsed(q.name, len)) && EqualAt(mem, p + len, QueryFields(q))
    ensures QueryBack(p, end, q, mem, n)
  {
    QueryFieldsRead(mem, p + len, q);
  }

  lemma QueryFieldsRead(mem: Memory, e: nat, q: Query)
    requires q.qtype < 0x1_0000 && q.qclass < 0x1_0000 && EqualAt(mem, e, QueryFields(q))
    ensures U16(mem, e) == q.qtype && U16(mem, e + 2) == q.qclass
  {
    EqualConcat(mem, e, Low16(q.qtype), Low16(q.qclass));
    ReadLow16(mem, e, q.qtype);
    ReadLow16(mem, e + 2, q.qclass);
  }

  lemma Grouped(a: Bytes, b: Bytes, c: Bytes)
    ensures a + b + c == a + ([] + (b + c)) == a + (b + (c + [])) == a + (b + c)
  {
  }

  predicate FixedFits(r: RR) {
    r.rtype < 0x1_0000 && r.rclass == 1 && r.ttl < 0x1_0000_0000
  }

  /** The fields of a record before its data, at octet e. */
  lemma FixedRead(mem: Memory, e: nat, r: RR)
    requires FixedFits(r) && EqualAt(mem, e, Fixed(r))
    ensures U16(mem, e) == r.rtype && U16(mem, e + 2) == 1 && U32(mem, e + 4) == r.ttl
  {
    EqualConcat(mem, e, Low16(r.rtype) + Low16(r.rclass), Be32(r.ttl));
    EqualConcat(mem, e, Low16(r.rtype), Low16(r.rclass));
    ReadLow16(mem, e, r.rtype);
    ReadLow16(mem, e + 2, r.rclass);
    ReadU32(mem, e + 4, r.ttl);
  }

  /** The owner name and the fixed fields. */
  ghost predicate HeadBack(p: nat, h: nat, r: RR, mem: Memory, n: nat) {
    && p + 8 <= h && NamedAt(mem, n, p) == Ok(Parsed(r.name, h - p - 8))
    && U16(mem, h - 8) == r.rtype && U16(mem, h - 6) == 1 && U32(mem, h - 4) == r.ttl
  }

  lemma HeadTable(o: Out, names: seq<Name>, r: RR)
    requires TableOk(o.bytes, o.tab, names) && PrintableRR(r)
    ensures Begins(PrintHead(o, r).bytes, o.bytes)
    ensures TableOk(PrintHead(o, r).bytes, PrintHead(o, r).tab, NamesAfter(names, r.name))
  {
    FirstTable(o.bytes, o.tab, names, r.name, Fixed(r));
  }

  lemma HeadOfParts(p: nat, len: nat, h: nat, r: RR, mem: Memory, n: nat)
    requires h == p + len + 8 && FixedFits(r) && NamedAt(mem, n, p) == Ok(Parsed(r.name, len)) && EqualAt(mem, p + len, Fixed(r))
    ensures HeadBack(p, h, r, mem, n)
  {
    FixedRead(mem, p + len, r);
  }

  lemma HeadReadBack(o: Out, names: seq<Name>, r: RR, mem: Memory, n: nat)
    requires TableOk(o.bytes, o.tab, names) && PrintableRR(r)
    requires Begins(mem, PrintHead(o, r).bytes) && |PrintHead(o, r).bytes| <= n <= 0x4000
    ensures HeadBack(|o.bytes|, |PrintHead(o, r).bytes|, SeenRR(names, r), mem, n)
  {
    NameFirst(o.bytes, o.tab, names, r.name, Fixed(r), mem, n);
    HeadOfParts(|o.bytes|, |NameBytes(o.bytes, o.tab, r.name)|, |PrintHead(o, r).bytes|, SeenRR(names, r), mem, n);
  }

  function NamesAfterData(names: seq<Name>, d: RData): seq<Name> {
    match d
    case NameData(target) => NamesAfter(names, target)
    case SrvData(_, _, _, target) => NamesAfter(names, target)
    case _ => names
  }

  /** The data of a record, its length included, from the end of the fixed fields. */
  ghost predicate DataBack(p: nat, end: nat, rtype: nat, d: RData, mem: Memory, n: nat) {
    && p + 2 <= end && U16(mem, p) == end - p - 2
    && DataAt(mem, n, p + 2, rtype, end - p - 2) == Ok(Parsed(d, end - p - 2))
  }

  lemma AddressBack(p: nat, d: RData, mem: Memory, n: nat, end: nat)
    requires end == p + 6 && U16(mem, p) == 4 && d.AddressData? && Slice(mem, p + 2, 4) == d.ip
    ensures DataBack(p, end, TYPE_A, d, mem, n)
  {
  }

  lemma TargetBack(p: nat, rtype: nat, d: RData, mem: Memory, n: nat, len: nat, end: nat)
    requires end == p + 2 + len && U16(mem, p) == len && d.NameData? && IsNameType(rtype)
    requires NamedAt(mem, n, p + 2) == Ok(Parsed(d.target, len))
    ensures DataBack(p, end, rtype, d, mem, n)
  {
  }

  lemma SrvBack(p: nat, d: RData, mem: Memory, n: nat, len: nat, end: nat)
    requires end == p + 8 + len && U16(mem, p) == len + 6 && d.SrvData?
    requires NamedAt(mem, n, p + 8) == Ok(Parsed(d.srvTarget, len))
    requires U16(mem, p + 2) == d.prio && U16(mem, p + 4) == d.weight && U16(mem, p + 6) == d.port
    ensures DataBack(p, end, TYPE_SRV, d, mem, n)
  {
  }

  lemma LastTable(out: Bytes, tab: Table, names: seq<Name>, name: Name, pad: Bytes, at: nat)
    requires TableOk(out, tab, names) && Printable(name) && at == |out| + |pad|
    ensures TableOk(out + pad + NameBytes(out, tab, name), TableAfter(out, tab, name, at), NamesAfter(names, name))
  {
    var all := out + pad + NameBytes(out, tab, name);
    BeginsItself(all);
    TwoHeld(all, out, pad, NameBytes(out, tab, name));
    TableGrows(out, tab, names, name, at, all);
  }

  /** The name comes behind `pad`, and ends what was printed. */
  lemma NameLast(out: Bytes, tab: Table, names: seq<Name>, name: Name, pad: Bytes, at: nat, mem: Memory, n: nat)
    requires TableOk(out, tab, names) && Printable(name) && at == |out| + |pad|
    requires Begins(mem, out + pad + NameBytes(out, tab, name)) && |out + pad + NameBytes(out, tab, name)| <= n <= 0x4000
    ensures NamedAt(mem, n, at) == Ok(Parsed(SeenName(names, name), |NameBytes(out, tab, name)|)) && EqualAt(mem, |out|, pad)
  {
    TwoHeld(mem, out, pad, NameBytes(out, tab, name));
    NameReadBack(out, tab, names, name, mem, n, at);
  }

  lemma AddressReadBack(o: Out, names: seq<Name>, d: RData, mem: Memory, n: nat)
    requires TableOk(o.bytes, o.tab, names) && d.AddressData? && |d.ip| == 4
    requires Begins(mem, PrintAddress(o, d.ip).bytes) && |PrintAddress(o, d.ip).bytes| <= n <= 0x4000
    ensures Begins(PrintAddress(o, d.ip).bytes, o.bytes) && DataBack(|o.bytes|, |PrintAddress(o, d.ip).bytes|, TYPE_A, d, mem, n)
    ensures TableOk(PrintAddress(o, d.ip).bytes, PrintAddress(o, d.ip).tab, names)
  {
    var o', ip, p := PrintAddress(o, d.ip), d.ip, |o.bytes|;
    Grouped(o.bytes, Be16(4), ip);
    PrefixHolds(mem, o.bytes, Be16(4) + ip);
    EqualConcat(mem, p, Be16(4), ip);
    ReadU16(mem, p, 4);
    SliceHeld(mem, p + 2, ip);
    AddressBack(p, d, mem, n, |o'.bytes|);
    TableLonger(o.bytes, o.tab, names, o'.bytes);
  }

  lemma TargetTable(o: Out, names: seq<Name>, target: Name)
    requires TableOk(o.bytes, o.tab, names) && Printable(target)
    ensures Begins(PrintTarget(o, target).bytes, o.bytes)
    ensures TableOk(PrintTarget(o, target).bytes, PrintTarget(o, target).tab, NamesAfter(names, target))
  {
    LastTable(o.bytes, o.tab, names, target, Low16(|NameBytes(o.bytes, o.tab, target)|), |o.bytes| + 2);
  }

  lemma TargetHeld(o: Out, names: seq<Name>, target: Name, mem: Memory, n: nat)
    requires TableOk(o.bytes, o.tab, names) && Printable(target)
    requires Begins(mem, PrintTarget(o, target).bytes) && |PrintTarget(o, target).bytes| <= n <= 0x4000
    ensures var p, len := |o.bytes|, |NameBytes(o.bytes, o.tab, target)|;
            && |PrintTarget(o, target).bytes| == p + 2 + len
            && U16(mem, p) == len && NamedAt(mem, n, p + 2) == Ok(Parsed(SeenName(names, target), len))
  {
    var len := |NameBytes(o.bytes, o.tab, target)|;
    NameLast(o.bytes, o.tab, names, target, Low16(len), |o.bytes| + 2, mem, n);
    ReadLow16(mem, |o.bytes|, len);
  }

  lemma TargetReadBack(o: Out, names: seq<Name>, rtype: nat, d: RData, mem: Memory, n: nat)
    requires TableOk(o.bytes, o.tab, names) && IsNameType(rtype) && d.NameData? && Printable(d.target)
    requires Begins(mem, PrintTarget(o, d.target).bytes) && |PrintTarget(o, d.target).bytes| <= n <= 0x4000
    ensures Begins(PrintTarget(o, d.target).bytes, o.bytes)
    ensures DataBack(|o.bytes|, |PrintTarget(o, d.target).bytes|, rtype, SeenData(names, d), mem, n)
    ensures TableOk(PrintTarget(o, d.target).bytes, PrintTarget(o, d.target).tab, NamesAfter(names, d.target))
  {
    TargetTable(o, names, d.target);
    TargetHeld(o, names, d.target, mem, n);
    TargetBack(|o.bytes|, rtype, SeenData(names, d), mem, n, |NameBytes(o.bytes, o.tab, d.target)|, |PrintTarget(o, d.target).bytes|);
  }

  lemma SrvTable(o: Out, names: seq<Name>, d: RData)
    requires TableOk(o.bytes, o.tab, names) && d.SrvData? && Printable(d.srvTarget)
    ensures Begins(PrintSrv(o, d).bytes, o.bytes)
    ensures TableOk(PrintSrv(o, d).bytes, PrintSrv(o, d).tab, NamesAfter(names, d.srvTarget))
  {
    LastTable(o.bytes, o.tab, names, d.srvTarget, SrvPad(|NameBytes(o.bytes, o.tab, d.srvTarget)|, d), |o.bytes| + 8);
  }

  lemma SrvNameHeld(o: Out, names: seq<Name>, d: RData, mem: Memory, n: nat)
    requires TableOk(o.bytes, o.tab, names) && d.SrvData? && Printable(d.srvTarget)
    requires Begins(mem, PrintSrv(o, d).bytes) && |PrintSrv(o, d).bytes| <= n <= 0x4000
    ensures var p, len := |o.bytes|, |NameBytes(o.bytes, o.tab, d.srvTarget)|;
            && |PrintSrv(o, d).bytes| == p + 8 + len && EqualAt(mem, p, SrvPad(len, d))
            && NamedAt(mem, n, p + 8) == Ok(Parsed(SeenName(names, d.srvTarget), len))
  {
    var len := |NameBytes(o.bytes, o.tab, d.srvTarget)|;
    NameLast(o.bytes, o.tab, names, d.srvTarget, SrvPad(len, d), |o.bytes| + 8, mem, n);
  }

  lemma SrvReadBack(o: Out, names: seq<Name>, d: RData, mem: Memory, n: nat)
    requires TableOk(o.bytes, o.tab, names) && PrintableData(TYPE_SRV, d) && d.SrvData?
    requires Begins(mem, PrintSrv(o, d).bytes) && |PrintSrv(o, d).bytes| <= n <= 0x4000
    ensures Begins(PrintSrv(o, d).bytes, o.bytes) && DataBack(|o.bytes|, |PrintSrv(o, d).bytes|, TYPE_SRV, SeenData(names, d), mem, n)
    ensures TableOk(PrintSrv(o, d).bytes, PrintSrv(o, d).tab, NamesAfter(names, d.srvTarget))
  {
    var len := |NameBytes(o.bytes, o.tab, d.srvTarget)|;
    SrvTable(o, names, d);
    SrvNameHeld(o, names, d, mem, n);
    SrvPadRead(mem, |o.bytes|, len, d);
    SrvBack(|o.bytes|, SeenData(names, d), mem, n, len, |PrintSrv(o, d).bytes|);
  }

  lemma SrvPadRead(mem: Memory, p: nat, len: nat, d: RData)
    requires d.SrvData? && d.prio < 0x1_0000 && d.weight < 0x1_0000 && d.port < 0x1_0000 && len + 6 < 0x1_0000
    requires EqualAt(mem, p, SrvPad(len, d))
    ensures U16(mem, p) == len + 6
    ensures U16(mem, p + 2) == d.prio && U16(mem, p + 4) == d.weight && U16(mem, p + 6) == d.port
  {
    EqualConcat(mem, p, Low16(len + 6), SrvFields(d));
    ReadLow16(mem, p, len + 6);
    SrvFieldsRead(mem, p + 2, d);
  }

  lemma SrvFieldsRead(mem: Memory, p: nat, d: RData)
    requires d.SrvData? && d.prio < 0x1_0000 && d.weight < 0x1_0000 && d.port < 0x1_0000
    requires EqualAt(mem, p, SrvFields(d))
    ensures U16(mem, p) == d.prio && U16(mem, p + 2) == d.weight && U16(mem, p + 4) == d.port
  {
    EqualConcat(mem, p, Low16(d.prio) + Low16(d.weight), Low16(d.port));
    EqualConcat(mem, p, Low16(d.prio), Low16(d.weight));
    ReadLow16(mem, p, d.prio);
    ReadLow16(mem, p + 2, d.weight);
    ReadLow16(mem, p + 4, d.port);
  }

  lemma DataReadBack(o: Out, names: seq<Name>, r: RR, mem: Memory, n: nat)
    requires TableOk(o.bytes, o.tab, names) && PrintableData(r.rtype, r.rdata)
    requires PrintData(o, r).Some?
    requires Begins(mem, PrintData(o, r).value.bytes) && |PrintData(o, r).value.bytes| <= n <= 0x4000
    ensures Begins(PrintData(o, r).value.bytes, o.bytes)
    ensures DataBack(|o.bytes|, |PrintData(o, r).value.bytes|, r.rtype, SeenData(names, r.rdata), mem, n)
    ensures TableOk(PrintData(o, r).value.bytes, PrintData(o, r).value.tab, NamesAfterData(names, r.rdata))
  {
    match r.rdata
    case AddressData(_) => AddressReadBack(o, names, r.rdata, mem, n);
    case NameData(_) => TargetReadBack(o, names, r.rtype, r.rdata, mem, n);
    case SrvData(_, _, _, _) => SrvReadBack(o, names, r.rdata, mem, n);
  }

  /** The owner name, the fixed fields and the data of a record are read back as the record. */
  lemma RecordOfParts(p: nat, h: nat, end: nat, r: RR, mem: Memory, n: nat)
    requires HeadBack(p, h, r, mem, n) && DataBack(h, end, r.rtype, r.rdata, mem, n) && end <= n && r.rclass == 1
    ensures RecordBack(p, end, r, mem, n)
  {
    var e := p + (h - p - 8);
    assert e == h - 8 && e + 2 == h - 6 && e + 4 == h - 4 && e + 8 == h && e + 10 == h + 2;
  }

  /** Octets p to end of the packet are read as the record r. */
  ghost predicate RecordBack(p: nat, end: nat, r: RR, mem: Memory, n: nat) {
    p <= end && RecordAt(mem, n, p) == Ok(Parsed(r, end - p))
  }

  lemma PartsBack(o: Out, names: seq<Name>, r: RR, h: Out, o': Out, mem: Memory, n: nat)
    requires TableOk(o.bytes, o.tab, names) && PrintableRR(r) && h == PrintHead(o, r) && PrintData(h, r) == Some(o')
    requires Begins(mem, o'.bytes) && |o'.bytes| <= n <= 0x4000
    ensures Begins(o'.bytes, o.bytes)
    ensures HeadBack(|o.bytes|, |h.bytes|, SeenRR(names, r), mem, n)
    ensures DataBack(|h.bytes|, |o'.bytes|, r.rtype, SeenRR(names, r).rdata, mem, n)
    ensures TableOk(o'.bytes, o'.tab, NamesAfterData(NamesAfter(names, r.name), r.rdata))
  {
    DataGrows(h, r);
    HeadTable(o, names, r);
    BeginsThrough(mem, o'.bytes, h.bytes);
    HeadReadBack(o, names, r, mem, n);
    DataReadBack(h, NamesAfter(names, r.name), r, mem, n);
  }

  /** A record is read back as it was printed, but for names taken for others. */
  lemma RecordReadBack(o: Out, names: seq<Name>, r: RR, h: Out, o': Out, mem: Memory, n: nat)
    requires TableOk(o.bytes, o.tab, names) && PrintableRR(r) && h == PrintHead(o, r) && PrintData(h, r) == Some(o')
    requires Begins(mem, o'.bytes) && |o'.bytes| <= n <= 0x4000
    ensures Begins(o'.bytes, o.bytes) && RecordBack(|o.bytes|, |o'.bytes|, SeenRR(names, r), mem, n)
    ensures TableOk(o'.bytes, o'.tab, TableNames(names, RecordPart(r)))
  {
    PartsBack(o, names, r, h, o', mem, n);
    RecordOfParts(|o.bytes|, |h.bytes|, |o'.bytes|, SeenRR(names, r), mem, n);
    RecordNamesAfter(names, r);
  }

  lemma RecordNamesAfter(names: seq<Name>, r: RR)
    ensures TableNames(names, RecordPart(r)) == NamesAfterData(NamesAfter(names, r.name), r.rdata)
  {
    TableNamesNext(names, [], r.name);
    assert [] + [r.name] == [r.name] && [r.name] + [] == [r.name];
    match r.rdata
    case NameData(target) => TableNamesNext(names, [r.name], target);
    case SrvData(_, _, _, target) => TableNamesNext(names, [r.name], target);
    case _ =>
  }

  lemma DataGrows(o: Out, r: RR)
    requires PrintData(o, r).Some?
    ensures Begins(PrintData(o, r).value.bytes, o.bytes)
  {
  }

  lemma RRGrows(o: Out, r: RR)
    requires PrintRR(o, r).Some?
    ensures Begins(PrintRR(o, r).value.bytes, o.bytes)
  {
    DataGrows(PrintHead(o, r), r);
  }

  /** A reader that reads records where they were printed. */
  ghost predicate ReadsBack(f: Reader<RR>, mem: Memory, n: nat) {
    forall p: nat, end: nat, r: RR {:trigger RecordBack(p, end, r, mem, n)} ::
      RecordBack(p, end, r, mem, n) ==> p <= end && f(p) == Ok(Parsed(r, end - p))
  }

  /** The records xs are read from octets p to end. */
  predicate ManyBack<T(==)>(f: Reader<T>, p: nat, end: nat, xs: seq<T>) {
    p <= end && Many(f, p, |xs|) == Ok(Parsed(xs, end - p))
  }

  lemma ManyBackNext<T>(f: Reader<T>, p: nat, mid: nat, end: nat, xs: seq<T>, x: T)
    requires ManyBack(f, p, mid, xs) && mid <= end && f(mid) == Ok(Parsed(x, end - mid))
    ensures ManyBack(f, p, end, xs + [x])
  {
    ManyNext(f, p, |xs|, xs, mid - p);
  }

  lemma PrintRRsLast(o: Out, rrs: seq<RR>, o': Out) returns (ob: Out, h: Out)
    requires rrs != [] && PrintRRs(o, rrs) == Some(o')
    ensures var k := |rrs| - 1;
            PrintRRs(o, rrs[..k]) == Some(ob) && h == PrintHead(ob, rrs[k]) && PrintData(h, rrs[k]) == Some(o')
    ensures Begins(o'.bytes, ob.bytes)
  {
    var k := |rrs| - 1;
    ob := PrintRRs(o, rrs[..k]).value;
    h := PrintHead(ob, rrs[k]);
    RRGrows(ob, rrs[k]);
  }

  lemma ManyRecord(f: Reader<RR>, p: nat, mid: nat, end: nat, xs: seq<RR>, r: RR, mem: Memory, n: nat)
    requires ReadsBack(f, mem, n) && ManyBack(f, p, mid, xs) && RecordBack(mid, end, r, mem, n)
    ensures ManyBack(f, p, end, xs + [r])
  {
    ManyBackNext(f, p, mid, end, xs, r);
  }

  lemma NothingBack<T>(f: Reader<T>, p: nat)
    ensures ManyBack(f, p, p, [])
  {
  }

  /** A section of records is read back, but for names taken for others. */
  lemma {:induction false} SectionReadBack(o: Out, names: seq<Name>, rrs: seq<RR>, o': Out, mem: Memory, n: nat, f: Reader<RR>)
    requires TableOk(o.bytes, o.tab, names) && ReadsBack(f, mem, n) && (forall r :: r in rrs ==> PrintableRR(r))
    requires PrintRRs(o, rrs) == Some(o') && Begins(mem, o'.bytes) && |o'.bytes| <= n <= 0x4000
    ensures Begins(o'.bytes, o.bytes) && TableOk(o'.bytes, o'.tab, TableNames(names, RecordNames(rrs)))
    ensures ManyBack(f, |o.bytes|, |o'.bytes|, SeenRRs(names, rrs))
    decreases |rrs|
  {
    if rrs == [] {
      NothingBack(f, |o.bytes|);
    } else {
      var k := |rrs| - 1;
      var ob, h := PrintRRsLast(o, rrs, o');
      var mid := TableNames(names, RecordNames(rrs[..k]));
      SectionReadBack(o, names, rrs[..k], ob, mem, n, f);
      RecordReadBack(ob, mid, rrs[k], h, o', mem, n);
      TableNamesConcat(names, RecordNames(rrs[..k]), RecordPart(rrs[k]));
      ManyRecord(f, |o.bytes|, |ob.bytes|, |o'.bytes|, SeenRRs(names, rrs[..k]), SeenRR(mid, rrs[k]), mem, n);
    }
  }

  ghost predicate QueriesBack(f: Reader<Query>, mem: Memory, n: nat) {
    forall p: nat, end: nat, q: Query {:trigger QueryBack(p, end, q, mem, n)} ::
      QueryBack(p, end, q, mem, n) ==> p <= end && f(p) == Ok(Parsed(q, end - p))
  }

  lemma QueryStep(o: Out, names: seq<Name>, q: Query, o': Out, mem: Memory, n: nat)
    requires TableOk(o.bytes, o.tab, names) && PrintableQuery(q) && o' == PrintQuery(o, q)
    requires Begins(mem, o'.bytes) && |o'.bytes| <= n <= 0x4000
    ensures Begins(o'.bytes, o.bytes) && QueryBack(|o.bytes|, |o'.bytes|, SeenQuery(names, q), mem, n)
    ensures TableOk(o'.bytes, o'.tab, NamesAfter(names, q.name))
  {
    QueryTable(o, names, q);
    QueryReadBack(o, names, q, mem, n);
  }

  lemma ManyQuery(f: Reader<Query>, p: nat, mid: nat, end: nat, xs: seq<Query>, q: Query, mem: Memory, n: nat)
    requires QueriesBack(f, mem, n) && ManyBack(f, p, mid, xs) && QueryBack(mid, end, q, mem, n)
    ensures ManyBack(f, p, end, xs + [q])
  {
    ManyBackNext(f, p, mid, end, xs, q);
  }

  lemma PrintQueriesLast(o: Out, qs: seq<Query>) returns (ob: Out)
    requires qs != []
    ensures ob == PrintQueries(o, qs[..|qs| - 1]) && PrintQueries(o, qs) == PrintQuery(ob, qs[|qs| - 1])
    ensures Begins(PrintQueries(o, qs).bytes, ob.bytes)
  {
    ob := PrintQueries(o, qs[..|qs| - 1]);
  }

  lemma {:induction false} QuestionsReadBack(o: Out, names: seq<Name>, qs: seq<Query>, o': Out, mem: Memory, n: nat, f: Reader<Query>)
    requires TableOk(o.bytes, o.tab, names) && QueriesBack(f, mem, n) && (forall q :: q in qs ==> PrintableQuery(q))
    requires PrintQueries(o, qs) == o' && Begins(mem, o'.bytes) && |o'.bytes| <= n <= 0x4000
    ensures Begins(o'.bytes, o.bytes) && TableOk(o'.bytes, o'.tab, TableNames(names, QuestionNames(qs)))
    ensures ManyBack(f, |o.bytes|, |o'.bytes|, SeenQueries(names, qs))
    decreases |qs|
  {
    if qs == [] {
      NothingBack(f, |o.bytes|);
    } else {
      var k := |qs| - 1;
      var ob := PrintQueriesLast(o, qs);
      var mid := TableNames(names, QuestionNames(qs[..k]));
      QuestionsReadBack(o, names, qs[..k], ob, mem, n, f);
      QueryStep(ob, mid, qs[k], o', mem, n);
      TableNamesNext(names, QuestionNames(qs[..k]), qs[k].name);
      ManyQuery(f, |o.bytes|, |ob.bytes|, |o'.bytes|, SeenQueries(names, qs[..k]), SeenQuery(mid, qs[k]), mem, n);
    }
  }

  // ----- packets -----

  ghost predicate PrintablePacket(p: Packet) {
    && p.id < 0x1_0000 && p.flags < 0x1_0000
    && |p.q| < 0x1_0000 && |p.ans| < 0x1_0000 && |p.ns| < 0x1_0000 && |p.ar| < 0x1_0000
    && (forall q :: q in p.q ==> PrintableQuery(q))
    && (forall r :: r in p.ans ==> PrintableRR(r))
    && (forall r :: r in p.ns ==> PrintableRR(r))
    && (forall r :: r in p.ar ==> PrintableRR(r))
  }

  lemma SixParts(mem: Bytes, b0: Bytes, b1: Bytes, b2: Bytes, b3: Bytes, b4: Bytes, b5: Bytes)
    requires |b0| == |b1| == |b2| == |b3| == |b4| == |b5| == 2 && EqualAt(mem, 0, b0 + b1 + b2 + b3 + b4 + b5)
    ensures EqualAt(mem, 0, b0) && EqualAt(mem, 2, b1) && EqualAt(mem, 4, b2)
    ensures EqualAt(mem, 6, b3) && EqualAt(mem, 8, b4) && EqualAt(mem, 10, b5)
  {
    EqualConcat(mem, 0, b0 + b1 + b2 + b3 + b4, b5);
    EqualConcat(mem, 0, b0 + b1 + b2 + b3, b4);
    EqualConcat(mem, 0, b0 + b1 + b2, b3);
    EqualConcat(mem, 0, b0 + b1, b2);
    EqualConcat(mem, 0, b0, b1);
  }

  lemma HeaderRead(p: Packet, mem: Memory)
    requires PrintablePacket(p) && Begins(mem, Header(p))
    ensures U16(mem, 0) == p.id && U16(mem, 2) == p.flags && U16(mem, 4) == |p.q|
    ensures U16(mem, 6) == |p.ans| && U16(mem, 8) == |p.ns| && U16(mem, 10) == |p.ar|
  {
    assert EqualAt(mem, 0, Header(p));
    SixParts(mem, Low16(p.id), Low16(p.flags), Low16(|p.q|), Low16(|p.ans|), Low16(|p.ns|), Low16(|p.ar|));
    ReadLow16(mem, 0, p.id);
    ReadLow16(mem, 2, p.flags);
    ReadLow16(mem, 4, |p.q|);
    ReadLow16(mem, 6, |p.ans|);
    ReadLow16(mem, 8, |p.ns|);
    ReadLow16(mem, 10, |p.ar|);
  }

  /** Sections read one behind the other. */
  lemma SectionsOfParts(f: Reader<RR>, mem: Memory, p1: nat, p2: nat, p3: nat, p4: nat, s: RRSections)
    requires ManyBack(f, p1, p2, s.ans) && ManyBack(f, p2, p3, s.ns) && ManyBack(f, p3, p4, s.ar)
    requires U16(mem, 6) == |s.ans| && U16(mem, 8) == |s.ns| && U16(mem, 10) == |s.ar|
    ensures RecordSections(f, mem, p1) == Ok(s)
  {
    assert p1 + (p2 - p1) == p2 && p2 + (p3 - p2) == p3;
  }

  lemma PacketOfParts(fq: Reader<Query>, fr: Reader<RR>, mem: Memory, n: nat, p1: nat, p: Packet)
    requires n >= HEADER && ManyBack(fq, HEADER, p1, p.q) && U16(mem, 4) == |p.q|
    requires RecordSections(fr, mem, p1) == Ok(RRSections(p.ans, p.ns, p.ar))
    requires U16(mem, 0) == p.id && U16(mem, 2) == p.flags
    ensures PacketBy(fq, fr, mem, n) == Ok(p)
  {
    assert HEADER + (p1 - HEADER) == p1;
  }

  /** The states of the printer between the sections. */
  ghost predicate Stages(p: Packet, o0: Out, o1: Out, o2: Out, o3: Out, o4: Out) {
    && o0 == Out(Header(p), []) && PrintQueries(o0, p.q) == o1
    && PrintRRs(o1, p.ans) == Some(o2) && PrintRRs(o2, p.ns) == Some(o3) && PrintRRs(o3, p.ar) == Some(o4)
  }

  lemma {:induction false} RRsGrow(o: Out, rrs: seq<RR>, o': Out)
    requires PrintRRs(o, rrs) == Some(o')
    ensures Begins(o'.bytes, o.bytes)
    decreases |rrs|
  {
    if rrs != [] {
      var ob, h := PrintRRsLast(o, rrs, o');
      RRsGrow(o, rrs[..|rrs| - 1], ob);
    }
  }

  /** The three record sections are read back one behind the other. */
  lemma RecordsReadBack(o1: Out, n1: seq<Name>, s: RRSections, o2: Out, o3: Out, o4: Out, mem: Memory, n: nat, fr: Reader<RR>)
    requires TableOk(o1.bytes, o1.tab, n1) && ReadsBack(fr, mem, n)
    requires forall r :: r in s.ans || r in s.ns || r in s.ar ==> PrintableRR(r)
    requires PrintRRs(o1, s.ans) == Some(o2) && PrintRRs(o2, s.ns) == Some(o3) && PrintRRs(o3, s.ar) == Some(o4)
    requires Begins(mem, o4.bytes) && Begins(o4.bytes, o3.bytes) && Begins(o3.bytes, o2.bytes) && |o4.bytes| <= n <= 0x4000
    ensures var n2 := TableNames(n1, RecordNames(s.ans));
            var n3 := TableNames(n2, RecordNames(s.ns));
            && ManyBack(fr, |o1.bytes|, |o2.bytes|, SeenRRs(n1, s.ans))
            && ManyBack(fr, |o2.bytes|, |o3.bytes|, SeenRRs(n2, s.ns))
            && ManyBack(fr, |o3.bytes|, |o4.bytes|, SeenRRs(n3, s.ar))
  {
    BeginsThrough(mem, o4.bytes, o3.bytes);
    BeginsThrough(mem, o3.bytes, o2.bytes);
    var n2 := TableNames(n1, RecordNames(s.ans));
    SectionReadBack(o1, n1, s.ans, o2, mem, n, fr);
    SectionReadBack(o2, n2, s.ns, o3, mem, n, fr);
    SectionReadBack(o3, TableNames(n2, RecordNames(s.ns)), s.ar, o4, mem, n, fr);
  }

  lemma StagesReadBack(p: Packet, o0: Out, o1: Out, o2: Out, o3: Out, o4: Out, mem: Memory, n: nat,
                       fq: Reader<Query>, fr: Reader<RR>)
    requires PrintablePacket(p) && Stages(p, o0, o1, o2, o3, o4) && QueriesBack(fq, mem, n) && ReadsBack(fr, mem, n)
    requires Begins(mem, o4.bytes) && |o4.bytes| <= n <= 0x4000
    ensures PacketBy(fq, fr, mem, n) == Ok(Seen(p))
  {
    RRsGrow(o1, p.ans, o2);
    RRsGrow(o2, p.ns, o3);
    RRsGrow(o3, p.ar, o4);
    BeginsThrough(mem, o4.bytes, o3.bytes);
    BeginsThrough(mem, o3.bytes, o2.bytes);
    BeginsThrough(mem, o2.bytes, o1.bytes);
    QuestionsReadBack(o0, [], p.q, o1, mem, n, fq);
    BeginsThrough(mem, o1.bytes, o0.bytes);
    HeaderRead(p, mem);
    RecordsReadBack(o1, TableNames([], QuestionNames(p.q)), RRSections(p.ans, p.ns, p.ar), o2, o3, o4, mem, n, fr);
    var seen := Seen(p);
    SectionsOfParts(fr, mem, |o1.bytes|, |o2.bytes|, |o3.bytes|, |o4.bytes|, RRSections(seen.ans, seen.ns, seen.ar));
    PacketOfParts(fq, fr, mem, n, |o1.bytes|, seen);
  }

  lemma StagesOf(p: Packet) returns (o0: Out, o1: Out, o2: Out, o3: Out, o4: Out)
    requires Print(p).Some?
    ensures Stages(p, o0, o1, o2, o3, o4) && Print(p) == Some(o4)
  {
    o0 := Out(Header(p), []);
    o1 := PrintQueries(o0, p.q);
    o2 := PrintRRs(o1, p.ans).value;
    o3 := PrintRRs(o2, p.ns).value;
    o4 := PrintRRs(o3, p.ar).value;
  }

  lemma ReadersRead(mem: Memory, n: nat)
    ensures QueriesBack(Queries(mem, n), mem, n) && ReadsBack(Records(mem, n), mem, n)
  {
  }

  lemma {:induction false} SectionPrinted(o: Out, rrs: seq<RR>)
    requires forall r :: r in rrs ==> PrintableRR(r)
    ensures PrintRRs(o, rrs).Some?
    decreases |rrs|
  {
    if rrs != [] {
      SectionPrinted(o, rrs[..|rrs| - 1]);
      var r := rrs[|rrs| - 1];
      assert PrintableRR(r);
    }
  }

  /**
   * Whatever lies behind it in memory, a packet that was printed is parsed into what it was printed
   * from, each name replaced by the one the label table took it for.
   */
  lemma PacketReadBack(p: Packet, mem: Memory)
    requires PrintablePacket(p)
    ensures Print(p).Some?
    ensures var bytes := Print(p).value.bytes;
            |bytes| <= 0x4000 && Begins(mem, bytes) ==> PacketAt(mem, |bytes|) == Ok(Seen(p))
  {
    SectionPrinted(PrintQueries(Out(Header(p), []), p.q), p.ans);
    SectionPrinted(PrintRRs(PrintQueries(Out(Header(p), []), p.q), p.ans).value, p.ns);
    SectionPrinted(PrintRRs(PrintRRs(PrintQueries(Out(Header(p), []), p.q), p.ans).value, p.ns).value, p.ar);
    var o0, o1, o2, o3, o4 := StagesOf(p);
    var n := |o4.bytes|;
    if n <= 0x4000 && Begins(mem, o4.bytes) {
      ReadersRead(mem, n);
      StagesReadBack(p, o0, o1, o2, o3, o4, mem, n, Queries(mem, n), Records(mem, n));
    }
  }

  /**
   * The packet comes back, header, every name however it was compressed, every TTL and all data, if
   * and only if at its turn no name is the shifted form of a different name in the table.
   */
  lemma PacketRoundTrip(p: Packet, mem: Memory)
    requires PrintablePacket(p)
    ensures Print(p).Some?
    ensures var bytes := Print(p).value.bytes;
            |bytes| <= 0x4000 && Begins(mem, bytes) ==>
              (PacketAt(mem, |bytes|) == Ok(p) <==> Unconfused([], PrintedNames(p)))
  {
    PacketReadBack(p, mem);
    SeenExact(p);
  }

  /** So it does if no name of the packet is the shifted form of another. */
  lemma PacketComesBack(p: Packet, mem: Memory)
    requires PrintablePacket(p)
    requires forall a, b :: a in PrintedNames(p) && b in PrintedNames(p) && Shifted(a) == b ==> a == b
    ensures Print(p).Some?
    ensures var bytes := Print(p).value.bytes;
            |bytes| <= 0x4000 && Begins(mem, bytes) ==> PacketAt(mem, |bytes|) == Ok(p)
  {
    PacketRoundTrip(p, mem);
    NoShiftedForms(PrintedNames(p));
  }

  /** And always if no octet is below 45 and no label longer than 44. */
  lemma HighOctetsComeBack(p: Packet, mem: Memory)
    requires PrintablePacket(p) && forall a :: a in PrintedNames(p) ==> HighOctets(a)
    ensures Print(p).Some?
    ensures var bytes := Print(p).value.bytes;
            |bytes| <= 0x4000 && Begins(mem, bytes) ==> PacketAt(mem, |bytes|) == Ok(p)
  {
    forall a, b | a in PrintedNames(p) && b in PrintedNames(p) && Shifted(a) == b ensures a == b {
      HighOctetsApart(a, b);
    }
    PacketComesBack(p, mem);
  }

  /** An answer for "x2" and fifty octets arrives as one for "x.", a dot instead of the '2'. */
  lemma AnswerForAnother(l: Name, ip: Bytes, mem: Memory)
    requires |l| == 50 && |ip| == 4 && forall i :: 0 <= i < 50 ==> l[i] != DOT
    ensures var asked, other := [120, DOT] + l, [120, 50] + l;
            var r := RR(other, TYPE_A, 1, 60, AddressData(ip));
            var p := Packet(1, 0x8000, [Query(asked, TYPE_A, 1)], [r], [], []);
            && asked != other && Print(p).Some?
            && var bytes := Print(p).value.bytes;
               |bytes| <= 0x4000 && Begins(mem, bytes) ==>
                 PacketAt(mem, |bytes|) == Ok(p.(ans := [r.(name := asked)])) && PacketAt(mem, |bytes|) != Ok(p)
  {
    var asked, other := [120, DOT] + l, [120, 50] + l;
    var q, r := Query(asked, TYPE_A, 1), RR(other, TYPE_A, 1, 60, AddressData(ip));
    var p := Packet(1, 0x8000, [q], [r], [], []);
    HostnamesConfused(l);
    PacketReadBack(p, mem);
    SeenOne(q, r);
    assert Seen(p) == p.(ans := [r.(name := asked)]);
    assert [r][0] != [r.(name := asked)][0];
  }

  /** One question, one address. */
  lemma SeenOne(q: Query, r: RR)
    requires r.rdata.AddressData?
    ensures SeenQueries([], [q]) == [q] && TableNames([], QuestionNames([q])) == [q.name]
    ensures SeenRRs([q.name], [r]) == [r.(name := SeenName([q.name], r.name))]
  {
    assert [q][..0] == [] && [r][..0] == [] && [] + [q.name] == [q.name];
    TableNamesNext([], [], q.name);
  }
}
