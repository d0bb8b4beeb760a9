/** The DNS server's packet printer, writing into its buffer. */
module DnsServer {
  import opened Bytes
  import opened DnsPackets
  import opened DnsNames
  import opened DnsParser
  import opened DnsLabels
  import opened DnsPrinter

  // ----- ample room -----

  function QueryRoom(q: Query): nat {
    |q.name| + 6
  }

  function DataRoom(d: RData): nat {
    match d
    case NameData(target) => |target| + 4
    case SrvData(_, _, _, target) => |target| + 10
    case _ => 6
  }

  function RRRoom(r: RR): nat {
    |r.name| + 10 + DataRoom(r.rdata)
  }

  function QueriesRoom(qs: seq<Query>): nat {
    if qs == [] then 0 else QueriesRoom(qs[..|qs| - 1]) + QueryRoom(qs[|qs| - 1])
  }

  function RRsRoom(rrs: seq<RR>): nat {
    if rrs == [] then 0 else RRsRoom(rrs[..|rrs| - 1]) + RRRoom(rrs[|rrs| - 1])
  }

  function PacketRoom(p: Packet): nat {
    HEADER + QueriesRoom(p.q) + RRsRoom(p.ans) + RRsRoom(p.ns) + RRsRoom(p.ar)
  }

  // ----- steps of the loops -----

  lemma FindNext(out: Bytes, tab: Table, name: Name, i: nat)
    requires i < |tab|
    ensures Find(out, tab[i..], name) == if Matches(out, tab[i], name) then 0 else 1 + Find(out, tab[i + 1..], name)
  {
    assert tab[i..][0] == tab[i] && tab[i..][1..] == tab[i + 1..];
  }

  lemma NothingLeft(name: Name)
    ensures Encode(name[|name|..]) == [0]
  {
    assert name[|name|..] == [];
  }

  lemma DotNext(name: Name, i: nat)
    requires i <= |name|
    ensures DotIndex(name[i..]) == if i == |name| || name[i] == DOT then 0 else 1 + DotIndex(name[i + 1..])
  {
    if i < |name| {
      assert name[i..][0] == name[i] && name[i..][1..] == name[i + 1..];
    }
  }

  /** One more label: `end` is the dot behind it, or the end of the name. */
  lemma EncodeNext(name: Name, start: nat, end: nat)
    requires start < |name| && end == start + DotIndex(name[start..])
    ensures end <= |name|
    ensures var next := if end < |name| then end + 1 else end;
            Encode(name[start..]) == [(end - start) % 256] + name[start..end] + Encode(name[next..])
  {
    var rest := name[start..];
    assert rest[..end - start] == name[start..end];
    assert end < |name| ==> rest[end - start + 1..] == name[end + 1..];
    assert end == |name| ==> name[end..] == [];
  }

  lemma WroteAt(pkt: Bytes, q: nat, before: Bytes, b: Bytes)
    requires q + |b| <= |pkt| && pkt[..q] == before && pkt[q..q + |b|] == b
    ensures pkt[..q + |b|] == before + b
  {
    assert pkt[..q + |b|] == pkt[..q] + pkt[q..q + |b|];
  }

  lemma WrittenSplit(pkt: Bytes, at: nat, end: nat, before: Bytes, b: Bytes)
    requires end <= |pkt| && |before| == at && end == at + |b| && pkt[..end] == before + b
    ensures pkt[..at] == before && pkt[at..end] == b
  {
    assert pkt[..end][..at] == pkt[..at] && pkt[..end][at..] == pkt[at..end];
  }

  class Server {
    const pkt: array<Byte>
    var p: nat
    var tab: Table

    constructor (size: nat)
      ensures pkt.Length == size && fresh(pkt) && p == 0 && tab == []
    {
      pkt := new Byte[size];
      p, tab := 0, [];
    }

    predicate Valid()
      reads this
    {
      p <= pkt.Length
    }

    ghost function State(): Out
      reads this, pkt
      requires Valid()
    {
      Out(pkt[..p], tab)
    }

    /** Octets written at position `at`; nothing else changes. */
    method WriteAt(at: nat, b: Bytes)
      requires at + |b| <= pkt.Length
      modifies pkt
      ensures pkt[..at] == old(pkt[..at]) && pkt[at..at + |b|] == b && pkt[at + |b|..] == old(pkt[at + |b|..])
    {
      var i := 0;
      while i < |b|
        invariant 0 <= i <= |b|
        invariant pkt[..at] == old(pkt[..at]) && pkt[at..at + i] == b[..i] && pkt[at + i..] == old(pkt[at + i..])
      {
        pkt[at + i] := b[i];
        assert pkt[at..at + i + 1] == pkt[at..at + i] + [b[i]];
        i := i + 1;
      }
    }

    /** Octets written at the current position. */
    method Put(b: Bytes)
      requires Valid() && p + |b| <= pkt.Length
      modifies this`p, pkt
      ensures Valid() && p == old(p) + |b| && pkt[..p] == old(pkt[..p]) + b && pkt[p..] == old(pkt[p + |b|..])
    {
      WriteAt(p, b);
      assert pkt[..p + |b|] == pkt[..p] + pkt[p..p + |b|];
      p := p + |b|;
    }

    /** The comparison of a name with what has been written. */
    method Same(at: nat, name: Name) returns (same: bool)
      requires Valid()
      ensures same == EqualAt(pkt[..p], at, name)
    {
      if at + |name| > p {
        return false;
      }
      var i := 0;
      while i < |name|
        invariant 0 <= i <= |name| && forall k :: 0 <= k < i ==> name[k] == pkt[at + k]
      {
        if pkt[at + i] != name[i] {
          assert pkt[..p][at + i] != name[i];
          return false;
        }
        i := i + 1;
      }
      return true;
    }

    /** The loop of `print_name` over the label table. */
    method FindName(name: Name) returns (i: nat)
      requires Valid()
      ensures i == Find(pkt[..p], tab, name)
    {
      ghost var out := pkt[..p];
      i := 0;
      assert tab[0..] == tab;
      while i < |tab|
        invariant i <= |tab| && Find(out, tab, name) == i + Find(out, tab[i..], name)
      {
        FindNext(out, tab, name, i);
        var e := tab[i];
        var same := Same(e.pos + 1, name);
        if e.slen == |name| && same {
          return;
        }
        i := i + 1;
      }
    }

    /** The inner loop: the label ends at the next dot, or with the name. */
    static method LabelEnd(name: Name, start: nat) returns (k: nat)
      requires start <= |name|
      ensures k == start + DotIndex(name[start..])
    {
      k := start;
      while k != |name| && name[k] != DOT
        invariant start <= k <= |name| && start + DotIndex(name[start..]) == k + DotIndex(name[k..])
        decreases |name| - k
      {
        DotNext(name, k);
        k := k + 1;
      }
      DotNext(name, k);
    }

    /** `print_name` without its table, writing at `at`. */
    method WriteLabels(name: Name, at: nat) returns (end: nat)
      requires at + |name| + 2 <= pkt.Length
      modifies pkt
      ensures end == at + |Encode(name)| <= pkt.Length
      ensures pkt[..at] == old(pkt[..at]) && pkt[at..end] == Encode(name)
    {
      ghost var all, before := Encode(name), pkt[..at];
      ghost var done;
      end, done := WriteEachLabel(name, at, before, all);
      WritePiece(end, [0], before, done, []);
      end := end + 1;
      WrittenSplit(pkt[..], at, end, before, all);
    }

    /** The loop of `print_name` over the labels. */
    method WriteEachLabel(name: Name, at: nat, ghost before: Bytes, ghost all: Bytes) returns (q: nat, ghost done: Bytes)
      requires all == Encode(name) && at + |all| <= pkt.Length && pkt[..at] == before && |before| == at
      modifies pkt
      ensures all == done + [0] && q == at + |done| && q < pkt.Length && pkt[..q] == before + done
    {
      var start := 0;
      ghost var left := all;
      q, done := at, [];
      assert name[0..] == name;
      while start != |name|
        invariant start <= |name| && left == Encode(name[start..]) && all == done + left
        invariant q == at + |done| && pkt[..q] == before + done
        decreases |name| - start
      {
        start, q, done, left := WriteLabel(name, start, q, before, done, left, all);
      }
      NothingLeft(name);
    }

    /** One label. */
    method WriteLabel(name: Name, start: nat, q: nat, ghost before: Bytes, ghost done: Bytes, ghost left: Bytes, ghost all: Bytes)
      returns (start': nat, q': nat, ghost done': Bytes, ghost left': Bytes)
      requires start < |name| && left == Encode(name[start..]) && all == done + left
      requires q == |before| + |done| && |before| + |all| <= pkt.Length && pkt[..q] == before + done
      modifies pkt
      ensures start < start' <= |name| && left' == Encode(name[start'..]) && all == done' + left'
      ensures q' == |before| + |done'| <= pkt.Length && pkt[..q'] == before + done'
    {
      var k := LabelEnd(name, start);
      EncodeNext(name, start, k);
      var piece := [(k - start) % 256] + name[start..k];
      start' := if k < |name| then k + 1 else k;
      left' := Encode(name[start'..]);
      assert left == piece + left';
      WritePiece(q, piece, before, done, left');
      done' := done + piece;
      q' := q + |piece|;
    }

    /** A length octet with its label, or the final zero octet. */
    method WritePiece(q: nat, piece: Bytes, ghost before: Bytes, ghost done: Bytes, ghost left: Bytes)
      requires q == |before| + |done| && q + |piece| + |left| <= pkt.Length && pkt[..q] == before + done
      modifies pkt
      ensures pkt[..q + |piece|] == before + (done + piece)
      ensures done + (piece + left) == done + piece + left
    {
      WriteAt(q, piece);
      WroteAt(pkt[..], q, before + done, piece);
    }

    /** `print_name` at position `at`, which may lie a few octets behind what has been printed. */
    method PrintName(name: Name, at: nat) returns (len: nat)
      requires Valid() && p <= at && at + |name| + 2 <= pkt.Length
      modifies this`tab, pkt
      ensures Valid() && pkt[..p] == old(pkt[..p])
      ensures len == |NameBytes(old(pkt[..p]), old(tab), name)| && at + len <= pkt.Length
      ensures pkt[at..at + len] == NameBytes(old(pkt[..p]), old(tab), name)
      ensures tab == TableAfter(old(pkt[..p]), old(tab), name, at)
    {
      var i := FindName(name);
      if i != |tab| {
        WritePointer(at, tab[i].pos);
        return 2;
      }
      if |tab| < MAX_LABEL {
        tab := tab + [Entry(at, |name|)];
      }
      var end := WriteFull(name, at);
      return end - at;
    }

    method WritePointer(at: nat, pos: nat)
      requires Valid() && p <= at && at + 2 <= pkt.Length
      modifies pkt
      ensures pkt[..p] == old(pkt[..p]) && pkt[at..at + 2] == Pointer(pos)
    {
      WriteAt(at, Pointer(pos));
      assert pkt[..p] == pkt[..at][..p] && old(pkt[..p]) == old(pkt[..at])[..p];
    }

    method WriteFull(name: Name, at: nat) returns (end: nat)
      requires Valid() && p <= at && at + |name| + 2 <= pkt.Length
      modifies pkt
      ensures end == at + |Encode(name)| <= pkt.Length
      ensures pkt[..p] == old(pkt[..p]) && pkt[at..end] == Encode(name)
    {
      end := WriteLabels(name, at);
      assert pkt[..p] == pkt[..at][..p] && old(pkt[..p]) == old(pkt[..at])[..p];
    }

    /** A question. */
    method PrintQueryRecord(q: Query)
      requires Valid() && p + QueryRoom(q) <= pkt.Length
      modifies this, pkt
      ensures Valid() && State() == PrintQuery(old(State()), q)
      ensures p <= old(p) + QueryRoom(q)
    {
      var len := PrintName(q.name, p);
      p := Advanced(len);
      Put(QueryFields(q));
    }

    /** `p += len` behind octets just written at p. */
    method Advanced(len: nat) returns (p': nat)
      requires Valid() && p + len <= pkt.Length
      ensures p' == p + len && pkt[..p'] == pkt[..p] + pkt[p..p + len]
    {
      p' := p + len;
      assert pkt[..p'] == pkt[..p] + pkt[p..p + len];
    }

    /** The owner name and the fixed fields of a record. */
    method PrintRRHead(r: RR)
      requires Valid() && p + |r.name| + 10 <= pkt.Length
      modifies this, pkt
      ensures Valid() && State() == PrintHead(old(State()), r)
      ensures p <= old(p) + |r.name| + 10
    {
      var len := PrintName(r.name, p);
      p := Advanced(len);
      Put(Fixed(r));
    }

    /** A name behind octets that are only known once it has been printed. */
    method PrintBehind(name: Name, gap: nat) returns (len: nat)
      requires Valid() && p + gap + |name| + 2 <= pkt.Length
      modifies this`tab, pkt
      ensures Valid() && pkt[..p] == old(pkt[..p]) && len == |NameBytes(old(pkt[..p]), old(tab), name)| <= |name| + 2
      ensures pkt[p + gap..p + gap + len] == NameBytes(old(pkt[..p]), old(tab), name)
      ensures tab == TableAfter(old(pkt[..p]), old(tab), name, p + gap)
    {
      var at := p + gap;
      len := PrintName(name, at);
    }

    /** The octets before the name are filled in, and the position moves behind both. */
    method FillGap(pad: Bytes, len: nat)
      requires Valid() && p + |pad| + len <= pkt.Length
      modifies this`p, pkt
      ensures Valid() && p == old(p) + |pad| + len
      ensures pkt[..p] == old(pkt[..p]) + pad + old(pkt[p + |pad|..p + |pad| + len])
    {
      ghost var name := pkt[p + |pad|..p + |pad| + len];
      ghost var tail := pkt[p + |pad|..];
      Put(pad);
      assert pkt[p..p + len] == tail[..len] == name;
      p := Advanced(len);
    }

    method PutAddress(ip: Bytes)
      requires Valid() && |ip| == 4 && p + 6 <= pkt.Length
      modifies this, pkt
      ensures Valid() && State() == PrintAddress(old(State()), ip) && p == old(p) + 6
    {
      Put(Be16(4));
      Put(ip);
    }

    method PutTarget(target: Name)
      requires Valid() && p + |target| + 4 <= pkt.Length
      modifies this, pkt
      ensures Valid() && State() == PrintTarget(old(State()), target) && p <= old(p) + |target| + 4
    {
      var len := PrintBehind(target, 2);
      FillGap(Low16(len), len);
    }

    method PutSrv(d: RData)
      requires Valid() && d.SrvData? && p + |d.srvTarget| + 10 <= pkt.Length
      modifies this, pkt
      ensures Valid() && State() == PrintSrv(old(State()), d) && p <= old(p) + |d.srvTarget| + 10
    {
      var len := PrintBehind(d.srvTarget, 8);
      FillGap(SrvPad(len, d), len);
    }

    /** The data of a record; false for a type that is not supported. */
    method PrintRRData(r: RR) returns (ok: bool)
      requires Valid() && p + DataRoom(r.rdata) <= pkt.Length
      modifies this, pkt
      ensures Valid() && (ok <==> PrintData(old(State()), r).Some?)
      ensures ok ==> State() == PrintData(old(State()), r).value && p <= old(p) + DataRoom(r.rdata)
    {
      if r.rtype == TYPE_A && r.rdata.AddressData? && |r.rdata.ip| == 4 {
        PutAddress(r.rdata.ip);
        return true;
      } else if IsNameType(r.rtype) && r.rdata.NameData? {
        PutTarget(r.rdata.target);
        return true;
      } else if r.rtype == TYPE_SRV && r.rdata.SrvData? {
        PutSrv(r.rdata);
        return true;
      }
      return false;
    }

    /** `print_rr`. */
    method PrintRecord(r: RR) returns (ok: bool)
      requires Valid() && p + RRRoom(r) <= pkt.Length
      modifies this, pkt
      ensures Valid() && (ok <==> PrintRR(old(State()), r).Some?)
      ensures ok ==> State() == PrintRR(old(State()), r).value && p <= old(p) + RRRoom(r)
    {
      PrintRRHead(r);
      ok := PrintRRData(r);
    }

    /** The loop over the questions. */
    method PrintQuestions(qs: seq<Query>)
      requires Valid() && p + QueriesRoom(qs) <= pkt.Length
      modifies this, pkt
      ensures Valid() && State() == PrintQueries(old(State()), qs) && p <= old(p) + QueriesRoom(qs)
    {
      ghost var o := State();
      var i := 0;
      while i < |qs|
        invariant i <= |qs| && Valid() && State() == PrintQueries(o, qs[..i])
        invariant p <= old(p) + QueriesRoom(qs[..i])
      {
        QueriesRoomNext(qs, i);
        assert qs[..i + 1][..i] == qs[..i];
        PrintQueryRecord(qs[i]);
        i := i + 1;
      }
      assert qs[..i] == qs;
    }

    /** The loop over one of the record sections. */
    method PrintSection(rrs: seq<RR>) returns (ok: bool)
      requires Valid() && p + RRsRoom(rrs) <= pkt.Length
      modifies this, pkt
      ensures Valid() && (ok <==> PrintRRs(old(State()), rrs).Some?)
      ensures ok ==> State() == PrintRRs(old(State()), rrs).value && p <= old(p) + RRsRoom(rrs)
    {
      ghost var o := State();
      var i := 0;
      while i < |rrs|
        invariant i <= |rrs| && Valid() && PrintRRs(o, rrs[..i]) == Some(State())
        invariant p <= old(p) + RRsRoom(rrs[..i])
      {
        RRsRoomNext(rrs, i);
        RRsNext(o, rrs, i);
        ok := PrintRecord(rrs[i]);
        if !ok {
          RRsFail(o, rrs, i + 1);
          return;
        }
        i := i + 1;
      }
      assert rrs[..i] == rrs;
      return true;
    }

    /** `print_packet`; false stands for its return of -1. */
    method PrintPacket(rec: Packet) returns (ok: bool)
      requires p == 0 && tab == [] && PacketRoom(rec) <= pkt.Length
      modifies this, pkt
      ensures Valid() && (ok <==> Print(rec).Some?)
      ensures ok ==> pkt[..p] == Print(rec).value.bytes
    {
      Put(Header(rec));
      assert State() == Out(Header(rec), []);
      PrintQuestions(rec.q);
      ok := PrintSection(rec.ans);
      if ok {
        ok := PrintSection(rec.ns);
        if ok {
          ok := PrintSection(rec.ar);
        }
      }
    }
  }

  lemma QueriesRoomNext(qs: seq<Query>, i: nat)
    requires i < |qs|
    ensures QueriesRoom(qs[..i + 1]) == QueriesRoom(qs[..i]) + QueryRoom(qs[i])
    ensures QueriesRoom(qs[..i + 1]) <= QueriesRoom(qs)
  {
    assert qs[..i + 1][..i] == qs[..i];
    QueriesRoomGrows(qs, i + 1);
  }

  lemma {:induction false} QueriesRoomGrows(qs: seq<Query>, i: nat)
    requires i <= |qs|
    ensures QueriesRoom(qs[..i]) <= QueriesRoom(qs)
    decreases |qs|
  {
    if i < |qs| {
      QueriesRoomGrows(qs[..|qs| - 1], i);
      assert qs[..|qs| - 1][..i] == qs[..i];
    } else {
      assert qs[..i] == qs;
    }
  }

  lemma RRsRoomNext(rrs: seq<RR>, i: nat)
    requires i < |rrs|
    ensures RRsRoom(rrs[..i + 1]) == RRsRoom(rrs[..i]) + RRRoom(rrs[i])
    ensures RRsRoom(rrs[..i + 1]) <= RRsRoom(rrs)
  {
    assert rrs[..i + 1][..i] == rrs[..i];
    RRsRoomGrows(rrs, i + 1);
  }

  lemma {:induction false} RRsRoomGrows(rrs: seq<RR>, i: nat)
    requires i <= |rrs|
    ensures RRsRoom(rrs[..i]) <= RRsRoom(rrs)
    decreases |rrs|
  {
    if i < |rrs| {
      RRsRoomGrows(rrs[..|rrs| - 1], i);
      assert rrs[..|rrs| - 1][..i] == rrs[..i];
    } else {
      assert rrs[..i] == rrs;
    }
  }

  lemma RRsNext(o: Out, rrs: seq<RR>, i: nat)
    requires i < |rrs| && PrintRRs(o, rrs[..i]).Some?
    ensures PrintRRs(o, rrs[..i + 1]) == PrintRR(PrintRRs(o, rrs[..i]).value, rrs[i])
  {
    assert rrs[..i + 1][..i] == rrs[..i];
  }

  lemma {:induction false} RRsFail(o: Out, rrs: seq<RR>, i: nat)
    requires i <= |rrs| && PrintRRs(o, rrs[..i]).None?
    ensures PrintRRs(o, rrs).None?
    decreases |rrs|
  {
    if i < |rrs| {
      assert rrs[..|rrs| - 1][..i] == rrs[..i];
      RRsFail(o, rrs[..|rrs| - 1], i);
    } else {
      assert rrs[..i] == rrs;
    }
  }
}
