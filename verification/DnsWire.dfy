/**
 * The octets of a printed packet, one by one, as section 4.1 of RFC 1035 and RFC 2782 ("The format of
 * the SRV RR") lay them out.
 */
module DnsWire {
  import opened Bytes
  import opened DnsPackets
  import opened DnsNames
  import opened DnsParser
  import opened DnsLabels
  import opened DnsPrinter

  predicate Is16(v: nat) {
    v < 0x1_0000
  }

  lemma Low16Octets(v: nat)
    requires Is16(v)
    ensures Low16(v) == [v / 256, v % 256]
  {
  }

  lemma Be32Octets(v: nat)
    requires v < 0x1_0000_0000
    ensures Be32(v) == [v / 0x100_0000, v / 0x1_0000 % 256, v / 256 % 256, v % 256]
  {
    var hi, lo := v / 0x1_0000, v % 0x1_0000;
    assert v == 0x1_0000 * hi + lo;
    assert hi / 256 == v / 0x100_0000;
    assert v / 256 == 256 * hi + lo / 256;
  }

  /** Identification, flags and the four counts. */
  lemma HeaderOctets(p: Packet)
    requires Is16(p.id) && Is16(p.flags) && Is16(|p.q|) && Is16(|p.ans|) && Is16(|p.ns|) && Is16(|p.ar|)
    ensures Header(p) == [p.id / 256, p.id % 256, p.flags / 256, p.flags % 256, |p.q| / 256, |p.q| % 256,
                          |p.ans| / 256, |p.ans| % 256, |p.ns| / 256, |p.ns| % 256, |p.ar| / 256, |p.ar| % 256]
  {
    Low16Octets(p.id);
    Low16Octets(p.flags);
    Low16Octets(|p.q|);
    Low16Octets(|p.ans|);
    Low16Octets(|p.ns|);
    Low16Octets(|p.ar|);
  }

  /** A pointer: two ones, and fourteen bits of the offset. */
  lemma PointerOctetsAre(pos: nat)
    requires pos < 0x4000
    ensures Pointer(pos) == [0xC0 + pos / 256, pos % 256]
  {
    assert 0xC000 + pos == 256 * (0xC0 + pos / 256) + pos % 256;
  }

  /** A question: its name, type and class. */
  lemma QuestionOctets(o: Out, q: Query)
    requires Is16(q.qtype) && Is16(q.qclass)
    ensures PrintQuery(o, q).bytes
         == o.bytes + NameBytes(o.bytes, o.tab, q.name) + [q.qtype / 256, q.qtype % 256, q.qclass / 256, q.qclass % 256]
  {
    Low16Octets(q.qtype);
    Low16Octets(q.qclass);
  }

  /** The owner of a record, its type, class and TTL. */
  lemma HeadOctets(o: Out, r: RR)
    requires Is16(r.rtype) && Is16(r.rclass) && r.ttl < 0x1_0000_0000
    ensures PrintHead(o, r).bytes
         == o.bytes + NameBytes(o.bytes, o.tab, r.name)
            + [r.rtype / 256, r.rtype % 256, r.rclass / 256, r.rclass % 256,
               r.ttl / 0x100_0000, r.ttl / 0x1_0000 % 256, r.ttl / 256 % 256, r.ttl % 256]
  {
    Low16Octets(r.rtype);
    Low16Octets(r.rclass);
    Be32Octets(r.ttl);
  }

  /**
   * The data of a record behind its length, for the types A (1), NS (2), CNAME (5), PTR (12) and SRV (33),
   * the last with priority, weight and port in front of its target; and no other.
   */
  lemma DataOctets(o: Out, r: RR)
    ensures PrintData(o, r).Some? <==>
              || (r.rtype == 1 && r.rdata.AddressData? && |r.rdata.ip| == 4)
              || (r.rtype in {2, 5, 12} && r.rdata.NameData?)
              || (r.rtype == 33 && r.rdata.SrvData?)
    ensures PrintData(o, r).Some? && r.rtype == 1 ==> PrintData(o, r).value.bytes == o.bytes + [0, 4] + r.rdata.ip
    ensures PrintData(o, r).Some? && r.rtype in {2, 5, 12} ==>
              var name := NameBytes(o.bytes, o.tab, r.rdata.target);
              Is16(|name|) ==> PrintData(o, r).value.bytes == o.bytes + [|name| / 256, |name| % 256] + name
  {
    if r.rdata.NameData? && Is16(|NameBytes(o.bytes, o.tab, r.rdata.target)|) {
      Low16Octets(|NameBytes(o.bytes, o.tab, r.rdata.target)|);
    }
  }

  lemma SrvOctets(o: Out, r: RR)
    requires r.rtype == 33 && r.rdata.SrvData?
    requires Is16(r.rdata.prio) && Is16(r.rdata.weight) && Is16(r.rdata.port)
    requires |NameBytes(o.bytes, o.tab, r.rdata.srvTarget)| + 6 < 0x1_0000
    ensures PrintData(o, r).Some?
    ensures var d, name := r.rdata, NameBytes(o.bytes, o.tab, r.rdata.srvTarget);
            var len := |name| + 6;
            PrintData(o, r).value.bytes
            == o.bytes + [len / 256, len % 256, d.prio / 256, d.prio % 256, d.weight / 256, d.weight % 256,
                          d.port / 256, d.port % 256] + name
  {
    Low16Octets(|NameBytes(o.bytes, o.tab, r.rdata.srvTarget)| + 6);
    Low16Octets(r.rdata.prio);
    Low16Octets(r.rdata.weight);
    Low16Octets(r.rdata.port);
  }

  /** A name in full: each label behind its length, and a zero octet. */
  lemma NameOctets(o: Out, labels: Labels)
    requires GoodLabels(labels) && Find(o.bytes, o.tab, Join(labels)) == |o.tab|
    ensures NameBytes(o.bytes, o.tab, Join(labels)) == LabelOctets(labels)
  {
    EncodeIsLabels(labels);
    LabelOctetsAre(labels);
  }

  function LabelOctets(labels: Labels): Bytes
    requires GoodLabels(labels)
  {
    if labels == [] then [0]
    else
      assert GoodLabel(labels[0]);
      [|labels[0]| as Byte] + labels[0] + LabelOctets(labels[1..])
  }

  lemma {:induction false} LabelOctetsAre(labels: Labels)
    requires GoodLabels(labels)
    ensures EncodeLabels(labels) == LabelOctets(labels)
  {
    if labels != [] {
      assert GoodLabel(labels[0]);
      LabelOctetsAre(labels[1..]);
    }
  }
}
