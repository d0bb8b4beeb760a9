/** The parsed form of a DNS packet (`pj_dns_parsed_packet`) and its duplication. */
module DnsPackets {
  import opened Bytes

  type Name = Bytes

  datatype Query = Query(name: Name, qtype: nat, qclass: nat)

  /** The `rdata` union together with the raw `data` pointer. */
  datatype RData =
    | AddressData(ip: Bytes)
    | NameData(target: Name)
    | SrvData(prio: nat, weight: nat, port: nat, srvTarget: Name)
    | RawData(data: Bytes)

  datatype RR = RR(name: Name, rtype: nat, rclass: nat, ttl: nat, rdata: RData)

  /** The section counts of the header are the lengths of the sections. */
  datatype Packet = Packet(id: nat, flags: nat, q: seq<Query>, ans: seq<RR>, ns: seq<RR>, ar: seq<RR>)

  function Rcode(p: Packet): nat {
    p.flags % 16
  }

  /** What the cache asks `pj_dns_packet_dup` to keep: no NS and no additional records. */
  function Sections(p: Packet): Packet {
    p.(ns := [], ar := [])
  }

  // ----- pj_dns_packet_dup and its table of names -----

  const MAX_NAMES := 16

  /** `apply_name_table`: the first entry equal up to case replaces the name. */
  function LookupName(table: seq<Name>, src: Name): Name {
    if table == [] then src
    else if SameIgnoringCase(table[0], src) then table[0]
    else LookupName(table[1..], src)
  }

  predicate Listed(table: seq<Name>, src: Name) {
    exists a :: a in table && SameIgnoringCase(a, src)
  }

  /** The table after the name was handled: a new name is kept while there is room. */
  function Extend(table: seq<Name>, src: Name): seq<Name> {
    if !Listed(table, src) && |table| < MAX_NAMES then table + [src] else table
  }

  function DupQuery(q: Query, table: seq<Name>): (Query, seq<Name>) {
    (q.(name := LookupName(table, q.name)), Extend(table, q.name))
  }

  /** Only the owner and an SRV target go through the table; other targets are copied. */
  function DupRR(r: RR, table: seq<Name>): (RR, seq<Name>) {
    var t1 := Extend(table, r.name);
    var r1 := r.(name := LookupName(table, r.name));
    match r.rdata
    case SrvData(_, _, _, target) =>
      (r1.(rdata := r.rdata.(srvTarget := LookupName(t1, target))), Extend(t1, target))
    case _ => (r1, t1)
  }

  function DupQueries(qs: seq<Query>, table: seq<Name>): (seq<Query>, seq<Name>) {
    if qs == [] then ([], table)
    else
      var (q, t1) := DupQuery(qs[0], table);
      var (rest, t2) := DupQueries(qs[1..], t1);
      ([q] + rest, t2)
  }

  function DupRRs(rs: seq<RR>, table: seq<Name>): (seq<RR>, seq<Name>) {
    if rs == [] then ([], table)
    else
      var (r, t1) := DupRR(rs[0], table);
      var (rest, t2) := DupRRs(rs[1..], t1);
      ([r] + rest, t2)
  }

  /** `pj_dns_packet_dup(pkt, PJ_DNS_NO_NS | PJ_DNS_NO_AR)`. */
  function Dup(p: Packet): Packet {
    var (q, t1) := DupQueries(p.q, []);
    var (ans, _) := DupRRs(p.ans, t1);
    Packet(p.id, p.flags, q, ans, [], [])
  }

  // ----- what the duplicate means -----

  predicate SameQuery(a: Query, b: Query) {
    SameIgnoringCase(a.name, b.name) && a == b.(name := a.name)
  }

  predicate SameRR(a: RR, b: RR) {
    && SameIgnoringCase(a.name, b.name)
    && match b.rdata
       case SrvData(_, _, _, target) =>
         a.rdata.SrvData? && SameIgnoringCase(a.rdata.srvTarget, target) &&
         a == b.(name := a.name, rdata := b.rdata.(srvTarget := a.rdata.srvTarget))
       case _ => a == b.(name := a.name)
  }

  /** Equal in everything but the letter case of names that went through the table. */
  predicate SamePacket(a: Packet, b: Packet) {
    && a.id == b.id && a.flags == b.flags
    && |a.q| == |b.q| && |a.ans| == |b.ans|
    && (forall i :: 0 <= i < |a.q| ==> SameQuery(a.q[i], b.q[i]))
    && (forall i :: 0 <= i < |a.ans| ==> SameRR(a.ans[i], b.ans[i]))
    && a.ns == b.ns && a.ar == b.ar
  }

  lemma {:induction false} LookupNameKeeps(table: seq<Name>, src: Name)
    ensures SameIgnoringCase(LookupName(table, src), src)
  {
    if table != [] && !SameIgnoringCase(table[0], src) {
      LookupNameKeeps(table[1..], src);
    }
  }

  lemma {:induction false} DupQueriesSame(qs: seq<Query>, table: seq<Name>)
    ensures |DupQueries(qs, table).0| == |qs|
    ensures forall i :: 0 <= i < |qs| ==> SameQuery(DupQueries(qs, table).0[i], qs[i])
  {
    if qs != [] {
      LookupNameKeeps(table, qs[0].name);
      DupQueriesSame(qs[1..], Extend(table, qs[0].name));
    }
  }

  lemma {:induction false} DupRRsSame(rs: seq<RR>, table: seq<Name>)
    ensures |DupRRs(rs, table).0| == |rs|
    ensures forall i :: 0 <= i < |rs| ==> SameRR(DupRRs(rs, table).0[i], rs[i])
  {
    if rs != [] {
      LookupNameKeeps(table, rs[0].name);
      if rs[0].rdata.SrvData? {
        LookupNameKeeps(Extend(table, rs[0].name), rs[0].rdata.srvTarget);
      }
      DupRRsSame(rs[1..], DupRR(rs[0], table).1);
    }
  }

  /** The duplicate keeps the query and answer sections, up to the case of names. */
  lemma DupSame(p: Packet)
    ensures SamePacket(Dup(p), Sections(p))
    ensures Rcode(Dup(p)) == Rcode(p)
  {
    DupQueriesSame(p.q, []);
    DupRRsSame(p.ans, DupQueries(p.q, []).1);
  }

  // ----- exactly when the duplicate is the same to the letter -----

  /** The names that go through the table, in the order the copy meets them. */
  function QueryNames(qs: seq<Query>): seq<Name> {
    if qs == [] then [] else [qs[0].name] + QueryNames(qs[1..])
  }

  function RRNames(r: RR): seq<Name> {
    [r.name] + if r.rdata.SrvData? then [r.rdata.srvTarget] else []
  }

  function AnswerNames(rs: seq<RR>): seq<Name> {
    if rs == [] then [] else RRNames(rs[0]) + AnswerNames(rs[1..])
  }

  function Names(p: Packet): seq<Name> {
    QueryNames(p.q) + AnswerNames(p.ans)
  }

  /** The table after the names were handled: the first sixteen that differ in more than case. */
  function TableOf(table: seq<Name>, names: seq<Name>): seq<Name>
    decreases names
  {
    if names == [] then table else TableOf(Extend(table, names[0]), names[1..])
  }

  /** Every name came out of the table as it went in. */
  predicate Kept(table: seq<Name>, names: seq<Name>)
    decreases names
  {
    names == [] || (LookupName(table, names[0]) == names[0] && Kept(Extend(table, names[0]), names[1..]))
  }

  /** No two of the names are spelled differently only in letter case. */
  predicate OneSpelling(names: seq<Name>) {
    forall a, b :: a in names && b in names && SameIgnoringCase(a, b) ==> a == b
  }

  /** Every listed spelling that one of the names meets is that name's own. */
  predicate Spelled(table: seq<Name>, names: seq<Name>) {
    forall a, b :: a in table && b in names && SameIgnoringCase(a, b) ==> a == b
  }

  lemma {:induction false} TableOfConcat(table: seq<Name>, a: seq<Name>, b: seq<Name>)
    ensures TableOf(table, a + b) == TableOf(TableOf(table, a), b)
    ensures Kept(table, a + b) <==> Kept(table, a) && Kept(TableOf(table, a), b)
    decreases a
  {
    if a == [] {
      assert a + b == b;
    } else {
      assert (a + b)[0] == a[0] && (a + b)[1..] == a[1..] + b;
      TableOfConcat(Extend(table, a[0]), a[1..], b);
    }
  }

  lemma {:induction false} DupQueriesKept(qs: seq<Query>, table: seq<Name>)
    ensures DupQueries(qs, table).1 == TableOf(table, QueryNames(qs))
    ensures DupQueries(qs, table).0 == qs <==> Kept(table, QueryNames(qs))
  {
    if qs != [] {
      var t1 := Extend(table, qs[0].name);
      DupQueriesKept(qs[1..], t1);
      TableOfConcat(table, [qs[0].name], QueryNames(qs[1..]));
      var d := DupQueries(qs, table).0;
      assert d[0] == DupQuery(qs[0], table).0 && d[1..] == DupQueries(qs[1..], t1).0;
      assert qs == [qs[0]] + qs[1..];
    }
  }

  lemma DupRRKept(r: RR, table: seq<Name>)
    ensures DupRR(r, table).1 == TableOf(table, RRNames(r))
    ensures DupRR(r, table).0 == r <==> Kept(table, RRNames(r))
  {
    TableOfConcat(table, [r.name], RRNames(r)[1..]);
  }

  lemma {:induction false} DupRRsKept(rs: seq<RR>, table: seq<Name>)
    ensures DupRRs(rs, table).0 == rs <==> Kept(table, AnswerNames(rs))
  {
    if rs != [] {
      var (r, t1) := DupRR(rs[0], table);
      DupRRKept(rs[0], table);
      DupRRsKept(rs[1..], t1);
      TableOfConcat(table, RRNames(rs[0]), AnswerNames(rs[1..]));
      var d := DupRRs(rs, table).0;
      assert d[0] == r && d[1..] == DupRRs(rs[1..], t1).0;
      assert rs == [rs[0]] + rs[1..];
    }
  }

  lemma {:induction false} LookupNameExact(table: seq<Name>, src: Name)
    requires OneSpelling(table)
    ensures LookupName(table, src) == src <==> Spelled(table, [src])
  {
    if table != [] {
      assert table[0] in table && src in [src];
      if !SameIgnoringCase(table[0], src) {
        LookupNameExact(table[1..], src);
        assert forall a :: a in table <==> a == table[0] || a in table[1..];
      }
    }
  }

  /** The table only grows, and only by names it does not list. */
  lemma {:induction false} TableGrows(table: seq<Name>, names: seq<Name>, a: Name)
    ensures a in table ==> a in TableOf(table, names)
    ensures a in TableOf(table, names) ==> a in table || (a in names && !Listed(table, a) && |table| < MAX_NAMES)
    decreases names
  {
    if names != [] {
      TableGrows(Extend(table, names[0]), names[1..], a);
    }
  }

  /** What a name meets in the table at its turn is what it would meet at the end. */
  lemma SpelledAtLast(table: seq<Name>, src: Name, rest: seq<Name>)
    ensures Spelled(TableOf(Extend(table, src), rest), [src]) <==> Spelled(table, [src])
  {
    var last := TableOf(Extend(table, src), rest);
    assert src in [src];
    forall a | a in table ensures a in last {
      TableGrows(Extend(table, src), rest, a);
    }
    forall a | a in last && SameIgnoringCase(a, src) && a !in table ensures a == src {
      TableGrows(Extend(table, src), rest, a);
      if a !in Extend(table, src) {
        NotListedTwice(table, src, a);
      }
    }
  }

  lemma NotListedTwice(table: seq<Name>, src: Name, a: Name)
    requires SameIgnoringCase(a, src) && |Extend(table, src)| < MAX_NAMES
    ensures Listed(Extend(table, src), a)
  {
    if Listed(table, src) {
      var b :| b in table && SameIgnoringCase(b, src);
      assert b in Extend(table, src) && SameIgnoringCase(b, a);
    } else {
      assert src in Extend(table, src);
    }
  }

  lemma {:induction false} KeptExact(table: seq<Name>, names: seq<Name>)
    requires OneSpelling(table)
    ensures Kept(table, names) <==> Spelled(TableOf(table, names), names)
    decreases names
  {
    if names != [] {
      var src, rest := names[0], names[1..];
      LookupNameExact(table, src);
      SpelledAtLast(table, src, rest);
      KeptExact(Extend(table, src), rest);
      assert src in [src];
      assert forall b :: b in names <==> b in [src] || b in rest;
    }
  }

  /**
   * The duplicate is the packet's own query and answer sections if and only if no name of theirs
   * differs only in letter case from one of the first sixteen names that differ otherwise.
   */
  lemma DupExact(p: Packet)
    ensures Dup(p) == Sections(p) <==> Spelled(TableOf([], Names(p)), Names(p))
  {
    DupQueriesKept(p.q, []);
    DupRRsKept(p.ans, DupQueries(p.q, []).1);
    TableOfConcat([], QueryNames(p.q), AnswerNames(p.ans));
    KeptExact([], Names(p));
  }

  /** With room in the table every name is listed in it. */
  lemma {:induction false} AllListed(table: seq<Name>, names: seq<Name>, a: Name)
    requires |table| + |names| <= MAX_NAMES && (a in names || Listed(table, a))
    ensures Listed(TableOf(table, names), a)
    decreases names
  {
    if names != [] {
      var src := names[0];
      if a == src {
        assert !Listed(table, src) ==> src in Extend(table, src);
      }
      assert forall b :: b in table ==> b in Extend(table, src);
      AllListed(Extend(table, src), names[1..], a);
    }
  }

  /** With at most sixteen names in all, no two of them may differ only in letter case. */
  lemma DupExactShort(p: Packet)
    requires |Names(p)| <= MAX_NAMES
    ensures Dup(p) == Sections(p) <==> OneSpelling(Names(p))
  {
    var names, table := Names(p), TableOf([], Names(p));
    DupExact(p);
    forall a | a in table ensures a in names {
      TableGrows([], names, a);
    }
    if Spelled(table, names) {
      forall a, b | a in names && b in names && SameIgnoringCase(a, b) ensures a == b {
        AllListed([], names, a);
        var c :| c in table && SameIgnoringCase(c, a);
        assert SameIgnoringCase(c, b);
      }
    }
  }

  /** Asked for "A.x", a server may answer for "a.x": the cached answer is then for "A.x" as well. */
  lemma DupChangesCase(question: Query, answer: RR)
    requires question.name == [65, 46, 120] && answer.name == [97, 46, 120]
    ensures var p := Packet(1, 0x8000, [question], [answer], [], []);
            Dup(p).ans[0].name == question.name != answer.name && Dup(p) != Sections(p)
  {
    var table := [question.name];
    assert [question][1..] == [] && [answer][1..] == [];
    assert Lower(question.name) == Lower(answer.name);
    assert Extend([], question.name) == table;
    assert DupQueries([], table) == ([], table) && [question] + [] == [question];
    assert DupQueries([question], []) == ([question], table);
    assert LookupName(table, answer.name) == question.name;
  }
}
