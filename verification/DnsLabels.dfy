/**
 * Names as `print_name` writes them, and the names its label table takes them for. The table
 * compares the text of a name with octets already encoded, in which each dot has become a length.
 */
module DnsLabels {
  import opened Bytes
  import opened DnsPackets
  import opened DnsNames

  /** The first dot, or the length. */
  function DotIndex(name: Name): (k: nat)
    ensures k <= |name| && (k < |name| ==> name[k] == DOT) && forall i :: 0 <= i < k ==> name[i] != DOT
  {
    if name == [] || name[0] == DOT then 0 else 1 + DotIndex(name[1..])
  }

  function AfterDot(name: Name): (rest: Name)
    ensures name != [] ==> |rest| < |name|
  {
    var k := DotIndex(name);
    if k < |name| then name[k + 1..] else []
  }

  /** The labels of the name, each behind its length, and the zero octet. */
  function Encode(name: Name): (e: Bytes)
    ensures 1 <= |e| <= |name| + 2
    decreases |name|
  {
    if name == [] then [0]
    else [DotIndex(name) % 256] + name[..DotIndex(name)] + Encode(AfterDot(name))
  }

  // ----- names made of labels -----

  /** A length octet of 192 or more would be read as a pointer. */
  const MAX_LABEL_LEN := 191

  type Labels = seq<Name>

  predicate GoodLabel(l: Name) {
    1 <= |l| <= MAX_LABEL_LEN && forall i :: 0 <= i < |l| ==> l[i] != DOT
  }

  predicate GoodLabels(labels: Labels) {
    forall l :: l in labels ==> GoodLabel(l)
  }

  predicate MadeOf(name: Name, labels: Labels) {
    GoodLabels(labels) && name == Join(labels)
  }

  /** Labels of 1 to 191 octets, joined by single dots; or the root. */
  ghost predicate Printable(name: Name) {
    exists labels :: MadeOf(name, labels)
  }

  function EncodeLabels(labels: Labels): (e: Bytes)
    ensures |e| >= 1
  {
    if labels == [] then [0] else [|labels[0]| % 256] + labels[0] + EncodeLabels(labels[1..])
  }

  lemma {:induction false} DotBehind(l: Name, rest: Name)
    requires forall i :: 0 <= i < |l| ==> l[i] != DOT
    ensures DotIndex(l) == |l| == DotIndex(l + [DOT] + rest)
    decreases |l|
  {
    if l != [] {
      DotBehind(l[1..], rest);
      assert (l + [DOT] + rest)[1..] == l[1..] + [DOT] + rest;
    }
  }

  lemma {:induction false} EncodeIsLabels(labels: Labels)
    requires GoodLabels(labels)
    ensures Encode(Join(labels)) == EncodeLabels(labels)
  {
    if labels != [] {
      var l := labels[0];
      assert GoodLabel(l);
      if |labels| == 1 {
        DotBehind(l, []);
        assert l[..|l|] == l && labels[1..] == [];
      } else {
        var rest := Join(labels[1..]);
        DotBehind(l, rest);
        EncodeIsLabels(labels[1..]);
        assert (l + [DOT] + rest)[..|l|] == l && (l + [DOT] + rest)[|l| + 1..] == rest;
      }
    }
  }

  /** Labels that are short enough and hold no dots, but may be empty: every text is made of some. */
  predicate AnyLabels(labels: Labels) {
    labels != [] && forall l :: l in labels ==> |l| <= MAX_LABEL_LEN && forall i :: 0 <= i < |l| ==> l[i] != DOT
  }

  /** Behind a dot at the end of a text no further label is encoded. */
  function EncodeAny(labels: Labels): (e: Bytes)
    ensures |e| >= 1
  {
    if labels == [] || labels == [[]] then [0] else [|labels[0]| % 256] + labels[0] + EncodeAny(labels[1..])
  }

  lemma {:induction false} EncodeIsAny(labels: Labels)
    requires AnyLabels(labels)
    ensures Encode(Join(labels)) == EncodeAny(labels)
    decreases labels
  {
    var l := labels[0];
    assert l in labels;
    if |labels| == 1 {
      DotBehind(l, []);
      assert l[..|l|] == l && labels[1..] == [];
    } else {
      var rest := Join(labels[1..]);
      DotBehind(l, rest);
      EncodeIsAny(labels[1..]);
      assert (l + [DOT] + rest)[..|l|] == l && (l + [DOT] + rest)[|l| + 1..] == rest;
    }
  }

  // ----- what the table compares with -----

  /** The octet of the encoding for the octet of the text at i: for a dot, the length of the label behind it. */
  function ShiftedAt(name: Name, i: nat): Byte
    requires i < |name|
  {
    if name[i] == DOT then LengthBehind(name, i) else name[i]
  }

  function LengthBehind(name: Name, i: nat): Byte
    requires i < |name|
  {
    DotIndex(name[i + 1..]) % 256
  }

  /** The text of a name with each dot replaced by the length of the label behind it. */
  function Shifted(name: Name): (s: Name)
    ensures |s| == |name|
  {
    ShiftedTo(name, |name|)
  }

  function ShiftedTo(name: Name, n: nat): (s: Name)
    requires n <= |name|
    ensures |s| == n
  {
    if n == 0 then [] else ShiftedTo(name, n - 1) + [ShiftedAt(name, n - 1)]
  }

  lemma {:induction false} ShiftedToIs(name: Name, n: nat, i: nat)
    requires i < n <= |name|
    ensures ShiftedTo(name, n)[i] == ShiftedAt(name, i)
  {
    if i < n - 1 {
      ShiftedToIs(name, n - 1, i);
    }
  }

  lemma ShiftedIs(name: Name, s: Name)
    requires |s| == |name| && forall i :: 0 <= i < |s| ==> s[i] == ShiftedAt(name, i)
    ensures Shifted(name) == s
  {
    forall i | 0 <= i < |s| ensures Shifted(name)[i] == s[i] {
      ShiftedToIs(name, |name|, i);
    }
  }

  lemma PartAt(x: Byte, l: Name, e: Bytes, i: nat)
    requires i < |l| + |e|
    ensures ([x] + l + e)[i + 1] == if i < |l| then l[i] else e[i - |l|]
  {
  }

  lemma {:induction false} EncodeLonger(name: Name)
    ensures |Encode(name)| > |name|
    decreases |name|
  {
    if name != [] {
      EncodeLonger(AfterDot(name));
    }
  }

  /** What lies behind the first length octet. */
  lemma {:induction false} EncodedAt(name: Name, i: nat)
    requires i < |name| < |Encode(name)|
    ensures Encode(name)[i + 1] == ShiftedAt(name, i)
    decreases |name|
  {
    var k, rest := DotIndex(name), AfterDot(name);
    EncodeLonger(rest);
    PartAt(k % 256, name[..k], Encode(rest), i);
    if k < i {
      EncodedAt(rest, i - k - 1);
      SameBehind(name, k, i);
    } else if k == i {
      EncodedFirst(rest);
    }
  }

  lemma EncodedFirst(name: Name)
    ensures Encode(name)[0] == DotIndex(name) % 256
  {
  }

  lemma SameBehind(name: Name, k: nat, i: nat)
    requires k < i < |name|
    ensures ShiftedAt(name[k + 1..], i - k - 1) == ShiftedAt(name, i)
  {
    assert name[k + 1..][i - k - 1 + 1..] == name[i + 1..];
  }

  /**
   * A name is recognised when it comes again exactly if each label behind a dot has a length that
   * is itself a dot, modulo 256: so compression works for names of one label, and hardly ever else.
   */
  lemma ShiftedIsItself(name: Name)
    ensures Shifted(name) == name <==>
            forall i :: 0 <= i < |name| && name[i] == DOT ==> LengthBehind(name, i) == DOT
  {
    if Shifted(name) == name {
      forall i | 0 <= i < |name| && name[i] == DOT ensures LengthBehind(name, i) == DOT {
        ShiftedToIs(name, |name|, i);
      }
    } else if forall i :: 0 <= i < |name| && name[i] == DOT ==> LengthBehind(name, i) == DOT {
      ShiftedIs(name, name);
    }
  }

  // ----- the names in the table -----

  const MAX_LABEL := 32

  /** The first of the printed names that the table takes the name for, or their number. */
  function FirstShifted(names: seq<Name>, name: Name): (i: nat)
    ensures i <= |names| && (i < |names| ==> Shifted(names[i]) == name)
    ensures forall j :: 0 <= j < i ==> Shifted(names[j]) != name
  {
    if names == [] || Shifted(names[0]) == name then 0 else 1 + FirstShifted(names[1..], name)
  }

  /** The name that a reader sees in the place of the name, given those printed in full before. */
  function SeenName(names: seq<Name>, name: Name): Name {
    var i := FirstShifted(names, name);
    if i < |names| then names[i] else name
  }

  /** The names in the table once the name was printed. */
  function NamesAfter(names: seq<Name>, name: Name): seq<Name> {
    if FirstShifted(names, name) < |names| || |names| >= MAX_LABEL then names else names + [name]
  }

  function TableNames(names: seq<Name>, more: seq<Name>): seq<Name> {
    if more == [] then names else NamesAfter(TableNames(names, more[..|more| - 1]), more[|more| - 1])
  }

  /** No name is taken for another one at its turn. */
  predicate Unconfused(names: seq<Name>, more: seq<Name>) {
    more == [] ||
    var before, name := more[..|more| - 1], more[|more| - 1];
    Unconfused(names, before) && SeenName(TableNames(names, before), name) == name
  }

  lemma TableNamesNext(names: seq<Name>, more: seq<Name>, name: Name)
    ensures TableNames(names, more + [name]) == NamesAfter(TableNames(names, more), name)
  {
    assert (more + [name])[..|more|] == more;
  }

  lemma {:induction false} TableNamesConcat(names: seq<Name>, a: seq<Name>, b: seq<Name>)
    ensures TableNames(names, a + b) == TableNames(TableNames(names, a), b)
  {
    if b == [] {
      assert a + b == a;
    } else {
      var k := |b| - 1;
      TableNamesConcat(names, a, b[..k]);
      TableNamesNext(names, a + b[..k], b[k]);
      assert a + b == a + b[..k] + [b[k]];
    }
  }

  lemma UnconfusedNext(names: seq<Name>, more: seq<Name>, name: Name)
    ensures Unconfused(names, more + [name]) <==> Unconfused(names, more) && SeenName(TableNames(names, more), name) == name
  {
    assert (more + [name])[..|more|] == more;
  }

  lemma {:induction false} UnconfusedConcat(names: seq<Name>, a: seq<Name>, b: seq<Name>)
    ensures Unconfused(names, a + b) <==> Unconfused(names, a) && Unconfused(TableNames(names, a), b)
  {
    if b == [] {
      assert a + b == a;
    } else {
      var k := |b| - 1;
      UnconfusedConcat(names, a, b[..k]);
      TableNamesConcat(names, a, b[..k]);
      UnconfusedNext(names, a + b[..k], b[k]);
      assert a + b == a + b[..k] + [b[k]];
    }
  }

  /** The table lists nothing but names that were printed. */
  lemma {:induction false} TableNamesFrom(names: seq<Name>, more: seq<Name>)
    ensures forall a :: a in TableNames(names, more) ==> a in names || a in more
  {
    if more != [] {
      TableNamesFrom(names, more[..|more| - 1]);
    }
  }

  /** Where no name is the shifted form of another, none is taken for another. */
  lemma {:induction false} NoShiftedForms(more: seq<Name>)
    requires forall a, b :: a in more && b in more && Shifted(a) == b ==> a == b
    ensures Unconfused([], more)
  {
    if more != [] {
      var before, name := more[..|more| - 1], more[|more| - 1];
      assert forall a :: a in before ==> a in more;
      NoShiftedForms(before);
      TableNamesFrom([], before);
      var table := TableNames([], before);
      var j := FirstShifted(table, name);
      if j < |table| {
        assert table[j] in before;
        assert name in more;
      }
    }
  }

  /** No octet below 45, and labels of at most 44 octets behind dots. */
  predicate HighOctets(name: Name) {
    forall i :: 0 <= i < |name| ==> HighAt(name, i)
  }

  predicate HighAt(name: Name, i: nat)
    requires i < |name|
  {
    name[i] > 44 && (name[i] == DOT ==> LengthBehind(name, i) <= 44)
  }

  /** Such names are never shifted forms of each other. */
  lemma HighOctetsApart(a: Name, b: Name)
    requires HighOctets(a) && HighOctets(b) && Shifted(a) == b
    ensures a == b
  {
    forall i | 0 <= i < |a| ensures a[i] == b[i] {
      assert HighAt(a, i) && HighAt(b, i);
      ShiftedToIs(a, |a|, i);
    }
  }

  /** "x." and a label of fifty octets is taken for "x2" followed by the same octets: fifty is '2'. */
  lemma HostnamesConfused(l: Name)
    requires |l| == 50 && forall i :: 0 <= i < 50 ==> l[i] != DOT
    ensures Printable([120, DOT] + l) && Printable([120, 50] + l)
    ensures Shifted([120, DOT] + l) == [120, 50] + l != [120, DOT] + l
    ensures SeenName([[120, DOT] + l], [120, 50] + l) == [120, DOT] + l
  {
    assert [120, DOT] + l == [120] + [DOT] + l;
    TwoLabels([120], l);
    OneLabel([120, 50] + l);
    assert [120] + [50] + l == [120, 50] + l;
    assert ([120, DOT] + l)[1] == DOT && ([120, 50] + l)[1] == 50;
  }

  lemma TwoLabels(x: Name, l: Name)
    requires GoodLabel(x) && GoodLabel(l)
    ensures Printable(x + [DOT] + l) && Shifted(x + [DOT] + l) == x + [|l| % 256] + l
  {
    ShiftedTwo(x, l);
    assert [x, l][1..] == [l];
    assert MadeOf(x + [DOT] + l, [x, l]);
  }

  lemma ShiftedTwo(x: Name, l: Name)
    requires GoodLabel(x) && GoodLabel(l)
    ensures Shifted(x + [DOT] + l) == x + [|l| % 256] + l
  {
    var name := x + [DOT] + l;
    DotBehind(l, []);
    assert name[|x| + 1..] == l;
    var s := x + [|l| % 256] + l;
    assert forall i :: 0 <= i < |name| && i != |x| ==> name[i] != DOT && s[i] == name[i];
    ShiftedIs(name, s);
  }

  lemma OneLabel(l: Name)
    requires GoodLabel(l)
    ensures Printable(l)
  {
    assert MadeOf(l, [l]);
  }

  // ----- the packet a reader sees -----

  function SeenQuery(names: seq<Name>, q: Query): Query {
    q.(name := SeenName(names, q.name))
  }

  function SeenData(names: seq<Name>, d: RData): RData {
    match d
    case NameData(target) => d.(target := SeenName(names, target))
    case SrvData(_, _, _, target) => d.(srvTarget := SeenName(names, target))
    case _ => d
  }

  function SeenRR(names: seq<Name>, r: RR): RR {
    r.(name := SeenName(names, r.name), rdata := SeenData(NamesAfter(names, r.name), r.rdata))
  }

  function DataNames(d: RData): seq<Name> {
    match d
    case NameData(target) => [target]
    case SrvData(_, _, _, target) => [target]
    case _ => []
  }

  /** The names of the questions, in the order they are printed. */
  function QuestionNames(qs: seq<Query>): seq<Name> {
    if qs == [] then [] else QuestionNames(qs[..|qs| - 1]) + [qs[|qs| - 1].name]
  }

  function RecordNames(rrs: seq<RR>): seq<Name> {
    if rrs == [] then []
    else RecordNames(rrs[..|rrs| - 1]) + RecordPart(rrs[|rrs| - 1])
  }

  function RecordPart(r: RR): seq<Name> {
    [r.name] + DataNames(r.rdata)
  }

  function SeenQueries(names: seq<Name>, qs: seq<Query>): (s: seq<Query>)
    ensures |s| == |qs|
  {
    if qs == [] then []
    else
      var k := |qs| - 1;
      SeenQueries(names, qs[..k]) + [SeenQuery(TableNames(names, QuestionNames(qs[..k])), qs[k])]
  }

  function SeenRRs(names: seq<Name>, rrs: seq<RR>): (s: seq<RR>)
    ensures |s| == |rrs|
  {
    if rrs == [] then []
    else
      var k := |rrs| - 1;
      SeenRRs(names, rrs[..k]) + [SeenRR(TableNames(names, RecordNames(rrs[..k])), rrs[k])]
  }

  /** Every name that is printed, in order. */
  function PrintedNames(p: Packet): seq<Name> {
    QuestionNames(p.q) + RecordNames(p.ans) + RecordNames(p.ns) + RecordNames(p.ar)
  }

  /** The packet with each name replaced by the one it is taken for. */
  function Seen(p: Packet): Packet {
    var n1 := TableNames([], QuestionNames(p.q));
    var n2 := TableNames(n1, RecordNames(p.ans));
    var n3 := TableNames(n2, RecordNames(p.ns));
    p.(q := SeenQueries([], p.q), ans := SeenRRs(n1, p.ans), ns := SeenRRs(n2, p.ns), ar := SeenRRs(n3, p.ar))
  }

  lemma {:induction false} SeenQueriesExact(names: seq<Name>, qs: seq<Query>)
    ensures SeenQueries(names, qs) == qs <==> Unconfused(names, QuestionNames(qs))
  {
    if qs != [] {
      var k := |qs| - 1;
      var before := TableNames(names, QuestionNames(qs[..k]));
      SeenQueriesExact(names, qs[..k]);
      UnconfusedConcat(names, QuestionNames(qs[..k]), [qs[k].name]);
      UnconfusedOne(before, qs[k].name);
      SnocEqual(SeenQueries(names, qs[..k]), SeenQuery(before, qs[k]), qs);
    }
  }

  lemma SnocEqual<T>(s: seq<T>, x: T, t: seq<T>)
    requires |t| == |s| + 1
    ensures s + [x] == t <==> s == t[..|s|] && x == t[|s|]
  {
    assert t == t[..|s|] + [t[|s|]];
    if s + [x] == t {
      assert s == (s + [x])[..|s|];
    }
  }

  lemma UnconfusedOne(names: seq<Name>, name: Name)
    ensures Unconfused(names, [name]) <==> SeenName(names, name) == name
    ensures TableNames(names, [name]) == NamesAfter(names, name)
  {
    assert [name][..0] == [];
  }

  lemma SeenRRExact(names: seq<Name>, r: RR)
    ensures SeenRR(names, r) == r <==> Unconfused(names, RecordPart(r))
  {
    var after := NamesAfter(names, r.name);
    UnconfusedConcat(names, [r.name], DataNames(r.rdata));
    UnconfusedOne(names, r.name);
    match r.rdata
    case NameData(target) => UnconfusedOne(after, target);
    case SrvData(_, _, _, target) => UnconfusedOne(after, target);
    case _ => assert Unconfused(after, []);
  }

  lemma {:induction false} SeenRRsExact(names: seq<Name>, rrs: seq<RR>)
    ensures SeenRRs(names, rrs) == rrs <==> Unconfused(names, RecordNames(rrs))
  {
    if rrs != [] {
      SeenRRsExact(names, rrs[..|rrs| - 1]);
      SeenLastExact(names, rrs, |rrs| - 1);
    }
  }

  lemma SeenLastExact(names: seq<Name>, rrs: seq<RR>, k: nat)
    requires |rrs| == k + 1
    ensures SeenRRs(names, rrs) == rrs <==>
            SeenRRs(names, rrs[..k]) == rrs[..k] && Unconfused(TableNames(names, RecordNames(rrs[..k])), RecordPart(rrs[k]))
    ensures Unconfused(names, RecordNames(rrs)) <==>
            Unconfused(names, RecordNames(rrs[..k])) && Unconfused(TableNames(names, RecordNames(rrs[..k])), RecordPart(rrs[k]))
  {
    var before := TableNames(names, RecordNames(rrs[..k]));
    UnconfusedConcat(names, RecordNames(rrs[..k]), RecordPart(rrs[k]));
    SeenRRExact(before, rrs[k]);
    SnocEqual(SeenRRs(names, rrs[..k]), SeenRR(before, rrs[k]), rrs);
  }

  /** The reader sees the packet itself exactly when none of its names is taken for another. */
  lemma SeenExact(p: Packet)
    ensures Seen(p) == p <==> Unconfused([], PrintedNames(p))
  {
    var q, ans, ns, ar := QuestionNames(p.q), RecordNames(p.ans), RecordNames(p.ns), RecordNames(p.ar);
    UnconfusedConcat([], q + ans + ns, ar);
    UnconfusedConcat([], q + ans, ns);
    UnconfusedConcat([], q, ans);
    TableNamesConcat([], q + ans, ns);
    TableNamesConcat([], q, ans);
    var n1 := TableNames([], q);
    var n2 := TableNames(n1, ans);
    var n3 := TableNames(n2, ns);
    SeenQueriesExact([], p.q);
    SeenRRsExact(n1, p.ans);
    SeenRRsExact(n2, p.ns);
    SeenRRsExact(n3, p.ar);
  }
}
