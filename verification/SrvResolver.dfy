/** The order in which the targets of an SRV answer are tried (RFC 2782, "The format of the SRV RR"). */
module SrvResolver {
  import opened Bytes
  import opened DnsPackets

  const MAX_ADDR := 8
  const MAX_HOSTNAME := 128

  /** struct srv_target, as far as the ordering goes; its running sum is kept beside it. */
  datatype Target = Target(name: Name, port: nat, priority: nat, weight: nat)

  type Targets = seq<Target>

  // ----- accepting records -----

  predicate Acceptable(rr: RR) {
    rr.rdata.SrvData? && |rr.rdata.srvTarget| <= MAX_HOSTNAME
  }

  function TargetOf(rr: RR): Target
    requires Acceptable(rr)
  {
    Target(rr.rdata.srvTarget, rr.rdata.port, rr.rdata.prio, rr.rdata.weight)
  }

  /** The acceptable records among the first n, up to the eighth. */
  function Accepted(ans: seq<RR>, n: nat): (r: Targets)
    requires n <= |ans|
    ensures |r| <= MAX_ADDR
  {
    if n == 0 then []
    else
      var before := Accepted(ans, n - 1);
      if |before| < MAX_ADDR && Acceptable(ans[n - 1]) then before + [TargetOf(ans[n - 1])] else before
  }

  // ----- by priority -----

  function Swap(s: Targets, i: nat, j: nat): (r: Targets)
    requires i < |s| && j < |s|
    ensures |r| == |s| && r[i] == s[j] && r[j] == s[i]
  {
    s[i := s[j]][j := s[i]]
  }

  lemma SwapKeeps(s: Targets, i: nat, j: nat)
    requires i < |s| && j < |s|
    ensures multiset(Swap(s, i, j)) == multiset(s)
  {
  }

  /** The first of least priority among s[i..n]. */
  function MinIndex(s: Targets, i: nat, n: nat): (m: nat)
    requires i < n <= |s|
    ensures i <= m < n
  {
    if n == i + 1 then i
    else
      var m := MinIndex(s, i, n - 1);
      if s[n - 1].priority < s[m].priority then n - 1 else m
  }

  lemma {:induction false} MinIsLeast(s: Targets, i: nat, n: nat)
    requires i < n <= |s|
    ensures forall k :: i <= k < n ==> s[MinIndex(s, i, n)].priority <= s[k].priority
  {
    if n > i + 1 {
      MinIsLeast(s, i, n - 1);
    }
  }

  /** The first pass from position i on. */
  function Sort(s: Targets, i: nat): (r: Targets)
    ensures |r| == |s|
    decreases |s| - i
  {
    if i + 1 >= |s| then s else Sort(Swap(s, i, MinIndex(s, i, |s|)), i + 1)
  }

  predicate SortedTo(s: Targets, n: nat) {
    forall a, b :: 0 <= a < b < |s| && a < n ==> s[a].priority <= s[b].priority
  }

  predicate Sorted(s: Targets) {
    SortedTo(s, |s|)
  }

  lemma {:induction false} SortSorts(s: Targets, i: nat)
    requires SortedTo(s, i)
    ensures Sorted(Sort(s, i)) && multiset(Sort(s, i)) == multiset(s)
    decreases |s| - i
  {
    if i + 1 < |s| {
      MinIsLeast(s, i, |s|);
      SortStep(s, i, MinIndex(s, i, |s|));
      SwapKeeps(s, i, MinIndex(s, i, |s|));
      SortSorts(Swap(s, i, MinIndex(s, i, |s|)), i + 1);
    }
  }

  lemma SortStep(s: Targets, i: nat, m: nat)
    requires SortedTo(s, i) && i <= m < |s| && forall k :: i <= k < |s| ==> s[m].priority <= s[k].priority
    ensures SortedTo(Swap(s, i, m), i + 1)
  {
  }

  // ----- the weighted election -----

  /** The end of the group of equal priority that begins at i. */
  function GroupEnd(s: Targets, i: nat, j: nat): (e: nat)
    requires i < j <= |s|
    ensures j <= e <= |s|
    decreases |s| - j
  {
    if j < |s| && s[j].priority == s[i].priority then GroupEnd(s, i, j + 1) else j
  }

  lemma {:induction false} GroupEndIs(s: Targets, i: nat, j: nat)
    requires i < j <= |s|
    ensures forall k :: j <= k < GroupEnd(s, i, j) ==> s[k].priority == s[i].priority
    ensures GroupEnd(s, i, j) < |s| ==> s[GroupEnd(s, i, j)].priority != s[i].priority
    decreases |s| - j
  {
    if j < |s| && s[j].priority == s[i].priority {
      GroupEndIs(s, i, j + 1);
    }
  }

  /** The running sum of the weights of s[i..j]. */
  function Sum(s: Targets, i: nat, j: nat): nat
    requires i <= j <= |s|
  {
    if j == i then 0 else Sum(s, i, j - 1) + s[j - 1].weight
  }

  lemma {:induction false} SumGrows(s: Targets, i: nat, j: nat, k: nat)
    requires i <= j <= k <= |s|
    ensures Sum(s, i, j) <= Sum(s, i, k)
    decreases k
  {
    if j < k {
      SumGrows(s, i, j, k - 1);
    }
  }

  /** The first candidate from j on whose running sum reaches the draw, or the end of the group. */
  function Elected(s: Targets, i: nat, j: nat, e: nat, r: nat): (k: nat)
    requires i <= j <= e <= |s|
    ensures j <= k <= e
    decreases e - j
  {
    if j == e || Sum(s, i, j + 1) >= r then j else Elected(s, i, j + 1, e, r)
  }

  /** A draw elects k exactly when it lies above the running sum before k and not above the one at k. */
  lemma {:induction false} ElectedIff(s: Targets, i: nat, j: nat, e: nat, r: nat, k: nat)
    requires i <= j <= e <= |s| && j <= k < e
    ensures Elected(s, i, j, e, r) == k <==> r <= Sum(s, i, k + 1) && (k == j || Sum(s, i, k) < r)
    decreases e - j
  {
    if Sum(s, i, j + 1) >= r {
      if k > j {
        SumGrows(s, i, j + 1, k);
      }
    } else if k > j {
      ElectedIff(s, i, j + 1, e, r, k);
    }
  }

  /** The election always finds a candidate. */
  lemma {:induction false} SomeoneElected(s: Targets, i: nat, j: nat, e: nat, r: nat)
    requires i <= j < e <= |s| && r <= Sum(s, i, e)
    ensures Elected(s, i, j, e, r) < e
    decreases e - j
  {
    if Sum(s, i, j + 1) < r {
      if j + 1 == e {
        assert false;
      }
      SomeoneElected(s, i, j + 1, e, r);
    }
  }

  function Range(lo: nat, n: nat): (s: set<nat>)
    ensures forall r :: r in s <==> lo <= r < lo + n
  {
    if n == 0 then {} else Range(lo, n - 1) + {lo + n - 1}
  }

  lemma {:induction false} RangeSize(lo: nat, n: nat)
    ensures |Range(lo, n)| == n
  {
    if n > 0 {
      RangeSize(lo, n - 1);
      assert lo + n - 1 !in Range(lo, n - 1);
    }
  }

  /** The draws, out of zero to the total weight inclusive, that elect candidate k of the group i..e. */
  function Draws(s: Targets, i: nat, e: nat, k: nat): set<nat>
    requires i <= k < e <= |s|
  {
    set r | r in Range(0, Sum(s, i, e) + 1) && Elected(s, i, i, e, r) == k
  }

  /** Each candidate is elected by as many draws as its weight says, and the first by one more. */
  lemma DrawsPerWeight(s: Targets, i: nat, e: nat, k: nat)
    requires i <= k < e <= |s|
    ensures |Draws(s, i, e, k)| == s[k].weight + if k == i then 1 else 0
  {
    var lo := if k == i then 0 else Sum(s, i, k) + 1;
    var n := s[k].weight + if k == i then 1 else 0;
    SumGrows(s, i, k + 1, e);
    forall r: nat ensures r in Draws(s, i, e, k) <==> r in Range(lo, n) {
      ElectedIff(s, i, i, e, r, k);
    }
    assert Draws(s, i, e, k) == Range(lo, n);
    RangeSize(lo, n);
  }

  /** The second pass at position i: the elected target of the group comes to the front of it. */
  function Elect(s: Targets, i: nat, draw: nat): (r: Targets)
    requires i < |s|
    ensures |r| == |s|
  {
    var e := GroupEnd(s, i, i + 1);
    if e == i + 1 then s
    else
      var k := Elected(s, i, i, e, draw % (Sum(s, i, e) + 1));
      if k < |s| then Swap(s, i, k) else s
  }

  /** The second pass up to position n, one draw per position. */
  function ElectAll(s: Targets, n: nat, draws: seq<nat>): (r: Targets)
    requires n <= |s| && n <= |draws|
    ensures |r| == |s|
  {
    if n == 0 then s else Elect(ElectAll(s, n - 1, draws), n - 1, draws[n - 1])
  }

  lemma SwapInGroup(s: Targets, i: nat, k: nat, e: nat)
    requires i <= k < e <= |s| && Sorted(s) && forall j :: i <= j < e ==> s[j].priority == s[i].priority
    ensures Sorted(Swap(s, i, k))
  {
  }

  /** The winner of position i: alone in its group, or elected by the draw. */
  predicate Wins(s: Targets, i: nat, draw: nat, k: nat)
    requires i < |s|
  {
    var e := GroupEnd(s, i, i + 1);
    i <= k < e && (e > i + 1 ==> k == Elected(s, i, i, e, draw % (Sum(s, i, e) + 1)))
  }

  lemma ElectIsSwap(s: Targets, i: nat, draw: nat) returns (k: nat)
    requires i < |s|
    ensures k < |s| && Wins(s, i, draw, k) && Elect(s, i, draw) == Swap(s, i, k)
  {
    var e := GroupEnd(s, i, i + 1);
    if e == i + 1 {
      k := i;
    } else {
      SomeoneElected(s, i, i, e, draw % (Sum(s, i, e) + 1));
      k := Elected(s, i, i, e, draw % (Sum(s, i, e) + 1));
    }
  }

  lemma ElectKeeps(s: Targets, i: nat, draw: nat)
    requires i < |s| && Sorted(s)
    ensures Sorted(Elect(s, i, draw)) && multiset(Elect(s, i, draw)) == multiset(s)
  {
    GroupEndIs(s, i, i + 1);
    var k := ElectIsSwap(s, i, draw);
    SwapInGroup(s, i, k, GroupEnd(s, i, i + 1));
    SwapKeeps(s, i, k);
  }

  lemma ElectPrefix(s: Targets, i: nat, draw: nat, m: nat)
    requires m <= i < |s|
    ensures Elect(s, i, draw)[..m] == s[..m]
  {
    var k := ElectIsSwap(s, i, draw);
  }

  lemma {:induction false} ElectAllKeeps(s: Targets, n: nat, draws: seq<nat>)
    requires n <= |s| && n <= |draws| && Sorted(s)
    ensures var t := ElectAll(s, n, draws); Sorted(t) && multiset(t) == multiset(s)
  {
    if n > 0 {
      ElectAllKeeps(s, n - 1, draws);
      ElectKeeps(ElectAll(s, n - 1, draws), n - 1, draws[n - 1]);
    }
  }

  /** Once a position has been filled, later elections leave it alone. */
  lemma {:induction false} EarlierStay(s: Targets, m: nat, n: nat, draws: seq<nat>)
    requires m <= n <= |s| && n <= |draws|
    ensures ElectAll(s, n, draws)[..m] == ElectAll(s, m, draws)[..m]
    decreases n
  {
    if m < n {
      EarlierStay(s, m, n - 1, draws);
      ElectPrefix(ElectAll(s, n - 1, draws), n - 1, draws[n - 1], m);
    }
  }

  function Ordered(accepted: Targets, draws: seq<nat>): (r: Targets)
    requires |accepted| <= |draws|
    ensures |r| == |accepted|
  {
    ElectAll(Sort(accepted, 0), |accepted|, draws)
  }

  /**
   * For any draws the targets come out as a permutation of the accepted records, sorted by
   * priority; and each position holds the target elected by its draw among those of the same
   * priority that the earlier draws had left.
   */
  lemma OrderedIs(accepted: Targets, draws: seq<nat>)
    requires |accepted| <= |draws|
    ensures var r := Ordered(accepted, draws);
            && Sorted(r) && multiset(r) == multiset(accepted)
            && (forall i :: 0 <= i < |r| ==> ElectedAt(accepted, draws, i))
  {
    var s := Sort(accepted, 0);
    SortSorts(accepted, 0);
    ElectAllKeeps(s, |s|, draws);
    forall i | 0 <= i < |s| ensures ElectedAt(accepted, draws, i) {
      WinnerStays(accepted, draws, i);
    }
  }

  ghost predicate ElectedAt(accepted: Targets, draws: seq<nat>, i: nat)
    requires i < |accepted| <= |draws|
  {
    var left := ElectAll(Sort(accepted, 0), i, draws);
    && left[..i] == Ordered(accepted, draws)[..i]
    && exists k :: 0 <= k < |left| && Wins(left, i, draws[i], k) && left[k] == Ordered(accepted, draws)[i]
  }

  lemma WinnerStays(accepted: Targets, draws: seq<nat>, i: nat)
    requires i < |accepted| <= |draws|
    ensures ElectedAt(accepted, draws, i)
  {
    var s := Sort(accepted, 0);
    var left := ElectAll(s, i, draws);
    var k := ElectIsSwap(left, i, draws[i]);
    EarlierStay(s, i, |s|, draws);
    EarlierStay(s, i + 1, |s|, draws);
    var t, r := ElectAll(s, i + 1, draws), Ordered(accepted, draws);
    assert t[..i + 1][i] == t[i] && r[..i + 1][i] == r[i];
  }

  // ----- the order in terms of the answers themselves -----

  /** An SRV answer whose target has at most 128 octets. */
  predicate Usable(rr: RR) {
    rr.rdata.SrvData? && |rr.rdata.srvTarget| <= 128
  }

  function UsableBefore(ans: seq<RR>, n: nat): nat
    requires n <= |ans|
  {
    if n == 0 then 0 else UsableBefore(ans, n - 1) + if Usable(ans[n - 1]) then 1 else 0
  }

  type Picks = seq<nat>

  /** Answer a is usable, and fewer than eight before it are. */
  predicate Counts(ans: seq<RR>, n: nat, a: nat)
    requires n <= |ans|
  {
    a < n && Usable(ans[a]) && UsableBefore(ans, a) < 8
  }

  /** Each of the first eight usable answers among the first n is picked once, and no other. */
  ghost predicate FirstEight(ans: seq<RR>, n: nat, q: Picks)
    requires n <= |ans|
  {
    && (forall i, j :: 0 <= i < j < |q| ==> q[i] != q[j])
    && (forall a: nat :: a in q <==> Counts(ans, n, a))
  }

  predicate Within(ans: seq<RR>, q: Picks) {
    forall k :: 0 <= k < |q| ==> q[k] < |ans| && ans[q[k]].rdata.SrvData?
  }

  /** The targets are those of the answers picked. */
  predicate Carries(ans: seq<RR>, q: Picks, s: Targets) {
    && |q| == |s| && Within(ans, q)
    && forall k :: 0 <= k < |q| ==> CarriesAt(ans[q[k]].rdata, s[k])
  }

  predicate CarriesAt(d: RData, t: Target)
    requires d.SrvData?
  {
    t.name == d.srvTarget && t.port == d.port && t.priority == d.prio && t.weight == d.weight
  }

  function PrioOf(ans: seq<RR>, q: Picks, k: nat): nat
    requires Within(ans, q) && k < |q|
  {
    ans[q[k]].rdata.prio
  }

  /** The answers' weights from position i up to j. */
  function Weights(ans: seq<RR>, q: Picks, i: nat, j: nat): nat
    requires Within(ans, q) && i <= j <= |q|
  {
    if j == i then 0 else Weights(ans, q, i, j - 1) + ans[q[j - 1]].rdata.weight
  }

  /** Positions i to e are those left with the priority of position i. */
  predicate Group(ans: seq<RR>, q: Picks, i: nat, e: nat)
    requires Within(ans, q)
  {
    && i < e <= |q|
    && (forall k :: i <= k < e ==> PrioOf(ans, q, k) == PrioOf(ans, q, i))
    && (e < |q| ==> PrioOf(ans, q, e) != PrioOf(ans, q, i))
  }

  /** The draw elects position k: the first whose running sum of weights reaches it. */
  predicate Elects(ans: seq<RR>, q: Picks, i: nat, k: nat, d: nat)
    requires Within(ans, q) && i <= k < |q|
  {
    d <= Weights(ans, q, i, k + 1) && (k == i || Weights(ans, q, i, k) < d)
  }

  function DrawsFor(ans: seq<RR>, q: Picks, i: nat, e: nat, k: nat): set<nat>
    requires Within(ans, q) && i <= k < e <= |q|
  {
    set d | d in Range(0, Weights(ans, q, i, e) + 1) && Elects(ans, q, i, k, d)
  }

  function Exchanged(q: Picks, i: nat, k: nat): Picks
    requires i < |q| && k < |q|
  {
    q[i := q[k]][k := q[i]]
  }

  /** Of the draws, as many as its weight says elect each answer left, and one more the first of them. */
  predicate FairAt(ans: seq<RR>, q: Picks, i: nat, e: nat)
    requires Within(ans, q) && i < e <= |q|
  {
    forall k: nat :: i <= k < e ==> |DrawsFor(ans, q, i, e, k)| == ans[q[k]].rdata.weight + if k == i then 1 else 0
  }

  /** Position i is filled by the answer its draw elects among those left of the least priority. */
  ghost predicate FilledAt(ans: seq<RR>, q: Picks, q': Picks, i: nat, draw: nat, e: nat, k: nat)
    requires Within(ans, q)
  {
    && Group(ans, q, i, e) && i <= k < e && FairAt(ans, q, i, e)
    && Elects(ans, q, i, k, draw % (Weights(ans, q, i, e) + 1)) && q' == Exchanged(q, i, k)
  }

  ghost predicate Filled(ans: seq<RR>, q: Picks, q': Picks, i: nat, draw: nat)
    requires Within(ans, q)
  {
    exists e: nat, k: nat :: FilledAt(ans, q, q', i, draw, e, k)
  }

  predicate InPriority(ans: seq<RR>, q: Picks)
    requires Within(ans, q)
  {
    forall k, l :: 0 <= k < l < |q| ==> PrioOf(ans, q, k) <= PrioOf(ans, q, l)
  }

  /** The picks before position i is filled, for each i; the last ones are the result. */
  ghost predicate StageOk(ans: seq<RR>, draws: seq<nat>, stages: seq<Picks>, i: nat)
    requires i < |stages|
  {
    && Within(ans, stages[i]) && FirstEight(ans, |ans|, stages[i]) && InPriority(ans, stages[i])
    && (i + 1 < |stages| ==> i < |draws| && Filled(ans, stages[i], stages[i + 1], i, draws[i]))
  }

  ghost predicate AllStages(ans: seq<RR>, draws: seq<nat>, stages: seq<Picks>) {
    forall i: nat :: i < |stages| ==> StageOk(ans, draws, stages, i)
  }

  ghost predicate Stages(ans: seq<RR>, draws: seq<nat>, stages: seq<Picks>, r: Targets) {
    && |stages| == |r| + 1 && AllStages(ans, draws, stages)
    && |stages[|r|]| == |r| && Within(ans, stages[|r|])
    && forall k :: 0 <= k < |r| ==>
         r[k].name == ans[stages[|r|][k]].rdata.srvTarget && r[k].port == ans[stages[|r|][k]].rdata.port
  }

  /**
   * What a caller gets: the first eight usable answers, each once, with their own target and port; in the
   * order of their own priority; and where several are left of one priority, the next is elected by its
   * draw, each by as many draws as its own weight says, the first by one more.
   */
  ghost predicate Served(ans: seq<RR>, draws: seq<nat>, r: Targets) {
    exists stages :: Stages(ans, draws, stages, r)
  }

  // the picks follow the targets

  lemma {:induction false} AcceptedPicks(ans: seq<RR>, n: nat) returns (q: Picks)
    requires n <= |ans|
    ensures Carries(ans, q, Accepted(ans, n)) && FirstEight(ans, n, q)
    ensures |q| == if UsableBefore(ans, n) < 8 then UsableBefore(ans, n) else 8
  {
    if n == 0 {
      q := [];
    } else {
      var before := AcceptedPicks(ans, n - 1);
      q := before;
      if Usable(ans[n - 1]) && UsableBefore(ans, n - 1) < 8 {
        q := before + [n - 1];
        PickMore(ans, n - 1, before);
        CarriesMore(ans, before, Accepted(ans, n - 1), n - 1);
      } else {
        PickSame(ans, n - 1, before);
      }
    }
  }

  lemma CarriesMore(ans: seq<RR>, q: Picks, s: Targets, n: nat)
    requires Carries(ans, q, s) && n < |ans| && Usable(ans[n])
    ensures Carries(ans, q + [n], s + [TargetOf(ans[n])])
  {
  }

  lemma PickSame(ans: seq<RR>, n: nat, q: Picks)
    requires n < |ans| && FirstEight(ans, n, q) && !(Usable(ans[n]) && UsableBefore(ans, n) < 8)
    ensures FirstEight(ans, n + 1, q)
  {
  }

  lemma PickMore(ans: seq<RR>, n: nat, q: Picks)
    requires n < |ans| && FirstEight(ans, n, q) && Usable(ans[n]) && UsableBefore(ans, n) < 8
    ensures FirstEight(ans, n + 1, q + [n])
  {
    AlsoIn(q, n);
    forall a: nat ensures a in q + [n] <==> Counts(ans, n + 1, a) {
      assert a in q <==> Counts(ans, n, a);
    }
    assert !Counts(ans, n, n);
  }

  lemma AlsoIn(q: Picks, n: nat)
    ensures forall a: nat :: a in q + [n] <==> a in q || a == n
  {
  }

  lemma ExchangedKeeps(ans: seq<RR>, q: Picks, s: Targets, i: nat, k: nat)
    requires Carries(ans, q, s) && FirstEight(ans, |ans|, q) && i < |q| && k < |q|
    ensures Carries(ans, Exchanged(q, i, k), Swap(s, i, k)) && FirstEight(ans, |ans|, Exchanged(q, i, k))
  {
    ExchangedCarries(ans, q, s, i, k);
    ExchangedPicks(q, i, k);
  }

  lemma ExchangedCarries(ans: seq<RR>, q: Picks, s: Targets, i: nat, k: nat)
    requires Carries(ans, q, s) && i < |q| && k < |q|
    ensures Carries(ans, Exchanged(q, i, k), Swap(s, i, k))
  {
  }

  lemma ExchangedPicks(q: Picks, i: nat, k: nat)
    requires i < |q| && k < |q|
    ensures forall a: nat :: a in Exchanged(q, i, k) <==> a in q
    ensures (forall x, y :: 0 <= x < y < |q| ==> q[x] != q[y]) ==>
              forall x, y :: 0 <= x < y < |q| ==> Exchanged(q, i, k)[x] != Exchanged(q, i, k)[y]
  {
    var q' := Exchanged(q, i, k);
    forall a: nat ensures a in q' <==> a in q {
      if a in q {
        var x :| 0 <= x < |q| && q[x] == a;
        assert q'[if x == i then k else if x == k then i else x] == a;
      }
    }
  }

  lemma {:induction false} SortPicks(ans: seq<RR>, q: Picks, s: Targets, i: nat) returns (q': Picks)
    requires Carries(ans, q, s) && FirstEight(ans, |ans|, q)
    ensures Carries(ans, q', Sort(s, i)) && FirstEight(ans, |ans|, q')
    decreases |s| - i
  {
    if i + 1 >= |s| {
      q' := q;
    } else {
      var m := MinIndex(s, i, |s|);
      ExchangedKeeps(ans, q, s, i, m);
      q' := SortPicks(ans, Exchanged(q, i, m), Swap(s, i, m), i + 1);
    }
  }

  lemma {:induction false} WeightsCarried(ans: seq<RR>, q: Picks, s: Targets, i: nat, j: nat)
    requires Carries(ans, q, s) && i <= j <= |q|
    ensures Weights(ans, q, i, j) == Sum(s, i, j)
  {
    if i < j {
      WeightsCarried(ans, q, s, i, j - 1);
      assert CarriesAt(ans[q[j - 1]].rdata, s[j - 1]);
    }
  }

  lemma PrioCarried(ans: seq<RR>, q: Picks, s: Targets, k: nat)
    requires Carries(ans, q, s) && k < |q|
    ensures PrioOf(ans, q, k) == s[k].priority && ans[q[k]].rdata.weight == s[k].weight
  {
    assert CarriesAt(ans[q[k]].rdata, s[k]);
  }

  lemma SortedCarried(ans: seq<RR>, q: Picks, s: Targets)
    requires Carries(ans, q, s) && Sorted(s)
    ensures InPriority(ans, q)
  {
    forall k, l | 0 <= k < l < |q| ensures PrioOf(ans, q, k) <= PrioOf(ans, q, l) {
      PrioCarried(ans, q, s, k);
      PrioCarried(ans, q, s, l);
    }
  }

  lemma GroupCarried(ans: seq<RR>, q: Picks, s: Targets, i: nat)
    requires Carries(ans, q, s) && i < |q|
    ensures Group(ans, q, i, GroupEnd(s, i, i + 1))
  {
    GroupEndIs(s, i, i + 1);
    forall k: nat | k < |q| ensures PrioOf(ans, q, k) == s[k].priority {
      PrioCarried(ans, q, s, k);
    }
  }

  lemma ElectsCarried(ans: seq<RR>, q: Picks, s: Targets, i: nat, e: nat, k: nat, d: nat)
    requires Carries(ans, q, s) && i <= k < e <= |q|
    ensures Elects(ans, q, i, k, d) <==> Elected(s, i, i, e, d) == k
  {
    ElectedIff(s, i, i, e, d, k);
    WeightsCarried(ans, q, s, i, k);
    WeightsCarried(ans, q, s, i, k + 1);
  }

  lemma FairCarried(ans: seq<RR>, q: Picks, s: Targets, i: nat, e: nat)
    requires Carries(ans, q, s) && i < e <= |q|
    ensures FairAt(ans, q, i, e)
  {
    forall k: nat | i <= k < e ensures |DrawsFor(ans, q, i, e, k)| == ans[q[k]].rdata.weight + if k == i then 1 else 0 {
      DrawsPerWeight(s, i, e, k);
      PrioCarried(ans, q, s, k);
      WeightsCarried(ans, q, s, i, e);
      forall d: nat ensures Elects(ans, q, i, k, d) <==> Elected(s, i, i, e, d) == k {
        ElectsCarried(ans, q, s, i, e, k, d);
      }
      assert DrawsFor(ans, q, i, e, k) == Draws(s, i, e, k);
    }
  }

  lemma ElectPicks(ans: seq<RR>, q: Picks, s: Targets, i: nat, draw: nat) returns (q': Picks)
    requires Carries(ans, q, s) && FirstEight(ans, |ans|, q) && i < |q|
    ensures Carries(ans, q', Elect(s, i, draw)) && FirstEight(ans, |ans|, q') && Filled(ans, q, q', i, draw)
  {
    var k := ElectIsSwap(s, i, draw);
    q' := Exchanged(q, i, k);
    ExchangedKeeps(ans, q, s, i, k);
    WinnerFills(ans, q, s, i, draw, GroupEnd(s, i, i + 1), k);
  }

  lemma WinnerFills(ans: seq<RR>, q: Picks, s: Targets, i: nat, draw: nat, e: nat, k: nat)
    requires Carries(ans, q, s) && i < |q| && e == GroupEnd(s, i, i + 1) && Wins(s, i, draw, k)
    ensures FilledAt(ans, q, Exchanged(q, i, k), i, draw, e, k)
  {
    GroupCarried(ans, q, s, i);
    FairCarried(ans, q, s, i, e);
    WeightsCarried(ans, q, s, i, e);
    var d := draw % (Sum(s, i, e) + 1);
    AloneElected(s, i, e, d);
    ElectsCarried(ans, q, s, i, e, k, d);
  }

  lemma AloneElected(s: Targets, i: nat, e: nat, d: nat)
    requires i < e <= |s| && d <= Sum(s, i, e)
    ensures e == i + 1 ==> Elected(s, i, i, e, d) == i
  {
  }

  lemma ElectAllNext(s: Targets, n: nat, draws: seq<nat>)
    requires 0 < n <= |s| && n <= |draws| && Sorted(s)
    ensures Sorted(ElectAll(s, n, draws)) && ElectAll(s, n, draws) == Elect(ElectAll(s, n - 1, draws), n - 1, draws[n - 1])
  {
    ElectAllKeeps(s, n, draws);
  }

  /** One more position is filled, and the answers stay in the order of their priority. */
  lemma NextPicks(ans: seq<RR>, q: Picks, t: Targets, i: nat, draw: nat) returns (q': Picks)
    requires Carries(ans, q, t) && FirstEight(ans, |ans|, q) && i < |q| && Sorted(Elect(t, i, draw))
    ensures Carries(ans, q', Elect(t, i, draw)) && FirstEight(ans, |ans|, q') && InPriority(ans, q')
    ensures Filled(ans, q, q', i, draw)
  {
    q' := ElectPicks(ans, q, t, i, draw);
    SortedCarried(ans, q', Elect(t, i, draw));
  }

  lemma LastStage(ans: seq<RR>, draws: seq<nat>, stages: seq<Picks>)
    requires stages != [] && AllStages(ans, draws, stages)
    ensures Within(ans, stages[|stages| - 1]) && FirstEight(ans, |ans|, stages[|stages| - 1])
  {
    assert StageOk(ans, draws, stages, |stages| - 1);
  }

  lemma FirstStage(ans: seq<RR>, q: Picks, s: Targets, draws: seq<nat>)
    requires Carries(ans, q, s) && FirstEight(ans, |ans|, q) && Sorted(s)
    ensures AllStages(ans, draws, [q])
  {
    SortedCarried(ans, q, s);
  }

  lemma StageBehind(ans: seq<RR>, draws: seq<nat>, before: seq<Picks>, t: Targets, i: nat) returns (stages: seq<Picks>)
    requires |before| == i + 1 && AllStages(ans, draws, before) && Carries(ans, before[i], t)
    requires i < |t| && i < |draws| && Sorted(Elect(t, i, draws[i]))
    ensures |stages| == i + 2 && AllStages(ans, draws, stages) && Carries(ans, stages[i + 1], Elect(t, i, draws[i]))
  {
    LastStage(ans, draws, before);
    var q := NextPicks(ans, before[i], t, i, draws[i]);
    StagesMore(ans, draws, before, q);
    stages := before + [q];
  }

  ghost predicate StagesOf(ans: seq<RR>, draws: seq<nat>, stages: seq<Picks>, s: Targets, n: nat)
    requires n <= |s| && n <= |draws|
  {
    |stages| == n + 1 && AllStages(ans, draws, stages) && Carries(ans, stages[n], ElectAll(s, n, draws))
  }

  lemma StagesNext(ans: seq<RR>, draws: seq<nat>, before: seq<Picks>, s: Targets, n: nat) returns (stages: seq<Picks>)
    requires 0 < n <= |s| && n <= |draws| && Sorted(s) && StagesOf(ans, draws, before, s, n - 1)
    ensures StagesOf(ans, draws, stages, s, n)
  {
    ElectAllNext(s, n, draws);
    stages := StageBehind(ans, draws, before, ElectAll(s, n - 1, draws), n - 1);
  }

  lemma {:induction false} ElectAllPicks(ans: seq<RR>, q: Picks, s: Targets, draws: seq<nat>, n: nat) returns (stages: seq<Picks>)
    requires Carries(ans, q, s) && FirstEight(ans, |ans|, q) && Sorted(s) && n <= |s| && n <= |draws|
    ensures StagesOf(ans, draws, stages, s, n)
  {
    if n == 0 {
      stages := [q];
      FirstStage(ans, q, s, draws);
    } else {
      var before := ElectAllPicks(ans, q, s, draws, n - 1);
      stages := StagesNext(ans, draws, before, s, n);
    }
  }

  lemma StagesMore(ans: seq<RR>, draws: seq<nat>, before: seq<Picks>, q: Picks)
    requires before != [] && |before| <= |draws| && AllStages(ans, draws, before)
    requires Within(ans, q) && FirstEight(ans, |ans|, q) && InPriority(ans, q) && Within(ans, before[|before| - 1])
    requires Filled(ans, before[|before| - 1], q, |before| - 1, draws[|before| - 1])
    ensures AllStages(ans, draws, before + [q])
  {
    forall i: nat | i < |before| + 1 ensures StageOk(ans, draws, before + [q], i) {
      StageMore(ans, draws, before, q, i);
    }
  }

  lemma StageMore(ans: seq<RR>, draws: seq<nat>, before: seq<Picks>, q: Picks, i: nat)
    requires i <= |before| && before != [] && |before| <= |draws| && (i < |before| ==> StageOk(ans, draws, before, i))
    requires Within(ans, q) && FirstEight(ans, |ans|, q) && InPriority(ans, q) && Within(ans, before[|before| - 1])
    requires Filled(ans, before[|before| - 1], q, |before| - 1, draws[|before| - 1])
    ensures StageOk(ans, draws, before + [q], i)
  {
    var stages := before + [q];
    assert stages[|before|] == q;
    if i < |before| {
      assert stages[i] == before[i];
      assert i + 1 < |before| ==> stages[i + 1] == before[i + 1];
    }
  }

  lemma OrderServes(ans: seq<RR>, draws: seq<nat>)
    requires |Accepted(ans, |ans|)| <= |draws|
    ensures Served(ans, draws, Ordered(Accepted(ans, |ans|), draws))
  {
    var accepted := Accepted(ans, |ans|);
    var q := AcceptedPicks(ans, |ans|);
    SortSorts(accepted, 0);
    var q' := SortPicks(ans, q, accepted, 0);
    var stages := ElectAllPicks(ans, q', Sort(accepted, 0), draws, |accepted|);
    var r := Ordered(accepted, draws);
    forall k | 0 <= k < |r|
      ensures r[k].name == ans[stages[|r|][k]].rdata.srvTarget && r[k].port == ans[stages[|r|][k]].rdata.port
    {
      assert CarriesAt(ans[stages[|r|][k]].rdata, r[k]);
    }
    assert Stages(ans, draws, stages, r);
  }

  // ----- the program -----

  /** pj_dns_srv_async_query; sums[k] is the field `sum` of srv[k]. */
  class Query {
    const srv: array<Target>
    const sums: array<nat>
    var srvCnt: nat

    constructor ()
      ensures srv.Length == sums.Length == MAX_ADDR && srvCnt == 0 && fresh(srv) && fresh(sums)
    {
      srv := new Target[MAX_ADDR](_ => Target([], 0, 0, 0));
      sums := new nat[MAX_ADDR];
      srvCnt := 0;
    }

    predicate Valid()
      reads this
    {
      srv.Length == sums.Length == MAX_ADDR && srvCnt <= MAX_ADDR
    }

    /** The records of the answer become targets. */
    method Accept(ans: seq<RR>)
      requires Valid()
      modifies this`srvCnt, srv
      ensures Valid() && srv[..srvCnt] == Accepted(ans, |ans|)
    {
      srvCnt := 0;
      var i := 0;
      while i < |ans| && srvCnt < MAX_ADDR
        invariant Valid() && i <= |ans| && srv[..srvCnt] == Accepted(ans, i)
      {
        var rr := ans[i];
        if rr.rdata.SrvData? && |rr.rdata.srvTarget| <= MAX_HOSTNAME {
          srv[srvCnt] := Target(rr.rdata.srvTarget, rr.rdata.port, rr.rdata.prio, rr.rdata.weight);
          srvCnt := srvCnt + 1;
          assert srv[..srvCnt] == srv[..srvCnt - 1] + [TargetOf(rr)];
        }
        i := i + 1;
      }
      EightAreEnough(ans, i);
    }

    method SwapEntries(i: nat, j: nat)
      requires Valid() && i < srvCnt && j < srvCnt
      modifies srv, sums
      ensures srv[..srvCnt] == Swap(old(srv[..srvCnt]), i, j)
    {
      srv[i], srv[j] := srv[j], srv[i];
      sums[i], sums[j] := sums[j], sums[i];
      assert srv[..srvCnt] == Swap(old(srv[..srvCnt]), i, j);
    }

    /** First pass: the entries ordered by priority. */
    method SortByPriority()
      requires Valid() && srvCnt > 0
      modifies srv, sums
      ensures srv[..srvCnt] == Sort(old(srv[..srvCnt]), 0)
    {
      ghost var s := srv[..srvCnt];
      var i := 0;
      while i < srvCnt - 1
        invariant 0 <= i < srvCnt
        invariant Sort(srv[..srvCnt], i) == Sort(s, 0)
      {
        var min := FindMin(i);
        SwapEntries(i, min);
        i := i + 1;
      }
    }

    /** The inner loop of the first pass. */
    method FindMin(i: nat) returns (min: nat)
      requires Valid() && i < srvCnt
      ensures min == MinIndex(srv[..srvCnt], i, srvCnt)
    {
      min := i;
      var j := i + 1;
      while j < srvCnt
        invariant i < j <= srvCnt
        invariant min == MinIndex(srv[..srvCnt], i, j)
      {
        if srv[j].priority < srv[min].priority {
          min := j;
        }
        j := j + 1;
      }
    }

    /** The running sums of the group that begins at i, and its total. */
    method SumGroup(i: nat) returns (count: nat, sum: nat)
      requires Valid() && i < srvCnt
      modifies sums
      ensures i + count == GroupEnd(srv[..srvCnt], i, i + 1)
      ensures sum == Sum(srv[..srvCnt], i, i + count)
      ensures forall k :: i <= k < i + count ==> sums[k] == Sum(srv[..srvCnt], i, k + 1)
    {
      ghost var s := srv[..srvCnt];
      sum := srv[i].weight;
      sums[i] := sum;
      count := 1;
      var j := i + 1;
      assert Sum(s, i, i) == 0;
      while j < srvCnt && srv[j].priority == srv[i].priority
        invariant i < j <= srvCnt && count == j - i
        invariant GroupEnd(s, i, j) == GroupEnd(s, i, i + 1) && sum == Sum(s, i, j)
        invariant forall k :: i <= k < j ==> sums[k] == Sum(s, i, k + 1)
      {
        sum := sum + srv[j].weight;
        sums[j] := sum;
        count := count + 1;
        j := j + 1;
      }
    }

    /** The first entry of the group whose running sum reaches r. */
    method FindElected(i: nat, e: nat, r: nat) returns (j: nat)
      requires Valid() && i < e <= srvCnt
      requires forall k :: i <= k < e ==> sums[k] == Sum(srv[..srvCnt], i, k + 1)
      ensures j == Elected(srv[..srvCnt], i, i, e, r)
    {
      ghost var s := srv[..srvCnt];
      j := i;
      while j < e
        invariant i <= j <= e
        invariant Elected(s, i, j, e, r) == Elected(s, i, i, e, r)
      {
        if sums[j] >= r {
          break;
        }
        j := j + 1;
      }
    }

    /** One step of the second pass; `draw` is the value of `pj_rand`. */
    method ElectNext(i: nat, draw: nat)
      requires Valid() && i < srvCnt && Sorted(srv[..srvCnt])
      modifies srv, sums
      ensures srv[..srvCnt] == Elect(old(srv[..srvCnt]), i, draw)
    {
      var count, sum := SumGroup(i);
      if count > 1 {
        var r := draw % (sum + 1);
        SomeoneElected(srv[..srvCnt], i, i, i + count, r);
        var j := FindElected(i, i + count, r);
        SwapEntries(i, j);
      }
    }

    /** `build_server_entries`, up to the final order of the targets. */
    method BuildServerEntries(ans: seq<RR>, draws: seq<nat>)
      requires Valid() && |draws| == MAX_ADDR
      modifies this`srvCnt, srv, sums
      ensures Valid() && srv[..srvCnt] == Ordered(Accepted(ans, |ans|), draws)
      ensures Served(ans, draws, srv[..srvCnt])
    {
      OrderServes(ans, draws);
      Accept(ans);
      if srvCnt == 0 {
        return;
      }
      ghost var accepted := srv[..srvCnt];
      SortByPriority();
      SortSorts(accepted, 0);
      ElectEach(draws);
    }

    /** Second pass. */
    method ElectEach(draws: seq<nat>)
      requires Valid() && srvCnt <= |draws| && Sorted(srv[..srvCnt])
      modifies srv, sums
      ensures srv[..srvCnt] == ElectAll(old(srv[..srvCnt]), srvCnt, draws)
    {
      ghost var s := srv[..srvCnt];
      var i := 0;
      while i < srvCnt
        invariant i <= srvCnt
        invariant srv[..srvCnt] == ElectAll(s, i, draws)
      {
        ElectAllKeeps(s, i, draws);
        ElectNext(i, draws[i]);
        i := i + 1;
      }
    }
  }

  /** With the table full the remaining records are not looked at. */
  lemma {:induction false} EightAreEnough(ans: seq<RR>, n: nat)
    requires n <= |ans| && (n == |ans| || |Accepted(ans, n)| == MAX_ADDR)
    ensures Accepted(ans, |ans|) == Accepted(ans, n)
    decreases |ans| - n
  {
    if n < |ans| {
      EightAreEnough(ans, n + 1);
    }
  }
}
