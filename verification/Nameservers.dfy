/** The nameserver table of the resolver: choosing servers and tracking their state. */
module Nameservers {
  import opened Bytes
  import opened DnsPackets

  /** PJ_DNS_RESOLVER_MAX_NS; `pj_dns_resolver_set_ns` accepts fewer than this many. */
  const MAX_NS := 16

  datatype ServerState = Probing | Active | Bad

  /** struct nameserver, with times in milliseconds. */
  datatype NameServer = NameServer(
    addr: nat,
    state: ServerState,
    stateExpiry: int,
    rtDelay: int,
    qId: nat,
    sentTime: int)

  /** pj_dns_settings. */
  datatype Settings = Settings(
    qretrDelay: nat,
    qretrCount: nat,
    cacheMaxTtl: nat,
    goodNsTtl: nat,
    badNsTtl: nat)

  /** Seconds until the state is looked at again. */
  function StateSeconds(cfg: Settings, state: ServerState): nat {
    match state
    case Probing => ((cfg.qretrCount + 2) * cfg.qretrDelay) / 1000
    case Active => cfg.goodNsTtl
    case Bad => cfg.badNsTtl
  }

  /** `set_nameserver_state`. */
  function SetState(cfg: Settings, s: NameServer, state: ServerState, now: int): NameServer {
    s.(state := state, stateExpiry := now + 1000 * StateSeconds(cfg, state))
  }

  /** The first loop of `select_nameservers` over the first n servers; -1 when none is active. */
  function Best(ns: seq<NameServer>, n: nat): (b: int)
    requires n <= |ns|
    ensures -1 <= b < n
  {
    if n == 0 then -1
    else
      var b := Best(ns, n - 1);
      if ns[n - 1].state != Active then b
      else if b == -1 || ns[n - 1].rtDelay < ns[b].rtDelay then n - 1
      else b
  }

  /** What the scan makes of one server. */
  function Scanned(cfg: Settings, s: NameServer, now: int): NameServer {
    if s.stateExpiry > now then s
    else if s.state == Probing then SetState(cfg, s, Bad, now)
    else SetState(cfg, s, Probing, now)
  }

  function ScanAll(cfg: Settings, ns: seq<NameServer>, now: int): (r: seq<NameServer>)
    ensures |r| == |ns|
  {
    seq(|ns|, i requires 0 <= i < |ns| => Scanned(cfg, ns[i], now))
  }

  /** The servers listed once the scan has passed the first n. */
  function Listing(after: seq<NameServer>, best: int, n: nat): seq<nat>
    requires n <= |after| && -1 <= best
  {
    if n == 0 then (if best == -1 then [] else [best as nat])
    else
      var before := Listing(after, best, n - 1);
      if after[n - 1].state == Probing && n - 1 != best then before + [n - 1] else before
  }

  /** `select_nameservers`: the servers to use, and the table after the scan. */
  function Select(cfg: Settings, ns: seq<NameServer>, now: int): (seq<nat>, seq<NameServer>) {
    var after := ScanAll(cfg, ns, now);
    (Listing(after, Best(ns, |ns|), |ns|), after)
  }

  /** The transmission is remembered by servers that are not timing another query. */
  function MarkSent(ns: seq<NameServer>, servers: seq<nat>, n: nat, id: nat, now: int): (r: seq<NameServer>)
    requires n <= |servers|
    ensures |r| == |ns|
  {
    if n == 0 then ns
    else
      var before := MarkSent(ns, servers, n - 1, id, now);
      var i := servers[n - 1];
      if i < |ns| && before[i].qId == 0 then before[i := before[i].(qId := id, sentTime := now)] else before
  }

  predicate IsGood(pkt: Option<Packet>) {
    pkt.Some? && Rcode(pkt.value) !in {2, 5, 9}
  }

  function Reported(cfg: Settings, s: NameServer, pkt: Option<Packet>, now: int): NameServer {
    var timed := if pkt.Some? && pkt.value.id == s.qId then s.(rtDelay := now - s.sentTime, qId := 0) else s;
    SetState(cfg, timed, if IsGood(pkt) then Active else Bad, now)
  }

  /** `report_nameserver_status` from server i on: the first server with the address is updated. */
  function Report(cfg: Settings, ns: seq<NameServer>, i: nat, addr: nat, pkt: Option<Packet>, now: int): (r: seq<NameServer>)
    requires i <= |ns|
    ensures |r| == |ns|
    decreases |ns| - i
  {
    if i == |ns| then ns
    else if ns[i].addr == addr then ns[i := Reported(cfg, ns[i], pkt, now)]
    else Report(cfg, ns, i + 1, addr, pkt, now)
  }

  // ----- properties -----

  lemma {:induction false} BestIsLeast(ns: seq<NameServer>, n: nat)
    requires n <= |ns|
    ensures Best(ns, n) == -1 <==> forall i :: 0 <= i < n ==> ns[i].state != Active
    ensures Best(ns, n) != -1 ==>
              && ns[Best(ns, n)].state == Active
              && (forall i :: 0 <= i < n && ns[i].state == Active ==> ns[Best(ns, n)].rtDelay <= ns[i].rtDelay)
              && (forall i :: 0 <= i < Best(ns, n) && ns[i].state == Active ==>
                    ns[Best(ns, n)].rtDelay < ns[i].rtDelay)
  {
    if n > 0 {
      BestIsLeast(ns, n - 1);
    }
  }

  lemma {:induction false} ListingExact(after: seq<NameServer>, best: int, n: nat)
    requires n <= |after| && -1 <= best < |after|
    ensures var l := Listing(after, best, n);
            && (forall i: nat :: i in l <==> i == best || (i < n && after[i].state == Probing))
            && (forall i, j :: 0 <= i < j < |l| ==> l[i] != l[j])
            && (best != -1 ==> l != [] && l[0] == best)
            && |l| <= n + if best == -1 then 0 else 1
  {
    if n > 0 {
      ListingExact(after, best, n - 1);
      var before := Listing(after, best, n - 1);
      if after[n - 1].state == Probing && n - 1 != best {
        assert n - 1 !in before;
        assert forall i: nat :: i in before + [n - 1] <==> i in before || i == n - 1;
      }
    }
  }

  /**
   * The chosen servers are distinct and valid; the first is the quickest active server if there
   * was one; a server is used exactly when it is that one or the scan left it probing, so no
   * probing server is skipped. A server leaves the scan probing exactly when it was probing and
   * has time left, or was not and had none.
   */
  lemma SelectExact(cfg: Settings, ns: seq<NameServer>, now: int)
    ensures var (servers, after) := Select(cfg, ns, now);
            var best := Best(ns, |ns|);
            && |after| == |ns|
            && (forall i, j :: 0 <= i < j < |servers| ==> servers[i] != servers[j])
            && (forall i: nat :: i in servers <==> i == best || (i < |ns| && after[i].state == Probing))
            && (best != -1 ==> servers != [] && servers[0] == best)
            && (best != -1 <==> exists i :: 0 <= i < |ns| && ns[i].state == Active)
            && (best != -1 ==> ns[best].state == Active)
            && (forall i :: 0 <= i < |ns| && ns[i].state == Active ==> ns[best].rtDelay <= ns[i].rtDelay)
            && (forall i :: 0 <= i < |ns| ==>
                  (after[i].state == Probing <==> (ns[i].state == Probing <==> ns[i].stateExpiry > now)))
  {
    BestIsLeast(ns, |ns|);
    ListingExact(ScanAll(cfg, ns, now), Best(ns, |ns|), |ns|);
  }

  /** A query finds no server exactly when every server is bad and not yet due for a new probe, or being given up. */
  lemma NoServerExactly(cfg: Settings, ns: seq<NameServer>, now: int)
    ensures Select(cfg, ns, now).0 == [] <==>
            forall i :: 0 <= i < |ns| ==>
              (ns[i].state == Bad && ns[i].stateExpiry > now) || (ns[i].state == Probing && ns[i].stateExpiry <= now)
  {
    SelectExact(cfg, ns, now);
    var (servers, after) := Select(cfg, ns, now);
    if servers != [] {
      var i := servers[0];
      assert i in servers;
    } else {
      forall i | 0 <= i < |ns|
        ensures (ns[i].state == Bad && ns[i].stateExpiry > now) || (ns[i].state == Probing && ns[i].stateExpiry <= now)
      {
        var k: nat := i;
        assert k !in servers;
      }
    }
  }

  // ----- what a report does -----

  /** PJ_DNS_RCODE_SERVFAIL, PJ_DNS_RCODE_REFUSED and PJ_DNS_RCODE_NOTAUTH. */
  const SERVFAIL := 2
  const REFUSED := 5
  const NOTAUTH := 9

  /** Server i is the first with the address. */
  predicate FirstWith(ns: seq<NameServer>, addr: nat, i: nat) {
    i < |ns| && ns[i].addr == addr && forall k :: 0 <= k < i ==> ns[k].addr != addr
  }

  /** The server answered something useful: a packet that parsed and does not blame the server. */
  predicate Useful(pkt: Option<Packet>) {
    pkt.Some? && pkt.value.flags % 16 != SERVFAIL && pkt.value.flags % 16 != REFUSED && pkt.value.flags % 16 != NOTAUTH
  }

  /**
   * A report reaches the first server with the address and no other. It is active from now on if it
   * answered usefully, for as long as the settings say of a good server, and else bad, for as long as they
   * say of a bad one. Its response time is measured exactly if the packet has the id it was sent.
   */
  lemma {:induction false} ReportFrom(cfg: Settings, ns: seq<NameServer>, from: nat, addr: nat, pkt: Option<Packet>, now: int)
    requires from <= |ns| && forall k :: 0 <= k < from ==> ns[k].addr != addr
    ensures var r := Report(cfg, ns, from, addr, pkt, now);
            && (forall i: nat :: i < |ns| && !FirstWith(ns, addr, i) ==> r[i] == ns[i])
            && (forall i: nat :: FirstWith(ns, addr, i) ==>
                  && r[i].addr == addr && r[i].sentTime == ns[i].sentTime
                  && (if Useful(pkt) then r[i].state == Active && r[i].stateExpiry == now + 1000 * cfg.goodNsTtl
                      else r[i].state == Bad && r[i].stateExpiry == now + 1000 * cfg.badNsTtl)
                  && (if pkt.Some? && pkt.value.id == ns[i].qId then r[i].rtDelay == now - ns[i].sentTime && r[i].qId == 0
                      else r[i].rtDelay == ns[i].rtDelay && r[i].qId == ns[i].qId))
    decreases |ns| - from
  {
    if from < |ns| && ns[from].addr != addr {
      ReportFrom(cfg, ns, from + 1, addr, pkt, now);
    }
  }

  /** The whole table. */
  lemma ReportExact(cfg: Settings, ns: seq<NameServer>, addr: nat, pkt: Option<Packet>, now: int)
    ensures var r := Report(cfg, ns, 0, addr, pkt, now);
            && |r| == |ns|
            && (forall i: nat :: i < |ns| && !FirstWith(ns, addr, i) ==> r[i] == ns[i])
            && (forall i: nat :: FirstWith(ns, addr, i) ==>
                  && r[i].addr == addr && r[i].sentTime == ns[i].sentTime
                  && (if Useful(pkt) then r[i].state == Active && r[i].stateExpiry == now + 1000 * cfg.goodNsTtl
                      else r[i].state == Bad && r[i].stateExpiry == now + 1000 * cfg.badNsTtl)
                  && (if pkt.Some? && pkt.value.id == ns[i].qId then r[i].rtDelay == now - ns[i].sentTime && r[i].qId == 0
                      else r[i].rtDelay == ns[i].rtDelay && r[i].qId == ns[i].qId))
  {
    ReportFrom(cfg, ns, 0, addr, pkt, now);
  }

  /** A transmission starts the clock of exactly the servers sent to that are not timing another query. */
  lemma {:induction false} MarkSentExact(ns: seq<NameServer>, servers: seq<nat>, n: nat, id: nat, now: int, i: nat)
    requires n <= |servers| && i < |ns|
    ensures MarkSent(ns, servers, n, id, now)[i] ==
            if i in servers[..n] && ns[i].qId == 0 then ns[i].(qId := id, sentTime := now) else ns[i]
  {
    if n > 0 {
      MarkSentExact(ns, servers, n - 1, id, now, i);
      assert servers[..n] == servers[..n - 1] + [servers[n - 1]];
    }
  }

  // ----- how states go on -----

  /**
   * Selecting servers leaves a server alone until its time is over. Then one that was being probed is
   * bad, for as long as the settings say, and any other is probed, for qretr_count + 2 retransmissions.
   */
  lemma ScanExact(cfg: Settings, ns: seq<NameServer>, now: int, i: nat)
    requires i < |ns|
    ensures var s, t := ns[i], Select(cfg, ns, now).1[i];
            && (now < s.stateExpiry ==> t == s)
            && (s.stateExpiry <= now && s.state == Probing ==>
                  t == s.(state := Bad, stateExpiry := now + 1000 * cfg.badNsTtl))
            && (s.stateExpiry <= now && s.state != Probing ==>
                  t == s.(state := Probing, stateExpiry := now + 1000 * ((cfg.qretrCount + 2) * cfg.qretrDelay / 1000)))
  {
  }

  /** A server that is probed without an answer is no longer used, and bad. */
  lemma ProbeFails(cfg: Settings, ns: seq<NameServer>, now: int, i: nat)
    requires i < |ns| && ns[i].state == Probing && ns[i].stateExpiry <= now
    ensures i !in Select(cfg, ns, now).0 && Select(cfg, ns, now).1[i].state == Bad
  {
    SelectExact(cfg, ns, now);
  }

  /** After a useful answer of a known server the next selection finds a server, whenever it is made. */
  lemma UsefulAnswerServes(cfg: Settings, ns: seq<NameServer>, addr: nat, pkt: Option<Packet>, now: int, later: int)
    requires Useful(pkt) && exists i :: 0 <= i < |ns| && ns[i].addr == addr
    ensures Select(cfg, Report(cfg, ns, 0, addr, pkt, now), later).0 != []
  {
    var i := FirstOf(ns, addr);
    ReportExact(cfg, ns, addr, pkt, now);
    SelectExact(cfg, Report(cfg, ns, 0, addr, pkt, now), later);
  }

  lemma {:induction false} FirstOf(ns: seq<NameServer>, addr: nat) returns (i: nat)
    requires exists i :: 0 <= i < |ns| && ns[i].addr == addr
    ensures FirstWith(ns, addr, i)
  {
    i := 0;
    while ns[i].addr != addr
      invariant i < |ns| && forall k :: 0 <= k < i ==> ns[k].addr != addr
      decreases |ns| - i
    {
      i := i + 1;
    }
  }

  /**
   * After a useless answer of the only server no selection finds one until the time of a bad server is
   * over, and the first one after that probes it.
   */
  lemma UselessAnswerWaits(cfg: Settings, s: NameServer, pkt: Option<Packet>, now: int, later: int)
    requires !Useful(pkt)
    ensures var (servers, after) := Select(cfg, Report(cfg, [s], 0, s.addr, pkt, now), later);
            && (later < now + 1000 * cfg.badNsTtl ==> servers == [] && after == Report(cfg, [s], 0, s.addr, pkt, now))
            && (later >= now + 1000 * cfg.badNsTtl ==> servers == [0] && after[0].state == Probing)
  {
    ReportExact(cfg, [s], s.addr, pkt, now);
    assert FirstWith([s], s.addr, 0);
    var r := Report(cfg, [s], 0, s.addr, pkt, now);
    SelectExact(cfg, r, later);
    ScanExact(cfg, r, later, 0);
    var (servers, after) := Select(cfg, r, later);
    if later < now + 1000 * cfg.badNsTtl {
      NoneListed(servers);
      assert after == r;
    } else {
      OneListed(servers);
    }
  }

  lemma HeadsIn(servers: seq<nat>)
    ensures |servers| > 0 ==> servers[0] in servers
    ensures |servers| > 1 ==> servers[1] in servers
  {
  }

  lemma NoneListed(servers: seq<nat>)
    requires forall i: nat :: i !in servers
    ensures servers == []
  {
    HeadsIn(servers);
  }

  lemma OneListed(servers: seq<nat>)
    requires forall i: nat :: i in servers <==> i == 0
    requires |servers| > 1 ==> servers[0] != servers[1]
    ensures servers == [0]
  {
    HeadsIn(servers);
    assert 0 in servers;
  }
}
