/** The resolver object: its fields, and its operations in the order the program performs them. */
module DnsResolver {
  import opened Bytes
  import opened DnsPackets
  import opened ResponseCache
  import opened Nameservers
  import opened ResolverSteps
  import opened ResolverShape
  import opened ResolverTimers
  import opened ResolverAnswers
  import opened ResolverRuns

  datatype StartError = InvalidArgument | NameTooLong | TransmitFailed(why: TransmitStatus)

  datatype StartResult = Accepted(outcome: Outcome) | Rejected(error: StartError)

  datatype AddError = NotAResponse | NoAnswerRecord | KeyTooLong

  /** PJ_DNS_GET_QR. */
  predicate IsResponse(pkt: Packet) {
    pkt.flags / 0x8000 % 2 == 1
  }

  /** The record an injected packet is filed under: its first answer, else its first question. */
  function AddKey(pkt: Packet): Key {
    if pkt.ans != [] then ResKey(pkt.ans[0].rtype, pkt.ans[0].name)
    else if pkt.q != [] then ResKey(pkt.q[0].qtype, pkt.q[0].name)
    else NO_KEY
  }

  function AddCheck(pkt: Packet): Option<AddError> {
    if !IsResponse(pkt) then Some(NotAResponse)
    else if pkt.ans == [] && pkt.q == [] then Some(NoAnswerRecord)
    else if |if pkt.ans != [] then pkt.ans[0].name else pkt.q[0].name| >= PJ_MAX_HOSTNAME then Some(KeyTooLong)
    else None
  }

  /** What the operations rely on, of the invariant. */
  lemma Ready(cfg: Settings, s: State, step: Step)
    requires Inv(cfg, s) && Enabled(cfg, s, step)
    ensures Counted(s.cache) && (s.free != [] ==> s.free[0] < |s.nodes|)
    ensures forall id :: id in s.byId ==> s.byId[id] < |s.nodes|
    ensures forall key :: key in s.byRes ==> s.byRes[key] < |s.nodes|
    ensures step.DoFinish? ==> forall c :: c in s.nodes[step.n].children ==> c < |s.nodes| && c != step.n
  {
    assert s.free != [] ==> s.free[0] in s.free;
    if step.DoFinish? {
      assert s.nodes[step.n].link == Unlinked && KidsOk(s.nodes, step.n);
    }
  }

  class Resolver {
    const cfg: Settings

    var nodes: seq<Node>
    var queryFreeNodes: seq<nat>
    var hqueryById: map<nat, nat>
    var hqueryByRes: map<Key, nat>
    var timers: set<nat>
    var lastId: nat
    var ns: array<NameServer>
    var nsCount: nat
    var hrescache: Cache
    var completing: map<nat, Completion>

    ghost var trace: seq<Callback>
    ghost var places: map<nat, Place>
    ghost var nextRequest: nat
    ghost var log: seq<CacheEvent>

    ghost function S(): State
      reads this, ns
      requires nsCount <= ns.Length
    {
      State(nodes, queryFreeNodes, hqueryById, hqueryByRes, timers, lastId, ns[..nsCount], hrescache, completing,
            trace, places, nextRequest, log)
    }

    /** The nameserver table has room, as `pj_dns_resolver_set_ns` sees to. */
    predicate Laid()
      reads this
    {
      nsCount < MAX_NS == ns.Length
    }

    ghost predicate Valid()
      reads this, ns
    {
      Laid() && Inv(cfg, S())
    }

    constructor (cfg: Settings, servers: seq<NameServer>)
      requires |servers| < MAX_NS
      ensures Valid() && fresh(ns) && this.cfg == cfg && S() == InitState(servers)
    {
      this.cfg := cfg;
      nodes, queryFreeNodes, hqueryById, hqueryByRes, timers := [], [], map[], map[], {};
      lastId, hrescache, completing := 1, EMPTY_CACHE, map[];
      trace, places, nextRequest, log := [], map[], 0, [];
      nsCount := |servers|;
      ns := new NameServer[MAX_NS](i => if 0 <= i < |servers| then servers[i] else NameServer(0, Active, 0, 0, 0, 0));
      new;
      assert ns[..nsCount] == servers;
      InitInv(cfg, servers);
    }

    // ----- nameservers -----

    /** `set_nameserver_state`. */
    method SetNameserverState(i: nat, state: ServerState, now: int)
      requires i < ns.Length
      modifies ns
      ensures ns[..] == old(ns[..])[i := SetState(cfg, old(ns[i]), state, now)]
    {
      var expiry := now;
      if state == Probing {
        expiry := expiry + 1000 * (((cfg.qretrCount + 2) * cfg.qretrDelay) / 1000);
      } else if state == Active {
        expiry := expiry + 1000 * cfg.goodNsTtl;
      } else {
        expiry := expiry + 1000 * cfg.badNsTtl;
      }
      ns[i] := ns[i].(state := state, stateExpiry := expiry);
    }

    /** The first loop of `select_nameservers`. */
    method BestActive() returns (min: int)
      requires nsCount <= ns.Length
      ensures min == Best(ns[..nsCount], nsCount)
    {
      min := -1;
      var i := 0;
      while i < nsCount
        invariant i <= nsCount
        invariant min == Best(ns[..nsCount], i)
      {
        if ns[i].state == Active {
          if min == -1 {
            min := i;
          } else if ns[i].rtDelay < ns[min].rtDelay {
            min := i;
          }
        }
        i := i + 1;
      }
    }

    /** The body of the second loop: an expired state is moved on, and a probing server is to be used. */
    method ScanNameserver(i: nat, now: int) returns (listed: bool)
      requires i < ns.Length
      modifies ns
      ensures ns[..] == old(ns[..])[i := Scanned(cfg, old(ns[i]), now)]
      ensures listed <==> ns[i].state == Probing
    {
      if ns[i].stateExpiry <= now {
        if ns[i].state == Probing {
          SetNameserverState(i, Bad, now);
          listed := false;
        } else {
          SetNameserverState(i, Probing, now);
          listed := true;
        }
      } else {
        listed := ns[i].state == Probing;
      }
    }

    /** `select_nameservers`, with room for MAX_NS servers. */
    method SelectNameservers(now: int) returns (servers: seq<nat>)
      requires Laid()
      modifies ns
      ensures (servers, ns[..nsCount]) == Select(cfg, old(ns[..nsCount]), now)
    {
      ghost var before := ns[..nsCount];
      ghost var after := ScanAll(cfg, before, now);
      var min := BestActive();
      ListingExact(after, min, 0);
      servers := if min == -1 then [] else [min as nat];
      var i := 0;
      while i < nsCount && |servers| < MAX_NS
        invariant i <= nsCount
        invariant forall k :: 0 <= k < i ==> ns[k] == after[k]
        invariant forall k :: i <= k < nsCount ==> ns[k] == before[k]
        invariant servers == Listing(after, min, i)
        invariant |servers| <= i + 1
      {
        var listed := ScanNameserver(i, now);
        if listed && i != min {
          servers := servers + [i];
        }
        i := i + 1;
      }
      ListingExact(after, min, i);
      assert ns[..nsCount] == after;
    }

    /** `report_nameserver_status`: the scan stops at the first server with the address. */
    method ReportNameserverStatus(addr: nat, pkt: Option<Packet>, now: int)
      requires nsCount <= ns.Length
      modifies ns
      ensures ns[..nsCount] == Report(cfg, old(ns[..nsCount]), 0, addr, pkt, now)
    {
      ghost var before := ns[..nsCount];
      var isGood := pkt.Some? && Rcode(pkt.value) !in {2, 5, 9};
      var i := 0;
      while i < nsCount
        invariant i <= nsCount && ns[..nsCount] == before
        invariant Report(cfg, before, 0, addr, pkt, now) == Report(cfg, before, i, addr, pkt, now)
      {
        if ns[i].addr == addr {
          if pkt.Some? && pkt.value.id == ns[i].qId {
            ns[i] := ns[i].(rtDelay := now - ns[i].sentTime, qId := 0);
          }
          SetNameserverState(i, if isGood then Active else Bad, now);
          assert ns[..nsCount] == before[i := Reported(cfg, before[i], pkt, now)];
          return;
        }
        i := i + 1;
      }
    }

    // ----- transmitting -----

    /** `transmit_query`. */
    method TransmitQuery(n: nat, net: Network, now: int) returns (status: TransmitStatus)
      requires Laid() && n < |nodes| && nodes[n].timerId == 0
      modifies this`nodes, this`timers, ns
      ensures (S(), status) == Transmit(cfg, old(S()), n, net, now)
    {
      if nsCount == 0 {
        return TxNoNameserver;
      }
      var servers := SelectNameservers(now);
      if servers == [] {
        return TxNoWorkingNameserver;
      }
      nodes := nodes[n := nodes[n].(timerId := 1)];
      if !net.scheduled {
        return TxScheduleFailed;
      }
      timers := timers + {n};
      if net.busy {
        nodes := nodes[n := nodes[n].(transmitCnt := nodes[n].transmitCnt + 1)];
        assert nodes == old(nodes)[n := nodes[n]];
        return TxOk;
      }
      if !net.built {
        timers := timers - {n};
        assert timers == old(timers) - {n};
        return TxBuildFailed;
      }
      MarkServers(servers, nodes[n].id, now);
      nodes := nodes[n := nodes[n].(transmitCnt := nodes[n].transmitCnt + 1)];
      assert nodes == old(nodes)[n := nodes[n]];
      return TxOk;
    }

    /** The sending loop, as far as the nameserver table is concerned. */
    method MarkServers(servers: seq<nat>, id: nat, now: int)
      requires nsCount <= ns.Length
      modifies ns
      ensures ns[..nsCount] == MarkSent(old(ns[..nsCount]), servers, |servers|, id, now)
    {
      ghost var before := ns[..nsCount];
      var i := 0;
      while i < |servers|
        invariant i <= |servers|
        invariant ns[..nsCount] == MarkSent(before, servers, i, id, now)
      {
        var k := servers[i];
        if k < nsCount && ns[k].qId == 0 {
          ghost var was := ns[..nsCount];
          ns[k] := ns[k].(qId := id, sentTime := now);
          assert ns[..nsCount] == was[k := was[k].(qId := id, sentTime := now)];
        }
        i := i + 1;
      }
    }

    // ----- starting a query -----

    /** `alloc_qnode`. */
    method AllocQnode(cb: Option<nat>) returns (n: nat)
      requires nsCount <= ns.Length
      requires queryFreeNodes != [] ==> queryFreeNodes[0] < |nodes|
      modifies this`nodes, this`queryFreeNodes
      ensures (S(), n) == Alloc(old(S()), cb) && n < |nodes|
    {
      if queryFreeNodes != [] {
        n := queryFreeNodes[0];
        queryFreeNodes := queryFreeNodes[1..];
        nodes := nodes[n := BlankNode(cb)];
      } else {
        n := |nodes|;
        nodes := nodes + [BlankNode(cb)];
      }
    }

    /** The part of `pj_dns_resolver_start_query` that looks in the cache. */
    method ConsultCache(key: Key, cb: Option<nat>, now: int) returns (hit: Option<nat>)
      requires nsCount <= ns.Length && Counted(hrescache)
      modifies this`hrescache
      ensures (hrescache, hit) == Lookup(old(hrescache), key, cb, now)
    {
      hit := None;
      var c := hrescache;
      if key in c.table {
        var id := c.table[key];
        var e := c.entries[id];
        if e.expiry > now {
          var h := c.nextHit;
          hrescache := c.(entries := c.entries[id := e.(refCnt := e.refCnt + 1)],
                          hits := c.hits[h := Hit(id, e.pkt, cb, false)], nextHit := h + 1);
          return Some(h);
        }
        hrescache := c.(table := c.table - {key});
        DropReference(id);
      }
    }

    /** The cache is consulted for a request that has just been numbered. */
    method BeginRequest(key: Key, cb: Option<nat>, now: int) returns (hit: Option<nat>)
      requires Laid() && Counted(hrescache) && cb == RequestOf(S(), cb.Some?)
      modifies this`hrescache, this`log, this`nextRequest
      ensures (S(), hit) == Consult(old(S()), key, cb.Some?, now)
    {
      hit := ConsultCache(key, cb, now);
      log := log + [LookedUp(key, now)];
      nextRequest := nextRequest + 1;
    }

    /** `--ref_cnt`, and `free_entry` when nobody is left. */
    method DropReference(id: nat)
      requires id in hrescache.entries && hrescache.entries[id].refCnt >= 1
      modifies this`hrescache
      ensures hrescache == old(hrescache).(entries := Release(old(hrescache.entries), id))
    {
      var e := hrescache.entries[id];
      e := e.(refCnt := e.refCnt - 1);
      if e.refCnt <= 0 {
        hrescache := hrescache.(entries := hrescache.entries - {id});
      } else {
        hrescache := hrescache.(entries := hrescache.entries[id := e]);
      }
    }

    /** A request for a query that is already pending. */
    method AddChild(parent: nat, cb: Option<nat>) returns (n: nat)
      requires nsCount <= ns.Length && parent < |nodes|
      requires queryFreeNodes != [] ==> queryFreeNodes[0] < |nodes|
      modifies this`nodes, this`queryFreeNodes, this`places
      ensures (S(), n) == Merge(old(S()), parent, cb)
    {
      n := AllocQnode(cb);
      nodes := LinkChild(nodes, parent, n);
      places := Place1(places, cb, AtNode(n));
    }

    /** A new parent gets its id and key, and is transmitted for the first time. */
    method SendNew(key: Key, cb: Option<nat>, net: Network, now: int) returns (n: nat, status: TransmitStatus)
      requires Laid()
      requires queryFreeNodes != [] ==> queryFreeNodes[0] < |nodes|
      modifies this`nodes, this`queryFreeNodes, this`lastId, this`timers, ns
      ensures (S(), n, status) == Prepare(cfg, old(S()), key, cb, net, now)
    {
      n := AllocQnode(cb);
      nodes := nodes[n := nodes[n].(id := lastId, key := key)];
      lastId := if lastId + 1 == 0x1_0000 then 1 else lastId + 1;
      status := TransmitQuery(n, net, now);
    }

    method DiscardParent(n: nat)
      requires Laid() && n < |nodes|
      modifies this`nodes, this`queryFreeNodes
      ensures S() == Discard(old(S()), n)
    {
      nodes := Recycle(nodes, [n]);
      queryFreeNodes := queryFreeNodes + [n];
    }

    method PublishParent(n: nat)
      requires Laid() && n < |nodes|
      modifies this`hqueryById, this`hqueryByRes, this`places
      ensures S() == Publish(old(S()), n)
    {
      hqueryById := hqueryById[nodes[n].id := n];
      hqueryByRes := hqueryByRes[nodes[n].key := n];
      places := Place1(places, nodes[n].cb, AtNode(n));
    }

    /** The tail of `pj_dns_resolver_start_query`: a new parent is sent and indexed. */
    method AddParent(key: Key, cb: Option<nat>, net: Network, now: int) returns (outcome: Outcome)
      requires Laid()
      requires queryFreeNodes != [] ==> queryFreeNodes[0] < |nodes|
      modifies this`nodes, this`queryFreeNodes, this`lastId, this`timers, this`hqueryById, this`hqueryByRes, this`places, ns
      ensures (S(), outcome) == Launch(cfg, old(S()), key, cb, net, now)
    {
      var n, status := SendNew(key, cb, net, now);
      if status != TxOk {
        DiscardParent(n);
        return Failed(status);
      }
      PublishParent(n);
      return Started(n);
    }

    /**
     * `pj_dns_resolver_start_query`, up to the unlocked callback of a cache hit. `cb` is the
     * token under which the caller's callback, if it has one, will be accounted for.
     */
    method StartQuery(name: Name, qtype: int, cb: Option<nat>, net: Network, now: int) returns (r: StartResult)
      requires Valid() && cb == RequestOf(S(), cb.Some?)
      requires 0 < qtype < 0xFFFF && 0 < |name| < PJ_MAX_HOSTNAME && Start(cfg, S(), ResKey(qtype, name), cb.Some?, net, now).1.Started? ==> lastId !in hqueryById
      modifies this, ns
      ensures Valid() && ns == old(ns)
      ensures r.Rejected? && !r.error.TransmitFailed? <==>
                qtype == 0 || |name| == 0 || |name| >= PJ_MAX_HOSTNAME || !(0 < qtype < 0xFFFF)
      ensures r.Rejected? && !r.error.TransmitFailed? ==>
                S() == old(S()) && (r.error.NameTooLong? <==> qtype != 0 && !(0 < |name| < PJ_MAX_HOSTNAME))
      ensures !(r.Rejected? && !r.error.TransmitFailed?) ==>
                var (t, outcome) := Start(cfg, old(S()), ResKey(qtype, name), cb.Some?, net, now);
                S() == t && r == if outcome.Failed? then Rejected(TransmitFailed(outcome.why)) else Accepted(outcome)
    {
      if qtype == 0 {
        return Rejected(InvalidArgument);
      }
      if !(|name| > 0 && |name| < PJ_MAX_HOSTNAME) {
        return Rejected(NameTooLong);
      }
      if !(qtype > 0 && qtype < 0xFFFF) {
        return Rejected(InvalidArgument);
      }
      var key := ResKey(qtype, name);
      NextInv(cfg, S(), DoStart(key, cb.Some?, net, now));
      Ready(cfg, S(), DoStart(key, cb.Some?, net, now));
      var outcome := Dispatch(key, cb, net, now);
      if outcome.Failed? {
        return Rejected(TransmitFailed(outcome.why));
      }
      return Accepted(outcome);
    }

    method Dispatch(key: Key, cb: Option<nat>, net: Network, now: int) returns (outcome: Outcome)
      requires Laid() && Counted(hrescache) && cb == RequestOf(S(), cb.Some?)
      requires queryFreeNodes != [] ==> queryFreeNodes[0] < |nodes|
      requires key in hqueryByRes ==> hqueryByRes[key] < |nodes|
      modifies this, ns
      ensures ns == old(ns) && Laid()
      ensures (S(), outcome) == Start(cfg, old(S()), key, cb.Some?, net, now)
    {
      var hit := BeginRequest(key, cb, now);
      if hit.Some? {
        places := Place1(places, cb, AtHit(hit.value));
        return FromCache(hit.value);
      }
      if key in hqueryByRes {
        var n := AddChild(hqueryByRes[key], cb);
        return Merged(n);
      }
      outcome := AddParent(key, cb, net, now);
    }

    /** The callback of a cache hit, made with the mutex released. */
    method RunHitCallback(h: nat)
      requires Laid() && h in hrescache.hits && hrescache.hits[h].entry in hrescache.entries
      modifies this
      ensures Laid() && ns == old(ns) && S() == InvokeHit(old(S()), h)
    {
      var hit := hrescache.hits[h];
      hrescache := hrescache.(hits := hrescache.hits[h := hit.(invoked := true)]);
      if hit.cb.Some? {
        var pkt := hrescache.entries[hit.entry].pkt;
        trace := trace + [Callback(hit.cb.value, StatusOf(pkt), Some(pkt))];
        places := places[hit.cb.value := Answered];
      }
    }

    /** The end of `pj_dns_resolver_start_query` on a cache hit. */
    method HitReturns(h: nat)
      requires Laid() && Counted(hrescache) && h in hrescache.hits
      modifies this
      ensures Laid() && ns == old(ns) && S() == ReturnHit(old(S()), h)
    {
      var id := hrescache.hits[h].entry;
      assert CountedAt(hrescache, id);
      DropReference(id);
      hrescache := hrescache.(hits := hrescache.hits - {h});
    }

    // ----- the response cache -----

    /** The key leaves the table, and its entry loses the table's reference. */
    method ClearKey(key: Key)
      requires Counted(hrescache)
      modifies this`hrescache
      ensures hrescache == Remove(old(hrescache), key)
    {
      if key in hrescache.table {
        var id := hrescache.table[key];
        assert CountedAt(hrescache, id);
        hrescache := hrescache.(table := hrescache.table - {key});
        DropReference(id);
      }
    }

    /** The computation of `ttl` in `update_res_cache`. */
    method ResponseTtl(status: Status, setExpiry: bool, pkt: Packet) returns (ttl: nat)
      ensures ttl == Ttl(status, setExpiry, pkt, cfg.cacheMaxTtl)
    {
      ttl := MAX_UINT32;
      if setExpiry {
        if |pkt.ans| == 0 || status != Success {
          ttl := INVALID_TTL;
        } else {
          var i := 0;
          while i < |pkt.ans|
            invariant i <= |pkt.ans|
            invariant ttl == SmallestTtl(pkt.ans[..i])
          {
            assert pkt.ans[..i + 1][..i] == pkt.ans[..i];
            if pkt.ans[i].ttl < ttl {
              ttl := pkt.ans[i].ttl;
            }
            i := i + 1;
          }
          assert pkt.ans[..i] == pkt.ans;
        }
      }
      if ttl > cfg.cacheMaxTtl {
        ttl := cfg.cacheMaxTtl;
      }
    }

    /** `update_res_cache`. */
    method UpdateResCache(key: Key, status: Status, setExpiry: bool, pkt: Packet, now: int)
      requires Counted(hrescache)
      modifies this`hrescache
      ensures hrescache == Update(old(hrescache), key, status, setExpiry, pkt, cfg.cacheMaxTtl, now)
    {
      if status != Success {
        RemoveCounted(hrescache, key);
        ClearKey(key);
      }
      var ttl := ResponseTtl(status, setExpiry, pkt);
      if ttl == 0 {
        ClearKey(key);
        return;
      }
      PutEntry(key, Dup(pkt), if setExpiry then now + 1000 * ttl else NEVER);
    }

    /** The last part of `update_res_cache`: reuse, replace or allocate the entry. */
    method PutEntry(key: Key, pkt: Packet, expiry: int)
      requires Counted(hrescache)
      modifies this`hrescache
      ensures hrescache == Store(old(hrescache), key, pkt, expiry)
    {
      var c := hrescache;
      var e := Entry(key, pkt, expiry, 1);
      if key in c.table {
        var id := c.table[key];
        assert CountedAt(c, id);
        if c.entries[id].refCnt <= 1 {
          hrescache := c.(entries := c.entries[id := e]);
          return;
        }
        DropReference(id);
        assert Remove(c, key).entries == hrescache.entries;
        assert (c.table - {key})[key := c.nextEntry] == c.table[key := c.nextEntry];
      }
      hrescache := hrescache.(table := hrescache.table[key := c.nextEntry],
                              entries := hrescache.entries[c.nextEntry := e],
                              nextEntry := c.nextEntry + 1);
    }

    // ----- the end of a query -----

    /** Both hash tables forget the query; the mutex is about to be released for its callbacks. */
    method TakeOut(n: nat, status: Status, pkt: Option<Packet>)
      requires nsCount <= ns.Length && n < |nodes|
      modifies this`hqueryById, this`hqueryByRes, this`completing
      ensures S() == Complete(old(S()), n, status, pkt)
    {
      hqueryById := hqueryById - {nodes[n].id};
      hqueryByRes := hqueryByRes - {nodes[n].key};
      completing := completing[n := Completion([n] + nodes[n].children, status, pkt)];
    }

    /** `on_timeout`, up to its callbacks. */
    method OnTimeout(n: nat, net: Network, now: int)
      requires Laid() && n < |nodes|
      modifies this, ns
      ensures Laid() && ns == old(ns) && S() == Timeout(cfg, old(S()), n, net, now)
    {
      if nodes[n].id !in hqueryById {
        return;
      }
      nodes := nodes[n := nodes[n].(timerId := 0)];
      timers := timers - {n};
      if nodes[n].transmitCnt < cfg.qretrCount {
        var status := TransmitQuery(n, net, now);
        if status == TxOk {
          return;
        }
      }
      TakeOut(n, TimedOut, None);
    }

    /** `on_read_complete`, up to its callbacks; `parsed` is what `pj_dns_parse_packet` made of the datagram. */
    method OnReadComplete(parsed: Option<Packet>, addr: nat, now: int)
      requires Laid() && (parsed.Some? && parsed.value.id in hqueryById ==> hqueryById[parsed.value.id] < |nodes|)
      modifies this, ns
      ensures Laid() && ns == old(ns)
      ensures S() == if parsed.Some? then Respond(cfg, old(S()), parsed.value, addr, now)
                     else Garbage(cfg, old(S()), addr, now)
    {
      ReportNameserverStatus(addr, parsed, now);
      if parsed.None? {
        return;
      }
      var id := parsed.value.id;
      if id !in hqueryById {
        return;
      }
      var n := hqueryById[id];
      timers := timers - {n};
      nodes := nodes[n := nodes[n].(timerId := 0)];
      TakeOut(n, StatusOf(parsed.value), parsed);
    }

    /** One callback of a completing query; the application may have edited the packet when it returns. */
    method NotifyNext(n: nat, edited: Packet)
      requires Laid() && n in completing && completing[n].todo != [] && completing[n].todo[0] < |nodes|
      modifies this
      ensures Laid() && ns == old(ns) && S() == InvokeNext(old(S()), n, Some(edited))
    {
      var c := completing[n];
      var cb := nodes[c.todo[0]].cb;
      var pkt := c.pkt;
      if cb.Some? {
        trace := trace + [Callback(cb.value, c.status, pkt)];
        places := places[cb.value := Answered];
        pkt := if pkt.Some? then Some(edited) else None;
      }
      completing := completing[n := Completion(c.todo[1..], c.status, pkt)];
    }

    /** The recycling loops of `on_timeout` and `on_read_complete`: the children, then the query. */
    method RecycleFamily(n: nat)
      requires n < |nodes| && forall c :: c in nodes[n].children ==> c < |nodes| && c != n
      modifies this`nodes, this`queryFreeNodes
      ensures nodes == Recycle(old(nodes), old(nodes[n].children) + [n])
      ensures queryFreeNodes == old(queryFreeNodes) + old(nodes[n].children) + [n]
    {
      var kids := nodes[n].children;
      var i := 0;
      while i < |kids|
        invariant i <= |kids|
        invariant nodes == Recycle(old(nodes), kids[..i])
        invariant queryFreeNodes == old(queryFreeNodes) + kids[..i]
      {
        var c := kids[i];
        assert c in kids && kids[..i + 1] == kids[..i] + [c];
        queryFreeNodes := queryFreeNodes + [c];
        nodes := nodes[c := nodes[c].(link := InFree)];
        i := i + 1;
      }
      assert kids[..i] == kids;
      queryFreeNodes := queryFreeNodes + [n];
      nodes := nodes[n := nodes[n].(link := InFree)];
    }

    /** A response, not a timeout, goes to the cache. */
    method SaveResponse(n: nat, now: int)
      requires Laid() && Counted(hrescache) && n in completing && n < |nodes|
      modifies this`hrescache, this`log
      ensures var c, key := completing[n], nodes[n].key;
              S() == if c.pkt.None? then old(S())
                     else old(S()).(cache := Update(old(hrescache), key, c.status, true, c.pkt.value, cfg.cacheMaxTtl, now),
                                    log := old(log) + [Stored(key, now, c.status, true, c.pkt.value, cfg.cacheMaxTtl)])
    {
      var c := completing[n];
      if c.pkt.Some? {
        UpdateResCache(nodes[n].key, c.status, true, c.pkt.value, now);
        log := log + [Stored(nodes[n].key, now, c.status, true, c.pkt.value, cfg.cacheMaxTtl)];
      }
    }

    /** The second locked region of `on_timeout` and of `on_read_complete`. */
    method FinishQuery(n: nat, now: int)
      requires Laid() && Counted(hrescache) && n in completing && completing[n].todo == [] && n < |nodes|
      requires forall c :: c in nodes[n].children ==> c < |nodes| && c != n
      modifies this
      ensures Laid() && ns == old(ns) && S() == Finish(cfg, old(S()), n, now)
    {
      SaveResponse(n, now);
      ReleaseFamily(n);
    }

    /** The query and its children are put on the free list, and the query is no longer completing. */
    method ReleaseFamily(n: nat)
      requires Laid() && n < |nodes| && forall c :: c in nodes[n].children ==> c < |nodes| && c != n
      modifies this`nodes, this`queryFreeNodes, this`completing
      ensures nodes == Recycle(old(nodes)[n := old(nodes)[n].(timerId := 0)], old(nodes)[n].children + [n])
      ensures queryFreeNodes == old(queryFreeNodes) + old(nodes)[n].children + [n]
      ensures completing == old(completing) - {n}
    {
      ghost var kids := nodes[n].children;
      nodes := nodes[n := nodes[n].(timerId := 0)];
      assert nodes[n].children == kids;
      RecycleFamily(n);
      completing := completing - {n};
    }

    // ----- the application's other calls -----

    /** `pj_dns_resolver_cancel_query`. */
    method CancelQuery(n: nat, notify: bool)
      requires Laid() && n < |nodes| && nodes[n].cb.Some?
      modifies this
      ensures Laid() && ns == old(ns) && S() == Cancel(old(S()), n, notify)
    {
      var cb := nodes[n].cb;
      nodes := nodes[n := nodes[n].(cb := None)];
      if notify {
        trace := trace + [Callback(cb.value, Canceled, None)];
        places := places[cb.value := Answered];
      } else {
        places := places[cb.value := Silenced];
      }
    }

    /** `pj_dns_resolver_add_entry`; `held` tells whether it returns with the mutex still locked. */
    method AddCacheEntry(pkt: Packet, setTtl: bool, now: int) returns (error: Option<AddError>, held: bool)
      requires Laid() && Counted(hrescache)
      modifies this
      ensures Laid() && ns == old(ns)
      ensures error == AddCheck(pkt) && (held <==> error == Some(KeyTooLong))
      ensures S() == if error.Some? then old(S()) else AddEntry(cfg, old(S()), AddKey(pkt), pkt, setTtl, now)
    {
      if !IsResponse(pkt) {
        return Some(NotAResponse), false;
      }
      if |pkt.ans| == 0 && |pkt.q| == 0 {
        return Some(NoAnswerRecord), false;
      }
      var name, qtype;
      if |pkt.ans| != 0 {
        name, qtype := pkt.ans[0].name, pkt.ans[0].rtype;
      } else {
        name, qtype := pkt.q[0].name, pkt.q[0].qtype;
      }
      if !(|name| < PJ_MAX_HOSTNAME) {
        return Some(KeyTooLong), true;
      }
      var key := ResKey(qtype, name);
      InsertEntry(key, pkt, setTtl, now);
      return None, false;
    }

    method InsertEntry(key: Key, pkt: Packet, setTtl: bool, now: int)
      requires Laid() && Counted(hrescache)
      modifies this`hrescache, this`log
      ensures S() == AddEntry(cfg, old(S()), key, pkt, setTtl, now)
    {
      UpdateResCache(key, Success, setTtl, pkt, now);
      log := log + [Stored(key, now, Success, setTtl, pkt, cfg.cacheMaxTtl)];
    }

    // ----- the object is the transition system -----

    /**
     * Each step of the transition system is one call of the object, with the same effect; so every
     * sequence of calls is a run, and keeps what every run keeps. `cb` names the request of a start.
     */
    method Perform(step: Step, cb: Option<nat>)
      requires Valid() && Enabled(cfg, S(), step) && (step.DoStart? ==> cb == RequestOf(S(), step.hasCb))
      modifies this, ns
      ensures Valid() && ns == old(ns) && S() == Next(cfg, old(S()), step)
    {
      ghost var before := S();
      assert Inv(cfg, before);
      Act(step, cb);
      NextInv(cfg, before, step);
    }

    method Act(step: Step, cb: Option<nat>)
      requires Valid() && Enabled(cfg, S(), step) && (step.DoStart? ==> cb == RequestOf(S(), step.hasCb))
      modifies this, ns
      ensures Laid() && ns == old(ns) && S() == Next(cfg, old(S()), step)
    {
      Ready(cfg, S(), step);
      match step
      case DoStart(key, _, net, now) => var _ := Dispatch(key, cb, net, now);
      case DoInvokeHit(h) => RunHitCallback(h);
      case DoReturnHit(h) => HitReturns(h);
      case DoTimeout(n, net, now) => OnTimeout(n, net, now);
      case DoRespond(pkt, addr, now) => OnReadComplete(Some(pkt), addr, now);
      case DoGarbage(addr, now) => OnReadComplete(None, addr, now);
      case DoInvokeNext(n, edited) => NotifyNext(n, edited);
      case DoFinish(n, now) => FinishQuery(n, now);
      case DoCancel(n, notify) => CancelQuery(n, notify);
      case DoAddEntry(key, pkt, setTtl, now) => InsertEntry(key, pkt, setTtl, now);
    }
  }
}
