/**
 * The asynchronous resolver as a transition system. Every step is one region the resolver runs
 * with its mutex held, or one application callback it makes with the mutex released.
 */
module ResolverSteps {
  import opened Bytes
  import opened DnsPackets
  import opened ResponseCache
  import opened Nameservers

  /** The list a node is linked into (its PJ_DECL_LIST_MEMBER pointers). */
  datatype Link = Unlinked | InFree | ChildOf(parent: nat)

  /** struct pj_dns_async_query; `cb` names the request whose callback the node carries. */
  datatype Node = Node(
    id: nat,
    transmitCnt: nat,
    key: Key,
    timerId: nat,
    cb: Option<nat>,
    children: seq<nat>,
    link: Link)

  /** A query taken out of the hash tables whose callbacks are being made. */
  datatype Completion = Completion(todo: seq<nat>, status: Status, pkt: Option<Packet>)

  /** One invocation of an application callback. */
  datatype Callback = Callback(request: nat, status: Status, pkt: Option<Packet>)

  /** Where the answer to an accepted request is to come from, or went. */
  datatype Place = AtNode(node: nat) | AtHit(hit: nat) | Answered | Silenced

  datatype State = State(
    nodes: seq<Node>,
    free: seq<nat>,
    byId: map<nat, nat>,
    byRes: map<Key, nat>,
    timers: set<nat>,
    lastId: nat,
    ns: seq<NameServer>,
    cache: Cache,
    completing: map<nat, Completion>,
    // history
    trace: seq<Callback>,
    places: map<nat, Place>,
    nextRequest: nat,
    log: seq<CacheEvent>)

  /** What the timer heap, the socket and the packet builder did during a transmission. */
  datatype Network = Network(scheduled: bool, busy: bool, built: bool)

  datatype TransmitStatus = TxOk | TxNoNameserver | TxNoWorkingNameserver | TxScheduleFailed | TxBuildFailed

  datatype Outcome = FromCache(hit: nat) | Merged(child: nat) | Started(query: nat) | Failed(why: TransmitStatus)

  const NO_KEY := Key(0, [])

  function InitState(ns: seq<NameServer>): State {
    State([], [], map[], map[], {}, 1, ns, EMPTY_CACHE, map[], [], map[], 0, [])
  }

  // ----- nodes -----

  function BlankNode(cb: Option<nat>): Node {
    Node(0, 0, NO_KEY, 0, cb, [], Unlinked)
  }

  /** pj_list_push_back of each node to the free list. */
  function Recycle(nodes: seq<Node>, list: seq<nat>): (r: seq<Node>)
    ensures |r| == |nodes|
  {
    seq(|nodes|, i requires 0 <= i < |nodes| => if i in list then nodes[i].(link := InFree) else nodes[i])
  }

  function NextId(id: nat): nat {
    if id + 1 == 0x1_0000 then 1 else id + 1
  }

  // ----- transmission -----

  /** `transmit_query`. */
  function Transmit(cfg: Settings, s: State, n: nat, net: Network, now: int): (r: (State, TransmitStatus))
    requires n < |s.nodes|
    ensures r.0 == s.(ns := r.0.ns, nodes := r.0.nodes, timers := r.0.timers) && |r.0.nodes| == |s.nodes|
  {
    if s.ns == [] then (s, TxNoNameserver)
    else
      var (servers, after) := Select(cfg, s.ns, now);
      var s1 := s.(ns := after);
      if servers == [] then (s1, TxNoWorkingNameserver)
      else
        var q := s.nodes[n];
        var armed := s1.(nodes := s.nodes[n := q.(timerId := 1)]);
        if !net.scheduled then (armed, TxScheduleFailed)
        else
          var counted := s1.(nodes := s.nodes[n := q.(timerId := 1, transmitCnt := q.transmitCnt + 1)],
                             timers := s.timers + {n});
          if net.busy then (counted, TxOk)
          else if !net.built then (armed.(timers := s.timers - {n}), TxBuildFailed)
          else (counted.(ns := MarkSent(after, servers, |servers|, q.id, now)), TxOk)
  }

  // ----- starting a query -----

  function Place1(places: map<nat, Place>, cb: Option<nat>, place: Place): map<nat, Place> {
    if cb.Some? then places[cb.value := place] else places
  }

  /** pj_list_push_back of node n to the children of p. */
  function LinkChild(nodes: seq<Node>, p: nat, n: nat): (r: seq<Node>)
    requires p < |nodes| && n < |nodes|
    ensures |r| == |nodes|
  {
    var linked := nodes[n := nodes[n].(link := ChildOf(p))];
    linked[p := linked[p].(children := linked[p].children + [n])]
  }

  /** The node list and free list after `alloc_qnode`: the oldest free node wiped, or a new one. */
  function AllocNode(nodes: seq<Node>, free: seq<nat>, cb: Option<nat>): (r: (seq<Node>, seq<nat>, nat))
    ensures r.2 < |r.0| && |nodes| <= |r.0|
  {
    if free != [] && free[0] < |nodes| then (nodes[free[0] := BlankNode(cb)], free[1..], free[0])
    else (nodes + [BlankNode(cb)], free, |nodes|)
  }

  /** `alloc_qnode`. */
  function Alloc(s: State, cb: Option<nat>): (r: (State, nat))
    ensures r.1 < |r.0.nodes| && |s.nodes| <= |r.0.nodes|
  {
    var (nodes, free, n) := AllocNode(s.nodes, s.free, cb);
    (s.(nodes := nodes, free := free), n)
  }

  /** A duplicate request becomes a child of the pending query. */
  function Merge(s: State, parent: nat, cb: Option<nat>): (r: (State, nat))
    requires parent < |s.nodes|
    ensures r.0 == s.(nodes := r.0.nodes, free := r.0.free, places := Place1(s.places, cb, AtNode(r.1)))
  {
    var (s1, n) := Alloc(s, cb);
    (s1.(nodes := LinkChild(s1.nodes, parent, n), places := Place1(s.places, cb, AtNode(n))), n)
  }

  /** A new parent, up to and including its first transmission. */
  function Prepare(cfg: Settings, s: State, key: Key, cb: Option<nat>, net: Network, now: int): (r: (State, nat, TransmitStatus))
    ensures r.0 == s.(nodes := r.0.nodes, free := r.0.free, lastId := NextId(s.lastId), ns := r.0.ns, timers := r.0.timers)
    ensures r.1 < |r.0.nodes|
  {
    var (s1, n) := Alloc(s, cb);
    var s2 := s1.(nodes := s1.nodes[n := s1.nodes[n].(id := s.lastId, key := key)], lastId := NextId(s.lastId));
    var (s3, status) := Transmit(cfg, s2, n, net, now);
    (s3, n, status)
  }

  /** Both indices point at the new parent. */
  function Publish(s: State, n: nat): State
    requires n < |s.nodes|
  {
    var q := s.nodes[n];
    s.(byId := s.byId[q.id := n], byRes := s.byRes[q.key := n], places := Place1(s.places, q.cb, AtNode(n)))
  }

  /** A parent whose first transmission failed goes straight back to the free list. */
  function Discard(s: State, n: nat): State {
    s.(nodes := Recycle(s.nodes, [n]), free := s.free + [n])
  }

  function Launch(cfg: Settings, s: State, key: Key, cb: Option<nat>, net: Network, now: int): (r: (State, Outcome))
    ensures r.0 == s.(nodes := r.0.nodes, free := r.0.free, lastId := NextId(s.lastId), ns := r.0.ns,
                      timers := r.0.timers, byId := r.0.byId, byRes := r.0.byRes, places := r.0.places)
  {
    var (s1, n, status) := Prepare(cfg, s, key, cb, net, now);
    if status == TxOk then (Publish(s1, n), Started(n)) else (Discard(s1, n), Failed(status))
  }

  /** The request is merged with the pending query for its key, or starts one. */
  function Enqueue(cfg: Settings, s: State, key: Key, cb: Option<nat>, net: Network, now: int): (r: (State, Outcome))
    ensures r.0 == s.(nodes := r.0.nodes, free := r.0.free, lastId := r.0.lastId, ns := r.0.ns,
                      timers := r.0.timers, byId := r.0.byId, byRes := r.0.byRes, places := r.0.places)
  {
    if key in s.byRes && s.byRes[key] < |s.nodes| then
      var (s1, n) := Merge(s, s.byRes[key], cb);
      (s1, Merged(n))
    else Launch(cfg, s, key, cb, net, now)
  }

  function RequestOf(s: State, hasCb: bool): Option<nat> {
    if hasCb then Some(s.nextRequest) else None
  }

  /** The cache is consulted for a new request. */
  function Consult(s: State, key: Key, hasCb: bool, now: int): (r: (State, Option<nat>))
    ensures r.0 == s.(cache := r.0.cache, log := s.log + [LookedUp(key, now)], nextRequest := s.nextRequest + 1)
    ensures (r.0.cache, r.1) == Lookup(s.cache, key, RequestOf(s, hasCb), now)
  {
    var (cache, hit) := Lookup(s.cache, key, RequestOf(s, hasCb), now);
    (s.(cache := cache, log := s.log + [LookedUp(key, now)], nextRequest := s.nextRequest + 1), hit)
  }

  /** The first locked region of `pj_dns_resolver_start_query`, its arguments being valid. */
  function Start(cfg: Settings, s: State, key: Key, hasCb: bool, net: Network, now: int): (r: (State, Outcome))
    ensures r.0.cache == Consult(s, key, hasCb, now).0.cache && r.0.log == s.log + [LookedUp(key, now)]
    ensures r.0.nextRequest == s.nextRequest + 1
  {
    var cb := RequestOf(s, hasCb);
    var (s1, hit) := Consult(s, key, hasCb, now);
    if hit.Some? then (s1.(places := Place1(s.places, cb, AtHit(hit.value))), FromCache(hit.value))
    else Enqueue(cfg, s1, key, cb, net, now)
  }

  // ----- the rest of a cache hit -----

  /** The hit's callback, made with the mutex released on the packet its entry holds now. */
  function InvokeHit(s: State, h: nat): State
    requires h in s.cache.hits && s.cache.hits[h].entry in s.cache.entries
  {
    var hit, pkt := s.cache.hits[h], s.cache.entries[s.cache.hits[h].entry].pkt;
    var s1 := s.(cache := Invoke(s.cache, h));
    if hit.cb.Some? then
      s1.(trace := s.trace + [Callback(hit.cb.value, StatusOf(pkt), Some(pkt))],
          places := s.places[hit.cb.value := Answered])
    else s1
  }

  function ReturnHit(s: State, h: nat): State
    requires h in s.cache.hits
  {
    s.(cache := Return(s.cache, h))
  }

  // ----- completing a query -----

  /** Both indices forget the query; its callbacks are about to be made. */
  function Complete(s: State, n: nat, status: Status, pkt: Option<Packet>): State
    requires n < |s.nodes|
  {
    var q := s.nodes[n];
    s.(byId := s.byId - {q.id}, byRes := s.byRes - {q.key},
       completing := s.completing[n := Completion([n] + q.children, status, pkt)])
  }

  function Disarm(s: State, n: nat): State
    requires n < |s.nodes|
  {
    s.(nodes := s.nodes[n := s.nodes[n].(timerId := 0)], timers := s.timers - {n})
  }

  /** The first locked region of `on_timeout`. */
  function Timeout(cfg: Settings, s: State, n: nat, net: Network, now: int): (t: State)
    requires n < |s.nodes|
    ensures t == s.(nodes := t.nodes, ns := t.ns, timers := t.timers, byId := t.byId, byRes := t.byRes,
                    completing := t.completing)
  {
    if s.nodes[n].id !in s.byId then s
    else
      var s1 := Disarm(s, n);
      if s.nodes[n].transmitCnt < cfg.qretrCount then
        var (s2, status) := Transmit(cfg, s1, n, net, now);
        if status == TxOk then s2 else Complete(s2, n, TimedOut, None)
      else Complete(s1, n, TimedOut, None)
  }

  /** The first locked region of `on_read_complete`, for a packet that parsed. */
  function Respond(cfg: Settings, s: State, pkt: Packet, addr: nat, now: int): (t: State)
    ensures t == s.(nodes := t.nodes, ns := t.ns, timers := t.timers, byId := t.byId, byRes := t.byRes,
                    completing := t.completing)
  {
    var s1 := s.(ns := Report(cfg, s.ns, 0, addr, Some(pkt), now));
    if pkt.id in s.byId && s.byId[pkt.id] < |s.nodes| then
      var n := s.byId[pkt.id];
      Complete(Disarm(s1, n), n, StatusOf(pkt), Some(pkt))
    else s1
  }

  /** A packet that did not parse only counts against its server. */
  function Garbage(cfg: Settings, s: State, addr: nat, now: int): State {
    s.(ns := Report(cfg, s.ns, 0, addr, None, now))
  }

  /** The next callback of a completing query; the application may edit the response it is shown. */
  function InvokeNext(s: State, n: nat, edited: Option<Packet>): State
    requires n in s.completing && s.completing[n].todo != [] && s.completing[n].todo[0] < |s.nodes|
  {
    var c := s.completing[n];
    var cb := s.nodes[c.todo[0]].cb;
    var s1 := s.(completing := s.completing[n := Completion(c.todo[1..], c.status, if c.pkt.Some? then edited else None)]);
    if cb.Some? then
      s1.(trace := s.trace + [Callback(cb.value, c.status, c.pkt)], places := s.places[cb.value := Answered])
    else s.(completing := s.completing[n := Completion(c.todo[1..], c.status, c.pkt)])
  }

  /** The second locked region of both `on_timeout` and `on_read_complete`. */
  function Finish(cfg: Settings, s: State, n: nat, now: int): State
    requires n in s.completing && n < |s.nodes|
  {
    var c, q := s.completing[n], s.nodes[n];
    var s1 :=
      if c.pkt.Some? then
        s.(cache := Update(s.cache, q.key, c.status, true, c.pkt.value, cfg.cacheMaxTtl, now),
           log := s.log + [Stored(q.key, now, c.status, true, c.pkt.value, cfg.cacheMaxTtl)])
      else s;
    s1.(nodes := Recycle(s.nodes[n := q.(timerId := 0)], q.children + [n]),
        free := s.free + q.children + [n],
        completing := s.completing - {n})
  }

  // ----- the application's other calls -----

  /** `pj_dns_resolver_cancel_query`. */
  function Cancel(s: State, n: nat, notify: bool): State
    requires n < |s.nodes|
  {
    var cb := s.nodes[n].cb;
    var s1 := s.(nodes := s.nodes[n := s.nodes[n].(cb := None)]);
    if cb.None? then s1
    else if notify then
      s1.(trace := s.trace + [Callback(cb.value, Canceled, None)], places := s.places[cb.value := Answered])
    else s1.(places := s.places[cb.value := Silenced])
  }

  /** `pj_dns_resolver_add_entry`, past its argument checks. */
  function AddEntry(cfg: Settings, s: State, key: Key, pkt: Packet, setTtl: bool, now: int): State {
    s.(cache := Update(s.cache, key, Success, setTtl, pkt, cfg.cacheMaxTtl, now),
       log := s.log + [Stored(key, now, Success, setTtl, pkt, cfg.cacheMaxTtl)])
  }

  // ----- steps and runs -----

  datatype Step =
    | DoStart(key: Key, hasCb: bool, net: Network, now: int)
    | DoInvokeHit(h: nat)
    | DoReturnHit(h: nat)
    | DoTimeout(n: nat, net: Network, now: int)
    | DoRespond(pkt: Packet, addr: nat, now: int)
    | DoGarbage(addr: nat, now: int)
    | DoInvokeNext(n: nat, edited: Packet)
    | DoFinish(n: nat, now: int)
    | DoCancel(n: nat, notify: bool)
    | DoAddEntry(key: Key, pkt: Packet, setTtl: bool, now: int)

  predicate Pending(s: State, n: nat) {
    n < |s.nodes| && s.nodes[n].id in s.byId && s.byId[s.nodes[n].id] == n
  }

  /**
   * When a step may happen. The assumptions beyond the resolver's own control flow are that a
   * timer fires only while armed (or finds its query gone), that an application cancels only a
   * query it has pending and has not cancelled before, and that a new parent is not published under
   * a transaction id still in use.
   */
  predicate Enabled(cfg: Settings, s: State, step: Step) {
    match step
    case DoStart(key, hasCb, net, now) => Start(cfg, s, key, hasCb, net, now).1.Started? ==> s.lastId !in s.byId
    case DoInvokeHit(h) => h in s.cache.hits && !s.cache.hits[h].invoked && s.cache.hits[h].entry in s.cache.entries
    case DoReturnHit(h) => h in s.cache.hits && s.cache.hits[h].invoked
    case DoTimeout(n, _, _) => n < |s.nodes| && (n in s.timers || s.nodes[n].id !in s.byId)
    case DoRespond(_, _, _) => true
    case DoGarbage(_, _) => true
    case DoInvokeNext(n, _) => n in s.completing && s.completing[n].todo != [] && s.completing[n].todo[0] < |s.nodes|
    case DoFinish(n, _) => n in s.completing && s.completing[n].todo == [] && n < |s.nodes|
    case DoCancel(n, _) => Pending(s, n) && s.nodes[n].cb.Some?
    case DoAddEntry(_, _, _, _) => true
  }

  function Next(cfg: Settings, s: State, step: Step): State
    requires Enabled(cfg, s, step)
  {
    match step
    case DoStart(key, hasCb, net, now) => Start(cfg, s, key, hasCb, net, now).0
    case DoInvokeHit(h) => InvokeHit(s, h)
    case DoReturnHit(h) => ReturnHit(s, h)
    case DoTimeout(n, net, now) => Timeout(cfg, s, n, net, now)
    case DoRespond(pkt, addr, now) => Respond(cfg, s, pkt, addr, now)
    case DoGarbage(addr, now) => Garbage(cfg, s, addr, now)
    case DoInvokeNext(n, edited) => InvokeNext(s, n, Some(edited))
    case DoFinish(n, now) => Finish(cfg, s, n, now)
    case DoCancel(n, notify) => Cancel(s, n, notify)
    case DoAddEntry(key, pkt, setTtl, now) => AddEntry(cfg, s, key, pkt, setTtl, now)
  }

  /** Every step of the run is possible when its turn comes. */
  predicate Runs(cfg: Settings, s: State, steps: seq<Step>)
    decreases |steps|
  {
    steps == [] || (Enabled(cfg, s, steps[0]) && Runs(cfg, Next(cfg, s, steps[0]), steps[1..]))
  }

  function After(cfg: Settings, s: State, steps: seq<Step>): State
    requires Runs(cfg, s, steps)
    decreases |steps|
  {
    if steps == [] then s else After(cfg, Next(cfg, s, steps[0]), steps[1..])
  }
}
