/** What holds of every run of the resolver. */
module ResolverRuns {
  import opened Bytes
  import opened DnsPackets
  import opened ResponseCache
  import opened Nameservers
  import opened ResolverSteps
  import opened ResolverShape
  import opened ResolverTimers
  import opened ResolverAnswers

  ghost predicate Inv(cfg: Settings, s: State) {
    Shape(s) && TimersOk(cfg, s) && AnswersOk(s) && CacheOk(s)
  }

  lemma InitInv(cfg: Settings, ns: seq<NameServer>)
    ensures Inv(cfg, InitState(ns))
  {
  }

  ghost predicate CacheOk(s: State) {
    Counted(s.cache) && Refines(s.cache, s.log)
  }

  lemma StartCacheOk(cfg: Settings, s: State, key: Key, hasCb: bool, net: Network, now: int)
    requires CacheOk(s)
    ensures CacheOk(Start(cfg, s, key, hasCb, net, now).0)
  {
    var cb := RequestOf(s, hasCb);
    LookupCounted(s.cache, key, cb, now);
    LookupRefines(s.cache, s.log, key, cb, now);
  }

  lemma FinishCacheOk(cfg: Settings, s: State, n: nat, now: int)
    requires CacheOk(s) && n in s.completing && n < |s.nodes|
    ensures CacheOk(Finish(cfg, s, n, now))
  {
    var c, key := s.completing[n], s.nodes[n].key;
    if c.pkt.Some? {
      UpdateCounted(s.cache, key, c.status, true, c.pkt.value, cfg.cacheMaxTtl, now);
      UpdateRefines(s.cache, s.log, key, c.status, true, c.pkt.value, cfg.cacheMaxTtl, now);
    }
  }

  lemma AddEntryCacheOk(cfg: Settings, s: State, key: Key, pkt: Packet, setTtl: bool, now: int)
    requires CacheOk(s)
    ensures CacheOk(AddEntry(cfg, s, key, pkt, setTtl, now))
  {
    UpdateCounted(s.cache, key, Success, setTtl, pkt, cfg.cacheMaxTtl, now);
    UpdateRefines(s.cache, s.log, key, Success, setTtl, pkt, cfg.cacheMaxTtl, now);
  }

  lemma HitCacheOk(s: State, h: nat)
    requires CacheOk(s) && h in s.cache.hits
    ensures CacheOk(ReturnHit(s, h)) && CacheOk(InvokeHit(s, h))
  {
    InvokeCounted(s.cache, h);
    ReturnCounted(s.cache, h);
    ReturnRefines(s.cache, s.log, h);
  }

  lemma NextCache(cfg: Settings, s: State, step: Step)
    requires CacheOk(s) && Enabled(cfg, s, step)
    ensures CacheOk(Next(cfg, s, step))
  {
    match step
    case DoStart(key, hasCb, net, now) => StartCacheOk(cfg, s, key, hasCb, net, now);
    case DoInvokeHit(h) => HitCacheOk(s, h);
    case DoReturnHit(h) => HitCacheOk(s, h);
    case DoFinish(n, now) => FinishCacheOk(cfg, s, n, now);
    case DoAddEntry(key, pkt, setTtl, now) => AddEntryCacheOk(cfg, s, key, pkt, setTtl, now);
    case _ =>
  }

  lemma NextInv(cfg: Settings, s: State, step: Step)
    requires Inv(cfg, s) && Enabled(cfg, s, step)
    ensures Inv(cfg, Next(cfg, s, step))
  {
    NextShape(cfg, s, step);
    NextTimers(cfg, s, step);
    NextAnswers(cfg, s, step);
    NextCache(cfg, s, step);
  }

  /** Every reachable state satisfies the invariant. */
  lemma {:induction false} RunInv(cfg: Settings, s: State, steps: seq<Step>)
    requires Inv(cfg, s) && Runs(cfg, s, steps)
    ensures Inv(cfg, After(cfg, s, steps))
    decreases |steps|
  {
    if steps != [] {
      NextInv(cfg, s, steps[0]);
      RunInv(cfg, Next(cfg, s, steps[0]), steps[1..]);
    }
  }

  // ----- every accepted request is answered once -----

  /** Nothing is pending, completing or between the two regions of a cache hit. */
  predicate Quiescent(s: State) {
    s.byId == map[] && s.completing == map[] && s.cache.hits == map[]
  }

  /** Requests with a callback that `pj_dns_resolver_start_query` accepted. */
  function Accepted(s: State): set<nat> {
    s.places.Keys
  }

  /**
   * In every run no callback is ever made twice; and once nothing is in flight, each accepted
   * request has had its callback exactly once, unless it was cancelled without notification, in
   * which case never.
   */
  lemma AnsweredExactlyOnce(cfg: Settings, ns: seq<NameServer>, steps: seq<Step>)
    requires Runs(cfg, InitState(ns), steps)
    ensures var t := After(cfg, InitState(ns), steps);
            && (forall r :: Answers(t.trace, r) <= if r in Accepted(t) then 1 else 0)
            && (Quiescent(t) ==> forall r :: r in Accepted(t) ==>
                  Answers(t.trace, r) == if t.places[r] == Silenced then 0 else 1)
  {
    InitInv(cfg, ns);
    RunInv(cfg, InitState(ns), steps);
    var t := After(cfg, InitState(ns), steps);
    if Quiescent(t) {
      forall r | r in Accepted(t) ensures t.places[r] == Answered || t.places[r] == Silenced {
        assert t.places[r].AtNode? ==> Waiting(t.nodes, t.byId, t.completing, t.places[r].node);
      }
    }
  }

  lemma PreparedCallback(cfg: Settings, s: State, key: Key, cb: Option<nat>, net: Network, now: int)
    ensures var (t, n, status) := Prepare(cfg, s, key, cb, net, now);
            t.nodes[n].cb == cb
  {
  }

  lemma LaunchPlaces(cfg: Settings, s: State, key: Key, cb: Option<nat>, net: Network, now: int)
    ensures var (t, outcome) := Launch(cfg, s, key, cb, net, now);
            t.places == if outcome.Failed? then s.places else Place1(s.places, cb, AtNode(outcome.query))
    ensures !Launch(cfg, s, key, cb, net, now).1.Failed? ==> Launch(cfg, s, key, cb, net, now).1.Started?
  {
    PreparedCallback(cfg, s, key, cb, net, now);
  }

  lemma EnqueuePlaces(cfg: Settings, s: State, key: Key, cb: Option<nat>, net: Network, now: int)
    ensures var (t, outcome) := Enqueue(cfg, s, key, cb, net, now);
            && (outcome.Failed? ==> t.places == s.places)
            && (!outcome.Failed? ==> exists place :: t.places == Place1(s.places, cb, place))
  {
    LaunchPlaces(cfg, s, key, cb, net, now);
  }

  /** A request enters the account exactly when it has a callback and starting it did not fail. */
  lemma AcceptedWhenStarted(cfg: Settings, s: State, key: Key, hasCb: bool, net: Network, now: int)
    requires AnswersOk(s)
    ensures var (t, outcome) := Start(cfg, s, key, hasCb, net, now);
            && s.nextRequest !in Accepted(s)
            && Accepted(t) == Accepted(s) + (if hasCb && !outcome.Failed? then {s.nextRequest} else {})
            && forall r :: r in Accepted(s) ==> t.places[r] == s.places[r]
  {
    EnqueuePlaces(cfg, Consult(s, key, hasCb, now).0, key, RequestOf(s, hasCb), net, now);
  }

  /** Only cancelling a request itself, without notification, silences it; no step forgets one. */
  lemma SilencedOnlyByCancel(cfg: Settings, s: State, step: Step, r: nat)
    requires Shape(s) && AnswersOk(s) && Enabled(cfg, s, step) && r in Accepted(s)
    ensures var t := Next(cfg, s, step);
            && r in Accepted(t)
            && (t.places[r] == Silenced <==>
                  s.places[r] == Silenced || (step.DoCancel? && !step.notify && s.places[r] == AtNode(step.n)))
  {
    if step.DoStart? {
      AcceptedWhenStarted(cfg, s, step.key, step.hasCb, step.net, step.now);
    } else if step.DoInvokeNext? {
      InvokeNextPlaces(s, step.n, step.edited, r);
    } else if step.DoCancel? {
      CancelPlaces(s, step.n, step.notify, r);
    } else if step.DoInvokeHit? {
      InvokeHitPlaces(s, step.h, r);
    } else {
      OtherPlaces(cfg, s, step);
    }
  }

  lemma InvokeHitPlaces(s: State, h: nat, r: nat)
    requires AnswersOk(s) && h in s.cache.hits && !s.cache.hits[h].invoked && s.cache.hits[h].entry in s.cache.entries
    requires r in s.places
    ensures var t := InvokeHit(s, h);
            r in t.places && (t.places[r] == Silenced <==> s.places[r] == Silenced)
  {
  }

  lemma OtherPlaces(cfg: Settings, s: State, step: Step)
    requires Enabled(cfg, s, step) && !step.DoStart? && !step.DoInvokeNext? && !step.DoCancel? && !step.DoInvokeHit?
    ensures Next(cfg, s, step).places == s.places
  {
  }

  lemma InvokeNextPlaces(s: State, n: nat, edited: Packet, r: nat)
    requires Shape(s) && AnswersOk(s) && n in s.completing && s.completing[n].todo != []
    requires s.completing[n].todo[0] < |s.nodes| && r in s.places
    ensures var t := InvokeNext(s, n, Some(edited));
            r in t.places && (t.places[r] == Silenced <==> s.places[r] == Silenced)
  {
    var m := s.completing[n].todo[0];
    NextWaits(s, n);
    assert s.nodes[m].cb.Some? ==> s.places[s.nodes[m].cb.value] == AtNode(m);
  }

  lemma NextWaits(s: State, n: nat)
    requires Shape(s) && n in s.completing && s.completing[n].todo != []
    ensures Waiting(s.nodes, s.byId, s.completing, s.completing[n].todo[0])
  {
    var c := s.completing[n];
    InvokedWaiting(s.nodes, s.byId, s.completing, n, Completion(c.todo[1..], c.status, c.pkt));
  }

  /** Cancelling moves the cancelled request alone; its merged children keep their places. */
  lemma CancelPlaces(s: State, n: nat, notify: bool, r: nat)
    requires Shape(s) && AnswersOk(s) && Pending(s, n) && s.nodes[n].cb.Some? && r in s.places
    ensures var t := Cancel(s, n, notify);
            && (s.places[r] == AtNode(n) <==> s.nodes[n].cb == Some(r))
            && t.places[r] == (if s.nodes[n].cb == Some(r) then (if notify then Answered else Silenced) else s.places[r])
  {
    assert PendingAt(s.nodes, s.byId, n) && s.nodes[n].link == Unlinked;
    assert Waiting(s.nodes, s.byId, s.completing, n);
  }

  // ----- nodes are conserved -----

  predicate IsChildOf(s: State, n: nat, p: nat) {
    p < |s.nodes| && (Pending(s, p) || p in s.completing) && n in s.nodes[p].children
  }

  /**
   * In every reachable state each node ever allocated is in exactly one place: on the free list,
   * a pending parent, completing, or the child of exactly one of those two.
   */
  lemma NodesConserved(cfg: Settings, s: State, n: nat)
    requires Inv(cfg, s) && n < |s.nodes|
    ensures n in s.free <==> !Pending(s, n) && n !in s.completing && !exists p :: IsChildOf(s, n, p)
    ensures Pending(s, n) ==> n !in s.completing && !exists p :: IsChildOf(s, n, p)
    ensures n in s.completing ==> !exists p :: IsChildOf(s, n, p)
    ensures forall p, p' :: IsChildOf(s, n, p) && IsChildOf(s, n, p') ==> p == p'
    ensures NoDup(s.free)
  {
    assert forall p: nat :: Pending(s, p) <==> PendingAt(s.nodes, s.byId, p);
    forall p | IsChildOf(s, n, p) ensures s.nodes[n].link == ChildOf(p) {
      assert KidsOk(s.nodes, p);
    }
    if s.nodes[n].link.ChildOf? {
      var p := s.nodes[n].link.parent;
      assert KidsOk(s.nodes, p);
      assert IsChildOf(s, n, p);
    }
  }

  /** The indices by id and by name and type hold the same parents, each under its own id and key. */
  lemma IndicesAgree(cfg: Settings, s: State)
    requires Inv(cfg, s)
    ensures s.byId.Values == s.byRes.Values == s.timers
    ensures forall n :: n in s.byId.Values ==>
              s.byId[s.nodes[n].id] == n && s.byRes[s.nodes[n].key] == n
    ensures forall m, n :: m in s.byId.Values && n in s.byId.Values && m != n ==>
              s.nodes[m].id != s.nodes[n].id && s.nodes[m].key != s.nodes[n].key
  {
    assert forall n :: n in s.byId.Values ==> s.byId[s.nodes[n].id] == n && s.byRes[s.nodes[n].key] == n;
    assert forall n :: n in s.byRes.Values ==> s.byId[s.nodes[n].id] == n && s.byRes[s.nodes[n].key] == n;
    forall n | n in s.timers ensures n in s.byId.Values {
      assert s.byId[s.nodes[n].id] == n;
    }
  }

  /**
   * The wrap-around of transaction ids: publishing a new parent keeps the two indices in
   * agreement exactly when the id it was given is not still in use.
   */
  lemma IndicesSurviveExactlyFreshId(s: State, n: nat)
    requires ShapeX(s, Some(n)) && n < |s.nodes| && 0 < s.nodes[n].id < 0x1_0000 && s.nodes[n].key !in s.byRes
    ensures var t := Publish(s, n);
            IndexOk(t.nodes, t.byId, t.byRes) <==> s.nodes[n].id !in s.byId
  {
    if s.nodes[n].id in s.byId {
      var m := s.byId[s.nodes[n].id];
      var t := Publish(s, n);
      assert m != n && s.byRes[s.nodes[m].key] == m;
      assert s.nodes[m].key in t.byRes && t.byRes[s.nodes[m].key] == m && t.byId[s.nodes[m].id] == n;
    } else {
      IndexNew(s.nodes, s.byId, s.byRes, n);
    }
  }

  // ----- retransmissions -----

  /** The query stays pending from the first state of the run to the last. */
  predicate PendingThroughout(cfg: Settings, s: State, steps: seq<Step>, n: nat)
    requires Runs(cfg, s, steps)
    decreases |steps|
  {
    Pending(s, n) && (steps == [] || PendingThroughout(cfg, Next(cfg, s, steps[0]), steps[1..], n))
  }

  /** How often the query's timer fires during the run. */
  function Firings(steps: seq<Step>, n: nat): nat {
    if steps == [] then 0
    else Firings(steps[1..], n) + if steps[0].DoTimeout? && steps[0].n == n then 1 else 0
  }

  /** Node n is still there, transmitted as often as before. */
  predicate SameCount(s: State, t: State, n: nat) {
    n < |s.nodes| && n < |t.nodes| && t.nodes[n].transmitCnt == s.nodes[n].transmitCnt
  }

  lemma MergeKeepsCount(s: State, p: nat, cb: Option<nat>, n: nat)
    requires Shape(s) && PendingAt(s.nodes, s.byId, n) && p < |s.nodes|
    ensures SameCount(s, Merge(s, p, cb).0, n)
  {
    AllocShape(s, cb);
    var (s1, c) := Alloc(s, cb);
    LinkedPending(s1.nodes, s.byId, p, c);
  }

  lemma StartKeepsCount(cfg: Settings, s: State, key: Key, hasCb: bool, net: Network, now: int, n: nat)
    requires Inv(cfg, s) && Pending(s, n)
    ensures SameCount(s, Start(cfg, s, key, hasCb, net, now).0, n)
  {
    var cb := RequestOf(s, hasCb);
    var (s1, hit) := Consult(s, key, hasCb, now);
    ShapeSame(s, s1);
    assert PendingAt(s1.nodes, s1.byId, n) && TimersOk(cfg, s1);
    EnqueueKeepsCount(cfg, s1, key, cb, net, now, n);
  }

  lemma EnqueueKeepsCount(cfg: Settings, s: State, key: Key, cb: Option<nat>, net: Network, now: int, n: nat)
    requires Shape(s) && TimersOk(cfg, s) && PendingAt(s.nodes, s.byId, n)
    ensures SameCount(s, Enqueue(cfg, s, key, cb, net, now).0, n)
  {
    if key in s.byRes && s.byRes[key] < |s.nodes| {
      MergeKeepsCount(s, s.byRes[key], cb, n);
    } else {
      LaunchKeepsCount(cfg, s, key, cb, net, now, n);
    }
  }

  lemma LaunchKeepsCount(cfg: Settings, s: State, key: Key, cb: Option<nat>, net: Network, now: int, n: nat)
    requires Shape(s) && TimersOk(cfg, s) && PendingAt(s.nodes, s.byId, n)
    ensures SameCount(s, Launch(cfg, s, key, cb, net, now).0, n)
  {
    PrepareTimers(cfg, s, key, cb, net, now);
  }

  lemma TimeoutKeepsCount(cfg: Settings, s: State, m: nat, net: Network, now: int, n: nat)
    requires TimersOk(cfg, s) && m < |s.nodes| && n < |s.nodes| && m != n
    ensures SameCount(s, Timeout(cfg, s, m, net, now), n)
  {
    if s.nodes[m].id in s.byId {
      TransmitEffect(cfg, Disarm(s, m), m, net, now);
    }
  }

  lemma OtherStepsKeepCount(cfg: Settings, s: State, step: Step, n: nat)
    requires Enabled(cfg, s, step) && n < |s.nodes| && !step.DoStart? && !step.DoTimeout?
    ensures SameCount(s, Next(cfg, s, step), n)
  {
    if Quiet(step) {
      QuietFields(cfg, s, step);
    } else if step.DoInvokeNext? {
      InvokeNextFields(s, step.n, step.edited);
    } else if step.DoFinish? {
      FinishFields(cfg, s, step.n, step.now);
    } else if step.DoCancel? {
      CancelFields(s, step.n, step.notify);
    }
  }

  /** Of all steps only the firing of its own timer transmits a pending query again. */
  lemma StepCounts(cfg: Settings, s: State, step: Step, n: nat)
    requires Inv(cfg, s) && Enabled(cfg, s, step) && Pending(s, n) && Pending(Next(cfg, s, step), n)
    ensures Next(cfg, s, step).nodes[n].transmitCnt ==
            s.nodes[n].transmitCnt + if step.DoTimeout? && step.n == n then 1 else 0
  {
    if step.DoStart? {
      StartKeepsCount(cfg, s, step.key, step.hasCb, step.net, step.now, n);
    } else if step.DoTimeout? {
      if step.n == n {
        TimeoutTimers(cfg, s, n, step.net, step.now);
      } else {
        TimeoutKeepsCount(cfg, s, step.n, step.net, step.now, n);
      }
    } else {
      OtherStepsKeepCount(cfg, s, step, n);
    }
  }

  /** Along a run the count of transmissions grows by exactly the firings of the timer. */
  lemma {:induction false} RunCounts(cfg: Settings, s: State, steps: seq<Step>, n: nat)
    requires Inv(cfg, s) && Runs(cfg, s, steps) && PendingThroughout(cfg, s, steps, n)
    ensures Pending(After(cfg, s, steps), n)
    ensures After(cfg, s, steps).nodes[n].transmitCnt == s.nodes[n].transmitCnt + Firings(steps, n)
    decreases |steps|
  {
    if steps != [] {
      NextInv(cfg, s, steps[0]);
      var t := Next(cfg, s, steps[0]);
      assert Pending(t, n);
      StepCounts(cfg, s, steps[0], n);
      RunCounts(cfg, t, steps[1..], n);
    }
  }

  /**
   * No query survives max(1, qretr_count) firings of its timer: while it is pending it has been
   * transmitted once when it was started and once per firing, and never more than that often.
   */
  lemma EveryQueryEnds(cfg: Settings, s: State, steps: seq<Step>, n: nat)
    requires Inv(cfg, s) && Runs(cfg, s, steps) && PendingThroughout(cfg, s, steps, n)
    ensures Firings(steps, n) < MaxTransmissions(cfg)
    ensures s.nodes[n].transmitCnt + Firings(steps, n) <= MaxTransmissions(cfg)
  {
    RunCounts(cfg, s, steps, n);
    RunInv(cfg, s, steps);
    assert n in s.timers && n in After(cfg, s, steps).timers;
  }

  // ----- the cache, over runs -----

  /** What a step can do to the callbacks in progress on cached packets. */
  datatype HitChange = HitsKept | HitStarted | HitMarked(h: nat) | HitReturned(h: nat)

  ghost predicate HitsAfter(c: Cache, t: Cache, change: HitChange) {
    match change
    case HitsKept => t.hits == c.hits && t.nextHit == c.nextHit
    case HitStarted => c.nextHit in t.hits && t.hits == c.hits[c.nextHit := t.hits[c.nextHit]] && t.nextHit == c.nextHit + 1
    case HitMarked(h) => h in c.hits && t.hits == c.hits[h := c.hits[h].(invoked := true)] && t.nextHit == c.nextHit
    case HitReturned(h) => t.hits == c.hits - {h} && t.nextHit == c.nextHit
  }

  lemma UpdateHitsKept(c: Cache, key: Key, status: Status, setExpiry: bool, pkt: Packet, maxTtl: nat, now: int)
    ensures HitsAfter(c, Update(c, key, status, setExpiry, pkt, maxTtl, now), HitsKept)
  {
  }

  lemma HitBefore(c: Cache, t: Cache, h: nat)
    requires exists change :: HitsAfter(c, t, change)
    ensures t.nextHit >= c.nextHit
    ensures h in t.hits && h < c.nextHit ==>
              h in c.hits && t.hits[h].entry == c.hits[h].entry && t.hits[h].pkt == c.hits[h].pkt
  {
  }

  lemma StepHits(cfg: Settings, s: State, step: Step)
    requires Enabled(cfg, s, step)
    ensures exists change :: HitsAfter(s.cache, Next(cfg, s, step).cache, change)
  {
    var t := Next(cfg, s, step).cache;
    match step
    case DoStart(key, hasCb, net, now) =>
      if Consult(s, key, hasCb, now).1.Some? {
        assert HitsAfter(s.cache, t, HitStarted);
      } else {
        assert HitsAfter(s.cache, t, HitsKept);
      }
    case DoInvokeHit(h) => assert HitsAfter(s.cache, t, HitMarked(h));
    case DoReturnHit(h) => assert HitsAfter(s.cache, t, HitReturned(h));
    case DoFinish(n, now) =>
      var c := s.completing[n];
      if c.pkt.Some? {
        UpdateHitsKept(s.cache, s.nodes[n].key, c.status, true, c.pkt.value, cfg.cacheMaxTtl, now);
      }
      assert HitsAfter(s.cache, t, HitsKept);
    case DoAddEntry(key, pkt, setTtl, now) =>
      UpdateHitsKept(s.cache, key, Success, setTtl, pkt, cfg.cacheMaxTtl, now);
      assert HitsAfter(s.cache, t, HitsKept);
    case _ => assert HitsAfter(s.cache, t, HitsKept);
  }

  /**
   * However the run interleaves expiry, replacement, errors and other hits, a callback that is
   * still running holds the entry it was given, and that entry still has the same packet.
   */
  lemma {:induction false} RunningCallbackKeepsPacket(cfg: Settings, s: State, steps: seq<Step>, h: nat)
    requires CacheOk(s) && Runs(cfg, s, steps) && h < s.cache.nextHit
    requires h in After(cfg, s, steps).cache.hits
    ensures h in s.cache.hits && s.cache.hits[h].entry in s.cache.entries
    ensures s.cache.entries[s.cache.hits[h].entry].pkt == s.cache.hits[h].pkt
    ensures var t, e := After(cfg, s, steps).cache, s.cache.hits[h].entry;
            t.hits[h].entry == e && e in t.entries && t.entries[e].pkt == s.cache.hits[h].pkt
    decreases |steps|
  {
    if steps != [] {
      var t := Next(cfg, s, steps[0]);
      NextCache(cfg, s, steps[0]);
      StepHits(cfg, s, steps[0]);
      HitBefore(s.cache, t.cache, h);
      RunningCallbackKeepsPacket(cfg, t, steps[1..], h);
    }
  }

  /** The reference count of every entry, in every reachable state. */
  lemma RefCountsExact(cfg: Settings, ns: seq<NameServer>, steps: seq<Step>, e: nat)
    requires Runs(cfg, InitState(ns), steps)
    ensures var c := After(cfg, InitState(ns), steps).cache;
            && (e in c.entries ==> c.entries[e].refCnt == (if InTable(c, e) then 1 else 0) + Holders(c.hits, e))
            && (e in c.entries <==> (exists k :: k in c.table && c.table[k] == e) ||
                                    (exists h :: h in c.hits && c.hits[h].entry == e))
  {
    InitInv(cfg, ns);
    RunInv(cfg, InitState(ns), steps);
    var c := After(cfg, InitState(ns), steps).cache;
    LiveExactlyWhileReferenced(c, e);
    assert e in c.entries ==> CountedAt(c, e);
  }

  /**
   * A query is answered from the cache exactly when the timed map of the events so far holds an
   * unexpired packet for its key, and its callback is then given that packet.
   */
  lemma AnsweredFromCacheExactly(cfg: Settings, s: State, key: Key, hasCb: bool, net: Network, now: int)
    requires Inv(cfg, s)
    ensures var (t, outcome) := Start(cfg, s, key, hasCb, net, now);
            var slot := Replay(s.log, key);
            && (outcome.FromCache? <==> slot.Some? && now < slot.value.expiry)
            && (outcome.FromCache? ==> outcome.hit in t.cache.hits && t.cache.hits[outcome.hit].pkt == slot.value.pkt)
  {
    LookupRefines(s.cache, s.log, key, RequestOf(s, hasCb), now);
    var s1 := Consult(s, key, hasCb, now).0;
    EnqueueOutcome(cfg, s1, key, RequestOf(s, hasCb), net, now);
  }

  /** The time a step reads from the clock, if it does. */
  function Clock(step: Step): Option<int> {
    match step
    case DoStart(_, _, _, now) => Some(now)
    case DoTimeout(_, _, now) => Some(now)
    case DoRespond(_, _, now) => Some(now)
    case DoGarbage(_, now) => Some(now)
    case DoFinish(_, now) => Some(now)
    case DoAddEntry(_, _, _, now) => Some(now)
    case _ => None
  }

  /** The clock shows t before the steps and `now` behind them, and never steps back. */
  predicate ClockForward(steps: seq<Step>, t: int, now: int)
    decreases |steps|
  {
    if steps == [] then t <= now
    else
      match Clock(steps[0])
      case None => ClockForward(steps[1..], t, now)
      case Some(t') => t <= t' && ClockForward(steps[1..], t', now)
  }

  /** A step adds nothing to the history of the cache, or an event of its own time. */
  lemma StepLogs(cfg: Settings, s: State, step: Step, t: int)
    requires Enabled(cfg, s, step) && Forward(s.log, t) && (Clock(step).Some? ==> t <= Clock(step).value)
    ensures Forward(Next(cfg, s, step).log, if Clock(step).Some? then Clock(step).value else t)
  {
    var log := Next(cfg, s, step).log;
    if Clock(step).Some? {
      ForwardLater(s.log, t, Clock(step).value);
    }
    if log != s.log {
      assert log == s.log + [log[|s.log|]] && log[..|s.log|] == s.log;
    }
  }

  lemma {:induction false} RunLogs(cfg: Settings, s: State, steps: seq<Step>, t: int, now: int)
    requires Runs(cfg, s, steps) && Forward(s.log, t) && ClockForward(steps, t, now)
    ensures Forward(After(cfg, s, steps).log, now)
    decreases |steps|
  {
    if steps == [] {
      ForwardLater(s.log, t, now);
    } else {
      StepLogs(cfg, s, steps[0], t);
      var t' := if Clock(steps[0]).Some? then Clock(steps[0]).value else t;
      RunLogs(cfg, Next(cfg, s, steps[0]), steps[1..], t', now);
    }
  }

  /**
   * In every run with a clock that does not step back, a query is answered from the cache exactly
   * when its key was ever updated, the last update stored a packet, and that has not expired; the
   * callback is then given that packet's query and answer sections.
   */
  lemma AnsweredByLastUpdate(cfg: Settings, ns: seq<NameServer>, steps: seq<Step>, t0: int,
                             key: Key, hasCb: bool, net: Network, now: int)
    requires Runs(cfg, InitState(ns), steps) && ClockForward(steps, t0, now)
    ensures var s := After(cfg, InitState(ns), steps);
            var (t, outcome) := Start(cfg, s, key, hasCb, net, now);
            var last := LastUpdate(s.log, key);
            && (outcome.FromCache? <==> Holds(last, now))
            && (outcome.FromCache? ==>
                  outcome.hit in t.cache.hits && t.cache.hits[outcome.hit].pkt == Dup(last.value.pkt))
  {
    InitInv(cfg, ns);
    RunInv(cfg, InitState(ns), steps);
    RunLogs(cfg, InitState(ns), steps, t0, now);
    var s := After(cfg, InitState(ns), steps);
    AnsweredFromCacheExactly(cfg, s, key, hasCb, net, now);
    LastUpdateDecides(s.log, key, now);
  }

  /** Every update in the history was made under the configured maximum. */
  predicate UnderMaximum(cfg: Settings, log: seq<CacheEvent>) {
    forall i :: 0 <= i < |log| && log[i].Stored? ==> log[i].maxTtl == cfg.cacheMaxTtl
  }

  lemma StepUnderMaximum(cfg: Settings, s: State, step: Step)
    requires Enabled(cfg, s, step) && UnderMaximum(cfg, s.log)
    ensures UnderMaximum(cfg, Next(cfg, s, step).log)
  {
  }

  lemma {:induction false} RunUnderMaximum(cfg: Settings, s: State, steps: seq<Step>)
    requires Runs(cfg, s, steps) && UnderMaximum(cfg, s.log)
    ensures UnderMaximum(cfg, After(cfg, s, steps).log)
    decreases |steps|
  {
    if steps != [] {
      StepUnderMaximum(cfg, s, steps[0]);
      RunUnderMaximum(cfg, Next(cfg, s, steps[0]), steps[1..]);
    }
  }

  /**
   * In every run with a clock that does not step back, a query at `now` milliseconds is answered from
   * the cache exactly when the last update of its key keeps its packet for more than no time and that
   * time, counted in seconds from the update, is not over; an entry without expiry lasts 0x7FFFFFFF
   * seconds since the epoch.
   */
  lemma AnsweredWithinLifetime(cfg: Settings, ns: seq<NameServer>, steps: seq<Step>, t0: int,
                               key: Key, hasCb: bool, net: Network, now: int) returns (life: nat)
    requires Runs(cfg, InitState(ns), steps) && ClockForward(steps, t0, now) && cfg.cacheMaxTtl <= MAX_UINT32
    ensures var s := After(cfg, InitState(ns), steps);
            var outcome := Start(cfg, s, key, hasCb, net, now).1;
            match LastUpdate(s.log, key)
            case None => !outcome.FromCache?
            case Some(u) =>
              && IsLifetime(u.status, u.setExpiry, u.pkt, cfg.cacheMaxTtl, life)
              && (outcome.FromCache? <==> life > 0 && now < if u.setExpiry then u.now + 1000 * life else 0x7FFF_FFFF * 1000)
  {
    AnsweredByLastUpdate(cfg, ns, steps, t0, key, hasCb, net, now);
    RunUnderMaximum(cfg, InitState(ns), steps);
    var last := LastUpdate(After(cfg, InitState(ns), steps).log, key);
    life := 0;
    if last.Some? {
      var u := last.value;
      life := Ttl(u.status, u.setExpiry, u.pkt, cfg.cacheMaxTtl);
      TtlIsLifetime(u.status, u.setExpiry, u.pkt, cfg.cacheMaxTtl);
      HoldsWithin(u, now, life);
    }
  }

  lemma EnqueueOutcome(cfg: Settings, s: State, key: Key, cb: Option<nat>, net: Network, now: int)
    ensures !Enqueue(cfg, s, key, cb, net, now).1.FromCache?
  {
  }
}
