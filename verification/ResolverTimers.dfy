/**
 * Retransmission: a query is pending exactly while its timer is armed, it has been transmitted at
 * least once and at most max(1, qretr_count) times, and every firing of its timer either
 * transmits it once more or ends it.
 */
module ResolverTimers {
  import opened Bytes
  import opened DnsPackets
  import opened ResponseCache
  import opened Nameservers
  import opened ResolverSteps
  import opened ResolverShape

  function MaxTransmissions(cfg: Settings): nat {
    if cfg.qretrCount > 1 then cfg.qretrCount else 1
  }

  lemma SamePending(cfg: Settings, s: State, t: State)
    requires TimersOk(cfg, s) && s.timers == t.timers && s.byId == t.byId
    requires forall m: nat :: PendingAt(t.nodes, t.byId, m) <==> PendingAt(s.nodes, s.byId, m)
    requires forall m :: m in s.timers && m < |s.nodes| && m < |t.nodes| ==>
               t.nodes[m].timerId == s.nodes[m].timerId && t.nodes[m].transmitCnt == s.nodes[m].transmitCnt
    ensures TimersOk(cfg, t)
  {
  }

  /** A node in no index was replaced or added. */
  lemma ReplacedPending(nodes: Nodes, t: Nodes, byId: map<nat, nat>, n: nat)
    requires Replaced(nodes, t, n) && NotIndexed(byId, n)
    ensures forall m: nat :: PendingAt(t, byId, m) <==> PendingAt(nodes, byId, m)
  {
  }

  lemma LinkedPending(nodes: Nodes, byId: map<nat, nat>, p: nat, n: nat)
    requires p < |nodes| && n < |nodes|
    ensures forall m: nat :: PendingAt(LinkChild(nodes, p, n), byId, m) <==> PendingAt(nodes, byId, m)
    ensures forall m: nat :: m < |nodes| ==>
              LinkChild(nodes, p, n)[m].timerId == nodes[m].timerId &&
              LinkChild(nodes, p, n)[m].transmitCnt == nodes[m].transmitCnt
  {
  }

  lemma MergeTimers(cfg: Settings, s: State, key: Key, cb: Option<nat>)
    requires Shape(s) && TimersOk(cfg, s) && key in s.byRes && s.byRes[key] < |s.nodes|
    ensures TimersOk(cfg, Merge(s, s.byRes[key], cb).0)
  {
    var p := s.byRes[key];
    AllocShape(s, cb);
    var (s1, n) := Alloc(s, cb);
    MergedTimers(cfg, s, s1, p, n, Merge(s, p, cb).0);
  }

  lemma MergedTimers(cfg: Settings, s: State, s1: State, p: nat, n: nat, t: State)
    requires TimersOk(cfg, s) && Replaced(s.nodes, s1.nodes, n) && NotIndexed(s.byId, n) && p < |s1.nodes|
    requires t.nodes == LinkChild(s1.nodes, p, n) && t.byId == s.byId && t.timers == s.timers
    ensures TimersOk(cfg, t)
  {
    ReplacedPending(s.nodes, s1.nodes, s.byId, n);
    LinkedPending(s1.nodes, s.byId, p, n);
    SamePending(cfg, s, t);
  }

  /** Everything but node n is as it was when the new parent was taken from the free list. */
  lemma PrepareTimers(cfg: Settings, s: State, key: Key, cb: Option<nat>, net: Network, now: int)
    requires Shape(s) && TimersOk(cfg, s)
    ensures var (t, n, status) := Prepare(cfg, s, key, cb, net, now);
            && Replaced(s.nodes, t.nodes, n) && NotIndexed(s.byId, n) && n !in s.timers && t.byId == s.byId
            && (status == TxOk ==> t.timers == s.timers + {n} && TimerOk(cfg, t.nodes[n]))
            && (status != TxOk ==> t.timers == s.timers)
  {
    AllocShape(s, cb);
    var (s1, n) := Alloc(s, cb);
    var s2 := s1.(nodes := s1.nodes[n := s1.nodes[n].(id := s.lastId, key := key)], lastId := NextId(s.lastId));
    assert n !in s.timers;
    TransmitEffect(cfg, s2, n, net, now);
  }

  lemma RecycledPending(nodes: Nodes, byId: map<nat, nat>, list: seq<nat>)
    ensures forall m: nat :: PendingAt(Recycle(nodes, list), byId, m) <==> PendingAt(nodes, byId, m)
    ensures forall m: nat :: m < |nodes| ==>
              Recycle(nodes, list)[m].timerId == nodes[m].timerId &&
              Recycle(nodes, list)[m].transmitCnt == nodes[m].transmitCnt
  {
  }

  lemma PublishTimers(cfg: Settings, s: State, t: State, n: nat)
    requires TimersOk(cfg, s) && Replaced(s.nodes, t.nodes, n) && NotIndexed(s.byId, n)
    requires t.byId == s.byId && t.nodes[n].id !in s.byId && t.timers == s.timers + {n} && TimerOk(cfg, t.nodes[n])
    ensures TimersOk(cfg, Publish(t, n))
  {
    ReplacedPending(s.nodes, t.nodes, s.byId, n);
    PublishPending(t.nodes, s.byId, n);
  }

  lemma DiscardTimers(cfg: Settings, s: State, t: State, n: nat)
    requires TimersOk(cfg, s) && Replaced(s.nodes, t.nodes, n) && NotIndexed(s.byId, n) && n !in s.timers
    requires t.byId == s.byId && t.timers == s.timers
    ensures TimersOk(cfg, Discard(t, n))
  {
    ReplacedPending(s.nodes, t.nodes, s.byId, n);
    RecycledPending(t.nodes, s.byId, [n]);
    SamePending(cfg, s, Discard(t, n));
  }

  lemma LaunchTimers(cfg: Settings, s: State, key: Key, cb: Option<nat>, net: Network, now: int)
    requires Launch(cfg, s, key, cb, net, now).1.Started? ==> s.lastId !in s.byId
    requires Shape(s) && TimersOk(cfg, s)
    ensures TimersOk(cfg, Launch(cfg, s, key, cb, net, now).0)
  {
    PrepareShape(cfg, s, key, cb, net, now);
    PrepareTimers(cfg, s, key, cb, net, now);
    var (t, n, status) := Prepare(cfg, s, key, cb, net, now);
    if status == TxOk {
      PublishTimers(cfg, s, t, n);
    } else {
      DiscardTimers(cfg, s, t, n);
    }
  }

  lemma EnqueueTimers(cfg: Settings, s: State, key: Key, cb: Option<nat>, net: Network, now: int)
    requires Enqueue(cfg, s, key, cb, net, now).1.Started? ==> s.lastId !in s.byId
    requires Shape(s) && TimersOk(cfg, s)
    ensures TimersOk(cfg, Enqueue(cfg, s, key, cb, net, now).0)
  {
    if key in s.byRes {
      assert s.byRes[key] < |s.nodes|;
      MergeTimers(cfg, s, key, cb);
    } else {
      LaunchTimers(cfg, s, key, cb, net, now);
    }
  }

  lemma StartTimers(cfg: Settings, s: State, key: Key, hasCb: bool, net: Network, now: int)
    requires Start(cfg, s, key, hasCb, net, now).1.Started? ==> s.lastId !in s.byId
    requires Shape(s) && TimersOk(cfg, s)
    ensures TimersOk(cfg, Start(cfg, s, key, hasCb, net, now).0)
  {
    var (s1, hit) := Consult(s, key, hasCb, now);
    ShapeSame(s, s1);
    if hit.None? {
      EnqueueTimers(cfg, s1, key, RequestOf(s, hasCb), net, now);
    }
  }

  /** The timer of n is not armed, although n is still pending. */
  ghost predicate Disarmed(cfg: Settings, s: State, n: nat) {
    && PendingAt(s.nodes, s.byId, n)
    && (forall m :: m in s.timers <==> PendingAt(s.nodes, s.byId, m) && m != n)
    && (forall m :: m in s.timers ==> m < |s.nodes| && TimerOk(cfg, s.nodes[m]))
  }

  /** The query leaves the indices with its timer already disarmed. */
  lemma CompletedTimers(cfg: Settings, s: State, n: nat, status: Status, pkt: Option<Packet>)
    requires Shape(s) && Disarmed(cfg, s, n)
    ensures TimersOk(cfg, Complete(s, n, status, pkt))
    ensures !PendingAt(s.nodes, Complete(s, n, status, pkt).byId, n)
  {
    IndexGone(s.nodes, s.byId, s.byRes, n);
  }

  lemma DisarmedTimers(cfg: Settings, s: State, n: nat)
    requires TimersOk(cfg, s) && PendingAt(s.nodes, s.byId, n)
    ensures Disarmed(cfg, Disarm(s, n), n)
  {
    var t := Disarm(s, n);
    assert forall m: nat :: PendingAt(t.nodes, t.byId, m) <==> PendingAt(s.nodes, s.byId, m);
  }

  lemma Rearmed(cfg: Settings, s: State, t: State, n: nat)
    requires Disarmed(cfg, s, n) && |t.nodes| == |s.nodes| && t.nodes == s.nodes[n := t.nodes[n]] && t.byId == s.byId
    requires t.nodes[n].id == s.nodes[n].id
    ensures t.timers == s.timers + {n} && TimerOk(cfg, t.nodes[n]) ==> TimersOk(cfg, t)
    ensures t.timers == s.timers ==> Disarmed(cfg, t, n)
    ensures PendingAt(t.nodes, t.byId, n)
  {
    assert forall m: nat :: PendingAt(t.nodes, t.byId, m) <==> PendingAt(s.nodes, s.byId, m);
  }

  lemma RetransmitTimers(cfg: Settings, s: State, n: nat, net: Network, now: int)
    requires Disarmed(cfg, s, n) && s.nodes[n].transmitCnt < cfg.qretrCount
    ensures var (t, status) := Transmit(cfg, s, n, net, now);
            && t.completing == s.completing && n < |t.nodes| && t.nodes[n].children == s.nodes[n].children
            && PendingAt(t.nodes, t.byId, n)
            && (status == TxOk ==> TimersOk(cfg, t) && t.nodes[n].transmitCnt == s.nodes[n].transmitCnt + 1)
            && (status != TxOk ==> Disarmed(cfg, t, n))
  {
    TransmitEffect(cfg, s, n, net, now);
    Rearmed(cfg, s, Transmit(cfg, s, n, net, now).0, n);
  }

  /** A firing of an armed timer: one more transmission, or the end of the query. */
  lemma TimeoutTimers(cfg: Settings, s: State, n: nat, net: Network, now: int)
    requires Shape(s) && TimersOk(cfg, s) && PendingAt(s.nodes, s.byId, n)
    ensures var t := Timeout(cfg, s, n, net, now);
            && TimersOk(cfg, t)
            && (if PendingAt(t.nodes, t.byId, n) then
                  s.nodes[n].transmitCnt < cfg.qretrCount && t.nodes[n].transmitCnt == s.nodes[n].transmitCnt + 1
                else
                  t.completing == s.completing[n := Completion([n] + s.nodes[n].children, TimedOut, None)])
  {
    var s1 := Disarm(s, n);
    DisarmShape(s, n);
    DisarmedTimers(cfg, s, n);
    if s.nodes[n].transmitCnt < cfg.qretrCount {
      RetransmitTimers(cfg, s1, n, net, now);
      RetransmitShape(cfg, s1, n, net, now);
      var (s2, status) := Transmit(cfg, s1, n, net, now);
      if status != TxOk {
        CompletedTimers(cfg, s2, n, TimedOut, None);
      }
    } else {
      CompletedTimers(cfg, s1, n, TimedOut, None);
    }
  }

  lemma RespondTimers(cfg: Settings, s: State, pkt: Packet, addr: nat, now: int)
    requires Shape(s) && TimersOk(cfg, s)
    ensures TimersOk(cfg, Respond(cfg, s, pkt, addr, now))
  {
    var s1 := s.(ns := Report(cfg, s.ns, 0, addr, Some(pkt), now));
    ShapeSame(s, s1);
    if pkt.id in s.byId {
      var n := s.byId[pkt.id];
      assert PendingAt(s.nodes, s.byId, n);
      DisarmShape(s1, n);
      DisarmedTimers(cfg, s1, n);
      CompletedTimers(cfg, Disarm(s1, n), n, StatusOf(pkt), Some(pkt));
    }
  }

  lemma FinishTimers(cfg: Settings, s: State, n: nat, now: int)
    requires TimersOk(cfg, s) && n in s.completing && n < |s.nodes| && !PendingAt(s.nodes, s.byId, n)
    ensures TimersOk(cfg, Finish(cfg, s, n, now))
  {
    FinishFields(cfg, s, n, now);
    var nodes := s.nodes[n := s.nodes[n].(timerId := 0)];
    assert forall m: nat :: PendingAt(nodes, s.byId, m) <==> PendingAt(s.nodes, s.byId, m);
    RecycledPending(nodes, s.byId, nodes[n].children + [n]);
    SamePending(cfg, s, Finish(cfg, s, n, now));
  }

  lemma CancelTimers(cfg: Settings, s: State, n: nat, notify: bool)
    requires TimersOk(cfg, s) && n < |s.nodes|
    ensures TimersOk(cfg, Cancel(s, n, notify))
  {
    CancelFields(s, n, notify);
    var t := Cancel(s, n, notify);
    assert forall m: nat :: PendingAt(t.nodes, s.byId, m) <==> PendingAt(s.nodes, s.byId, m);
    SamePending(cfg, s, t);
  }

  lemma NextTimers(cfg: Settings, s: State, step: Step)
    requires Shape(s) && TimersOk(cfg, s) && Enabled(cfg, s, step)
    ensures TimersOk(cfg, Next(cfg, s, step))
  {
    if Quiet(step) {
      QuietFields(cfg, s, step);
      SamePending(cfg, s, Next(cfg, s, step));
    } else if step.DoStart? {
      StartTimers(cfg, s, step.key, step.hasCb, step.net, step.now);
    } else if step.DoTimeout? {
      if s.nodes[step.n].id in s.byId {
        TimeoutTimers(cfg, s, step.n, step.net, step.now);
      }
    } else if step.DoRespond? {
      RespondTimers(cfg, s, step.pkt, step.addr, step.now);
    } else if step.DoInvokeNext? {
      InvokeNextFields(s, step.n, step.edited);
      SamePending(cfg, s, Next(cfg, s, step));
    } else if step.DoFinish? {
      FinishTimers(cfg, s, step.n, step.now);
    } else {
      CancelTimers(cfg, s, step.n, step.notify);
    }
  }
}
