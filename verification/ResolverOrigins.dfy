/**
 * Whose answer a callback gets: each call made in a run is traced back to what the cache held, a
 * response with the id of the query its request waited for, a timeout of that query, or its own
 * cancellation.
 */
module ResolverOrigins {
  import opened Bytes
  import opened DnsPackets
  import opened ResponseCache
  import opened Nameservers
  import opened ResolverSteps
  import opened ResolverShape
  import opened ResolverTimers
  import opened ResolverAnswers
  import opened ResolverRuns

  // ----- what a step does to the nodes in use -----

  /** A node that is not free keeps its id and key; it leaves its list only for the free list. */
  ghost predicate Keeps(nodes: Nodes, t: Nodes, n: nat) {
    n < |nodes| && nodes[n].link != InFree ==>
      && n < |t| && t[n].id == nodes[n].id && t[n].key == nodes[n].key
      && (t[n].link == nodes[n].link || t[n].link == InFree)
  }

  ghost predicate KeepsAll(nodes: Nodes, t: Nodes) {
    forall n: nat :: Keeps(nodes, t, n)
  }

  lemma ReplacedKeeps(nodes: Nodes, t: Nodes, n: nat)
    requires Replaced(nodes, t, n) && (n < |nodes| ==> nodes[n].link == InFree)
    ensures KeepsAll(nodes, t)
  {
  }

  lemma LinkKeeps(nodes: Nodes, p: nat, n: nat, m: nat)
    requires p < |nodes| && n < |nodes| && p != n && m != n
    ensures Keeps(nodes, LinkChild(nodes, p, n), m)
  {
  }

  lemma MergeKeeps(s: State, p: nat, cb: Option<nat>)
    requires Shape(s) && p < |s.nodes| && PendingAt(s.nodes, s.byId, p)
    ensures KeepsAll(s.nodes, Merge(s, p, cb).0.nodes)
    ensures var (t, n) := Merge(s, p, cb);
            n < |t.nodes| && t.nodes[n].link == ChildOf(p) && t.nodes[p].key == s.nodes[p].key
  {
    AllocShape(s, cb);
    var (s1, n) := Alloc(s, cb);
    forall m: nat ensures Keeps(s.nodes, Merge(s, p, cb).0.nodes, m) {
      if m != n {
        LinkKeeps(s1.nodes, p, n, m);
      }
    }
  }

  lemma DiscardKeeps(nodes: Nodes, t: Nodes, list: seq<nat>)
    requires KeepsAll(nodes, t)
    ensures KeepsAll(nodes, Recycle(t, list))
  {
    forall n: nat ensures Keeps(nodes, Recycle(t, list), n) {
      assert Keeps(nodes, t, n);
    }
  }

  lemma PreparedKeeps(cfg: Settings, s: State, key: Key, cb: Option<nat>, net: Network, now: int)
    requires Shape(s) && TimersOk(cfg, s)
    ensures KeepsAll(s.nodes, Prepare(cfg, s, key, cb, net, now).0.nodes)
  {
    PreparedNode(cfg, s, key, cb, net, now);
    var (s1, n, _) := Prepare(cfg, s, key, cb, net, now);
    ReplacedKeeps(s.nodes, s1.nodes, n);
  }

  lemma PreparedKey(cfg: Settings, s: State, key: Key, cb: Option<nat>, net: Network, now: int)
    requires Shape(s) && TimersOk(cfg, s)
    ensures var (t, n, _) := Prepare(cfg, s, key, cb, net, now);
            n < |t.nodes| && t.nodes[n].link == Unlinked && t.nodes[n].key == key
  {
    PrepareShape(cfg, s, key, cb, net, now);
  }

  lemma LaunchKeeps(cfg: Settings, s: State, key: Key, cb: Option<nat>, net: Network, now: int)
    requires Shape(s) && TimersOk(cfg, s)
    ensures KeepsAll(s.nodes, Launch(cfg, s, key, cb, net, now).0.nodes)
  {
    PreparedKeeps(cfg, s, key, cb, net, now);
    var (s1, n, _) := Prepare(cfg, s, key, cb, net, now);
    DiscardKeeps(s.nodes, s1.nodes, [n]);
  }

  lemma LaunchKey(cfg: Settings, s: State, key: Key, cb: Option<nat>, net: Network, now: int)
    requires Shape(s) && TimersOk(cfg, s)
    ensures var (t, outcome) := Launch(cfg, s, key, cb, net, now);
            outcome.Started? ==>
              outcome.query < |t.nodes| && t.nodes[outcome.query].link == Unlinked && t.nodes[outcome.query].key == key
  {
    PreparedKey(cfg, s, key, cb, net, now);
  }

  lemma TimersKeep(nodes: Nodes, t: Nodes)
    requires SameNodes(nodes, t)
    ensures KeepsAll(nodes, t)
  {
    forall n: nat ensures Keeps(nodes, t, n) {
      assert n < |nodes| ==> SameNode(nodes[n], t[n]);
    }
  }

  lemma StartKeeps(cfg: Settings, s: State, key: Key, hasCb: bool, net: Network, now: int)
    requires Shape(s) && TimersOk(cfg, s)
    ensures KeepsAll(s.nodes, Start(cfg, s, key, hasCb, net, now).0.nodes)
  {
    var (s1, hit) := Consult(s, key, hasCb, now);
    ShapeSame(s, s1);
    if hit.None? {
      EnqueueKeeps(cfg, s1, key, RequestOf(s, hasCb), net, now);
    } else {
      TimersKeep(s.nodes, s.nodes);
    }
  }

  lemma EnqueueKeeps(cfg: Settings, s: State, key: Key, cb: Option<nat>, net: Network, now: int)
    requires Shape(s) && TimersOk(cfg, s)
    ensures KeepsAll(s.nodes, Enqueue(cfg, s, key, cb, net, now).0.nodes)
  {
    if key in s.byRes {
      assert IndexedKey(s.nodes, s.byId, s.byRes, key);
      MergeKeeps(s, s.byRes[key], cb);
    } else {
      LaunchKeeps(cfg, s, key, cb, net, now);
    }
  }

  lemma TimeoutKeeps(cfg: Settings, s: State, n: nat, net: Network, now: int)
    requires Shape(s) && n < |s.nodes|
    ensures KeepsAll(s.nodes, Timeout(cfg, s, n, net, now).nodes)
  {
    var s1 := Disarm(s, n);
    TransmitEffect(cfg, s1, n, net, now);
    TimersKeep(s.nodes, s1.nodes);
    TimersKeep(s.nodes, Transmit(cfg, s1, n, net, now).0.nodes);
    TimersKeep(s.nodes, s.nodes);
  }

  lemma FinishKeeps(nodes: Nodes, n: nat)
    requires n < |nodes|
    ensures KeepsAll(nodes, Recycle(nodes[n := nodes[n].(timerId := 0)], nodes[n].children + [n]))
  {
    var t := nodes[n := nodes[n].(timerId := 0)];
    TimersKeep(nodes, t);
    DiscardKeeps(nodes, t, nodes[n].children + [n]);
  }

  lemma RespondKeeps(cfg: Settings, s: State, pkt: Packet, addr: nat, now: int)
    ensures KeepsAll(s.nodes, Respond(cfg, s, pkt, addr, now).nodes)
  {
    TimersKeep(s.nodes, Respond(cfg, s, pkt, addr, now).nodes);
  }

  lemma CancelKeeps(s: State, n: nat, notify: bool)
    requires n < |s.nodes|
    ensures KeepsAll(s.nodes, Cancel(s, n, notify).nodes)
  {
    TimersKeep(s.nodes, Cancel(s, n, notify).nodes);
  }

  lemma OtherKeeps(cfg: Settings, s: State, step: Step)
    requires Enabled(cfg, s, step) && (Quiet(step) || step.DoInvokeNext?)
    ensures Next(cfg, s, step).nodes == s.nodes && KeepsAll(s.nodes, s.nodes)
  {
  }

  lemma StepKeeps(cfg: Settings, s: State, step: Step)
    requires Inv(cfg, s) && Enabled(cfg, s, step)
    ensures KeepsAll(s.nodes, Next(cfg, s, step).nodes)
  {
    match step
    case DoStart(key, hasCb, net, now) => StartKeeps(cfg, s, key, hasCb, net, now);
    case DoTimeout(n, net, now) => TimeoutKeeps(cfg, s, n, net, now);
    case DoFinish(n, now) => FinishKeeps(s.nodes, n);
    case DoRespond(pkt, addr, now) => RespondKeeps(cfg, s, pkt, addr, now);
    case DoCancel(n, notify) => CancelKeeps(s, n, notify);
    case _ => OtherKeeps(cfg, s, step);
  }

  // ----- whom a response and a timeout take out -----

  /** The status told of a packet: its response code, the low four bits of its flags. */
  predicate Tells(status: Status, pkt: Packet) {
    if pkt.flags % 16 == 0 then status == Success else status == DnsError(pkt.flags % 16)
  }

  /** Query n is no longer pending but has its callbacks to make, its own and then its children's. */
  predicate TakenOut(s: State, t: State, n: nat, status: Status, pkt: Option<Packet>)
    requires n < |s.nodes|
  {
    !Pending(t, n) && n in t.completing && t.completing[n] == Completion([n] + s.nodes[n].children, status, pkt)
  }

  /** Query n is pending or completing as before. */
  predicate Untouched(s: State, t: State, n: nat) {
    && (Pending(t, n) <==> Pending(s, n))
    && (n in t.completing <==> n in s.completing)
    && (n in s.completing && n in t.completing ==> t.completing[n] == s.completing[n])
  }

  /** Nodes differ at most in their timers and transmission counts. */
  predicate SameQueries(s: State, t: State) {
    && |t.nodes| == |s.nodes|
    && forall n :: 0 <= n < |s.nodes| ==> SameNode(s.nodes[n], t.nodes[n]) && t.nodes[n].cb == s.nodes[n].cb
  }

  lemma CompleteExact(cfg: Settings, s: State, n: nat, status: Status, pkt: Option<Packet>)
    requires Shape(s) && Pending(s, n)
    ensures var t := Complete(s, n, status, pkt);
            TakenOut(s, t, n, status, pkt) && forall m: nat :: m != n ==> Untouched(s, t, m)
  {
    IndexGone(s.nodes, s.byId, s.byRes, n);
    var t := Complete(s, n, status, pkt);
    forall m: nat | m != n ensures Untouched(s, t, m) {
      assert PendingAt(t.nodes, t.byId, m) <==> PendingAt(s.nodes, s.byId, m);
    }
    assert !PendingAt(t.nodes, t.byId, n);
  }

  /** The same, if the nodes had changed in nothing but timers before. */
  lemma CompleteBehind(cfg: Settings, s: State, s1: State, n: nat, status: Status, pkt: Option<Packet>)
    requires Shape(s1) && Pending(s, n) && SameQueries(s, s1) && s1.byId == s.byId && s1.completing == s.completing
    ensures var t := Complete(s1, n, status, pkt);
            TakenOut(s, t, n, status, pkt) && (forall m: nat :: m != n ==> Untouched(s, t, m)) && SameQueries(s, t)
  {
    assert SameNode(s.nodes[n], s1.nodes[n]);
    CompleteExact(cfg, s1, n, status, pkt);
    var t := Complete(s1, n, status, pkt);
    forall m: nat | m != n ensures Untouched(s, t, m) {
      assert Untouched(s1, t, m);
      assert m < |s.nodes| ==> SameNode(s.nodes[m], s1.nodes[m]);
    }
  }

  lemma PendingApart(s: State, m: nat, n: nat)
    requires Pending(s, m) && Pending(s, n) && s.nodes[m].id == s.nodes[n].id
    ensures m == n
  {
  }

  lemma RespondIs(cfg: Settings, s: State, pkt: Packet, addr: nat, now: int, n: nat)
    requires Pending(s, n) && s.nodes[n].id == pkt.id
    ensures var s1 := s.(ns := Report(cfg, s.ns, 0, addr, Some(pkt), now));
            Respond(cfg, s, pkt, addr, now) == Complete(Disarm(s1, n), n, StatusOf(pkt), Some(pkt))
  {
  }

  /** Nothing about the queries changes by disarming a timer or reporting on a server. */
  lemma DisarmedSame(s: State, ns: seq<NameServer>, n: nat)
    requires Pending(s, n)
    ensures var s1 := Disarm(s.(ns := ns), n);
            SameQueries(s, s1) && s1.byId == s.byId && s1.completing == s.completing
  {
  }

  lemma DisarmedKeepsShape(s: State, ns: seq<NameServer>, n: nat)
    requires Shape(s) && Pending(s, n)
    ensures Shape(Disarm(s.(ns := ns), n))
  {
    ShapeSame(s, s.(ns := ns));
    DisarmShape(s.(ns := ns), n);
  }

  lemma RespondTaken(cfg: Settings, s: State, pkt: Packet, addr: nat, now: int, n: nat)
    requires Shape(s) && Pending(s, n) && s.nodes[n].id == pkt.id
    ensures var t := Respond(cfg, s, pkt, addr, now);
            TakenOut(s, t, n, StatusOf(pkt), Some(pkt)) && (forall m: nat :: m != n ==> Untouched(s, t, m)) && SameQueries(s, t)
  {
    var ns := Report(cfg, s.ns, 0, addr, Some(pkt), now);
    DisarmedSame(s, ns, n);
    DisarmedKeepsShape(s, ns, n);
    RespondIs(cfg, s, pkt, addr, now, n);
    CompleteBehind(cfg, s, Disarm(s.(ns := ns), n), n, StatusOf(pkt), Some(pkt));
  }

  lemma RespondMissed(cfg: Settings, s: State, pkt: Packet, addr: nat, now: int)
    requires Shape(s) && forall n: nat :: Pending(s, n) ==> s.nodes[n].id != pkt.id
    ensures var t := Respond(cfg, s, pkt, addr, now);
            (forall m: nat :: Untouched(s, t, m)) && SameQueries(s, t)
  {
    if pkt.id in s.byId {
      assert IndexedId(s.nodes, s.byId, s.byRes, pkt.id);
      assert Pending(s, s.byId[pkt.id]);
    }
    StillThere(s, Respond(cfg, s, pkt, addr, now));
  }

  ghost predicate PendingUnique(s: State) {
    forall m: nat, n: nat :: Pending(s, m) && Pending(s, n) && s.nodes[m].id == s.nodes[n].id ==> m == n
  }

  /** The packet went to the pending query of its id, if there is one, and nothing else changed for any query. */
  ghost predicate AnsweredBy(s: State, t: State, pkt: Packet) {
    && (forall n: nat :: Pending(s, n) && s.nodes[n].id == pkt.id ==>
          TakenOut(s, t, n, StatusOf(pkt), Some(pkt)) && Tells(t.completing[n].status, pkt))
    && (forall n: nat :: !(Pending(s, n) && s.nodes[n].id == pkt.id) ==> Untouched(s, t, n))
    && SameQueries(s, t)
  }

  lemma AnsweredTaken(s: State, t: State, pkt: Packet, n: nat)
    requires Pending(s, n) && s.nodes[n].id == pkt.id && TakenOut(s, t, n, StatusOf(pkt), Some(pkt)) && SameQueries(s, t)
    requires forall m: nat :: m != n ==> Untouched(s, t, m)
    ensures AnsweredBy(s, t, pkt)
  {
    forall m: nat | Pending(s, m) && s.nodes[m].id == pkt.id ensures m == n {
      PendingApart(s, m, n);
    }
  }

  /**
   * A response takes out exactly the pending query whose id is that of the packet, if there is one,
   * with its children, the packet and its status. Every other query stays as it was.
   */
  lemma ResponseExact(cfg: Settings, s: State, pkt: Packet, addr: nat, now: int)
    requires Inv(cfg, s)
    ensures AnsweredBy(s, Next(cfg, s, DoRespond(pkt, addr, now)), pkt) && PendingUnique(s)
    ensures Next(cfg, s, DoRespond(pkt, addr, now)).trace == s.trace && Next(cfg, s, DoRespond(pkt, addr, now)).log == s.log
  {
    RespondExact(cfg, s, pkt, addr, now);
    PendingDistinct(s);
  }

  lemma PendingDistinct(s: State)
    ensures PendingUnique(s)
  {
    forall m: nat, n: nat | Pending(s, m) && Pending(s, n) && s.nodes[m].id == s.nodes[n].id ensures m == n {
      PendingApart(s, m, n);
    }
  }

  lemma RespondExact(cfg: Settings, s: State, pkt: Packet, addr: nat, now: int)
    requires Shape(s)
    ensures AnsweredBy(s, Respond(cfg, s, pkt, addr, now), pkt)
    ensures Respond(cfg, s, pkt, addr, now).trace == s.trace && Respond(cfg, s, pkt, addr, now).log == s.log
  {
    if n: nat :| Pending(s, n) && s.nodes[n].id == pkt.id {
      RespondTaken(cfg, s, pkt, addr, now, n);
      AnsweredTaken(s, Respond(cfg, s, pkt, addr, now), pkt, n);
    } else {
      RespondMissed(cfg, s, pkt, addr, now);
    }
  }

  /** There is no server to send to, or the timer or the packet could not be set up. */
  predicate CannotTransmit(cfg: Settings, s: State, net: Network, now: int) {
    s.ns == [] || Select(cfg, s.ns, now).0 == [] || !net.scheduled || (!net.busy && !net.built)
  }

  lemma TransmitFails(cfg: Settings, s: State, n: nat, net: Network, now: int)
    requires n < |s.nodes|
    ensures Transmit(cfg, Disarm(s, n), n, net, now).1 == TxOk <==> !CannotTransmit(cfg, s, net, now)
  {
  }

  lemma RetransmittedSame(cfg: Settings, s: State, n: nat, net: Network, now: int)
    requires n < |s.nodes| && n !in s.timers
    ensures var t := Transmit(cfg, s, n, net, now).0;
            SameQueries(s, t) && t.byId == s.byId && t.completing == s.completing
  {
    TransmitEffect(cfg, s, n, net, now);
  }

  lemma SameTwice(s: State, t: State, u: State)
    requires SameQueries(s, t) && SameQueries(t, u)
    ensures SameQueries(s, u)
  {
    forall n | 0 <= n < |s.nodes| ensures SameNode(s.nodes[n], u.nodes[n]) && u.nodes[n].cb == s.nodes[n].cb {
      assert SameNode(s.nodes[n], t.nodes[n]) && SameNode(t.nodes[n], u.nodes[n]);
    }
  }

  lemma TimeoutAgain(cfg: Settings, s: State, n: nat, net: Network, now: int)
    requires Shape(s) && Pending(s, n) && s.nodes[n].transmitCnt < cfg.qretrCount
    ensures var t := Timeout(cfg, s, n, net, now);
            && SameQueries(s, t) && (forall m: nat :: m != n ==> Untouched(s, t, m))
            && if CannotTransmit(cfg, s, net, now) then TakenOut(s, t, n, TimedOut, None) else Untouched(s, t, n)
  {
    var s1 := Disarm(s, n);
    assert s.(ns := s.ns) == s;
    DisarmedSame(s, s.ns, n);
    DisarmedKeepsShape(s, s.ns, n);
    RetransmittedSame(cfg, s1, n, net, now);
    RetransmitShape(cfg, s1, n, net, now);
    TransmitFails(cfg, s, n, net, now);
    var s2 := Transmit(cfg, s1, n, net, now).0;
    SameTwice(s, s1, s2);
    TimeoutIs(cfg, s, n, net, now);
    if CannotTransmit(cfg, s, net, now) {
      CompleteBehind(cfg, s, s2, n, TimedOut, None);
    } else {
      StillThere(s, s2);
    }
  }

  lemma TimeoutIs(cfg: Settings, s: State, n: nat, net: Network, now: int)
    requires Pending(s, n) && s.nodes[n].transmitCnt < cfg.qretrCount
    ensures var (t, status) := Transmit(cfg, Disarm(s, n), n, net, now);
            Timeout(cfg, s, n, net, now) == if status == TxOk then t else Complete(t, n, TimedOut, None)
  {
  }

  lemma TimeoutLast(cfg: Settings, s: State, n: nat, net: Network, now: int)
    requires Shape(s) && Pending(s, n) && s.nodes[n].transmitCnt >= cfg.qretrCount
    ensures var t := Timeout(cfg, s, n, net, now);
            SameQueries(s, t) && (forall m: nat :: m != n ==> Untouched(s, t, m)) && TakenOut(s, t, n, TimedOut, None)
  {
    assert s.(ns := s.ns) == s;
    DisarmedSame(s, s.ns, n);
    DisarmedKeepsShape(s, s.ns, n);
    CompleteBehind(cfg, s, Disarm(s, n), n, TimedOut, None);
  }

  /**
   * A firing timer takes out its own query, if that is still pending and was transmitted as often as
   * the settings say or cannot be transmitted again. Every other query stays as it was.
   */
  lemma TimeoutExact(cfg: Settings, s: State, n: nat, net: Network, now: int)
    requires Inv(cfg, s) && Enabled(cfg, s, DoTimeout(n, net, now))
    ensures var t := Next(cfg, s, DoTimeout(n, net, now));
            && (if Pending(s, n) && (s.nodes[n].transmitCnt >= cfg.qretrCount || CannotTransmit(cfg, s, net, now))
                then TakenOut(s, t, n, TimedOut, None) else Untouched(s, t, n))
            && (forall m: nat :: m != n ==> Untouched(s, t, m))
            && SameQueries(s, t) && t.trace == s.trace && t.log == s.log
  {
    if s.nodes[n].id !in s.byId {
      StillThere(s, s);
    } else {
      assert PendingAt(s.nodes, s.byId, n);
      if s.nodes[n].transmitCnt < cfg.qretrCount {
        TimeoutAgain(cfg, s, n, net, now);
      } else {
        TimeoutLast(cfg, s, n, net, now);
      }
    }
  }

  lemma StillThere(s: State, t: State)
    requires SameQueries(s, t) && t.byId == s.byId && t.completing == s.completing
    ensures forall m: nat :: Untouched(s, t, m)
  {
    forall m: nat ensures Untouched(s, t, m) {
      assert m < |s.nodes| ==> SameNode(s.nodes[m], t.nodes[m]);
    }
  }

  // ----- what an answer means for the next transmission -----

  /** After a useful answer from a known server a transmission never fails for want of a server. */
  lemma UsefulAnswerTransmits(cfg: Settings, s: State, pkt: Packet, addr: nat, now: int, n: nat, net: Network, later: int)
    requires n < |s.nodes| && Useful(Some(pkt)) && exists i :: 0 <= i < |s.ns| && s.ns[i].addr == addr
    ensures var t := Next(cfg, s, DoRespond(pkt, addr, now));
            n < |t.nodes| && Transmit(cfg, t, n, net, later).1 !in {TxNoNameserver, TxNoWorkingNameserver}
  {
    UsefulAnswerServes(cfg, s.ns, addr, Some(pkt), now, later);
  }

  /**
   * After a useless answer from the only server, or one that cannot be parsed, transmissions fail for want
   * of a server exactly until the time of a bad server is over.
   */
  lemma UselessAnswerFails(cfg: Settings, s: State, step: Step, pkt: Option<Packet>, n: nat, net: Network, later: int)
    requires n < |s.nodes| && |s.ns| == 1 && !Useful(pkt)
    requires if pkt.Some? then step.DoRespond? && step.pkt == pkt.value else step.DoGarbage?
    requires step.addr == s.ns[0].addr
    ensures var t := Next(cfg, s, step);
            && n < |t.nodes|
            && (Transmit(cfg, t, n, net, later).1 == TxNoWorkingNameserver <==> later < step.now + 1000 * cfg.badNsTtl)
  {
    assert s.ns == [s.ns[0]];
    UselessAnswerWaits(cfg, s.ns[0], pkt, step.now, later);
  }

  // ----- the states of a run -----

  /** A run from the start, with every state it passes through. */
  ghost predicate History(cfg: Settings, ns: seq<NameServer>, states: seq<State>, steps: seq<Step>) {
    && |states| == |steps| + 1 && states[0] == InitState(ns)
    && forall i :: 0 <= i < |steps| ==> StepAt(cfg, states, steps, i)
  }

  ghost predicate StepAt(cfg: Settings, states: seq<State>, steps: seq<Step>, i: nat)
    requires i < |steps| < |states|
  {
    Enabled(cfg, states[i], steps[i]) && states[i + 1] == Next(cfg, states[i], steps[i])
  }

  lemma {:induction false} StatesOf(cfg: Settings, s: State, steps: seq<Step>) returns (states: seq<State>)
    requires Runs(cfg, s, steps)
    ensures |states| == |steps| + 1 && states[0] == s && states[|steps|] == After(cfg, s, steps)
    ensures forall i :: 0 <= i < |steps| ==> StepAt(cfg, states, steps, i)
    decreases |steps|
  {
    if steps == [] {
      states := [s];
    } else {
      var later := StatesOf(cfg, Next(cfg, s, steps[0]), steps[1..]);
      states := [s] + later;
      forall i | 0 <= i < |steps| ensures StepAt(cfg, states, steps, i) {
        if i > 0 {
          StepLater(cfg, s, later, steps, i - 1);
        }
      }
    }
  }

  lemma StepLater(cfg: Settings, s: State, later: seq<State>, steps: seq<Step>, i: nat)
    requires i + 1 < |steps| == |later| && StepAt(cfg, later, steps[1..], i)
    ensures StepAt(cfg, [s] + later, steps, i + 1)
  {
    assert steps[1..][i] == steps[i + 1];
    assert ([s] + later)[i + 1] == later[i] && ([s] + later)[i + 2] == later[i + 1];
  }

  lemma {:induction false} HistoryInv(cfg: Settings, ns: seq<NameServer>, states: seq<State>, steps: seq<Step>, j: nat)
    requires History(cfg, ns, states, steps) && j <= |steps|
    ensures Inv(cfg, states[j])
  {
    if j == 0 {
      InitInv(cfg, ns);
    } else {
      HistoryInv(cfg, ns, states, steps, j - 1);
      assert StepAt(cfg, states, steps, j - 1);
      NextInv(cfg, states[j - 1], steps[j - 1]);
    }
  }

  lemma StepNumbers(cfg: Settings, s: State, step: Step)
    requires Enabled(cfg, s, step)
    ensures Next(cfg, s, step).nextRequest == s.nextRequest + if step.DoStart? then 1 else 0
  {
  }

  lemma {:induction false} NumbersGrow(cfg: Settings, ns: seq<NameServer>, states: seq<State>, steps: seq<Step>, i: nat, j: nat)
    requires History(cfg, ns, states, steps) && i < j <= |steps| && steps[i].DoStart?
    ensures states[j].nextRequest > states[i].nextRequest
  {
    assert StepAt(cfg, states, steps, j - 1);
    StepNumbers(cfg, states[j - 1], steps[j - 1]);
    if i < j - 1 {
      NumbersGrow(cfg, ns, states, steps, i, j - 1);
    }
  }

  // ----- a request under its key -----

  /** The cache holds the packet for the key, and it has not expired. */
  predicate CacheHolds(s: State, key: Key, now: int, pkt: Packet) {
    Replay(s.log, key).Some? && Replay(s.log, key).value.pkt == pkt && now < Replay(s.log, key).value.expiry
  }

  /** The request waits for the query that is pending or completing under the key. */
  predicate WaitsUnder(s: State, r: nat, key: Key) {
    r in s.places && s.places[r].AtNode? &&
    var m := s.places[r].node;
    m < |s.nodes| && HeadOf(s.nodes, m) < |s.nodes| && s.nodes[HeadOf(s.nodes, m)].key == key
  }

  /** The request is given what the cache held for the key at the time. */
  predicate HitUnder(s: State, r: nat, past: State, key: Key, now: int) {
    r in s.places && s.places[r].AtHit? && s.places[r].hit in s.cache.hits
    && CacheHolds(past, key, now, s.cache.hits[s.places[r].hit].pkt)
  }

  lemma MergedUnder(s: State, key: Key, r: nat)
    requires Shape(s) && key in s.byRes && r !in s.places
    ensures s.byRes[key] < |s.nodes|
    ensures var t := Merge(s, s.byRes[key], Some(r)).0;
            WaitsUnder(t, r, key) && Pending(t, HeadOf(t.nodes, t.places[r].node))
  {
    assert IndexedKey(s.nodes, s.byId, s.byRes, key);
    var p := s.byRes[key];
    MergeKeeps(s, p, Some(r));
    var (t, n) := Merge(s, p, Some(r));
    assert Keeps(s.nodes, t.nodes, p);
  }

  lemma LaunchedUnder(cfg: Settings, s: State, key: Key, r: nat, net: Network, now: int)
    requires Shape(s) && TimersOk(cfg, s) && r !in s.places
    ensures var (t, outcome) := Launch(cfg, s, key, Some(r), net, now);
            if outcome.Failed? then r !in t.places
            else WaitsUnder(t, r, key) && Pending(t, HeadOf(t.nodes, t.places[r].node))
  {
    LaunchKey(cfg, s, key, Some(r), net, now);
    LaunchPlaces(cfg, s, key, Some(r), net, now);
  }

  /** A start gives the new request a place under its key, and moves no other. */
  lemma StartedUnder(cfg: Settings, s: State, key: Key, hasCb: bool, net: Network, now: int)
    requires Inv(cfg, s)
    ensures var t, r := Start(cfg, s, key, hasCb, net, now).0, s.nextRequest;
            && (forall q :: q in t.places && q != r ==> q in s.places && s.places[q] == t.places[q])
            && (r in t.places ==>
                  || (WaitsUnder(t, r, key) && Pending(t, HeadOf(t.nodes, t.places[r].node)))
                  || HitUnder(t, r, s, key, now))
  {
    OthersStay(cfg, s, key, hasCb, net, now);
    NewUnder(cfg, s, key, hasCb, net, now);
  }

  lemma OthersStay(cfg: Settings, s: State, key: Key, hasCb: bool, net: Network, now: int)
    requires Inv(cfg, s)
    ensures var t := Start(cfg, s, key, hasCb, net, now).0;
            forall q :: q in t.places && q != s.nextRequest ==> q in s.places && s.places[q] == t.places[q]
  {
    AcceptedWhenStarted(cfg, s, key, hasCb, net, now);
    var t := Start(cfg, s, key, hasCb, net, now).0;
    forall q | q in t.places && q != s.nextRequest ensures q in s.places && s.places[q] == t.places[q] {
      assert q in Accepted(t);
    }
  }

  lemma HitPlaced(cfg: Settings, s: State, key: Key, hasCb: bool, net: Network, now: int)
    requires Inv(cfg, s) && Consult(s, key, hasCb, now).1.Some?
    ensures var t, r := Start(cfg, s, key, hasCb, net, now).0, s.nextRequest;
            r in t.places ==> HitUnder(t, r, s, key, now)
  {
    AnsweredFromCacheExactly(cfg, s, key, hasCb, net, now);
  }

  lemma EnqueuedUnder(cfg: Settings, s: State, key: Key, hasCb: bool, r: nat, net: Network, now: int)
    requires Shape(s) && TimersOk(cfg, s) && r !in s.places
    ensures var t := Enqueue(cfg, s, key, if hasCb then Some(r) else None, net, now).0;
            r in t.places ==> WaitsUnder(t, r, key) && Pending(t, HeadOf(t.nodes, t.places[r].node))
  {
    if hasCb && key in s.byRes {
      MergedUnder(s, key, r);
    } else if hasCb {
      LaunchedUnder(cfg, s, key, r, net, now);
    } else {
      EnqueuePlaces(cfg, s, key, None, net, now);
    }
  }

  lemma NewUnder(cfg: Settings, s: State, key: Key, hasCb: bool, net: Network, now: int)
    requires Inv(cfg, s)
    ensures var t, r := Start(cfg, s, key, hasCb, net, now).0, s.nextRequest;
            r in t.places ==>
              || (WaitsUnder(t, r, key) && Pending(t, HeadOf(t.nodes, t.places[r].node)))
              || HitUnder(t, r, s, key, now)
  {
    var (s1, hit) := Consult(s, key, hasCb, now);
    if hit.Some? {
      HitPlaced(cfg, s, key, hasCb, net, now);
    } else {
      ShapeSame(s, s1);
      assert TimersOk(cfg, s1) && s.nextRequest !in s1.places;
      EnqueuedUnder(cfg, s1, key, hasCb, s.nextRequest, net, now);
    }
  }

  // ----- the request keeps its place until its callback -----

  lemma PlaceStays(cfg: Settings, s: State, step: Step, r: nat)
    requires Inv(cfg, s) && Enabled(cfg, s, step) && (step.DoStart? ==> r != s.nextRequest)
    requires r in Next(cfg, s, step).places && (Next(cfg, s, step).places[r].AtNode? || Next(cfg, s, step).places[r].AtHit?)
    ensures r in s.places && s.places[r] == Next(cfg, s, step).places[r]
  {
    if step.DoStart? {
      OthersStay(cfg, s, step.key, step.hasCb, step.net, step.now);
    } else if step.DoInvokeNext? || step.DoCancel? || step.DoInvokeHit? {
      CallsMove(cfg, s, step, r);
    } else {
      OtherPlaces(cfg, s, step);
    }
  }

  lemma CallsMove(cfg: Settings, s: State, step: Step, r: nat)
    requires Enabled(cfg, s, step) && (step.DoInvokeNext? || step.DoCancel? || step.DoInvokeHit?)
    requires r in Next(cfg, s, step).places && (Next(cfg, s, step).places[r].AtNode? || Next(cfg, s, step).places[r].AtHit?)
    ensures r in s.places && s.places[r] == Next(cfg, s, step).places[r]
  {
  }

  lemma PlaceStaysAt(cfg: Settings, ns: seq<NameServer>, states: seq<State>, steps: seq<Step>, i: nat, j: nat)
    requires History(cfg, ns, states, steps) && i < j < |steps| && steps[i].DoStart?
    requires var r := states[i].nextRequest; r in states[j + 1].places && (states[j + 1].places[r].AtNode? || states[j + 1].places[r].AtHit?)
    ensures var r := states[i].nextRequest; r in states[j].places && states[j].places[r] == states[j + 1].places[r]
  {
    HistoryInv(cfg, ns, states, steps, j);
    NumbersGrow(cfg, ns, states, steps, i, j);
    assert StepAt(cfg, states, steps, j);
    PlaceStays(cfg, states[j], steps[j], states[i].nextRequest);
  }

  /** The query the request waits for. */
  predicate WaitsFor(s: State, r: nat, n: nat) {
    r in s.places && s.places[r].AtNode? && s.places[r].node < |s.nodes| && HeadOf(s.nodes, s.places[r].node) == n < |s.nodes|
  }

  lemma PlacedWaits(s: State, r: nat)
    requires Shape(s) && AnswersOk(s) && r in s.places && s.places[r].AtNode?
    ensures var m := s.places[r].node;
            && m < |s.nodes| && s.nodes[m].link != InFree && s.nodes[m].cb == Some(r)
            && HeadOf(s.nodes, m) < |s.nodes| && s.nodes[HeadOf(s.nodes, m)].link == Unlinked
  {
    assert Waiting(s.nodes, s.byId, s.completing, s.places[r].node);
  }

  lemma HeadStays(cfg: Settings, s: State, step: Step, r: nat, n: nat)
    requires Inv(cfg, s) && Enabled(cfg, s, step) && Inv(cfg, Next(cfg, s, step))
    requires r in s.places && r in Next(cfg, s, step).places && s.places[r] == Next(cfg, s, step).places[r]
    requires WaitsFor(Next(cfg, s, step), r, n)
    ensures WaitsFor(s, r, n) && s.nodes[n].key == Next(cfg, s, step).nodes[n].key
  {
    var t := Next(cfg, s, step);
    PlacedWaits(s, r);
    PlacedWaits(t, r);
    StepKeeps(cfg, s, step);
    assert Keeps(s.nodes, t.nodes, s.places[r].node);
    assert Keeps(s.nodes, t.nodes, HeadOf(s.nodes, s.places[r].node));
  }

  lemma HeadStaysAt(cfg: Settings, ns: seq<NameServer>, states: seq<State>, steps: seq<Step>, j: nat, r: nat, n: nat)
    requires History(cfg, ns, states, steps) && j < |steps|
    requires r in states[j].places && r in states[j + 1].places && states[j].places[r] == states[j + 1].places[r]
    requires WaitsFor(states[j + 1], r, n)
    ensures WaitsFor(states[j], r, n) && states[j].nodes[n].key == states[j + 1].nodes[n].key
  {
    HistoryInv(cfg, ns, states, steps, j);
    HistoryInv(cfg, ns, states, steps, j + 1);
    assert StepAt(cfg, states, steps, j);
    HeadStays(cfg, states[j], steps[j], r, n);
  }

  lemma StartedAt(cfg: Settings, ns: seq<NameServer>, states: seq<State>, steps: seq<Step>, i: nat)
    requires History(cfg, ns, states, steps) && i < |steps| && steps[i].DoStart?
    ensures var t, r := states[i + 1], states[i].nextRequest;
            r in t.places ==>
              || (WaitsUnder(t, r, steps[i].key) && Pending(t, HeadOf(t.nodes, t.places[r].node)))
              || HitUnder(t, r, states[i], steps[i].key, steps[i].now)
  {
    HistoryInv(cfg, ns, states, steps, i);
    assert StepAt(cfg, states, steps, i);
    StartedUnder(cfg, states[i], steps[i].key, steps[i].hasCb, steps[i].net, steps[i].now);
  }

  /** A request that waits now has waited for the same query ever since it was started. */
  lemma {:induction false} WaitsSince(cfg: Settings, ns: seq<NameServer>, states: seq<State>, steps: seq<Step>, i: nat, x: nat, j: nat, n: nat)
    requires History(cfg, ns, states, steps) && i < x <= j <= |steps| && steps[i].DoStart?
    requires WaitsFor(states[j], states[i].nextRequest, n)
    ensures WaitsFor(states[x], states[i].nextRequest, n) && states[x].nodes[n].key == states[j].nodes[n].key
    decreases j
  {
    if x < j {
      PlaceStaysAt(cfg, ns, states, steps, i, j - 1);
      HeadStaysAt(cfg, ns, states, steps, j - 1, states[i].nextRequest, n);
      WaitsSince(cfg, ns, states, steps, i, x, j - 1, n);
    }
  }

  /** A request waits for a query with its own key, which was pending when it began to wait. */
  lemma WaitsUnderItsKey(cfg: Settings, ns: seq<NameServer>, states: seq<State>, steps: seq<Step>, i: nat, j: nat, n: nat)
    requires History(cfg, ns, states, steps) && i < j <= |steps| && steps[i].DoStart?
    requires WaitsFor(states[j], states[i].nextRequest, n)
    ensures states[j].nodes[n].key == steps[i].key && Pending(states[i + 1], n)
  {
    WaitsSince(cfg, ns, states, steps, i, i + 1, j, n);
    StartedAt(cfg, ns, states, steps, i);
  }

  /** A request that is to be answered from the cache is given what that held for its key when it was started. */
  lemma {:induction false} HitSince(cfg: Settings, ns: seq<NameServer>, states: seq<State>, steps: seq<Step>, i: nat, j: nat)
    requires History(cfg, ns, states, steps) && i < j <= |steps| && steps[i].DoStart?
    requires states[i].nextRequest in states[j].places && states[j].places[states[i].nextRequest].AtHit?
    ensures HitUnder(states[j], states[i].nextRequest, states[i], steps[i].key, steps[i].now)
    decreases j
  {
    var r := states[i].nextRequest;
    if i + 1 == j {
      StartedAt(cfg, ns, states, steps, i);
    } else {
      PlaceStaysAt(cfg, ns, states, steps, i, j - 1);
      HitSince(cfg, ns, states, steps, i, j - 1);
      HitStaysAt(cfg, ns, states, steps, j - 1, r);
    }
  }

  lemma HitStaysAt(cfg: Settings, ns: seq<NameServer>, states: seq<State>, steps: seq<Step>, j: nat, r: nat)
    requires History(cfg, ns, states, steps) && j < |steps|
    requires r in states[j + 1].places && states[j + 1].places[r].AtHit? && states[j + 1].places[r].hit in states[j].cache.hits
    ensures var h := states[j + 1].places[r].hit;
            h in states[j + 1].cache.hits && states[j + 1].cache.hits[h].pkt == states[j].cache.hits[h].pkt
  {
    HistoryInv(cfg, ns, states, steps, j);
    HistoryInv(cfg, ns, states, steps, j + 1);
    assert StepAt(cfg, states, steps, j);
    HitStays(cfg, states[j], steps[j], states[j + 1].places[r].hit);
  }

  lemma HitStays(cfg: Settings, s: State, step: Step, h: nat)
    requires Inv(cfg, s) && Enabled(cfg, s, step) && h in s.cache.hits && h in Next(cfg, s, step).cache.hits
    ensures Next(cfg, s, step).cache.hits[h].pkt == s.cache.hits[h].pkt
  {
    StepHits(cfg, s, step);
    HitBefore(s.cache, Next(cfg, s, step).cache, h);
  }

  // ----- where a completing query got its answer from -----

  /** The step makes a callback of the query; the application may have edited the packet when it returns. */
  predicate Edits(s: State, step: Step, n: nat) {
    && step.DoInvokeNext? && step.n == n && n in s.completing && s.completing[n].todo != []
    && s.completing[n].todo[0] < |s.nodes| && s.nodes[s.completing[n].todo[0]].cb.Some?
  }

  /** What the callbacks of query n made by steps k to j left of a packet. */
  function Left(states: seq<State>, steps: seq<Step>, k: nat, j: nat, n: nat, pkt: Packet): Packet
    requires k <= j <= |steps| < |states|
    decreases j
  {
    if j == k then pkt
    else if Edits(states[j - 1], steps[j - 1], n) then steps[j - 1].edited
    else Left(states, steps, k, j - 1, n, pkt)
  }

  /** At step k a response with the id of the pending query n arrived; the packet is what is left of it. */
  predicate FromResponse(states: seq<State>, steps: seq<Step>, k: nat, j: nat, n: nat, status: Status, pkt: Option<Packet>)
    requires k < j <= |steps| < |states|
  {
    && steps[k].DoRespond? && Pending(states[k], n) && states[k].nodes[n].id == steps[k].pkt.id
    && Tells(status, steps[k].pkt) && pkt == Some(Left(states, steps, k + 1, j, n, steps[k].pkt))
  }

  /** At step k the timer of the pending query n fired, which had been transmitted often enough or could not be again. */
  predicate FromTimeout(cfg: Settings, states: seq<State>, steps: seq<Step>, k: nat, n: nat, status: Status, pkt: Option<Packet>)
    requires k < |steps| < |states|
  {
    && steps[k].DoTimeout? && steps[k].n == n && Pending(states[k], n)
    && (states[k].nodes[n].transmitCnt >= cfg.qretrCount || CannotTransmit(cfg, states[k], steps[k].net, steps[k].now))
    && status == TimedOut && pkt == None
  }

  predicate Origin(cfg: Settings, states: seq<State>, steps: seq<Step>, k: nat, j: nat, n: nat, status: Status, pkt: Option<Packet>)
    requires k < j <= |steps| < |states|
  {
    FromResponse(states, steps, k, j, n, status, pkt) || FromTimeout(cfg, states, steps, k, n, status, pkt)
  }

  lemma OtherCompletions(cfg: Settings, s: State, step: Step, n: nat)
    requires Enabled(cfg, s, step) && n in Next(cfg, s, step).completing
    requires !step.DoRespond? && !step.DoTimeout? && !step.DoInvokeNext?
    ensures n in s.completing && Next(cfg, s, step).completing[n] == s.completing[n]
  {
    if step.DoStart? {
      StartCompletes(cfg, s, step.key, step.hasCb, step.net, step.now);
    }
  }

  lemma StartCompletes(cfg: Settings, s: State, key: Key, hasCb: bool, net: Network, now: int)
    ensures Start(cfg, s, key, hasCb, net, now).0.completing == s.completing
  {
  }

  lemma InvokedCompletion(cfg: Settings, s: State, step: Step, n: nat)
    requires Enabled(cfg, s, step) && step.DoInvokeNext? && n in Next(cfg, s, step).completing
    ensures n in s.completing
    ensures var c, c' := s.completing[n], Next(cfg, s, step).completing[n];
            c'.status == c.status && c'.pkt == if c.pkt.Some? && Edits(s, step, n) then Some(step.edited) else c.pkt
  {
  }

  lemma TimedOutCompletion(cfg: Settings, s: State, step: Step, n: nat)
    requires Inv(cfg, s) && Enabled(cfg, s, step) && step.DoTimeout? && n in Next(cfg, s, step).completing
    ensures if n in s.completing then Next(cfg, s, step).completing[n] == s.completing[n]
            else
              && step.n == n && Pending(s, n)
              && (s.nodes[n].transmitCnt >= cfg.qretrCount || CannotTransmit(cfg, s, step.net, step.now))
              && Next(cfg, s, step).completing[n].status == TimedOut && Next(cfg, s, step).completing[n].pkt == None
  {
    TimeoutExact(cfg, s, step.n, step.net, step.now);
    assert n in s.completing ==> !Pending(s, n);
    if n != step.n {
      assert Untouched(s, Next(cfg, s, step), n);
    }
  }

  lemma RespondedCompletion(cfg: Settings, s: State, step: Step, n: nat)
    requires Inv(cfg, s) && Enabled(cfg, s, step) && step.DoRespond? && n in Next(cfg, s, step).completing
    ensures if n in s.completing then Next(cfg, s, step).completing[n] == s.completing[n]
            else
              && Pending(s, n) && s.nodes[n].id == step.pkt.id
              && Next(cfg, s, step).completing[n].status == StatusOf(step.pkt)
              && Next(cfg, s, step).completing[n].pkt == Some(step.pkt)
  {
    ResponseExact(cfg, s, step.pkt, step.addr, step.now);
    assert n in s.completing ==> !Pending(s, n);
    if !(Pending(s, n) && s.nodes[n].id == step.pkt.id) {
      assert Untouched(s, Next(cfg, s, step), n);
    }
  }

  lemma CompletingKeepsKey(cfg: Settings, s: State, step: Step, n: nat)
    requires Inv(cfg, s) && Enabled(cfg, s, step) && (n in s.completing || Pending(s, n))
    ensures n < |s.nodes| && n < |Next(cfg, s, step).nodes| && Next(cfg, s, step).nodes[n].key == s.nodes[n].key
  {
    StepKeeps(cfg, s, step);
    assert PendingAt(s.nodes, s.byId, n) || n in s.completing;
    assert Keeps(s.nodes, Next(cfg, s, step).nodes, n);
  }

  lemma CompletingKeepsKeyAt(cfg: Settings, ns: seq<NameServer>, states: seq<State>, steps: seq<Step>, j: nat, n: nat)
    requires History(cfg, ns, states, steps) && j < |steps| && (n in states[j].completing || Pending(states[j], n))
    ensures n < |states[j].nodes| && n < |states[j + 1].nodes| && states[j + 1].nodes[n].key == states[j].nodes[n].key
  {
    HistoryInv(cfg, ns, states, steps, j);
    assert StepAt(cfg, states, steps, j);
    CompletingKeepsKey(cfg, states[j], steps[j], n);
  }

  /** The origin of the state after one more step is that of the state before, or the step itself. */
  lemma OriginStep(cfg: Settings, ns: seq<NameServer>, states: seq<State>, steps: seq<Step>, j: nat, n: nat, k: nat)
    requires History(cfg, ns, states, steps) && k < j < |steps| && n in states[j].completing && n in states[j + 1].completing
    requires Origin(cfg, states, steps, k, j, n, states[j].completing[n].status, states[j].completing[n].pkt)
    ensures Origin(cfg, states, steps, k, j + 1, n, states[j + 1].completing[n].status, states[j + 1].completing[n].pkt)
  {
    assert StepAt(cfg, states, steps, j);
    HistoryInv(cfg, ns, states, steps, j);
    if steps[j].DoInvokeNext? {
      InvokedCompletion(cfg, states[j], steps[j], n);
    } else if steps[j].DoTimeout? {
      TimedOutCompletion(cfg, states[j], steps[j], n);
    } else if steps[j].DoRespond? {
      RespondedCompletion(cfg, states[j], steps[j], n);
    } else {
      OtherCompletions(cfg, states[j], steps[j], n);
    }
  }

  /** A query began to complete with a response or a timeout. */
  lemma OriginBegins(cfg: Settings, ns: seq<NameServer>, states: seq<State>, steps: seq<Step>, j: nat, n: nat)
    requires History(cfg, ns, states, steps) && j < |steps| && n !in states[j].completing && n in states[j + 1].completing
    ensures Origin(cfg, states, steps, j, j + 1, n, states[j + 1].completing[n].status, states[j + 1].completing[n].pkt)
  {
    assert StepAt(cfg, states, steps, j);
    HistoryInv(cfg, ns, states, steps, j);
    if steps[j].DoInvokeNext? {
      InvokedCompletion(cfg, states[j], steps[j], n);
    } else if steps[j].DoTimeout? {
      TimedOutCompletion(cfg, states[j], steps[j], n);
    } else if steps[j].DoRespond? {
      RespondedCompletion(cfg, states[j], steps[j], n);
    } else {
      OtherCompletions(cfg, states[j], steps[j], n);
    }
  }

  lemma {:induction false} OriginOf(cfg: Settings, ns: seq<NameServer>, states: seq<State>, steps: seq<Step>, j: nat, n: nat) returns (k: nat)
    requires History(cfg, ns, states, steps) && j <= |steps| && n in states[j].completing
    ensures k < j && Origin(cfg, states, steps, k, j, n, states[j].completing[n].status, states[j].completing[n].pkt)
    ensures n < |states[j].nodes| && states[j].nodes[n].key == states[k].nodes[n].key
    ensures forall x :: k < x <= j ==> n in states[x].completing
  {
    assert j > 0;
    if n in states[j - 1].completing {
      k := OriginOf(cfg, ns, states, steps, j - 1, n);
      OriginStep(cfg, ns, states, steps, j - 1, n, k);
    } else {
      k := j - 1;
      OriginBegins(cfg, ns, states, steps, j - 1, n);
    }
    CompletingKeepsKeyAt(cfg, ns, states, steps, j - 1, n);
  }

  // ----- every callback is explained -----

  /** The packet the cache held for the request's key when the request was made. */
  predicate ByCache(states: seq<State>, steps: seq<Step>, i: nat, e: Callback)
    requires i < |steps| < |states| && steps[i].DoStart?
  {
    e.pkt.Some? && CacheHolds(states[i], steps[i].key, steps[i].now, e.pkt.value) && Tells(e.status, e.pkt.value)
  }

  /**
   * Between the request and the callback, at step k, the query n for which the request was waiting
   * under its key got a response with its id or timed out.
   */
  predicate ByQuery(cfg: Settings, states: seq<State>, steps: seq<Step>, i: nat, k: nat, j: nat, n: nat, e: Callback)
    requires i < |steps| < |states| && steps[i].DoStart? && k < j <= |steps|
  {
    && i < k && WaitsFor(states[k], states[i].nextRequest, n) && states[k].nodes[n].key == steps[i].key
    && Origin(cfg, states, steps, k, j, n, e.status, e.pkt)
  }

  /** The callback is made by cancelling the request's own query, which was pending under its key. */
  predicate ByCancel(states: seq<State>, steps: seq<Step>, i: nat, j: nat, e: Callback)
    requires i < |steps| < |states| && steps[i].DoStart? && j < |steps|
  {
    && steps[j].DoCancel? && steps[j].notify && Pending(states[j], steps[j].n)
    && states[j].nodes[steps[j].n].cb == Some(states[i].nextRequest) && states[j].nodes[steps[j].n].key == steps[i].key
    && e.status == Canceled && e.pkt == None
  }

  ghost predicate Explained(cfg: Settings, states: seq<State>, steps: seq<Step>, i: nat, j: nat, e: Callback)
    requires i < |steps| < |states| && steps[i].DoStart? && j < |steps|
  {
    || ByCache(states, steps, i, e)
    || (exists k: nat, n: nat :: k < j && ByQuery(cfg, states, steps, i, k, j, n, e))
    || ByCancel(states, steps, i, j, e)
  }

  /** What one step may add to the callbacks made. */
  ghost predicate Calls(s: State, step: Step, e: Callback) {
    var r := e.request;
    && r in s.places
    && match step
       case DoInvokeHit(h) =>
         && s.places[r] == AtHit(h) && h in s.cache.hits && e.pkt == Some(s.cache.hits[h].pkt)
         && e.status == StatusOf(s.cache.hits[h].pkt)
       case DoInvokeNext(n, _) =>
         WaitsFor(s, r, n) && n in s.completing && e.status == s.completing[n].status && e.pkt == s.completing[n].pkt
       case DoCancel(n, notify) =>
         notify && Pending(s, n) && WaitsFor(s, r, n) && s.nodes[n].cb == Some(r) && e.status == Canceled && e.pkt == None
       case _ => false
  }

  lemma HitCalls(cfg: Settings, s: State, h: nat)
    requires Inv(cfg, s) && Enabled(cfg, s, DoInvokeHit(h)) && s.cache.hits[h].cb.Some?
    ensures Calls(s, DoInvokeHit(h), Callback(s.cache.hits[h].cb.value, StatusOf(s.cache.hits[h].pkt), Some(s.cache.hits[h].pkt)))
    ensures s.cache.entries[s.cache.hits[h].entry].pkt == s.cache.hits[h].pkt
  {
  }

  /** The callback of node m is next, and goes to request r. */
  predicate NextInLine(s: State, n: nat, m: nat, r: nat) {
    && n in s.completing && s.completing[n].todo != [] && s.completing[n].todo[0] == m < |s.nodes|
    && s.nodes[m].cb == Some(r)
  }

  lemma NextCalls(s: State, n: nat, edited: Packet, m: nat, r: nat)
    requires Shape(s) && NodePlaces(s.nodes, s.byId, s.completing, s.places) && NextInLine(s, n, m, r)
    ensures Calls(s, DoInvokeNext(n, edited), Callback(r, s.completing[n].status, s.completing[n].pkt))
  {
    NextWaits(s, n);
    assert s.nodes[n].link == Unlinked && KidsOk(s.nodes, n);
    assert m in [n] + s.nodes[n].children;
    assert m == n || m in s.nodes[n].children;
  }

  lemma CancelCalls(cfg: Settings, s: State, n: nat)
    requires Inv(cfg, s) && Enabled(cfg, s, DoCancel(n, true))
    ensures Calls(s, DoCancel(n, true), Callback(s.nodes[n].cb.value, Canceled, None))
  {
    assert PendingAt(s.nodes, s.byId, n);
    assert s.nodes[n].link == Unlinked;
    assert Waiting(s.nodes, s.byId, s.completing, n);
  }

  lemma OthersDoNotCall(cfg: Settings, s: State, step: Step)
    requires Enabled(cfg, s, step) && !step.DoInvokeHit? && !step.DoInvokeNext? && !(step.DoCancel? && step.notify)
    ensures Next(cfg, s, step).trace == s.trace
  {
  }

  lemma StepCalls(cfg: Settings, s: State, step: Step) returns (e: Callback)
    requires Inv(cfg, s) && Enabled(cfg, s, step) && Next(cfg, s, step).trace != s.trace
    ensures Next(cfg, s, step).trace == s.trace + [e] && Calls(s, step, e)
  {
    match step
    case DoInvokeHit(h) =>
      HitCalls(cfg, s, h);
      e := Callback(s.cache.hits[h].cb.value, StatusOf(s.cache.hits[h].pkt), Some(s.cache.hits[h].pkt));
    case DoInvokeNext(n, edited) =>
      var m := s.completing[n].todo[0];
      NextCalls(s, n, edited, m, s.nodes[m].cb.value);
      e := Callback(s.nodes[s.completing[n].todo[0]].cb.value, s.completing[n].status, s.completing[n].pkt);
    case DoCancel(n, notify) =>
      CancelCalls(cfg, s, n);
      e := Callback(s.nodes[n].cb.value, Canceled, None);
    case _ => OthersDoNotCall(cfg, s, step);
  }

  lemma StepCallsAt(cfg: Settings, ns: seq<NameServer>, states: seq<State>, steps: seq<Step>, j: nat) returns (e: Callback)
    requires History(cfg, ns, states, steps) && j < |steps| && states[j + 1].trace != states[j].trace
    ensures states[j + 1].trace == states[j].trace + [e] && Calls(states[j], steps[j], e)
  {
    HistoryInv(cfg, ns, states, steps, j);
    assert StepAt(cfg, states, steps, j);
    e := StepCalls(cfg, states[j], steps[j]);
  }

  /** Every request with a place was started, and before. */
  lemma {:induction false} StartOf(cfg: Settings, ns: seq<NameServer>, states: seq<State>, steps: seq<Step>, j: nat, r: nat) returns (i: nat)
    requires History(cfg, ns, states, steps) && j <= |steps| && r < states[j].nextRequest
    ensures i < j && steps[i].DoStart? && states[i].nextRequest == r
  {
    assert j > 0;
    StepNumbersAt(cfg, ns, states, steps, j - 1);
    if r < states[j - 1].nextRequest {
      i := StartOf(cfg, ns, states, steps, j - 1, r);
    } else {
      i := j - 1;
    }
  }

  lemma StepNumbersAt(cfg: Settings, ns: seq<NameServer>, states: seq<State>, steps: seq<Step>, j: nat)
    requires History(cfg, ns, states, steps) && j < |steps|
    ensures states[j + 1].nextRequest == states[j].nextRequest + if steps[j].DoStart? then 1 else 0
  {
    assert StepAt(cfg, states, steps, j);
    StepNumbers(cfg, states[j], steps[j]);
  }

  lemma Numbered(cfg: Settings, ns: seq<NameServer>, states: seq<State>, steps: seq<Step>, j: nat, r: nat)
    requires History(cfg, ns, states, steps) && j <= |steps| && r in states[j].places
    ensures r < states[j].nextRequest
  {
    HistoryInv(cfg, ns, states, steps, j);
  }

  lemma NotBoth(cfg: Settings, ns: seq<NameServer>, states: seq<State>, steps: seq<Step>, x: nat, n: nat)
    requires History(cfg, ns, states, steps) && x <= |steps| && n in states[x].completing
    ensures !Pending(states[x], n)
  {
    HistoryInv(cfg, ns, states, steps, x);
  }

  /** The callback of a completing query. */
  lemma QueryExplained(cfg: Settings, ns: seq<NameServer>, states: seq<State>, steps: seq<Step>, i: nat, j: nat, e: Callback)
    requires History(cfg, ns, states, steps) && i < j < |steps| && steps[i].DoStart? && states[i].nextRequest == e.request
    requires steps[j].DoInvokeNext? && Calls(states[j], steps[j], e)
    ensures Explained(cfg, states, steps, i, j, e)
  {
    var n := steps[j].n;
    var k := OriginOf(cfg, ns, states, steps, j, n);
    WaitsUnderItsKey(cfg, ns, states, steps, i, j, n);
    if k <= i {
      assert n in states[i + 1].completing;
      NotBoth(cfg, ns, states, steps, i + 1, n);
      assert false;
    }
    WaitsSince(cfg, ns, states, steps, i, k, j, n);
    assert ByQuery(cfg, states, steps, i, k, j, n, e);
  }

  lemma CallExplained(cfg: Settings, ns: seq<NameServer>, states: seq<State>, steps: seq<Step>, i: nat, j: nat, e: Callback)
    requires History(cfg, ns, states, steps) && i < j < |steps| && steps[i].DoStart? && states[i].nextRequest == e.request
    requires Calls(states[j], steps[j], e)
    ensures Explained(cfg, states, steps, i, j, e)
  {
    if steps[j].DoInvokeHit? {
      HitSince(cfg, ns, states, steps, i, j);
      assert ByCache(states, steps, i, e);
    } else if steps[j].DoInvokeNext? {
      QueryExplained(cfg, ns, states, steps, i, j, e);
    } else {
      WaitsUnderItsKey(cfg, ns, states, steps, i, j, steps[j].n);
      assert ByCancel(states, steps, i, j, e);
    }
  }

  /** The step that made the x-th callback. */
  lemma {:induction false} CallOf(cfg: Settings, ns: seq<NameServer>, states: seq<State>, steps: seq<Step>, last: nat, x: nat) returns (j: nat)
    requires History(cfg, ns, states, steps) && last <= |steps| && x < |states[last].trace|
    ensures j < last && |states[j].trace| == x && x < |states[j + 1].trace|
    ensures states[j + 1].trace[x] == states[last].trace[x]
  {
    assert last > 0;
    if states[last].trace != states[last - 1].trace {
      var e := StepCallsAt(cfg, ns, states, steps, last - 1);
    }
    if x < |states[last - 1].trace| {
      j := CallOf(cfg, ns, states, steps, last - 1, x);
    } else {
      j := last - 1;
    }
  }

  /**
   * In every run each callback, of a request made at step i for some key and called back at step j,
   * is given what the cache held for that key when the request was made; or the status of a response
   * whose id is that of the query that was pending under the key and for which the request waited,
   * with the packet of that response or what earlier callbacks of the query left of it; or a timeout,
   * and no packet, after that query had been transmitted as often as the settings say or could not be
   * transmitted again; or its own cancellation.
   */
  lemma EveryCallbackExplained(cfg: Settings, ns: seq<NameServer>, steps: seq<Step>, x: nat)
    returns (states: seq<State>, i: nat, j: nat)
    requires Runs(cfg, InitState(ns), steps) && x < |After(cfg, InitState(ns), steps).trace|
    ensures History(cfg, ns, states, steps) && states[|steps|] == After(cfg, InitState(ns), steps) && i < j < |steps|
    ensures var e := states[|steps|].trace[x];
            && steps[i].DoStart? && states[i].nextRequest == e.request && states[j + 1].trace == states[j].trace + [e]
            && |states[j].trace| == x && Explained(cfg, states, steps, i, j, e)
  {
    states := StatesOf(cfg, InitState(ns), steps);
    j := CallOf(cfg, ns, states, steps, |steps|, x);
    var e := StepCallsAt(cfg, ns, states, steps, j);
    Numbered(cfg, ns, states, steps, j, e.request);
    i := StartOf(cfg, ns, states, steps, j, e.request);
    CallExplained(cfg, ns, states, steps, i, j, e);
  }

  /**
   * A query that got a response is stored under the key it was pending under, with the response's
   * status and what the callbacks left of its packet; one that timed out is not stored at all.
   */
  lemma ResponseStored(cfg: Settings, ns: seq<NameServer>, states: seq<State>, steps: seq<Step>, j: nat) returns (k: nat)
    requires History(cfg, ns, states, steps) && j < |steps| && steps[j].DoFinish?
    ensures var n := steps[j].n;
            && n in states[j].completing && k < j && Pending(states[k], n)
            && if steps[k].DoRespond? then
                 && states[k].nodes[n].id == steps[k].pkt.id && Tells(states[j].completing[n].status, steps[k].pkt)
                 && states[j + 1].log == states[j].log
                    + [Stored(states[k].nodes[n].key, steps[j].now, states[j].completing[n].status, true,
                              Left(states, steps, k + 1, j, n, steps[k].pkt), cfg.cacheMaxTtl)]
               else steps[k].DoTimeout? && steps[k].n == n && states[j + 1].log == states[j].log
  {
    var n := steps[j].n;
    FinishAt(cfg, states, steps, ns, j);
    k := OriginOf(cfg, ns, states, steps, j, n);
  }

  lemma FinishAt(cfg: Settings, states: seq<State>, steps: seq<Step>, ns: seq<NameServer>, j: nat)
    requires History(cfg, ns, states, steps) && j < |steps| && steps[j].DoFinish?
    ensures var s, n := states[j], steps[j].n;
            && n in s.completing && n < |s.nodes|
            && var c := s.completing[n];
               states[j + 1].log == s.log
                 + if c.pkt.Some? then [Stored(s.nodes[n].key, steps[j].now, c.status, true, c.pkt.value, cfg.cacheMaxTtl)] else []
  {
    assert StepAt(cfg, states, steps, j);
    assert states[j].log + [] == states[j].log;
  }
}
