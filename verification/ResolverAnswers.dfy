/**
 * Who is still owed an answer: each accepted request has one place, and its callback has been
 * made once if that place is `Answered` and not at all otherwise.
 */
module ResolverAnswers {
  import opened Bytes
  import opened DnsPackets
  import opened ResponseCache
  import opened Nameservers
  import opened ResolverSteps
  import opened ResolverShape

  type Places = map<nat, Place>

  /** How often the callback of a request was made. */
  function Answers(trace: seq<Callback>, r: nat): nat {
    if trace == [] then 0
    else Answers(trace[..|trace| - 1], r) + if trace[|trace| - 1].request == r then 1 else 0
  }

  function HeadOf(nodes: Nodes, n: nat): nat
    requires n < |nodes|
  {
    if nodes[n].link.ChildOf? then nodes[n].link.parent else n
  }

  /** The callback the node carries is still to be made. */
  ghost predicate Waiting(nodes: Nodes, byId: map<nat, nat>, completing: map<nat, Completion>, n: nat) {
    && n < |nodes| && nodes[n].link != InFree
    && var h := HeadOf(nodes, n);
       PendingAt(nodes, byId, h) || (h in completing && n in completing[h].todo)
  }

  ghost predicate NodePlaces(nodes: Nodes, byId: map<nat, nat>, completing: map<nat, Completion>, places: Places) {
    && (forall r :: r in places && places[r].AtNode? ==>
          Waiting(nodes, byId, completing, places[r].node) && nodes[places[r].node].cb == Some(r))
    && (forall n: nat :: Waiting(nodes, byId, completing, n) && nodes[n].cb.Some? ==>
          nodes[n].cb.value in places && places[nodes[n].cb.value] == AtNode(n))
  }

  ghost predicate HitPlaces(hits: map<nat, Hit>, places: Places) {
    && (forall r :: r in places && places[r].AtHit? ==>
          places[r].hit in hits && hits[places[r].hit].cb == Some(r) && !hits[places[r].hit].invoked)
    && (forall h :: h in hits && !hits[h].invoked && hits[h].cb.Some? ==>
          hits[h].cb.value in places && places[hits[h].cb.value] == AtHit(h))
  }

  ghost predicate TraceOk(trace: seq<Callback>, places: Places) {
    forall r :: Answers(trace, r) == if r in places && places[r] == Answered then 1 else 0
  }

  ghost predicate AnswersOk(s: State) {
    && NodePlaces(s.nodes, s.byId, s.completing, s.places)
    && HitPlaces(s.cache.hits, s.places)
    && TraceOk(s.trace, s.places)
    && (forall r :: r in s.places ==> r < s.nextRequest)
  }

  // ----- the parts, under one change each -----

  lemma AnswerNow(trace: seq<Callback>, places: Places, cb: Callback)
    requires TraceOk(trace, places) && (cb.request in places ==> places[cb.request] != Answered)
    ensures TraceOk(trace + [cb], places[cb.request := Answered])
  {
    assert (trace + [cb])[..|trace|] == trace;
  }

  lemma TraceMoved(trace: seq<Callback>, places: Places, r: nat, place: Place)
    requires TraceOk(trace, places) && (r in places ==> places[r] != Answered) && place != Answered
    ensures TraceOk(trace, places[r := place])
  {
  }

  lemma HitsUntouched(hits: map<nat, Hit>, places: Places, r: nat, place: Place)
    requires HitPlaces(hits, places) && (r in places ==> !places[r].AtHit?) && !place.AtHit?
    ensures HitPlaces(hits, places[r := place])
  {
  }

  lemma NodesUntouched(nodes: Nodes, byId: map<nat, nat>, completing: map<nat, Completion>, places: Places, r: nat, place: Place)
    requires NodePlaces(nodes, byId, completing, places) && (r in places ==> !places[r].AtNode?) && !place.AtNode?
    ensures NodePlaces(nodes, byId, completing, places[r := place])
  {
  }

  /** The same nodes wait, for the same requests. */
  lemma NodesSame(nodes: Nodes, byId: map<nat, nat>, completing: map<nat, Completion>,
                  nodes': Nodes, byId': map<nat, nat>, completing': map<nat, Completion>, places: Places)
    requires NodePlaces(nodes, byId, completing, places)
    requires forall n: nat :: Waiting(nodes', byId', completing', n) <==> Waiting(nodes, byId, completing, n)
    requires forall n: nat :: Waiting(nodes, byId, completing, n) ==> n < |nodes'| && nodes'[n].cb == nodes[n].cb
    ensures NodePlaces(nodes', byId', completing', places)
  {
  }

  /** One more node waits, for a request that had no place yet. */
  lemma NodesGrown(nodes: Nodes, byId: map<nat, nat>, completing: map<nat, Completion>,
                   nodes': Nodes, byId': map<nat, nat>, places: Places, n: nat)
    requires NodePlaces(nodes, byId, completing, places) && n < |nodes'|
    requires !Waiting(nodes, byId, completing, n)
    requires forall m: nat :: Waiting(nodes', byId', completing, m) <==> Waiting(nodes, byId, completing, m) || m == n
    requires forall m: nat :: Waiting(nodes, byId, completing, m) ==> m < |nodes'| && nodes'[m].cb == nodes[m].cb
    requires nodes'[n].cb.Some? ==> nodes'[n].cb.value !in places
    ensures NodePlaces(nodes', byId', completing, Place1(places, nodes'[n].cb, AtNode(n)))
  {
  }

  /** Node m stops waiting: its request, if any, is moved to another place. */
  lemma NodesShrunk(nodes: Nodes, byId: map<nat, nat>, completing: map<nat, Completion>,
                    nodes': Nodes, completing': map<nat, Completion>, places: Places, m: nat, place: Place)
    requires NodePlaces(nodes, byId, completing, places) && Waiting(nodes, byId, completing, m) && !place.AtNode?
    requires forall n: nat :: Waiting(nodes', byId, completing', n) && nodes'[n].cb.Some? <==>
                              Waiting(nodes, byId, completing, n) && nodes[n].cb.Some? && n != m
    requires forall n: nat :: Waiting(nodes, byId, completing, n) && n != m ==> n < |nodes'| && nodes'[n].cb == nodes[n].cb
    requires forall n: nat :: Waiting(nodes, byId, completing, n) && n != m ==> Waiting(nodes', byId, completing', n)
    ensures NodePlaces(nodes', byId, completing', Place1(places, nodes[m].cb, place))
  {
  }

  // ----- which nodes wait after each step -----

  lemma ReplacedWaiting(nodes: Nodes, t: Nodes, byId: map<nat, nat>, completing: map<nat, Completion>, n: nat)
    requires ChildrenOk(nodes) && Replaced(nodes, t, n) && NotIndexed(byId, n) && n !in completing
    requires n < |nodes| ==> nodes[n].link == InFree
    requires t[n].link == Unlinked
    ensures forall m: nat :: Waiting(t, byId, completing, m) <==> Waiting(nodes, byId, completing, m)
    ensures !Waiting(nodes, byId, completing, n)
  {
    assert forall m: nat :: PendingAt(t, byId, m) <==> PendingAt(nodes, byId, m);
    forall m: nat ensures Waiting(t, byId, completing, m) <==> Waiting(nodes, byId, completing, m) {
      if m < |nodes| && m != n {
        assert nodes[m].link.ChildOf? ==> nodes[m].link.parent != n;
      }
    }
  }

  lemma LinkedWaiting(nodes: Nodes, byId: map<nat, nat>, completing: map<nat, Completion>, p: nat, n: nat)
    requires ChildrenOk(nodes) && p < |nodes| && n < |nodes| && PendingAt(nodes, byId, p) && p != n
    requires nodes[n].link == Unlinked && nodes[n].children == [] && NotIndexed(byId, n) && n !in completing
    ensures forall m: nat :: Waiting(LinkChild(nodes, p, n), byId, completing, m) <==>
                             Waiting(nodes, byId, completing, m) || m == n
    ensures !Waiting(nodes, byId, completing, n)
  {
    var t := LinkChild(nodes, p, n);
    assert KidsOk(nodes, n);
    assert forall m: nat :: PendingAt(t, byId, m) <==> PendingAt(nodes, byId, m);
    forall m: nat ensures Waiting(t, byId, completing, m) <==> Waiting(nodes, byId, completing, m) || m == n {
    }
  }

  lemma PublishedWaiting(nodes: Nodes, byId: map<nat, nat>, completing: map<nat, Completion>, n: nat)
    requires ChildrenOk(nodes) && n < |nodes| && nodes[n].link == Unlinked && nodes[n].children == []
    requires nodes[n].id !in byId && NotIndexed(byId, n) && n !in completing
    ensures forall m: nat :: Waiting(nodes, byId[nodes[n].id := n], completing, m) <==>
                             Waiting(nodes, byId, completing, m) || m == n
    ensures !Waiting(nodes, byId, completing, n)
  {
    var byId' := byId[nodes[n].id := n];
    assert KidsOk(nodes, n);
    assert forall m: nat :: PendingAt(nodes, byId', m) <==> PendingAt(nodes, byId, m) || m == n;
    forall m: nat ensures Waiting(nodes, byId', completing, m) <==> Waiting(nodes, byId, completing, m) || m == n {
      if m < |nodes| && m != n && HeadOf(nodes, m) == n {
        assert false;
      }
    }
  }

  lemma TimerWaiting(nodes: Nodes, t: Nodes, byId: map<nat, nat>, completing: map<nat, Completion>)
    requires SameNodes(nodes, t)
    ensures forall m: nat :: Waiting(t, byId, completing, m) <==> Waiting(nodes, byId, completing, m)
  {
    forall m: nat ensures Waiting(t, byId, completing, m) <==> Waiting(nodes, byId, completing, m) {
      if m < |nodes| {
        assert SameNode(nodes[m], t[m]);
        var h := HeadOf(nodes, m);
        if h < |nodes| {
          assert SameNode(nodes[h], t[h]);
        }
      }
    }
  }

  lemma CompletedWaiting(nodes: Nodes, byId: map<nat, nat>, byRes: map<Key, nat>, completing: map<nat, Completion>, n: nat, c: Completion)
    requires ChildrenOk(nodes) && IndexOk(nodes, byId, byRes) && PendingAt(nodes, byId, n)
    requires nodes[n].link == Unlinked && n !in completing && c.todo == [n] + nodes[n].children
    ensures forall m: nat :: Waiting(nodes, byId - {nodes[n].id}, completing[n := c], m) <==> Waiting(nodes, byId, completing, m)
  {
    var byId', completing' := byId - {nodes[n].id}, completing[n := c];
    IndexGone(nodes, byId, byRes, n);
    assert KidsOk(nodes, n);
    forall m: nat ensures Waiting(nodes, byId', completing', m) <==> Waiting(nodes, byId, completing, m) {
      if m < |nodes| && HeadOf(nodes, m) == n {
        assert m == n || m in nodes[n].children;
      }
    }
  }

  lemma InvokedWaiting(nodes: Nodes, byId: map<nat, nat>, completing: map<nat, Completion>, n: nat, c: Completion)
    requires ChildrenOk(nodes) && n < |nodes| && nodes[n].link == Unlinked && !PendingAt(nodes, byId, n)
    requires n in completing && completing[n].todo != [] && Suffix(completing[n].todo, [n] + nodes[n].children)
    requires c.todo == completing[n].todo[1..]
    ensures var m := completing[n].todo[0];
            && m < |nodes| && Waiting(nodes, byId, completing, m)
            && forall k: nat :: Waiting(nodes, byId, completing[n := c], k) <==> Waiting(nodes, byId, completing, k) && k != m
  {
    var all, todo := [n] + nodes[n].children, completing[n].todo;
    var m, completing' := todo[0], completing[n := c];
    assert KidsOk(nodes, n);
    assert m in all && (m == n || m in nodes[n].children);
    forall k: nat ensures Waiting(nodes, byId, completing', k) <==> Waiting(nodes, byId, completing, k) && k != m {
      if k < |nodes| && HeadOf(nodes, k) == n {
        OnlyOnce(n, nodes[n].children, todo, k);
      }
    }
  }

  lemma OnlyOnce(n: nat, children: seq<nat>, todo: seq<nat>, k: nat)
    requires NoDup(children) && n !in children && todo != [] && Suffix(todo, [n] + children)
    ensures k in todo[1..] <==> k in todo && k != todo[0]
  {
    NoDupAppend([n], children);
    NoDupSuffix(todo, [n] + children);
    HeadOnce(todo, k);
  }

  lemma NoDupSuffix(todo: seq<nat>, all: seq<nat>)
    requires NoDup(all) && Suffix(todo, all)
    ensures NoDup(todo)
  {
    var d := |all| - |todo|;
    assert forall i :: 0 <= i < |todo| ==> todo[i] == all[d + i];
  }

  lemma HeadOnce(todo: seq<nat>, k: nat)
    requires NoDup(todo) && todo != []
    ensures k in todo[1..] <==> k in todo && k != todo[0]
  {
    assert todo == [todo[0]] + todo[1..];
    if k in todo[1..] {
      var i :| 0 <= i < |todo| - 1 && todo[1..][i] == k;
      assert todo[i + 1] == k;
    }
  }

  lemma FinishedWaiting(nodes: Nodes, byId: map<nat, nat>, completing: map<nat, Completion>, n: nat)
    requires ChildrenOk(nodes) && n < |nodes| && nodes[n].link == Unlinked && !PendingAt(nodes, byId, n)
    requires n in completing && completing[n].todo == []
    ensures forall m: nat :: Waiting(Recycle(nodes, nodes[n].children + [n]), byId, completing - {n}, m) <==>
                             Waiting(nodes, byId, completing, m)
  {
    var list := nodes[n].children + [n];
    var t := Recycle(nodes, list);
    Family(nodes, n);
    assert forall m: nat :: PendingAt(t, byId, m) <==> PendingAt(nodes, byId, m);
    forall m: nat ensures Waiting(t, byId, completing - {n}, m) <==> Waiting(nodes, byId, completing, m) {
      if m < |nodes| {
        if m in list {
          assert HeadOf(nodes, m) == n;
        } else {
          assert t[m] == nodes[m] && HeadOf(nodes, m) != n;
        }
      }
    }
  }

  // ----- every step keeps the account -----

  lemma HitsAdded(hits: map<nat, Hit>, places: Places, h: nat, hit: Hit)
    requires HitPlaces(hits, places) && h !in hits && !hit.invoked
    requires hit.cb.Some? ==> hit.cb.value !in places
    ensures HitPlaces(hits[h := hit], Place1(places, hit.cb, AtHit(h)))
  {
  }

  lemma HitInvoked(hits: map<nat, Hit>, places: Places, h: nat)
    requires HitPlaces(hits, places) && h in hits && !hits[h].invoked
    ensures HitPlaces(hits[h := hits[h].(invoked := true)], Place1(places, hits[h].cb, Answered))
    ensures hits[h].cb.Some? ==> hits[h].cb.value in places && places[hits[h].cb.value] == AtHit(h)
  {
  }

  lemma HitGone(hits: map<nat, Hit>, places: Places, h: nat)
    requires HitPlaces(hits, places) && h in hits && hits[h].invoked
    ensures HitPlaces(hits - {h}, places)
  {
  }

  lemma LookupHits(c: Cache, key: Key, cb: Option<nat>, now: int)
    ensures var (c', hit) := Lookup(c, key, cb, now);
            && (hit.Some? ==> hit.value == c.nextHit && c'.hits == c.hits[c.nextHit := c'.hits[c.nextHit]] &&
                              c'.hits[c.nextHit].cb == cb && !c'.hits[c.nextHit].invoked)
            && (hit.None? ==> c'.hits == c.hits)
  {
  }

  lemma StartHitAnswers(s: State, key: Key, cb: Option<nat>, now: int)
    requires AnswersOk(s) && s.cache.nextHit !in s.cache.hits && Lookup(s.cache, key, cb, now).1.Some?
    requires cb.Some? ==> cb.value == s.nextRequest
    ensures var (cache, hit) := Lookup(s.cache, key, cb, now);
            AnswersOk(s.(cache := cache, log := s.log + [LookedUp(key, now)], nextRequest := s.nextRequest + 1,
                         places := Place1(s.places, cb, AtHit(hit.value))))
  {
    var h := s.cache.nextHit;
    LookupHits(s.cache, key, cb, now);
    HitsAdded(s.cache.hits, s.places, h, Lookup(s.cache, key, cb, now).0.hits[h]);
    if cb.Some? {
      NodesUntouched(s.nodes, s.byId, s.completing, s.places, cb.value, AtHit(h));
      TraceMoved(s.trace, s.places, cb.value, AtHit(h));
    }
  }

  lemma MergeAnswers(s: State, key: Key, cb: Option<nat>)
    requires Shape(s) && AnswersOk(s) && key in s.byRes && s.byRes[key] < |s.nodes|
    requires cb.Some? ==> cb.value !in s.places && cb.value < s.nextRequest
    ensures AnswersOk(Merge(s, s.byRes[key], cb).0)
  {
    var p := s.byRes[key];
    AllocShape(s, cb);
    var (s1, n) := Alloc(s, cb);
    assert PendingAt(s1.nodes, s.byId, p);
    MergedAnswers(s, s1.nodes, p, n, cb);
  }

  lemma MergedAnswers(s: State, nodes: Nodes, p: nat, n: nat, cb: Option<nat>)
    requires AnswersOk(s) && ChildrenOk(s.nodes) && ChildrenOk(nodes)
    requires Replaced(s.nodes, nodes, n) && nodes[n] == BlankNode(cb) && (n < |s.nodes| ==> s.nodes[n].link == InFree)
    requires NotIndexed(s.byId, n) && n !in s.completing && p < |nodes| && PendingAt(nodes, s.byId, p) && p != n
    requires cb.Some? ==> cb.value !in s.places && cb.value < s.nextRequest
    ensures AnswersOk(s.(nodes := LinkChild(nodes, p, n), places := Place1(s.places, cb, AtNode(n))))
    ensures forall free :: AnswersOk(s.(nodes := LinkChild(nodes, p, n), free := free, places := Place1(s.places, cb, AtNode(n))))
  {
    ReplacedWaiting(s.nodes, nodes, s.byId, s.completing, n);
    LinkedWaiting(nodes, s.byId, s.completing, p, n);
    NodesGrown(s.nodes, s.byId, s.completing, LinkChild(nodes, p, n), s.byId, s.places, n);
    if cb.Some? {
      HitsUntouched(s.cache.hits, s.places, cb.value, AtNode(n));
      TraceMoved(s.trace, s.places, cb.value, AtNode(n));
    }
  }

  lemma LaunchedAnswers(s: State, t: State, n: nat)
    requires AnswersOk(s) && ChildrenOk(s.nodes) && ChildrenOk(t.nodes)
    requires Replaced(s.nodes, t.nodes, n) && t.nodes[n].link == Unlinked && t.nodes[n].children == []
    requires n < |s.nodes| ==> s.nodes[n].link == InFree
    requires NotIndexed(s.byId, n) && n !in s.completing && t.nodes[n].id !in s.byId
    requires t.byId == s.byId && t.completing == s.completing && t.places == s.places && t.cache == s.cache && t.trace == s.trace
    requires t.nextRequest == s.nextRequest
    requires t.nodes[n].cb.Some? ==> t.nodes[n].cb.value !in s.places && t.nodes[n].cb.value < s.nextRequest
    ensures AnswersOk(Publish(t, n))
  {
    var cb := t.nodes[n].cb;
    ReplacedWaiting(s.nodes, t.nodes, s.byId, s.completing, n);
    PublishedWaiting(t.nodes, s.byId, s.completing, n);
    NodesGrown(s.nodes, s.byId, s.completing, t.nodes, s.byId[t.nodes[n].id := n], s.places, n);
    if cb.Some? {
      HitsUntouched(s.cache.hits, s.places, cb.value, AtNode(n));
      TraceMoved(s.trace, s.places, cb.value, AtNode(n));
    }
  }

  lemma DiscardedWaiting(nodes: Nodes, byId: map<nat, nat>, completing: map<nat, Completion>, n: nat)
    requires ChildrenOk(nodes) && n < |nodes| && nodes[n].link == Unlinked && nodes[n].children == []
    requires NotIndexed(byId, n) && n !in completing
    ensures forall m: nat :: Waiting(Recycle(nodes, [n]), byId, completing, m) <==> Waiting(nodes, byId, completing, m)
  {
    var t := Recycle(nodes, [n]);
    assert KidsOk(nodes, n);
    assert forall m: nat :: PendingAt(t, byId, m) <==> PendingAt(nodes, byId, m);
    forall m: nat ensures Waiting(t, byId, completing, m) <==> Waiting(nodes, byId, completing, m) {
      if m < |nodes| && m != n && HeadOf(nodes, m) == n {
        assert false;
      }
    }
  }

  lemma DiscardedAnswers(s: State, t: State, n: nat)
    requires AnswersOk(s) && ChildrenOk(s.nodes) && ChildrenOk(t.nodes)
    requires Replaced(s.nodes, t.nodes, n) && t.nodes[n].link == Unlinked && t.nodes[n].children == []
    requires n < |s.nodes| ==> s.nodes[n].link == InFree
    requires NotIndexed(s.byId, n) && n !in s.completing
    requires t.byId == s.byId && t.completing == s.completing && t.places == s.places && t.cache == s.cache && t.trace == s.trace
    requires t.nextRequest == s.nextRequest
    ensures AnswersOk(Discard(t, n))
  {
    ReplacedWaiting(s.nodes, t.nodes, s.byId, s.completing, n);
    DiscardedWaiting(t.nodes, s.byId, s.completing, n);
    NodesSame(s.nodes, s.byId, s.completing, Recycle(t.nodes, [n]), s.byId, s.completing, s.places);
  }

  lemma PreparedNode(cfg: Settings, s: State, key: Key, cb: Option<nat>, net: Network, now: int)
    requires Shape(s) && TimersOk(cfg, s)
    ensures var (t, n, status) := Prepare(cfg, s, key, cb, net, now);
            && Replaced(s.nodes, t.nodes, n) && n !in s.completing && (n < |s.nodes| ==> s.nodes[n].link == InFree)
  {
    AllocShape(s, cb);
    var (s1, n) := Alloc(s, cb);
    var s2 := s1.(nodes := s1.nodes[n := s1.nodes[n].(id := s.lastId, key := key)], lastId := NextId(s.lastId));
    assert n !in s.timers;
    TransmitEffect(cfg, s2, n, net, now);
  }

  lemma LaunchAnswers(cfg: Settings, s: State, key: Key, cb: Option<nat>, net: Network, now: int)
    requires Launch(cfg, s, key, cb, net, now).1.Started? ==> s.lastId !in s.byId
    requires Shape(s) && TimersOk(cfg, s) && AnswersOk(s)
    requires cb.Some? ==> cb.value !in s.places && cb.value < s.nextRequest
    ensures AnswersOk(Launch(cfg, s, key, cb, net, now).0)
  {
    PrepareShape(cfg, s, key, cb, net, now);
    PreparedNode(cfg, s, key, cb, net, now);
    var (t, n, status) := Prepare(cfg, s, key, cb, net, now);
    if status == TxOk {
      LaunchedAnswers(s, t, n);
    } else {
      DiscardedAnswers(s, t, n);
    }
  }

  lemma EnqueueAnswers(cfg: Settings, s: State, key: Key, cb: Option<nat>, net: Network, now: int)
    requires Enqueue(cfg, s, key, cb, net, now).1.Started? ==> s.lastId !in s.byId
    requires Shape(s) && TimersOk(cfg, s) && AnswersOk(s)
    requires cb.Some? ==> cb.value !in s.places && cb.value < s.nextRequest
    ensures AnswersOk(Enqueue(cfg, s, key, cb, net, now).0)
  {
    if key in s.byRes {
      assert s.byRes[key] < |s.nodes|;
      MergeAnswers(s, key, cb);
    } else {
      LaunchAnswers(cfg, s, key, cb, net, now);
    }
  }

  lemma StartAnswers(cfg: Settings, s: State, key: Key, hasCb: bool, net: Network, now: int)
    requires Start(cfg, s, key, hasCb, net, now).1.Started? ==> s.lastId !in s.byId
    requires Shape(s) && TimersOk(cfg, s) && AnswersOk(s) && s.cache.nextHit !in s.cache.hits
    ensures AnswersOk(Start(cfg, s, key, hasCb, net, now).0)
  {
    var (s1, hit) := Consult(s, key, hasCb, now);
    LookupHits(s.cache, key, RequestOf(s, hasCb), now);
    if hit.Some? {
      StartHitAnswers(s, key, RequestOf(s, hasCb), now);
    } else {
      ShapeSame(s, s1);
      assert AnswersOk(s1);
      EnqueueAnswers(cfg, s1, key, RequestOf(s, hasCb), net, now);
    }
  }

  lemma InvokeHitAnswers(s: State, h: nat)
    requires AnswersOk(s) && h in s.cache.hits && !s.cache.hits[h].invoked && s.cache.hits[h].entry in s.cache.entries
    ensures AnswersOk(InvokeHit(s, h))
  {
    var cb := s.cache.hits[h].cb;
    HitInvoked(s.cache.hits, s.places, h);
    if cb.Some? {
      var pkt := s.cache.entries[s.cache.hits[h].entry].pkt;
      AnswerNow(s.trace, s.places, Callback(cb.value, StatusOf(pkt), Some(pkt)));
      NodesUntouched(s.nodes, s.byId, s.completing, s.places, cb.value, Answered);
    }
  }

  /** Nodes that only changed their timer, and queries that moved to completion, wait as before. */
  lemma CompletedAnswers(s: State, n: nat, status: Status, pkt: Option<Packet>)
    requires AnswersOk(s) && ChildrenOk(s.nodes) && IndexOk(s.nodes, s.byId, s.byRes) && PendingAt(s.nodes, s.byId, n)
    requires s.nodes[n].link == Unlinked && n !in s.completing
    ensures AnswersOk(Complete(s, n, status, pkt))
  {
    var t := Complete(s, n, status, pkt);
    CompletedWaiting(s.nodes, s.byId, s.byRes, s.completing, n, t.completing[n]);
    NodesSame(s.nodes, s.byId, s.completing, t.nodes, t.byId, t.completing, s.places);
  }

  lemma TimerAnswers(s: State, t: State, n: nat)
    requires AnswersOk(s) && n < |s.nodes| && n < |t.nodes| && t.nodes == s.nodes[n := t.nodes[n]]
    requires SameNode(s.nodes[n], t.nodes[n]) && t.nodes[n].cb == s.nodes[n].cb
    requires t.byId == s.byId && t.completing == s.completing && t.places == s.places && t.trace == s.trace
    requires t.cache == s.cache && t.nextRequest == s.nextRequest
    ensures AnswersOk(t)
  {
    TimerWaiting(s.nodes, t.nodes, s.byId, s.completing);
    NodesSame(s.nodes, s.byId, s.completing, t.nodes, t.byId, t.completing, s.places);
  }

  lemma DisarmAnswers(s: State, n: nat)
    requires AnswersOk(s) && n < |s.nodes|
    ensures AnswersOk(Disarm(s, n))
  {
    TimerAnswers(s, Disarm(s, n), n);
  }

  lemma TimeoutAnswers(cfg: Settings, s: State, n: nat, net: Network, now: int)
    requires Shape(s) && AnswersOk(s) && PendingAt(s.nodes, s.byId, n)
    ensures AnswersOk(Timeout(cfg, s, n, net, now))
  {
    DisarmShape(s, n);
    DisarmAnswers(s, n);
    DisarmedAnswers(cfg, Disarm(s, n), s.nodes[n].transmitCnt < cfg.qretrCount, n, net, now);
  }

  lemma DisarmedAnswers(cfg: Settings, s: State, again: bool, n: nat, net: Network, now: int)
    requires Shape(s) && AnswersOk(s) && PendingAt(s.nodes, s.byId, n) && n !in s.timers
    ensures var (t, status) := Transmit(cfg, s, n, net, now);
            AnswersOk(if !again then Complete(s, n, TimedOut, None)
                      else if status == TxOk then t else Complete(t, n, TimedOut, None))
  {
    if again {
      RetransmitShape(cfg, s, n, net, now);
      TransmitEffect(cfg, s, n, net, now);
      var (t, status) := Transmit(cfg, s, n, net, now);
      TimerAnswers(s, t, n);
      if status != TxOk {
        CompletedAnswers(t, n, TimedOut, None);
      }
    } else {
      CompletedAnswers(s, n, TimedOut, None);
    }
  }

  lemma RespondedAnswers(s: State, n: nat, status: Status, pkt: Option<Packet>)
    requires Shape(s) && AnswersOk(s) && PendingAt(s.nodes, s.byId, n)
    ensures AnswersOk(Complete(Disarm(s, n), n, status, pkt))
  {
    DisarmShape(s, n);
    DisarmAnswers(s, n);
    CompletedAnswers(Disarm(s, n), n, status, pkt);
  }

  lemma RespondAnswers(cfg: Settings, s: State, pkt: Packet, addr: nat, now: int)
    requires Shape(s) && AnswersOk(s)
    ensures AnswersOk(Respond(cfg, s, pkt, addr, now))
  {
    var s1 := s.(ns := Report(cfg, s.ns, 0, addr, Some(pkt), now));
    ShapeSame(s, s1);
    assert AnswersOk(s1);
    if pkt.id in s.byId {
      assert PendingAt(s.nodes, s.byId, s.byId[pkt.id]);
      RespondedAnswers(s1, s.byId[pkt.id], StatusOf(pkt), Some(pkt));
    }
  }

  lemma InvokeNextAnswers(s: State, n: nat, edited: Packet)
    requires Shape(s) && AnswersOk(s) && n in s.completing && s.completing[n].todo != []
    requires s.completing[n].todo[0] < |s.nodes|
    ensures AnswersOk(InvokeNext(s, n, Some(edited)))
  {
    var t := InvokeNext(s, n, Some(edited));
    InvokeNextFields(s, n, edited);
    assert n < |s.nodes|;
    InvokedWaiting(s.nodes, s.byId, s.completing, n, t.completing[n]);
    InvokedAnswers(s, n, s.completing[n].todo[0], t);
  }

  lemma InvokedAnswers(s: State, n: nat, m: nat, t: State)
    requires AnswersOk(s) && Waiting(s.nodes, s.byId, s.completing, m)
    requires forall k: nat :: Waiting(s.nodes, s.byId, t.completing, k) <==> Waiting(s.nodes, s.byId, s.completing, k) && k != m
    requires t.nodes == s.nodes && t.byId == s.byId && t.cache == s.cache && t.nextRequest == s.nextRequest
    requires t.places == Place1(s.places, s.nodes[m].cb, Answered)
    requires if s.nodes[m].cb.Some? then
               exists status, pkt :: t.trace == s.trace + [Callback(s.nodes[m].cb.value, status, pkt)]
             else t.trace == s.trace
    ensures AnswersOk(t)
  {
    var cb := s.nodes[m].cb;
    NodesShrunk(s.nodes, s.byId, s.completing, s.nodes, t.completing, s.places, m, Answered);
    if cb.Some? {
      var status, pkt :| t.trace == s.trace + [Callback(cb.value, status, pkt)];
      AnswerNow(s.trace, s.places, Callback(cb.value, status, pkt));
      HitsUntouched(s.cache.hits, s.places, cb.value, Answered);
    }
  }

  lemma FinishAnswers(cfg: Settings, s: State, n: nat, now: int)
    requires Shape(s) && AnswersOk(s) && n in s.completing && s.completing[n].todo == []
    ensures AnswersOk(Finish(cfg, s, n, now))
  {
    FinishFields(cfg, s, n, now);
    var s1 := s.(nodes := s.nodes[n := s.nodes[n].(timerId := 0)]);
    ShapeTimer(s, n, s1);
    TimerAnswers(s, s1, n);
    FinishedWaiting(s1.nodes, s.byId, s.completing, n);
    FinishedAnswers(s1, n, Finish(cfg, s, n, now));
    UpdateHits(cfg, s, n, now);
  }

  lemma FinishedAnswers(s: State, n: nat, t: State)
    requires NodePlaces(s.nodes, s.byId, s.completing, s.places) && n < |s.nodes|
    requires t.nodes == Recycle(s.nodes, s.nodes[n].children + [n]) && t.byId == s.byId && t.completing == s.completing - {n}
    requires forall m: nat :: Waiting(t.nodes, s.byId, s.completing - {n}, m) <==> Waiting(s.nodes, s.byId, s.completing, m)
    ensures NodePlaces(t.nodes, t.byId, t.completing, s.places)
  {
    NodesSame(s.nodes, s.byId, s.completing, t.nodes, t.byId, t.completing, s.places);
  }

  lemma UpdateHits(cfg: Settings, s: State, n: nat, now: int)
    requires n in s.completing && n < |s.nodes|
    ensures Finish(cfg, s, n, now).cache.hits == s.cache.hits
  {
    var c := s.completing[n];
    if c.pkt.Some? {
      UpdateKeepsHits(s.cache, s.nodes[n].key, c.status, true, c.pkt.value, cfg.cacheMaxTtl, now);
    }
  }

  lemma CanceledPlaces(nodes: Nodes, byId: map<nat, nat>, completing: map<nat, Completion>, places: Places, n: nat, place: Place)
    requires NodePlaces(nodes, byId, completing, places) && Waiting(nodes, byId, completing, n) && nodes[n].cb.Some? && !place.AtNode?
    ensures NodePlaces(nodes[n := nodes[n].(cb := None)], byId, completing, places[nodes[n].cb.value := place])
    ensures nodes[n].cb.value in places && places[nodes[n].cb.value] == AtNode(n)
  {
    var t := nodes[n := nodes[n].(cb := None)];
    TimerWaiting(nodes, t, byId, completing);
    NodesShrunk(nodes, byId, completing, t, completing, places, n, place);
  }

  lemma CancelAnswers(s: State, n: nat, notify: bool)
    requires AnswersOk(s) && PendingAt(s.nodes, s.byId, n) && s.nodes[n].link == Unlinked && s.nodes[n].cb.Some?
    ensures AnswersOk(Cancel(s, n, notify))
  {
    var r := s.nodes[n].cb.value;
    var place := if notify then Answered else Silenced;
    CanceledPlaces(s.nodes, s.byId, s.completing, s.places, n, place);
    HitsUntouched(s.cache.hits, s.places, r, place);
    if notify {
      AnswerNow(s.trace, s.places, Callback(r, Canceled, None));
    } else {
      TraceMoved(s.trace, s.places, r, Silenced);
    }
  }

  lemma QuietAnswers(cfg: Settings, s: State, step: Step)
    requires AnswersOk(s) && Enabled(cfg, s, step) && Quiet(step)
    ensures AnswersOk(Next(cfg, s, step))
  {
    if step.DoInvokeHit? {
      InvokeHitAnswers(s, step.h);
    } else if step.DoReturnHit? {
      HitGone(s.cache.hits, s.places, step.h);
    }
  }

  lemma NextAnswers(cfg: Settings, s: State, step: Step)
    requires Shape(s) && TimersOk(cfg, s) && AnswersOk(s) && Enabled(cfg, s, step) && s.cache.nextHit !in s.cache.hits
    ensures AnswersOk(Next(cfg, s, step))
  {
    if Quiet(step) {
      QuietAnswers(cfg, s, step);
    } else if step.DoStart? {
      StartAnswers(cfg, s, step.key, step.hasCb, step.net, step.now);
    } else if step.DoTimeout? {
      if s.nodes[step.n].id in s.byId {
        TimeoutAnswers(cfg, s, step.n, step.net, step.now);
      }
    } else if step.DoRespond? {
      RespondAnswers(cfg, s, step.pkt, step.addr, step.now);
    } else if step.DoInvokeNext? {
      InvokeNextAnswers(s, step.n, step.edited);
    } else if step.DoFinish? {
      FinishAnswers(cfg, s, step.n, step.now);
    } else {
      CancelAnswers(s, step.n, step.notify);
    }
  }
}
