/**
 * Query nodes are conserved: what every step of the resolver keeps about the free list, the two
 * indices, the child lists and the queries being completed.
 */
module ResolverShape {
  import opened Bytes
  import opened DnsPackets
  import opened ResponseCache
  import opened Nameservers
  import opened ResolverSteps

  predicate NoDup(s: seq<nat>) {
    forall i, j :: 0 <= i < j < |s| ==> s[i] != s[j]
  }

  lemma NoDupAppend(a: seq<nat>, b: seq<nat>)
    requires NoDup(a) && NoDup(b) && forall x :: x in a ==> x !in b
    ensures NoDup(a + b)
  {
    var s := a + b;
    forall i, j | 0 <= i < j < |s| ensures s[i] != s[j] {
      if i < |a| <= j {
        assert s[i] in a && s[j] in b;
      }
    }
  }

  // ----- the invariant -----

  type Nodes = seq<Node>

  /** The free list holds exactly the nodes linked into it, each once. */
  ghost predicate FreeOk(nodes: Nodes, free: seq<nat>) {
    && NoDup(free)
    && (forall n :: n in free ==> n < |nodes| && nodes[n].link == InFree)
    && (forall n: nat :: n < |nodes| && nodes[n].link == InFree ==> n in free)
  }

  /** The child list of a query holds exactly the nodes linked into it, each once. */
  ghost predicate KidsOk(nodes: Nodes, p: nat)
    requires p < |nodes|
  {
    && NoDup(nodes[p].children)
    && (forall c :: c in nodes[p].children ==> c < |nodes| && nodes[c].link == ChildOf(p))
    && (forall c: nat :: c < |nodes| && nodes[c].link == ChildOf(p) ==> c in nodes[p].children)
  }

  ghost predicate ChildrenOk(nodes: Nodes) {
    && (forall p: nat :: p < |nodes| && nodes[p].link == Unlinked ==> KidsOk(nodes, p))
    && (forall c: nat :: c < |nodes| && nodes[c].link.ChildOf? ==>
          nodes[c].link.parent < |nodes| && nodes[nodes[c].link.parent].link == Unlinked)
  }

  predicate PendingAt(nodes: Nodes, byId: map<nat, nat>, n: nat) {
    n < |nodes| && nodes[n].id in byId && byId[nodes[n].id] == n
  }

  /** An unlinked node heads a query in flight: pending, completing, or in hand. */
  ghost predicate HeadsOk(nodes: Nodes, byId: map<nat, nat>, completing: map<nat, Completion>, hand: Option<nat>) {
    && (forall n: nat :: n < |nodes| ==>
          (nodes[n].link == Unlinked <==> PendingAt(nodes, byId, n) || n in completing || hand == Some(n)))
    && (forall n: nat :: n in completing ==> n < |nodes| && !PendingAt(nodes, byId, n))
    && (hand.Some? ==>
          hand.value < |nodes| && !PendingAt(nodes, byId, hand.value) && hand.value !in completing)
  }

  /** The two indices hold the same queries, under their own id and key. */
  ghost predicate IndexOk(nodes: Nodes, byId: map<nat, nat>, byRes: map<Key, nat>) {
    && (forall id :: id in byId ==> IndexedId(nodes, byId, byRes, id))
    && (forall key :: key in byRes ==> IndexedKey(nodes, byId, byRes, key))
  }

  predicate IndexedId(nodes: Nodes, byId: map<nat, nat>, byRes: map<Key, nat>, id: nat)
    requires id in byId
  {
    && 0 < id < 0x1_0000 && byId[id] < |nodes| && nodes[byId[id]].id == id
    && nodes[byId[id]].key in byRes && byRes[nodes[byId[id]].key] == byId[id]
  }

  predicate IndexedKey(nodes: Nodes, byId: map<nat, nat>, byRes: map<Key, nat>, key: Key)
    requires key in byRes
  {
    && byRes[key] < |nodes| && nodes[byRes[key]].key == key
    && nodes[byRes[key]].id in byId && byId[nodes[byRes[key]].id] == byRes[key]
  }

  /** The callbacks still to make are the last ones of the query's own list. */
  predicate Suffix(todo: seq<nat>, all: seq<nat>) {
    |todo| <= |all| && todo == all[|all| - |todo|..]
  }

  ghost predicate CompletionOk(nodes: Nodes, completing: map<nat, Completion>) {
    forall n :: n in completing && n < |nodes| ==> Suffix(completing[n].todo, [n] + nodes[n].children)
  }

  ghost predicate ShapeX(s: State, hand: Option<nat>) {
    && FreeOk(s.nodes, s.free)
    && ChildrenOk(s.nodes)
    && HeadsOk(s.nodes, s.byId, s.completing, hand)
    && IndexOk(s.nodes, s.byId, s.byRes)
    && CompletionOk(s.nodes, s.completing)
    && 0 < s.lastId < 0x1_0000
  }

  ghost predicate Shape(s: State) {
    ShapeX(s, None)
  }

  // ----- frames -----

  predicate SameNode(a: Node, b: Node) {
    a.id == b.id && a.key == b.key && a.children == b.children && a.link == b.link
  }

  ghost predicate SameNodes(a: Nodes, b: Nodes) {
    |a| == |b| && forall n: nat :: n < |a| ==> SameNode(a[n], b[n])
  }

  ghost predicate SameShape(s: State, t: State) {
    && SameNodes(s.nodes, t.nodes)
    && s.free == t.free && s.byId == t.byId && s.byRes == t.byRes && s.completing == t.completing
    && s.lastId == t.lastId
  }

  lemma KidsFrame(a: Nodes, b: Nodes, p: nat)
    requires SameNodes(a, b) && p < |a| && KidsOk(a, p)
    ensures KidsOk(b, p)
  {
    assert SameNode(a[p], b[p]);
    forall c: nat | c < |b| && b[c].link == ChildOf(p) ensures c in b[p].children {
      assert SameNode(a[c], b[c]);
    }
    forall c | c in b[p].children ensures c < |b| && b[c].link == ChildOf(p) {
      assert SameNode(a[c], b[c]);
    }
  }

  lemma ChildrenFrame(a: Nodes, b: Nodes)
    requires SameNodes(a, b) && ChildrenOk(a)
    ensures ChildrenOk(b)
  {
    forall p: nat | p < |b| && b[p].link == Unlinked ensures KidsOk(b, p) {
      assert SameNode(a[p], b[p]);
      KidsFrame(a, b, p);
    }
    forall c: nat | c < |b| && b[c].link.ChildOf?
      ensures b[c].link.parent < |b| && b[b[c].link.parent].link == Unlinked
    {
      assert SameNode(a[c], b[c]);
      assert SameNode(a[a[c].link.parent], b[a[c].link.parent]);
    }
  }

  /** The parts the shape does not look at are free to change. */
  lemma ShapeSame(s: State, t: State)
    requires Shape(s) && s.nodes == t.nodes && s.free == t.free && s.byId == t.byId && s.byRes == t.byRes
    requires s.completing == t.completing && s.lastId == t.lastId
    ensures Shape(t)
  {
  }

  lemma ShapeFrame(s: State, t: State, hand: Option<nat>)
    requires ShapeX(s, hand) && SameShape(s, t)
    ensures ShapeX(t, hand)
  {
    ChildrenFrame(s.nodes, t.nodes);
    assert forall n: nat :: PendingAt(t.nodes, t.byId, n) <==> PendingAt(s.nodes, s.byId, n);
  }

  /** A transmission changes only the servers, the timer and the query's own counters. */
  lemma TransmitEffect(cfg: Settings, s: State, n: nat, net: Network, now: int)
    requires n < |s.nodes| && n !in s.timers
    ensures var (t, status) := Transmit(cfg, s, n, net, now);
            var q := s.nodes[n];
            && t == s.(ns := t.ns, nodes := t.nodes, timers := t.timers)
            && |t.nodes| == |s.nodes|
            && t.nodes == s.nodes[n := t.nodes[n]]
            && t.nodes[n] == q.(timerId := t.nodes[n].timerId, transmitCnt := t.nodes[n].transmitCnt)
            && (status == TxOk ==> t.timers == s.timers + {n} && t.nodes[n].timerId == 1 &&
                                   t.nodes[n].transmitCnt == q.transmitCnt + 1)
            && (status != TxOk ==> t.timers == s.timers && t.nodes[n].transmitCnt == q.transmitCnt)
            && |t.ns| == |s.ns|
  {
    if s.ns != [] && Select(cfg, s.ns, now).0 != [] && !net.built {
      assert s.timers - {n} == s.timers;
    }
    if s.ns == [] || Select(cfg, s.ns, now).0 == [] {
      assert s.nodes == s.nodes[n := s.nodes[n]];
    }
  }

  // ----- the parts, under one change each -----

  lemma ChildrenSet(nodes: Nodes, n: nat, x: Node)
    requires ChildrenOk(nodes) && n <= |nodes| && x.link == Unlinked && x.children == []
    requires n < |nodes| ==> nodes[n].link == InFree || (nodes[n].link == Unlinked && nodes[n].children == [])
    ensures ChildrenOk(nodes[..n] + [x] + if n < |nodes| then nodes[n + 1..] else [])
  {
    var t := nodes[..n] + [x] + if n < |nodes| then nodes[n + 1..] else [];
    assert forall m: nat :: m < |nodes| && m != n ==> t[m] == nodes[m];
    assert t[n] == x;
    assert n < |nodes| && nodes[n].link == Unlinked ==> KidsOk(nodes, n);
    forall p: nat | p < |t| && t[p].link == Unlinked ensures KidsOk(t, p) {
      if p != n {
        assert KidsOk(nodes, p);
      }
    }
  }

  lemma ChildrenLink(nodes: Nodes, p: nat, n: nat)
    requires ChildrenOk(nodes) && p < |nodes| && n < |nodes| && p != n
    requires nodes[p].link == Unlinked && nodes[n].link == Unlinked && nodes[n].children == []
    ensures ChildrenOk(LinkChild(nodes, p, n))
  {
    var t0 := nodes[n := nodes[n].(link := ChildOf(p))];
    var t := t0[p := t0[p].(children := t0[p].children + [n])];
    assert KidsOk(nodes, n) && KidsOk(nodes, p);
    forall m: nat | m < |t| && t[m].link == Unlinked ensures KidsOk(t, m) {
      assert KidsOk(nodes, m);
      if m == p {
        NoDupAppend(nodes[p].children, [n]);
      }
    }
  }

  /** A set of nodes that takes its whole families along. */
  predicate Closed(nodes: Nodes, list: seq<nat>) {
    forall m: nat :: m < |nodes| ==>
      (nodes[m].link.ChildOf? ==> (m in list <==> nodes[m].link.parent in list))
  }

  lemma ChildrenFreed(nodes: Nodes, list: seq<nat>)
    requires ChildrenOk(nodes) && Closed(nodes, list)
    ensures ChildrenOk(Recycle(nodes, list))
  {
    var t := Recycle(nodes, list);
    forall p: nat | p < |t| && t[p].link == Unlinked ensures KidsOk(t, p) {
      assert KidsOk(nodes, p);
    }
  }

  lemma FreeFreed(nodes: Nodes, free: seq<nat>, list: seq<nat>)
    requires FreeOk(nodes, free) && NoDup(list)
    requires forall m :: m in list ==> m < |nodes| && nodes[m].link != InFree
    ensures FreeOk(Recycle(nodes, list), free + list)
  {
    NoDupAppend(free, list);
  }

  lemma FreeFrame(nodes: Nodes, t: Nodes, free: seq<nat>)
    requires FreeOk(nodes, free) && |nodes| <= |t|
    requires forall m: nat :: m < |t| ==> (t[m].link == InFree <==> m < |nodes| && nodes[m].link == InFree)
    ensures FreeOk(t, free)
  {
  }

  lemma IndexFrame(nodes: Nodes, t: Nodes, byId: map<nat, nat>, byRes: map<Key, nat>)
    requires IndexOk(nodes, byId, byRes) && |nodes| <= |t|
    requires forall id :: id in byId ==> t[byId[id]].id == nodes[byId[id]].id && t[byId[id]].key == nodes[byId[id]].key
    ensures IndexOk(t, byId, byRes)
  {
    forall key | key in byRes
      ensures byRes[key] < |t| && t[byRes[key]].key == key
              && t[byRes[key]].id in byId && byId[t[byRes[key]].id] == byRes[key]
    {
      var id := nodes[byRes[key]].id;
      assert byId[id] == byRes[key];
    }
  }

  lemma IndexGone(nodes: Nodes, byId: map<nat, nat>, byRes: map<Key, nat>, n: nat)
    requires IndexOk(nodes, byId, byRes) && PendingAt(nodes, byId, n)
    ensures IndexOk(nodes, byId - {nodes[n].id}, byRes - {nodes[n].key})
    ensures forall m: nat :: PendingAt(nodes, byId - {nodes[n].id}, m) <==> PendingAt(nodes, byId, m) && m != n
  {
    assert byRes[nodes[n].key] == n;
  }

  lemma PublishPending(nodes: Nodes, byId: map<nat, nat>, n: nat)
    requires n < |nodes| && nodes[n].id !in byId
    ensures forall m: nat :: PendingAt(nodes, byId[nodes[n].id := n], m) <==> PendingAt(nodes, byId, m) || m == n
  {
    var byId' := byId[nodes[n].id := n];
    forall m: nat ensures PendingAt(nodes, byId', m) <==> PendingAt(nodes, byId, m) || m == n {
      if m < |nodes| && nodes[m].id != nodes[n].id {
        assert nodes[m].id in byId' <==> nodes[m].id in byId;
      }
    }
  }

  lemma IndexNew(nodes: Nodes, byId: map<nat, nat>, byRes: map<Key, nat>, n: nat)
    requires IndexOk(nodes, byId, byRes) && n < |nodes| && 0 < nodes[n].id < 0x1_0000
    requires nodes[n].id !in byId && nodes[n].key !in byRes
    ensures IndexOk(nodes, byId[nodes[n].id := n], byRes[nodes[n].key := n])
    ensures forall m: nat :: PendingAt(nodes, byId[nodes[n].id := n], m) <==> PendingAt(nodes, byId, m) || m == n
  {
    PublishPending(nodes, byId, n);
    var byId', byRes' := byId[nodes[n].id := n], byRes[nodes[n].key := n];
    forall id | id in byId' ensures IndexedId(nodes, byId', byRes', id) {
      if id != nodes[n].id {
        assert id in byId && IndexedId(nodes, byId, byRes, id);
      }
    }
    forall key | key in byRes' ensures IndexedKey(nodes, byId', byRes', key) {
      if key != nodes[n].key {
        assert key in byRes && IndexedKey(nodes, byId, byRes, key);
      }
    }
  }

  predicate NotIndexed(byId: map<nat, nat>, n: nat) {
    forall id :: id in byId ==> byId[id] != n
  }

  /** Node n was replaced or added, and nothing else. */
  predicate Replaced(nodes: Nodes, t: Nodes, n: nat) {
    && n < |t| && |t| == (if n < |nodes| then |nodes| else n + 1) && n <= |nodes|
    && forall m: nat :: m < |nodes| && m != n ==> t[m] == nodes[m]
  }

  /** Heads stay heads when only n, which is in no index, changes hands. */
  lemma HeadsReplaced(nodes: Nodes, t: Nodes, byId: map<nat, nat>, completing: map<nat, Completion>,
                      hand: Option<nat>, n: nat, hand': Option<nat>)
    requires HeadsOk(nodes, byId, completing, hand) && Replaced(nodes, t, n) && NotIndexed(byId, n)
    requires n !in completing
    requires (hand == None || hand == Some(n)) && hand' == if t[n].link == Unlinked then Some(n) else None
    ensures HeadsOk(t, byId, completing, hand')
  {
    assert forall m: nat :: PendingAt(t, byId, m) <==> PendingAt(nodes, byId, m);
  }

  lemma IndexReplaced(nodes: Nodes, t: Nodes, byId: map<nat, nat>, byRes: map<Key, nat>, n: nat)
    requires IndexOk(nodes, byId, byRes) && Replaced(nodes, t, n) && NotIndexed(byId, n)
    ensures IndexOk(t, byId, byRes)
  {
    IndexFrame(nodes, t, byId, byRes);
  }

  lemma CompletionReplaced(nodes: Nodes, t: Nodes, completing: map<nat, Completion>, n: nat)
    requires CompletionOk(nodes, completing) && Replaced(nodes, t, n) && n !in completing
    requires forall m :: m in completing ==> m < |nodes|
    ensures CompletionOk(t, completing)
  {
  }

  /** A pending parent p gains children. */
  lemma HeadsKids(nodes: Nodes, byId: map<nat, nat>, completing: map<nat, Completion>, p: nat, kids: seq<nat>)
    requires HeadsOk(nodes, byId, completing, None) && p < |nodes|
    ensures HeadsOk(nodes[p := nodes[p].(children := kids)], byId, completing, None)
  {
    var t := nodes[p := nodes[p].(children := kids)];
    assert forall m: nat :: PendingAt(t, byId, m) <==> PendingAt(nodes, byId, m);
  }

  lemma RecycledParts(nodes: Nodes, list: seq<nat>, byId: map<nat, nat>, byRes: map<Key, nat>, completing: map<nat, Completion>)
    requires IndexOk(nodes, byId, byRes) && CompletionOk(nodes, completing)
    ensures IndexOk(Recycle(nodes, list), byId, byRes) && CompletionOk(Recycle(nodes, list), completing)
  {
    IndexFrame(nodes, Recycle(nodes, list), byId, byRes);
  }

  // ----- one node changes hands -----

  lemma HandNotIndexed(nodes: Nodes, byId: map<nat, nat>, byRes: map<Key, nat>, n: nat)
    requires IndexOk(nodes, byId, byRes) && !PendingAt(nodes, byId, n)
    ensures NotIndexed(byId, n)
  {
  }

  lemma AllocNodeFacts(nodes: Nodes, free: seq<nat>, cb: Option<nat>)
    requires FreeOk(nodes, free)
    ensures var (t, free', n) := AllocNode(nodes, free, cb);
            && Replaced(nodes, t, n) && t[n] == BlankNode(cb)
            && FreeOk(t, free')
            && (n < |nodes| ==> nodes[n].link == InFree)
            && (free != [] ==> n == free[0] && n < |nodes|)
  {
    if free != [] {
      assert free[0] in free;
      AllocFree(nodes, free, BlankNode(cb));
    } else {
      FreeFrame(nodes, AllocNode(nodes, free, cb).0, free);
    }
  }

  lemma ChildrenReplaced(nodes: Nodes, t: Nodes, n: nat)
    requires ChildrenOk(nodes) && Replaced(nodes, t, n) && t[n].link == Unlinked && t[n].children == []
    requires n < |nodes| ==> nodes[n].link == InFree || (nodes[n].link == Unlinked && nodes[n].children == [])
    ensures ChildrenOk(t)
  {
    ChildrenSet(nodes, n, t[n]);
    assert t == nodes[..n] + [t[n]] + if n < |nodes| then nodes[n + 1..] else [];
  }

  lemma AllocNotHead(s: State, n: nat)
    requires Shape(s) && (n < |s.nodes| ==> s.nodes[n].link == InFree) && n <= |s.nodes|
    ensures NotIndexed(s.byId, n) && n !in s.completing
  {
    HandNotIndexed(s.nodes, s.byId, s.byRes, n);
  }

  lemma AllocShape(s: State, cb: Option<nat>)
    requires Shape(s)
    ensures var (t, n) := Alloc(s, cb);
            && ShapeX(t, Some(n)) && Replaced(s.nodes, t.nodes, n) && t.nodes[n] == BlankNode(cb)
            && (n < |s.nodes| ==> s.nodes[n].link == InFree)
            && NotIndexed(s.byId, n) && n !in s.completing
  {
    var (t, n) := Alloc(s, cb);
    AllocNodeFacts(s.nodes, s.free, cb);
    AllocNotHead(s, n);
    ChildrenReplaced(s.nodes, t.nodes, n);
    HeadsReplaced(s.nodes, t.nodes, s.byId, s.completing, None, n, Some(n));
    IndexReplaced(s.nodes, t.nodes, s.byId, s.byRes, n);
    CompletionReplaced(s.nodes, t.nodes, s.completing, n);
  }

  lemma AllocFree(nodes: Nodes, free: seq<nat>, x: Node)
    requires FreeOk(nodes, free) && free != [] && x.link == Unlinked
    ensures free[0] < |nodes| && FreeOk(nodes[free[0] := x], free[1..])
  {
    assert free[0] in free;
    var t, rest := nodes[free[0] := x], free[1..];
    forall m | m in rest ensures m < |t| && t[m].link == InFree {
      var i :| 0 <= i < |rest| && rest[i] == m;
      assert free[i + 1] == m && m in free;
    }
    forall m: nat | m < |t| && t[m].link == InFree ensures m in rest {
      var i :| 0 <= i < |free| && free[i] == m;
      assert rest[i - 1] == m;
    }
  }

  lemma LinkFree(nodes: Nodes, free: seq<nat>, p: nat, n: nat)
    requires FreeOk(nodes, free) && p < |nodes| && n < |nodes| && nodes[n].link != InFree
    ensures FreeOk(LinkChild(nodes, p, n), free)
  {
    FreeFrame(nodes, LinkChild(nodes, p, n), free);
  }

  lemma LinkHeads(nodes: Nodes, byId: map<nat, nat>, completing: map<nat, Completion>, p: nat, n: nat)
    requires HeadsOk(nodes, byId, completing, Some(n)) && NotIndexed(byId, n)
    requires p < |nodes| && n < |nodes| && p != n
    ensures HeadsOk(LinkChild(nodes, p, n), byId, completing, None)
  {
    var linked := nodes[n := nodes[n].(link := ChildOf(p))];
    HeadsReplaced(nodes, linked, byId, completing, Some(n), n, None);
    HeadsKids(linked, byId, completing, p, linked[p].children + [n]);
  }

  lemma LinkIndex(nodes: Nodes, byId: map<nat, nat>, byRes: map<Key, nat>, p: nat, n: nat)
    requires IndexOk(nodes, byId, byRes) && p < |nodes| && n < |nodes|
    ensures IndexOk(LinkChild(nodes, p, n), byId, byRes)
  {
    IndexFrame(nodes, LinkChild(nodes, p, n), byId, byRes);
  }

  lemma LinkCompletion(nodes: Nodes, completing: map<nat, Completion>, p: nat, n: nat)
    requires CompletionOk(nodes, completing) && p < |nodes| && n < |nodes| && p !in completing
    ensures CompletionOk(LinkChild(nodes, p, n), completing)
  {
  }

  lemma LinkChildShape(s: State, p: nat, n: nat)
    requires ShapeX(s, Some(n)) && PendingAt(s.nodes, s.byId, p) && NotIndexed(s.byId, n)
    requires n < |s.nodes| && s.nodes[n].link == Unlinked && s.nodes[n].children == []
    ensures Shape(s.(nodes := LinkChild(s.nodes, p, n)))
  {
    assert s.nodes[p].link == Unlinked && p !in s.completing && p != n;
    LinkFree(s.nodes, s.free, p, n);
    ChildrenLink(s.nodes, p, n);
    LinkHeads(s.nodes, s.byId, s.completing, p, n);
    LinkIndex(s.nodes, s.byId, s.byRes, p, n);
    LinkCompletion(s.nodes, s.completing, p, n);
  }

  lemma PublishShape(s: State, n: nat)
    requires ShapeX(s, Some(n)) && n < |s.nodes|
    requires s.nodes[n].id !in s.byId && s.nodes[n].key !in s.byRes && 0 < s.nodes[n].id < 0x1_0000
    ensures Shape(Publish(s, n))
  {
    IndexNew(s.nodes, s.byId, s.byRes, n);
  }

  lemma DiscardShape(s: State, n: nat)
    requires ShapeX(s, Some(n)) && NotIndexed(s.byId, n)
    requires n < |s.nodes| && s.nodes[n].link == Unlinked && s.nodes[n].children == []
    ensures Shape(Discard(s, n))
  {
    var nodes := Recycle(s.nodes, [n]);
    FreeFreed(s.nodes, s.free, [n]);
    assert Closed(s.nodes, [n]) by {
      assert KidsOk(s.nodes, n);
    }
    ChildrenFreed(s.nodes, [n]);
    HeadsReplaced(s.nodes, nodes, s.byId, s.completing, Some(n), n, None);
    RecycledParts(s.nodes, [n], s.byId, s.byRes, s.completing);
  }

  lemma CompleteShape(s: State, n: nat, status: Status, pkt: Option<Packet>)
    requires Shape(s) && PendingAt(s.nodes, s.byId, n)
    ensures var t := Complete(s, n, status, pkt);
            Shape(t) && forall m: nat :: PendingAt(t.nodes, t.byId, m) <==> PendingAt(s.nodes, s.byId, m) && m != n
  {
    IndexGone(s.nodes, s.byId, s.byRes, n);
  }

  lemma FinishHeads(nodes: Nodes, byId: map<nat, nat>, completing: map<nat, Completion>, n: nat, list: seq<nat>)
    requires HeadsOk(nodes, byId, completing, None) && n in completing
    requires forall m :: m in list ==> m < |nodes| && (m == n || nodes[m].link != Unlinked)
    requires n in list
    ensures HeadsOk(Recycle(nodes, list), byId, completing - {n}, None)
    ensures forall m: nat :: PendingAt(Recycle(nodes, list), byId, m) <==> PendingAt(nodes, byId, m)
  {
    var t := Recycle(nodes, list);
    assert forall m: nat :: PendingAt(t, byId, m) <==> PendingAt(nodes, byId, m);
    assert nodes[n].link == Unlinked;
  }

  lemma Family(nodes: Nodes, n: nat)
    requires ChildrenOk(nodes) && n < |nodes| && nodes[n].link == Unlinked
    ensures var list := nodes[n].children + [n];
            && NoDup(list) && Closed(nodes, list) && n in list
            && forall m :: m in list ==> m < |nodes| && nodes[m].link == if m == n then Unlinked else ChildOf(n)
  {
    assert KidsOk(nodes, n);
    NoDupAppend(nodes[n].children, [n]);
  }

  lemma FinishShape(s: State, n: nat)
    requires Shape(s) && n in s.completing
    ensures var list := s.nodes[n].children + [n];
            Shape(s.(nodes := Recycle(s.nodes, list), free := s.free + list, completing := s.completing - {n}))
  {
    var list := s.nodes[n].children + [n];
    assert s.nodes[n].link == Unlinked;
    Family(s.nodes, n);
    FreeFreed(s.nodes, s.free, list);
    ChildrenFreed(s.nodes, list);
    FinishHeads(s.nodes, s.byId, s.completing, n, list);
    RecycledParts(s.nodes, list, s.byId, s.byRes, s.completing);
    assert CompletionOk(Recycle(s.nodes, list), s.completing - {n});
  }

  // ----- every step keeps the shape -----

  lemma MergeShape(s: State, key: Key, cb: Option<nat>)
    requires Shape(s) && key in s.byRes
    ensures Shape(Merge(s, s.byRes[key], cb).0)
  {
    var p := s.byRes[key];
    assert PendingAt(s.nodes, s.byId, p);
    AllocShape(s, cb);
    var (s1, n) := Alloc(s, cb);
    assert s1.nodes[p] == s.nodes[p];
    LinkChildShape(s1, p, n);
  }

  lemma PrepareShape(cfg: Settings, s: State, key: Key, cb: Option<nat>, net: Network, now: int)
    requires Shape(s)
    requires forall m :: m in s.timers ==> PendingAt(s.nodes, s.byId, m)
    ensures var (t, n, status) := Prepare(cfg, s, key, cb, net, now);
            && ShapeX(t, Some(n)) && n < |t.nodes|
            && t.nodes[n].id == s.lastId && t.nodes[n].key == key && t.nodes[n].children == []
            && t.nodes[n].cb == cb && t.nodes[n].link == Unlinked && NotIndexed(s.byId, n)
            && t == s.(nodes := t.nodes, free := t.free, lastId := t.lastId, ns := t.ns, timers := t.timers)
  {
    AllocShape(s, cb);
    var (s1, n) := Alloc(s, cb);
    var x := s1.nodes[n].(id := s.lastId, key := key);
    var s2 := s1.(nodes := s1.nodes[n := x], lastId := NextId(s.lastId));
    PrepareHand(s1, n, x, NextId(s.lastId));
    assert n !in s.timers;
    TransmitEffect(cfg, s2, n, net, now);
    ShapeFrame(s2, Transmit(cfg, s2, n, net, now).0, Some(n));
  }

  lemma PrepareHand(s: State, n: nat, x: Node, lastId: nat)
    requires ShapeX(s, Some(n)) && n < |s.nodes| && NotIndexed(s.byId, n) && n !in s.completing
    requires s.nodes[n].link == x.link == Unlinked && s.nodes[n].children == x.children == [] && 0 < lastId < 0x1_0000
    ensures ShapeX(s.(nodes := s.nodes[n := x], lastId := lastId), Some(n))
  {
    var t := s.nodes[n := x];
    FreeFrame(s.nodes, t, s.free);
    ChildrenReplaced(s.nodes, t, n);
    HeadsReplaced(s.nodes, t, s.byId, s.completing, Some(n), n, Some(n));
    IndexReplaced(s.nodes, t, s.byId, s.byRes, n);
    CompletionReplaced(s.nodes, t, s.completing, n);
  }

  lemma LaunchShape(cfg: Settings, s: State, key: Key, cb: Option<nat>, net: Network, now: int)
    requires Launch(cfg, s, key, cb, net, now).1.Started? ==> s.lastId !in s.byId
    requires Shape(s) && key !in s.byRes
    requires forall m :: m in s.timers ==> PendingAt(s.nodes, s.byId, m)
    ensures Shape(Launch(cfg, s, key, cb, net, now).0)
  {
    PrepareShape(cfg, s, key, cb, net, now);
    var (s1, n, status) := Prepare(cfg, s, key, cb, net, now);
    if status == TxOk {
      PublishShape(s1, n);
    } else {
      DiscardShape(s1, n);
    }
  }

  lemma EnqueueShape(cfg: Settings, s: State, key: Key, cb: Option<nat>, net: Network, now: int)
    requires Enqueue(cfg, s, key, cb, net, now).1.Started? ==> s.lastId !in s.byId
    requires Shape(s)
    requires forall m :: m in s.timers ==> PendingAt(s.nodes, s.byId, m)
    ensures Shape(Enqueue(cfg, s, key, cb, net, now).0)
  {
    if key in s.byRes {
      assert s.byRes[key] < |s.nodes|;
      MergeShape(s, key, cb);
    } else {
      LaunchShape(cfg, s, key, cb, net, now);
    }
  }

  lemma StartShape(cfg: Settings, s: State, key: Key, hasCb: bool, net: Network, now: int)
    requires Start(cfg, s, key, hasCb, net, now).1.Started? ==> s.lastId !in s.byId
    requires Shape(s)
    requires forall m :: m in s.timers ==> PendingAt(s.nodes, s.byId, m)
    ensures Shape(Start(cfg, s, key, hasCb, net, now).0)
  {
    var (s1, hit) := Consult(s, key, hasCb, now);
    ShapeSame(s, s1);
    if hit.None? {
      EnqueueShape(cfg, s1, key, RequestOf(s, hasCb), net, now);
    } else {
      ShapeSame(s, Start(cfg, s, key, hasCb, net, now).0);
    }
  }

  /** Disarming or rearming one node. */
  lemma ShapeTimer(s: State, n: nat, t: State)
    requires Shape(s) && n < |s.nodes| && n < |t.nodes| && t.nodes == s.nodes[n := t.nodes[n]]
    requires SameNode(s.nodes[n], t.nodes[n])
    requires s.free == t.free && s.byId == t.byId && s.byRes == t.byRes && s.completing == t.completing && s.lastId == t.lastId
    ensures Shape(t)
    ensures forall m: nat :: PendingAt(t.nodes, t.byId, m) <==> PendingAt(s.nodes, s.byId, m)
  {
    ShapeFrame(s, t, None);
  }

  lemma RetransmitShape(cfg: Settings, s: State, n: nat, net: Network, now: int)
    requires Shape(s) && PendingAt(s.nodes, s.byId, n) && n !in s.timers
    ensures var (t, status) := Transmit(cfg, s, n, net, now);
            Shape(t) && PendingAt(t.nodes, t.byId, n)
  {
    TransmitEffect(cfg, s, n, net, now);
    ShapeTimer(s, n, Transmit(cfg, s, n, net, now).0);
  }

  lemma DisarmShape(s: State, n: nat)
    requires Shape(s) && PendingAt(s.nodes, s.byId, n)
    ensures Shape(Disarm(s, n)) && PendingAt(Disarm(s, n).nodes, s.byId, n)
  {
    ShapeTimer(s, n, Disarm(s, n));
  }

  lemma TimeoutShape(cfg: Settings, s: State, n: nat, net: Network, now: int)
    requires Shape(s) && PendingAt(s.nodes, s.byId, n)
    ensures Shape(Timeout(cfg, s, n, net, now))
  {
    DisarmShape(s, n);
    DisarmedShape(cfg, Disarm(s, n), s.nodes[n].transmitCnt < cfg.qretrCount, n, net, now);
  }

  lemma DisarmedShape(cfg: Settings, s: State, again: bool, n: nat, net: Network, now: int)
    requires Shape(s) && PendingAt(s.nodes, s.byId, n) && n !in s.timers
    ensures var (t, status) := Transmit(cfg, s, n, net, now);
            Shape(if !again then Complete(s, n, TimedOut, None)
                  else if status == TxOk then t else Complete(t, n, TimedOut, None))
  {
    if again {
      RetransmitShape(cfg, s, n, net, now);
      var (t, status) := Transmit(cfg, s, n, net, now);
      if status != TxOk {
        CompleteShape(t, n, TimedOut, None);
      }
    } else {
      CompleteShape(s, n, TimedOut, None);
    }
  }

  lemma RespondedShape(s: State, n: nat, status: Status, pkt: Option<Packet>)
    requires Shape(s) && PendingAt(s.nodes, s.byId, n)
    ensures Shape(Complete(Disarm(s, n), n, status, pkt))
  {
    DisarmShape(s, n);
    CompleteShape(Disarm(s, n), n, status, pkt);
  }

  lemma RespondShape(cfg: Settings, s: State, pkt: Packet, addr: nat, now: int)
    requires Shape(s)
    ensures Shape(Respond(cfg, s, pkt, addr, now))
  {
    var s1 := s.(ns := Report(cfg, s.ns, 0, addr, Some(pkt), now));
    ShapeSame(s, s1);
    if pkt.id in s.byId {
      assert PendingAt(s.nodes, s.byId, s.byId[pkt.id]);
      RespondedShape(s1, s.byId[pkt.id], StatusOf(pkt), Some(pkt));
    }
  }

  lemma CompletionShrinks(nodes: Nodes, completing: map<nat, Completion>, n: nat, c: Completion)
    requires CompletionOk(nodes, completing) && n in completing && n < |nodes| && completing[n].todo != []
    requires c.todo == completing[n].todo[1..]
    ensures CompletionOk(nodes, completing[n := c])
  {
    var all := [n] + nodes[n].children;
    assert Suffix(completing[n].todo, all);
    assert c.todo == all[|all| - |c.todo|..];
  }

  lemma HeadsShrink(nodes: Nodes, byId: map<nat, nat>, completing: map<nat, Completion>, n: nat, c: Completion)
    requires HeadsOk(nodes, byId, completing, None) && n in completing
    ensures HeadsOk(nodes, byId, completing[n := c], None)
  {
  }

  lemma InvokeNextFields(s: State, n: nat, edited: Packet)
    requires n in s.completing && s.completing[n].todo != [] && s.completing[n].todo[0] < |s.nodes|
    ensures var t := InvokeNext(s, n, Some(edited));
            && n in t.completing && t.completing[n].todo == s.completing[n].todo[1..]
            && t == s.(completing := s.completing[n := t.completing[n]], trace := t.trace, places := t.places)
  {
  }

  lemma InvokeNextShape(s: State, n: nat, edited: Packet)
    requires Shape(s) && n in s.completing && s.completing[n].todo != [] && s.completing[n].todo[0] < |s.nodes|
    ensures Shape(InvokeNext(s, n, Some(edited)))
  {
    InvokeNextFields(s, n, edited);
    var c := InvokeNext(s, n, Some(edited)).completing[n];
    assert n < |s.nodes|;
    CompletionShrinks(s.nodes, s.completing, n, c);
    HeadsShrink(s.nodes, s.byId, s.completing, n, c);
  }

  lemma FinishFields(cfg: Settings, s: State, n: nat, now: int)
    requires n in s.completing && n < |s.nodes|
    ensures var t := Finish(cfg, s, n, now);
            var s1 := s.(nodes := s.nodes[n := s.nodes[n].(timerId := 0)]);
            var list := s1.nodes[n].children + [n];
            t == s1.(nodes := Recycle(s1.nodes, list), free := s.free + list, completing := s.completing - {n},
                     cache := t.cache, log := t.log)
  {
    assert s.free + (s.nodes[n].children + [n]) == s.free + s.nodes[n].children + [n];
  }

  lemma FinishStepShape(cfg: Settings, s: State, n: nat, now: int)
    requires Shape(s) && n in s.completing
    ensures Shape(Finish(cfg, s, n, now))
  {
    var s1 := s.(nodes := s.nodes[n := s.nodes[n].(timerId := 0)]);
    FinishFields(cfg, s, n, now);
    ShapeTimer(s, n, s1);
    FinishShape(s1, n);
  }

  lemma CancelFields(s: State, n: nat, notify: bool)
    requires n < |s.nodes|
    ensures var t := Cancel(s, n, notify);
            t == s.(nodes := s.nodes[n := s.nodes[n].(cb := None)], trace := t.trace, places := t.places)
  {
  }

  lemma CancelShape(s: State, n: nat, notify: bool)
    requires Shape(s) && n < |s.nodes|
    ensures Shape(Cancel(s, n, notify))
  {
    CancelFields(s, n, notify);
    ShapeTimer(s, n, Cancel(s, n, notify));
  }

  /** What relates the timers to the queries, kept apart from the shape of the lists. */
  ghost predicate TimersOk(cfg: Settings, s: State) {
    && (forall n :: n in s.timers <==> PendingAt(s.nodes, s.byId, n))
    && (forall n :: n in s.timers ==> n < |s.nodes| && TimerOk(cfg, s.nodes[n]))
  }

  predicate TimerOk(cfg: Settings, q: Node) {
    q.timerId == 1 && 1 <= q.transmitCnt <= if cfg.qretrCount > 1 then cfg.qretrCount else 1
  }

  /** Steps that touch no query. */
  predicate Quiet(step: Step) {
    step.DoInvokeHit? || step.DoReturnHit? || step.DoGarbage? || step.DoAddEntry?
  }

  lemma QuietFields(cfg: Settings, s: State, step: Step)
    requires Enabled(cfg, s, step) && Quiet(step)
    ensures var t := Next(cfg, s, step);
            t == s.(ns := t.ns, cache := t.cache, trace := t.trace, places := t.places, log := t.log)
  {
  }

  lemma NextShape(cfg: Settings, s: State, step: Step)
    requires Shape(s) && TimersOk(cfg, s) && Enabled(cfg, s, step)
    ensures Shape(Next(cfg, s, step))
  {
    if Quiet(step) {
      QuietFields(cfg, s, step);
      ShapeSame(s, Next(cfg, s, step));
    } else if step.DoStart? {
      StartShape(cfg, s, step.key, step.hasCb, step.net, step.now);
    } else if step.DoTimeout? {
      if s.nodes[step.n].id in s.byId {
        TimeoutShape(cfg, s, step.n, step.net, step.now);
      }
    } else if step.DoRespond? {
      RespondShape(cfg, s, step.pkt, step.addr, step.now);
    } else if step.DoInvokeNext? {
      InvokeNextShape(s, step.n, step.edited);
    } else if step.DoFinish? {
      FinishStepShape(cfg, s, step.n, step.now);
    } else {
      CancelShape(s, step.n, step.notify);
    }
  }
}
