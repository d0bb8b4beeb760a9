/** The resolver's response cache: a hash table of reference-counted entries. */
module ResponseCache {
  import opened Bytes
  import opened DnsPackets

  const PJ_MAX_HOSTNAME := 128
  /** PJ_DNS_RESOLVER_INVALID_TTL. */
  const INVALID_TTL := 60
  const MAX_UINT32 := 0xFFFF_FFFF
  /** The expiry, in milliseconds, of an entry injected without one (0x7FFFFFFF seconds). */
  const NEVER := 0x7FFF_FFFF * 1000

  datatype Status = Success | DnsError(rcode: nat) | TimedOut | Canceled

  /** PJ_STATUS_FROM_DNS_RCODE of the packet's rcode. */
  function StatusOf(p: Packet): Status {
    if Rcode(p) == 0 then Success else DnsError(Rcode(p))
  }

  /** struct res_key. */
  datatype Key = Key(qtype: nat, name: Name)

  /** `init_res_key`: at most PJ_MAX_HOSTNAME characters, in lower case. */
  function ResKey(qtype: nat, name: Name): Key {
    Key(qtype % 0x1_0000, Lower(if |name| > PJ_MAX_HOSTNAME then name[..PJ_MAX_HOSTNAME] else name))
  }

  /** struct cached_res; an absent entry has been released to its pool factory. */
  datatype Entry = Entry(key: Key, pkt: Packet, expiry: int, refCnt: nat)

  /** A cache hit between the two locked regions of `pj_dns_resolver_start_query`. */
  datatype Hit = Hit(entry: nat, pkt: Packet, cb: Option<nat>, invoked: bool)

  datatype Cache = Cache(
    table: map<Key, nat>,
    entries: map<nat, Entry>,
    nextEntry: nat,
    hits: map<nat, Hit>,
    nextHit: nat)

  const EMPTY_CACHE := Cache(map[], map[], 0, map[], 0)

  // ----- operations -----

  /** `--ref_cnt`, and `free_entry` once it is not positive. */
  function Release(entries: map<nat, Entry>, e: nat): map<nat, Entry> {
    if e !in entries then entries
    else if entries[e].refCnt <= 1 then entries - {e}
    else entries[e := entries[e].(refCnt := entries[e].refCnt - 1)]
  }

  predicate Fresh(c: Cache, key: Key, now: int) {
    key in c.table && c.table[key] in c.entries && c.entries[c.table[key]].expiry > now
  }

  /** Removal from the table, giving up the table's reference. */
  function Remove(c: Cache, key: Key): Cache {
    if key in c.table then c.(table := c.table - {key}, entries := Release(c.entries, c.table[key])) else c
  }

  /** The cache part of `pj_dns_resolver_start_query`; `Some(h)` is the hit now in progress. */
  function Lookup(c: Cache, key: Key, cb: Option<nat>, now: int): (Cache, Option<nat>) {
    if Fresh(c, key, now) then
      var id := c.table[key];
      var e := c.entries[id];
      (c.(entries := c.entries[id := e.(refCnt := e.refCnt + 1)],
          hits := c.hits[c.nextHit := Hit(id, e.pkt, cb, false)],
          nextHit := c.nextHit + 1),
       Some(c.nextHit))
    else
      (Remove(c, key), None)
  }

  /** The callback of a hit is about to run, on the packet its entry holds now. */
  function Invoke(c: Cache, h: nat): Cache
    requires h in c.hits
  {
    c.(hits := c.hits[h := c.hits[h].(invoked := true)])
  }

  /** The second locked region of a hit. */
  function Return(c: Cache, h: nat): Cache
    requires h in c.hits
  {
    c.(entries := Release(c.entries, c.hits[h].entry), hits := c.hits - {h})
  }

  function SmallestTtl(ans: seq<RR>): nat {
    if ans == [] then MAX_UINT32
    else
      var rest := SmallestTtl(ans[..|ans| - 1]);
      if ans[|ans| - 1].ttl < rest then ans[|ans| - 1].ttl else rest
  }

  /** Seconds an update keeps its packet; zero clears the key instead. */
  function Ttl(status: Status, setExpiry: bool, pkt: Packet, maxTtl: nat): nat {
    var ttl :=
      if !setExpiry then MAX_UINT32
      else if pkt.ans == [] || status != Success then INVALID_TTL
      else SmallestTtl(pkt.ans);
    if ttl > maxTtl then maxTtl else ttl
  }

  function Expiry(setExpiry: bool, now: int, ttl: nat): int {
    if setExpiry then now + 1000 * ttl else NEVER
  }

  /** The last part of `update_res_cache`: an entry of its own, or the old one reset in place. */
  function Store(c: Cache, key: Key, pkt: Packet, expiry: int): Cache {
    var e := Entry(key, pkt, expiry, 1);
    if key in c.table && c.table[key] in c.entries && c.entries[c.table[key]].refCnt <= 1 then
      c.(entries := c.entries[c.table[key] := e])
    else
      var c1 := Remove(c, key);
      c1.(table := c1.table[key := c.nextEntry],
          entries := c1.entries[c.nextEntry := e],
          nextEntry := c.nextEntry + 1)
  }

  /** `update_res_cache`. */
  function Update(c: Cache, key: Key, status: Status, setExpiry: bool, pkt: Packet, maxTtl: nat, now: int): Cache {
    var c1 := if status != Success then Remove(c, key) else c;
    var ttl := Ttl(status, setExpiry, pkt, maxTtl);
    if ttl == 0 then Remove(c1, key) else Store(c1, key, Dup(pkt), Expiry(setExpiry, now, ttl))
  }

  // ----- the reference counts -----

  lemma UpdateKeepsHits(c: Cache, key: Key, status: Status, setExpiry: bool, pkt: Packet, maxTtl: nat, now: int)
    ensures Update(c, key, status, setExpiry, pkt, maxTtl, now).hits == c.hits
  {
  }

  function HolderSet(hits: map<nat, Hit>, e: nat): set<nat> {
    set h | h in hits && hits[h].entry == e
  }

  /** How many callbacks hold the entry. */
  function Holders(hits: map<nat, Hit>, e: nat): nat {
    |HolderSet(hits, e)|
  }

  predicate InTable(c: Cache, e: nat) {
    e in c.entries && c.entries[e].key in c.table && c.table[c.entries[e].key] == e
  }

  ghost predicate Counted(c: Cache) {
    && (forall k :: k in c.table ==> c.table[k] in c.entries && c.entries[c.table[k]].key == k)
    && (forall h :: h in c.hits ==> h < c.nextHit && c.hits[h].entry in c.entries)
    && (forall h :: h in c.hits ==> c.entries[c.hits[h].entry].pkt == c.hits[h].pkt)
    && (forall e :: e in c.entries ==> e < c.nextEntry && CountedAt(c, e))
  }

  ghost predicate CountedAt(c: Cache, e: nat)
    requires e in c.entries
  {
    c.entries[e].refCnt >= 1 && c.entries[e].refCnt == (if InTable(c, e) then 1 else 0) + Holders(c.hits, e)
  }

  lemma Unheld(hits: map<nat, Hit>, e: nat)
    requires Holders(hits, e) == 0
    ensures forall h :: h in hits ==> hits[h].entry != e
  {
    forall h | h in hits ensures hits[h].entry != e {
      assert hits[h].entry == e ==> h in HolderSet(hits, e);
    }
  }

  lemma HolderAdded(hits: map<nat, Hit>, h: nat, hit: Hit)
    requires h !in hits
    ensures forall e :: Holders(hits[h := hit], e) == Holders(hits, e) + if hit.entry == e then 1 else 0
  {
    forall e
      ensures Holders(hits[h := hit], e) == Holders(hits, e) + if hit.entry == e then 1 else 0
    {
      var was, now := HolderSet(hits, e), HolderSet(hits[h := hit], e);
      assert now == if hit.entry == e then was + {h} else was;
    }
  }

  lemma HolderGone(hits: map<nat, Hit>, h: nat)
    requires h in hits
    ensures forall e :: Holders(hits - {h}, e) == Holders(hits, e) - if hits[h].entry == e then 1 else 0
  {
    var less := hits - {h};
    HolderAdded(less, h, hits[h]);
    assert less[h := hits[h]] == hits;
  }

  lemma RemoveCounted(c: Cache, key: Key)
    requires Counted(c)
    ensures Counted(Remove(c, key))
  {
    if key in c.table {
      var e, c' := c.table[key], Remove(c, key);
      assert InTable(c, e);
      if e !in c'.entries {
        Unheld(c.hits, e);
      }
      forall x | x in c'.entries ensures CountedAt(c', x) {
        assert InTable(c', x) <==> x != e && InTable(c, x);
      }
    }
  }

  lemma FreshCounted(c: Cache, key: Key, cb: Option<nat>, now: int)
    requires Counted(c) && Fresh(c, key, now)
    ensures Counted(Lookup(c, key, cb, now).0)
  {
    var c', id := Lookup(c, key, cb, now).0, c.table[key];
    HolderAdded(c.hits, c.nextHit, Hit(id, c.entries[id].pkt, cb, false));
    forall e | e in c'.entries ensures CountedAt(c', e) {
      assert CountedAt(c, e);
      assert InTable(c', e) <==> InTable(c, e);
    }
  }

  lemma LookupCounted(c: Cache, key: Key, cb: Option<nat>, now: int)
    requires Counted(c)
    ensures Counted(Lookup(c, key, cb, now).0)
  {
    if Fresh(c, key, now) {
      FreshCounted(c, key, cb, now);
    } else {
      RemoveCounted(c, key);
    }
  }

  lemma InvokeCounted(c: Cache, h: nat)
    requires Counted(c) && h in c.hits
    ensures Counted(Invoke(c, h))
  {
    var c' := Invoke(c, h);
    forall x | x in c'.entries ensures CountedAt(c', x) {
      assert CountedAt(c, x);
      assert HolderSet(c'.hits, x) == HolderSet(c.hits, x);
      assert InTable(c', x) <==> InTable(c, x);
    }
  }

  lemma ReturnCounted(c: Cache, h: nat)
    requires Counted(c) && h in c.hits
    ensures Counted(Return(c, h))
  {
    var c', id := Return(c, h), c.hits[h].entry;
    HolderGone(c.hits, h);
    assert h in HolderSet(c.hits, id);
    assert CountedAt(c, id);
    if id !in c'.entries {
      Unheld(c'.hits, id);
      assert !InTable(c, id);
    }
    forall x | x in c'.entries ensures CountedAt(c', x) {
      assert CountedAt(c, x);
      assert InTable(c', x) <==> InTable(c, x);
    }
  }

  lemma StoreInPlaceCounted(c: Cache, key: Key, pkt: Packet, expiry: int)
    requires Counted(c) && key in c.table && c.entries[c.table[key]].refCnt <= 1
    ensures Counted(Store(c, key, pkt, expiry))
  {
    var c', id := Store(c, key, pkt, expiry), c.table[key];
    assert InTable(c, id) && CountedAt(c, id);
    Unheld(c.hits, id);
    forall x | x in c'.entries ensures CountedAt(c', x) {
      assert CountedAt(c, x);
      assert InTable(c', x) <==> InTable(c, x);
    }
  }

  lemma StoreFreshCounted(c: Cache, key: Key, e: Entry)
    requires Counted(c) && key !in c.table && e.key == key && e.refCnt == 1
    ensures Counted(c.(table := c.table[key := c.nextEntry],
                       entries := c.entries[c.nextEntry := e],
                       nextEntry := c.nextEntry + 1))
  {
    var c' := c.(table := c.table[key := c.nextEntry],
                 entries := c.entries[c.nextEntry := e],
                 nextEntry := c.nextEntry + 1);
    assert HolderSet(c.hits, c.nextEntry) == {};
    forall x | x in c'.entries ensures CountedAt(c', x) {
      if x in c.entries {
        assert CountedAt(c, x);
        assert InTable(c', x) <==> InTable(c, x);
      }
    }
  }

  lemma StoreCounted(c: Cache, key: Key, pkt: Packet, expiry: int)
    requires Counted(c)
    ensures Counted(Store(c, key, pkt, expiry))
  {
    if key in c.table && c.entries[c.table[key]].refCnt <= 1 {
      StoreInPlaceCounted(c, key, pkt, expiry);
    } else {
      RemoveCounted(c, key);
      StoreFreshCounted(Remove(c, key), key, Entry(key, pkt, expiry, 1));
    }
  }

  /** Every cache operation keeps `ref_cnt` equal to table membership plus running callbacks. */
  lemma UpdateCounted(c: Cache, key: Key, status: Status, setExpiry: bool, pkt: Packet, maxTtl: nat, now: int)
    requires Counted(c)
    ensures Counted(Update(c, key, status, setExpiry, pkt, maxTtl, now))
  {
    RemoveCounted(c, key);
    var c1 := if status != Success then Remove(c, key) else c;
    RemoveCounted(c1, key);
    var ttl := Ttl(status, setExpiry, pkt, maxTtl);
    StoreCounted(c1, key, Dup(pkt), Expiry(setExpiry, now, ttl));
  }

  /** An entry exists exactly while the table or a running callback refers to it. */
  lemma LiveExactlyWhileReferenced(c: Cache, e: nat)
    requires Counted(c)
    ensures e in c.entries <==>
            (exists k :: k in c.table && c.table[k] == e) || (exists h :: h in c.hits && c.hits[h].entry == e)
  {
    if e in c.entries && !InTable(c, e) {
      assert Holders(c.hits, e) >= 1;
      var h :| h in HolderSet(c.hits, e);
    }
  }

  // ----- the timed map the cache implements -----

  datatype CacheEvent =
    | Stored(key: Key, now: int, status: Status, setExpiry: bool, pkt: Packet, maxTtl: nat)
    | LookedUp(key: Key, now: int)

  datatype Slot = Slot(pkt: Packet, expiry: int)

  function SlotOf(ev: CacheEvent): Option<Slot>
    requires ev.Stored?
  {
    var ttl := Ttl(ev.status, ev.setExpiry, ev.pkt, ev.maxTtl);
    if ttl == 0 then None else Some(Slot(Dup(ev.pkt), Expiry(ev.setExpiry, ev.now, ttl)))
  }

  /** What a key holds after the events so far: an expired slot dies at the first lookup that sees it. */
  function Replay(log: seq<CacheEvent>, key: Key): Option<Slot> {
    if log == [] then None
    else
      var before := Replay(log[..|log| - 1], key);
      match log[|log| - 1]
      case Stored(k, _, _, _, _, _) => if k == key then SlotOf(log[|log| - 1]) else before
      case LookedUp(k, t) => if k == key && before.Some? && before.value.expiry <= t then None else before
  }

  function View(c: Cache, key: Key): Option<Slot> {
    if key in c.table && c.table[key] in c.entries then
      Some(Slot(c.entries[c.table[key]].pkt, c.entries[c.table[key]].expiry))
    else None
  }

  ghost predicate Refines(c: Cache, log: seq<CacheEvent>) {
    forall key :: View(c, key) == Replay(log, key)
  }

  lemma ReplayAppend(log: seq<CacheEvent>, ev: CacheEvent)
    ensures forall key :: key != ev.key ==> Replay(log + [ev], key) == Replay(log, key)
    ensures ev.Stored? ==> Replay(log + [ev], ev.key) == SlotOf(ev)
    ensures ev.LookedUp? ==>
              var was := Replay(log, ev.key);
              Replay(log + [ev], ev.key) == if was.Some? && was.value.expiry <= ev.now then None else was
  {
    assert (log + [ev])[..|log|] == log;
  }

  lemma RemoveView(c: Cache, key: Key)
    requires Counted(c)
    ensures forall k :: View(Remove(c, key), k) == if k == key then None else View(c, k)
  {
    if key in c.table {
      forall k | k in c.table && k != key ensures c.table[k] != c.table[key] {
        assert c.entries[c.table[k]].key == k;
      }
    }
  }

  /**
   * A lookup hits exactly when the timed map holds an unexpired packet for the key, and serves
   * that packet; either way the cache goes on refining the map.
   */
  lemma LookupRefines(c: Cache, log: seq<CacheEvent>, key: Key, cb: Option<nat>, now: int)
    requires Counted(c) && Refines(c, log)
    ensures var (c', hit) := Lookup(c, key, cb, now);
            && Refines(c', log + [LookedUp(key, now)])
            && (hit.Some? <==> Replay(log, key).Some? && now < Replay(log, key).value.expiry)
            && (hit.Some? ==> hit.value in c'.hits && c'.hits[hit.value] == Hit(c.table[key], Replay(log, key).value.pkt, cb, false))
  {
    var c' := Lookup(c, key, cb, now).0;
    ReplayAppend(log, LookedUp(key, now));
    assert View(c, key) == Replay(log, key);
    RemoveView(c, key);
    if Fresh(c, key, now) {
      assert forall k :: View(c', k) == View(c, k);
    }
  }

  lemma StoreView(c: Cache, key: Key, pkt: Packet, expiry: int)
    requires Counted(c)
    ensures forall k :: View(Store(c, key, pkt, expiry), k) == if k == key then Some(Slot(pkt, expiry)) else View(c, k)
  {
    RemoveView(c, key);
    var c' := Store(c, key, pkt, expiry);
    forall k ensures View(c', k) == if k == key then Some(Slot(pkt, expiry)) else View(c, k) {
      if k in c.table && k != key && key in c.table {
        assert c.entries[c.table[k]].key == k;
      }
      assert View(Remove(c, key), k) == if k == key then None else View(c, k);
    }
  }

  lemma UpdateRefines(c: Cache, log: seq<CacheEvent>, key: Key, status: Status, setExpiry: bool, pkt: Packet, maxTtl: nat, now: int)
    requires Counted(c) && Refines(c, log)
    ensures Refines(Update(c, key, status, setExpiry, pkt, maxTtl, now),
                    log + [Stored(key, now, status, setExpiry, pkt, maxTtl)])
  {
    ReplayAppend(log, Stored(key, now, status, setExpiry, pkt, maxTtl));
    RemoveView(c, key);
    RemoveCounted(c, key);
    var c1 := if status != Success then Remove(c, key) else c;
    RemoveView(c1, key);
    var ttl := Ttl(status, setExpiry, pkt, maxTtl);
    StoreView(c1, key, Dup(pkt), Expiry(setExpiry, now, ttl));
    forall k ensures View(Update(c, key, status, setExpiry, pkt, maxTtl, now), k) ==
      if k == key then SlotOf(Stored(key, now, status, setExpiry, pkt, maxTtl)) else View(c, k)
    {
      assert View(c1, k) == if k == key && status != Success then None else View(c, k);
      assert View(Remove(c1, key), k) == if k == key then None else View(c1, k);
    }
  }

  /** A callback that returns does not disturb what the table serves. */
  lemma ReturnRefines(c: Cache, log: seq<CacheEvent>, h: nat)
    requires Counted(c) && Refines(c, log) && h in c.hits
    ensures Refines(Return(c, h), log)
    ensures Refines(Invoke(c, h), log)
  {
    var c', id := Return(c, h), c.hits[h].entry;
    assert h in HolderSet(c.hits, id);
    forall key ensures View(c', key) == View(c, key) {
      if key in c.table && c.table[key] == id {
        assert InTable(c, id) && c.entries[id].refCnt >= 2;
      }
    }
    assert forall key :: View(Invoke(c, h), key) == View(c, key);
  }

  // ----- the timed map in terms of the last update alone -----

  /** The last update of the key, if there ever was one. */
  function LastUpdate(log: seq<CacheEvent>, key: Key): (u: Option<CacheEvent>)
    ensures u.Some? ==> u.value in log && u.value.Stored? && u.value.key == key
  {
    if log == [] then None
    else
      var last := log[|log| - 1];
      if last.Stored? && last.key == key then Some(last) else LastUpdate(log[..|log| - 1], key)
  }

  /** The clock never stepped back, and has not passed t. */
  predicate Forward(log: seq<CacheEvent>, t: int) {
    log == [] || (log[|log| - 1].now <= t && Forward(log[..|log| - 1], log[|log| - 1].now))
  }

  /** The update stored a packet, and t is before its expiry. */
  predicate Holds(u: Option<CacheEvent>, t: int)
    requires u.Some? ==> u.value.Stored?
  {
    u.Some? && SlotOf(u.value).Some? && t < SlotOf(u.value).value.expiry
  }

  /**
   * While the clock does not step back, a lookup at time t finds the packet of the key's last
   * update exactly when there was one, it stored a packet, and t is before its expiry.
   */
  lemma {:induction false} LastUpdateDecides(log: seq<CacheEvent>, key: Key, t: int)
    requires Forward(log, t)
    ensures Replay(log, key).Some? && t < Replay(log, key).value.expiry <==> Holds(LastUpdate(log, key), t)
    ensures Replay(log, key).Some? ==> LastUpdate(log, key).Some? && Replay(log, key) == SlotOf(LastUpdate(log, key).value)
  {
    if log != [] {
      var n := |log| - 1;
      ForwardLater(log[..n], log[n].now, t);
      LastUpdateDecides(log[..n], key, t);
    }
  }

  lemma ForwardLater(log: seq<CacheEvent>, t: int, t': int)
    requires Forward(log, t) && t <= t'
    ensures Forward(log, t')
  {
  }

  /**
   * The seconds an update keeps its packet, said without computing them: the least of the configured
   * maximum and every answer's TTL; for an error or a packet without answers, of the maximum and sixty;
   * and the maximum for an entry without expiry.
   */
  ghost predicate IsLifetime(status: Status, setExpiry: bool, pkt: Packet, maxTtl: nat, life: nat) {
    && life <= maxTtl
    && if !setExpiry then life == maxTtl
       else if status != Success || pkt.ans == [] then life <= 60 && (life == maxTtl || life == 60)
       else
         && (forall i :: 0 <= i < |pkt.ans| ==> life <= pkt.ans[i].ttl)
         && (life == maxTtl || exists i :: 0 <= i < |pkt.ans| && pkt.ans[i].ttl == life)
  }

  lemma LifetimeUnique(status: Status, setExpiry: bool, pkt: Packet, maxTtl: nat, a: nat, b: nat)
    requires IsLifetime(status, setExpiry, pkt, maxTtl, a) && IsLifetime(status, setExpiry, pkt, maxTtl, b)
    ensures a == b
  {
  }

  lemma {:induction false} SmallestIsLeast(ans: seq<RR>)
    ensures SmallestTtl(ans) <= MAX_UINT32 && forall i :: 0 <= i < |ans| ==> SmallestTtl(ans) <= ans[i].ttl
    ensures SmallestTtl(ans) == MAX_UINT32 || exists i :: 0 <= i < |ans| && ans[i].ttl == SmallestTtl(ans)
  {
    if ans != [] {
      var n := |ans| - 1;
      SmallestIsLeast(ans[..n]);
      if SmallestTtl(ans) != MAX_UINT32 && ans[n].ttl >= SmallestTtl(ans[..n]) {
        var i :| 0 <= i < n && ans[..n][i].ttl == SmallestTtl(ans[..n]);
        assert ans[i].ttl == SmallestTtl(ans);
      }
    }
  }

  lemma TtlIsLifetime(status: Status, setExpiry: bool, pkt: Packet, maxTtl: nat)
    requires maxTtl <= MAX_UINT32
    ensures IsLifetime(status, setExpiry, pkt, maxTtl, Ttl(status, setExpiry, pkt, maxTtl))
  {
    SmallestIsLeast(pkt.ans);
  }

  /** What the last update holds at time t, in its own fields, with t in milliseconds. */
  lemma HoldsWithin(u: CacheEvent, t: int, life: nat)
    requires u.Stored? && u.maxTtl <= MAX_UINT32 && IsLifetime(u.status, u.setExpiry, u.pkt, u.maxTtl, life)
    ensures Holds(Some(u), t) <==> life > 0 && t < if u.setExpiry then u.now + 1000 * life else 0x7FFF_FFFF * 1000
  {
    TtlIsLifetime(u.status, u.setExpiry, u.pkt, u.maxTtl);
    LifetimeUnique(u.status, u.setExpiry, u.pkt, u.maxTtl, life, Ttl(u.status, u.setExpiry, u.pkt, u.maxTtl));
  }

  /** Keys agree exactly for the same type and the same name up to case. */
  lemma KeysAgree(t1: nat, n1: Name, t2: nat, n2: Name)
    requires t1 < 0x1_0000 && t2 < 0x1_0000 && |n1| < PJ_MAX_HOSTNAME && |n2| < PJ_MAX_HOSTNAME
    ensures ResKey(t1, n1) == ResKey(t2, n2) <==> t1 == t2 && SameIgnoringCase(n1, n2)
  {
  }
}
