/** Packets an application puts into the response cache itself. */
module ResolverAdds {
  import opened Bytes
  import opened DnsPackets
  import opened ResponseCache
  import opened Nameservers
  import opened ResolverSteps
  import opened ResolverShape
  import opened ResolverRuns
  import opened DnsResolver

  /** The packet tells of the resource: by its first answer or, without answers, its first question. */
  predicate TellsOf(pkt: Packet, qtype: nat, name: Name) {
    if pkt.ans != [] then qtype == pkt.ans[0].rtype && SameIgnoringCase(name, pkt.ans[0].name)
    else pkt.q != [] && qtype == pkt.q[0].qtype && SameIgnoringCase(name, pkt.q[0].name)
  }

  /** A packet is taken exactly if it is a response that tells of some resource whose name is short enough. */
  lemma TakenExactly(pkt: Packet)
    requires pkt.flags < 0x1_0000
    ensures AddCheck(pkt).None? <==>
            && pkt.flags >= 0x8000
            && exists qtype: nat, name: Name :: TellsOf(pkt, qtype, name) && |name| < 128
  {
    if pkt.ans != [] {
      assert TellsOf(pkt, pkt.ans[0].rtype, pkt.ans[0].name);
    } else if pkt.q != [] {
      assert TellsOf(pkt, pkt.q[0].qtype, pkt.q[0].name);
    }
  }

  lemma FiledUnder(pkt: Packet, qtype: nat, name: Name)
    requires AddCheck(pkt).None? && qtype < 0x1_0000 && |name| < PJ_MAX_HOSTNAME
    requires (forall i :: 0 <= i < |pkt.ans| ==> pkt.ans[i].rtype < 0x1_0000) && (forall i :: 0 <= i < |pkt.q| ==> pkt.q[i].qtype < 0x1_0000)
    ensures AddKey(pkt) == ResKey(qtype, name) <==> TellsOf(pkt, qtype, name)
  {
    if pkt.ans != [] {
      KeysAgree(qtype, name, pkt.ans[0].rtype, pkt.ans[0].name);
    } else {
      KeysAgree(qtype, name, pkt.q[0].qtype, pkt.q[0].name);
    }
  }

  /** A request made after the packet was added is answered from the cache. */
  predicate Hits(cfg: Settings, s: State, key: Key, hasCb: bool, net: Network, now: int) {
    Start(cfg, s, key, hasCb, net, now).1.FromCache?
  }

  lemma AddedLog(cfg: Settings, s: State, key: Key, pkt: Packet, setTtl: bool, now: int)
    requires Inv(cfg, s)
    ensures var t := AddEntry(cfg, s, key, pkt, setTtl, now);
            Inv(cfg, t) && t.log == s.log + [Stored(key, now, Success, setTtl, pkt, cfg.cacheMaxTtl)]
  {
    NextInv(cfg, s, DoAddEntry(key, pkt, setTtl, now));
  }

  /**
   * From then on every request for the resource the packet tells of, in whatever case the name is
   * written, is answered from the cache for as long as the packet lives; every other request is
   * answered as it would have been.
   */
  lemma AddedServes(cfg: Settings, s: State, pkt: Packet, setTtl: bool, now: int, life: nat,
                    qtype: nat, name: Name, hasCb: bool, net: Network, later: int)
    requires Inv(cfg, s) && AddCheck(pkt).None? && qtype < 0x1_0000 && |name| < PJ_MAX_HOSTNAME
    requires (forall i :: 0 <= i < |pkt.ans| ==> pkt.ans[i].rtype < 0x1_0000) && (forall i :: 0 <= i < |pkt.q| ==> pkt.q[i].qtype < 0x1_0000)
    requires cfg.cacheMaxTtl <= MAX_UINT32 && IsLifetime(Success, setTtl, pkt, cfg.cacheMaxTtl, life)
    ensures var t := AddEntry(cfg, s, AddKey(pkt), pkt, setTtl, now);
            Hits(cfg, t, ResKey(qtype, name), hasCb, net, later) <==>
            if TellsOf(pkt, qtype, name) then life > 0 && later < if setTtl then now + 1000 * life else 0x7FFF_FFFF * 1000
            else Hits(cfg, s, ResKey(qtype, name), hasCb, net, later)
  {
    var key := ResKey(qtype, name);
    var u := Stored(AddKey(pkt), now, Success, setTtl, pkt, cfg.cacheMaxTtl);
    FiledUnder(pkt, qtype, name);
    AddedLog(cfg, s, AddKey(pkt), pkt, setTtl, now);
    ReplayAppend(s.log, u);
    HoldsWithin(u, later, life);
    AnsweredFromCacheExactly(cfg, s, key, hasCb, net, later);
    AnsweredFromCacheExactly(cfg, AddEntry(cfg, s, AddKey(pkt), pkt, setTtl, now), key, hasCb, net, later);
  }
}
