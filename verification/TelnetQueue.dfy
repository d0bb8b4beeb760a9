/**
 * The option states against the negotiation of RFC 1143, which has the same six: an answer may be
 * awaited, and the opposite request may be queued behind it.
 */
module TelnetQueue {
  import opened Telnet

  /** Section 7 of RFC 1143: `us` and `him`; `opposite` is the queue bit. */
  datatype Side = No | Yes | WantNo(opposite: bool) | WantYes(opposite: bool)

  /** The state and the command sent: to enable, to disable, or none. */
  datatype Reaction = Reaction(side: Side, sent: Said)

  datatype Said = Silence | Says(on: bool)

  function Requested(s: Side): Reaction {
    match s
    case No => Reaction(WantYes(false), Says(true))
    case Yes => Reaction(Yes, Silence)
    case WantNo(_) => Reaction(WantNo(true), Silence)
    case WantYes(_) => Reaction(WantYes(false), Silence)
  }

  function Enabled(s: Side, agrees: bool): Reaction {
    match s
    case No => if agrees then Reaction(Yes, Says(true)) else Reaction(No, Says(false))
    case Yes => Reaction(Yes, Silence)
    case WantNo(opposite) => Reaction(if opposite then Yes else No, Silence)
    case WantYes(opposite) => if opposite then Reaction(WantNo(false), Says(false)) else Reaction(Yes, Silence)
  }

  function Disabled(s: Side): Reaction {
    match s
    case No => Reaction(No, Silence)
    case Yes => Reaction(No, Says(false))
    case WantNo(opposite) => if opposite then Reaction(WantYes(false), Says(true)) else Reaction(No, Silence)
    case WantYes(_) => Reaction(No, Silence)
  }

  function Read(s: OptState): Side {
    match s
    case Disable => No
    case Enable => Yes
    case ExpectDisable => WantNo(false)
    case ExpectEnable => WantYes(false)
    case ExpectDisableRev => WantNo(true)
    case ExpectEnableRev => WantYes(true)
  }

  /** Every state of the RFC is one of the program's, and no two of the program's are the same one. */
  lemma StatesMatch(side: Side, s: OptState, u: OptState)
    ensures exists v :: Read(v) == side
    ensures Read(s) == Read(u) ==> s == u
  {
    match side
    case No => assert Read(Disable) == side;
    case Yes => assert Read(Enable) == side;
    case WantNo(opposite) => assert Read(if opposite then ExpectDisableRev else ExpectDisable) == side;
    case WantYes(opposite) => assert Read(if opposite then ExpectEnableRev else ExpectEnable) == side;
  }

  predicate Does(act: Act, reaction: Reaction) {
    Read(act.state) == reaction.side && act.sent == if reaction.sent.Says? then [reaction.sent.on] else []
  }

  /** A repeated request is taken back where the RFC leaves it queued or awaited. */
  lemma RequestIs(s: OptState)
    ensures Does(OnRequest(s), Requested(Read(s))) <==> s != ExpectEnable && s != ExpectDisableRev
  {
  }

  lemma EnablingIs(s: OptState, allowed: bool)
    ensures Does(OnEnable(s, allowed), Enabled(Read(s), allowed)) <==> s != ExpectDisableRev
  {
  }

  lemma DisablingIs(s: OptState)
    ensures Does(OnDisable(s), Disabled(Read(s))) <==> s != ExpectEnableRev
  {
  }

  // ----- on the wire -----

  /** WILL and WONT speak of the sender's own side, DO and DONT of the receiver's (RFC 854). */
  function Spoken(ours: bool, sent: Said, option: nat): seq<Cmd> {
    if sent.Silence? then []
    else if ours then [Cmd(if sent.on then Will else Wont, option)]
    else [Cmd(if sent.on then Do else Dont, option)]
  }

  /** Side `ours` of the option goes to the reaction's state, which is spoken; all else stays. */
  predicate Goes(e: Endpoint, next: Endpoint, sent: seq<Cmd>, ours: bool, option: nat, reaction: Reaction)
    requires option < MAX_OPTIONS
  {
    && sent == Spoken(ours, reaction.sent, option)
    && (forall o :: 0 <= o < MAX_OPTIONS && o != option ==> next[o] == e[o])
    && next[option].localAllowed == e[option].localAllowed && next[option].peerAllowed == e[option].peerAllowed
    && (if ours then next[option].peerState == e[option].peerState else next[option].localState == e[option].localState)
    && Read(if ours then next[option].localState else next[option].peerState) == reaction.side
  }

  function SideOf(e: Endpoint, ours: bool, option: nat): OptState
    requires option < MAX_OPTIONS
  {
    if ours then e[option].localState else e[option].peerState
  }

  lemma CommandsAre(ours: bool, option: nat, on: bool)
    ensures Commands(ours, option, []) == [] && Commands(ours, option, [on]) == Spoken(ours, Says(on), option)
  {
  }

  /** A request is the RFC's exactly unless one is awaited, or queued behind a refusal, already. */
  lemma RequestExact(e: Endpoint, ours: bool, option: nat)
    requires option < MAX_OPTIONS
    ensures var (next, sent) := Request(e, ours, option);
            var s := SideOf(e, ours, option);
            Goes(e, next, sent, ours, option, Requested(Read(s))) <==> s != ExpectEnable && s != ExpectDisableRev
  {
    RequestIs(SideOf(e, ours, option));
    CommandsAre(ours, option, true);
  }

  /** DO and WILL enable, DONT and WONT disable; DO and DONT speak of our side. */
  function Reply(e: Endpoint, c: Cmd): Reaction
    requires c.option < MAX_OPTIONS
  {
    match c.verb
    case Do => Enabled(Read(e[c.option].localState), e[c.option].localAllowed)
    case Dont => Disabled(Read(e[c.option].localState))
    case Will => Enabled(Read(e[c.option].peerState), e[c.option].peerAllowed)
    case Wont => Disabled(Read(e[c.option].peerState))
  }

  /** A command is answered as in the RFC exactly unless it finds the opposite of its kind queued. */
  lemma ReceiveExact(e: Endpoint, c: Cmd)
    requires c.option < MAX_OPTIONS
    ensures var (next, sent) := Receive(e, c);
            var ours := c.verb == Do || c.verb == Dont;
            Goes(e, next, sent, ours, c.option, Reply(e, c))
            <==> SideOf(e, ours, c.option) != (if c.verb == Do || c.verb == Will then ExpectDisableRev else ExpectEnableRev)
  {
    var ours := c.verb == Do || c.verb == Dont;
    var s := SideOf(e, ours, c.option);
    EnablingIs(s, AllowedOf(e[c.option], ours));
    DisablingIs(s);
    CommandsAre(ours, c.option, true);
    CommandsAre(ours, c.option, false);
  }

  // ----- in runs -----

  /** Nothing is ever asked to be disabled, so nothing is queued. */
  predicate Plain(t: Thread) {
    t.x in {Disable, Enable, ExpectEnable} && t.y in {Disable, Enable, ExpectEnable}
  }

  lemma PlainKept()
    ensures Kept(Plain, false)
  {
  }

  lemma PlainRun(n: Net, steps: seq<Step>, o: nat)
    requires Initial(n) && Runs(n, steps) && o < MAX_OPTIONS
    ensures Plain(ThreadOf(After(n, steps), o)) && Plain(ThreadOf(Flip(After(n, steps)), o))
  {
    PlainKept();
    RunKeeps(n, steps, Plain, false);
  }

  /** In every run every command received is answered as in RFC 1143, ... */
  lemma RunsAnswer(n: Net, steps: seq<Step>, c: Cmd)
    requires Initial(n) && Runs(n, steps) && c.option < MAX_OPTIONS
    ensures var e := After(n, steps).a;
            var (next, sent) := Receive(e, c);
            Goes(e, next, sent, c.verb == Do || c.verb == Dont, c.option, Reply(e, c))
  {
    PlainRun(n, steps, c.option);
    ReceiveExact(After(n, steps).a, c);
  }

  /** ... and a request is the RFC's exactly if none is awaited; otherwise it gives up the first. */
  lemma RunsRequest(n: Net, steps: seq<Step>, ours: bool, option: nat)
    requires Initial(n) && Runs(n, steps) && option < MAX_OPTIONS
    ensures var e := After(n, steps).a;
            var (next, sent) := Request(e, ours, option);
            && (Goes(e, next, sent, ours, option, Requested(Read(SideOf(e, ours, option))))
                <==> SideOf(e, ours, option) != ExpectEnable)
            && (SideOf(e, ours, option) == ExpectEnable
                ==> Goes(e, next, sent, ours, option, Reaction(No, Silence)))
  {
    PlainRun(n, steps, option);
    RequestExact(After(n, steps).a, ours, option);
    CommandsAre(ours, option, true);
  }
}
