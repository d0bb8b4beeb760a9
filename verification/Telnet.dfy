/**
 * Telnet option negotiation between two endpoints that run the same table over two FIFO streams
 * (RFC 854, "General Considerations").
 */
module Telnet {
  import opened Bytes

  datatype OptState = Disable | Enable | ExpectDisable | ExpectEnable | ExpectDisableRev | ExpectEnableRev

  /** cli_telnet_sess_option: our own side of the option, and what we ask of the peer. */
  datatype OptionRec = OptionRec(localAllowed: bool, localState: OptState, peerAllowed: bool, peerState: OptState)

  const MAX_OPTIONS := 256

  datatype Verb = Will | Wont | Do | Dont

  datatype Cmd = Cmd(verb: Verb, option: nat)

  // ----- the table -----

  /** The new state, and whether an enabling or a disabling command is sent. */
  datatype Act = Act(state: OptState, sent: seq<bool>)

  /** `send_enable_option`. */
  function OnRequest(s: OptState): Act {
    match s
    case Enable => Act(Enable, [])
    case Disable => Act(ExpectEnable, [true])
    case ExpectEnable => Act(Disable, [])
    case ExpectDisable => Act(ExpectDisableRev, [])
    case ExpectEnableRev => Act(ExpectEnable, [])
    case ExpectDisableRev => Act(Disable, [])
  }

  /** `receive_enable_option`. */
  function OnEnable(s: OptState, allowed: bool): Act {
    match s
    case Enable => Act(Enable, [])
    case Disable => if allowed then Act(Enable, [true]) else Act(Disable, [false])
    case ExpectEnable => Act(Enable, [])
    case ExpectDisable => Act(Disable, [])
    case ExpectEnableRev => Act(ExpectDisable, [false])
    case ExpectDisableRev => Act(ExpectDisable, [])
  }

  /** `receive_disable_option`. */
  function OnDisable(s: OptState): Act {
    match s
    case Enable => Act(Disable, [false])
    case Disable => Act(Disable, [])
    case ExpectEnable => Act(Disable, [])
    case ExpectDisable => Act(Disable, [])
    case ExpectEnableRev => Act(Disable, [false])
    case ExpectDisableRev => Act(ExpectEnable, [true])
  }

  function OnReceive(s: OptState, allowed: bool, on: bool): Act {
    if on then OnEnable(s, allowed) else OnDisable(s)
  }

  // ----- one endpoint -----

  function VerbOf(isLocal: bool, on: bool): Verb {
    if isLocal then (if on then Will else Wont) else (if on then Do else Dont)
  }

  predicate TurnsOn(v: Verb) {
    v == Will || v == Do
  }

  /** The command is about the sender's own side of the option. */
  predicate FromLocal(v: Verb) {
    v == Will || v == Wont
  }

  function StateOf(r: OptionRec, isLocal: bool): OptState {
    if isLocal then r.localState else r.peerState
  }

  function AllowedOf(r: OptionRec, isLocal: bool): bool {
    if isLocal then r.localAllowed else r.peerAllowed
  }

  function WithState(r: OptionRec, isLocal: bool, s: OptState): OptionRec {
    if isLocal then r.(localState := s) else r.(peerState := s)
  }

  type Endpoint = e: seq<OptionRec> | |e| == MAX_OPTIONS witness seq(MAX_OPTIONS, _ => OptionRec(false, Disable, false, Disable))

  function Commands(isLocal: bool, option: nat, sent: seq<bool>): (r: seq<Cmd>)
    ensures |r| == |sent|
  {
    seq(|sent|, i requires 0 <= i < |sent| => Cmd(VerbOf(isLocal, sent[i]), option))
  }

  function Request(e: Endpoint, isLocal: bool, option: nat): (Endpoint, seq<Cmd>)
    requires option < MAX_OPTIONS
  {
    var act := OnRequest(StateOf(e[option], isLocal));
    (e[option := WithState(e[option], isLocal, act.state)], Commands(isLocal, option, act.sent))
  }

  /** A command about the sender's side is about our peer state, and the other way round. */
  function Receive(e: Endpoint, c: Cmd): (Endpoint, seq<Cmd>)
    requires c.option < MAX_OPTIONS
  {
    var isLocal := !FromLocal(c.verb);
    var r := e[c.option];
    var act := OnReceive(StateOf(r, isLocal), AllowedOf(r, isLocal), TurnsOn(c.verb));
    (e[c.option := WithState(r, isLocal, act.state)], Commands(isLocal, c.option, act.sent))
  }

  lemma SameState(e: Endpoint, option: nat, isLocal: bool)
    requires option < MAX_OPTIONS
    ensures e[option := WithState(e[option], isLocal, StateOf(e[option], isLocal))] == e
    ensures Commands(isLocal, option, []) == []
  {
    assert WithState(e[option], isLocal, StateOf(e[option], isLocal)) == e[option];
  }

  /** cli_telnet_sess, as far as options go; `out` is what was written to the socket. */
  class Session {
    const telnetOption: array<OptionRec>
    var out: seq<Cmd>

    predicate Valid() {
      telnetOption.Length == MAX_OPTIONS
    }

    constructor ()
      ensures Valid() && fresh(telnetOption) && out == []
      ensures forall o :: 0 <= o < MAX_OPTIONS ==> telnetOption[o] == OptionRec(false, Disable, false, Disable)
    {
      telnetOption := new OptionRec[MAX_OPTIONS](_ => OptionRec(false, Disable, false, Disable));
      out := [];
    }

    method SetState(isLocal: bool, option: nat, s: OptState)
      requires Valid() && option < MAX_OPTIONS
      modifies telnetOption
      ensures telnetOption[..] == old(telnetOption[..])[option := WithState(old(telnetOption[option]), isLocal, s)]
    {
      telnetOption[option] := WithState(telnetOption[option], isLocal, s);
    }

    /** `send_telnet_cmd`. */
    method Send(isLocal: bool, on: bool, option: nat)
      modifies this
      ensures out == old(out) + Commands(isLocal, option, [on])
    {
      out := out + [Cmd(VerbOf(isLocal, on), option)];
    }

    /** `send_enable_option`. */
    method SendEnableOption(isLocal: bool, option: nat)
      requires Valid() && option < MAX_OPTIONS
      modifies this, telnetOption
      ensures (telnetOption[..], out) ==
              var (e, sent) := Request(old(telnetOption[..]), isLocal, option); (e, old(out) + sent)
    {
      SameState(telnetOption[..], option, isLocal);
      assert out + [] == out;
      match StateOf(telnetOption[option], isLocal)
      case Enable =>
      case Disable =>
        SetState(isLocal, option, ExpectEnable);
        Send(isLocal, true, option);
      case ExpectEnable => SetState(isLocal, option, Disable);
      case ExpectDisable => SetState(isLocal, option, ExpectDisableRev);
      case ExpectEnableRev => SetState(isLocal, option, ExpectEnable);
      case ExpectDisableRev => SetState(isLocal, option, Disable);
    }

    /** `receive_enable_option`, called by `receive_do` and `receive_will`. */
    method ReceiveEnableOption(isLocal: bool, option: nat)
      requires Valid() && option < MAX_OPTIONS
      modifies this, telnetOption
      ensures (telnetOption[..], out) ==
              var (e, sent) := Receive(old(telnetOption[..]), Cmd(VerbOf(!isLocal, true), option)); (e, old(out) + sent)
    {
      SameState(telnetOption[..], option, isLocal);
      assert out + [] == out;
      match StateOf(telnetOption[option], isLocal)
      case Enable =>
      case Disable =>
        if AllowedOf(telnetOption[option], isLocal) {
          SetState(isLocal, option, Enable);
          Send(isLocal, true, option);
        } else {
          Send(isLocal, false, option);
        }
      case ExpectEnable => SetState(isLocal, option, Enable);
      case ExpectDisable => SetState(isLocal, option, Disable);
      case ExpectEnableRev =>
        SetState(isLocal, option, ExpectDisable);
        Send(isLocal, false, option);
      case ExpectDisableRev => SetState(isLocal, option, ExpectDisable);
    }

    /** `receive_disable_option`, called by `receive_dont` and `receive_wont`. */
    method ReceiveDisableOption(isLocal: bool, option: nat)
      requires Valid() && option < MAX_OPTIONS
      modifies this, telnetOption
      ensures (telnetOption[..], out) ==
              var (e, sent) := Receive(old(telnetOption[..]), Cmd(VerbOf(!isLocal, false), option)); (e, old(out) + sent)
    {
      SameState(telnetOption[..], option, isLocal);
      assert out + [] == out;
      match StateOf(telnetOption[option], isLocal)
      case Enable =>
        SetState(isLocal, option, Disable);
        Send(isLocal, false, option);
      case Disable =>
      case ExpectEnable => SetState(isLocal, option, Disable);
      case ExpectDisable => SetState(isLocal, option, Disable);
      case ExpectEnableRev =>
        SetState(isLocal, option, Disable);
        Send(isLocal, false, option);
      case ExpectDisableRev =>
        SetState(isLocal, option, ExpectEnable);
        Send(isLocal, true, option);
    }

    /** The four receiving wrappers. */
    method ReceiveCommand(c: Cmd)
      requires Valid() && c.option < MAX_OPTIONS
      modifies this, telnetOption
      ensures (telnetOption[..], out) == var (e, sent) := Receive(old(telnetOption[..]), c); (e, old(out) + sent)
    {
      match c.verb
      case Do => ReceiveEnableOption(true, c.option);
      case Dont => ReceiveDisableOption(true, c.option);
      case Will => ReceiveEnableOption(false, c.option);
      case Wont => ReceiveDisableOption(false, c.option);
    }
  }

  // ----- two endpoints -----

  /** Everything sent and not yet received, in order: `ab` from a to b, `ba` back. */
  datatype Net = Net(a: Endpoint, b: Endpoint, ab: seq<Cmd>, ba: seq<Cmd>)

  function Flip(n: Net): Net {
    Net(n.b, n.a, n.ba, n.ab)
  }

  datatype Step = Ask(byA: bool, isLocal: bool, option: nat) | Deliver(toA: bool)

  predicate WellFormed(n: Net) {
    (forall c :: c in n.ab ==> c.option < MAX_OPTIONS) && (forall c :: c in n.ba ==> c.option < MAX_OPTIONS)
  }

  function AskA(n: Net, isLocal: bool, option: nat): Net
    requires option < MAX_OPTIONS
  {
    var (e, sent) := Request(n.a, isLocal, option);
    n.(a := e, ab := n.ab + sent)
  }

  function DeliverA(n: Net): Net
    requires n.ba != [] && n.ba[0].option < MAX_OPTIONS
  {
    var (e, sent) := Receive(n.a, n.ba[0]);
    n.(a := e, ab := n.ab + sent, ba := n.ba[1..])
  }

  /** No reply is awaited. */
  predicate Settled(s: OptState) {
    s == Enable || s == Disable
  }

  /** Either side may be asked to enable any option at any time. */
  predicate Enabled(n: Net, step: Step) {
    match step
    case Ask(_, _, option) => option < MAX_OPTIONS
    case Deliver(toA) => if toA then n.ba != [] else n.ab != []
  }

  /** The step does not ask for an option whose reply is still awaited. */
  predicate Patient(n: Net, step: Step)
    requires Enabled(n, step)
  {
    step.Ask? ==> Settled(StateOf(if step.byA then n.a[step.option] else n.b[step.option], step.isLocal))
  }

  function Next(n: Net, step: Step): Net
    requires WellFormed(n) && Enabled(n, step)
  {
    match step
    case Ask(byA, isLocal, option) =>
      if byA then AskA(n, isLocal, option) else Flip(AskA(Flip(n), isLocal, option))
    case Deliver(toA) => if toA then DeliverA(n) else Flip(DeliverA(Flip(n)))
  }

  // ----- one option and direction -----

  /**
   * One option in one direction: x is the state of the endpoint whose own side it is, y that of
   * its peer; q and r are the enabling and disabling commands on their way to y and to x.
   */
  datatype Thread = Thread(x: OptState, y: OptState, xAllowed: bool, yAllowed: bool, q: seq<bool>, r: seq<bool>)

  /** The commands of a stream that belong to the thread. */
  function Pick(cmds: seq<Cmd>, fromLocal: bool, option: nat): seq<bool> {
    if cmds == [] then []
    else (if cmds[0].option == option && FromLocal(cmds[0].verb) == fromLocal then [TurnsOn(cmds[0].verb)] else [])
         + Pick(cmds[1..], fromLocal, option)
  }

  /** The thread of a's own side of the option; that of b's own side is the thread of the flipped net. */
  function ThreadOf(n: Net, option: nat): Thread
    requires option < MAX_OPTIONS
  {
    Thread(n.a[option].localState, n.b[option].peerState, n.a[option].localAllowed, n.b[option].peerAllowed,
           Pick(n.ab, true, option), Pick(n.ba, false, option))
  }

  function AskX(t: Thread): Thread {
    var act := OnRequest(t.x);
    t.(x := act.state, q := t.q + act.sent)
  }

  function AskY(t: Thread): Thread {
    var act := OnRequest(t.y);
    t.(y := act.state, r := t.r + act.sent)
  }

  function ToX(t: Thread): Thread
    requires t.r != []
  {
    var act := OnReceive(t.x, t.xAllowed, t.r[0]);
    t.(x := act.state, q := t.q + act.sent, r := t.r[1..])
  }

  function ToY(t: Thread): Thread
    requires t.q != []
  {
    var act := OnReceive(t.y, t.yAllowed, t.q[0]);
    t.(y := act.state, r := t.r + act.sent, q := t.q[1..])
  }

  lemma Grouped(a: seq<bool>, b: seq<bool>, c: seq<bool>)
    ensures a + (b + c) == (a + b) + c
  {
  }

  lemma {:induction false} PickConcat(a: seq<Cmd>, b: seq<Cmd>, fromLocal: bool, option: nat)
    ensures Pick(a + b, fromLocal, option) == Pick(a, fromLocal, option) + Pick(b, fromLocal, option)
  {
    if a == [] {
      assert a + b == b;
    } else {
      assert (a + b)[0] == a[0] && (a + b)[1..] == a[1..] + b;
      PickConcat(a[1..], b, fromLocal, option);
      var h := if a[0].option == option && FromLocal(a[0].verb) == fromLocal then [TurnsOn(a[0].verb)] else [];
      Grouped(h, Pick(a[1..], fromLocal, option), Pick(b, fromLocal, option));
    }
  }

  lemma PickSent(cmds: seq<Cmd>, isLocal: bool, option: nat, sent: seq<bool>, fromLocal: bool, o: nat)
    requires |sent| <= 1
    ensures Pick(cmds + Commands(isLocal, option, sent), fromLocal, o) ==
            Pick(cmds, fromLocal, o) + if o == option && fromLocal == isLocal then sent else []
  {
    var added := Commands(isLocal, option, sent);
    PickConcat(cmds, added, fromLocal, o);
    if sent != [] {
      assert added == [Cmd(VerbOf(isLocal, sent[0]), option)] && sent == [sent[0]];
      assert added[1..] == [];
    } else {
      assert added == [];
    }
  }

  lemma AskThreads(n: Net, isLocal: bool, option: nat, o: nat)
    requires option < MAX_OPTIONS && o < MAX_OPTIONS
    ensures var t := AskA(n, isLocal, option);
            && ThreadOf(t, o) == (if o == option && isLocal then AskX(ThreadOf(n, o)) else ThreadOf(n, o))
            && ThreadOf(Flip(t), o) == (if o == option && !isLocal then AskY(ThreadOf(Flip(n), o)) else ThreadOf(Flip(n), o))
  {
    var sent := OnRequest(StateOf(n.a[option], isLocal)).sent;
    PickSent(n.ab, isLocal, option, sent, true, o);
    PickSent(n.ab, isLocal, option, sent, false, o);
  }

  /** The command at the head of the stream to a is about the thread. */
  predicate HeadIs(n: Net, fromLocal: bool, o: nat) {
    n.ba != [] && n.ba[0].option == o && FromLocal(n.ba[0].verb) == fromLocal
  }

  lemma PickHead(cmds: seq<Cmd>, fromLocal: bool, o: nat)
    requires cmds != []
    ensures Pick(cmds, fromLocal, o) ==
            if cmds[0].option == o && FromLocal(cmds[0].verb) == fromLocal
            then [TurnsOn(cmds[0].verb)] + Pick(cmds[1..], fromLocal, o)
            else Pick(cmds[1..], fromLocal, o)
  {
  }

  lemma PickTail(cmds: seq<Cmd>, fromLocal: bool, o: nat)
    requires cmds != []
    ensures var w, own := Pick(cmds, fromLocal, o), cmds[0].option == o && FromLocal(cmds[0].verb) == fromLocal;
            if own then w != [] && w[0] == TurnsOn(cmds[0].verb) && w[1..] == Pick(cmds[1..], fromLocal, o)
            else w == Pick(cmds[1..], fromLocal, o)
  {
  }

  lemma DeliverOwn(n: Net, o: nat)
    requires WellFormed(n) && n.ba != [] && o < MAX_OPTIONS && n.ba[0].option < MAX_OPTIONS
    ensures HeadIs(n, false, o) ==> ThreadOf(n, o).r != []
    ensures ThreadOf(DeliverA(n), o) == if HeadIs(n, false, o) then ToX(ThreadOf(n, o)) else ThreadOf(n, o)
  {
    var c := n.ba[0];
    var isLocal := !FromLocal(c.verb);
    var r := n.a[c.option];
    var act := OnReceive(StateOf(r, isLocal), AllowedOf(r, isLocal), TurnsOn(c.verb));
    PickSent(n.ab, isLocal, c.option, act.sent, true, o);
    PickTail(n.ba, false, o);
    assert DeliverA(n).ab == n.ab + Commands(isLocal, c.option, act.sent);
  }

  lemma DeliverPeer(n: Net, o: nat)
    requires WellFormed(n) && n.ba != [] && o < MAX_OPTIONS && n.ba[0].option < MAX_OPTIONS
    ensures HeadIs(n, true, o) ==> ThreadOf(Flip(n), o).q != []
    ensures ThreadOf(Flip(DeliverA(n)), o) == if HeadIs(n, true, o) then ToY(ThreadOf(Flip(n), o)) else ThreadOf(Flip(n), o)
  {
    var c := n.ba[0];
    var isLocal := !FromLocal(c.verb);
    var r := n.a[c.option];
    var act := OnReceive(StateOf(r, isLocal), AllowedOf(r, isLocal), TurnsOn(c.verb));
    PickSent(n.ab, isLocal, c.option, act.sent, false, o);
    PickTail(n.ba, true, o);
    assert DeliverA(n).ab == n.ab + Commands(isLocal, c.option, act.sent);
  }

  function FlipThread(t: Thread): Thread {
    Thread(t.y, t.x, t.yAllowed, t.xAllowed, t.r, t.q)
  }

  /** What holds for x carries over to y. */
  lemma Mirrored(t: Thread)
    ensures FlipThread(FlipThread(t)) == t
    ensures AskY(t) == FlipThread(AskX(FlipThread(t)))
    ensures t.q != [] ==> ToY(t) == FlipThread(ToX(FlipThread(t)))
  {
  }

  // ----- the reachable states of a thread -----

  /** Nothing in flight, and both sides think the same of the option. */
  predicate Quiet(t: Thread) {
    t.q == [] && t.r == [] && t.x == t.y && Settled(t.x)
  }

  /** Commands of the thread on their way. */
  function InFlight(t: Thread): nat {
    |t.q| + |t.r|
  }

  /**
   * What x knows: unless it has the option disabled, the last command it has sent enables it, and
   * once y has taken that in, y has it enabled or has said no.
   */
  predicate HalfSound(t: Thread) {
    && (t.x == Disable || t.x == Enable || t.x == ExpectEnable)
    && (t.x != Disable && t.q != [] ==> t.q[|t.q| - 1])
    && (t.x != Disable && t.q == [] ==> t.y == Enable || false in t.r)
    && (t.x == ExpectEnable && t.q == [] ==> t.r != [])
  }

  /** Nobody says no where both allow the option. */
  predicate NobodyRefuses(t: Thread) {
    t.xAllowed && t.yAllowed ==> false !in t.q && false !in t.r
  }

  predicate Sound(t: Thread) {
    HalfSound(t) && HalfSound(FlipThread(t)) && NobodyRefuses(t)
  }

  lemma Words(w: seq<bool>, b: bool)
    ensures w + [] == w && (w + [b])[|w|] == b
    ensures forall v :: v in w + [b] <==> v in w || v == b
    ensures w != [] ==> w == [w[0]] + w[1..] && forall v :: v in w <==> v == w[0] || v in w[1..]
    ensures |w| > 1 ==> w[1..][|w| - 2] == w[|w| - 1]
  {
  }

  lemma SoundAsk(t: Thread)
    requires Sound(t)
    ensures Sound(AskX(t)) && Sound(AskY(t))
  {
    SoundAskX(t);
    SoundAskX(FlipThread(t));
    Mirrored(t);
  }

  lemma SoundAskX(t: Thread)
    requires Sound(t)
    ensures Sound(AskX(t))
  {
    Words(t.q, true);
  }

  lemma SoundToX(t: Thread)
    requires Sound(t) && t.r != []
    ensures Sound(ToX(t))
  {
    Words(t.r, true);
    Words(t.q, true);
    Words(t.q, false);
  }

  lemma SoundToY(t: Thread)
    requires Sound(t) && t.q != []
    ensures Sound(ToY(t))
  {
    SoundToX(FlipThread(t));
    Mirrored(t);
  }

  // ----- runs -----

  /** All options disabled, whatever the permissions, and nothing in flight. */
  predicate Initial(n: Net) {
    && n.ab == [] && n.ba == []
    && (forall o :: 0 <= o < MAX_OPTIONS ==> n.a[o].localState == n.a[o].peerState == Disable)
    && (forall o :: 0 <= o < MAX_OPTIONS ==> n.b[o].localState == n.b[o].peerState == Disable)
  }

  /** A property of threads that requests and deliveries keep; requests only while settled, if guarded. */
  ghost predicate Kept(ok: Thread -> bool, guarded: bool) {
    && (forall t {:trigger AskX(t)} :: ok(t) && (guarded ==> Settled(t.x)) ==> ok(AskX(t)))
    && (forall t {:trigger AskY(t)} :: ok(t) && (guarded ==> Settled(t.y)) ==> ok(AskY(t)))
    && (forall t: Thread {:trigger ToX(t)} :: ok(t) && t.r != [] ==> ok(ToX(t)))
    && (forall t: Thread {:trigger ToY(t)} :: ok(t) && t.q != [] ==> ok(ToY(t)))
  }

  ghost predicate All(n: Net, ok: Thread -> bool) {
    && WellFormed(n)
    && (forall o :: 0 <= o < MAX_OPTIONS ==> ok(ThreadOf(n, o)))
    && (forall o :: 0 <= o < MAX_OPTIONS ==> ok(ThreadOf(Flip(n), o)))
  }

  lemma AskKeeps(n: Net, isLocal: bool, option: nat, ok: Thread -> bool, guarded: bool)
    requires Kept(ok, guarded) && All(n, ok) && option < MAX_OPTIONS
    requires guarded ==> Settled(StateOf(n.a[option], isLocal))
    ensures All(AskA(n, isLocal, option), ok)
  {
    var t := AskA(n, isLocal, option);
    forall o: nat | o < MAX_OPTIONS ensures ok(ThreadOf(t, o)) && ok(ThreadOf(Flip(t), o)) {
      AskThreads(n, isLocal, option, o);
      assert ok(ThreadOf(n, o)) && ok(ThreadOf(Flip(n), o));
    }
  }

  lemma DeliverKeeps(n: Net, ok: Thread -> bool, guarded: bool)
    requires Kept(ok, guarded) && All(n, ok) && n.ba != []
    ensures All(DeliverA(n), ok)
  {
    var t := DeliverA(n);
    forall o: nat | o < MAX_OPTIONS ensures ok(ThreadOf(t, o)) && ok(ThreadOf(Flip(t), o)) {
      DeliverOwn(n, o);
      DeliverPeer(n, o);
      assert ok(ThreadOf(n, o)) && ok(ThreadOf(Flip(n), o));
    }
  }

  lemma NextKeeps(n: Net, step: Step, ok: Thread -> bool, guarded: bool)
    requires Kept(ok, guarded) && All(n, ok) && Enabled(n, step) && (guarded ==> Patient(n, step))
    ensures All(Next(n, step), ok)
  {
    match step
    case Ask(byA, isLocal, option) =>
      if byA {
        AskKeeps(n, isLocal, option, ok, guarded);
      } else {
        AskKeeps(Flip(n), isLocal, option, ok, guarded);
      }
    case Deliver(toA) =>
      if toA {
        DeliverKeeps(n, ok, guarded);
      } else {
        DeliverKeeps(Flip(n), ok, guarded);
      }
  }

  predicate Runs(n: Net, steps: seq<Step>)
    decreases |steps|
  {
    WellFormed(n) && (steps == [] || (Enabled(n, steps[0]) && Runs(Next(n, steps[0]), steps[1..])))
  }

  /** Nobody asks for an option while awaiting a reply about it. */
  predicate PatientRun(n: Net, steps: seq<Step>)
    requires Runs(n, steps)
    decreases |steps|
  {
    steps == [] || (Patient(n, steps[0]) && PatientRun(Next(n, steps[0]), steps[1..]))
  }

  function After(n: Net, steps: seq<Step>): Net
    requires Runs(n, steps)
    decreases |steps|
  {
    if steps == [] then n else After(Next(n, steps[0]), steps[1..])
  }

  lemma {:induction false} RunKeeps(n: Net, steps: seq<Step>, ok: Thread -> bool, guarded: bool)
    requires Kept(ok, guarded) && All(n, ok) && Runs(n, steps) && (guarded ==> PatientRun(n, steps))
    ensures All(After(n, steps), ok)
    decreases |steps|
  {
    if steps != [] {
      NextKeeps(n, steps[0], ok, guarded);
      RunKeeps(Next(n, steps[0]), steps[1..], ok, guarded);
    }
  }

  lemma SoundKept()
    ensures Kept(Sound, false)
  {
    forall t: Thread | Sound(t) ensures Sound(AskX(t)) && Sound(AskY(t)) {
      SoundAsk(t);
    }
    forall t: Thread | Sound(t) && t.r != [] ensures Sound(ToX(t)) {
      SoundToX(t);
    }
    forall t: Thread | Sound(t) && t.q != [] ensures Sound(ToY(t)) {
      SoundToY(t);
    }
  }

  // ----- agreement -----

  /** No command about a's own side of the option is in flight. */
  predicate Silent(n: Net, o: nat) {
    && (forall c :: c in n.ab && c.option == o ==> !FromLocal(c.verb))
    && (forall c :: c in n.ba && c.option == o ==> FromLocal(c.verb))
  }

  lemma {:induction false} PickNone(cmds: seq<Cmd>, fromLocal: bool, o: nat)
    requires forall c :: c in cmds && c.option == o ==> FromLocal(c.verb) != fromLocal
    ensures Pick(cmds, fromLocal, o) == []
  {
    if cmds != [] {
      PickNone(cmds[1..], fromLocal, o);
    }
  }

  lemma SoundQuiet(t: Thread)
    requires Sound(t) && t.q == [] && t.r == []
    ensures Quiet(t)
  {
  }

  /**
   * In every run, whatever the permissions, whenever options are asked for and whatever else is on
   * the streams: when no command about one side of an option is in flight, that side and its peer
   * both have it enabled or both have it disabled.
   */
  lemma Agreement(n: Net, steps: seq<Step>, o: nat)
    requires Initial(n) && Runs(n, steps) && o < MAX_OPTIONS
    ensures var t := After(n, steps);
            && (Silent(t, o) ==> t.a[o].localState == t.b[o].peerState && Settled(t.a[o].localState))
            && (Silent(Flip(t), o) ==> t.b[o].localState == t.a[o].peerState && Settled(t.b[o].localState))
  {
    SoundKept();
    RunKeeps(n, steps, Sound, false);
    var t := After(n, steps);
    if Silent(t, o) {
      PickNone(t.ab, true, o);
      PickNone(t.ba, false, o);
      SoundQuiet(ThreadOf(t, o));
    }
    if Silent(Flip(t), o) {
      PickNone(t.ba, true, o);
      PickNone(t.ab, false, o);
      SoundQuiet(ThreadOf(Flip(t), o));
    }
  }

  // ----- how many deliveries are left, for requests at any time -----

  /** Enabling commands weigh on, disabling commands weigh off. */
  function Weight(w: seq<bool>, on: nat, off: nat): nat {
    if w == [] then 0 else (if w[0] then on else off) + Weight(w[1..], on, off)
  }

  lemma {:induction false} WeightMore(w: seq<bool>, b: bool, on: nat, off: nat)
    ensures Weight(w + [b], on, off) == Weight(w, on, off) + if b then on else off
  {
    if w == [] {
      assert [b][1..] == [];
    } else {
      WeightMore(w[1..], b, on, off);
      assert (w + [b])[1..] == w[1..] + [b];
    }
  }

  lemma {:induction false} WeightBound(w: seq<bool>, on: nat, off: nat, most: nat)
    requires on <= most && off <= most
    ensures Weight(w, on, off) <= most * |w|
    ensures off < most && false in w ==> Weight(w, on, off) < most * |w|
  {
    if w != [] {
      WeightBound(w[1..], on, off, most);
      assert most * |w| == most + most * |w[1..]|;
    }
  }

  /** Disabling commands with no enabling one behind them weigh only one. */
  function WeightEnding(w: seq<bool>): nat {
    if w == [] then 0
    else (if w[0] then 3 else if true in w then 2 else 1) + WeightEnding(w[1..])
  }

  lemma {:induction false} EndingMore(w: seq<bool>)
    ensures WeightEnding(w + [false]) == WeightEnding(w) + 1
  {
    if w == [] {
      assert [false][1..] == [];
    } else {
      EndingMore(w[1..]);
      assert (w + [false])[1..] == w[1..] + [false];
      Words(w, false);
    }
  }

  lemma {:induction false} EndingBound(w: seq<bool>)
    ensures WeightEnding(w) <= 3 * |w|
    ensures false in w ==> WeightEnding(w) < 3 * |w|
  {
    if w != [] {
      EndingBound(w[1..]);
      Words(w, false);
    }
  }

  /** At least as many deliveries as are still to come, by who allows the option. */
  function Ahead(t: Thread): nat {
    if t.q == [] && t.r == [] then 0
    else if t.xAllowed && t.yAllowed then AheadBoth(t)
    else if t.xAllowed then AheadOne(t)
    else if t.yAllowed then AheadOne(FlipThread(t))
    else AheadNone(t)
  }

  function One(b: bool): nat {
    if b then 1 else 0
  }

  /** Each side replies once, when the first command enables it. */
  function AheadBoth(t: Thread): nat {
    InFlight(t) + One(t.x == Disable) + One(t.y == Disable)
  }

  /** An enabling command may be refused, and a side that was granted the option may have to give it up. */
  function AheadNone(t: Thread): nat {
    Weight(t.q, 2, 1) + Weight(t.r, 2, 1) + One(t.x == Enable) + One(t.y == Enable)
  }

  /** Only x allows the option: it may be switched on and off by commands it has yet to receive. */
  function AheadOne(t: Thread): nat {
    Weight(t.q, 2, 1) + WeightEnding(t.r)
    + One(t.y == Enable && (false in t.q || false in t.r)) + One(t.x == Enable || true in t.r)
  }

  lemma AheadFlipped(t: Thread)
    ensures Ahead(FlipThread(t)) == Ahead(t)
  {
    Mirrored(t);
  }

  lemma BothToX(t: Thread)
    requires Sound(t) && t.r != [] && t.xAllowed && t.yAllowed
    ensures AheadBoth(ToX(t)) < AheadBoth(t)
  {
    Words(t.r, true);
  }

  lemma NoneToX(t: Thread)
    requires Sound(t) && t.r != [] && !t.xAllowed && !t.yAllowed
    ensures AheadNone(ToX(t)) < AheadNone(t)
  {
    Words(t.q, false);
    WeightMore(t.q, false, 2, 1);
  }

  lemma OneToX(t: Thread)
    requires Sound(t) && t.r != [] && t.xAllowed && !t.yAllowed
    ensures AheadOne(ToX(t)) < AheadOne(t)
  {
    Words(t.r, true);
    Words(t.q, true);
    Words(t.q, false);
    WeightMore(t.q, true, 2, 1);
    WeightMore(t.q, false, 2, 1);
  }

  lemma OneToY(t: Thread)
    requires Sound(t) && t.q != [] && t.xAllowed && !t.yAllowed
    ensures AheadOne(ToY(t)) < AheadOne(t)
  {
    Words(t.q, true);
    Words(t.r, false);
    EndingMore(t.r);
  }

  lemma AheadToX(t: Thread)
    requires Sound(t) && t.r != []
    ensures Ahead(ToX(t)) < Ahead(t)
  {
    if t.xAllowed && t.yAllowed {
      BothToX(t);
    } else if t.xAllowed {
      OneToX(t);
    } else if t.yAllowed {
      Mirrored(t);
      OneToY(FlipThread(t));
    } else {
      NoneToX(t);
    }
  }

  lemma AheadToY(t: Thread)
    requires Sound(t) && t.q != []
    ensures Ahead(ToY(t)) < Ahead(t)
  {
    Mirrored(t);
    AheadToX(FlipThread(t));
    AheadFlipped(t);
    AheadFlipped(ToX(FlipThread(t)));
  }

  lemma AheadBound(t: Thread)
    requires Sound(t)
    ensures Ahead(t) <= 3 * InFlight(t) + 1
  {
    WeightBound(t.q, 2, 1, 2);
    WeightBound(t.r, 2, 1, 2);
    WeightBound(t.q, 2, 1, 3);
    WeightBound(t.r, 2, 1, 3);
    EndingBound(t.q);
    EndingBound(t.r);
  }

  // ----- the deliveries of a run -----

  /** Steps that ask for a's own side of the option, or deliver a command about it. */
  predicate AsksFor(step: Step, o: nat) {
    step.Ask? && step.option == o && step.byA == step.isLocal
  }

  predicate DeliversFor(n: Net, step: Step, o: nat) {
    step.Deliver? && if step.toA then HeadIs(n, false, o) else HeadIs(Flip(n), true, o)
  }

  function DeliveriesFor(n: Net, steps: seq<Step>, o: nat): nat
    requires Runs(n, steps)
    decreases |steps|
  {
    if steps == [] then 0
    else DeliveriesFor(Next(n, steps[0]), steps[1..], o) + if DeliversFor(n, steps[0], o) then 1 else 0
  }

  /** A measure of threads that every delivery makes smaller. */
  ghost predicate Shrinks(ok: Thread -> bool, left: Thread -> nat) {
    && (forall t: Thread {:trigger ToX(t)} :: ok(t) && t.r != [] ==> ok(ToX(t)) && left(ToX(t)) < left(t))
    && (forall t: Thread {:trigger ToY(t)} :: ok(t) && t.q != [] ==> ok(ToY(t)) && left(ToY(t)) < left(t))
  }

  lemma StepShrinks(n: Net, step: Step, o: nat, ok: Thread -> bool, left: Thread -> nat)
    requires Shrinks(ok, left) && WellFormed(n) && Enabled(n, step) && o < MAX_OPTIONS
    requires ok(ThreadOf(n, o)) && !AsksFor(step, o)
    ensures ok(ThreadOf(Next(n, step), o))
    ensures left(ThreadOf(Next(n, step), o)) + (if DeliversFor(n, step, o) then 1 else 0) <= left(ThreadOf(n, o))
  {
    match step
    case Ask(byA, isLocal, option) =>
      if byA {
        AskThreads(n, isLocal, option, o);
      } else {
        AskThreads(Flip(n), isLocal, option, o);
      }
    case Deliver(toA) =>
      if toA {
        DeliverOwn(n, o);
      } else {
        DeliverPeer(Flip(n), o);
      }
  }

  lemma {:induction false} RunShrinks(n: Net, steps: seq<Step>, o: nat, ok: Thread -> bool, left: Thread -> nat)
    requires Shrinks(ok, left) && Runs(n, steps) && o < MAX_OPTIONS && ok(ThreadOf(n, o))
    requires forall i :: 0 <= i < |steps| ==> !AsksFor(steps[i], o)
    ensures DeliveriesFor(n, steps, o) + left(ThreadOf(After(n, steps), o)) <= left(ThreadOf(n, o))
    decreases |steps|
  {
    if steps != [] {
      StepShrinks(n, steps[0], o, ok, left);
      RunShrinks(Next(n, steps[0]), steps[1..], o, ok, left);
    }
  }

  lemma AheadShrinks()
    ensures Shrinks(Sound, Ahead)
  {
    forall t: Thread | Sound(t) && t.r != [] ensures Sound(ToX(t)) && Ahead(ToX(t)) < Ahead(t) {
      SoundToX(t);
      AheadToX(t);
    }
    forall t: Thread | Sound(t) && t.q != [] ensures Sound(ToY(t)) && Ahead(ToY(t)) < Ahead(t) {
      SoundToY(t);
      AheadToY(t);
    }
  }

  /**
   * Every exchange ends: after any run, however impatient, at most three deliveries for each command
   * about an option's side on its way, and one more, follow before it is asked for again.
   */
  lemma DeliveriesBounded(n: Net, past: seq<Step>, steps: seq<Step>, o: nat)
    requires Initial(n) && Runs(n, past) && Runs(After(n, past), steps) && o < MAX_OPTIONS
    requires forall i :: 0 <= i < |steps| ==> !AsksFor(steps[i], o)
    ensures DeliveriesFor(After(n, past), steps, o) <= 3 * InFlight(ThreadOf(After(n, past), o)) + 1
  {
    SoundKept();
    RunKeeps(n, past, Sound, false);
    AheadShrinks();
    var now := ThreadOf(After(n, past), o);
    assert Sound(now);
    RunShrinks(After(n, past), steps, o, Sound, Ahead);
    AheadBound(now);
  }

  lemma RunsTwo(n: Net, s1: Step, s2: Step)
    requires WellFormed(n) && Enabled(n, s1) && WellFormed(Next(n, s1)) && Enabled(Next(n, s1), s2)
    requires WellFormed(Next(Next(n, s1), s2))
    ensures Runs(n, [s1, s2]) && After(n, [s1, s2]) == Next(Next(n, s1), s2)
  {
    var m := Next(n, s1);
    assert [s1, s2][1..] == [s2] && [s2][1..] == [];
    assert Runs(Next(m, s2), []) && After(Next(m, s2), []) == Next(m, s2);
    assert Runs(m, [s2]) && After(m, [s2]) == After(Next(m, s2), []);
  }

  // b asks for a's side of the option twice; a takes it up, b refuses, a gives it up and b is told.

  const FOUR_DELIVERIES: seq<Step> := [Deliver(true), Deliver(false), Deliver(true), Deliver(false)]

  function Requested(n: Net, o: nat): Net
    requires o < MAX_OPTIONS
  {
    n.(b := n.b[o := n.b[o].(peerState := ExpectEnable)], ba := [Cmd(Do, o)])
  }

  function RequestedTwice(n: Net, o: nat): Net {
    n.(ba := [Cmd(Do, o)])
  }

  function TakenUp(n: Net, o: nat): Net
    requires o < MAX_OPTIONS
  {
    n.(a := n.a[o := n.a[o].(localState := Enable)], ab := [Cmd(Will, o)])
  }

  function Refused(n: Net, o: nat): Net
    requires o < MAX_OPTIONS
  {
    n.(a := n.a[o := n.a[o].(localState := Enable)], ba := [Cmd(Dont, o)])
  }

  function GivenUp(n: Net, o: nat): Net {
    n.(ab := [Cmd(Wont, o)])
  }

  function AskTwice(o: nat): seq<Step> {
    [Ask(false, false, o), Ask(false, false, o)]
  }

  lemma RequestFirst(n: Net, o: nat)
    requires Initial(n) && o < MAX_OPTIONS
    ensures Next(n, Ask(false, false, o)) == Requested(n, o)
  {
    assert n.b[o].peerState == Disable;
    assert Commands(false, o, [true]) == [Cmd(Do, o)];
  }

  lemma RequestSecond(n: Net, o: nat)
    requires Initial(n) && o < MAX_OPTIONS
    ensures Next(Requested(n, o), Ask(false, false, o)) == RequestedTwice(n, o)
  {
    assert n.b[o].peerState == Disable;
    assert n.b[o].(peerState := Disable) == n.b[o];
    assert Requested(n, o).b[o := n.b[o]] == n.b;
    assert Commands(false, o, []) == [];
  }

  lemma AskedTwice(n: Net, o: nat)
    requires Initial(n) && o < MAX_OPTIONS
    ensures Runs(n, AskTwice(o)) && After(n, AskTwice(o)) == RequestedTwice(n, o)
    ensures InFlight(ThreadOf(RequestedTwice(n, o), o)) == 1
  {
    RequestFirst(n, o);
    RequestSecond(n, o);
    RunsTwo(n, Ask(false, false, o), Ask(false, false, o));
    PickHead([Cmd(Do, o)], false, o);
  }

  /** The delivery leads from one net to the next, and counts. */
  predicate Delivered(n: Net, step: Step, next: Net, o: nat) {
    WellFormed(n) && Enabled(n, step) && DeliversFor(n, step, o) && Next(n, step) == next
  }

  /** The only command on the streams is delivered. */
  lemma DeliveredAlone(n: Net, c: Cmd, toA: bool, next: Net)
    requires c.option < MAX_OPTIONS && FromLocal(c.verb) != toA
    requires if toA then n.ab == [] && n.ba == [c] else n.ab == [c] && n.ba == []
    requires var (e, sent) := Receive(if toA then n.a else n.b, c);
             next == if toA then Net(e, n.b, sent, []) else Net(n.a, e, [], sent)
    ensures Delivered(n, Deliver(toA), next, c.option)
  {
    var sent := Receive(if toA then n.a else n.b, c).1;
    assert [c][1..] == [] && [] + sent == sent;
  }

  lemma TakesUp(n: Net, o: nat)
    requires Initial(n) && o < MAX_OPTIONS && n.a[o].localAllowed
    ensures Delivered(RequestedTwice(n, o), Deliver(true), TakenUp(n, o), o)
  {
    assert n.a[o].localState == Disable;
    assert Commands(true, o, [true]) == [Cmd(Will, o)];
    DeliveredAlone(RequestedTwice(n, o), Cmd(Do, o), true, TakenUp(n, o));
  }

  lemma Refuses(n: Net, o: nat)
    requires Initial(n) && o < MAX_OPTIONS && !n.b[o].peerAllowed
    ensures Delivered(TakenUp(n, o), Deliver(false), Refused(n, o), o)
  {
    assert n.b[o].peerState == Disable && n.b[o].(peerState := Disable) == n.b[o] && n.b[o := n.b[o]] == n.b;
    assert Commands(false, o, [false]) == [Cmd(Dont, o)];
    DeliveredAlone(TakenUp(n, o), Cmd(Will, o), false, Refused(n, o));
  }

  lemma GivesUp(n: Net, o: nat)
    requires Initial(n) && o < MAX_OPTIONS
    ensures Delivered(Refused(n, o), Deliver(true), GivenUp(n, o), o)
  {
    assert n.a[o].localState == Disable && n.a[o].(localState := Disable) == n.a[o];
    assert Refused(n, o).a[o := n.a[o]] == n.a;
    assert Commands(true, o, [false]) == [Cmd(Wont, o)];
    DeliveredAlone(Refused(n, o), Cmd(Dont, o), true, GivenUp(n, o));
  }

  lemma IsTold(n: Net, o: nat)
    requires Initial(n) && o < MAX_OPTIONS
    ensures Delivered(GivenUp(n, o), Deliver(false), n, o)
  {
    assert n.b[o].peerState == Disable && n.b[o].(peerState := Disable) == n.b[o] && n.b[o := n.b[o]] == n.b;
    assert Commands(false, o, []) == [];
    DeliveredAlone(GivenUp(n, o), Cmd(Wont, o), false, n);
  }

  lemma DeliverNext(n: Net, steps: seq<Step>, o: nat)
    requires WellFormed(n) && steps != [] && Enabled(n, steps[0]) && Runs(Next(n, steps[0]), steps[1..])
    ensures Runs(n, steps)
    ensures DeliveriesFor(n, steps, o) ==
            DeliveriesFor(Next(n, steps[0]), steps[1..], o) + if DeliversFor(n, steps[0], o) then 1 else 0
  {
  }

  lemma FourSteps(n0: Net, n1: Net, n2: Net, n3: Net, n4: Net, o: nat)
    requires Delivered(n0, Deliver(true), n1, o) && Delivered(n1, Deliver(false), n2, o)
    requires Delivered(n2, Deliver(true), n3, o) && Delivered(n3, Deliver(false), n4, o) && WellFormed(n4)
    ensures Runs(n0, FOUR_DELIVERIES) && DeliveriesFor(n0, FOUR_DELIVERIES, o) == 4
  {
    DeliverNext(n3, FOUR_DELIVERIES[3..], o);
    DeliverNext(n2, FOUR_DELIVERIES[2..], o);
    DeliverNext(n1, FOUR_DELIVERIES[1..], o);
    DeliverNext(n0, FOUR_DELIVERIES, o);
  }

  /**
   * The bound is reached: b, which does not allow the option, asks for it twice, so that it has
   * given up asking when its one command arrives at a, which allows it.
   */
  lemma FourDeliveries(n: Net, o: nat)
    requires Initial(n) && o < MAX_OPTIONS && n.a[o].localAllowed && !n.b[o].peerAllowed
    ensures Runs(n, AskTwice(o)) && Runs(After(n, AskTwice(o)), FOUR_DELIVERIES)
    ensures InFlight(ThreadOf(After(n, AskTwice(o)), o)) == 1
    ensures DeliveriesFor(After(n, AskTwice(o)), FOUR_DELIVERIES, o) == 4
  {
    AskedTwice(n, o);
    TakesUp(n, o);
    Refuses(n, o);
    GivesUp(n, o);
    IsTold(n, o);
    FourSteps(RequestedTwice(n, o), TakenUp(n, o), Refused(n, o), GivenUp(n, o), n, o);
  }

  // ----- patient requests -----

  /**
   * The states a thread can be in while enabling is never asked for with a reply outstanding:
   * quiet and agreed, or at some point of an exchange begun by one side or by both at once.
   */
  predicate Ok(t: Thread) {
    || Quiet(t)
    || (t.x == ExpectEnable && t.y == Disable && t.q == [true] && t.r == [])
    || (t.x == Disable && t.y == ExpectEnable && t.q == [] && t.r == [true])
    || (t.x == ExpectEnable && t.y == Enable && t.q == [] && t.r == [true])
    || (t.x == Enable && t.y == ExpectEnable && t.q == [true] && t.r == [])
    || (t.x == ExpectEnable && t.y == Disable && t.q == [] && t.r == [false] && !t.yAllowed)
    || (t.x == Disable && t.y == ExpectEnable && t.q == [false] && t.r == [] && !t.xAllowed)
    || (t.x == ExpectEnable && t.y == ExpectEnable && t.q == [true] && t.r == [true])
    || (t.x == ExpectEnable && t.y == ExpectEnable && t.q == [] && t.r == [false, true] && !t.yAllowed)
    || (t.x == ExpectEnable && t.y == ExpectEnable && t.q == [false, true] && t.r == [] && !t.xAllowed)
  }

  /** A bound on the deliveries such an exchange still needs. */
  function Left(t: Thread): nat {
    if t.q == [] && t.r == [] then 0
    else if t.x == ExpectEnable && t.y == ExpectEnable then (if t.q == [true] then 2 else 3)
    else if (t.x == Disable && t.r != []) || (t.y == Disable && t.q != []) then 2
    else 1
  }

  lemma ShortWords(w: seq<bool>)
    ensures [] + w == w && w + [] == w
    ensures w == [true] ==> [false] + w == [false, true]
    ensures |w| == 1 ==> w[1..] == []
    ensures w == [false, true] ==> w[1..] == [true]
  {
  }

  lemma OkAsk(t: Thread)
    requires Ok(t)
    ensures Settled(t.x) ==> Ok(AskX(t))
    ensures Settled(t.y) ==> Ok(AskY(t))
  {
    ShortWords([true]);
    assert [false] + [true] == [false, true] && [true] + [] == [true];
    ShortWords(t.q);
    ShortWords(t.r);
  }

  lemma OkToX(t: Thread)
    requires Ok(t) && t.r != []
    ensures Ok(ToX(t)) && Left(ToX(t)) < Left(t) <= 3
  {
    ShortWords(t.q);
    ShortWords(t.r);
    ShortWords(OnReceive(t.x, t.xAllowed, t.r[0]).sent);
  }

  lemma OkToY(t: Thread)
    requires Ok(t) && t.q != []
    ensures Ok(ToY(t)) && Left(ToY(t)) < Left(t) <= 3
  {
    ShortWords(t.q);
    ShortWords(t.r);
    ShortWords(OnReceive(t.y, t.yAllowed, t.q[0]).sent);
  }

  lemma OkKept()
    ensures Kept(Ok, true) && Shrinks(Ok, Left)
  {
    forall t: Thread | Ok(t) ensures Settled(t.x) ==> Ok(AskX(t)) {
      OkAsk(t);
    }
    forall t: Thread | Ok(t) ensures Settled(t.y) ==> Ok(AskY(t)) {
      OkAsk(t);
    }
    forall t: Thread | Ok(t) && t.r != [] ensures Ok(ToX(t)) && Left(ToX(t)) < Left(t) {
      OkToX(t);
    }
    forall t: Thread | Ok(t) && t.q != [] ensures Ok(ToY(t)) && Left(ToY(t)) < Left(t) {
      OkToY(t);
    }
  }

  /**
   * If nobody has asked while awaiting a reply, at most three commands about an option's side are
   * delivered before it is asked for again, however many others are.
   */
  lemma ExchangeEnds(n: Net, past: seq<Step>, steps: seq<Step>, o: nat)
    requires Initial(n) && Runs(n, past) && PatientRun(n, past) && Runs(After(n, past), steps) && o < MAX_OPTIONS
    requires forall i :: 0 <= i < |steps| ==> !AsksFor(steps[i], o)
    ensures DeliveriesFor(After(n, past), steps, o) <= 3
  {
    OkKept();
    RunKeeps(n, past, Ok, true);
    assert Ok(ThreadOf(After(n, past), o));
    RunShrinks(After(n, past), steps, o, Ok, Left);
  }

  // ----- outcomes -----

  /** A single request is granted exactly when the other side allows the option. */
  lemma RequestGranted(t: Thread)
    requires Quiet(t) && t.x == Disable
    ensures var u := ToX(ToY(AskX(t))); Quiet(u) && (u.x == Enable <==> t.yAllowed)
    ensures var u := ToY(ToX(AskY(t))); Quiet(u) && (u.x == Enable <==> t.xAllowed)
  {
    ShortWords([true]);
    ShortWords([false]);
    assert t.q + [true] == [true] && t.r + [true] == [true];
  }

  /** Requests that cross enable the option, whether or not either side would have allowed it. */
  lemma CrossedRequests(t: Thread)
    requires Quiet(t) && t.x == Disable
    ensures var u := AskY(AskX(t));
            u.q == [true] && u.r == [true] && ToX(ToY(u)) == ToY(ToX(u)) && Quiet(ToX(ToY(u))) && ToX(ToY(u)).x == Enable
  {
    ShortWords([true]);
    assert t.q + [true] == [true] && t.r + [true] == [true];
  }
}
