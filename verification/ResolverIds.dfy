/** Transaction ids: drawn in turn from 1 to 65535, so that an id clashes only after a whole round. */
module ResolverIds {
  import opened Bytes
  import opened DnsPackets
  import opened ResponseCache
  import opened Nameservers
  import opened ResolverSteps
  import opened ResolverShape
  import opened ResolverTimers
  import opened ResolverRuns
  import opened ResolverOrigins

  const IDS := 65535

  // ----- one step -----

  /** The step draws the next id. */
  predicate Draws(s: State, t: State) {
    t.lastId != s.lastId
  }

  /** A request draws an id exactly if it is neither answered from the cache nor merged with a pending query. */
  lemma StartDraws(cfg: Settings, s: State, key: Key, hasCb: bool, net: Network, now: int)
    requires 0 < s.lastId <= IDS
    ensures var (t, outcome) := Start(cfg, s, key, hasCb, net, now);
            && (Draws(s, t) <==> outcome.Started? || outcome.Failed?)
            && t.lastId == if Draws(s, t) then NextId(s.lastId) else s.lastId
  {
    var (s1, hit) := Consult(s, key, hasCb, now);
    if hit.None? {
      EnqueueDraws(cfg, s1, key, RequestOf(s, hasCb), net, now);
    }
  }

  lemma EnqueueDraws(cfg: Settings, s: State, key: Key, cb: Option<nat>, net: Network, now: int)
    ensures var (t, outcome) := Enqueue(cfg, s, key, cb, net, now);
            t.lastId == if outcome.Started? || outcome.Failed? then NextId(s.lastId) else s.lastId
  {
  }

  lemma PreparedId(cfg: Settings, s: State, key: Key, cb: Option<nat>, net: Network, now: int)
    requires Shape(s) && TimersOk(cfg, s)
    ensures var (t, n, _) := Prepare(cfg, s, key, cb, net, now);
            t.nodes[n].id == s.lastId && t.byId == s.byId
  {
    PrepareShape(cfg, s, key, cb, net, now);
  }

  lemma LaunchUses(cfg: Settings, s: State, key: Key, cb: Option<nat>, net: Network, now: int, id: nat)
    requires Shape(s) && TimersOk(cfg, s) && id in Launch(cfg, s, key, cb, net, now).0.byId && id !in s.byId
    ensures id == s.lastId
  {
    PreparedId(cfg, s, key, cb, net, now);
  }

  lemma EnqueueUses(cfg: Settings, s: State, key: Key, cb: Option<nat>, net: Network, now: int, id: nat)
    requires Shape(s) && TimersOk(cfg, s) && id in Enqueue(cfg, s, key, cb, net, now).0.byId && id !in s.byId
    ensures id == s.lastId && Enqueue(cfg, s, key, cb, net, now).0.lastId == NextId(s.lastId)
  {
    if !(key in s.byRes && s.byRes[key] < |s.nodes|) {
      LaunchUses(cfg, s, key, cb, net, now, id);
    }
  }

  lemma StartUses(cfg: Settings, s: State, key: Key, hasCb: bool, net: Network, now: int, id: nat)
    requires Shape(s) && TimersOk(cfg, s) && id in Start(cfg, s, key, hasCb, net, now).0.byId && id !in s.byId
    ensures id == s.lastId && Start(cfg, s, key, hasCb, net, now).0.lastId == NextId(s.lastId)
  {
    var (s1, hit) := Consult(s, key, hasCb, now);
    ShapeSame(s, s1);
    if hit.None? {
      EnqueueUses(cfg, s1, key, RequestOf(s, hasCb), net, now, id);
    }
  }

  lemma OtherUses(cfg: Settings, s: State, step: Step, id: nat)
    requires Enabled(cfg, s, step) && !step.DoStart?
    ensures Next(cfg, s, step).lastId == s.lastId && (id in Next(cfg, s, step).byId ==> id in s.byId)
  {
  }

  /** The next state of the sequence of ids; only a step that draws an id brings one into use, and that one. */
  predicate UsesNext(s: State, t: State, id: nat) {
    && t.lastId == (if Draws(s, t) then NextId(s.lastId) else s.lastId)
    && (id in t.byId && id !in s.byId ==> Draws(s, t) && id == s.lastId)
  }

  lemma StepUses(cfg: Settings, s: State, step: Step, id: nat)
    requires Shape(s) && TimersOk(cfg, s) && Enabled(cfg, s, step)
    ensures UsesNext(s, Next(cfg, s, step), id)
  {
    if step.DoStart? {
      StartDraws(cfg, s, step.key, step.hasCb, step.net, step.now);
      if id in Next(cfg, s, step).byId && id !in s.byId {
        StartUses(cfg, s, step.key, step.hasCb, step.net, step.now, id);
      }
    } else {
      OtherUses(cfg, s, step, id);
    }
  }

  // ----- runs -----

  lemma UsesNextAt(cfg: Settings, ns: seq<NameServer>, states: seq<State>, steps: seq<Step>, i: nat, id: nat)
    requires History(cfg, ns, states, steps) && i < |steps|
    ensures UsesNext(states[i], states[i + 1], id)
  {
    HistoryInv(cfg, ns, states, steps, i);
    assert StepAt(cfg, states, steps, i);
    StepUses(cfg, states[i], steps[i], id);
  }

  lemma IdAt(cfg: Settings, ns: seq<NameServer>, states: seq<State>, steps: seq<Step>, i: nat)
    requires History(cfg, ns, states, steps) && i <= |steps|
    ensures 0 < states[i].lastId <= IDS
  {
    HistoryInv(cfg, ns, states, steps, i);
  }

  /** How many of the steps from i up to j draw an id. */
  function Drawn(states: seq<State>, i: nat, j: nat): nat
    requires i <= j < |states|
  {
    if i == j then 0 else Drawn(states, i, j - 1) + if Draws(states[j - 1], states[j]) then 1 else 0
  }

  lemma RoundStep(id: nat, first: nat, n: nat)
    requires 0 < first <= IDS && id == 1 + (first - 1 + n) % IDS
    ensures NextId(id) == 1 + (first - 1 + (n + 1)) % IDS
  {
    var x := first - 1 + n;
    assert x == x / IDS * IDS + x % IDS;
    if x % IDS == IDS - 1 {
      assert x + 1 == (x / IDS + 1) * IDS;
    } else {
      assert (x + 1) / IDS == x / IDS;
    }
  }

  /** The ids are drawn in turn, and start over behind the last. */
  lemma {:induction false} IdsInTurn(cfg: Settings, ns: seq<NameServer>, states: seq<State>, steps: seq<Step>, i: nat, j: nat)
    requires History(cfg, ns, states, steps) && i <= j <= |steps|
    ensures states[j].lastId == 1 + (states[i].lastId - 1 + Drawn(states, i, j)) % IDS
    decreases j
  {
    IdAt(cfg, ns, states, steps, i);
    if i < j {
      IdsInTurn(cfg, ns, states, steps, i, j - 1);
      UsesNextAt(cfg, ns, states, steps, j - 1, 0);
      RoundStep(states[j - 1].lastId, states[i].lastId, Drawn(states, i, j - 1));
    }
  }

  /** Step i drew the id, and it has been in use ever since. */
  ghost predicate InUseSince(states: seq<State>, id: nat, i: nat, j: nat) {
    && i < j < |states| && Draws(states[i], states[i + 1]) && states[i].lastId == id
    && forall k :: i < k <= j ==> id in states[k].byId
  }

  lemma {:induction false} DrawOf(cfg: Settings, ns: seq<NameServer>, states: seq<State>, steps: seq<Step>, id: nat, j: nat)
    returns (i: nat)
    requires History(cfg, ns, states, steps) && j <= |steps| && id in states[j].byId
    ensures InUseSince(states, id, i, j)
  {
    UsesNextAt(cfg, ns, states, steps, j - 1, id);
    if id in states[j - 1].byId {
      i := DrawOf(cfg, ns, states, steps, id, j - 1);
    } else {
      i := j - 1;
    }
  }

  lemma WholeRounds(first: nat, n: nat)
    requires 0 < first <= IDS && first == 1 + (first - 1 + n) % IDS
    ensures n % IDS == 0
  {
    var x := first - 1 + n;
    assert n == x / IDS * IDS;
  }

  lemma {:induction false} DrawnMore(states: seq<State>, i: nat, j: nat)
    requires i < j < |states| && Draws(states[i], states[i + 1])
    ensures Drawn(states, i, j) > 0
  {
    if i < j - 1 {
      DrawnMore(states, i, j - 1);
    }
  }

  /**
   * The id about to be drawn is still in use only if its query has been pending since whole rounds of
   * 65535 ids ago. So an application that never lets a query wait through as many others can rely on
   * every new query getting an id of its own.
   */
  lemma ClashOnlyAfterRound(cfg: Settings, ns: seq<NameServer>, states: seq<State>, steps: seq<Step>, j: nat) returns (i: nat)
    requires History(cfg, ns, states, steps) && j <= |steps| && states[j].lastId in states[j].byId
    ensures InUseSince(states, states[j].lastId, i, j)
    ensures Drawn(states, i, j) >= IDS && Drawn(states, i, j) % IDS == 0
  {
    i := DrawOf(cfg, ns, states, steps, states[j].lastId, j);
    IdsInTurn(cfg, ns, states, steps, i, j);
    IdAt(cfg, ns, states, steps, i);
    WholeRounds(states[i].lastId, Drawn(states, i, j));
    DrawnMore(states, i, j);
  }
}
