// The whole PMI-1 protocol together with the agents that send its messages (src/api/pmi_server.c): a
// filled barrier starts an agent, a message can be delivered only once its agent has had a thread slot for
// it, and a thread slot is given back only when the message has been delivered.
module PmiSending {
  import opened PmiFanout
  import A = PmiAgents
  import P = PmiProtocol
  import W = PmiWire

  /** limit is agent_max_cnt. */
  datatype Config = Config(proto: P.Config, limit: nat)

  /** Who sends a message: agent a, which has not got to it yet or has given it to a thread, or a rank. */
  datatype Origin = Unsent(a: nat) | Sent(a: nat) | Relayed

  /** from[i] says who sends message i of the wire. */
  datatype State = State(proto: P.State, pool: A.Pool, from: seq<Origin>)

  datatype Event = Rank(e: P.Event) | Agent(g: A.Event)

  predicate HasUnsent(from: seq<Origin>, a: nat)
  {
    Unsent(a) in from
  }

  /** The message the agent comes to next: it sends its plan in order. */
  function FirstUnsent(from: seq<Origin>, a: nat): (i: nat)
    requires HasUnsent(from, a)
    ensures i < |from| && from[i] == Unsent(a)
    ensures forall j :: 0 <= j < i ==> from[j] != Unsent(a)
  {
    if from[0] == Unsent(a) then 0 else 1 + FirstUnsent(from[1..], a)
  }

  /** The threads of agent a whose message has not been delivered. */
  function InFlight(from: seq<Origin>, a: nat): (n: nat)
  {
    multiset(from)[Sent(a)]
  }

  ghost predicate Shape(c: Config, s: State)
  {
    P.Rows(c.proto, s.proto) && |s.from| == |s.proto.wire.net|
  }

  predicate IsDelivery(e: P.Event)
  {
    e.Move? && e.step.Deliver?
  }

  ghost predicate Enabled(s: State, e: Event)
  {
    match e
    case Rank(e) => P.Enabled(s.proto, e) && (IsDelivery(e) ==> e.step.i < |s.from| && !s.from[e.step.i].Unsent?)
    case Agent(g) => A.Enabled(s.pool, g) && AgentMay(s, g)
  }

  /** What an agent's step asks of the messages. */
  ghost predicate AgentMay(s: State, g: A.Event)
    requires A.Enabled(s.pool, g)
  {
    match g
    case Spawn => false
    case NextMessage(a) => HasUnsent(s.from, a)
    case LastSent(a) => !HasUnsent(s.from, a)
    case CheckDrained(a) => true
    case ThreadDone(a, woken) => InFlight(s.from, a) < s.pool.agents[a].running
    case SpuriousWakeup(a) => true
  }

  ghost predicate Fills(c: Config, s: State, e: P.Event)
    requires Shape(c, s) && P.Enabled(s.proto, e)
  {
    e.Move? && e.step.Enter? && W.Fires(c.proto.wire, s.proto.wire, e.step.r)
  }

  function Copies(x: Origin, n: int): (s: seq<Origin>)
    ensures |s| == (if n > 0 then n else 0) && forall i :: 0 <= i < |s| ==> s[i] == x
  {
    if n <= 0 then [] else Copies(x, n - 1) + [x]
  }

  /** The origins behind a step of the ranks: a fill brings the plan of a new agent. */
  ghost function FromNext(c: Config, s: State, e: P.Event): (from: seq<Origin>)
    requires Shape(c, s) && P.Enabled(s.proto, e) && (IsDelivery(e) ==> e.step.i < |s.from|)
  {
    if Fills(c, s, e) then
      s.from + Copies(Unsent(|s.pool.agents|), |P.Next(c.proto, s.proto, e).wire.net| - |s.from|)
    else if IsDelivery(e) then s.from[..e.step.i] + s.from[e.step.i + 1..]
    else if e.Move? && e.step.Relay? then s.from + [Relayed]
    else s.from
  }

  ghost function RankNext(c: Config, s: State, e: P.Event): (s': State)
    requires Shape(c, s) && Enabled(s, Rank(e))
  {
    State(P.Next(c.proto, s.proto, e), if Fills(c, s, e) then A.Next(s.pool, A.Spawn) else s.pool, FromNext(c, s, e))
  }

  /** NextMessage gives the message to a thread if there is a slot. */
  ghost predicate Sends(s: State, g: A.Event)
  {
    g.NextMessage? && s.pool.agentCnt < s.pool.limit
  }

  ghost function AgentNext(s: State, g: A.Event): (s': State)
    requires A.Enabled(s.pool, g) && AgentMay(s, g)
  {
    s.(pool := A.Next(s.pool, g),
       from := if Sends(s, g) then s.from[FirstUnsent(s.from, g.a) := Sent(g.a)] else s.from)
  }

  ghost function Next(c: Config, s: State, e: Event): (s': State)
    requires Shape(c, s) && Enabled(s, e)
  {
    match e
    case Rank(e) => RankNext(c, s, e)
    case Agent(g) => AgentNext(s, g)
  }

  function Init(c: Config): (s: State)
  {
    State(P.Init(c.proto), A.Pool(0, c.limit, []), [])
  }

  /** pmi_server_max_threads refuses a limit of zero. */
  ghost predicate IsRun(c: Config, es: seq<Event>)
    decreases |es|, 0
  {
    && W.ConfigOk(c.proto.wire) && c.limit > 0
    && (es != [] ==>
          && IsRun(c, es[..|es| - 1])
          && Shape(c, After(c, es[..|es| - 1]))
          && Enabled(After(c, es[..|es| - 1]), es[|es| - 1])
          && (es[|es| - 1].Rank? ==> P.Consistent(After(c, es[..|es| - 1]).proto, es[|es| - 1].e)))
  }

  ghost function After(c: Config, es: seq<Event>): (s: State)
    requires IsRun(c, es)
    decreases |es|, 1
  {
    if es == [] then Init(c) else Next(c, After(c, es[..|es| - 1]), es[|es| - 1])
  }

  // ---------------------------------------------------------------------------------------------
  // The invariant.

  ghost predicate AgentOk(from: seq<Origin>, agents: seq<A.Agent>, a: nat)
    requires a < |agents|
  {
    && InFlight(from, a) <= agents[a].running
    && (agents[a].phase.SlotWait? ==> HasUnsent(from, a))
    && (HasUnsent(from, a) ==> agents[a].phase.Sending? || agents[a].phase.SlotWait?)
  }

  /** Only the youngest agent has messages left to send. */
  ghost predicate FromOk(from: seq<Origin>, agents: seq<A.Agent>)
  {
    && (forall i :: 0 <= i < |from| && from[i].Unsent? ==> from[i].a + 1 == |agents|)
    && (forall i :: 0 <= i < |from| && from[i].Sent? ==> from[i].a < |agents|)
    && (forall a :: 0 <= a < |agents| ==> AgentOk(from, agents, a))
  }

  ghost predicate SendersOk(c: Config, s: State)
  {
    && |s.from| == |s.proto.wire.net|
    && A.Safe(s.pool)
    && s.pool.limit == c.limit
    && FromOk(s.from, s.pool.agents)
  }

  ghost predicate Inv(c: Config, s: State)
  {
    P.Inv(c.proto, s.proto) && SendersOk(c, s)
  }

  lemma InitInv(c: Config)
    requires W.ConfigOk(c.proto.wire)
    ensures Inv(c, Init(c))
  {
    W.InitInv(c.proto.wire);
    P.InitData(c.proto);
  }

  lemma Removed(from: seq<Origin>, i: nat)
    requires i < |from|
    ensures multiset(from) == multiset(from[..i] + from[i + 1..]) + multiset{from[i]}
  {
    assert from == from[..i] + ([from[i]] + from[i + 1..]);
  }

  lemma DeliverFrom(from: seq<Origin>, agents: seq<A.Agent>, i: nat)
    requires FromOk(from, agents) && i < |from| && !from[i].Unsent?
    ensures FromOk(from[..i] + from[i + 1..], agents)
  {
    var from' := from[..i] + from[i + 1..];
    Removed(from, i);
    forall a | 0 <= a < |agents| ensures AgentOk(from', agents, a) {
      assert AgentOk(from, agents, a);
      assert HasUnsent(from', a) <==> multiset(from')[Unsent(a)] > 0;
      assert HasUnsent(from, a) <==> multiset(from)[Unsent(a)] > 0;
    }
  }

  lemma RelayFrom(from: seq<Origin>, agents: seq<A.Agent>)
    requires FromOk(from, agents)
    ensures FromOk(from + [Relayed], agents)
  {
    forall a | 0 <= a < |agents| ensures AgentOk(from + [Relayed], agents, a) {
      assert AgentOk(from, agents, a);
    }
  }

  lemma FillFrom(agents: seq<A.Agent>, n: int)
    requires FromOk([], agents)
    ensures FromOk(Copies(Unsent(|agents|), n), agents + [A.Agent(A.Sending, 0)])
  {
    var from, agents' := Copies(Unsent(|agents|), n), agents + [A.Agent(A.Sending, 0)];
    forall a | 0 <= a < |agents'| ensures AgentOk(from, agents', a) {
      assert Sent(a) !in from;
      if a < |agents| { assert AgentOk([], agents, a); }
    }
  }

  /** A fill finds nothing under way. */
  lemma FillSenders(c: Config, s: State, r: nat)
    requires Shape(c, s) && W.Inv(c.proto.wire, s.proto.wire) && SendersOk(c, s)
    requires Enabled(s, Rank(P.Move(W.Enter(r)))) && Fills(c, s, P.Move(W.Enter(r)))
    ensures SendersOk(c, RankNext(c, s, P.Move(W.Enter(r))))
  {
    W.EnterInv(c.proto.wire, s.proto.wire, r);
    assert s.from == [];
    A.NextSafe(s.pool, A.Spawn);
    var n := |P.Next(c.proto, s.proto, P.Move(W.Enter(r))).wire.net| - |s.from|;
    FillFrom(s.pool.agents, n);
    assert s.from + Copies(Unsent(|s.pool.agents|), n) == Copies(Unsent(|s.pool.agents|), n);
  }

  lemma MoveSenders(c: Config, s: State, step: W.Step)
    requires Shape(c, s) && SendersOk(c, s)
    requires Enabled(s, Rank(P.Move(step))) && !Fills(c, s, P.Move(step))
    ensures SendersOk(c, RankNext(c, s, P.Move(step)))
  {
    if step.Deliver? {
      DeliverFrom(s.from, s.pool.agents, step.i);
    } else if step.Relay? {
      RelayFrom(s.from, s.pool.agents);
    }
  }

  lemma RankSenders(c: Config, s: State, e: P.Event)
    requires Shape(c, s) && W.Inv(c.proto.wire, s.proto.wire) && SendersOk(c, s) && Enabled(s, Rank(e))
    ensures SendersOk(c, RankNext(c, s, e))
  {
    if Fills(c, s, e) {
      FillSenders(c, s, e.step.r);
    } else if e.Move? {
      MoveSenders(c, s, e.step);
    }
  }

  lemma SendFrom(from: seq<Origin>, agents: seq<A.Agent>, a: nat)
    requires FromOk(from, agents) && a < |agents| && HasUnsent(from, a) && agents[a].phase.Sending?
    ensures FromOk(from[FirstUnsent(from, a) := Sent(a)], agents[a := agents[a].(running := agents[a].running + 1)])
  {
    var i := FirstUnsent(from, a);
    var from', agents' := from[i := Sent(a)], agents[a := agents[a].(running := agents[a].running + 1)];
    forall b | 0 <= b < |agents| ensures AgentOk(from', agents', b) {
      assert AgentOk(from, agents, b);
      if HasUnsent(from', b) {
        var j :| 0 <= j < |from'| && from'[j] == Unsent(b);
        assert from[j] == Unsent(b);
      }
    }
  }

  lemma ThreadDoneFrom(s: State, a: nat, woken: seq<nat>)
    requires FromOk(s.from, s.pool.agents) && Enabled(s, Agent(A.ThreadDone(a, woken)))
    ensures FromOk(s.from, A.Next(s.pool, A.ThreadDone(a, woken)).agents)
  {
    var agents' := A.Next(s.pool, A.ThreadDone(a, woken)).agents;
    forall b | 0 <= b < |agents'| ensures AgentOk(s.from, agents', b) {
      assert AgentOk(s.from, s.pool.agents, b);
    }
  }

  /** One agent's phase. */
  lemma PhaseFrom(from: seq<Origin>, agents: seq<A.Agent>, a: nat, p: A.Phase)
    requires FromOk(from, agents) && a < |agents|
    requires (p.SlotWait? ==> HasUnsent(from, a)) && (HasUnsent(from, a) ==> p.Sending? || p.SlotWait?)
    ensures FromOk(from, agents[a := agents[a].(phase := p)])
  {
    var agents' := agents[a := agents[a].(phase := p)];
    forall b | 0 <= b < |agents'| ensures AgentOk(from, agents', b) {
      assert AgentOk(from, agents, b);
    }
  }

  lemma AgentFrom(s: State, g: A.Event)
    requires FromOk(s.from, s.pool.agents) && Enabled(s, Agent(g))
    ensures FromOk(AgentNext(s, g).from, AgentNext(s, g).pool.agents)
  {
    var agents' := AgentNext(s, g).pool.agents;
    match g
    case ThreadDone(a, woken) => ThreadDoneFrom(s, a, woken);
    case NextMessage(a) =>
      if Sends(s, g) {
        SendFrom(s.from, s.pool.agents, a);
      } else {
        PhaseFrom(s.from, s.pool.agents, a, agents'[a].phase);
      }
    case LastSent(a) => PhaseFrom(s.from, s.pool.agents, a, agents'[a].phase);
    case CheckDrained(a) =>
      assert AgentOk(s.from, s.pool.agents, a);
      PhaseFrom(s.from, s.pool.agents, a, agents'[a].phase);
    case SpuriousWakeup(a) =>
      assert AgentOk(s.from, s.pool.agents, a);
      PhaseFrom(s.from, s.pool.agents, a, agents'[a].phase);
  }

  lemma AgentSenders(c: Config, s: State, g: A.Event)
    requires SendersOk(c, s) && Enabled(s, Agent(g))
    ensures SendersOk(c, AgentNext(s, g))
  {
    A.NextSafe(s.pool, g);
    AgentFrom(s, g);
  }

  lemma NextInv(c: Config, s: State, e: Event)
    requires Inv(c, s) && Enabled(s, e) && (e.Rank? ==> P.Consistent(s.proto, e.e))
    ensures Inv(c, Next(c, s, e))
  {
    match e
    case Rank(e) =>
      P.NextInv(c.proto, s.proto, e);
      RankSenders(c, s, e);
    case Agent(g) => AgentSenders(c, s, g);
  }

  lemma {:induction false} RunInv(c: Config, es: seq<Event>)
    requires IsRun(c, es)
    ensures Inv(c, After(c, es))
  {
    if es == [] {
      InitInv(c);
    } else {
      RunInv(c, es[..|es| - 1]);
      NextInv(c, After(c, es[..|es| - 1]), es[|es| - 1]);
    }
  }

  // ---------------------------------------------------------------------------------------------
  // What each run is to the ranks and to the agents.

  function RankEvents(es: seq<Event>): (ps: seq<P.Event>)
  {
    if es == [] then []
    else RankEvents(es[..|es| - 1]) + if es[|es| - 1].Rank? then [es[|es| - 1].e] else []
  }

  lemma ExtendProtocol(c: P.Config, ps: seq<P.Event>, e: P.Event)
    requires P.IsRun(c, ps) && P.Rows(c, P.After(c, ps)) && P.Enabled(P.After(c, ps), e)
    requires P.Consistent(P.After(c, ps), e)
    ensures P.IsRun(c, ps + [e]) && P.After(c, ps + [e]) == P.Next(c, P.After(c, ps), e)
  {
    assert (ps + [e])[..|ps + [e]| - 1] == ps;
  }

  /** The agents only restrict the order of the protocol's events: what holds of its runs holds here. */
  lemma {:induction false} IsProtocolRun(c: Config, es: seq<Event>)
    requires IsRun(c, es)
    ensures P.IsRun(c.proto, RankEvents(es)) && P.After(c.proto, RankEvents(es)) == After(c, es).proto
  {
    if es != [] {
      var n := |es| - 1;
      IsProtocolRun(c, es[..n]);
      if es[n].Rank? {
        ExtendProtocol(c.proto, RankEvents(es[..n]), es[n].e);
      } else {
        assert RankEvents(es) == RankEvents(es[..n]);
      }
    }
  }

  ghost function AgentEvents(c: Config, es: seq<Event>): (gs: seq<A.Event>)
    requires IsRun(c, es)
  {
    if es == [] then []
    else
      var s, e := After(c, es[..|es| - 1]), es[|es| - 1];
      AgentEvents(c, es[..|es| - 1])
        + if e.Agent? then [e.g] else if Fills(c, s, e.e) then [A.Spawn] else []
  }

  lemma {:induction false} IsAgentRun(c: Config, es: seq<Event>)
    requires IsRun(c, es)
    ensures A.IsRun(c.limit, AgentEvents(c, es)) && A.After(c.limit, AgentEvents(c, es)) == After(c, es).pool
  {
    if es != [] {
      var n, gs := |es| - 1, AgentEvents(c, es);
      IsAgentRun(c, es[..n]);
      if gs != AgentEvents(c, es[..n]) { assert gs[..|gs| - 1] == AgentEvents(c, es[..n]); }
    }
  }

  // ---------------------------------------------------------------------------------------------
  // Where the message owed to a rank is.

  /** How often x is in the messages an agent has still to send, or in the others. */
  function CountOf(net: seq<Message>, from: seq<Origin>, unsent: bool, x: nat): (n: nat)
    requires |from| == |net|
  {
    if net == [] then 0
    else
      var k := |net| - 1;
      CountOf(net[..k], from[..k], unsent, x) + if from[k].Unsent? == unsent then W.MessageCount(net[k], x) else 0
  }

  lemma {:induction false} CountBoth(net: seq<Message>, from: seq<Origin>, x: nat)
    requires |from| == |net|
    ensures CountOf(net, from, true, x) + CountOf(net, from, false, x) == W.NetCount(net, x)
  {
    if net != [] { CountBoth(net[..|net| - 1], from[..|net| - 1], x); }
  }

  /** In every run a rank that is owed the message of a filled barrier is in exactly one place: in the queue
      of an agent, in a message under way, or on the list of a rank that passes messages on. */
  lemma OwedInOnePlace(c: Config, es: seq<Event>, x: nat)
    requires IsRun(c, es)
    ensures
      var s := After(c, es);
      && |s.from| == |s.proto.wire.net| && |s.proto.wire.phases| == |s.proto.wire.returned|
      && CountOf(s.proto.wire.net, s.from, true, x) + CountOf(s.proto.wire.net, s.from, false, x)
         + W.PhaseCount(s.proto.wire.phases, x) == if W.Owed(s.proto.wire, x) then 1 else 0
  {
    RunInv(c, es);
    var s := After(c, es);
    CountBoth(s.proto.wire.net, s.from, x);
  }
}
