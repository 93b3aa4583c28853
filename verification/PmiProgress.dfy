// When a PMI-1 barrier finishes (src/api/pmi_server.c, src/api/slurm_pmi.c).  Every step but entering takes
// work off what is left, so barriers come to rest; they rest with every rank back, or with an agent asleep
// that nothing will wake.
module PmiProgress {
  import opened PmiBarrier
  import opened PmiFanout
  import opened PmiSending
  import A = PmiAgents
  import P = PmiProtocol
  import W = PmiWire

  // ---------------------------------------------------------------------------------------------
  // The work left for the ranks and the messages.

  /** Returning is one step; each copy to be passed on is relayed, delivered, and its target returns. */
  function PhaseWork(p: W.Phase): (n: nat)
  {
    if p.Relaying? then 1 + 3 * |p.left| else 0
  }

  function MessageWork(m: Message): (n: nat)
  {
    2 + 3 * |m.forwards|
  }

  function PhasesWork(phases: seq<W.Phase>): (n: nat)
  {
    if phases == [] then 0 else PhasesWork(phases[..|phases| - 1]) + PhaseWork(phases[|phases| - 1])
  }

  function NetWork(net: seq<Message>): (n: nat)
  {
    if net == [] then 0 else NetWork(net[..|net| - 1]) + MessageWork(net[|net| - 1])
  }

  function WireWork(w: W.Wire): (n: nat)
  {
    NetWork(w.net) + PhasesWork(w.phases)
  }

  lemma {:induction false} PhasesWorkUpdate(phases: seq<W.Phase>, r: nat, p: W.Phase)
    requires r < |phases|
    ensures PhasesWork(phases[r := p]) + PhaseWork(phases[r]) == PhasesWork(phases) + PhaseWork(p)
  {
    var n := |phases| - 1;
    if r < n {
      assert phases[r := p][..n] == phases[..n][r := p];
      PhasesWorkUpdate(phases[..n], r, p);
    } else {
      assert phases[r := p][..n] == phases[..n];
    }
  }

  lemma NetWorkSnoc(net: seq<Message>, m: Message)
    ensures NetWork(net + [m]) == NetWork(net) + MessageWork(m)
  {
    assert (net + [m])[..|net|] == net;
  }

  lemma {:induction false} NetWorkRemove(net: seq<Message>, i: nat)
    requires i < |net|
    ensures NetWork(net) == NetWork(net[..i] + net[i + 1..]) + MessageWork(net[i])
  {
    var n := |net| - 1;
    if i < n {
      var rest := net[..n][..i] + net[..n][i + 1..];
      NetWorkRemove(net[..n], i);
      assert rest + [net[n]] == net[..i] + net[i + 1..];
      NetWorkSnoc(rest, net[n]);
    } else {
      assert net[..i] + net[i + 1..] == net[..n];
    }
  }

  /** Delivering, relaying and returning each take one unit of work off. */
  lemma WireStepWork(c: W.Config, w: W.Wire, e: W.Step)
    requires W.Shape(c, w) && W.Enabled(w, e) && !e.Enter?
    ensures WireWork(W.Next(c, w, e)) + 1 == WireWork(w)
  {
    var w' := W.Next(c, w, e);
    match e
    case Deliver(i) =>
      NetWorkRemove(w.net, i);
      PhasesWorkUpdate(w.phases, w.net[i].target, w'.phases[w.net[i].target]);
    case Relay(r) =>
      NetWorkSnoc(w.net, Message(w.phases[r].left[0], []));
      PhasesWorkUpdate(w.phases, r, w'.phases[r]);
    case Return(r) =>
      PhasesWorkUpdate(w.phases, r, w'.phases[r]);
  }

  // ---------------------------------------------------------------------------------------------
  // The work left for the agents.

  /** A message to be sent takes a slot, and its thread gives the slot back and wakes an agent. */
  function OriginWork(o: Origin): (n: nat)
  {
    if o.Unsent? then 3 else 0
  }

  function FromWork(from: seq<Origin>): (n: nat)
  {
    if from == [] then 0 else FromWork(from[..|from| - 1]) + OriginWork(from[|from| - 1])
  }

  function AgentWork(g: A.Agent): (n: nat)
  {
    match g.phase
    case Sending => 2
    case SlotWait => 1
    case Draining => 1
    case _ => 0
  }

  function AgentsWork(agents: seq<A.Agent>): (n: nat)
  {
    if agents == [] then 0 else AgentsWork(agents[..|agents| - 1]) + AgentWork(agents[|agents| - 1])
  }

  function Work(s: State): (n: nat)
  {
    WireWork(s.proto.wire) + FromWork(s.from) + 2 * s.pool.agentCnt + AgentsWork(s.pool.agents)
  }

  lemma FromWorkSnoc(from: seq<Origin>, o: Origin)
    ensures FromWork(from + [o]) == FromWork(from) + OriginWork(o)
  {
    assert (from + [o])[..|from|] == from;
  }

  lemma {:induction false} FromWorkRemove(from: seq<Origin>, i: nat)
    requires i < |from|
    ensures FromWork(from) == FromWork(from[..i] + from[i + 1..]) + OriginWork(from[i])
  {
    var n := |from| - 1;
    if i < n {
      var rest := from[..n][..i] + from[..n][i + 1..];
      FromWorkRemove(from[..n], i);
      assert rest + [from[n]] == from[..i] + from[i + 1..];
      FromWorkSnoc(rest, from[n]);
    } else {
      assert from[..i] + from[i + 1..] == from[..n];
    }
  }

  lemma {:induction false} FromWorkUpdate(from: seq<Origin>, i: nat, o: Origin)
    requires i < |from|
    ensures FromWork(from[i := o]) + OriginWork(from[i]) == FromWork(from) + OriginWork(o)
  {
    var n := |from| - 1;
    if i < n {
      assert from[i := o][..n] == from[..n][i := o];
      FromWorkUpdate(from[..n], i, o);
    } else {
      assert from[i := o][..n] == from[..n];
    }
  }

  lemma {:induction false} AgentsWorkUpdate(agents: seq<A.Agent>, a: nat, g: A.Agent)
    requires a < |agents|
    ensures AgentsWork(agents[a := g]) + AgentWork(agents[a]) == AgentsWork(agents) + AgentWork(g)
  {
    var n := |agents| - 1;
    if a < n {
      assert agents[a := g][..n] == agents[..n][a := g];
      AgentsWorkUpdate(agents[..n], a, g);
    } else {
      assert agents[a := g][..n] == agents[..n];
    }
  }

  /** The steps that bring barriers on: all of the agents' and of the ranks', but entering a barrier and
      waking up for no reason. */
  predicate Advances(e: Event)
  {
    match e
    case Rank(e) => e.Move? && !e.step.Enter?
    case Agent(g) => !g.SpuriousWakeup?
  }

  lemma MoveFromWork(c: Config, s: State, step: W.Step)
    requires Shape(c, s) && Enabled(s, Rank(P.Move(step))) && !step.Enter?
    ensures FromWork(FromNext(c, s, P.Move(step))) == FromWork(s.from)
  {
    if step.Deliver? {
      FromWorkRemove(s.from, step.i);
    } else if step.Relay? {
      FromWorkSnoc(s.from, Relayed);
    }
  }

  lemma RankWork(c: Config, s: State, e: P.Event)
    requires Shape(c, s) && Enabled(s, Rank(e)) && Advances(Rank(e))
    ensures Work(RankNext(c, s, e)) < Work(s)
  {
    WireStepWork(c.proto.wire, s.proto.wire, e.step);
    MoveFromWork(c, s, e.step);
  }

  /** The signal at the end of a thread makes one agent look again. */
  lemma ThreadDoneWork(p: A.Pool, a: nat, woken: seq<nat>)
    requires A.Enabled(p, A.ThreadDone(a, woken))
    ensures AgentsWork(A.Next(p, A.ThreadDone(a, woken)).agents) <= AgentsWork(p.agents) + 1
  {
    var g := p.agents[a].(running := p.agents[a].running - 1);
    AgentsWorkUpdate(p.agents, a, g);
    if woken != [] {
      var w := p.agents[a := g][woken[0]];
      AgentsWorkUpdate(p.agents[a := g], woken[0], A.Woken(w));
    }
  }

  lemma AgentStepWork(s: State, g: A.Event)
    requires Enabled(s, Agent(g)) && Advances(Agent(g))
    ensures Work(AgentNext(s, g)) < Work(s)
  {
    var p' := A.Next(s.pool, g);
    match g
    case ThreadDone(a, woken) => ThreadDoneWork(s.pool, a, woken);
    case NextMessage(a) =>
      AgentsWorkUpdate(s.pool.agents, a, p'.agents[a]);
      FromWorkUpdate(s.from, FirstUnsent(s.from, a), Sent(a));
    case LastSent(a) => AgentsWorkUpdate(s.pool.agents, a, p'.agents[a]);
    case CheckDrained(a) => AgentsWorkUpdate(s.pool.agents, a, p'.agents[a]);
  }

  /** Every step that brings barriers on leaves less work. */
  lemma StepWork(c: Config, s: State, e: Event)
    requires Shape(c, s) && Enabled(s, e) && Advances(e)
    ensures Work(Next(c, s, e)) < Work(s)
  {
    match e
    case Rank(e) => RankWork(c, s, e);
    case Agent(g) => AgentStepWork(s, g);
  }

  // ---------------------------------------------------------------------------------------------
  // Stranded: an agent sleeps with messages to send, and no thread is left whose end would wake it.

  ghost predicate Stranded(s: State)
  {
    s.pool.agentCnt == 0 && exists a :: 0 <= a < |s.pool.agents| && s.pool.agents[a].phase.SlotWait?
  }

  /** The last thread ends while an agent waits for a slot, and its signal wakes another one. */
  ghost predicate Misdirected(s: State, e: Event)
  {
    && e.Agent? && e.g.ThreadDone? && s.pool.agentCnt == 1
    && exists a :: 0 <= a < |s.pool.agents| && s.pool.agents[a].phase.SlotWait? && e.g.woken != [a]
  }

  lemma ThreadDoneStrands(s: State, a: nat, woken: seq<nat>)
    requires Enabled(s, Agent(A.ThreadDone(a, woken)))
    ensures Stranded(AgentNext(s, A.ThreadDone(a, woken))) <==> Misdirected(s, Agent(A.ThreadDone(a, woken)))
  {
    var p' := A.Next(s.pool, A.ThreadDone(a, woken));
    forall b | 0 <= b < |s.pool.agents|
      ensures p'.agents[b].phase.SlotWait? <==> s.pool.agents[b].phase.SlotWait? && woken != [b]
    {
    }
  }

  lemma AgentStrands(c: Config, s: State, g: A.Event)
    requires Inv(c, s) && c.limit > 0 && Enabled(s, Agent(g)) && !g.ThreadDone? && !Stranded(s)
    ensures !Stranded(AgentNext(s, g))
  {
    var p' := A.Next(s.pool, g);
    forall b | 0 <= b < |p'.agents| && p'.agents[b].phase.SlotWait? ensures p'.agentCnt > 0 {
      assert s.pool.agents[b].phase.SlotWait? || p'.agentCnt > 0;
    }
  }

  /** Exactly which steps strand a barrier. */
  lemma StrandsExactly(c: Config, s: State, e: Event)
    requires Inv(c, s) && c.limit > 0 && Enabled(s, e) && !Stranded(s)
    ensures Stranded(Next(c, s, e)) <==> Misdirected(s, e)
  {
    if e.Agent? {
      if e.g.ThreadDone? {
        ThreadDoneStrands(s, e.g.a, e.g.woken);
      } else {
        AgentStrands(c, s, e.g);
      }
    } else {
      var agents' := RankNext(c, s, e.e).pool.agents;
      forall b | 0 <= b < |agents'| && agents'[b].phase.SlotWait? ensures s.pool.agentCnt > 0 {
        assert s.pool.agents[b].phase.SlotWait?;
      }
    }
  }

  ghost predicate EverStranded(c: Config, es: seq<Event>)
    requires IsRun(c, es)
  {
    Stranded(After(c, es)) || (es != [] && EverStranded(c, es[..|es| - 1]))
  }

  ghost predicate EverMisdirected(c: Config, es: seq<Event>)
    requires IsRun(c, es)
  {
    es != [] && (Misdirected(After(c, es[..|es| - 1]), es[|es| - 1]) || EverMisdirected(c, es[..|es| - 1]))
  }

  lemma NotStrandedYet(c: Config, es: seq<Event>)
    requires IsRun(c, es) && !EverStranded(c, es)
    ensures !Stranded(After(c, es))
  {
  }

  /** A run strands a barrier if and only if the last thread's signal passes by the agent that waits for it. */
  lemma {:induction false} RunStrandsExactly(c: Config, es: seq<Event>)
    requires IsRun(c, es)
    ensures EverStranded(c, es) <==> EverMisdirected(c, es)
  {
    if es != [] {
      var before := es[..|es| - 1];
      RunStrandsExactly(c, before);
      if !EverStranded(c, before) {
        NotStrandedYet(c, before);
        RunInv(c, before);
        StrandsExactly(c, After(c, before), es[|es| - 1]);
      }
    }
  }

  /** In the terms of the agents alone: the signal was the last one while two of them waited. */
  lemma {:induction false} StrandedAgentsStick(c: Config, es: seq<Event>)
    requires IsRun(c, es) && EverStranded(c, es)
    ensures A.IsRun(c.limit, AgentEvents(c, es)) && A.EverStuck(c.limit, AgentEvents(c, es))
  {
    IsAgentRun(c, es);
    if Stranded(After(c, es)) {
      var p := After(c, es).pool;
      var a :| 0 <= a < |p.agents| && p.agents[a].phase.SlotWait?;
      assert A.Waits(p.agents[a]);
    } else {
      var n, gs := |es| - 1, AgentEvents(c, es);
      StrandedAgentsStick(c, es[..n]);
      if gs != AgentEvents(c, es[..n]) { assert gs[..|gs| - 1] == AgentEvents(c, es[..n]); }
    }
  }

  // ---------------------------------------------------------------------------------------------
  // Stranded barriers stay so.

  /** Rank r gets its message from an agent that has not sent it, or from a rank on such a message. */
  ghost predicate AwaitsAgent(s: State, r: nat)
    requires |s.from| == |s.proto.wire.net|
  {
    exists i :: 0 <= i < |s.from| && s.from[i].Unsent? && Reaches(s.proto.wire.net[i], r)
  }

  predicate Reaches(m: Message, r: nat)
  {
    m.target == r || r in m.forwards
  }

  lemma SomeoneAwaits(c: Config, s: State) returns (r: nat)
    requires Inv(c, s) && Stranded(s)
    ensures AwaitsAgent(s, r)
  {
    var a :| 0 <= a < |s.pool.agents| && s.pool.agents[a].phase.SlotWait?;
    assert AgentOk(s.from, s.pool.agents, a);
    var i := FirstUnsent(s.from, a);
    r := s.proto.wire.net[i].target;
    assert Reaches(s.proto.wire.net[i], r);
  }

  lemma {:induction false} CountIn(s: seq<nat>, x: nat)
    requires x in s
    ensures W.Count(s, x) > 0
  {
    var k := |s| - 1;
    assert s == s[..k] + [s[k]];
    if s[k] != x { CountIn(s[..k], x); }
  }

  lemma {:induction false} ReachedIsCounted(net: seq<Message>, i: nat, r: nat)
    requires i < |net| && Reaches(net[i], r)
    ensures W.NetCount(net, r) > 0
  {
    if i == |net| - 1 {
      if r in net[i].forwards { CountIn(net[i].forwards, r); }
    } else {
      ReachedIsCounted(net[..|net| - 1], i, r);
    }
  }

  lemma AwaitingIsOwed(c: Config, s: State, r: nat)
    requires Inv(c, s) && AwaitsAgent(s, r)
    ensures W.Owed(s.proto.wire, r)
  {
    var i :| 0 <= i < |s.from| && s.from[i].Unsent? && Reaches(s.proto.wire.net[i], r);
    ReachedIsCounted(s.proto.wire.net, i, r);
  }

  /** A fill would find the message under way. */
  lemma NoFill(c: Config, s: State, e: P.Event, r: nat)
    requires Inv(c, s) && Enabled(s, Rank(e)) && AwaitsAgent(s, r)
    ensures !Fills(c, s, e)
  {
    if Fills(c, s, e) {
      W.EnterInv(c.proto.wire, s.proto.wire, e.step.r);
      assert false;
    }
  }

  /** What the ranks do leaves the messages not sent where they are. */
  lemma StillAwaits(c: Config, s: State, e: P.Event, r: nat)
    requires Shape(c, s) && Enabled(s, Rank(e)) && AwaitsAgent(s, r) && !Fills(c, s, e)
    ensures
      var s' := RankNext(c, s, e);
      && |s'.from| == |s'.proto.wire.net| && AwaitsAgent(s', r)
      && s'.pool == s.pool && s'.proto.wire.fills == s.proto.wire.fills
  {
    var s' := RankNext(c, s, e);
    var i :| 0 <= i < |s.from| && s.from[i].Unsent? && Reaches(s.proto.wire.net[i], r);
    var j := if IsDelivery(e) && e.step.i < i then i - 1 else i;
    assert s'.from[j] == s.from[i] && s'.proto.wire.net[j] == s.proto.wire.net[i];
  }

  lemma AgentStaysStranded(c: Config, s: State, g: A.Event)
    requires Inv(c, s) && Stranded(s) && Enabled(s, Agent(g)) && !g.SpuriousWakeup?
    ensures Stranded(AgentNext(s, g)) && AgentNext(s, g).from == s.from
  {
    var a :| 0 <= a < |s.pool.agents| && s.pool.agents[a].phase.SlotWait?;
    assert AgentOk(s.from, s.pool.agents, a);
    assert AgentNext(s, g).pool.agents[a].phase.SlotWait?;
  }

  /** Stranded in barrier number `fills`, with rank r waiting for the sleeping agent. */
  ghost predicate StrandedAt(c: Config, s: State, r: nat, fills: nat)
  {
    Shape(c, s) && Stranded(s) && AwaitsAgent(s, r) && s.proto.wire.fills == fills
  }

  lemma StaysStranded(c: Config, s: State, e: Event, r: nat, fills: nat)
    requires Inv(c, s) && StrandedAt(c, s, r, fills) && Enabled(s, e) && P.Rows(c.proto, Next(c, s, e).proto)
    requires e.Agent? ==> !e.g.SpuriousWakeup?
    ensures StrandedAt(c, Next(c, s, e), r, fills)
  {
    match e
    case Rank(e) =>
      NoFill(c, s, e, r);
      StillAwaits(c, s, e, r);
    case Agent(g) => AgentStaysStranded(c, s, g);
  }

  ghost predicate NoneSpurious(es: seq<Event>, k: nat)
  {
    forall i :: k <= i < |es| && es[i].Agent? ==> !es[i].g.SpuriousWakeup?
  }

  lemma StrandedNext(c: Config, es: seq<Event>, e: Event, r: nat, fills: nat)
    requires IsRun(c, es) && StrandedAt(c, After(c, es), r, fills) && Enabled(After(c, es), e)
    requires if e.Rank? then P.Consistent(After(c, es).proto, e.e) else !e.g.SpuriousWakeup?
    ensures StrandedAt(c, Next(c, After(c, es), e), r, fills)
  {
    RunInv(c, es);
    NextInv(c, After(c, es), e);
    StaysStranded(c, After(c, es), e, r, fills);
  }

  lemma {:induction false} StrandedRun(c: Config, es: seq<Event>, k: nat, r: nat, fills: nat)
    requires IsRun(c, es) && k <= |es| && NoneSpurious(es, k)
    requires IsRun(c, es[..k]) && StrandedAt(c, After(c, es[..k]), r, fills)
    ensures StrandedAt(c, After(c, es), r, fills)
  {
    if k == |es| {
      assert es[..k] == es;
    } else {
      var n := |es| - 1;
      assert es[..n][..k] == es[..k];
      StrandedRun(c, es[..n], k, r, fills);
      StrandedNext(c, es[..n], es[n], r, fills);
    }
  }

  /** Once stranded, always stranded, whatever the ranks and the agents do, unless an agent wakes up for no
      reason: no barrier fills, and no rank the sleeping agent has to reach ever returns. */
  lemma StrandedForGood(c: Config, es: seq<Event>, k: nat, r: nat, fills: nat)
    requires IsRun(c, es) && k <= |es| && NoneSpurious(es, k)
    requires IsRun(c, es[..k]) && StrandedAt(c, After(c, es[..k]), r, fills)
    ensures StrandedAt(c, After(c, es), r, fills) && W.Owed(After(c, es).proto.wire, r)
    ensures r < |After(c, es).proto.wire.returned| && After(c, es).proto.wire.returned[r] + 1 == fills
  {
    StrandedRun(c, es, k, r, fills);
    RunInv(c, es);
    AwaitingIsOwed(c, After(c, es), r);
  }

  // ---------------------------------------------------------------------------------------------
  // Barriers that are not stranded can go on.

  /** Every rank is back from every filled barrier, and some rank is outside. */
  ghost predicate Settled(w: W.Wire)
  {
    && |w.phases| == |w.returned|
    && (forall r :: 0 <= r < |w.phases| ==> w.returned[r] == w.fills && !w.phases[r].Relaying?)
    && exists r :: 0 <= r < |w.phases| && w.phases[r].Running?
  }

  /** srun's table is never left full. */
  lemma TableNotFull(c: W.Config, w: W.Wire) returns (r: nat)
    requires W.Inv(c, w)
    ensures r < |w.phases| && !W.InTable(w, r)
  {
    if forall x :: 0 <= x < |w.phases| ==> W.InTable(w, x) {
      var m, all := W.Arrived(c, w), Tasks(|c.ports|);
      assert m.Keys == all;
      TasksCount(|c.ports|);
      assert false;
    }
    r :| 0 <= r < |w.phases| && !W.InTable(w, r);
  }

  lemma NothingUnderWay(c: W.Config, w: W.Wire)
    requires W.Inv(c, w) && w.net == [] && forall r :: 0 <= r < |w.phases| ==> !w.phases[r].Relaying?
    ensures Settled(w)
  {
    forall r | 0 <= r < |w.phases| ensures w.returned[r] == w.fills {
      W.NoneRelaying(w.phases, r);
      assert W.PhaseOk(w, r) && !W.Owed(w, r);
    }
    var x := TableNotFull(c, w);
    assert w.phases[x].Running?;
  }

  /** Some agent the signal may wake; one that waits for a slot if there is one. */
  lemma ChooseWoken(agents: seq<A.Agent>) returns (woken: seq<nat>)
    ensures A.Signals(agents, woken)
    ensures (exists a :: 0 <= a < |agents| && agents[a].phase.SlotWait?) ==>
              |woken| == 1 && woken[0] < |agents| && agents[woken[0]].phase.SlotWait?
  {
    if a: nat :| a < |agents| && agents[a].phase.SlotWait? {
      woken := [a];
      assert A.Waits(agents[a]);
    } else if a: nat :| a < |agents| && A.Waits(agents[a]) {
      woken := [a];
    } else {
      woken := [];
    }
  }

  lemma {:induction false} SomeThread(agents: seq<A.Agent>) returns (a: nat)
    requires A.Running(agents) > 0
    ensures a < |agents| && agents[a].running > 0
  {
    a := |agents| - 1;
    if agents[a].running == 0 { a := SomeThread(agents[..a]); }
  }

  /** An agent's thread ends, with the signal to the agent that waits for a slot. */
  lemma EndThread(c: Config, s: State, b: nat) returns (e: Event)
    requires Inv(c, s) && c.limit > 0 && !Stranded(s) && b < |s.pool.agents|
    requires InFlight(s.from, b) < s.pool.agents[b].running
    ensures Enabled(s, e) && Advances(e) && !Stranded(Next(c, s, e))
  {
    A.RunningUpdate(s.pool.agents, b, s.pool.agents[b]);
    var woken := ChooseWoken(s.pool.agents);
    e := Agent(A.ThreadDone(b, woken));
    StrandsExactly(c, s, e);
    forall a | 0 <= a < |s.pool.agents| && s.pool.agents[a].phase.SlotWait? ensures woken == [a] {
      OneWaitsForSlot(s.from, s.pool.agents, a, woken[0]);
    }
  }

  lemma OneWaitsForSlot(from: seq<Origin>, agents: seq<A.Agent>, a: nat, b: nat)
    requires FromOk(from, agents) && a < |agents| && b < |agents|
    requires agents[a].phase.SlotWait? && agents[b].phase.SlotWait?
    ensures a == b
  {
    assert AgentOk(from, agents, a) && AgentOk(from, agents, b);
    assert from[FirstUnsent(from, a)].a + 1 == from[FirstUnsent(from, b)].a + 1;
  }

  /** When no message is under way, the youngest agent sends one or a thread ends. */
  lemma AgentCanGoOn(c: Config, s: State) returns (e: Event)
    requires Inv(c, s) && c.limit > 0 && !Stranded(s)
    requires s.from != [] && forall i :: 0 <= i < |s.from| ==> s.from[i].Unsent?
    ensures Enabled(s, e) && Advances(e) && !Stranded(Next(c, s, e))
  {
    var a := s.from[0].a;
    assert AgentOk(s.from, s.pool.agents, a);
    if s.pool.agents[a].phase.Sending? && !A.Busy(s.pool, s.pool.agents[a]) {
      e := Agent(A.NextMessage(a));
      StrandsExactly(c, s, e);
    } else {
      var b := a;
      if s.pool.agents[a].phase.SlotWait? { b := SomeThread(s.pool.agents); }
      assert InFlight(s.from, b) == 0;
      e := EndThread(c, s, b);
    }
  }

  /** Until every rank is back, some step brings a barrier on and strands none. */
  lemma CanGoOn(c: Config, s: State) returns (e: Event)
    requires Inv(c, s) && c.limit > 0 && !Stranded(s) && !Settled(s.proto.wire)
    ensures Enabled(s, e) && Advances(e) && !Stranded(Next(c, s, e))
  {
    var w := s.proto.wire;
    if r: nat :| r < |w.phases| && w.phases[r].Relaying? {
      e := Rank(P.Move(if w.phases[r].left == [] then W.Return(r) else W.Relay(r)));
      StrandsExactly(c, s, e);
    } else if i: nat :| i < |s.from| && !s.from[i].Unsent? {
      ReachedIsCounted(w.net, i, w.net[i].target);
      assert W.Owed(w, w.net[i].target);
      e := Rank(P.Move(W.Deliver(i)));
      StrandsExactly(c, s, e);
    } else {
      if s.from == [] { NothingUnderWay(c.proto.wire, w); }
      e := AgentCanGoOn(c, s);
    }
  }

  // ---------------------------------------------------------------------------------------------
  // Whole runs.

  lemma Extend(c: Config, es: seq<Event>, e: Event) returns (es': seq<Event>)
    requires IsRun(c, es) && Enabled(After(c, es), e)
    requires e.Rank? ==> P.Consistent(After(c, es).proto, e.e)
    ensures Shape(c, After(c, es))
    ensures es' == es + [e] && IsRun(c, es') && After(c, es') == Next(c, After(c, es), e)
  {
    RunInv(c, es);
    es' := es + [e];
    assert es'[..|es'| - 1] == es;
  }

  /** es' goes on from es with steps that bring barriers on. */
  ghost predicate GoesOn(es: seq<Event>, es': seq<Event>)
  {
    es <= es' && forall i :: |es| <= i < |es'| ==> Advances(es'[i])
  }

  lemma GoesOnTwice(a: seq<Event>, b: seq<Event>, c: seq<Event>)
    requires GoesOn(a, b) && GoesOn(b, c)
    ensures GoesOn(a, c)
  {
    assert forall i :: 0 <= i < |b| ==> c[i] == b[i];
  }

  lemma FindStep(c: Config, es: seq<Event>, s: State) returns (e: Event)
    requires IsRun(c, es) && s == After(c, es) && !Stranded(s) && !Settled(s.proto.wire)
    ensures Enabled(s, e) && Advances(e) && Shape(c, s) && !Stranded(Next(c, s, e)) && Work(Next(c, s, e)) < Work(s)
  {
    RunInv(c, es);
    e := CanGoOn(c, s);
    StepWork(c, s, e);
  }

  lemma GoOn(c: Config, es: seq<Event>, s: State) returns (es': seq<Event>, s': State)
    requires IsRun(c, es) && s == After(c, es) && !Stranded(s) && !Settled(s.proto.wire)
    ensures GoesOn(es, es') && IsRun(c, es') && s' == After(c, es') && !Stranded(s') && Work(s') < Work(s)
  {
    var e := FindStep(c, es, s);
    es' := Extend(c, es, e);
    s' := Next(c, s, e);
  }

  lemma {:induction false} Finish(c: Config, es: seq<Event>, s: State) returns (es': seq<Event>, s': State)
    requires IsRun(c, es) && s == After(c, es) && !Stranded(s)
    ensures GoesOn(es, es') && IsRun(c, es') && s' == After(c, es') && Settled(s'.proto.wire)
    decreases Work(s)
  {
    if Settled(s.proto.wire) {
      es', s' := es, s;
    } else {
      var es1, s1 := GoOn(c, es, s);
      es', s' := Finish(c, es1, s1);
      GoesOnTwice(es, es1, es');
    }
  }

  /** From every state that is not stranded, with the right choices, every rank gets back. */
  lemma BarrierCanFinish(c: Config, es: seq<Event>) returns (es': seq<Event>)
    requires IsRun(c, es) && !Stranded(After(c, es))
    ensures GoesOn(es, es') && IsRun(c, es') && Settled(After(c, es').proto.wire)
  {
    var s';
    es', s' := Finish(c, es, After(c, es));
  }

  ghost predicate SettlesBy(c: Config, es: seq<Event>, es': seq<Event>)
  {
    IsRun(c, es') && es <= es' && NoneSpurious(es', |es|) && Settled(After(c, es').proto.wire)
  }

  /** Some way to go on without spurious wakeups has every rank back. */
  ghost predicate CanSettle(c: Config, es: seq<Event>)
  {
    exists es' :: SettlesBy(c, es, es')
  }

  lemma StrandsSomeone(c: Config, es: seq<Event>) returns (r: nat)
    requires IsRun(c, es) && Stranded(After(c, es))
    ensures StrandedAt(c, After(c, es), r, After(c, es).proto.wire.fills)
  {
    RunInv(c, es);
    r := SomeoneAwaits(c, After(c, es));
  }

  lemma StrandedNeverSettles(c: Config, es: seq<Event>, es': seq<Event>)
    requires IsRun(c, es) && Stranded(After(c, es)) && IsRun(c, es') && es <= es' && NoneSpurious(es', |es|)
    ensures !Settled(After(c, es').proto.wire)
  {
    var r := StrandsSomeone(c, es);
    assert es'[..|es|] == es;
    StrandedForGood(c, es', |es|, r, After(c, es).proto.wire.fills);
  }

  /** In every run: the ranks can still all get back if and only if the barrier is not stranded. */
  lemma CanSettleIff(c: Config, es: seq<Event>)
    requires IsRun(c, es)
    ensures CanSettle(c, es) <==> !Stranded(After(c, es))
  {
    if Stranded(After(c, es)) {
      forall es' | IsRun(c, es') && es <= es' && NoneSpurious(es', |es|)
        ensures !Settled(After(c, es').proto.wire)
      {
        StrandedNeverSettles(c, es, es');
      }
    } else {
      var es' := BarrierCanFinish(c, es);
      assert SettlesBy(c, es, es');
    }
  }

  ghost predicate Quiet(s: State)
  {
    forall e :: Enabled(s, e) ==> !Advances(e)
  }

  /** Barriers at rest: nothing can bring them on. */
  lemma AtRest(c: Config, s: State)
    requires Inv(c, s) && c.limit > 0 && Quiet(s)
    ensures Settled(s.proto.wire) <==> !Stranded(s)
  {
    if Stranded(s) {
      var r := SomeoneAwaits(c, s);
      AwaitingIsOwed(c, s, r);
    } else if !Settled(s.proto.wire) {
      var e := CanGoOn(c, s);
    }
  }

  /** The steps of es from position k on that bring barriers on. */
  function Advanced(es: seq<Event>, k: nat): (n: nat)
    requires k <= |es|
  {
    if k == |es| then 0 else Advanced(es[..|es| - 1], k) + if Advances(es[|es| - 1]) then 1 else 0
  }

  /** A rank enters a barrier, or an agent wakes up for no reason. */
  predicate Pushes(e: Event)
  {
    if e.Rank? then e.e.Move? && e.e.step.Enter? else e.g.SpuriousWakeup?
  }

  lemma OtherWork(c: Config, s: State, e: Event)
    requires Shape(c, s) && Enabled(s, e) && !Pushes(e)
    ensures Work(Next(c, s, e)) + (if Advances(e) then 1 else 0) <= Work(s)
  {
    if Advances(e) { StepWork(c, s, e); }
  }

  lemma {:induction false} RunWork(c: Config, es: seq<Event>, k: nat)
    requires IsRun(c, es) && k <= |es| && forall i :: k <= i < |es| ==> !Pushes(es[i])
    ensures IsRun(c, es[..k])
    ensures Advanced(es, k) + Work(After(c, es)) <= Work(After(c, es[..k]))
  {
    if k == |es| {
      assert es[..k] == es;
    } else {
      var n := |es| - 1;
      RunWork(c, es[..n], k);
      assert es[..n][..k] == es[..k];
      OtherWork(c, After(c, es[..n]), es[n]);
    }
  }

  /** In every run: once no rank enters and no agent wakes up for no reason, only so many steps are left as
      there is work, and when they are used up every rank is back from every filled barrier, or an agent is
      asleep for good. */
  lemma BarrierComesToRest(c: Config, es: seq<Event>, k: nat)
    requires IsRun(c, es) && k <= |es| && forall i :: k <= i < |es| ==> !Pushes(es[i])
    ensures IsRun(c, es[..k]) && Advanced(es, k) + Work(After(c, es)) <= Work(After(c, es[..k]))
    ensures Quiet(After(c, es)) ==> (Settled(After(c, es).proto.wire) <==> !Stranded(After(c, es)))
  {
    RunWork(c, es, k);
    RunInv(c, es);
    if Quiet(After(c, es)) { AtRest(c, After(c, es)); }
  }

  /** As long as the last thread never ends while two agents wait, no rank is stranded: while one waits or
      passes messages on, a step brings its barrier on, or it waits in the table for a rank outside. */
  lemma NoRankIsStranded(c: Config, es: seq<Event>, r: nat)
    requires IsRun(c, es) && A.IsRun(c.limit, AgentEvents(c, es)) && !A.EverLastSignal(c.limit, AgentEvents(c, es))
    requires r < |After(c, es).proto.wire.phases| && !After(c, es).proto.wire.phases[r].Running?
    ensures
      var s := After(c, es);
      || (exists e :: Enabled(s, e) && Advances(e))
      || (|s.proto.wire.phases| == |s.proto.wire.returned| && W.InTable(s.proto.wire, r)
          && exists x :: 0 <= x < |s.proto.wire.phases| && s.proto.wire.phases[x].Running?)
  {
    A.RunSticksExactly(c.limit, AgentEvents(c, es));
    if EverStranded(c, es) {
      StrandedAgentsStick(c, es);
      assert false;
    }
    NotStrandedYet(c, es);
    RunInv(c, es);
    if !Settled(After(c, es).proto.wire) {
      var e := CanGoOn(c, After(c, es));
    }
  }

  /** One rule that is enough: a barrier fills only when the agent of the one before is gone. */
  lemma SeparateAgentsStrandNoOne(c: Config, es: seq<Event>)
    requires IsRun(c, es) && A.IsRun(c.limit, AgentEvents(c, es)) && A.NeverOverlaps(c.limit, AgentEvents(c, es))
    ensures !EverStranded(c, es)
  {
    A.SeparateAgentsNeverStuck(c.limit, AgentEvents(c, es));
    if EverStranded(c, es) {
      StrandedAgentsStick(c, es);
      assert false;
    }
  }
}
