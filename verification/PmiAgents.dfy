// The message agents of srun and their threads (src/api/pmi_server.c): every interleaving of
// overlapping agents, their message threads, agent_mutex and agent_cond.
module PmiAgents {

  /** Where an agent is: between messages, in cond_wait for a thread slot, past its last message, in
      cond_wait for all threads to finish, or after releasing its data. */
  datatype Phase = Sending | SlotWait | Draining | DrainWait | Released

  /** running: the message threads of this agent that have not decremented agent_cnt yet. */
  datatype Agent = Agent(phase: Phase, running: nat)

  datatype Pool = Pool(agentCnt: nat, limit: nat, agents: seq<Agent>)

  /** The steps taken while holding agent_mutex, and the start of an agent. */
  datatype Event =
    | Spawn                              // _kvs_xmit_tasks creates an agent
    | NextMessage(a: nat)                // the agent asks for a slot and starts a thread, or waits
    | LastSent(a: nat)                   // the agent leaves its loop over the tasks
    | CheckDrained(a: nat)               // the agent waits for the threads, or releases its data
    | ThreadDone(a: nat, woken: seq<nat>) // a message of a is done; the signal wakes the agent in woken, if any waits
    | SpuriousWakeup(a: nat)

  predicate Waits(g: Agent)
  {
    g.phase.SlotWait? || g.phase.DrainWait?
  }

  function Woken(g: Agent): (g': Agent)
  {
    g.(phase := if g.phase.SlotWait? then Sending else if g.phase.DrainWait? then Draining else g.phase)
  }

  /** pthread_cond_signal wakes one waiting agent when there is one. */
  ghost predicate Signals(agents: seq<Agent>, woken: seq<nat>)
  {
    if exists i :: 0 <= i < |agents| && Waits(agents[i]) then
      |woken| == 1 && woken[0] < |agents| && Waits(agents[woken[0]])
    else woken == []
  }

  /** With a limit of one the agent sends each message itself, and goes on when it is done. */
  predicate Busy(p: Pool, g: Agent)
  {
    p.limit == 1 && g.running > 0
  }

  ghost predicate Enabled(p: Pool, e: Event)
  {
    match e
    case Spawn => true
    case NextMessage(a) => a < |p.agents| && p.agents[a].phase.Sending? && !Busy(p, p.agents[a])
    case LastSent(a) => a < |p.agents| && p.agents[a].phase.Sending? && !Busy(p, p.agents[a])
    case CheckDrained(a) => a < |p.agents| && p.agents[a].phase.Draining?
    case ThreadDone(a, woken) => a < |p.agents| && p.agents[a].running > 0 && p.agentCnt > 0 && Signals(p.agents, woken)
    case SpuriousWakeup(a) => a < |p.agents| && Waits(p.agents[a])
  }

  function Wake(agents: seq<Agent>, woken: seq<nat>): (r: seq<Agent>)
    requires |woken| <= 1 && forall k :: 0 <= k < |woken| ==> woken[k] < |agents|
    ensures |r| == |agents|
  {
    if woken == [] then agents else agents[woken[0] := Woken(agents[woken[0]])]
  }

  ghost function Next(p: Pool, e: Event): (p': Pool)
    requires Enabled(p, e)
  {
    match e
    case Spawn => p.(agents := p.agents + [Agent(Sending, 0)])
    case NextMessage(a) =>
      if p.agentCnt >= p.limit then p.(agents := p.agents[a := p.agents[a].(phase := SlotWait)])
      else p.(agentCnt := p.agentCnt + 1, agents := p.agents[a := p.agents[a].(running := p.agents[a].running + 1)])
    case LastSent(a) => p.(agents := p.agents[a := p.agents[a].(phase := Draining)])
    case CheckDrained(a) =>
      p.(agents := p.agents[a := p.agents[a].(phase := if p.agentCnt > 0 then DrainWait else Released)])
    case ThreadDone(a, woken) =>
      p.(agentCnt := p.agentCnt - 1,
         agents := Wake(p.agents[a := p.agents[a].(running := p.agents[a].running - 1)], woken))
    case SpuriousWakeup(a) => p.(agents := p.agents[a := Woken(p.agents[a])])
  }

  /** Every prefix of events is enabled, from no agents at all. */
  ghost predicate IsRun(limit: nat, es: seq<Event>)
    decreases |es|, 0
  {
    es != [] ==> IsRun(limit, es[..|es| - 1]) && Enabled(After(limit, es[..|es| - 1]), es[|es| - 1])
  }

  ghost function After(limit: nat, es: seq<Event>): (p: Pool)
    requires IsRun(limit, es)
    decreases |es|, 1
  {
    if es == [] then Pool(0, limit, [])
    else Next(After(limit, es[..|es| - 1]), es[|es| - 1])
  }

  // ---------------------------------------------------------------------------------------------
  // Safety.

  function Running(agents: seq<Agent>): (n: nat)
  {
    if agents == [] then 0 else Running(agents[..|agents| - 1]) + agents[|agents| - 1].running
  }

  lemma {:induction false} RunningUpdate(agents: seq<Agent>, a: nat, g: Agent)
    requires a < |agents|
    ensures Running(agents[a := g]) == Running(agents) - agents[a].running + g.running
    ensures Running(agents) >= agents[a].running
  {
    var n := |agents| - 1;
    if a < n {
      assert agents[a := g][..n] == agents[..n][a := g];
      RunningUpdate(agents[..n], a, g);
    } else {
      assert agents[a := g][..n] == agents[..n];
    }
  }

  /** The count is the number of threads in flight, within the limit, and released data is unused. */
  ghost predicate Safe(p: Pool)
  {
    && p.agentCnt == Running(p.agents)
    && p.agentCnt <= p.limit
    && forall a :: 0 <= a < |p.agents| && p.agents[a].phase.Released? ==> p.agents[a].running == 0
  }

  lemma WakeRunning(agents: seq<Agent>, woken: seq<nat>)
    requires |woken| <= 1 && forall k :: 0 <= k < |woken| ==> woken[k] < |agents|
    ensures Running(Wake(agents, woken)) == Running(agents)
  {
    if woken != [] { RunningUpdate(agents, woken[0], Woken(agents[woken[0]])); }
  }

  lemma ThreadDoneSafe(p: Pool, a: nat, woken: seq<nat>)
    requires Safe(p) && Enabled(p, ThreadDone(a, woken))
    ensures Safe(Next(p, ThreadDone(a, woken)))
  {
    var g := p.agents[a].(running := p.agents[a].running - 1);
    RunningUpdate(p.agents, a, g);
    WakeRunning(p.agents[a := g], woken);
  }

  lemma NextSafe(p: Pool, e: Event)
    requires Safe(p) && Enabled(p, e)
    ensures Safe(Next(p, e))
  {
    match e
    case Spawn => assert (p.agents + [Agent(Sending, 0)])[..|p.agents|] == p.agents;
    case ThreadDone(a, woken) => ThreadDoneSafe(p, a, woken);
    case NextMessage(a) => RunningUpdate(p.agents, a, Next(p, e).agents[a]);
    case LastSent(a) => RunningUpdate(p.agents, a, Next(p, e).agents[a]);
    case CheckDrained(a) => RunningUpdate(p.agents, a, Next(p, e).agents[a]);
    case SpuriousWakeup(a) => RunningUpdate(p.agents, a, Next(p, e).agents[a]);
  }

  /** In every run of overlapping agents with a fixed limit. */
  lemma {:induction false} AgentSafety(limit: nat, es: seq<Event>)
    requires IsRun(limit, es)
    ensures Safe(After(limit, es))
  {
    if es != [] {
      AgentSafety(limit, es[..|es| - 1]);
      NextSafe(After(limit, es[..|es| - 1]), es[|es| - 1]);
    }
  }

  // ---------------------------------------------------------------------------------------------
  // Progress: when an agent waits although no message is under way that would end in a signal.

  ghost predicate Stuck(p: Pool)
  {
    p.agentCnt == 0 && exists a :: 0 <= a < |p.agents| && Waits(p.agents[a])
  }

  ghost predicate TwoWait(agents: seq<Agent>)
  {
    exists i, j :: 0 <= i < j < |agents| && Waits(agents[i]) && Waits(agents[j])
  }

  /** The last message under way ends while two agents wait: its one signal is not enough. */
  ghost predicate LastSignal(p: Pool, e: Event)
  {
    e.ThreadDone? && p.agentCnt == 1 && TwoWait(p.agents)
  }

  /** The end of a message leaves an agent waiting exactly if two were. */
  lemma OneIsWoken(p: Pool, a: nat, woken: seq<nat>)
    requires Enabled(p, ThreadDone(a, woken))
    ensures
      var agents := Next(p, ThreadDone(a, woken)).agents;
      TwoWait(p.agents) <==> exists k :: 0 <= k < |agents| && Waits(agents[k])
  {
    var agents := Next(p, ThreadDone(a, woken)).agents;
    if TwoWait(p.agents) {
      var i, j :| 0 <= i < j < |p.agents| && Waits(p.agents[i]) && Waits(p.agents[j]);
      assert Waits(agents[if woken[0] == i then j else i]);
    }
    if k :| 0 <= k < |agents| && Waits(agents[k]) {
      assert Waits(p.agents[k]) && woken[0] != k && Waits(p.agents[woken[0]]);
      if k < woken[0] {
        assert 0 <= k < woken[0] < |p.agents|;
      } else {
        assert 0 <= woken[0] < k < |p.agents|;
      }
    }
  }

  /** Exactly which steps make the agents stick, whichever agent the signal wakes. */
  lemma SticksExactly(p: Pool, e: Event)
    requires Safe(p) && p.limit > 0 && Enabled(p, e) && !Stuck(p)
    ensures Stuck(Next(p, e)) <==> LastSignal(p, e)
  {
    if e.ThreadDone? {
      OneIsWoken(p, e.a, e.woken);
    } else {
      NoNewWaiter(p, e);
    }
  }

  /** Agents start to wait only while messages are under way. */
  lemma NoNewWaiter(p: Pool, e: Event)
    requires p.limit > 0 && Enabled(p, e) && !Stuck(p) && !e.ThreadDone?
    ensures !Stuck(Next(p, e))
  {
    var q := Next(p, e);
    forall k | 0 <= k < |q.agents| && Waits(q.agents[k]) ensures q.agentCnt > 0 {
      assert (k < |p.agents| && Waits(p.agents[k])) || q.agentCnt > 0;
    }
  }

  /** The run was stuck at some point. */
  ghost predicate EverStuck(limit: nat, es: seq<Event>)
    requires IsRun(limit, es)
  {
    Stuck(After(limit, es)) || (es != [] && EverStuck(limit, es[..|es| - 1]))
  }

  /** Some message of the run was the last under way while two agents waited. */
  ghost predicate EverLastSignal(limit: nat, es: seq<Event>)
    requires IsRun(limit, es)
  {
    es != [] && (LastSignal(After(limit, es[..|es| - 1]), es[|es| - 1]) || EverLastSignal(limit, es[..|es| - 1]))
  }

  lemma {:induction false} LimitKept(limit: nat, es: seq<Event>)
    requires IsRun(limit, es)
    ensures After(limit, es).limit == limit
  {
    if es != [] { LimitKept(limit, es[..|es| - 1]); }
  }

  /** A run sticks if and only if the last message under way ends while two agents wait. */
  lemma {:induction false} RunSticksExactly(limit: nat, es: seq<Event>)
    requires IsRun(limit, es) && limit > 0
    ensures EverStuck(limit, es) <==> EverLastSignal(limit, es)
  {
    if es != [] {
      var before := es[..|es| - 1];
      RunSticksExactly(limit, before);
      if !EverStuck(limit, before) {
        AgentSafety(limit, before);
        LimitKept(limit, before);
        NotStuckYet(limit, before);
        SticksExactly(After(limit, before), es[|es| - 1]);
      }
    }
  }

  lemma NotStuckYet(limit: nat, es: seq<Event>)
    requires IsRun(limit, es) && !EverStuck(limit, es)
    ensures !Stuck(After(limit, es))
  {
  }

  /** All agents but the last have released their data. */
  ghost predicate OneActive(p: Pool)
  {
    forall a :: 0 <= a < |p.agents| - 1 ==> p.agents[a].phase.Released?
  }

  ghost predicate NeverOverlaps(limit: nat, es: seq<Event>)
    requires IsRun(limit, es)
  {
    && OneActive(After(limit, es))
    && (es != [] ==> NeverOverlaps(limit, es[..|es| - 1]))
  }

  lemma {:induction false} NeverLastSignal(limit: nat, es: seq<Event>)
    requires IsRun(limit, es) && NeverOverlaps(limit, es)
    ensures !EverLastSignal(limit, es)
  {
    if es != [] {
      NeverLastSignal(limit, es[..|es| - 1]);
      assert OneActive(After(limit, es[..|es| - 1]));
    }
  }

  /** Agents that do not overlap never stick. */
  lemma SeparateAgentsNeverStuck(limit: nat, es: seq<Event>)
    requires IsRun(limit, es) && limit > 0 && NeverOverlaps(limit, es)
    ensures !EverStuck(limit, es)
  {
    NeverLastSignal(limit, es);
    RunSticksExactly(limit, es);
  }

  // ---------------------------------------------------------------------------------------------
  // Agents that overlap can stick, for every limit.

  /** Stuck, and every other agent is gone. */
  ghost predicate Dead(p: Pool)
  {
    && Stuck(p)
    && forall a :: 0 <= a < |p.agents| ==>
         Waits(p.agents[a]) || (p.agents[a].phase.Released? && p.agents[a].running == 0)
  }

  /** Then only a further agent or a spurious wakeup changes anything. */
  lemma DeadStays(p: Pool, e: Event)
    requires Dead(p) && Enabled(p, e)
    ensures e.Spawn? || e.SpuriousWakeup?
  {
  }

  lemma Extend(limit: nat, es: seq<Event>, e: Event, p: Pool) returns (es': seq<Event>)
    requires IsRun(limit, es) && Enabled(After(limit, es), e) && Next(After(limit, es), e) == p
    ensures IsRun(limit, es') && After(limit, es') == p
  {
    es' := es + [e];
    assert es'[..|es|] == es;
  }

  /** Each of two agents has sent a message and waits for the count to reach zero; both signals go to the first. */
  lemma TwoAgentsStick(limit: nat) returns (es: seq<Event>)
    requires limit >= 2
    ensures IsRun(limit, es) && Dead(After(limit, es))
  {
    es := [];
    es := Extend(limit, es, Spawn, Pool(0, limit, [Agent(Sending, 0)]));
    es := Extend(limit, es, NextMessage(0), Pool(1, limit, [Agent(Sending, 1)]));
    es := Extend(limit, es, LastSent(0), Pool(1, limit, [Agent(Draining, 1)]));
    es := Extend(limit, es, CheckDrained(0), Pool(1, limit, [Agent(DrainWait, 1)]));
    es := Extend(limit, es, Spawn, Pool(1, limit, [Agent(DrainWait, 1), Agent(Sending, 0)]));
    es := Extend(limit, es, NextMessage(1), Pool(2, limit, [Agent(DrainWait, 1), Agent(Sending, 1)]));
    es := Extend(limit, es, LastSent(1), Pool(2, limit, [Agent(DrainWait, 1), Agent(Draining, 1)]));
    es := Extend(limit, es, CheckDrained(1), Pool(2, limit, [Agent(DrainWait, 1), Agent(DrainWait, 1)]));
    es := BothSignalsToFirst(limit, es);
  }

  lemma BothSignalsToFirst(limit: nat, es: seq<Event>) returns (es': seq<Event>)
    requires IsRun(limit, es) && After(limit, es) == Pool(2, limit, [Agent(DrainWait, 1), Agent(DrainWait, 1)])
    ensures IsRun(limit, es') && Dead(After(limit, es'))
  {
    es' := es;
    assert Waits(After(limit, es').agents[0]);
    es' := Extend(limit, es', ThreadDone(1, [0]), Pool(1, limit, [Agent(Draining, 1), Agent(DrainWait, 0)]));
    es' := Extend(limit, es', CheckDrained(0), Pool(1, limit, [Agent(DrainWait, 1), Agent(DrainWait, 0)]));
    assert Waits(After(limit, es').agents[0]);
    es' := Extend(limit, es', ThreadDone(0, [0]), Pool(0, limit, [Agent(Draining, 0), Agent(DrainWait, 0)]));
    es' := Extend(limit, es', CheckDrained(0), Pool(0, limit, [Agent(Released, 0), Agent(DrainWait, 0)]));
    assert Waits(After(limit, es').agents[1]);
  }

  /** When agents send themselves it takes a third one: the first waits for the count to reach zero, the
      third for its turn, and the signal of the second goes to the first. */
  lemma ThreeAgentsStick() returns (es: seq<Event>)
    ensures IsRun(1, es) && Dead(After(1, es))
  {
    es := [];
    es := Extend(1, es, Spawn, Pool(0, 1, [Agent(Sending, 0)]));
    es := Extend(1, es, Spawn, Pool(0, 1, [Agent(Sending, 0), Agent(Sending, 0)]));
    es := Extend(1, es, Spawn, Pool(0, 1, [Agent(Sending, 0), Agent(Sending, 0), Agent(Sending, 0)]));
    es := FirstHasSent(es);
    es := Extend(1, es, NextMessage(1), Pool(1, 1, [Agent(Sending, 0), Agent(Sending, 1), Agent(Sending, 0)]));
    es := Extend(1, es, LastSent(0), Pool(1, 1, [Agent(Draining, 0), Agent(Sending, 1), Agent(Sending, 0)]));
    es := Extend(1, es, CheckDrained(0), Pool(1, 1, [Agent(DrainWait, 0), Agent(Sending, 1), Agent(Sending, 0)]));
    es := Extend(1, es, NextMessage(2), Pool(1, 1, [Agent(DrainWait, 0), Agent(Sending, 1), Agent(SlotWait, 0)]));
    es := SignalToFirst(es);
  }

  lemma FirstHasSent(es: seq<Event>) returns (es': seq<Event>)
    requires IsRun(1, es) && After(1, es) == Pool(0, 1, [Agent(Sending, 0), Agent(Sending, 0), Agent(Sending, 0)])
    ensures IsRun(1, es') && After(1, es') == After(1, es)
  {
    es' := Extend(1, es, NextMessage(0), Pool(1, 1, [Agent(Sending, 1), Agent(Sending, 0), Agent(Sending, 0)]));
    es' := Extend(1, es', ThreadDone(0, []), Pool(0, 1, [Agent(Sending, 0), Agent(Sending, 0), Agent(Sending, 0)]));
  }

  lemma SignalToFirst(es: seq<Event>) returns (es': seq<Event>)
    requires IsRun(1, es) && After(1, es) == Pool(1, 1, [Agent(DrainWait, 0), Agent(Sending, 1), Agent(SlotWait, 0)])
    ensures IsRun(1, es') && Dead(After(1, es'))
  {
    es' := es;
    assert Waits(After(1, es').agents[0]);
    es' := Extend(1, es', ThreadDone(1, [0]), Pool(0, 1, [Agent(Draining, 0), Agent(Sending, 0), Agent(SlotWait, 0)]));
    es' := Extend(1, es', LastSent(1), Pool(0, 1, [Agent(Draining, 0), Agent(Draining, 0), Agent(SlotWait, 0)]));
    es' := Extend(1, es', CheckDrained(0), Pool(0, 1, [Agent(Released, 0), Agent(Draining, 0), Agent(SlotWait, 0)]));
    es' := Extend(1, es', CheckDrained(1), Pool(0, 1, [Agent(Released, 0), Agent(Released, 0), Agent(SlotWait, 0)]));
    assert Waits(After(1, es').agents[2]);
  }

  /** For every limit there is a run that leaves an agent waiting when all others have released their data,
      so that only a further agent, with its own signals, or a spurious wakeup could wake it. */
  lemma OverlappingAgentsCanStick(limit: nat) returns (es: seq<Event>)
    requires limit >= 1
    ensures IsRun(limit, es) && Dead(After(limit, es)) && EverLastSignal(limit, es)
    ensures forall e :: Enabled(After(limit, es), e) ==> e.Spawn? || e.SpuriousWakeup?
  {
    if limit == 1 {
      es := ThreeAgentsStick();
    } else {
      es := TwoAgentsStick(limit);
    }
    RunSticksExactly(limit, es);
    forall e | Enabled(After(limit, es), e) ensures e.Spawn? || e.SpuriousWakeup? {
      DeadStays(After(limit, es), e);
    }
  }
}
