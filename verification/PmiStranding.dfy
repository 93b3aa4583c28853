// A run of the PMI-1 barrier that strands a rank, for every limit on the threads of srun
// (src/api/pmi_server.c): a single rank that goes through one barrier after the other is enough.
module PmiStranding {
  import opened KvsServer
  import opened PmiFanout
  import opened PmiProgress
  import opened PmiSending
  import A = PmiAgents
  import P = PmiProtocol
  import W = PmiWire

  ghost predicate OneRank(c: Config)
  {
    W.ConfigOk(c.proto.wire) && |c.proto.wire.ports| == 1 && c.limit > 0
  }

  /** One step further. */
  lemma Step(c: Config, es: seq<Event>, s: State, e: Event) returns (es': seq<Event>, s': State)
    requires IsRun(c, es) && s == After(c, es) && Enabled(s, e) && (e.Rank? ==> e.e.Move?)
    ensures Shape(c, s) && s' == Next(c, s, e) && es' == es + [e] && IsRun(c, es') && s' == After(c, es')
  {
    es' := Extend(c, es, e);
    s' := Next(c, s, e);
  }

  /** The rank is outside the barrier, and nothing is under way. */
  ghost predicate Outside(s: State)
  {
    && s.proto.wire.phases == [W.Running] && s.proto.wire.net == [] && s.proto.wire.barrier == NO_BARRIER
    && s.from == []
  }

  lemma OneMessage(c: W.Config, slots: seq<Slot>)
    requires |slots| == 1 && slots[0].port != 0
    ensures W.Messages(c, slots) == [Message(0, [])]
  {
    var ports, hosts := W.SlotPorts(slots), W.SlotHosts(slots);
    assert Gather(ports, hosts, c.fanout, c.offHost, 0, 1, []) == (ports, []);
    assert Plan(ports, hosts, c.fanout, c.offHost, 1, [Message(0, [])]) == [Message(0, [])];
    assert [] + [Message(0, [])] == [Message(0, [])];
  }

  lemma OneArrives(c: W.Config, w: W.Wire)
    requires W.Shape(c, w) && |c.ports| == 1 && w.barrier == NO_BARRIER
    ensures
      var a := Arrive(w.barrier, W.BarrierRequest(c, 0));
      a.fired == [Slot(c.ports[0], c.hosts[0])] && a.barrier == NO_BARRIER
  {
  }

  /** The rank enters, and with it the barrier is full. */
  lemma EnterAlone(c: Config, es: seq<Event>, s: State) returns (es': seq<Event>, s': State)
    requires OneRank(c) && IsRun(c, es) && s == After(c, es) && Outside(s)
    ensures IsRun(c, es') && s' == After(c, es')
    ensures s'.proto.wire.phases == [W.AtBarrier] && s'.proto.wire.net == [Message(0, [])]
    ensures s'.proto.wire.barrier == NO_BARRIER
    ensures s'.pool == A.Next(s.pool, A.Spawn) && s'.from == [Unsent(|s.pool.agents|)]
  {
    es', s' := Step(c, es, s, Rank(P.Move(W.Enter(0))));
    var cw, w := c.proto.wire, s.proto.wire;
    OneArrives(cw, w);
    OneMessage(cw, [Slot(cw.ports[0], cw.hosts[0])]);
    assert [] + Copies(Unsent(|s.pool.agents|), 1) == [Unsent(|s.pool.agents|)];
  }

  lemma ReturnAlone(c: Config, es: seq<Event>, s: State) returns (es': seq<Event>, s': State)
    requires IsRun(c, es) && s == After(c, es)
    requires s.proto.wire.phases == [W.Relaying([])] && s.proto.wire.net == []
    requires s.proto.wire.barrier == NO_BARRIER && s.from == []
    ensures IsRun(c, es') && s' == After(c, es') && Outside(s') && s'.pool == s.pool
  {
    es', s' := Step(c, es, s, Rank(P.Move(W.Return(0))));
  }

  /** The message is delivered, and the rank returns. */
  lemma DeliverAlone(c: Config, es: seq<Event>, s: State) returns (es': seq<Event>, s': State)
    requires OneRank(c) && IsRun(c, es) && s == After(c, es)
    requires s.proto.wire.phases == [W.AtBarrier] && s.proto.wire.net == [Message(0, [])]
    requires s.proto.wire.barrier == NO_BARRIER && |s.from| == 1 && !s.from[0].Unsent?
    ensures IsRun(c, es') && s' == After(c, es') && Outside(s') && s'.pool == s.pool
  {
    es', s' := Step(c, es, s, Rank(P.Move(W.Deliver(0))));
    es', s' := ReturnAlone(c, es', s');
  }

  /** A new agent takes a slot for the one message of its plan. */
  lemma SendAlone(c: Config, es: seq<Event>, s: State, p: A.Pool) returns (es': seq<Event>, s': State)
    requires IsRun(c, es) && s == After(c, es) && p.limit > p.agentCnt
    requires s.pool == A.Next(p, A.Spawn) && s.from == [Unsent(|p.agents|)]
    ensures IsRun(c, es') && s' == After(c, es') && s'.proto == s.proto && s'.from == [Sent(|p.agents|)]
    ensures s'.pool == A.Pool(p.agentCnt + 1, p.limit, p.agents + [A.Agent(A.Sending, 1)])
  {
    var m := |p.agents|;
    assert FirstUnsent(s.from, m) == 0;
    es', s' := Step(c, es, s, Agent(A.NextMessage(m)));
    assert (p.agents + [A.Agent(A.Sending, 0)])[m := A.Agent(A.Sending, 1)] == p.agents + [A.Agent(A.Sending, 1)];
  }

  /** A whole barrier, but for the end of the thread that sends its message. */
  lemma Round(c: Config, es: seq<Event>, s: State) returns (es': seq<Event>, s': State)
    requires OneRank(c) && IsRun(c, es) && s == After(c, es) && Outside(s)
    requires s.pool.limit == c.limit > s.pool.agentCnt
    ensures IsRun(c, es') && s' == After(c, es') && Outside(s')
    ensures s'.pool == A.Pool(s.pool.agentCnt + 1, c.limit, s.pool.agents + [A.Agent(A.Sending, 1)])
  {
    es', s' := EnterAlone(c, es, s);
    es', s' := SendAlone(c, es', s', s.pool);
    es', s' := DeliverAlone(c, es', s');
  }

  /** The oldest agent waits for all threads to end, and one has not. */
  ghost predicate Ready(c: Config, s: State)
  {
    && Outside(s)
    && s.pool.limit == c.limit >= s.pool.agentCnt >= 1
    && |s.pool.agents| > 0 && s.pool.agents[0].phase.DrainWait?
  }

  lemma Drain(c: Config, es: seq<Event>, s: State) returns (es': seq<Event>, s': State)
    requires IsRun(c, es) && s == After(c, es) && Outside(s) && s.pool.limit == c.limit >= s.pool.agentCnt >= 1
    requires |s.pool.agents| > 0 && s.pool.agents[0].phase.Sending? && !A.Busy(s.pool, s.pool.agents[0])
    ensures IsRun(c, es') && s' == After(c, es') && Ready(c, s')
  {
    es', s' := Step(c, es, s, Agent(A.LastSent(0)));
    es', s' := Step(c, es', s', Agent(A.CheckDrained(0)));
  }

  /** With a limit of one the first agent is done with its message before the second sends its own. */
  lemma Start(c: Config) returns (es: seq<Event>, s: State)
    requires OneRank(c)
    ensures IsRun(c, es) && s == After(c, es) && Ready(c, s)
  {
    es, s := [], Init(c);
    es, s := Round(c, es, s);
    if c.limit == 1 {
      es, s := Step(c, es, s, Agent(A.ThreadDone(0, [])));
      es, s := Round(c, es, s);
    }
    es, s := Drain(c, es, s);
  }

  /** Barriers whose threads do not end use up the limit. */
  lemma {:induction false} UseUp(c: Config, es: seq<Event>, s: State) returns (es': seq<Event>, s': State)
    requires OneRank(c) && IsRun(c, es) && s == After(c, es) && Ready(c, s)
    ensures IsRun(c, es') && s' == After(c, es') && Ready(c, s') && s'.pool.agentCnt == c.limit
    decreases c.limit - s.pool.agentCnt
  {
    if s.pool.agentCnt == c.limit {
      es', s' := es, s;
    } else {
      es', s' := Round(c, es, s);
      es', s' := UseUp(c, es', s');
    }
  }

  /** Agent m sleeps in front of the message in its queue, and agent 0 waits for all threads to end. */
  ghost predicate BothSleep(s: State, m: nat)
  {
    && s.from == [Unsent(m)] && 0 < m < |s.pool.agents|
    && s.pool.agents[0].phase.DrainWait? && s.pool.agents[m].phase.SlotWait?
  }

  lemma FallAsleep(c: Config, es: seq<Event>, s: State) returns (es': seq<Event>, s': State)
    requires OneRank(c) && IsRun(c, es) && s == After(c, es) && Ready(c, s) && s.pool.agentCnt == c.limit
    ensures IsRun(c, es') && s' == After(c, es') && BothSleep(s', |s.pool.agents|) && s'.pool.agentCnt > 0
  {
    es', s' := EnterAlone(c, es, s);
    es', s' := Step(c, es', s', Agent(A.NextMessage(|s.pool.agents|)));
  }

  lemma RunSafe(c: Config, es: seq<Event>)
    requires IsRun(c, es)
    ensures A.Safe(After(c, es).pool)
  {
    RunInv(c, es);
  }

  lemma ThreadCanEnd(s: State, m: nat) returns (b: nat)
    requires A.Safe(s.pool) && BothSleep(s, m) && s.pool.agentCnt > 0
    ensures Enabled(s, Agent(A.ThreadDone(b, [0])))
  {
    b := SomeThread(s.pool.agents);
    assert A.Waits(s.pool.agents[0]);
    assert InFlight(s.from, b) == 0;
  }

  /** A thread ends, and its signal wakes agent 0. */
  lemma SignalFirst(c: Config, es: seq<Event>, s: State, m: nat) returns (es': seq<Event>, s': State)
    requires IsRun(c, es) && s == After(c, es) && BothSleep(s, m) && s.pool.agentCnt > 0
    ensures IsRun(c, es') && s' == After(c, es') && s'.pool.agentCnt == s.pool.agentCnt - 1
    ensures s'.from == [Unsent(m)] && m < |s'.pool.agents| == |s.pool.agents|
    ensures s'.pool.agents[0].phase.Draining? && s'.pool.agents[m].phase.SlotWait?
  {
    RunSafe(c, es);
    var b := ThreadCanEnd(s, m);
    es', s' := Step(c, es, s, Agent(A.ThreadDone(b, [0])));
  }

  lemma {:induction false} AllSignalsToFirst(c: Config, es: seq<Event>, s: State, m: nat)
    returns (es': seq<Event>, s': State)
    requires IsRun(c, es) && s == After(c, es) && BothSleep(s, m) && s.pool.agentCnt > 0
    ensures IsRun(c, es') && s' == After(c, es') && Stranded(s')
    decreases s.pool.agentCnt
  {
    es', s' := SignalFirst(c, es, s, m);
    if s'.pool.agentCnt > 0 {
      es', s' := Step(c, es', s', Agent(A.CheckDrained(0)));
      es', s' := AllSignalsToFirst(c, es', s', m);
    }
  }

  /** For every limit, with a single rank: a run after which the rank can never leave the barrier. */
  lemma BarrierCanStrand(c: Config) returns (es: seq<Event>)
    requires OneRank(c)
    ensures IsRun(c, es) && Stranded(After(c, es)) && !CanSettle(c, es) && EverMisdirected(c, es)
  {
    var s;
    es, s := Start(c);
    es, s := UseUp(c, es, s);
    var m := |s.pool.agents|;
    es, s := FallAsleep(c, es, s);
    es, s := AllSignalsToFirst(c, es, s, m);
    CanSettleIff(c, es);
    RunStrandsExactly(c, es);
  }
}
