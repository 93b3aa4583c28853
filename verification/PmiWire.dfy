// The control side of the PMI-1 barrier: ranks (src/api/slurm_pmi.c) enter, srun's table fills, messages
// are delivered and passed on, ranks return.  Every rank in a filled barrier is owed exactly one message,
// and the next barrier can only fill when all have been delivered.
module PmiWire {
  import opened Kvs
  import opened KvsServer
  import opened PmiBarrier
  import opened PmiFanout

  /** ports and hosts are those the ranks listen on.  Host lists fit the 16 bits of host_cnt. */
  datatype Config = Config(fanout: nat, offHost: bool, ports: seq<nat>, hosts: seq<string>)

  ghost predicate ConfigOk(c: Config)
  {
    && |c.ports| == |c.hosts| >= 1
    && (forall i :: 0 <= i < |c.ports| ==> c.ports[i] != 0)
    && c.fanout >= 1 && (c.fanout < 0x1_0000 || |c.ports| <= 0x1_0000)
  }

  /** Where a rank is: outside PMI_Barrier, blocked in it, or passing the received message on. */
  datatype Phase = Running | AtBarrier | Relaying(left: seq<nat>)

  /** fills and returned are history: the barriers filled, and those each rank has returned from. */
  datatype Wire = Wire(phases: seq<Phase>, net: seq<Message>, barrier: Barrier, fills: nat, returned: seq<nat>)

  datatype Step =
    | Enter(r: nat)      // PMI_Barrier: the request reaches srun
    | Deliver(i: nat)    // message i reaches its target
    | Relay(r: nat)      // the target passes one copy on
    | Return(r: nat)     // the pairs have been stored and PMI_Barrier returns

  ghost predicate Shape(c: Config, w: Wire)
  {
    ConfigOk(c) && |w.phases| == |w.returned| == |c.ports| && |w.barrier.slots| == w.barrier.cnt
  }

  predicate Enabled(w: Wire, e: Step)
  {
    match e
    case Enter(r) => r < |w.phases| && w.phases[r].Running?
    case Deliver(i) => i < |w.net| && w.net[i].target < |w.phases| && w.phases[w.net[i].target].AtBarrier?
    case Relay(r) => r < |w.phases| && w.phases[r].Relaying? && w.phases[r].left != []
    case Return(r) => r < |w.phases| && w.phases[r].Relaying? && w.phases[r].left == []
  }

  function SlotPorts(slots: seq<Slot>): (p: seq<nat>)
    ensures |p| == |slots|
  {
    seq(|slots|, i requires 0 <= i < |slots| => slots[i].port)
  }

  function SlotHosts(slots: seq<Slot>): (h: seq<string>)
    ensures |h| == |slots|
  {
    seq(|slots|, i requires 0 <= i < |slots| => slots[i].hostname)
  }

  function BarrierRequest(c: Config, r: nat): (q: Request)
    requires r < |c.ports| == |c.hosts|
  {
    Request(r, |c.ports|, c.ports[r], c.hosts[r])
  }

  /** The messages for a full table. */
  function Messages(c: Config, slots: seq<Slot>): (msgs: seq<Message>)
  {
    Plan(SlotPorts(slots), SlotHosts(slots), c.fanout, c.offHost, 0, [])
  }

  ghost predicate Fires(c: Config, w: Wire, r: nat)
    requires Shape(c, w) && r < |w.phases|
  {
    Arrive(w.barrier, BarrierRequest(c, r)).fired != []
  }

  /** The rank waits in the table, or is handed over with it. */
  ghost function Joined(c: Config, w: Wire, r: nat): (w': Wire)
    requires Shape(c, w) && r < |w.phases|
    ensures Shape(c, w')
  {
    w.(phases := w.phases[r := AtBarrier], barrier := Arrive(w.barrier, BarrierRequest(c, r)).barrier)
  }

  ghost function Next(c: Config, w: Wire, e: Step): (w': Wire)
    requires Shape(c, w) && Enabled(w, e)
    ensures Shape(c, w')
  {
    match e
    case Enter(r) =>
      var w1 := Joined(c, w, r);
      if Fires(c, w, r) then
        w1.(net := w1.net + Messages(c, Arrive(w.barrier, BarrierRequest(c, r)).fired), fills := w1.fills + 1)
      else w1
    case Deliver(i) =>
      w.(phases := w.phases[w.net[i].target := Relaying(w.net[i].forwards)], net := w.net[..i] + w.net[i + 1..])
    case Relay(r) =>
      var left := w.phases[r].left;
      w.(phases := w.phases[r := Relaying(left[1..])], net := w.net + [Message(left[0], [])])
    case Return(r) =>
      w.(phases := w.phases[r := Running], returned := w.returned[r := w.returned[r] + 1])
  }

  // ---------------------------------------------------------------------------------------------
  // How often a rank is owed a message.

  function Count(s: seq<nat>, x: nat): (n: nat)
  {
    if s == [] then 0 else Count(s[..|s| - 1], x) + if s[|s| - 1] == x then 1 else 0
  }

  function LeftCount(p: Phase, x: nat): (n: nat)
  {
    if p.Relaying? then Count(p.left, x) else 0
  }

  function PhaseCount(phases: seq<Phase>, x: nat): (n: nat)
  {
    if phases == [] then 0 else PhaseCount(phases[..|phases| - 1], x) + LeftCount(phases[|phases| - 1], x)
  }

  function MessageCount(m: Message, x: nat): (n: nat)
  {
    (if m.target == x then 1 else 0) + Count(m.forwards, x)
  }

  function NetCount(net: seq<Message>, x: nat): (n: nat)
  {
    if net == [] then 0 else NetCount(net[..|net| - 1], x) + MessageCount(net[|net| - 1], x)
  }

  lemma {:induction false} CountConcat(s: seq<nat>, t: seq<nat>, x: nat)
    ensures Count(s + t, x) == Count(s, x) + Count(t, x)
  {
    if t == [] {
      assert s + t == s;
    } else {
      var k := |t| - 1;
      assert (s + t)[..|s| + k] == s + t[..k];
      CountConcat(s, t[..k], x);
    }
  }

  lemma {:induction false} CountDistinct(s: seq<nat>, x: nat)
    requires Distinct(s)
    ensures Count(s, x) == if x in s then 1 else 0
  {
    if s != [] {
      var k := |s| - 1;
      assert s == s[..k] + [s[k]];
      CountDistinct(s[..k], x);
    }
  }

  lemma {:induction false} PhaseCountUpdate(phases: seq<Phase>, r: nat, p: Phase, x: nat)
    requires r < |phases|
    ensures PhaseCount(phases[r := p], x) + LeftCount(phases[r], x) == PhaseCount(phases, x) + LeftCount(p, x)
  {
    var n := |phases| - 1;
    if r < n {
      assert phases[r := p][..n] == phases[..n][r := p];
      PhaseCountUpdate(phases[..n], r, p, x);
    } else {
      assert phases[r := p][..n] == phases[..n];
    }
  }

  lemma NetCountSnoc(net: seq<Message>, m: Message, x: nat)
    ensures NetCount(net + [m], x) == NetCount(net, x) + MessageCount(m, x)
  {
    assert (net + [m])[..|net|] == net;
  }

  lemma {:induction false} NetCountRemove(net: seq<Message>, i: nat, x: nat)
    requires i < |net|
    ensures NetCount(net, x) == NetCount(net[..i] + net[i + 1..], x) + MessageCount(net[i], x)
  {
    var n := |net| - 1;
    if i < n {
      var rest := net[..n][..i] + net[..n][i + 1..];
      NetCountRemove(net[..n], i, x);
      assert rest + [net[n]] == net[..i] + net[i + 1..];
      NetCountSnoc(rest, net[n], x);
    } else {
      assert net[..i] + net[i + 1..] == net[..n];
    }
  }

  lemma {:induction false} NetCountReached(net: seq<Message>, x: nat)
    ensures NetCount(net, x) == Count(Reached(net), x)
  {
    if net != [] {
      var k := |net| - 1;
      NetCountReached(net[..k], x);
      CountConcat(Reached(net[..k]) + [net[k].target], net[k].forwards, x);
      CountConcat(Reached(net[..k]), [net[k].target], x);
    }
  }

  lemma {:induction false} NoneRelaying(phases: seq<Phase>, x: nat)
    requires forall r :: 0 <= r < |phases| ==> !phases[r].Relaying?
    ensures PhaseCount(phases, x) == 0
  {
    if phases != [] { NoneRelaying(phases[..|phases| - 1], x); }
  }

  // ---------------------------------------------------------------------------------------------
  // The invariant.

  /** r waits for a message of the last filled barrier. */
  ghost predicate Owed(w: Wire, r: nat)
    requires |w.phases| == |w.returned|
  {
    r < |w.phases| && w.phases[r].AtBarrier? && w.returned[r] + 1 == w.fills
  }

  /** r waits in srun's table. */
  ghost predicate InTable(w: Wire, r: nat)
    requires |w.phases| == |w.returned|
  {
    r < |w.phases| && w.phases[r].AtBarrier? && w.returned[r] == w.fills
  }

  ghost function Arrived(c: Config, w: Wire): (m: map<nat, Slot>)
    requires Shape(c, w)
  {
    map r: nat | r < |w.phases| && InTable(w, r) :: Slot(c.ports[r], c.hosts[r])
  }

  ghost predicate PhaseOk(w: Wire, r: nat)
    requires |w.phases| == |w.returned| && r < |w.phases|
  {
    match w.phases[r]
    case Running => w.returned[r] == w.fills
    case AtBarrier => w.returned[r] == w.fills || w.returned[r] + 1 == w.fills
    case Relaying(_) => w.returned[r] + 1 == w.fills
  }

  ghost predicate PhasesOk(w: Wire)
    requires |w.phases| == |w.returned|
  {
    forall r :: 0 <= r < |w.phases| ==> PhaseOk(w, r)
  }

  ghost predicate OwedOnce(w: Wire)
    requires |w.phases| == |w.returned|
  {
    forall r: nat :: NetCount(w.net, r) + PhaseCount(w.phases, r) == if Owed(w, r) then 1 else 0
  }

  ghost predicate TableOk(c: Config, w: Wire)
    requires Shape(c, w)
  {
    && (w.barrier.cnt == 0 || w.barrier.cnt == |c.ports|)
    && Represents(w.barrier, Gathering(w.barrier.cnt, Arrived(c, w)))
  }

  ghost predicate Inv(c: Config, w: Wire)
  {
    && Shape(c, w)
    && PhasesOk(w)
    && OwedOnce(w)
    && TableOk(c, w)
  }

  function Init(c: Config): (w: Wire)
  {
    Wire(seq(|c.ports|, _ => Running), [], NO_BARRIER, 0, seq(|c.ports|, _ => 0))
  }

  lemma InitInv(c: Config)
    requires ConfigOk(c)
    ensures Inv(c, Init(c))
  {
    var w := Init(c);
    forall r: nat ensures NetCount(w.net, r) + PhaseCount(w.phases, r) == if Owed(w, r) then 1 else 0 {
      NoneRelaying(w.phases, r);
    }
    assert Arrived(c, w) == map[];
  }

  /** Steps that change one phase and leave the table alone. */
  lemma PhaseStep(c: Config, w: Wire, w': Wire, r: nat)
    requires Inv(c, w) && Shape(c, w') && r < |w.phases| && w'.phases == w.phases[r := w'.phases[r]]
    requires w'.barrier == w.barrier && w'.fills == w.fills && PhaseOk(w', r)
    requires forall x :: 0 <= x < |w.phases| && x != r ==> w'.returned[x] == w.returned[x]
    requires !InTable(w, r) && !InTable(w', r)
    ensures PhasesOk(w') && TableOk(c, w')
    ensures forall x: nat :: x != r ==> Owed(w', x) == Owed(w, x)
  {
    forall x | 0 <= x < |w.phases| ensures PhaseOk(w', x) { assert PhaseOk(w, x); }
    assert Arrived(c, w') == Arrived(c, w);
  }

  lemma DeliverInv(c: Config, w: Wire, i: nat)
    requires Inv(c, w) && Enabled(w, Deliver(i))
    ensures Inv(c, Next(c, w, Deliver(i))) && Owed(w, w.net[i].target)
  {
    var t, w' := w.net[i].target, Next(c, w, Deliver(i));
    NetCountRemove(w.net, i, t);
    assert Owed(w, t);
    PhaseStep(c, w, w', t);
    forall x: nat ensures NetCount(w'.net, x) + PhaseCount(w'.phases, x) == if Owed(w', x) then 1 else 0 {
      NetCountRemove(w.net, i, x);
      PhaseCountUpdate(w.phases, t, w'.phases[t], x);
    }
  }

  lemma RelayInv(c: Config, w: Wire, r: nat)
    requires Inv(c, w) && Enabled(w, Relay(r))
    ensures Inv(c, Next(c, w, Relay(r)))
  {
    var left, w' := w.phases[r].left, Next(c, w, Relay(r));
    assert PhaseOk(w, r);
    PhaseStep(c, w, w', r);
    forall x: nat ensures NetCount(w'.net, x) + PhaseCount(w'.phases, x) == if Owed(w', x) then 1 else 0 {
      NetCountSnoc(w.net, Message(left[0], []), x);
      PhaseCountUpdate(w.phases, r, w'.phases[r], x);
      assert left == [left[0]] + left[1..];
      CountConcat([left[0]], left[1..], x);
    }
  }

  lemma ReturnInv(c: Config, w: Wire, r: nat)
    requires Inv(c, w) && Enabled(w, Return(r))
    ensures Inv(c, Next(c, w, Return(r)))
  {
    var w' := Next(c, w, Return(r));
    assert PhaseOk(w, r);
    PhaseStep(c, w, w', r);
    forall x: nat ensures NetCount(w'.net, x) + PhaseCount(w'.phases, x) == if Owed(w', x) then 1 else 0 {
      PhaseCountUpdate(w.phases, r, w'.phases[r], x);
    }
  }

  /** Entering changes what is owed to no one. */
  lemma JoinedOwed(c: Config, w: Wire, r: nat)
    requires Inv(c, w) && Enabled(w, Enter(r))
    ensures PhasesOk(Joined(c, w, r)) && OwedOnce(Joined(c, w, r))
    ensures Arrived(c, Joined(c, w, r)) == Arrived(c, w)[r := Slot(c.ports[r], c.hosts[r])]
  {
    var w1 := Joined(c, w, r);
    assert PhaseOk(w, r);
    forall x | 0 <= x < |w.phases| ensures PhaseOk(w1, x) { assert PhaseOk(w, x); }
    forall x: nat ensures NetCount(w1.net, x) + PhaseCount(w1.phases, x) == if Owed(w1, x) then 1 else 0 {
      PhaseCountUpdate(w.phases, r, AtBarrier, x);
    }
    assert forall x: nat :: InTable(w1, x) == (x == r || InTable(w, x));
  }

  lemma EnterArrives(c: Config, w: Wire, r: nat)
    requires Inv(c, w) && Enabled(w, Enter(r))
    ensures
      var a, w1 := Arrive(w.barrier, BarrierRequest(c, r)), Joined(c, w, r);
      if a.fired == [] then TableOk(c, w1)
      else a.barrier == NO_BARRIER && |a.fired| == |c.ports| && Holds(a.fired, Arrived(c, w1))
           && Arrived(c, w1).Keys == Tasks(|c.ports|)
  {
    var q, g := BarrierRequest(c, r), Gathering(w.barrier.cnt, Arrived(c, w));
    ArriveRefines(w.barrier, g, q);
    JoinFires(g, q);
    JoinedOwed(c, w, r);
  }

  lemma OwedToSomeone(w: Wire)
    requires |w.phases| == |w.returned| && OwedOnce(w) && w.net != []
    ensures exists r: nat :: r < |w.phases| && !InTable(w, r)
  {
    var t := w.net[|w.net| - 1].target;
    assert Owed(w, t);
    assert t < |w.phases| && !InTable(w, t);
  }

  /** A full table means that every rank is in it, so nothing is owed any more. */
  lemma FullTable(c: Config, w: Wire, fired: seq<Slot>)
    requires Shape(c, w) && OwedOnce(w) && |fired| == |c.ports|
    requires Holds(fired, Arrived(c, w)) && Arrived(c, w).Keys == Tasks(|c.ports|)
    ensures SlotPorts(fired) == c.ports && SlotHosts(fired) == c.hosts
    ensures forall x :: 0 <= x < |w.phases| ==> InTable(w, x)
    ensures w.net == []
  {
    forall x | 0 <= x < |c.ports| ensures InTable(w, x) && fired[x] == Slot(c.ports[x], c.hosts[x]) {
      assert x in Arrived(c, w);
    }
    if w.net != [] {
      OwedToSomeone(w);
      assert false;
    }
  }

  /** The messages of a fresh fill are all that is owed. */
  lemma FillInv(c: Config, w1: Wire, w': Wire)
    requires Shape(c, w1) && w1.barrier == NO_BARRIER && forall x :: 0 <= x < |w1.phases| ==> InTable(w1, x)
    requires w' == w1.(net := Plan(c.ports, c.hosts, c.fanout, c.offHost, 0, []), fills := w1.fills + 1)
    ensures Inv(c, w')
  {
    FanOutIsExactCover(c.ports, c.hosts, c.fanout, c.offHost);
    forall r | 0 <= r < |w'.phases| ensures PhaseOk(w', r) && !w'.phases[r].Relaying? { assert InTable(w1, r); }
    forall x: nat ensures NetCount(w'.net, x) + PhaseCount(w'.phases, x) == if Owed(w', x) then 1 else 0 {
      NetCountReached(w'.net, x);
      CountDistinct(Reached(w'.net), x);
      NoneRelaying(w'.phases, x);
      assert x < |w1.phases| ==> InTable(w1, x);
    }
    assert Arrived(c, w') == map[] by {
      forall x | 0 <= x < |w'.phases| ensures !InTable(w', x) { assert InTable(w1, x); }
    }
  }

  lemma EnterInv(c: Config, w: Wire, r: nat)
    requires Inv(c, w) && Enabled(w, Enter(r))
    ensures Inv(c, Next(c, w, Enter(r)))
    ensures Fires(c, w, r) ==> w.net == [] && forall x :: 0 <= x < |w.phases| ==> InTable(Joined(c, w, r), x)
  {
    var a, w1 := Arrive(w.barrier, BarrierRequest(c, r)), Joined(c, w, r);
    JoinedOwed(c, w, r);
    EnterArrives(c, w, r);
    if a.fired != [] {
      FullTable(c, w1, a.fired);
      assert w1.net + Messages(c, a.fired) == Messages(c, a.fired);
      FillInv(c, w1, Next(c, w, Enter(r)));
    }
  }

  lemma NextInv(c: Config, w: Wire, e: Step)
    requires Inv(c, w) && Enabled(w, e)
    ensures Inv(c, Next(c, w, e))
  {
    match e
    case Enter(r) => EnterInv(c, w, r);
    case Deliver(i) => DeliverInv(c, w, i);
    case Relay(r) => RelayInv(c, w, r);
    case Return(r) => ReturnInv(c, w, r);
  }
}
