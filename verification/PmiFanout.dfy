// How a full barrier table is turned into messages (_agent in src/api/pmi_server.c), and how a rank
// passes its message on (_forward_comm_set in src/api/slurm_pmi.c).
module PmiFanout {
  import opened Kvs

  /** A message for task target, to be passed on to the tasks in forwards (the host list). */
  datatype Message = Message(target: nat, forwards: seq<nat>)

  /** host_cnt is a uint16_t. */
  function HostCnt(m: Message): (n: nat)
  {
    |m.forwards| % 0x1_0000
  }

  ghost predicate Table(ports: seq<nat>, hosts: seq<string>)
  {
    |ports| == |hosts|
  }

  predicate MayForward(ports: seq<nat>, hosts: seq<string>, offHost: bool, i: nat, j: nat)
    requires Table(ports, hosts) && i < |ports| && j < |ports|
  {
    ports[j] != 0 && (offHost || hosts[i] == hosts[j])
  }

  /** The inner loop from j: the ports left and the host list. */
  function Gather(ports: seq<nat>, hosts: seq<string>, fanout: nat, offHost: bool, i: nat, j: nat, list: seq<nat>)
    : (res: (seq<nat>, seq<nat>))
    requires Table(ports, hosts) && i < j <= |ports|
    ensures |res.0| == |ports|
    decreases |ports| - j
  {
    if j == |ports| then (ports, list)
    else if !MayForward(ports, hosts, offHost, i, j) then Gather(ports, hosts, fanout, offHost, i, j + 1, list)
    else if |list| + 1 >= fanout then (ports[j := 0], list + [j])
    else Gather(ports[j := 0], hosts, fanout, offHost, i, j + 1, list + [j])
  }

  /** The outer loop from i. */
  function Plan(ports: seq<nat>, hosts: seq<string>, fanout: nat, offHost: bool, i: nat, msgs: seq<Message>)
    : (res: seq<Message>)
    requires Table(ports, hosts) && i <= |ports|
    decreases |ports| - i
  {
    if i == |ports| then msgs
    else if ports[i] == 0 then Plan(ports, hosts, fanout, offHost, i + 1, msgs)
    else
      var (ports', list) := Gather(ports, hosts, fanout, offHost, i, i + 1, []);
      Plan(ports', hosts, fanout, offHost, i + 1, msgs + [Message(i, list)])
  }

  /** The loops of _agent; a task put on a host list has its port cleared in the table. */
  method FanOut(ports: array<nat>, hosts: seq<string>, fanout: nat, offHost: bool) returns (msgs: seq<Message>)
    requires ports.Length == |hosts| && fanout >= 1
    modifies ports
    ensures msgs == Plan(old(ports[..]), hosts, fanout, offHost, 0, [])
  {
    msgs := [];
    var i := 0;
    while i < ports.Length
      invariant 0 <= i <= ports.Length
      invariant Plan(ports[..], hosts, fanout, offHost, i, msgs) == Plan(old(ports[..]), hosts, fanout, offHost, 0, [])
    {
      if ports[i] == 0 {
        i := i + 1;
        continue;
      }
      ghost var before := ports[..];
      var list: seq<nat> := [];
      var j := i + 1;
      while j < ports.Length
        invariant i < j <= ports.Length
        invariant Gather(ports[..], hosts, fanout, offHost, i, j, list)
                  == Gather(before, hosts, fanout, offHost, i, i + 1, [])
      {
        if ports[j] == 0 {
          j := j + 1;
          continue;
        }
        if !offHost && hosts[i] != hosts[j] {
          j := j + 1;
          continue;
        }
        list := list + [j];
        ports[j] := 0;
        if |list| >= fanout {
          break;
        }
        j := j + 1;
      }
      assert (ports[..], list) == Gather(before, hosts, fanout, offHost, i, i + 1, []);
      msgs := msgs + [Message(i, list)];
      i := i + 1;
    }
  }

  // ---------------------------------------------------------------------------------------------
  // The plan covers every waiting task exactly once.

  /** Every task a list of messages reaches, directly or by forwarding. */
  function Reached(msgs: seq<Message>): (s: seq<nat>)
  {
    if msgs == [] then []
    else Reached(msgs[..|msgs| - 1]) + [msgs[|msgs| - 1].target] + msgs[|msgs| - 1].forwards
  }

  ghost predicate ListOk(hosts: seq<string>, fanout: nat, offHost: bool, m: Message)
  {
    && m.target < |hosts|
    && |m.forwards| <= fanout
    && forall k :: 0 <= k < |m.forwards| ==>
         m.forwards[k] < |hosts| && (offHost || hosts[m.forwards[k]] == hosts[m.target])
  }

  /** done holds, without repetition, exactly the waiting tasks below i and those whose port was cleared. */
  ghost predicate Done(all: seq<nat>, ports: seq<nat>, i: nat, done: seq<nat>)
  {
    && |ports| == |all|
    && Distinct(done)
    && (forall k: nat :: k in done <==> k < |all| && all[k] != 0 && (k < i || ports[k] == 0))
    && (forall k :: 0 <= k < |all| && ports[k] != 0 ==> ports[k] == all[k])
  }

  lemma DoneSkip(all: seq<nat>, ports: seq<nat>, i: nat, done: seq<nat>)
    requires Done(all, ports, i, done) && i < |all| && ports[i] == 0
    ensures Done(all, ports, i + 1, done)
  {
  }

  lemma DoneTarget(all: seq<nat>, ports: seq<nat>, i: nat, done: seq<nat>)
    requires Done(all, ports, i, done) && i < |all| && ports[i] != 0
    ensures Done(all, ports, i + 1, done + [i])
  {
  }

  lemma DoneForward(all: seq<nat>, ports: seq<nat>, i: nat, done: seq<nat>, j: nat)
    requires Done(all, ports, i, done) && i <= j < |all| && ports[j] != 0
    ensures Done(all, ports[j := 0], i, done + [j])
  {
    forall k: nat ensures k in done + [j] <==> k < |all| && all[k] != 0 && (k < i || ports[j := 0][k] == 0) {
    }
  }

  lemma {:induction false} GatherDone(all: seq<nat>, ports: seq<nat>, hosts: seq<string>, fanout: nat, offHost: bool,
                                      i: nat, j: nat, base: seq<nat>, list: seq<nat>)
    requires Table(ports, hosts) && i < j <= |ports| && |list| < fanout
    requires Done(all, ports, i + 1, base + list) && ListOk(hosts, fanout, offHost, Message(i, list))
    ensures
      var (ports', list') := Gather(ports, hosts, fanout, offHost, i, j, list);
      Done(all, ports', i + 1, base + list') && ListOk(hosts, fanout, offHost, Message(i, list'))
    decreases |ports| - j
  {
    if j < |ports| {
      if !MayForward(ports, hosts, offHost, i, j) {
        GatherDone(all, ports, hosts, fanout, offHost, i, j + 1, base, list);
      } else {
        DoneForward(all, ports, i + 1, base + list, j);
        assert base + list + [j] == base + (list + [j]);
        if |list| + 1 < fanout {
          GatherDone(all, ports[j := 0], hosts, fanout, offHost, i, j + 1, base, list + [j]);
        }
      }
    }
  }

  lemma ReachedSnoc(msgs: seq<Message>, m: Message)
    ensures Reached(msgs + [m]) == Reached(msgs) + [m.target] + m.forwards
  {
    assert (msgs + [m])[..|msgs|] == msgs;
  }

  lemma {:induction false} PlanDone(all: seq<nat>, ports: seq<nat>, hosts: seq<string>, fanout: nat, offHost: bool,
                                    i: nat, msgs: seq<Message>) returns (left: seq<nat>)
    requires Table(ports, hosts) && i <= |ports| && fanout >= 1
    requires Done(all, ports, i, Reached(msgs))
    requires forall k :: 0 <= k < |msgs| ==> ListOk(hosts, fanout, offHost, msgs[k])
    ensures
      var plan := Plan(ports, hosts, fanout, offHost, i, msgs);
      && Done(all, left, |ports|, Reached(plan))
      && (forall k :: 0 <= k < |plan| ==> ListOk(hosts, fanout, offHost, plan[k]))
    decreases |ports| - i
  {
    if i < |ports| {
      if ports[i] == 0 {
        DoneSkip(all, ports, i, Reached(msgs));
        left := PlanDone(all, ports, hosts, fanout, offHost, i + 1, msgs);
      } else {
        DoneTarget(all, ports, i, Reached(msgs));
        var base := Reached(msgs) + [i];
        assert base + [] == base;
        GatherDone(all, ports, hosts, fanout, offHost, i, i + 1, base, []);
        var (ports', list) := Gather(ports, hosts, fanout, offHost, i, i + 1, []);
        ReachedSnoc(msgs, Message(i, list));
        left := PlanDone(all, ports', hosts, fanout, offHost, i + 1, msgs + [Message(i, list)]);
      }
    } else {
      left := ports;
    }
  }

  /** Every waiting task is the direct target of one message or on exactly one host list, whose length is
      within the limit, and whose tasks share the target's host unless off-host is on.  host_cnt keeps the
      length of a list exactly when it fits 16 bits. */
  lemma FanOutIsExactCover(ports: seq<nat>, hosts: seq<string>, fanout: nat, offHost: bool)
    requires Table(ports, hosts) && fanout >= 1
    ensures
      var plan := Plan(ports, hosts, fanout, offHost, 0, []);
      && Distinct(Reached(plan))
      && (forall k: nat :: k in Reached(plan) <==> k < |ports| && ports[k] != 0)
      && (forall k :: 0 <= k < |plan| ==>
            && ListOk(hosts, fanout, offHost, plan[k])
            && (HostCnt(plan[k]) == |plan[k].forwards| <==> |plan[k].forwards| < 0x1_0000))
  {
    var left := PlanDone(ports, ports, hosts, fanout, offHost, 0, []);
  }

  // ---------------------------------------------------------------------------------------------
  // Passing a message on.

  datatype Host = Host(port: nat, hostname: string)

  /** struct kvs_comm_set as received: hostCnt of the hosts are to get a copy. */
  datatype KvsSet = KvsSet(hostCnt: nat, hosts: seq<Host>, comms: seq<Comm>)

  /** The hosts a received set still has to be sent to. */
  function Destinations(hosts: seq<Host>, n: nat): (d: seq<Host>)
    requires n <= |hosts|
  {
    if n == 0 then []
    else Destinations(hosts, n - 1) + if hosts[n - 1].port == 0 then [] else [hosts[n - 1]]
  }

  /** rc is the largest of zero and the answers of the destinations among the first n hosts. */
  ghost predicate IsWorst(hosts: seq<Host>, answers: seq<int>, n: nat, rc: int)
    requires n <= |hosts| == |answers|
  {
    && rc >= 0
    && (forall k :: 0 <= k < n && hosts[k].port != 0 ==> answers[k] <= rc)
    && (rc == 0 || exists k :: 0 <= k < n && hosts[k].port != 0 && answers[k] == rc)
  }

  /** _forward_comm_set: the count is cleared first, so no copy is passed on again.  answers[i] is what
      sending to host i would give, 1 for a send that fails; rc is the worst answer, at least zero. */
  method ForwardCommSet(received: KvsSet, answers: seq<int>)
    returns (kvsSet: KvsSet, sent: seq<(Host, KvsSet)>, rc: int)
    requires received.hostCnt <= |received.hosts| && |answers| == |received.hosts|
    ensures kvsSet == received.(hostCnt := 0)
    ensures |sent| == |Destinations(received.hosts, received.hostCnt)|
    ensures forall k :: 0 <= k < |sent| ==>
              && sent[k].0 == Destinations(received.hosts, received.hostCnt)[k]
              && sent[k].1 == received.(hostCnt := 0)
              && Destinations(sent[k].1.hosts, sent[k].1.hostCnt) == []
    ensures IsWorst(received.hosts, answers, received.hostCnt, rc)
  {
    rc := 0;
    kvsSet := received.(hostCnt := 0);
    sent := [];
    var i := 0;
    while i < received.hostCnt
      invariant 0 <= i <= received.hostCnt
      invariant |sent| == |Destinations(received.hosts, i)|
      invariant forall k :: 0 <= k < |sent| ==>
                  && sent[k].0 == Destinations(received.hosts, i)[k]
                  && sent[k].1 == kvsSet
      invariant IsWorst(received.hosts, answers, i, rc)
    {
      if received.hosts[i].port != 0 {
        rc := if answers[i] > rc then answers[i] else rc;
        sent := sent + [(received.hosts[i], kvsSet)];
      }
      i := i + 1;
    }
  }
}
