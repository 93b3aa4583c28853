// The handlers of src/api/step_io.c that use the stdin buffers, as the methods of client_io_t.
module StepIo {
  import opened StepIoPool
  import opened StepIoProofs

  /** The loop of _file_read over the nodes, undisturbed: Route until it is through. */
  function RouteAll(nodes: nat, p: Pool): (q: Pool)
    requires Inv(nodes, p) && p.reader.Routing?
    ensures Inv(nodes, q) && q.reader.Idle?
    decreases nodes - p.reader.i
  {
    RouteInv(nodes, p);
    var next := RouteNext(p);
    if p.reader.i == nodes then next else RouteAll(nodes, next)
  }

  datatype ReadOutcome = WouldBlock | Input

  /** One call of _file_read. */
  function FileReadNext(nodes: nat, target: Target, p: Pool, outcome: ReadOutcome): (q: Pool)
    requires Inv(nodes, p) && p.reader.Idle? && TargetThere(target, p)
    ensures Inv(nodes, q) && q.reader.Idle?
  {
    TakeInv(nodes, p);
    var t := TakeNext(p);
    if t.reader.Idle? then t
    else if outcome.WouldBlock? then
      AgainInv(nodes, t);
      t.(free := t.free + [t.reader.b], reader := Idle)
    else
      GotInv(nodes, target, t);
      var g := GotNext(target, t);
      if g.reader.Routing? then RouteAll(nodes, g) else g
  }

  /** SLURM_IO_STDIN names a node that has connected. */
  predicate TargetThere(target: Target, p: Pool)
  {
    target.OneNode? ==> target.node < |p.ioserver| && p.ioserver[target.node].Just?
  }

  /** What one message does to the queues: every node connected has it appended. */
  lemma {:induction false} RouteAllQueues(nodes: nat, p: Pool, b: nat)
    requires Inv(nodes, p) && p.reader.Routing? && p.reader.b == b
    ensures
      var q := RouteAll(nodes, p);
      && |q.refs| == |p.refs| == |q.absent| && q.refs[b] == nodes && q.free == p.free && |q.servers| == |p.servers|
      && Held(q.servers, b) + q.absent[b] == nodes
      && forall k :: 0 <= k < |p.servers| ==> p.servers[k].queue <= q.servers[k].queue
    decreases nodes - p.reader.i
  {
    RouteInv(nodes, p);
    assert BufOk(nodes, p, b);
    var next := RouteNext(p);
    assert BufOk(nodes, next, b);
    if p.reader.i < nodes { RouteAllQueues(nodes, next, b); }
  }

  /** Routing a message counts no missing node exactly if every node left has its I/O server. */
  lemma {:induction false} RouteAllReaches(nodes: nat, p: Pool, b: nat)
    requires Inv(nodes, p) && p.reader.Routing? && p.reader.b == b
    ensures
      var q := RouteAll(nodes, p);
      && |q.absent| == |p.absent| && q.absent[b] >= p.absent[b]
      && (q.absent[b] == p.absent[b] <==> forall n :: p.reader.i <= n < nodes ==> p.ioserver[n].Just?)
    decreases nodes - p.reader.i
  {
    RouteInv(nodes, p);
    if p.reader.i < nodes { RouteAllReaches(nodes, RouteNext(p), b); }
  }

  datatype WriteOutcome = Partial | Complete | Error

  class ClientIo {
    var numNodes: nat
    var refs: seq<int>
    var freeIncoming: seq<nat>
    var incomingCount: nat
    var servers: seq<Server>
    var ioserver: seq<Slot>
    var ready: seq<bool>
    var target: Target
    ghost var reader: Reader
    ghost var absent: seq<nat>

    ghost function State(): (p: Pool)
      reads this
    {
      Pool(refs, freeIncoming, incomingCount, servers, ioserver, ready, reader, absent)
    }

    ghost predicate Valid()
      reads this
    {
      Inv(numNodes, State())
    }

    /** client_io_handler_create. */
    constructor (nodes: nat, t: Target)
      ensures Valid() && numNodes == nodes && target == t && State() == Init(nodes)
    {
      numNodes, target, incomingCount, reader := nodes, t, 0, Idle;
      refs, absent := seq(STDIO_MAX_FREE_BUF, _ => 0), seq(STDIO_MAX_FREE_BUF, _ => 0);
      servers, ioserver, ready := [], seq(nodes, _ => Nothing), seq(nodes, _ => false);
      freeIncoming := [];
      new;
      var i := 0;
      while i < STDIO_MAX_FREE_BUF
        invariant i <= STDIO_MAX_FREE_BUF && freeIncoming == FirstBufs(i)
        modifies this`freeIncoming
      {
        freeIncoming := freeIncoming + [i];
        i := i + 1;
      }
      InitInv(nodes);
    }

    /** _incoming_buf_free. */
    method IncomingBufFree() returns (some: bool)
      requires Valid()
      modifies this`refs, this`absent, this`freeIncoming, this`incomingCount
      ensures Valid() && State() == Refill(old(State())) && some == (freeIncoming != [])
    {
      RefillInv(numNodes, State());
      if |freeIncoming| > 0 {
        some := true;
      } else if incomingCount < STDIO_MAX_FREE_BUF {
        freeIncoming := [|refs|];
        refs, absent := refs + [0], absent + [0];
        incomingCount := incomingCount + 1;
        some := true;
      } else {
        some := false;
      }
    }

    /** _file_read, when read returns what outcome says. */
    method FileRead(outcome: ReadOutcome)
      requires Valid() && reader.Idle? && TargetThere(target, State())
      modifies this`refs, this`absent, this`freeIncoming, this`incomingCount, this`servers, this`reader
      ensures Valid() && State() == FileReadNext(numNodes, target, old(State()), outcome)
    {
      TakeInv(numNodes, State());
      var some := IncomingBufFree();
      if !some { return; }
      var msg := freeIncoming[0];
      freeIncoming, reader := freeIncoming[1..], Taken(msg);
      if outcome.WouldBlock? {
        AgainInv(numNodes, State());
        freeIncoming, reader := freeIncoming + [msg], Idle;
        return;
      }
      GotInv(numNodes, target, State());
      Deliver(msg);
    }

    /** The part of _file_read that routes the message. */
    method Deliver(msg: nat)
      requires Valid() && reader == Taken(msg) && TargetThere(target, State())
      modifies this`refs, this`absent, this`servers, this`reader
      ensures Valid() && reader.Idle?
      ensures
        var g := GotNext(target, old(State()));
        Inv(numNodes, g) && State() == if g.reader.Routing? then RouteAll(numNodes, g) else g
    {
      GotInv(numNodes, target, State());
      match target
      case AllNodes =>
        refs, reader := refs[msg := 0], Routing(msg, 0);
        RouteToAll(msg);
      case OneNode(node) =>
        refs, reader := refs[msg := 1], Idle;
        Send(ioserver[node].b, msg);
      case NoNode =>
        refs, reader, absent := refs[msg := 1], Idle, absent[msg := absent[msg] + 1];
    }

    method Send(k: nat, msg: nat)
      requires k < |servers|
      modifies this`servers
      ensures State() == Enqueue(old(State()), k, msg)
    {
      servers := servers[k := servers[k].(queue := servers[k].queue + [msg])];
    }

    /** One turn of the loop over the nodes. */
    method RouteOne(msg: nat, i: nat)
      requires Valid() && reader == Routing(msg, i) && i < numNodes
      modifies this`refs, this`absent, this`servers, this`reader
      ensures Valid() && State() == RouteNext(old(State()))
    {
      RouteInv(numNodes, State());
      refs := refs[msg := refs[msg] + 1];
      reader := Routing(msg, i + 1);
      if ioserver[i].Nothing? {
        absent := absent[msg := absent[msg] + 1];
      } else {
        Send(ioserver[i].b, msg);
      }
    }

    method RouteToAll(msg: nat)
      requires Valid() && reader == Routing(msg, 0)
      modifies this`refs, this`absent, this`servers, this`reader
      ensures Valid() && reader.Idle? && State() == RouteAll(numNodes, old(State()))
    {
      var i := 0;
      while i < numNodes
        invariant i <= numNodes && Valid() && reader == Routing(msg, i)
        invariant RouteAll(numNodes, State()) == RouteAll(numNodes, old(State()))
        modifies this`refs, this`absent, this`servers, this`reader
        decreases numNodes - i
      {
        RouteOne(msg, i);
        i := i + 1;
      }
      RouteInv(numNodes, State());
      reader := Idle;
    }

    /** _server_write on connection k, when write does what outcome says. */
    method ServerWrite(k: nat, outcome: WriteOutcome)
      requires Valid() && Writable(State(), k)
      modifies this`refs, this`freeIncoming, this`servers
      ensures Valid()
      ensures State() == ServerWriteNext(old(State()), k, outcome)
    {
      if servers[k].out.Nothing? {
        if servers[k].queue == [] { return; }
        StartInv(numNodes, State(), k);
        var s := servers[k];
        servers := servers[k := s.(queue := s.queue[1..], out := Just(s.queue[0]))];
      }
      assert ServerShape(servers[k], |refs|);
      match outcome
      case Partial =>
      case Error =>
        FlagsInv(numNodes, State(), k, servers[k].(outEof := true));
        servers := servers[k := servers[k].(outEof := true)];
      case Complete =>
        SentInv(numNodes, State(), k);
        var msg := servers[k].out.b;
        refs := refs[msg := refs[msg] - 1];
        if refs[msg] == 0 {
          freeIncoming := freeIncoming + [msg];
        }
        servers := servers[k := servers[k].(out := Nothing)];
    }

    /** client_io_handler_send_test_message. */
    method SendTestMessage(node: nat) returns (sent: bool)
      requires Valid() && node < numNodes && ioserver[node].Just?
      modifies this`refs, this`absent, this`freeIncoming, this`incomingCount, this`servers
      ensures Valid() && State() == TestNext(old(State()), node)
      ensures sent <==> exists msg :: servers[ioserver[node].b].queue == old(servers[ioserver[node].b].queue) + [msg]
    {
      TestInv(numNodes, State(), node);
      var k := ioserver[node].b;
      if servers[k].outEof {
        sent := false;
        assert |servers[k].queue| == old(|servers[k].queue|);
        return;
      }
      sent := IncomingBufFree();
      if sent {
        var msg := freeIncoming[0];
        freeIncoming, refs := freeIncoming[1..], refs[msg := 1];
        Send(k, msg);
      }
    }

    /** _read_io_init_msg, once the message is validated. */
    method ReadIoInitMsg(node: nat) returns (ok: bool)
      requires Valid() && reader.Idle?
      modifies this`servers, this`ioserver, this`ready
      ensures Valid() && ok == (node < numNodes)
      ensures State() == if ok then AttachNext(old(State()), node).(ready := old(ready)[node := true]) else old(State())
    {
      ok := node < numNodes;
      if ok {
        AttachInv(numNodes, State(), node);
        servers, ioserver := servers + [Server([], Nothing, false, false)], ioserver[node := Just(|servers|)];
        ReadyInv(numNodes, State(), node);
        ready := ready[node := true];
      }
    }

    /** client_io_handler_downnodes; ids outside the step are skipped. */
    method Downnodes(ids: seq<int>)
      requires Valid()
      modifies this`servers, this`ready
      ensures Valid() && State() == DownAll(numNodes, old(State()), ids)
    {
      var i := 0;
      assert ids[0..] == ids;
      while i < |ids|
        invariant i <= |ids| && Valid() && DownAll(numNodes, State(), ids[i..]) == DownAll(numNodes, old(State()), ids)
        modifies this`servers, this`ready
      {
        assert ids[i..][1..] == ids[i + 1..];
        var node := ids[i];
        if 0 <= node < numNodes {
          NextInv(numNodes, target, State(), Down(node));
          if ready[node] && ioserver[node].Just? {
            var k := ioserver[node].b;
            servers := servers[k := servers[k].(shutdown := true)];
          } else {
            ready := ready[node := true];
          }
        }
        i := i + 1;
      }
    }

    /** client_io_handler_abort: every node is reported down. */
    method Abort()
      requires Valid()
      modifies this`servers, this`ready
      ensures Valid() && State() == DownAll(numNodes, old(State()), seq(numNodes, i => i))
      ensures AllReady(State())
    {
      var i := 0;
      ghost var ids: seq<int> := seq(numNodes, i => i);
      assert ids[0..] == ids;
      while i < numNodes
        invariant i <= numNodes && Valid()
        invariant DownAll(numNodes, State(), ids[i..]) == DownAll(numNodes, old(State()), ids)
        invariant forall n :: 0 <= n < i ==> ready[n]
        modifies this`servers, this`ready
      {
        assert ids[i..][1..] == ids[i + 1..] && ids[i..][0] == i;
        NextInv(numNodes, target, State(), Down(i));
        assert ready[i] ==> ready[i := true] == ready;
        if !ready[i] {
          ready := ready[i := true];
        } else if ioserver[i].Just? {
          var k := ioserver[i].b;
          servers := servers[k := servers[k].(shutdown := true)];
        }
        i := i + 1;
      }
    }
  }

  /** One call of _server_write. */
  function ServerWriteNext(p: Pool, k: nat, outcome: WriteOutcome): (q: Pool)
    requires k < |p.servers|
    requires p.servers[k].out.Just? ==> p.servers[k].out.b < |p.refs|
    requires forall j :: 0 <= j < |p.servers[k].queue| ==> p.servers[k].queue[j] < |p.refs|
  {
    if p.servers[k].out.Nothing? && p.servers[k].queue == [] then p
    else
      var s := if p.servers[k].out.Nothing? then StartNext(p, k) else p;
      match outcome
      case Partial => s
      case Error => s.(servers := s.servers[k := s.servers[k].(outEof := true)])
      case Complete => SentNext(s, k)
  }

  function DownAll(nodes: nat, p: Pool, ids: seq<int>): (q: Pool)
    requires Inv(nodes, p)
    ensures Inv(nodes, q)
    decreases |ids|
  {
    if ids == [] then p
    else if 0 <= ids[0] < nodes then
      NextInv(nodes, AllNodes, p, Down(ids[0]));
      DownAll(nodes, DownNext(p, ids[0]), ids[1..])
    else DownAll(nodes, p, ids[1..])
  }
}
