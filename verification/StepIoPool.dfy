// The pool of stdin buffers shared by the queues of all nodes (src/api/step_io.c), as a transition system
// over the steps of the I/O thread and of the threads that send connection tests or report nodes down.
module StepIoPool {

  const STDIO_MAX_FREE_BUF := 1024

  datatype Slot = Nothing | Just(b: nat)

  /** struct server_io_info: a connection to a node, with its queue and the message being sent. */
  datatype Server = Server(queue: seq<nat>, out: Slot, outEof: bool, shutdown: bool)

  /** Where stdin goes: SLURM_IO_ALLSTDIN, SLURM_IO_STDIN, or SLURM_IO_STDIN without a valid node. */
  datatype Target = AllNodes | OneNode(node: nat) | NoNode

  /** What _file_read has in hand: a buffer off the free list, or one being queued node by node. */
  datatype Reader = Idle | Taken(b: nat) | Routing(b: nat, i: nat)

  /** client_io_t.  Buffers are numbered; refs[b] is ref_count, ioserver[n] an index into servers (a node that
      connects again gets another one).  absent[b] counts, for its current use, the nodes b was counted for
      but not queued to. */
  datatype Pool = Pool(refs: seq<int>, free: seq<nat>, incomingCount: nat, servers: seq<Server>,
                       ioserver: seq<Slot>, ready: seq<bool>, reader: Reader, absent: seq<nat>)

  datatype Event =
    | Attach(node: nat)       // _read_io_init_msg, as the I/O thread accepts a connection
    | Announce(node: nat)     // ... and sets its ready bit
    | Down(node: nat)         // one node of client_io_handler_downnodes or _abort
    | Probe                   // _file_readable
    | Take                    // _file_read: a buffer off the free list
    | Again                   // ... nothing to read, the buffer goes back
    | Got                     // ... input or end of file
    | Route                   // ... one turn of the loop over the nodes
    | Start(k: nat)           // _server_write on connection k: the next message
    | Sent(k: nat)            // ... it is sent
    | Fail(k: nat)            // ... an error; or the connection is closed while reading
    | Test(node: nat)         // client_io_handler_send_test_message

  predicate Shape(nodes: nat, p: Pool)
  {
    && |p.ioserver| == |p.ready| == nodes && |p.absent| == |p.refs|
    && (forall n :: 0 <= n < nodes && p.ioserver[n].Just? ==> p.ioserver[n].b < |p.servers|)
    && (forall i :: 0 <= i < |p.free| ==> p.free[i] < |p.refs|)
    && (forall k :: 0 <= k < |p.servers| ==> ServerShape(p.servers[k], |p.refs|))
    && (p.reader.Idle? || p.reader.b < |p.refs|)
    && (p.reader.Routing? ==> p.reader.i <= nodes)
  }

  predicate ServerShape(s: Server, bufs: nat)
  {
    (forall j :: 0 <= j < |s.queue| ==> s.queue[j] < bufs) && (s.out.Just? ==> s.out.b < bufs)
  }

  function FirstBufs(k: nat): (free: seq<nat>)
    ensures |free| == k && forall i :: 0 <= i < k ==> free[i] == i
  {
    if k == 0 then [] else FirstBufs(k - 1) + [k - 1]
  }

  function Init(nodes: nat): (p: Pool)
  {
    Pool(seq(STDIO_MAX_FREE_BUF, _ => 0), FirstBufs(STDIO_MAX_FREE_BUF), 0, [],
         seq(nodes, _ => Nothing), seq(nodes, _ => false), Idle, seq(STDIO_MAX_FREE_BUF, _ => 0))
  }

  // ---------------------------------------------------------------------------------------------
  // The steps.

  /** _incoming_buf_free: one more buffer if none is free and the count allows it. */
  function Refill(p: Pool): (p': Pool)
  {
    if p.free == [] && p.incomingCount < STDIO_MAX_FREE_BUF then
      p.(refs := p.refs + [0], absent := p.absent + [0], free := [|p.refs|], incomingCount := p.incomingCount + 1)
    else p
  }

  function Enqueue(p: Pool, k: nat, b: nat): (p': Pool)
    requires k < |p.servers|
  {
    p.(servers := p.servers[k := p.servers[k].(queue := p.servers[k].queue + [b])])
  }

  predicate AllReady(p: Pool)
  {
    forall n :: 0 <= n < |p.ready| ==> p.ready[n]
  }

  /** _server_writable, seen by the I/O thread when it is in no other handler. */
  predicate Writable(p: Pool, k: nat)
  {
    p.reader.Idle? && k < |p.servers| && !p.servers[k].outEof && !p.servers[k].shutdown
  }

  predicate Enabled(target: Target, p: Pool, e: Event)
  {
    match e
    case Attach(node) => p.reader.Idle? && node < |p.ioserver|
    case Announce(node) => node < |p.ioserver| && p.ioserver[node].Just?
    case Down(node) => node < |p.ioserver|
    case Probe => p.reader.Idle? && AllReady(p)
    case Take => p.reader.Idle? && AllReady(p)
    case Again => p.reader.Taken?
    case Got => p.reader.Taken? && (target.OneNode? ==> target.node < |p.ioserver| && p.ioserver[target.node].Just?)
    case Route => p.reader.Routing?
    case Start(k) => Writable(p, k) && p.servers[k].out.Nothing? && p.servers[k].queue != []
    case Sent(k) => Writable(p, k) && p.servers[k].out.Just?
    case Fail(k) => p.reader.Idle? && k < |p.servers|
    case Test(node) => node < |p.ioserver| && p.ioserver[node].Just?
  }

  function AttachNext(p: Pool, node: nat): (p': Pool)
    requires node < |p.ioserver|
  {
    p.(servers := p.servers + [Server([], Nothing, false, false)], ioserver := p.ioserver[node := Just(|p.servers|)])
  }

  function DownNext(p: Pool, node: nat): (p': Pool)
    requires node < |p.ioserver| == |p.ready| && (p.ioserver[node].Just? ==> p.ioserver[node].b < |p.servers|)
  {
    if p.ready[node] && p.ioserver[node].Just? then
      var k := p.ioserver[node].b;
      p.(servers := p.servers[k := p.servers[k].(shutdown := true)])
    else p.(ready := p.ready[node := true])
  }

  function TakeNext(p: Pool): (p': Pool)
    requires p.reader.Idle?
  {
    var q := Refill(p);
    if q.free == [] then q else q.(free := q.free[1..], reader := Taken(q.free[0]))
  }

  function RouteNext(p: Pool): (p': Pool)
    requires p.reader.Routing? && p.reader.b < |p.refs| == |p.absent| && p.reader.i <= |p.ioserver|
    requires forall n :: 0 <= n < |p.ioserver| && p.ioserver[n].Just? ==> p.ioserver[n].b < |p.servers|
  {
    var Routing(b, i) := p.reader;
    if i == |p.ioserver| then p.(reader := Idle)
    else
      var q := p.(refs := p.refs[b := p.refs[b] + 1], reader := Routing(b, i + 1));
      if p.ioserver[i].Just? then Enqueue(q, p.ioserver[i].b, b) else q.(absent := q.absent[b := q.absent[b] + 1])
  }

  function GotNext(target: Target, p: Pool): (p': Pool)
    requires p.reader.Taken? && p.reader.b < |p.refs| == |p.absent|
    requires target.OneNode? ==>
               target.node < |p.ioserver| && p.ioserver[target.node].Just? && p.ioserver[target.node].b < |p.servers|
  {
    var b := p.reader.b;
    match target
    case AllNodes => p.(refs := p.refs[b := 0], reader := Routing(b, 0))
    case OneNode(n) => Enqueue(p.(refs := p.refs[b := 1], reader := Idle), p.ioserver[n].b, b)
    case NoNode => p.(refs := p.refs[b := 1], reader := Idle, absent := p.absent[b := p.absent[b] + 1])
  }

  function StartNext(p: Pool, k: nat): (p': Pool)
    requires k < |p.servers| && p.servers[k].queue != []
  {
    var s := p.servers[k];
    p.(servers := p.servers[k := s.(queue := s.queue[1..], out := Just(s.queue[0]))])
  }

  function SentNext(p: Pool, k: nat): (p': Pool)
    requires k < |p.servers| && p.servers[k].out.Just? && p.servers[k].out.b < |p.refs|
  {
    var b := p.servers[k].out.b;
    var q := p.(refs := p.refs[b := p.refs[b] - 1], servers := p.servers[k := p.servers[k].(out := Nothing)]);
    if q.refs[b] == 0 then q.(free := q.free + [b]) else q
  }

  function TestNext(p: Pool, node: nat): (p': Pool)
    requires node < |p.ioserver| && p.ioserver[node].Just? && p.ioserver[node].b < |p.servers|
    requires forall i :: 0 <= i < |p.free| ==> p.free[i] < |p.refs|
  {
    var k := p.ioserver[node].b;
    if p.servers[k].outEof then p
    else
      var q := Refill(p);
      if q.free == [] then q
      else
        var b := q.free[0];
        Enqueue(q.(free := q.free[1..], refs := q.refs[b := 1]), k, b)
  }

  function Next(nodes: nat, target: Target, p: Pool, e: Event): (p': Pool)
    requires Shape(nodes, p) && Enabled(target, p, e)
  {
    match e
    case Attach(node) => AttachNext(p, node)
    case Announce(node) => p.(ready := p.ready[node := true])
    case Down(node) => DownNext(p, node)
    case Probe => Refill(p)
    case Take => TakeNext(p)
    case Again => p.(free := p.free + [p.reader.b], reader := Idle)
    case Got => GotNext(target, p)
    case Route => RouteNext(p)
    case Start(k) => StartNext(p, k)
    case Sent(k) => SentNext(p, k)
    case Fail(k) => p.(servers := p.servers[k := p.servers[k].(outEof := true)])
    case Test(node) => TestNext(p, node)
  }

  // ---------------------------------------------------------------------------------------------
  // Who holds a buffer.

  function Count(q: seq<nat>, b: nat): (n: nat)
  {
    if q == [] then 0 else (if q[0] == b then 1 else 0) + Count(q[1..], b)
  }

  function HeldBy(s: Server, b: nat): (n: nat)
  {
    Count(s.queue, b) + if s.out == Just(b) then 1 else 0
  }

  /** How many times b is queued or being sent. */
  function Held(servers: seq<Server>, b: nat): (n: nat)
  {
    if servers == [] then 0 else HeldBy(servers[0], b) + Held(servers[1..], b)
  }

  lemma {:induction false} CountSnoc(q: seq<nat>, x: nat, b: nat)
    ensures Count(q + [x], b) == Count(q, b) + if x == b then 1 else 0
  {
    if q != [] {
      assert (q + [x])[1..] == q[1..] + [x];
      CountSnoc(q[1..], x, b);
    }
  }

  lemma {:induction false} CountIn(q: seq<nat>, b: nat)
    ensures b in q <==> Count(q, b) > 0
  {
    if q != [] {
      CountIn(q[1..], b);
      assert q == [q[0]] + q[1..];
    }
  }

  lemma {:induction false} HeldUpdate(servers: seq<Server>, k: nat, s: Server, b: nat)
    requires k < |servers|
    ensures Held(servers[k := s], b) == Held(servers, b) - HeldBy(servers[k], b) + HeldBy(s, b)
    ensures HeldBy(servers[k], b) <= Held(servers, b)
  {
    if k == 0 {
      assert servers[0 := s][1..] == servers[1..];
    } else {
      assert servers[k := s][1..] == servers[1..][k - 1 := s];
      HeldUpdate(servers[1..], k - 1, s, b);
    }
  }

  lemma {:induction false} HeldSnoc(servers: seq<Server>, s: Server, b: nat)
    ensures Held(servers + [s], b) == Held(servers, b) + HeldBy(s, b)
  {
    if servers != [] {
      assert (servers + [s])[1..] == servers[1..] + [s];
      HeldSnoc(servers[1..], s, b);
    }
  }

  // ---------------------------------------------------------------------------------------------
  // The invariant, buffer by buffer.

  predicate InHand(p: Pool, b: nat)
  {
    !p.reader.Idle? && p.reader.b == b
  }

  /** refs counts the holders and the absent nodes; a buffer is on the free list, or in hand, or counted. */
  predicate BufOk(nodes: nat, p: Pool, b: nat)
    requires Shape(nodes, p) && b < |p.refs|
  {
    && p.refs[b] == Held(p.servers, b) + p.absent[b]
    && Count(p.free, b) <= 1
    && (Count(p.free, b) == 1 ==> p.refs[b] == 0 && !InHand(p, b))
    && (p.reader == Taken(b) ==> p.refs[b] == 0)
    && (p.reader.Routing? && p.reader.b == b ==> p.refs[b] == p.reader.i)
    && (Count(p.free, b) == 0 && !InHand(p, b) && nodes > 0 ==> p.refs[b] > 0)
  }

  predicate Inv(nodes: nat, p: Pool)
  {
    && Shape(nodes, p)
    && |p.refs| == STDIO_MAX_FREE_BUF + p.incomingCount && p.incomingCount <= STDIO_MAX_FREE_BUF
    && (forall b :: 0 <= b < |p.refs| ==> BufOk(nodes, p, b))
  }
}
