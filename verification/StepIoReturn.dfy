// Which stdin buffers can still come back to the free list (src/api/step_io.c): those that were counted for
// no missing node, and that no closed connection holds.
module StepIoReturn {
  import opened StepIoPool
  import opened StepIoProofs

  /** _server_writable refuses the connection from now on, so its queue is never emptied. */
  predicate Closed(s: Server)
  {
    s.outEof || s.shutdown
  }

  predicate HeldAt(p: Pool, b: nat, k: nat)
  {
    k < |p.servers| && (b in p.servers[k].queue || p.servers[k].out == Just(b))
  }

  /** The reader has still to queue b to connection k. */
  predicate DueAt(p: Pool, b: nat, k: nat)
  {
    p.reader.Routing? && p.reader.b == b && exists n :: p.reader.i <= n < |p.ioserver| && p.ioserver[n] == Just(k)
  }

  predicate CaughtAt(p: Pool, b: nat, k: nat)
  {
    k < |p.servers| && Closed(p.servers[k]) && (HeldAt(p, b, k) || DueAt(p, b, k))
  }

  /** A closed connection holds b, or will. */
  ghost predicate Caught(p: Pool, b: nat)
  {
    exists k :: CaughtAt(p, b, k)
  }

  /** b was counted for a missing node, or will be. */
  predicate Short(p: Pool, b: nat)
    requires b < |p.absent|
  {
    || p.absent[b] > 0
    || (p.reader.Routing? && p.reader.b == b
        && exists n :: p.reader.i <= n < |p.ioserver| && p.ioserver[n].Nothing?)
  }

  ghost predicate Doomed(nodes: nat, p: Pool, b: nat)
  {
    Shape(nodes, p) && b < |p.refs| && (Short(p, b) || Caught(p, b))
  }

  // ---------------------------------------------------------------------------------------------
  // No step brings a doomed buffer back.

  lemma RouteCaught(nodes: nat, p: Pool, b: nat, k: nat)
    requires Inv(nodes, p) && p.reader.Routing? && CaughtAt(p, b, k)
    ensures CaughtAt(RouteNext(p), b, k)
  {
    var q := RouteNext(p);
    if !HeldAt(p, b, k) {
      var n :| p.reader.i <= n < |p.ioserver| && p.ioserver[n] == Just(k);
      if n > p.reader.i { assert q.ioserver[n] == Just(k); }
    }
  }

  lemma NextCaught(nodes: nat, target: Target, p: Pool, e: Event, b: nat, k: nat)
    requires Inv(nodes, p) && Enabled(target, p, e) && CaughtAt(p, b, k)
    ensures CaughtAt(Next(nodes, target, p, e), b, k)
  {
    if e.Route? {
      RouteCaught(nodes, p, b, k);
    } else if DueAt(p, b, k) {
      var n :| p.reader.i <= n < |p.ioserver| && p.ioserver[n] == Just(k);
      assert Next(nodes, target, p, e).ioserver[n] == Just(k);
    }
  }

  lemma NextShort(nodes: nat, target: Target, p: Pool, e: Event, b: nat)
    requires Inv(nodes, p) && Enabled(target, p, e) && b < |p.refs| && Short(p, b)
    ensures b < |Next(nodes, target, p, e).absent| && Short(Next(nodes, target, p, e), b)
  {
    assert BufOk(nodes, p, b);
    if p.absent[b] == 0 {
      var n :| p.reader.i <= n < |p.ioserver| && p.ioserver[n].Nothing?;
      assert Next(nodes, target, p, e).ioserver[n].Nothing?;
    }
  }

  lemma DoomedIsNotFree(nodes: nat, p: Pool, b: nat)
    requires Inv(nodes, p) && Doomed(nodes, p, b)
    ensures b !in p.free
  {
    CountIn(p.free, b);
    HeldMeaning(p.servers, b);
    assert BufOk(nodes, p, b);
    if Caught(p, b) {
      var k :| CaughtAt(p, b, k);
      assert HeldAt(p, b, k) || InHand(p, b);
    }
  }

  lemma NextDoomed(nodes: nat, target: Target, p: Pool, e: Event, b: nat)
    requires Inv(nodes, p) && Enabled(target, p, e) && Doomed(nodes, p, b)
    ensures Doomed(nodes, Next(nodes, target, p, e), b)
  {
    NextInv(nodes, target, p, e);
    if Short(p, b) {
      NextShort(nodes, target, p, e, b);
    } else {
      var k :| CaughtAt(p, b, k);
      NextCaught(nodes, target, p, e, b, k);
    }
  }

  lemma {:induction false} DoomedForGood(nodes: nat, target: Target, es: seq<Event>, k: nat, b: nat)
    requires IsRun(nodes, target, es) && k <= |es|
    requires IsRun(nodes, target, es[..k]) && Doomed(nodes, After(nodes, target, es[..k]), b)
    ensures Doomed(nodes, After(nodes, target, es), b)
  {
    if k == |es| {
      assert es[..k] == es;
    } else {
      var before := es[..|es| - 1];
      assert before[..k] == es[..k];
      DoomedForGood(nodes, target, before, k, b);
      RunInv(nodes, target, before);
      NextDoomed(nodes, target, After(nodes, target, before), es[|es| - 1], b);
    }
  }

  /** Connection k is closed, and has b in its queue or in its hand. */
  predicate KeptAt(p: Pool, b: nat, k: nat)
  {
    HeldAt(p, b, k) && Closed(p.servers[k])
  }

  lemma NextKept(nodes: nat, target: Target, p: Pool, e: Event, b: nat, k: nat)
    requires Shape(nodes, p) && Enabled(target, p, e) && KeptAt(p, b, k)
    ensures KeptAt(Next(nodes, target, p, e), b, k)
  {
  }

  lemma KeptIsNotFree(nodes: nat, p: Pool, b: nat, k: nat)
    requires Inv(nodes, p) && KeptAt(p, b, k)
    ensures b !in p.free
  {
    assert ServerShape(p.servers[k], |p.refs|) && CaughtAt(p, b, k);
    DoomedIsNotFree(nodes, p, b);
  }

  lemma {:induction false} KeptRun(nodes: nat, target: Target, es: seq<Event>, k: nat, b: nat, x: nat)
    requires IsRun(nodes, target, es) && k <= |es| && IsRun(nodes, target, es[..k])
    requires KeptAt(After(nodes, target, es[..k]), b, x)
    ensures KeptAt(After(nodes, target, es), b, x)
  {
    if k == |es| {
      assert es[..k] == es;
    } else {
      var before := es[..|es| - 1];
      assert before[..k] == es[..k];
      KeptRun(nodes, target, before, k, b, x);
      NextKept(nodes, target, After(nodes, target, before), es[|es| - 1], b, x);
    }
  }

  /** In every run: what a closed connection holds stays with it, and is never free. */
  lemma ClosedConnectionKeeps(nodes: nat, target: Target, es: seq<Event>, k: nat, b: nat, x: nat)
    requires IsRun(nodes, target, es) && k <= |es| && IsRun(nodes, target, es[..k])
    requires KeptAt(After(nodes, target, es[..k]), b, x)
    ensures KeptAt(After(nodes, target, es), b, x) && b !in After(nodes, target, es).free
  {
    KeptRun(nodes, target, es, k, b, x);
    RunInv(nodes, target, es);
    KeptIsNotFree(nodes, After(nodes, target, es), b, x);
  }

  lemma TakenWithServer() returns (es: seq<Event>)
    ensures es == [Attach(0), Announce(0), Take] && IsRun(1, AllNodes, es)
    ensures After(1, AllNodes, es).reader == Taken(0) && After(1, AllNodes, es).ioserver == [Just(0)]
    ensures After(1, AllNodes, es).servers == [Server([], Nothing, false, false)]
    ensures Shape(1, After(1, AllNodes, es)) && After(1, AllNodes, es).absent == Init(1).absent
  {
    es := [];
    InitInv(1);
    es := Extend(1, AllNodes, es, Attach(0));
    es := Extend(1, AllNodes, es, Announce(0));
    es := Extend(1, AllNodes, es, Take);
  }

  lemma QueuedWithServer() returns (es: seq<Event>)
    ensures es == [Attach(0), Announce(0), Take, Got, Route, Route] && IsRun(1, AllNodes, es)
    ensures After(1, AllNodes, es).reader.Idle? && After(1, AllNodes, es).absent == Init(1).absent
    ensures After(1, AllNodes, es).servers == [Server([0], Nothing, false, false)]
    ensures Shape(1, After(1, AllNodes, es))
  {
    es := TakenWithServer();
    es := Extend(1, AllNodes, es, Got);
    var s := After(1, AllNodes, es).servers[0];
    assert s.queue + [0] == [0];
    es := Extend(1, AllNodes, es, Route);
    es := Extend(1, AllNodes, es, Route);
  }

  /** Every node has its I/O server when input arrives, and then the connection breaks. */
  lemma ConnectionCanKeep() returns (es: seq<Event>)
    ensures es == [Attach(0), Announce(0), Take, Got, Route, Route, Fail(0)] && IsRun(1, AllNodes, es)
    ensures KeptAt(After(1, AllNodes, es), 0, 0) && LastReached(1, AllNodes, es, 0)
  {
    es := QueuedWithServer();
    es := Extend(1, AllNodes, es, Fail(0));
    RunAccounted(1, AllNodes, es, 0);
  }

  // ---------------------------------------------------------------------------------------------
  // All others can come back.

  lemma RouteNotDoomed(nodes: nat, p: Pool, b: nat)
    requires Inv(nodes, p) && p.reader.Routing? && b < |p.refs| && !Doomed(nodes, p, b)
    ensures b < |RouteNext(p).refs| && !Doomed(nodes, RouteNext(p), b)
  {
    var q, i := RouteNext(p), p.reader.i;
    if p.reader.b == b && i < nodes { assert p.ioserver[i].Just?; }
    if Doomed(nodes, q, b) {
      if Short(q, b) {
        assert Short(p, b);
      } else {
        var k :| CaughtAt(q, b, k);
        assert p.reader.b == b && i < nodes && p.ioserver[i] == Just(k) ==> DueAt(p, b, k);
        assert CaughtAt(p, b, k);
      }
    }
  }

  /** The reader finishes with what it has in hand. */
  lemma {:induction false} FinishRouting(nodes: nat, target: Target, es: seq<Event>, b: nat) returns (es': seq<Event>)
    requires IsRun(nodes, target, es) && After(nodes, target, es).reader.Routing?
    requires b < |After(nodes, target, es).refs| && !Doomed(nodes, After(nodes, target, es), b)
    ensures es <= es' && IsRun(nodes, target, es') && After(nodes, target, es').reader.Idle?
    ensures b < |After(nodes, target, es').refs| && !Doomed(nodes, After(nodes, target, es'), b)
    decreases nodes - After(nodes, target, es).reader.i
  {
    RunInv(nodes, target, es);
    var p := After(nodes, target, es);
    RouteNotDoomed(nodes, p, b);
    es' := Extend(nodes, target, es, Route);
    if p.reader.i < nodes {
      es' := FinishRouting(nodes, target, es', b);
    }
  }

  lemma FinishReader(nodes: nat, target: Target, es: seq<Event>, b: nat) returns (es': seq<Event>)
    requires IsRun(nodes, target, es)
    requires b < |After(nodes, target, es).refs| && !Doomed(nodes, After(nodes, target, es), b)
    ensures es <= es' && IsRun(nodes, target, es') && After(nodes, target, es').reader.Idle?
    ensures b < |After(nodes, target, es').refs| && !Doomed(nodes, After(nodes, target, es'), b)
  {
    var p := After(nodes, target, es);
    match p.reader
    case Idle => es' := es;
    case Routing(_, _) => es' := FinishRouting(nodes, target, es, b);
    case Taken(_) =>
      RunInv(nodes, target, es);
      es' := Extend(nodes, target, es, Again);
      var q := After(nodes, target, es');
      assert forall k :: CaughtAt(q, b, k) ==> CaughtAt(p, b, k);
  }

  /** The steps it takes to send all that is queued. */
  function Load(s: Server): (n: nat)
  {
    2 * |s.queue| + if s.out.Just? then 1 else 0
  }

  function Loads(servers: seq<Server>): (n: nat)
  {
    if servers == [] then 0 else Load(servers[0]) + Loads(servers[1..])
  }

  lemma {:induction false} LoadsUpdate(servers: seq<Server>, k: nat, s: Server)
    requires k < |servers|
    ensures Loads(servers[k := s]) + Load(servers[k]) == Loads(servers) + Load(s)
  {
    if k == 0 {
      assert servers[0 := s][1..] == servers[1..];
    } else {
      assert servers[k := s][1..] == servers[1..][k - 1 := s];
      LoadsUpdate(servers[1..], k - 1, s);
    }
  }

  /** A connection that is open sends what it has. */
  lemma SendOne(nodes: nat, target: Target, p: Pool, b: nat, k: nat) returns (e: Event)
    requires Inv(nodes, p) && p.reader.Idle? && b < |p.refs| && !Doomed(nodes, p, b) && HeldAt(p, b, k)
    ensures Enabled(target, p, e)
    ensures
      var q := Next(nodes, target, p, e);
      q.reader.Idle? && b < |q.refs| && !Doomed(nodes, q, b) && Loads(q.servers) < Loads(p.servers)
  {
    assert !CaughtAt(p, b, k) && ServerShape(p.servers[k], |p.refs|);
    e := if p.servers[k].out.Just? then Sent(k) else Start(k);
    var q := Next(nodes, target, p, e);
    LoadsUpdate(p.servers, k, q.servers[k]);
    forall j | CaughtAt(q, b, j) ensures CaughtAt(p, b, j) {
    }
  }

  lemma NobodyHolds(nodes: nat, p: Pool, b: nat)
    requires Inv(nodes, p) && nodes > 0 && p.reader.Idle? && b < |p.refs| && !Doomed(nodes, p, b)
    requires forall k :: !HeldAt(p, b, k)
    ensures b in p.free
  {
    HeldMeaning(p.servers, b);
    forall k | 0 <= k < |p.servers| ensures !(b in p.servers[k].queue || p.servers[k].out == Just(b)) {
      assert !HeldAt(p, b, k);
    }
    assert BufOk(nodes, p, b);
    CountIn(p.free, b);
  }

  lemma {:induction false} SendAll(nodes: nat, target: Target, es: seq<Event>, b: nat) returns (es': seq<Event>)
    requires IsRun(nodes, target, es) && nodes > 0 && After(nodes, target, es).reader.Idle?
    requires b < |After(nodes, target, es).refs| && !Doomed(nodes, After(nodes, target, es), b)
    ensures es <= es' && IsRun(nodes, target, es') && b in After(nodes, target, es').free
    decreases Loads(After(nodes, target, es).servers)
  {
    RunInv(nodes, target, es);
    var p := After(nodes, target, es);
    if k: nat :| HeldAt(p, b, k) {
      var e := SendOne(nodes, target, p, b, k);
      var next := Extend(nodes, target, es, e);
      es' := SendAll(nodes, target, next, b);
    } else {
      NobodyHolds(nodes, p, b);
      es' := es;
    }
  }

  lemma BufferReturns(nodes: nat, target: Target, es: seq<Event>, b: nat) returns (es': seq<Event>)
    requires IsRun(nodes, target, es) && nodes > 0
    requires b < |After(nodes, target, es).refs| && !Doomed(nodes, After(nodes, target, es), b)
    ensures es <= es' && IsRun(nodes, target, es') && b in After(nodes, target, es').free
  {
    es' := FinishReader(nodes, target, es, b);
    es' := SendAll(nodes, target, es', b);
  }

  // ---------------------------------------------------------------------------------------------
  // The whole condition.

  ghost predicate FreeAfter(nodes: nat, target: Target, es: seq<Event>, es': seq<Event>, b: nat)
  {
    IsRun(nodes, target, es') && es <= es' && b in After(nodes, target, es').free
  }

  /** Some way to go on has b on the free list. */
  ghost predicate CanComeBack(nodes: nat, target: Target, es: seq<Event>, b: nat)
  {
    exists es' :: FreeAfter(nodes, target, es, es', b)
  }

  lemma DoomedIff(nodes: nat, target: Target, es: seq<Event>, b: nat)
    requires IsRun(nodes, target, es) && b < |After(nodes, target, es).refs|
    ensures
      var p := After(nodes, target, es);
      !Doomed(nodes, p, b) <==> LastReached(nodes, target, es, b) && !Caught(p, b)
  {
    RunAccounted(nodes, target, es, b);
  }

  /** In every run: a buffer can still come back if and only if stdin had a valid destination with every node
      connected when the buffer was last filled, and no closed connection holds it or is about to. */
  lemma ComesBackIff(nodes: nat, target: Target, es: seq<Event>, b: nat)
    requires IsRun(nodes, target, es) && nodes > 0 && b < |After(nodes, target, es).refs|
    ensures CanComeBack(nodes, target, es, b) <==>
            LastReached(nodes, target, es, b) && !Caught(After(nodes, target, es), b)
  {
    DoomedIff(nodes, target, es, b);
    if Doomed(nodes, After(nodes, target, es), b) {
      forall es' | IsRun(nodes, target, es') && es <= es' ensures b !in After(nodes, target, es').free {
        assert es'[..|es|] == es;
        DoomedForGood(nodes, target, es', |es|, b);
        RunInv(nodes, target, es');
        DoomedIsNotFree(nodes, After(nodes, target, es'), b);
      }
    } else {
      var es' := BufferReturns(nodes, target, es, b);
      assert FreeAfter(nodes, target, es, es', b);
    }
  }
}
