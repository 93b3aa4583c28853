// What every step of the stdin pool keeps (src/api/step_io.c).
module StepIoProofs {
  import opened StepIoPool

  lemma {:induction false} CountFresh(q: seq<nat>, b: nat)
    requires forall i :: 0 <= i < |q| ==> q[i] < b
    ensures Count(q, b) == 0
  {
    if q != [] { CountFresh(q[1..], b); }
  }

  lemma {:induction false} HeldFresh(servers: seq<Server>, b: nat)
    requires forall k :: 0 <= k < |servers| ==> ServerShape(servers[k], b)
    ensures Held(servers, b) == 0
  {
    if servers != [] {
      CountFresh(servers[0].queue, b);
      HeldFresh(servers[1..], b);
    }
  }

  lemma {:induction false} CountFirst(k: nat, b: nat)
    ensures Count(FirstBufs(k), b) == if b < k then 1 else 0
  {
    if k > 0 {
      CountFirst(k - 1, b);
      CountSnoc(FirstBufs(k - 1), k - 1, b);
    }
  }

  lemma InitInv(nodes: nat)
    ensures Inv(nodes, Init(nodes))
  {
    var p := Init(nodes);
    forall b | 0 <= b < |p.refs| ensures BufOk(nodes, p, b) {
      CountFirst(STDIO_MAX_FREE_BUF, b);
    }
  }

  lemma RefillInv(nodes: nat, p: Pool)
    requires Inv(nodes, p)
    ensures Inv(nodes, Refill(p)) && Refill(p).reader == p.reader && Refill(p).servers == p.servers
  {
    var q := Refill(p);
    if p.free == [] && p.incomingCount < STDIO_MAX_FREE_BUF {
      forall k | 0 <= k < |q.servers| ensures ServerShape(q.servers[k], |q.refs|) {
        assert ServerShape(p.servers[k], |p.refs|);
      }
      HeldFresh(p.servers, |p.refs|);
      forall b | 0 <= b < |q.refs| ensures BufOk(nodes, q, b) {
        if b < |p.refs| { assert BufOk(nodes, p, b); }
      }
    }
  }

  lemma AttachInv(nodes: nat, p: Pool, node: nat)
    requires Inv(nodes, p) && node < nodes
    ensures Inv(nodes, AttachNext(p, node))
  {
    var q := AttachNext(p, node);
    forall b | 0 <= b < |q.refs| ensures BufOk(nodes, q, b) {
      assert BufOk(nodes, p, b);
      HeldSnoc(p.servers, Server([], Nothing, false, false), b);
    }
  }

  /** A connection changes its flags only. */
  lemma FlagsInv(nodes: nat, p: Pool, k: nat, s: Server)
    requires Inv(nodes, p) && k < |p.servers| && s.queue == p.servers[k].queue && s.out == p.servers[k].out
    ensures Inv(nodes, p.(servers := p.servers[k := s]))
  {
    var q := p.(servers := p.servers[k := s]);
    assert ServerShape(p.servers[k], |p.refs|);
    forall b | 0 <= b < |q.refs| ensures BufOk(nodes, q, b) {
      assert BufOk(nodes, p, b);
      HeldUpdate(p.servers, k, s, b);
    }
  }

  lemma ReadyInv(nodes: nat, p: Pool, node: nat)
    requires Inv(nodes, p) && node < nodes
    ensures Inv(nodes, p.(ready := p.ready[node := true]))
  {
    var q := p.(ready := p.ready[node := true]);
    forall b | 0 <= b < |q.refs| ensures BufOk(nodes, q, b) { assert BufOk(nodes, p, b); }
  }

  lemma TakeInv(nodes: nat, p: Pool)
    requires Inv(nodes, p) && p.reader.Idle?
    ensures Inv(nodes, TakeNext(p))
  {
    RefillInv(nodes, p);
    var q, r := Refill(p), TakeNext(p);
    if q.free != [] {
      forall b | 0 <= b < |r.refs| ensures BufOk(nodes, r, b) { assert BufOk(nodes, q, b); }
    }
  }

  lemma AgainInv(nodes: nat, p: Pool)
    requires Inv(nodes, p) && p.reader.Taken?
    ensures Inv(nodes, p.(free := p.free + [p.reader.b], reader := Idle))
  {
    var q := p.(free := p.free + [p.reader.b], reader := Idle);
    forall b | 0 <= b < |q.refs| ensures BufOk(nodes, q, b) {
      assert BufOk(nodes, p, b);
      CountSnoc(p.free, p.reader.b, b);
    }
  }

  lemma EnqueueHeld(p: Pool, k: nat, x: nat, b: nat)
    requires k < |p.servers|
    ensures Held(Enqueue(p, k, x).servers, b) == Held(p.servers, b) + if x == b then 1 else 0
  {
    HeldUpdate(p.servers, k, p.servers[k].(queue := p.servers[k].queue + [x]), b);
    CountSnoc(p.servers[k].queue, x, b);
  }

  lemma EnqueueShape(nodes: nat, p: Pool, k: nat, x: nat)
    requires Shape(nodes, p) && k < |p.servers| && x < |p.refs|
    ensures Shape(nodes, Enqueue(p, k, x))
  {
    assert ServerShape(p.servers[k], |p.refs|);
  }

  lemma GotInv(nodes: nat, target: Target, p: Pool)
    requires Inv(nodes, p) && Enabled(target, p, Got)
    ensures Inv(nodes, GotNext(target, p))
  {
    var x, q := p.reader.b, GotNext(target, p);
    if target.OneNode? {
      EnqueueShape(nodes, p.(refs := p.refs[x := 1], reader := Idle), p.ioserver[target.node].b, x);
    }
    forall b | 0 <= b < |q.refs| ensures BufOk(nodes, q, b) {
      assert BufOk(nodes, p, b);
      if target.OneNode? { EnqueueHeld(p.(refs := p.refs[x := 1], reader := Idle), p.ioserver[target.node].b, x, b); }
    }
  }

  lemma RouteInv(nodes: nat, p: Pool)
    requires Inv(nodes, p) && p.reader.Routing?
    ensures Inv(nodes, RouteNext(p))
  {
    var Routing(x, i) := p.reader;
    var q := p.(refs := p.refs[x := p.refs[x] + 1], reader := Routing(x, i + 1));
    var r := RouteNext(p);
    if i < nodes && p.ioserver[i].Just? { EnqueueShape(nodes, q, p.ioserver[i].b, x); }
    forall b | 0 <= b < |r.refs| ensures BufOk(nodes, r, b) {
      assert BufOk(nodes, p, b);
      if i < nodes && p.ioserver[i].Just? { EnqueueHeld(q, p.ioserver[i].b, x, b); }
    }
  }

  lemma StartInv(nodes: nat, p: Pool, k: nat)
    requires Inv(nodes, p) && k < |p.servers| && p.servers[k].out.Nothing? && p.servers[k].queue != []
    ensures Inv(nodes, StartNext(p, k))
  {
    var q := StartNext(p, k);
    assert ServerShape(p.servers[k], |p.refs|);
    forall b | 0 <= b < |q.refs| ensures BufOk(nodes, q, b) {
      assert BufOk(nodes, p, b);
      HeldUpdate(p.servers, k, q.servers[k], b);
    }
  }

  lemma SentInv(nodes: nat, p: Pool, k: nat)
    requires Inv(nodes, p) && p.reader.Idle? && k < |p.servers| && p.servers[k].out.Just?
    requires p.servers[k].out.b < |p.refs|
    ensures Inv(nodes, SentNext(p, k))
  {
    var x, q := p.servers[k].out.b, SentNext(p, k);
    assert ServerShape(p.servers[k], |p.refs|) && BufOk(nodes, p, x);
    forall b | 0 <= b < |q.refs| ensures BufOk(nodes, q, b) {
      assert BufOk(nodes, p, b);
      HeldUpdate(p.servers, k, q.servers[k], b);
      CountSnoc(p.free, x, b);
    }
  }

  lemma TestInv(nodes: nat, p: Pool, node: nat)
    requires Inv(nodes, p) && node < nodes && p.ioserver[node].Just?
    ensures Inv(nodes, TestNext(p, node))
  {
    RefillInv(nodes, p);
    var k, q, r := p.ioserver[node].b, Refill(p), TestNext(p, node);
    if !p.servers[k].outEof && q.free != [] {
      var x := q.free[0];
      var q' := q.(free := q.free[1..], refs := q.refs[x := 1]);
      EnqueueShape(nodes, q', k, x);
      forall b | 0 <= b < |r.refs| ensures BufOk(nodes, r, b) {
        assert BufOk(nodes, q, b);
        EnqueueHeld(q', k, x, b);
      }
    }
  }

  lemma NextInv(nodes: nat, target: Target, p: Pool, e: Event)
    requires Inv(nodes, p) && Enabled(target, p, e)
    ensures Inv(nodes, Next(nodes, target, p, e))
  {
    match e
    case Attach(node) => AttachInv(nodes, p, node);
    case Announce(node) => ReadyInv(nodes, p, node);
    case Down(node) =>
      if p.ready[node] && p.ioserver[node].Just? {
        var k := p.ioserver[node].b;
        FlagsInv(nodes, p, k, p.servers[k].(shutdown := true));
      } else {
        ReadyInv(nodes, p, node);
      }
    case Probe => RefillInv(nodes, p);
    case Take => TakeInv(nodes, p);
    case Again => AgainInv(nodes, p);
    case Got => GotInv(nodes, target, p);
    case Route => RouteInv(nodes, p);
    case Start(k) => StartInv(nodes, p, k);
    case Sent(k) =>
      assert ServerShape(p.servers[k], |p.refs|);
      SentInv(nodes, p, k);
    case Fail(k) => FlagsInv(nodes, p, k, p.servers[k].(outEof := true));
    case Test(node) => TestInv(nodes, p, node);
  }

  // ---------------------------------------------------------------------------------------------
  // Runs.

  ghost predicate IsRun(nodes: nat, target: Target, es: seq<Event>)
    decreases |es|, 0
  {
    es != [] ==>
      && IsRun(nodes, target, es[..|es| - 1])
      && Shape(nodes, After(nodes, target, es[..|es| - 1]))
      && Enabled(target, After(nodes, target, es[..|es| - 1]), es[|es| - 1])
  }

  ghost function After(nodes: nat, target: Target, es: seq<Event>): (p: Pool)
    requires IsRun(nodes, target, es)
    decreases |es|, 1
  {
    if es == [] then Init(nodes) else Next(nodes, target, After(nodes, target, es[..|es| - 1]), es[|es| - 1])
  }

  lemma {:induction false} RunInv(nodes: nat, target: Target, es: seq<Event>)
    requires IsRun(nodes, target, es)
    ensures Inv(nodes, After(nodes, target, es))
  {
    if es == [] {
      InitInv(nodes);
    } else {
      RunInv(nodes, target, es[..|es| - 1]);
      NextInv(nodes, target, After(nodes, target, es[..|es| - 1]), es[|es| - 1]);
    }
  }

  /** Some connection has b in its queue or is sending it. */
  predicate IsHeld(p: Pool, b: nat)
  {
    exists k :: 0 <= k < |p.servers| && (b in p.servers[k].queue || p.servers[k].out == Just(b))
  }

  lemma {:induction false} HeldMeaning(servers: seq<Server>, b: nat)
    ensures Held(servers, b) > 0 <==>
            exists k :: 0 <= k < |servers| && (b in servers[k].queue || servers[k].out == Just(b))
  {
    if servers != [] {
      HeldMeaning(servers[1..], b);
      CountIn(servers[0].queue, b);
      if k :| 0 <= k < |servers[1..]| && (b in servers[1..][k].queue || servers[1..][k].out == Just(b)) {
        assert servers[k + 1] == servers[1..][k];
      }
      if k :| 0 <= k < |servers| && (b in servers[k].queue || servers[k].out == Just(b)) {
        if k > 0 { assert servers[1..][k - 1] == servers[k]; }
      }
    }
  }

  /** In every run, including those with connections missing, failing or made twice: a buffer on the free list
      is on it once, in no queue, not being sent and not in the reader's hand, and there are at most
      2 * STDIO_MAX_FREE_BUF buffers. */
  lemma FreeBuffersAreUnused(nodes: nat, target: Target, es: seq<Event>, b: nat)
    requires IsRun(nodes, target, es) && b in After(nodes, target, es).free
    ensures
      var p := After(nodes, target, es);
      && !IsHeld(p, b) && !InHand(p, b) && Count(p.free, b) == 1
      && |p.refs| <= 2 * STDIO_MAX_FREE_BUF
  {
    RunInv(nodes, target, es);
    var p := After(nodes, target, es);
    CountIn(p.free, b);
    HeldMeaning(p.servers, b);
    assert BufOk(nodes, p, b);
  }

  // ---------------------------------------------------------------------------------------------
  // Which buffers come back.

  /** Every node input is sent to has an I/O server: the test of _file_read, node by node. */
  predicate Reaches(target: Target, p: Pool)
  {
    !target.NoNode? && (target.AllNodes? ==> forall n :: 0 <= n < |p.ioserver| ==> p.ioserver[n].Just?)
  }

  /** When b was last filled with input, every node had its I/O server. */
  ghost predicate LastReached(nodes: nat, target: Target, es: seq<Event>, b: nat)
    requires IsRun(nodes, target, es)
  {
    es != [] ==>
      var p, e := After(nodes, target, es[..|es| - 1]), es[|es| - 1];
      if e.Got? && p.reader == Taken(b) then Reaches(target, p) else LastReached(nodes, target, es[..|es| - 1], b)
  }

  /** The nodes counted so far had their I/O servers. */
  predicate ReachedSoFar(p: Pool, i: nat)
  {
    forall n :: 0 <= n < i && n < |p.ioserver| ==> p.ioserver[n].Just?
  }

  /** What absent records about b; `whole` says whether all nodes could be reached when b was last filled. */
  predicate Accounted(target: Target, p: Pool, b: nat, whole: bool)
    requires |p.absent| == |p.refs|
  {
    if b >= |p.refs| then whole
    else if p.reader.Routing? && p.reader.b == b then
      (whole <==> Reaches(target, p)) && target.AllNodes? && (p.absent[b] == 0 <==> ReachedSoFar(p, p.reader.i))
    else whole <==> p.absent[b] == 0
  }

  lemma GotAccounted(nodes: nat, target: Target, p: Pool, b: nat, whole: bool)
    requires Inv(nodes, p) && Enabled(target, p, Got) && Accounted(target, p, b, whole)
    ensures Accounted(target, GotNext(target, p), b, if p.reader == Taken(b) then Reaches(target, p) else whole)
  {
    if b < |p.refs| { assert BufOk(nodes, p, b); }
  }

  lemma RouteAccounted(nodes: nat, target: Target, p: Pool, b: nat, whole: bool)
    requires Inv(nodes, p) && p.reader.Routing? && Accounted(target, p, b, whole)
    ensures |RouteNext(p).absent| == |RouteNext(p).refs| && Accounted(target, RouteNext(p), b, whole)
  {
    var q := RouteNext(p);
    if p.reader.b == b && p.reader.i < nodes {
      assert ReachedSoFar(q, p.reader.i + 1) <==> ReachedSoFar(p, p.reader.i) && p.ioserver[p.reader.i].Just?;
    }
  }

  lemma TestAccounted(nodes: nat, target: Target, p: Pool, node: nat, b: nat, whole: bool)
    requires Inv(nodes, p) && Enabled(target, p, Test(node)) && Accounted(target, p, b, whole)
    ensures |TestNext(p, node).absent| == |TestNext(p, node).refs| && Accounted(target, TestNext(p, node), b, whole)
  {
  }

  lemma NextAccounted(nodes: nat, target: Target, p: Pool, e: Event, b: nat, whole: bool)
    requires Inv(nodes, p) && Enabled(target, p, e) && Accounted(target, p, b, whole)
    ensures
      var q := Next(nodes, target, p, e);
      && |q.absent| == |q.refs|
      && Accounted(target, q, b, if e.Got? && p.reader == Taken(b) then Reaches(target, p) else whole)
  {
    match e
    case Got => GotAccounted(nodes, target, p, b, whole);
    case Route => RouteAccounted(nodes, target, p, b, whole);
    case Test(node) => TestAccounted(nodes, target, p, node, b, whole);
    case _ =>
  }

  lemma {:induction false} RunAccounted(nodes: nat, target: Target, es: seq<Event>, b: nat)
    requires IsRun(nodes, target, es)
    ensures Inv(nodes, After(nodes, target, es))
    ensures Accounted(target, After(nodes, target, es), b, LastReached(nodes, target, es, b))
  {
    RunInv(nodes, target, es);
    if es != [] {
      var before := es[..|es| - 1];
      RunAccounted(nodes, target, before, b);
      var last := LastReached(nodes, target, before, b);
      NextAccounted(nodes, target, After(nodes, target, before), es[|es| - 1], b, last);
    }
  }

  /** Nobody has b: no connection and not the reader. */
  predicate IsIdle(p: Pool, b: nat)
  {
    b < |p.refs| && !IsHeld(p, b) && !InHand(p, b)
  }

  /** A buffer nobody has is on the free list if and only if every node had its I/O server when the buffer was
      last filled with input: those counted for a missing node are lost. */
  lemma UnusedBuffersAreFree(nodes: nat, target: Target, es: seq<Event>, b: nat)
    requires IsRun(nodes, target, es) && nodes > 0 && IsIdle(After(nodes, target, es), b)
    ensures b in After(nodes, target, es).free <==> LastReached(nodes, target, es, b)
  {
    RunAccounted(nodes, target, es, b);
    var p := After(nodes, target, es);
    CountIn(p.free, b);
    HeldMeaning(p.servers, b);
    assert BufOk(nodes, p, b);
  }

  predicate IsLost(p: Pool, b: nat)
  {
    IsIdle(p, b) && b !in p.free
  }

  /** No step touches a lost buffer. */
  lemma LostIsUntouched(nodes: nat, target: Target, p: Pool, e: Event, b: nat)
    requires Inv(nodes, p) && nodes > 0 && Enabled(target, p, e) && IsLost(p, b)
    ensures
      var q := Next(nodes, target, p, e);
      && Shape(nodes, q) && b < |q.refs| && q.refs[b] == p.refs[b] && q.absent[b] == p.absent[b] && !InHand(q, b)
      && p.refs[b] == p.absent[b] > 0
  {
    NextInv(nodes, target, p, e);
    HeldMeaning(p.servers, b);
    CountIn(p.free, b);
    assert BufOk(nodes, p, b);
  }

  lemma NextLost(nodes: nat, target: Target, p: Pool, e: Event, b: nat)
    requires Inv(nodes, p) && nodes > 0 && Enabled(target, p, e) && IsLost(p, b)
    ensures IsLost(Next(nodes, target, p, e), b)
  {
    var q := Next(nodes, target, p, e);
    NextInv(nodes, target, p, e);
    LostIsUntouched(nodes, target, p, e, b);
    assert BufOk(nodes, q, b);
    HeldMeaning(q.servers, b);
    CountIn(q.free, b);
  }

  /** In every run: a buffer that is lost at some point is never seen again. */
  lemma {:induction false} LostForGood(nodes: nat, target: Target, es: seq<Event>, k: nat, b: nat)
    requires IsRun(nodes, target, es) && nodes > 0 && k <= |es|
    requires IsRun(nodes, target, es[..k]) && IsLost(After(nodes, target, es[..k]), b)
    ensures IsLost(After(nodes, target, es), b)
  {
    if k == |es| {
      assert es[..k] == es;
    } else {
      var before := es[..|es| - 1];
      assert before[..k] == es[..k];
      LostForGood(nodes, target, before, k, b);
      RunInv(nodes, target, before);
      NextLost(nodes, target, After(nodes, target, before), es[|es| - 1], b);
    }
  }

  /** One more event at the end of a run. */
  lemma Extend(nodes: nat, target: Target, es: seq<Event>, e: Event) returns (es': seq<Event>)
    requires IsRun(nodes, target, es)
    requires Shape(nodes, After(nodes, target, es)) && Enabled(target, After(nodes, target, es), e)
    ensures es' == es + [e] && IsRun(nodes, target, es')
    ensures After(nodes, target, es') == Next(nodes, target, After(nodes, target, es), e)
    ensures Inv(nodes, After(nodes, target, es'))
  {
    es' := es + [e];
    assert es'[..|es|] == es;
    RunInv(nodes, target, es');
  }

  lemma TakenWhileDown() returns (es: seq<Event>)
    ensures es == [Down(0), Take] && IsRun(1, AllNodes, es) && Inv(1, After(1, AllNodes, es))
    ensures
      var p := After(1, AllNodes, es);
      p.reader == Taken(0) && p.ioserver == [Nothing] && p.servers == []
  {
    RunInv(1, AllNodes, []);
    es := Extend(1, AllNodes, [], Down(0));
    es := Extend(1, AllNodes, es, Take);
  }

  /** The only node is reported down before it has connected, and input for all nodes arrives. */
  lemma BufferCanBeLost() returns (es: seq<Event>)
    ensures es == [Down(0), Take, Got, Route, Route] && IsRun(1, AllNodes, es) && IsLost(After(1, AllNodes, es), 0)
  {
    es := TakenWhileDown();
    es := Extend(1, AllNodes, es, Got);
    es := Extend(1, AllNodes, es, Route);
    es := Extend(1, AllNodes, es, Route);
    var p := After(1, AllNodes, es);
    assert p.servers == [] && p.refs[0] == 1 && BufOk(1, p, 0);
    CountIn(p.free, 0);
  }

  // ---------------------------------------------------------------------------------------------
  // With every connection in place.

  /** No node is reported down before it has connected, and input goes to a valid node. */
  predicate Connected(target: Target, p: Pool, e: Event)
  {
    (e.Down? ==> e.node < |p.ioserver| && p.ioserver[e.node].Just?) && !target.NoNode?
  }

  ghost predicate AllConnected(nodes: nat, target: Target, es: seq<Event>)
    requires IsRun(nodes, target, es)
  {
    es != [] ==>
      && AllConnected(nodes, target, es[..|es| - 1])
      && Connected(target, After(nodes, target, es[..|es| - 1]), es[|es| - 1])
  }

  predicate NoneAbsent(nodes: nat, p: Pool)
    requires Shape(nodes, p)
  {
    && (forall n :: 0 <= n < nodes && p.ready[n] ==> p.ioserver[n].Just?)
    && (!p.reader.Idle? ==> forall n :: 0 <= n < nodes ==> p.ioserver[n].Just?)
    && (forall b :: 0 <= b < |p.absent| ==> p.absent[b] == 0)
  }

  lemma NextNoneAbsent(nodes: nat, target: Target, p: Pool, e: Event)
    requires Inv(nodes, p) && Enabled(target, p, e) && Connected(target, p, e) && NoneAbsent(nodes, p)
    ensures Shape(nodes, Next(nodes, target, p, e)) && NoneAbsent(nodes, Next(nodes, target, p, e))
  {
    NextInv(nodes, target, p, e);
  }

  /** Then ref_count is the number of holders, in every state. */
  lemma {:induction false} RefCountIsHolders(nodes: nat, target: Target, es: seq<Event>)
    requires IsRun(nodes, target, es) && AllConnected(nodes, target, es)
    ensures Shape(nodes, After(nodes, target, es)) && NoneAbsent(nodes, After(nodes, target, es))
    ensures forall b :: 0 <= b < |After(nodes, target, es).refs| ==>
              After(nodes, target, es).refs[b] == Held(After(nodes, target, es).servers, b)
  {
    RunInv(nodes, target, es);
    var p := After(nodes, target, es);
    if es != [] {
      var before := es[..|es| - 1];
      RefCountIsHolders(nodes, target, before);
      RunInv(nodes, target, before);
      NextNoneAbsent(nodes, target, After(nodes, target, before), es[|es| - 1]);
    }
    forall b | 0 <= b < |p.refs| ensures p.refs[b] == Held(p.servers, b) {
      assert BufOk(nodes, p, b);
    }
  }
}
