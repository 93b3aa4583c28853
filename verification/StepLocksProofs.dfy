// No interleaving of the launch threads deadlocks.
module StepLocksProofs {
  import opened StepLocks

  // ---------------------------------------------------------------------------------------------
  // The programs follow the discipline.

  lemma {:induction false} FollowsSleeps(n: nat, p: Prog)
    requires Follows(true, false, p)
    ensures Follows(true, false, Append(Sleeps(n), p))
  {
    if n > 0 { FollowsSleeps(n - 1, p); }
  }

  lemma {:induction false} FollowsIoCalls(n: nat, launch: bool, p: Prog)
    requires Follows(launch, false, p)
    ensures Follows(launch, false, IoCalls(n, p))
  {
    if n > 0 { FollowsIoCalls(n - 1, launch, p); }
  }

  lemma {:induction false} AppendAssoc(p: Prog, q: Prog, r: Prog)
    ensures Append(Append(p, q), r) == Append(p, Append(q, r))
  {
    if p.Then? { AppendAssoc(p.rest, q, r); }
  }

  lemma {:induction false} AllowedSleeps(n: nat, p: Prog)
    ensures AllAllowed(MAIN, Append(Sleeps(n), p)) <==> AllAllowed(MAIN, p)
    ensures EndsInExit(Append(Sleeps(n), p)) <==> EndsInExit(p)
    ensures JoinsStopped(false, false, false, false, Append(Sleeps(n), p))
            <==> JoinsStopped(false, false, false, false, p)
  {
    if n > 0 { AllowedSleeps(n - 1, p); }
  }

  lemma {:induction false} AllowedIoCalls(t: nat, n: nat, p: Prog)
    ensures AllAllowed(t, IoCalls(n, p)) <==> AllAllowed(t, p)
    ensures EndsInExit(IoCalls(n, p)) <==> EndsInExit(p)
    ensures JoinsStopped(false, false, false, false, IoCalls(n, p)) <==> JoinsStopped(false, false, false, false, p)
  {
    if n > 0 { AllowedIoCalls(t, n - 1, p); }
  }

  /** The main thread's way out, from the locks it holds and the threads it has stopped. */
  predicate MainProg(launch: bool, stopMsg: bool, stopIo: bool, p: Prog)
  {
    Follows(launch, false, p) && AllAllowed(MAIN, p) && EndsInExit(p) && JoinsStopped(stopMsg, stopIo, false, false, p)
  }

  lemma FinishIoOk(userIo: bool)
    ensures MainProg(true, true, false, FinishIo(userIo))
  {
    var exit := Then(Exit, End);
    var last := Then(Release(Launch), exit);
    var again := Then(Acquire(Launch), last);
    var join := Then(Join(IO), again);
    var stop := Then(StopIo, join);
    assert MainProg(false, true, false, exit) && MainProg(false, true, true, exit);
    assert MainProg(true, true, false, last) && MainProg(true, true, true, last);
    assert MainProg(false, true, true, again);
    assert MainProg(false, true, true, join);
    assert MainProg(false, true, false, stop);
  }

  lemma JoinMessagesOk(p: Prog)
    requires MainProg(true, true, false, p)
    ensures MainProg(true, true, false, Then(Release(Launch), Then(Join(MSG), Then(Acquire(Launch), p))))
  {
    assert MainProg(false, true, false, Then(Acquire(Launch), p));
    assert MainProg(false, true, false, Then(Join(MSG), Then(Acquire(Launch), p)));
  }

  lemma WaitFinishOk(sleeps: nat, ioAborts: nat, userIo: bool)
    ensures MainProg(false, false, false, WaitFinish(sleeps, ioAborts, userIo))
  {
    FinishIoOk(userIo);
    var timer := Then(IfTimer, FinishIo(userIo));
    assert MainProg(true, true, false, timer);
    JoinMessagesOk(timer);
    WaitsOk(sleeps, ioAborts, Then(StopMessages, Then(Release(Launch), Then(Join(MSG), Then(Acquire(Launch), timer)))));
  }

  lemma WaitsOk(sleeps: nat, ioAborts: nat, p: Prog)
    requires MainProg(true, false, false, p)
    ensures MainProg(false, false, false, Then(Acquire(Launch), Append(Sleeps(sleeps), IoCalls(ioAborts, p))))
  {
    FollowsIoCalls(ioAborts, true, p);
    AllowedIoCalls(MAIN, ioAborts, p);
    FollowsSleeps(sleeps, IoCalls(ioAborts, p));
    AllowedSleeps(sleeps, IoCalls(ioAborts, p));
    assert MainProg(true, false, false, Append(Sleeps(sleeps), IoCalls(ioAborts, p)));
  }

  lemma WaitStartOk(sleeps: nat, gaveUp: bool, rest: Prog)
    requires MainProg(false, false, false, rest)
    ensures MainProg(false, false, false, WaitStart(sleeps, gaveUp, rest))
  {
    var release := Then(Release(Launch), rest);
    assert MainProg(true, false, false, release);
    var told := Then(Broadcast, release);
    assert MainProg(true, false, false, told);
    assert MainProg(true, false, false, Then(Abort, told));
    var body := if gaveUp then Then(Abort, Then(Broadcast, End)) else End;
    var p := if gaveUp then Then(Abort, told) else release;
    assert Append(body, release) == p by {
      assert Append(Then(Broadcast, End), release) == told by { assert Append(End, release) == release; }
    }
    AppendAssoc(Sleeps(sleeps), body, release);
    WaitsOk(sleeps, 0, p);
  }

  lemma InitInv(plan: Plan)
    ensures Inv(Init(plan))
  {
    var finish := WaitFinish(plan.finishSleeps, plan.ioAborts, plan.userIo);
    WaitFinishOk(plan.finishSleeps, plan.ioAborts, plan.userIo);
    WaitStartOk(plan.startSleeps, plan.gaveUp, finish);
    var s := Init(plan);
    assert MainProg(false, false, false, s.progs[MAIN]);
    forall t | 0 <= t < THREADS ensures OkAt(s, t) { }
  }

  /** The programs of the threads that serve events. */
  predicate ServerProg(t: nat, p: Prog)
  {
    Follows(false, false, p) && AllAllowed(t, p)
  }

  lemma HandleOk(m: Message)
    ensures ServerProg(MSG, Handle(m))
  {
    var unlock := Then(Release(Launch), End);
    match m
    case Duplicate =>
    case Report =>
    case Complete =>
      assert Handle(m).rest.rest.rest == unlock;
    case NodeFail =>
      assert Handle(m).rest.rest.rest.rest == unlock;
    case StepMissing(tests, aborts) =>
      var tail := if aborts then Then(Abort, Then(Broadcast, End)) else Then(Broadcast, End);
      AppendIoCalls(tests, tail, unlock);
      var p := Append(tail, unlock);
      assert Follows(true, false, p) && AllAllowed(MSG, p) by {
        assert p == if aborts then Then(Abort, Then(Broadcast, unlock)) else Then(Broadcast, unlock);
      }
      FollowsIoCalls(tests, true, p);
      AllowedIoCalls(MSG, tests, p);
  }

  lemma {:induction false} AppendIoCalls(n: nat, p: Prog, q: Prog)
    ensures Append(IoCalls(n, p), q) == IoCalls(n, Append(p, q))
  {
    if n > 0 { AppendIoCalls(n - 1, p, q); }
  }

  lemma HandleIoOk(e: IoEvent)
    ensures ServerProg(IO, HandleIo(e))
  {
    match e
    case ReadFile(again) =>
      assert HandleIo(e).rest.rest == if again then Locked(Servers, End, End) else End;
    case WriteServer =>
    case ReportIo(aborts) =>
      if aborts { assert HandleIo(e).rest.rest.rest == Then(Release(Launch), End); }
    case Accept =>
      assert HandleIo(e).rest.rest == Locked(Launch, End, End);
  }

  lemma CallOk(abort: bool)
    ensures ServerProg(USER, Locked(Launch, if abort then Then(Abort, Then(Broadcast, End)) else End, End))
  {
    var p := Locked(Launch, if abort then Then(Abort, Then(Broadcast, End)) else End, End);
    if abort { assert p.rest.rest.rest == Then(Release(Launch), End); }
  }

  // ---------------------------------------------------------------------------------------------
  // Each event keeps the invariant.

  lemma {:induction false} JoinsMonotone(a: bool, b: bool, c: bool, d: bool,
                                         a': bool, b': bool, c': bool, d': bool, p: Prog)
    requires JoinsStopped(a, b, c, d, p) && (a ==> a') && (b ==> b') && (c ==> c') && (d ==> d')
    ensures JoinsStopped(a', b', c', d', p)
    decreases p
  {
    if p.Then? {
      match p.op
      case StopMessages => JoinsMonotone(true, b, c, d, true, b', c', d', p.rest);
      case StopIo => JoinsMonotone(a, true, c, d, a', true, c', d', p.rest);
      case Halt => JoinsMonotone(a, b, true, d, a', b', true, d', p.rest);
      case _ => JoinsMonotone(a, b, c, d, a', b', c', d', p.rest);
    }
  }

  /** What thread t does is its own affair. */
  lemma OthersOk(s: System, s': System, t: nat)
    requires Inv(s) && Shape(s') && t < THREADS && OkAt(s', t)
    requires forall u :: 0 <= u < THREADS && u != t ==> s'.progs[u] == s.progs[u] && s'.done[u] == s.done[u]
    requires forall u :: 0 <= u < THREADS && u != t ==> s'.asleep[u] ==> s.asleep[u]
    requires forall u :: 0 <= u < THREADS && u != t ==> (s'.launch == Thread(u) <==> s.launch == Thread(u))
    requires forall u :: 0 <= u < THREADS && u != t ==> (s'.servers == Thread(u) <==> s.servers == Thread(u))
    ensures ThreadsOk(s')
  {
    forall u | 0 <= u < THREADS ensures OkAt(s', u) {
      if u != t { assert OkAt(s, u); }
    }
  }

  /** The main thread's outlook survives what others do. */
  lemma MainStaysOk(s: System, s': System)
    requires Inv(s) && Shape(s') && s'.progs[MAIN] == s.progs[MAIN] && s'.done[MAIN] == s.done[MAIN]
    requires s'.stopMsg == s.stopMsg && s'.stopIo == s.stopIo && s'.halt == s.halt && (s.created ==> s'.created)
    ensures MainOk(s')
  {
    JoinsMonotone(s.stopMsg, s.stopIo, s.halt, s.created, s'.stopMsg, s'.stopIo, s'.halt, s'.created, s.progs[MAIN]);
  }

  /** What it does itself. */
  lemma MainGoesOn(s: System, s': System, t: nat)
    requires Inv(s) && Shape(s') && t < THREADS && s.progs[t].Then? && s'.progs == s.progs[t := s.progs[t].rest]
    requires s'.done == if s.progs[t].op.Exit? then s.done[t := true] else s.done
    requires !s.progs[t].op.Halt? && !s.progs[t].op.StopMessages? && !s.progs[t].op.StopIo?
    requires s'.stopMsg == s.stopMsg && s'.stopIo == s.stopIo && s'.halt == s.halt && s'.created == s.created
    ensures MainOk(s')
  {
    assert OkAt(s, t);
  }

  /** Taking and giving back a lock changes nothing for the timeout thread. */
  lemma TimerStaysOk(s: System, s': System, t: nat)
    requires Inv(s) && Shape(s') && t < THREADS && s.progs[t].Then? && s'.progs == s.progs[t := s.progs[t].rest]
    requires s'.done == s.done && s'.asleep == s.asleep && s'.halt == s.halt && s'.created == s.created
    requires !s.progs[t].op.Exit? && !s.progs[t].op.Broadcast?
    requires t != MAIN && s.launch == Thread(MAIN) ==> s'.launch == s.launch
    ensures TimerOk(s') && HaltOk(s')
  {
  }

  lemma LaunchLockInv(s: System, t: nat, o: Owner)
    requires Inv(s) && t < THREADS && s.progs[t].Then? && !s.asleep[t] && !s.done[t]
    requires
      || (s.progs[t].op == Acquire(Launch) && s.launch.Nobody? && o == Thread(t))
      || (s.progs[t].op == Release(Launch) && o == Nobody)
    ensures Inv(s.(progs := s.progs[t := s.progs[t].rest], launch := o))
  {
    var s' := s.(progs := s.progs[t := s.progs[t].rest], launch := o);
    assert OkAt(s, t) && OkAt(s', t);
    OthersOk(s, s', t);
    MainGoesOn(s, s', t);
    TimerStaysOk(s, s', t);
  }

  lemma ServersLockInv(s: System, t: nat, o: Owner)
    requires Inv(s) && t < THREADS && s.progs[t].Then? && !s.asleep[t] && !s.done[t]
    requires
      || (s.progs[t].op == Acquire(Servers) && s.servers.Nobody? && o == Thread(t))
      || (s.progs[t].op == Release(Servers) && o == Nobody)
    ensures Inv(s.(progs := s.progs[t := s.progs[t].rest], servers := o))
  {
    var s' := s.(progs := s.progs[t := s.progs[t].rest], servers := o);
    assert OkAt(s, t) && OkAt(s', t);
    OthersOk(s, s', t);
    MainGoesOn(s, s', t);
    TimerStaysOk(s, s', t);
  }

  lemma LockStep(s: System, t: nat)
    requires Inv(s) && t < THREADS && CanStep(s, t) && (s.progs[t].op.Acquire? || s.progs[t].op.Release?)
    ensures Inv(Step(s, t))
  {
    var o := if s.progs[t].op.Acquire? then Thread(t) else Nobody;
    if s.progs[t].op.l.Launch? {
      LaunchLockInv(s, t, o);
    } else {
      ServersLockInv(s, t, o);
    }
  }

  lemma SleepStep(s: System, t: nat)
    requires Inv(s) && t < THREADS && CanStep(s, t) && s.progs[t].op.Sleep?
    ensures Inv(Step(s, t))
  {
    var s', p := Step(s, t), s.progs[t].rest;
    assert OkAt(s, t) && Follows(false, false, Then(Acquire(Launch), p));
    assert OkAt(s', t);
    OthersOk(s, s', t);
    if t != MAIN { MainStaysOk(s, s'); }
  }

  lemma BroadcastStep(s: System, t: nat)
    requires Inv(s) && t < THREADS && CanStep(s, t) && s.progs[t].op.Broadcast?
    ensures Inv(Step(s, t))
  {
    var s' := Step(s, t);
    assert OkAt(s, t) && OkAt(s', t);
    OthersOk(s, s', t);
    MainGoesOn(s, s', t);
  }

  lemma AbortStep(s: System, t: nat)
    requires Inv(s) && t < THREADS && CanStep(s, t) && s.progs[t].op.Abort?
    ensures Inv(Step(s, t))
  {
    var s' := Step(s, t);
    assert OkAt(s, t) && OkAt(s', t);
    OthersOk(s, s', t);
    MainGoesOn(s, s', t);
  }

  lemma StopStep(s: System, t: nat)
    requires Inv(s) && t < THREADS && CanStep(s, t) && (s.progs[t].op.StopMessages? || s.progs[t].op.StopIo?)
    ensures Inv(Step(s, t))
  {
    var s' := Step(s, t);
    assert OkAt(s, t) && OkAt(s', t) && t == MAIN;
    OthersOk(s, s', t);
  }

  /** The main thread has sls->lock and will broadcast before it lets go of it. */
  lemma HaltStep(s: System, t: nat)
    requires Inv(s) && t < THREADS && CanStep(s, t) && s.progs[t].op.Halt?
    ensures Inv(Step(s, t))
  {
    var s' := Step(s, t);
    assert OkAt(s, t) && OkAt(s', t) && t == MAIN;
    OthersOk(s, s', t);
  }

  lemma TimerProgOk()
    ensures Follows(false, false, TimerProg()) && AllAllowed(TIMER, TimerProg()) && EndsInExit(TimerProg())
  {
    var last := Then(Release(Launch), Then(Exit, End));
    assert Follows(true, false, last) && AllAllowed(TIMER, last) && EndsInExit(last);
  }

  lemma SpawnStep(s: System, t: nat)
    requires Inv(s) && t < THREADS && CanStep(s, t) && s.progs[t].op.Spawn?
    ensures Inv(Step(s, t))
  {
    var s' := Step(s, t);
    assert OkAt(s, t) && t == MSG && OkAt(s, TIMER);
    TimerProgOk();
    assert OkAt(s', t) && OkAt(s', TIMER);
    forall u | 0 <= u < THREADS ensures OkAt(s', u) {
      if u != t && u != TIMER { assert OkAt(s, u); }
    }
    MainStaysOk(s, s');
  }

  lemma JoinTimerOk(s: System, p: Prog)
    requires Follows(true, false, p) && AllAllowed(MAIN, p) && EndsInExit(p)
    requires JoinsStopped(s.stopMsg, s.stopIo, s.halt, true, p)
    ensures Follows(true, false, JoinTimer(p)) && AllAllowed(MAIN, JoinTimer(p)) && EndsInExit(JoinTimer(p))
    ensures JoinsStopped(s.stopMsg, s.stopIo, s.halt, true, JoinTimer(p))
  {
    JoinsMonotone(s.stopMsg, s.stopIo, s.halt, true, s.stopMsg, s.stopIo, true, true, p);
    var join := Then(Join(TIMER), Then(Acquire(Launch), p));
    assert Follows(false, false, join) && AllAllowed(MAIN, join) && EndsInExit(join);
    assert JoinsStopped(s.stopMsg, s.stopIo, true, true, join);
    var told := Then(Broadcast, Then(Release(Launch), join));
    assert Follows(true, false, told) && AllAllowed(MAIN, told) && EndsInExit(told);
    assert JoinsStopped(s.stopMsg, s.stopIo, true, true, told);
  }

  lemma IfTimerStep(s: System, t: nat)
    requires Inv(s) && t < THREADS && CanStep(s, t) && s.progs[t].op.IfTimer?
    ensures Inv(Step(s, t))
  {
    var s' := Step(s, t);
    assert OkAt(s, t) && t == MAIN;
    if s.created { JoinTimerOk(s, s.progs[t].rest); }
    assert OkAt(s', t);
    OthersOk(s, s', t);
  }

  lemma TimerLoopStep(s: System, t: nat)
    requires Inv(s) && t < THREADS && CanStep(s, t) && s.progs[t].op.TimerLoop?
    ensures Inv(Step(s, t))
  {
    var s' := Step(s, t);
    assert OkAt(s, t) && t == TIMER && Follows(false, false, Then(Acquire(Launch), s.progs[t]));
    assert OkAt(s', t);
    OthersOk(s, s', t);
    MainStaysOk(s, s');
  }

  lemma EndStep(s: System, t: nat)
    requires Inv(s) && t < THREADS && CanStep(s, t) && (s.progs[t].op.Exit? || s.progs[t].op.Join?)
    ensures Inv(Step(s, t))
  {
    var s' := Step(s, t);
    assert OkAt(s, t) && OkAt(s', t);
    OthersOk(s, s', t);
    MainGoesOn(s, s', t);
  }

  lemma StepInv(s: System, t: nat)
    requires Inv(s) && t < THREADS && CanStep(s, t)
    ensures Inv(Step(s, t))
  {
    match s.progs[t].op
    case Acquire(l) => LockStep(s, t);
    case Release(l) => LockStep(s, t);
    case Sleep => SleepStep(s, t);
    case Broadcast => BroadcastStep(s, t);
    case Spawn => SpawnStep(s, t);
    case Halt => HaltStep(s, t);
    case IfTimer => IfTimerStep(s, t);
    case TimerLoop => TimerLoopStep(s, t);
    case Exit => EndStep(s, t);
    case Join(u) => EndStep(s, t);
    case Abort => AbortStep(s, t);
    case StopMessages => StopStep(s, t);
    case StopIo => StopStep(s, t);
  }

  /** A thread that had nothing to do starts on a program. */
  lemma ServeInv(s: System, t: nat, p: Prog)
    requires Inv(s) && (t == MSG || t == IO || t == USER) && Waiting(s, t) && ServerProg(t, p)
    ensures Inv(s.(progs := s.progs[t := p]))
  {
    var s' := s.(progs := s.progs[t := p]);
    assert OkAt(s, t) && OkAt(s', t);
    OthersOk(s, s', t);
    MainStaysOk(s, s');
  }

  lemma StopInv(s: System, t: nat)
    requires Inv(s) && t < THREADS && CanStop(s, t)
    ensures Inv(s.(done := s.done[t := true]))
  {
    var s' := s.(done := s.done[t := true]);
    assert OkAt(s, t) && OkAt(s', t);
    OthersOk(s, s', t);
    MainStaysOk(s, s');
  }

  lemma ExpireInv(s: System)
    requires Inv(s) && Enabled(s, Expire)
    ensures Inv(Next(s, Expire))
  {
    var s' := Next(s, Expire);
    assert OkAt(s, TIMER);
    assert OkAt(s', TIMER);
    OthersOk(s, s', TIMER);
    MainStaysOk(s, s');
  }

  lemma WakeInv(s: System, t: nat)
    requires Inv(s) && t < THREADS
    ensures Inv(s.(asleep := s.asleep[t := false]))
  {
    var s' := s.(asleep := s.asleep[t := false]);
    assert OkAt(s, t) && OkAt(s', t);
    OthersOk(s, s', t);
  }

  lemma NextInv(s: System, e: Event)
    requires Inv(s) && Enabled(s, e)
    ensures Inv(Next(s, e))
  {
    match e
    case Run(t) => StepInv(s, t);
    case Message(m) =>
      HandleOk(m);
      ServeInv(s, MSG, Handle(m));
    case Input(x) =>
      HandleIoOk(x);
      ServeInv(s, IO, HandleIo(x));
    case Call(abort) =>
      CallOk(abort);
      ServeInv(s, USER, Locked(Launch, if abort then Then(Abort, Then(Broadcast, End)) else End, End));
    case Stop(t) => StopInv(s, t);
    case Expire => ExpireInv(s);
    case Wake(t) => WakeInv(s, t);
  }

  // ---------------------------------------------------------------------------------------------
  // Nobody sleeps through an abort.

  /** Who holds sls->lock is about to wake all sleepers. */
  predicate AboutToBroadcast(s: System)
    requires Shape(s)
  {
    s.launch.Thread? && s.launch.t < THREADS && s.progs[s.launch.t].Then? && s.progs[s.launch.t].op.Broadcast?
  }

  predicate SleepersOk(s: System)
    requires Shape(s)
  {
    !s.asleep[TIMER] && (s.asleep[MAIN] ==> s.timed)
  }

  predicate AbortOk(s: System)
  {
    Shape(s) && (s.abort ==> AboutToBroadcast(s) || SleepersOk(s))
  }

  /** A thread that is not about to broadcast leaves the one that is alone. */
  lemma AbortStays(s: System, s': System, t: nat)
    requires AbortOk(s) && Shape(s') && t < THREADS && s'.abort == s.abort && s'.timed == s.timed
    requires s.progs[t].Then? ==> !s.progs[t].op.Broadcast?
    requires s'.launch == s.launch || s.launch.Nobody? || s.launch == Thread(t)
    requires forall u :: 0 <= u < THREADS && u != t && s.progs[u].Then? ==> s'.progs[u] == s.progs[u]
    requires s'.asleep == s.asleep
    ensures AbortOk(s')
  {
  }

  lemma SleepAbortOk(s: System, t: nat)
    requires Inv(s) && AbortOk(s) && t < THREADS && CanStep(s, t)
    requires s.progs[t].op.Sleep? || s.progs[t].op.TimerLoop?
    ensures AbortOk(Step(s, t))
  {
    assert OkAt(s, t);
  }

  lemma TellAbortOk(s: System, t: nat)
    requires Inv(s) && AbortOk(s) && t < THREADS && CanStep(s, t)
    requires s.progs[t].op.Abort? || s.progs[t].op.Broadcast?
    ensures AbortOk(Step(s, t))
  {
    assert OkAt(s, t);
  }

  lemma LockAbortOk(s: System, t: nat)
    requires AbortOk(s) && t < THREADS && CanStep(s, t) && OkAt(s, t)
    requires s.progs[t].op.Acquire? || s.progs[t].op.Release?
    ensures AbortOk(Step(s, t))
  {
    AbortStays(s, Step(s, t), t);
  }

  lemma SpawnAbortOk(s: System, t: nat)
    requires AbortOk(s) && t < THREADS && CanStep(s, t) && s.progs[t].op.Spawn? && TimerOk(s)
    ensures AbortOk(Step(s, t))
  {
    AbortStays(s, Step(s, t), t);
  }

  lemma PlainAbortOk(s: System, t: nat)
    requires AbortOk(s) && t < THREADS && CanStep(s, t)
    requires !s.progs[t].op.Acquire? && !s.progs[t].op.Release? && !s.progs[t].op.Spawn? && !s.progs[t].op.Sleep?
    requires !s.progs[t].op.TimerLoop? && !s.progs[t].op.Abort? && !s.progs[t].op.Broadcast?
    ensures AbortOk(Step(s, t))
  {
    AbortStays(s, Step(s, t), t);
  }

  lemma StepAbortOk(s: System, t: nat)
    requires Inv(s) && AbortOk(s) && t < THREADS && CanStep(s, t)
    ensures AbortOk(Step(s, t))
  {
    assert OkAt(s, t);
    match s.progs[t].op
    case Sleep => SleepAbortOk(s, t);
    case TimerLoop => SleepAbortOk(s, t);
    case Abort => TellAbortOk(s, t);
    case Broadcast => TellAbortOk(s, t);
    case Acquire(l) => LockAbortOk(s, t);
    case Release(l) => LockAbortOk(s, t);
    case Spawn => SpawnAbortOk(s, t);
    case _ => PlainAbortOk(s, t);
  }

  lemma NextAbortOk(s: System, e: Event)
    requires Inv(s) && AbortOk(s) && Enabled(s, e)
    ensures AbortOk(Next(s, e))
  {
    match e
    case Run(t) => StepAbortOk(s, t);
    case Message(m) => AbortStays(s, Next(s, e), MSG);
    case Input(x) => AbortStays(s, Next(s, e), IO);
    case Call(abort) => AbortStays(s, Next(s, e), USER);
    case Stop(t) => AbortStays(s, Next(s, e), t);
    case Expire => AbortStays(s, Next(s, e), TIMER);
    case Wake(t) =>
  }

  // ---------------------------------------------------------------------------------------------
  // Runs.

  ghost predicate IsRun(plan: Plan, es: seq<Event>)
    decreases |es|, 0
  {
    es != [] ==>
      && IsRun(plan, es[..|es| - 1])
      && Shape(After(plan, es[..|es| - 1])) && Enabled(After(plan, es[..|es| - 1]), es[|es| - 1])
  }

  ghost function After(plan: Plan, es: seq<Event>): (s: System)
    requires IsRun(plan, es)
    decreases |es|, 1
  {
    if es == [] then Init(plan) else Next(After(plan, es[..|es| - 1]), es[|es| - 1])
  }

  lemma {:induction false} RunInv(plan: Plan, es: seq<Event>)
    requires IsRun(plan, es)
    ensures Inv(After(plan, es))
  {
    if es == [] {
      InitInv(plan);
    } else {
      RunInv(plan, es[..|es| - 1]);
      NextInv(After(plan, es[..|es| - 1]), es[|es| - 1]);
    }
  }

  lemma {:induction false} RunAbortOk(plan: Plan, es: seq<Event>)
    requires IsRun(plan, es)
    ensures Inv(After(plan, es)) && AbortOk(After(plan, es))
  {
    RunInv(plan, es);
    if es != [] {
      RunAbortOk(plan, es[..|es| - 1]);
      NextAbortOk(After(plan, es[..|es| - 1]), es[|es| - 1]);
    }
  }

  /** In every run: once abort is set and sls->lock is free, the timeout thread is awake, and the main thread
      is awake or in a wait with a deadline that it began after abort was set. */
  lemma NoneSleepsThroughAbort(plan: Plan, es: seq<Event>)
    requires IsRun(plan, es) && After(plan, es).abort && After(plan, es).launch.Nobody?
    ensures
      var s := After(plan, es);
      Shape(s) && (forall t :: 0 <= t < THREADS && s.asleep[t] ==> t == MAIN && s.timed)
  {
    RunAbortOk(plan, es);
    var s := After(plan, es);
    forall t | 0 <= t < THREADS && s.asleep[t] ensures t == MAIN && s.timed { assert OkAt(s, t); }
  }

  /** Nothing happens unless something new arrives or a timed wait ends. */
  predicate Stuck(s: System)
    requires Shape(s)
  {
    forall t :: 0 <= t < THREADS ==> !CanStep(s, t) && !CanStop(s, t)
  }

  /** Who holds ioservers_lock can go on. */
  lemma ServersHolderGoesOn(s: System)
    requires Inv(s) && s.servers.Thread?
    ensures CanStep(s, s.servers.t)
  {
    assert OkAt(s, s.servers.t);
  }

  /** Who holds sls->lock can go on, or waits for one who can. */
  lemma LaunchHolderGoesOn(s: System)
    requires Inv(s) && s.launch.Thread? && s.servers.Nobody?
    ensures CanStep(s, s.launch.t)
  {
    assert OkAt(s, s.launch.t);
  }

  lemma StuckLocksAreFree(s: System)
    requires Inv(s) && Stuck(s)
    ensures s.servers.Nobody? && s.launch.Nobody?
  {
    if s.servers.Thread? {
      ServersHolderGoesOn(s);
    } else if s.launch.Thread? {
      LaunchHolderGoesOn(s);
    }
  }

  /** A thread the main thread joins can go on. */
  lemma JoinedGoesOn(s: System, u: nat)
    requires Inv(s) && s.launch.Nobody? && s.servers.Nobody?
    requires (u == MSG && s.stopMsg) || (u == IO && s.stopIo) || (u == TIMER && s.halt && s.created)
    requires !s.done[u]
    ensures CanStep(s, u) || CanStop(s, u)
  {
    assert OkAt(s, u);
  }

  lemma AtRest(s: System, t: nat)
    requires Inv(s) && Stuck(s) && t < THREADS
    ensures s.done[t] || s.asleep[t] || s.progs[t].End?
  {
    StuckLocksAreFree(s);
    assert OkAt(s, t) && !CanStep(s, t);
    if s.progs[t].Then? && s.progs[t].op.Join? && !s.done[s.progs[t].op.t] {
      JoinedGoesOn(s, s.progs[t].op.t);
    }
  }

  /** In every run: when no thread can go on, none waits for a lock or in a join.  Each is through, or asleep
      on the condition variable with its lock released, or has no event to serve; and the main thread is
      through or asleep. */
  lemma NoDeadlock(plan: Plan, es: seq<Event>)
    requires IsRun(plan, es) && Shape(After(plan, es)) && Stuck(After(plan, es))
    ensures
      var s := After(plan, es);
      && s.launch.Nobody? && s.servers.Nobody?
      && (forall t :: 0 <= t < THREADS ==> s.done[t] || s.asleep[t] || s.progs[t].End?)
      && (s.done[MAIN] || s.asleep[MAIN])
  {
    RunInv(plan, es);
    var s := After(plan, es);
    StuckLocksAreFree(s);
    forall t | 0 <= t < THREADS ensures s.done[t] || s.asleep[t] || s.progs[t].End? {
      AtRest(s, t);
    }
  }

  /** In every run: ioservers_lock is never held by a thread about to take sls->lock, and no thread that holds
      either lock is in a join. */
  lemma LockOrder(plan: Plan, es: seq<Event>, t: nat)
    requires IsRun(plan, es) && Shape(After(plan, es)) && t < THREADS && After(plan, es).progs[t].Then?
    ensures
      var s := After(plan, es);
      var op := s.progs[t].op;
      && (s.servers == Thread(t) ==> !op.Acquire? && !op.Join? && !op.Sleep?)
      && (s.launch == Thread(t) ==> op != Acquire(Launch) && !op.Join?)
  {
    RunInv(plan, es);
    assert OkAt(After(plan, es), t);
  }
}
