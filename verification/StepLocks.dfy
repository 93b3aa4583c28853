// The threads of a step launch and their two locks: sls->lock (src/api/step_launch.c) and ioservers_lock
// (src/api/step_io.c), with the condition variable sls->cond and the joins of the main thread.
module StepLocks {

  datatype Lock = Launch | Servers

  /** What a thread does that another one can notice. */
  datatype Op =
    | Acquire(l: Lock)
    | Release(l: Lock)
    | Broadcast
    | Sleep                  // pthread_cond_wait on sls->cond, or _timedwait once abort is set
    | Abort                  // sls->abort = true
    | Spawn                  // _start_io_timeout_thread, unless there is one
    | StopMessages           // eio_signal_shutdown(sls->msg_handle)
    | StopIo                 // eio_signal_shutdown(cio->eio)
    | Halt                   // sls->halt_io_test = true
    | IfTimer                // the shutdown of the timeout thread, if one exists
    | TimerLoop              // a turn of the loop of _check_io_timeout: leaves it, or sleeps
    | Exit
    | Join(t: nat)

  datatype Prog = End | Then(op: Op, rest: Prog)

  // The threads; USER stands for any caller of slurm_step_launch_abort and _fwd_signal.
  const MAIN := 0
  const MSG := 1
  const IO := 2
  const TIMER := 3
  const USER := 4
  const THREADS := 5

  // ---------------------------------------------------------------------------------------------
  // The programs.

  function Locked(l: Lock, body: Prog, rest: Prog): (p: Prog)
  {
    Then(Acquire(l), Append(body, Then(Release(l), rest)))
  }

  function Append(p: Prog, q: Prog): (r: Prog)
  {
    if p.End? then q else Then(p.op, Append(p.rest, q))
  }

  function Sleeps(n: nat): (p: Prog)
  {
    if n == 0 then End else Then(Sleep, Sleeps(n - 1))
  }

  /** slurm_step_launch_wait_start: gives up, or sees all tasks started. */
  function WaitStart(sleeps: nat, gaveUp: bool, rest: Prog): (p: Prog)
  {
    Locked(Launch, Append(Sleeps(sleeps), if gaveUp then Then(Abort, Then(Broadcast, End)) else End), rest)
  }

  /** Calls that take ioservers_lock: client_io_handler_abort, client_io_handler_send_test_message. */
  function IoCalls(n: nat, rest: Prog): (p: Prog)
  {
    if n == 0 then rest else Locked(Servers, End, IoCalls(n - 1, rest))
  }

  /** The shutdown of the I/O thread, unless the user handles I/O. */
  function FinishIo(userIo: bool): (p: Prog)
  {
    if userIo then Then(Release(Launch), Then(Exit, End))
    else
      Then(Release(Launch), Then(StopIo, Then(Join(IO),
        Then(Acquire(Launch), Then(Release(Launch), Then(Exit, End))))))
  }

  /** slurm_step_launch_wait_finish. */
  function WaitFinish(sleeps: nat, ioAborts: nat, userIo: bool): (p: Prog)
  {
    Then(Acquire(Launch), Append(Sleeps(sleeps), IoCalls(ioAborts,
      Then(StopMessages, Then(Release(Launch), Then(Join(MSG),
        Then(Acquire(Launch), Then(IfTimer, FinishIo(userIo)))))))))
  }

  function JoinTimer(rest: Prog): (p: Prog)
  {
    Then(Halt, Then(Broadcast, Then(Release(Launch), Then(Join(TIMER), Then(Acquire(Launch), rest)))))
  }

  /** _check_io_timeout. */
  function TimerProg(): (p: Prog)
  {
    Then(Acquire(Launch), Then(TimerLoop, Then(Release(Launch), Then(Exit, End))))
  }

  /** The message handlers: a duplicate, those that only report, _job_complete_handler, _node_fail_handler, and
      _step_missing_handler with its test messages. */
  datatype Message = Duplicate | Report | Complete | NodeFail | StepMissing(tests: nat, aborts: bool)

  function Handle(m: Message): (p: Prog)
  {
    match m
    case Duplicate => Locked(Launch, End, End)
    case Report => Locked(Launch, Then(Broadcast, End), End)
    case Complete => Locked(Launch, Then(Abort, Then(Broadcast, End)), End)
    case NodeFail => Locked(Launch, Append(Locked(Servers, End, End), Then(Broadcast, End)), End)
    case StepMissing(tests, aborts) =>
      var last := if aborts then Then(Abort, Then(Broadcast, End)) else Then(Broadcast, End);
      Locked(Launch, Then(Spawn, IoCalls(tests, last)), End)
  }

  /** The I/O handlers: _file_readable and _file_read; _server_write and _server_read, which may report to the
      launch state; _read_io_init_msg. */
  datatype IoEvent = ReadFile(again: bool) | WriteServer | ReportIo(aborts: bool) | Accept

  function HandleIo(e: IoEvent): (p: Prog)
  {
    match e
    case ReadFile(again) => Locked(Servers, End, if again then Locked(Servers, End, End) else End)
    case WriteServer => Locked(Servers, End, End)
    case ReportIo(aborts) => Locked(Launch, if aborts then Then(Abort, Then(Broadcast, End)) else End, End)
    case Accept => Locked(Servers, End, Locked(Launch, End, End))
  }

  // ---------------------------------------------------------------------------------------------
  // The system.

  datatype Owner = Nobody | Thread(t: nat)

  /** timed: the main thread's last wait has a deadline, as it does once it has seen abort. */
  datatype System = System(progs: seq<Prog>, asleep: seq<bool>, done: seq<bool>, launch: Owner, servers: Owner,
                           abort: bool, halt: bool, stopMsg: bool, stopIo: bool, created: bool, timed: bool)

  /** How the main thread will go: its waits, and whether it handles I/O itself. */
  datatype Plan = Plan(startSleeps: nat, gaveUp: bool, finishSleeps: nat, ioAborts: nat, userIo: bool)

  function Init(plan: Plan): (s: System)
  {
    System([WaitStart(plan.startSleeps, plan.gaveUp, WaitFinish(plan.finishSleeps, plan.ioAborts, plan.userIo)),
            End, End, End, End],
           [false, false, false, false, false], [false, false, false, false, false], Nobody, Nobody,
           false, false, false, false, false, false)
  }

  function OwnerOf(s: System, l: Lock): (o: Owner)
  {
    if l.Launch? then s.launch else s.servers
  }

  predicate Shape(s: System)
  {
    |s.progs| == |s.asleep| == |s.done| == THREADS
  }

  /** Thread t's next operation can be done now. */
  predicate CanStep(s: System, t: nat)
    requires Shape(s) && t < THREADS
  {
    && s.progs[t].Then? && !s.asleep[t] && !s.done[t]
    && match s.progs[t].op
       case Acquire(l) => OwnerOf(s, l).Nobody?
       case Join(u) => u < THREADS && s.done[u]
       case _ => true
  }

  function SetOwner(s: System, l: Lock, o: Owner): (s': System)
  {
    if l.Launch? then s.(launch := o) else s.(servers := o)
  }

  function Step(s: System, t: nat): (s': System)
    requires Shape(s) && t < THREADS && CanStep(s, t)
  {
    var p := s.progs[t].rest;
    var s1 := s.(progs := s.progs[t := p]);
    match s.progs[t].op
    case Acquire(l) => SetOwner(s1, l, Thread(t))
    case Release(l) => SetOwner(s1, l, Nobody)
    case Broadcast => s1.(asleep := [false, false, false, false, false])
    case Sleep =>
      s.(progs := s.progs[t := Then(Acquire(Launch), p)], asleep := s.asleep[t := true], launch := Nobody,
         timed := s.abort)
    case Abort => s1.(abort := true)
    case Spawn => if s.created then s1 else s1.(created := true, progs := s1.progs[TIMER := TimerProg()])
    case StopMessages => s1.(stopMsg := true)
    case StopIo => s1.(stopIo := true)
    case Halt => s1.(halt := true)
    case IfTimer => if s.created then s.(progs := s.progs[t := JoinTimer(p)]) else s1
    case TimerLoop =>
      if s.halt || s.abort then s1
      else s.(progs := s.progs[t := Then(Acquire(Launch), s.progs[t])], asleep := s.asleep[t := true], launch := Nobody)
    case Exit => s1.(done := s.done[t := true])
    case Join(u) => s1
  }

  /** A thread that serves events has none in hand. */
  predicate Waiting(s: System, t: nat)
    requires Shape(s) && t < THREADS
  {
    s.progs[t].End? && !s.done[t]
  }

  /** The message and I/O threads leave their loops once told to. */
  predicate CanStop(s: System, t: nat)
    requires Shape(s) && t < THREADS
  {
    Waiting(s, t) && ((t == MSG && s.stopMsg) || (t == IO && s.stopIo))
  }

  datatype Event =
    | Run(t: nat)            // the next operation of a thread
    | Message(m: Message)    // a message arrives
    | Input(e: IoEvent)      // something to do for the I/O thread
    | Call(abort: bool)      // slurm_step_launch_abort, or _fwd_signal
    | Stop(t: nat)           // a thread that was told to stop does
    | Expire                 // a deadline has passed when the timeout thread looks
    | Wake(t: nat)           // a timed wait ends, or a wait ends spuriously

  predicate Enabled(s: System, e: Event)
    requires Shape(s)
  {
    match e
    case Run(t) => t < THREADS && CanStep(s, t)
    case Message(m) => Waiting(s, MSG)
    case Input(e) => Waiting(s, IO)
    case Call(abort) => Waiting(s, USER)
    case Stop(t) => t < THREADS && CanStop(s, t)
    case Expire => CanStep(s, TIMER) && s.progs[TIMER].op.TimerLoop?
    case Wake(t) => t < THREADS
  }

  function Next(s: System, e: Event): (s': System)
    requires Shape(s) && Enabled(s, e)
  {
    match e
    case Run(t) => Step(s, t)
    case Message(m) => s.(progs := s.progs[MSG := Handle(m)])
    case Input(e) => s.(progs := s.progs[IO := HandleIo(e)])
    case Call(abort) =>
      s.(progs := s.progs[USER := Locked(Launch, if abort then Then(Abort, Then(Broadcast, End)) else End, End)])
    case Stop(t) => s.(done := s.done[t := true])
    case Expire => s.(progs := s.progs[TIMER := Then(Abort, Then(Broadcast, s.progs[TIMER].rest))])
    case Wake(t) => s.(asleep := s.asleep[t := false])
  }

  // ---------------------------------------------------------------------------------------------
  // The discipline every program follows.

  /** From a point where the thread holds the locks `launch` and `servers`: ioservers_lock is only taken second,
      nobody sleeps or joins with it, or joins with sls->lock, or stops with a lock held; and who sets abort
      has sls->lock and broadcasts before it lets go of it. */
  predicate Follows(launch: bool, servers: bool, p: Prog)
    decreases p
  {
    if p.End? then !launch && !servers
    else
      match p.op
      case Acquire(l) =>
        if l.Launch? then !launch && !servers && Follows(true, servers, p.rest)
        else !servers && Follows(launch, true, p.rest)
      case Release(l) =>
        if l.Launch? then launch && !servers && Follows(false, servers, p.rest)
        else servers && Follows(launch, false, p.rest)
      case Sleep => launch && !servers && Follows(launch, servers, p.rest)
      case IfTimer => launch && !servers && Follows(launch, servers, p.rest)
      case TimerLoop => launch && !servers && Follows(launch, servers, p.rest)
      case Join(u) => !launch && !servers && Follows(launch, servers, p.rest)
      case Halt => launch && Follows(launch, servers, p.rest)
      case Abort => launch && p.rest.Then? && p.rest.op.Broadcast? && Follows(launch, servers, p.rest)
      case Exit => !launch && !servers && p.rest.End?
      case _ => Follows(launch, servers, p.rest)
  }

  /** The main thread joins a thread only once it has told it to stop. */
  predicate JoinsStopped(stopMsg: bool, stopIo: bool, halt: bool, created: bool, p: Prog)
    decreases p
  {
    p.Then? ==>
      match p.op
      case StopMessages => JoinsStopped(true, stopIo, halt, created, p.rest)
      case StopIo => JoinsStopped(stopMsg, true, halt, created, p.rest)
      case Halt =>
        created && p.rest.Then? && p.rest.op.Broadcast? && JoinsStopped(stopMsg, stopIo, true, created, p.rest)
      case Join(u) =>
        && ((u == MSG && stopMsg) || (u == IO && stopIo) || (u == TIMER && halt && created))
        && JoinsStopped(stopMsg, stopIo, halt, created, p.rest)
      case _ => JoinsStopped(stopMsg, stopIo, halt, created, p.rest)
  }

  /** Which thread does what. */
  predicate Allowed(t: nat, op: Op)
  {
    match op
    case Sleep => t == MAIN
    case Exit => t == MAIN || t == TIMER
    case Spawn => t == MSG
    case TimerLoop => t == TIMER
    case StopMessages => t == MAIN
    case StopIo => t == MAIN
    case Halt => t == MAIN
    case IfTimer => t == MAIN
    case Join(u) => t == MAIN
    case _ => true
  }

  predicate AllAllowed(t: nat, p: Prog)
  {
    p.Then? ==> Allowed(t, p.op) && AllAllowed(t, p.rest)
  }

  predicate EndsInExit(p: Prog)
  {
    p.Then? && (if p.op.Exit? then p.rest.End? else EndsInExit(p.rest))
  }

  // ---------------------------------------------------------------------------------------------
  // The invariant.

  /** Thread t, from the locks it holds and the rest of its program. */
  predicate ThreadOk(t: nat, launch: bool, servers: bool, p: Prog, asleep: bool, done: bool)
  {
    && Follows(launch, servers, p)
    && AllAllowed(t, p)
    && (asleep ==> (t == MAIN || t == TIMER) && p.Then? && p.op == Acquire(Launch))
    && (done ==> p.End?)
  }

  predicate OkAt(s: System, t: nat)
    requires Shape(s) && t < THREADS
  {
    ThreadOk(t, s.launch == Thread(t), s.servers == Thread(t), s.progs[t], s.asleep[t], s.done[t])
  }

  predicate ThreadsOk(s: System)
    requires Shape(s)
  {
    forall t :: 0 <= t < THREADS ==> OkAt(s, t)
  }

  predicate MainOk(s: System)
    requires Shape(s)
  {
    && (!s.done[MAIN] ==> EndsInExit(s.progs[MAIN]))
    && JoinsStopped(s.stopMsg, s.stopIo, s.halt, s.created, s.progs[MAIN])
  }

  /** The timeout thread exists once created, and leaves through Exit. */
  predicate TimerOk(s: System)
    requires Shape(s)
  {
    && (s.created && !s.done[TIMER] ==> EndsInExit(s.progs[TIMER]))
    && (!s.created ==> s.progs[TIMER].End? && !s.done[TIMER])
  }

  /** Once it has to halt, the timeout thread sleeps only until the main thread's broadcast. */
  predicate HaltOk(s: System)
    requires Shape(s)
  {
    && (s.halt ==> s.created)
    && (s.halt && s.asleep[TIMER] ==> s.launch == Thread(MAIN) && s.progs[MAIN].Then? && s.progs[MAIN].op.Broadcast?)
  }

  predicate OwnersOk(s: System)
  {
    (s.launch.Thread? ==> s.launch.t < THREADS) && (s.servers.Thread? ==> s.servers.t < THREADS)
  }

  predicate Inv(s: System)
  {
    Shape(s) && OwnersOk(s) && ThreadsOk(s) && MainOk(s) && TimerOk(s) && HaltOk(s)
  }
}
