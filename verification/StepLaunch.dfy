// The launch state of a step and the handlers that change it under sls->lock (src/api/step_launch.c).
module StepLaunch {

  const NO_VAL := 0xfffffffe

  /** struct step_launch_state; deadline[n] is NO_VAL unless node n is being tested. */
  datatype Launch = Launch(started: seq<bool>, exited: seq<bool>, ioError: seq<bool>, deadline: seq<int>, abort: bool,
                           timer: bool)

  /** What client_io_handler_send_test_message reports. */
  datatype TestResult = CannotTest | Sent | NotSent

  /** layout[n] are the tasks of node n. */
  predicate Shape(layout: seq<seq<nat>>, l: Launch)
  {
    && |l.ioError| == |l.deadline| == |layout| && |l.started| == |l.exited|
    && (forall n :: 0 <= n < |layout| ==> InRange(layout[n], |l.started|))
  }

  predicate InRange(ids: seq<nat>, size: nat)
  {
    forall i :: 0 <= i < |ids| ==> ids[i] < size
  }

  function Init(tasks: nat, nodes: nat): (l: Launch)
  {
    Launch(seq(tasks, _ => false), seq(tasks, _ => false), seq(nodes, _ => false), seq(nodes, _ => NO_VAL),
           false, false)
  }

  // ---------------------------------------------------------------------------------------------
  // What the loops compute.

  /** bits with all of ids set. */
  function SetAll(bits: seq<bool>, ids: seq<nat>): (r: seq<bool>)
    requires InRange(ids, |bits|)
    ensures |r| == |bits| && forall t :: 0 <= t < |bits| ==> r[t] == (bits[t] || t in ids)
    decreases |ids|
  {
    if ids == [] then bits else SetAll(bits[ids[0] := true], ids[1..])
  }

  function LaunchedNext(l: Launch, ids: seq<nat>, failed: bool): (l': Launch)
    requires InRange(ids, |l.started|) && |l.started| == |l.exited|
  {
    if ids != [] && l.started[ids[0]] then l
    else l.(started := SetAll(l.started, ids), exited := if failed then SetAll(l.exited, ids) else l.exited)
  }

  /** _node_fail_handler; nodes outside the step are negative. */
  function NodesFailedNext(layout: seq<seq<nat>>, l: Launch, nodes: seq<int>): (l': Launch)
    requires Shape(layout, l)
    requires forall i :: 0 <= i < |nodes| ==> nodes[i] < |layout|
    ensures Shape(layout, l')
    decreases |nodes|
  {
    if nodes == [] then l
    else if nodes[0] < 0 then NodesFailedNext(layout, l, nodes[1..])
    else
      var ids := layout[nodes[0]];
      NodesFailedNext(layout, l.(started := SetAll(l.started, ids), exited := SetAll(l.exited, ids)), nodes[1..])
  }

  /** Node n runs a task that has started and not exited. */
  predicate Active(layout: seq<seq<nat>>, l: Launch, n: nat)
    requires Shape(layout, l) && n < |layout|
  {
    exists j :: 0 <= j < |layout[n]| && l.started[layout[n][j]] && !l.exited[layout[n][j]]
  }

  /** The loop of _step_missing_handler. */
  function MissingNext(layout: seq<seq<nat>>, l: Launch, nodes: seq<int>, due: int, tests: seq<TestResult>)
    : (l': Launch)
    requires Shape(layout, l) && |tests| == |layout|
    requires forall i :: 0 <= i < |nodes| ==> nodes[i] < |layout|
    decreases |nodes|
  {
    if nodes == [] then l
    else
      var n, rest := nodes[0], nodes[1..];
      if n < 0 || !Active(layout, l, n) then MissingNext(layout, l, rest, due, tests)
      else if l.ioError[n] then l.(abort := true)
      else if l.deadline[n] != NO_VAL then MissingNext(layout, l, rest, due, tests)
      else if tests[n].CannotTest? then l.(abort := true, deadline := l.deadline[n := due])
      else if tests[n].Sent? then MissingNext(layout, l.(deadline := l.deadline[n := due]), rest, due, tests)
      else MissingNext(layout, l, rest, due, tests)
  }

  predicate Expired(l: Launch, now: int)
  {
    exists n :: 0 <= n < |l.deadline| && l.deadline[n] != NO_VAL && l.deadline[n] <= now
  }

  // ---------------------------------------------------------------------------------------------
  // One handler at a time.

  datatype Event =
    | Launched(ids: seq<nat>, failed: bool)
    | Exited(ids: seq<nat>)
    | NodesFailed(nodes: seq<int>)
    | StepMissing(nodes: seq<int>, due: int, tests: seq<TestResult>, threadStarts: bool)
    | IoFailure(node: nat)        // step_launch_notify_io_failure
    | Confirmed(node: nat)        // step_launch_clear_questionable_state
    | Timer(now: int)             // a turn of _check_io_timeout
    | Abort                       // _job_complete_handler, slurm_step_launch_abort, a timeout of the waits

  /** What the handlers are told is about tasks and nodes of the step. */
  predicate Enabled(layout: seq<seq<nat>>, l: Launch, e: Event)
  {
    match e
    case Launched(ids, failed) => InRange(ids, |l.started|)
    case Exited(ids) => InRange(ids, |l.exited|)
    case NodesFailed(nodes) => forall i :: 0 <= i < |nodes| ==> nodes[i] < |layout|
    case StepMissing(nodes, due, tests, threadStarts) =>
      |tests| == |layout| && forall i :: 0 <= i < |nodes| ==> nodes[i] < |layout|
    case IoFailure(node) => node < |layout|
    case Confirmed(node) => node < |layout|
    case Timer(now) => true
    case Abort => true
  }

  function Next(layout: seq<seq<nat>>, l: Launch, e: Event): (l': Launch)
    requires Shape(layout, l) && Enabled(layout, l, e)
  {
    match e
    case Launched(ids, failed) => LaunchedNext(l, ids, failed)
    case Exited(ids) => l.(exited := SetAll(l.exited, ids))
    case NodesFailed(nodes) => NodesFailedNext(layout, l, nodes)
    case StepMissing(nodes, due, tests, threadStarts) =>
      if !l.timer && !threadStarts then l.(abort := true)
      else MissingNext(layout, l.(timer := true), nodes, due, tests)
    case IoFailure(node) =>
      l.(ioError := l.ioError[node := true], abort := l.abort || l.deadline[node] != NO_VAL)
    case Confirmed(node) => l.(deadline := l.deadline[node := NO_VAL])
    case Timer(now) => l.(abort := l.abort || Expired(l, now))
    case Abort => l.(abort := true)
  }

  // ---------------------------------------------------------------------------------------------
  // Suspect nodes.

  /** A node with an I/O error and a test pending means the step is being aborted. */
  predicate SuspectsAbort(l: Launch)
  {
    forall n :: 0 <= n < |l.ioError| && n < |l.deadline| && l.ioError[n] && l.deadline[n] != NO_VAL ==> l.abort
  }

  predicate Kept(a: seq<bool>, b: seq<bool>)
  {
    |a| == |b| && forall i :: 0 <= i < |a| && a[i] ==> b[i]
  }

  /** What no handler takes back. */
  predicate Grows(l: Launch, l': Launch)
  {
    Kept(l.started, l'.started) && Kept(l.exited, l'.exited) && Kept(l.ioError, l'.ioError) && (l.abort ==> l'.abort)
  }

  predicate Inv(layout: seq<seq<nat>>, l: Launch)
  {
    Shape(layout, l) && SuspectsAbort(l)
  }

  lemma GrowsTransitive(a: Launch, b: Launch, c: Launch)
    requires Grows(a, b) && Grows(b, c)
    ensures Grows(a, c)
  {
  }

  lemma {:induction false} NodesFailedInv(layout: seq<seq<nat>>, l: Launch, nodes: seq<int>)
    requires Inv(layout, l) && forall i :: 0 <= i < |nodes| ==> nodes[i] < |layout|
    ensures Inv(layout, NodesFailedNext(layout, l, nodes)) && Grows(l, NodesFailedNext(layout, l, nodes))
    decreases |nodes|
  {
    if nodes != [] {
      if nodes[0] < 0 {
        NodesFailedInv(layout, l, nodes[1..]);
      } else {
        var ids := layout[nodes[0]];
        var l1 := l.(started := SetAll(l.started, ids), exited := SetAll(l.exited, ids));
        NodesFailedInv(layout, l1, nodes[1..]);
        GrowsTransitive(l, l1, NodesFailedNext(layout, l, nodes));
      }
    }
  }

  lemma {:induction false} MissingInv(layout: seq<seq<nat>>, l: Launch, nodes: seq<int>, due: int,
                                      tests: seq<TestResult>)
    requires Inv(layout, l) && |tests| == |layout| && forall i :: 0 <= i < |nodes| ==> nodes[i] < |layout|
    ensures
      var l' := MissingNext(layout, l, nodes, due, tests);
      Inv(layout, l') && Grows(l, l')
    decreases |nodes|
  {
    if nodes != [] {
      var n, rest := nodes[0], nodes[1..];
      if n < 0 || !Active(layout, l, n) {
        MissingInv(layout, l, rest, due, tests);
      } else if !l.ioError[n] {
        if l.deadline[n] != NO_VAL || tests[n].NotSent? {
          MissingInv(layout, l, rest, due, tests);
        } else if tests[n].Sent? {
          MissingInv(layout, l.(deadline := l.deadline[n := due]), rest, due, tests);
        }
      }
    }
  }

  lemma NextInv(layout: seq<seq<nat>>, l: Launch, e: Event)
    requires Inv(layout, l) && Enabled(layout, l, e)
    ensures Inv(layout, Next(layout, l, e)) && Grows(l, Next(layout, l, e))
  {
    match e
    case NodesFailed(nodes) => NodesFailedInv(layout, l, nodes);
    case StepMissing(nodes, due, tests, threadStarts) =>
      if l.timer || threadStarts {
        var l1 := l.(timer := true);
        MissingInv(layout, l1, nodes, due, tests);
        GrowsTransitive(l, l1, MissingNext(layout, l1, nodes, due, tests));
      }
    case _ =>
  }

  // ---------------------------------------------------------------------------------------------
  // Runs.

  ghost predicate IsRun(layout: seq<seq<nat>>, tasks: nat, es: seq<Event>)
    decreases |es|, 0
  {
    && (forall n :: 0 <= n < |layout| ==> InRange(layout[n], tasks))
    && (es != [] ==>
          && IsRun(layout, tasks, es[..|es| - 1])
          && Shape(layout, After(layout, tasks, es[..|es| - 1]))
          && Enabled(layout, After(layout, tasks, es[..|es| - 1]), es[|es| - 1]))
  }

  ghost function After(layout: seq<seq<nat>>, tasks: nat, es: seq<Event>): (l: Launch)
    requires IsRun(layout, tasks, es)
    decreases |es|, 1
  {
    if es == [] then Init(tasks, |layout|) else Next(layout, After(layout, tasks, es[..|es| - 1]), es[|es| - 1])
  }

  /** After every sequence of handlers: an I/O error on a node under test means abort. */
  lemma {:induction false} SuspectsAlwaysAbort(layout: seq<seq<nat>>, tasks: nat, es: seq<Event>)
    requires IsRun(layout, tasks, es)
    ensures Inv(layout, After(layout, tasks, es))
  {
    if es != [] {
      SuspectsAlwaysAbort(layout, tasks, es[..|es| - 1]);
      NextInv(layout, After(layout, tasks, es[..|es| - 1]), es[|es| - 1]);
    }
  }

  /** From any point of a run on, abort, the started and exited bits and the I/O errors stay. */
  lemma {:induction false} NothingReverts(layout: seq<seq<nat>>, tasks: nat, es: seq<Event>, k: nat)
    requires IsRun(layout, tasks, es) && k <= |es|
    ensures IsRun(layout, tasks, es[..k]) && Grows(After(layout, tasks, es[..k]), After(layout, tasks, es))
  {
    if k == |es| {
      assert es[..k] == es;
    } else {
      var before := es[..|es| - 1];
      NothingReverts(layout, tasks, before, k);
      assert before[..k] == es[..k];
      SuspectsAlwaysAbort(layout, tasks, before);
      NextInv(layout, After(layout, tasks, before), es[|es| - 1]);
      GrowsTransitive(After(layout, tasks, es[..k]), After(layout, tasks, before), After(layout, tasks, es));
    }
  }

  /** A node reported missing, with a task running and no answer or error so far: unless the step is being
      aborted, it is under test or the test was not sent. */
  lemma {:induction false} MissingNodesAreTested(layout: seq<seq<nat>>, l: Launch, nodes: seq<int>, due: int,
                                                 tests: seq<TestResult>, n: nat)
    requires Inv(layout, l) && |tests| == |layout| && forall i :: 0 <= i < |nodes| ==> nodes[i] < |layout|
    requires n < |layout| && n in nodes && Active(layout, l, n) && due != NO_VAL
    ensures
      var l' := MissingNext(layout, l, nodes, due, tests);
      l'.abort || (|l'.deadline| == |layout| && l'.deadline[n] != NO_VAL) || tests[n].NotSent?
    decreases |nodes|
  {
    var m, rest := nodes[0], nodes[1..];
    if m < 0 || !Active(layout, l, m) {
      MissingNodesAreTested(layout, l, rest, due, tests, n);
    } else if !l.ioError[m] {
      var l1 := if l.deadline[m] == NO_VAL && tests[m].Sent? then l.(deadline := l.deadline[m := due]) else l;
      if l.deadline[m] != NO_VAL || !tests[m].CannotTest? {
        DeadlinesStay(layout, l1, rest, due, tests);
        if n in rest { MissingNodesAreTested(layout, l1, rest, due, tests, n); }
      }
    }
  }

  lemma {:induction false} DeadlinesStay(layout: seq<seq<nat>>, l: Launch, nodes: seq<int>, due: int,
                                         tests: seq<TestResult>)
    requires Inv(layout, l) && |tests| == |layout| && forall i :: 0 <= i < |nodes| ==> nodes[i] < |layout|
    ensures
      var l' := MissingNext(layout, l, nodes, due, tests);
      && |l'.deadline| == |layout|
      && forall n :: 0 <= n < |layout| && l.deadline[n] != NO_VAL ==> l'.deadline[n] == l.deadline[n]
    decreases |nodes|
  {
    if nodes != [] {
      var n, rest := nodes[0], nodes[1..];
      if n < 0 || !Active(layout, l, n) {
        DeadlinesStay(layout, l, rest, due, tests);
      } else if !l.ioError[n] {
        if l.deadline[n] != NO_VAL || tests[n].NotSent? {
          DeadlinesStay(layout, l, rest, due, tests);
        } else if tests[n].Sent? {
          DeadlinesStay(layout, l.(deadline := l.deadline[n := due]), rest, due, tests);
        }
      }
    }
  }

  // ---------------------------------------------------------------------------------------------
  // The handlers.

  class LaunchState {
    const layout: seq<seq<nat>>
    var started: seq<bool>
    var exited: seq<bool>
    var ioError: seq<bool>
    var deadline: seq<int>
    var abort: bool
    var timer: bool

    ghost function State(): (l: Launch)
      reads this
    {
      Launch(started, exited, ioError, deadline, abort, timer)
    }

    ghost predicate Valid()
      reads this
    {
      Inv(layout, State())
    }

    /** step_launch_state_create. */
    constructor (layout: seq<seq<nat>>, tasks: nat)
      requires forall n :: 0 <= n < |layout| ==> InRange(layout[n], tasks)
      ensures Valid() && this.layout == layout && State() == Init(tasks, |layout|)
    {
      this.layout := layout;
      started, exited := seq(tasks, _ => false), seq(tasks, _ => false);
      ioError, deadline := seq(|layout|, _ => false), seq(|layout|, _ => NO_VAL);
      abort, timer := false, false;
    }

    method MarkStarted(ids: seq<nat>)
      requires InRange(ids, |started|)
      modifies this`started
      ensures started == SetAll(old(started), ids)
    {
      var i := 0;
      assert ids[0..] == ids;
      while i < |ids|
        invariant i <= |ids| && |started| == old(|started|) && SetAll(started, ids[i..]) == SetAll(old(started), ids)
      {
        assert ids[i..][1..] == ids[i + 1..];
        started := started[ids[i] := true];
        i := i + 1;
      }
    }

    method MarkExited(ids: seq<nat>)
      requires InRange(ids, |exited|)
      modifies this`exited
      ensures exited == SetAll(old(exited), ids)
    {
      var i := 0;
      assert ids[0..] == ids;
      while i < |ids|
        invariant i <= |ids| && |exited| == old(|exited|) && SetAll(exited, ids[i..]) == SetAll(old(exited), ids)
      {
        assert ids[i..][1..] == ids[i + 1..];
        exited := exited[ids[i] := true];
        i := i + 1;
      }
    }

    method LaunchHandler(ids: seq<nat>, failed: bool)
      requires Valid() && InRange(ids, |started|)
      modifies this`started, this`exited
      ensures Valid() && State() == LaunchedNext(old(State()), ids, failed)
    {
      NextInv(layout, State(), Launched(ids, failed));
      if |ids| > 0 && started[ids[0]] { return; }
      MarkStarted(ids);
      if failed { MarkExited(ids); }
    }

    /** mine: the message is for this job step. */
    method ExitHandler(ids: seq<nat>, mine: bool)
      requires Valid() && (mine ==> InRange(ids, |exited|))
      modifies this`exited
      ensures Valid() && State() == if mine then Next(layout, old(State()), Exited(ids)) else old(State())
    {
      if !mine { return; }
      NextInv(layout, State(), Exited(ids));
      MarkExited(ids);
    }

    method NodeFailHandler(nodes: seq<int>)
      requires Valid() && forall i :: 0 <= i < |nodes| ==> nodes[i] < |layout|
      modifies this`started, this`exited
      ensures Valid() && State() == NodesFailedNext(layout, old(State()), nodes)
    {
      NodesFailedInv(layout, State(), nodes);
      var i := 0;
      assert nodes[0..] == nodes;
      while i < |nodes|
        invariant i <= |nodes| && Valid()
        invariant NodesFailedNext(layout, State(), nodes[i..]) == NodesFailedNext(layout, old(State()), nodes)
      {
        assert nodes[i..][1..] == nodes[i + 1..];
        if nodes[i] >= 0 {
          MarkStarted(layout[nodes[i]]);
          MarkExited(layout[nodes[i]]);
        }
        i := i + 1;
      }
    }

    /** The loop over the tasks of a node. */
    method IsActive(n: nat) returns (active: bool)
      requires Valid() && n < |layout|
      ensures active == Active(layout, State(), n)
    {
      var j := 0;
      while j < |layout[n]|
        invariant j <= |layout[n]|
        invariant forall k :: 0 <= k < j ==> !(started[layout[n][k]] && !exited[layout[n][k]])
      {
        if started[layout[n][j]] && !exited[layout[n][j]] { return true; }
        j := j + 1;
      }
      active := false;
    }

    /** tests[n] is what sending a test message to node n would report, due the deadline of tests sent now. */
    method StepMissingHandler(nodes: seq<int>, due: int, tests: seq<TestResult>, threadStarts: bool)
      requires Valid() && |tests| == |layout| && forall i :: 0 <= i < |nodes| ==> nodes[i] < |layout|
      modifies this`abort, this`timer, this`deadline
      ensures Valid() && State() == Next(layout, old(State()), StepMissing(nodes, due, tests, threadStarts))
    {
      NextInv(layout, State(), StepMissing(nodes, due, tests, threadStarts));
      if !timer {
        if !threadStarts {
          abort := true;
          return;
        }
        timer := true;
      }
      TestNodes(nodes, due, tests);
    }

    method TestNodes(nodes: seq<int>, due: int, tests: seq<TestResult>)
      requires Valid() && |tests| == |layout| && forall i :: 0 <= i < |nodes| ==> nodes[i] < |layout|
      modifies this`abort, this`deadline
      ensures State() == MissingNext(layout, old(State()), nodes, due, tests)
    {
      var i := 0;
      assert nodes[0..] == nodes;
      while i < |nodes|
        invariant i <= |nodes| && Valid()
        invariant MissingNext(layout, State(), nodes[i..], due, tests)
                  == MissingNext(layout, old(State()), nodes, due, tests)
      {
        assert nodes[i..][1..] == nodes[i + 1..];
        var n := nodes[i];
        i := i + 1;
        if n < 0 { continue; }
        var active := IsActive(n);
        if !active { continue; }
        if ioError[n] {
          abort := true;
          return;
        }
        if deadline[n] != NO_VAL { continue; }
        ghost var before := deadline;
        deadline := deadline[n := due];
        if tests[n].CannotTest? {
          abort := true;
          return;
        }
        if tests[n].NotSent? {
          deadline := deadline[n := NO_VAL];
          assert deadline == before;
        }
      }
    }

    method NotifyIoFailure(n: nat)
      requires Valid() && n < |layout|
      modifies this`ioError, this`abort
      ensures Valid() && State() == Next(layout, old(State()), IoFailure(n))
    {
      ioError := ioError[n := true];
      if deadline[n] != NO_VAL { abort := true; }
    }

    method ClearQuestionableState(n: nat)
      requires Valid() && n < |layout|
      modifies this`deadline
      ensures Valid() && State() == Next(layout, old(State()), Confirmed(n))
    {
      deadline := deadline[n := NO_VAL];
    }

    /** A turn of the loop of _check_io_timeout: aborts if a deadline has passed, and finds the earliest one
        otherwise. */
    method CheckDeadlines(now: int) returns (next: int)
      requires Valid()
      modifies this`abort
      ensures Valid() && State() == Next(layout, old(State()), Timer(now))
      ensures !Expired(State(), now) ==>
                && (next == NO_VAL <==> forall n :: 0 <= n < |deadline| ==> deadline[n] == NO_VAL)
                && (next != NO_VAL ==> next > now && next in deadline)
                && forall n :: 0 <= n < |deadline| && deadline[n] != NO_VAL ==> next <= deadline[n]
    {
      next := NO_VAL;
      var i := 0;
      while i < |layout|
        invariant i <= |layout| && abort == old(abort)
        invariant forall n :: 0 <= n < i && deadline[n] != NO_VAL ==> deadline[n] > now
        invariant next == NO_VAL ==> forall n :: 0 <= n < i ==> deadline[n] == NO_VAL
        invariant next != NO_VAL ==> next > now && next in deadline
        invariant next != NO_VAL ==> forall n :: 0 <= n < i && deadline[n] != NO_VAL ==> next <= deadline[n]
      {
        if deadline[i] != NO_VAL {
          if deadline[i] <= now {
            abort := true;
            return;
          } else if next == NO_VAL || deadline[i] < next {
            next := deadline[i];
          }
        }
        i := i + 1;
      }
    }
  }
}
