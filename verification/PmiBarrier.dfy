// Barrier safety over all request sequences (src/api/pmi_server.c): counting empty slots refines
// remembering who has arrived.
module PmiBarrier {
  import opened KvsServer

  /** The barrier as its callers see it: the size (0: none in progress) and the requests of the tasks that arrived. */
  datatype Gathering = Gathering(size: nat, arrived: map<nat, Slot>)

  datatype Outcome = Outcome(ok: bool, after: Gathering, fires: bool, table: map<nat, Slot>)

  function Tasks(n: nat): (s: set<nat>)
    ensures forall i: nat :: i in s <==> i < n
  {
    if n == 0 then {} else Tasks(n - 1) + {n - 1}
  }

  /** A request joins the barrier in progress or starts one; wrong sizes and task ids are refused. */
  function Join(a: Gathering, q: Request): (o: Outcome)
  {
    if q.size == 0 then Outcome(false, a, false, map[])
    else
      var a1 := if a.size == 0 then Gathering(q.size, map[]) else a;
      if a1.size != q.size || q.taskId >= q.size then Outcome(false, a1, false, map[])
      else
        var arrived := a1.arrived[q.taskId := Slot(q.port, q.hostname)];
        if arrived.Keys == Tasks(q.size) then Outcome(true, Gathering(0, map[]), true, arrived)
        else Outcome(true, Gathering(q.size, arrived), false, map[])
  }

  ghost predicate Holds(slots: seq<Slot>, arrived: map<nat, Slot>)
  {
    && (forall i: nat :: i in arrived <==> i < |slots| && slots[i].port != 0)
    && (forall i: nat :: i in arrived ==> arrived[i] == slots[i])
  }

  /** Between calls the count is the number of filled slots and below the size. */
  ghost predicate Represents(b: Barrier, a: Gathering)
  {
    && |b.slots| == b.cnt == a.size
    && Holds(b.slots, a.arrived)
    && b.respCnt == |a.arrived.Keys|
    && (if b.cnt == 0 then b.respCnt == 0 else b.respCnt < b.cnt)
  }

  lemma {:induction false} TasksCount(n: nat)
    ensures |Tasks(n)| == n
  {
    if n > 0 {
      TasksCount(n - 1);
    }
  }

  lemma {:induction false} SubsetSize(s: set<nat>, t: set<nat>)
    requires s <= t
    ensures |s| <= |t| && (|s| == |t| ==> s == t)
  {
    if s != {} {
      var x :| x in s;
      SubsetSize(s - {x}, t - {x});
      assert s == (s - {x}) + {x} && t == (t - {x}) + {x};
    }
  }

  lemma HeldKeys(slots: seq<Slot>, arrived: map<nat, Slot>)
    requires Holds(slots, arrived)
    ensures |arrived.Keys| <= |slots|
    ensures |arrived.Keys| == |slots| <==> arrived.Keys == Tasks(|slots|)
  {
    TasksCount(|slots|);
    SubsetSize(arrived.Keys, Tasks(|slots|));
  }

  lemma AcceptRefines(b: Barrier, a: Gathering, q: Request)
    requires Represents(b, a) && b.cnt == q.size > q.taskId && q.port != 0
    ensures
      var r, o := Arrive(b, q), Join(a, q);
      && r.ok == o.ok && Represents(r.barrier, o.after)
      && (r.fired != [] <==> o.fires)
      && (o.fires ==> |r.fired| == q.size && Holds(r.fired, o.table))
  {
    var slots := b.slots[q.taskId := Slot(q.port, q.hostname)];
    var arrived := a.arrived[q.taskId := Slot(q.port, q.hostname)];
    assert Holds(slots, arrived);
    assert arrived.Keys == a.arrived.Keys + {q.taskId};
    HeldKeys(slots, arrived);
  }

  /** The first request of a barrier starts it empty. */
  lemma StartRefines(b: Barrier, a: Gathering, size: nat)
    requires Represents(b, a) && b.cnt == 0 && size > 0
    ensures Represents(Barrier(EmptySlots(size), b.respCnt, size), Gathering(size, map[]))
  {
  }

  /** Every request, good or bad, is treated as Join treats it. */
  lemma ArriveRefines(b: Barrier, a: Gathering, q: Request)
    requires Represents(b, a) && q.port != 0
    ensures
      var r, o := Arrive(b, q), Join(a, q);
      && r.ok == o.ok && Represents(r.barrier, o.after)
      && (r.fired != [] <==> o.fires)
      && (o.fires ==> |r.fired| == q.size && Holds(r.fired, o.table))
  {
    if q.size != 0 {
      var b1 := if b.cnt == 0 then Barrier(EmptySlots(q.size), b.respCnt, q.size) else b;
      var a1 := if a.size == 0 then Gathering(q.size, map[]) else a;
      if b.cnt == 0 { StartRefines(b, a, q.size); }
      if b1.cnt == q.size && q.taskId < b1.cnt { AcceptRefines(b1, a1, q); }
    }
  }

  /** When a request completes the barrier, and what it hands over. */
  lemma JoinFires(a: Gathering, q: Request)
    requires a.size == 0 ==> a.arrived == map[]
    ensures
      var o := Join(a, q);
      && (o.fires <==>
            && q.size > 0 && (a.size == 0 || a.size == q.size) && q.taskId < q.size
            && a.arrived.Keys + {q.taskId} == Tasks(q.size))
      && (o.fires ==> o.table == a.arrived[q.taskId := Slot(q.port, q.hostname)] && o.table.Keys == Tasks(q.size))
  {
    assert a.arrived[q.taskId := Slot(q.port, q.hostname)].Keys == a.arrived.Keys + {q.taskId};
  }

  // ---------------------------------------------------------------------------------------------
  // Whole runs.

  function RunTable(qs: seq<Request>): (b: Barrier)
    ensures |b.slots| == b.cnt
  {
    if qs == [] then NO_BARRIER else Arrive(RunTable(qs[..|qs| - 1]), qs[|qs| - 1]).barrier
  }

  function RunGathering(qs: seq<Request>): (a: Gathering)
  {
    if qs == [] then Gathering(0, map[]) else Join(RunGathering(qs[..|qs| - 1]), qs[|qs| - 1]).after
  }

  lemma {:induction false} RunRepresents(qs: seq<Request>)
    requires forall k :: 0 <= k < |qs| ==> qs[k].port != 0
    ensures Represents(RunTable(qs), RunGathering(qs))
  {
    if qs != [] {
      var before := qs[..|qs| - 1];
      RunRepresents(before);
      ArriveRefines(RunTable(before), RunGathering(before), qs[|qs| - 1]);
    }
  }

  /** After any requests qs, request q fires exactly when it completes the set of tasks 0..size-1; the
      table handed over is what the tasks last said, and the next barrier starts empty. */
  lemma BarrierSafety(qs: seq<Request>, q: Request)
    requires q.port != 0 && forall k :: 0 <= k < |qs| ==> qs[k].port != 0
    ensures
      var b, a := RunTable(qs), RunGathering(qs);
      var r := Arrive(b, q);
      && Represents(b, a)
      && (r.fired != [] <==>
            && q.size > 0 && (a.size == 0 || a.size == q.size) && q.taskId < q.size
            && a.arrived.Keys + {q.taskId} == Tasks(q.size))
      && (r.fired != [] ==>
            && r.barrier == NO_BARRIER && |r.fired| == q.size
            && (forall i: nat :: i < q.size && i != q.taskId ==> i in a.arrived && r.fired[i] == a.arrived[i])
            && r.fired[q.taskId] == Slot(q.port, q.hostname))
  {
    RunRepresents(qs);
    var b, a := RunTable(qs), RunGathering(qs);
    ArriveRefines(b, a, q);
    JoinFires(a, q);
    var o := Join(a, q);
    if o.fires {
      forall i: nat | i < q.size && i != q.taskId ensures i in a.arrived && Arrive(b, q).fired[i] == a.arrived[i] {
        assert i in o.table;
      }
      assert q.taskId in o.table;
    }
  }
}
