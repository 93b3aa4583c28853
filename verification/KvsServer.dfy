// srun's master copy of the keyval spaces and its barrier table (src/api/pmi_server.c).
module KvsServer {
  import opened Kvs

  /** kvs_key_sent: NULL until the first broadcast, then one flag per pair. */
  datatype SentFlags = Null | Flags(flags: seq<bool>)

  /** struct kvs_comm as kept by srun. */
  datatype ServerRec = ServerRec(name: string, keys: seq<string>, values: seq<string>, sent: SentFlags)

  ghost predicate RecRows(r: ServerRec)
  {
    && |r.keys| == |r.values|
    && (r.sent.Flags? ==> |r.sent.flags| == |r.keys|)
  }

  ghost predicate TableRows(recs: seq<ServerRec>)
  {
    forall i :: 0 <= i < |recs| ==> RecRows(recs[i])
  }

  /** A record inside the merge loop: the pairs appended so far have no flag yet. */
  ghost predicate MergingRows(r: ServerRec)
  {
    && |r.keys| == |r.values|
    && (r.sent.Flags? ==> |r.sent.flags| <= |r.keys|)
  }

  function NameIndex(recs: seq<ServerRec>, name: string): (i: nat)
    ensures i <= |recs|
    ensures i < |recs| ==> recs[i].name == name
    ensures forall k :: 0 <= k < i ==> recs[k].name != name
  {
    if recs == [] || recs[0].name == name then 0 else 1 + NameIndex(recs[1..], name)
  }

  // ---------------------------------------------------------------------------------------------
  // Merging a commit.

  function MergePair(noDup: bool, r: ServerRec, key: string, value: string): (r': ServerRec)
    requires MergingRows(r)
    ensures MergingRows(r') && r'.name == r.name && r'.sent.Flags? == r.sent.Flags?
    ensures r'.sent.Flags? ==> |r'.sent.flags| == |r.sent.flags|
  {
    var j := if noDup then |r.keys| else Find(r.keys, key);
    if j < |r.keys| then
      r.(values := r.values[j := value],
         sent := if r.sent.Flags? && j < |r.sent.flags| then Flags(r.sent.flags[j := false]) else r.sent)
    else
      r.(keys := r.keys + [key], values := r.values + [value])
  }

  /** The merge loop from pair i of the incoming space. */
  function MergeFrom(noDup: bool, r: ServerRec, c: Comm, i: nat): (r': ServerRec)
    requires MergingRows(r) && |c.keys| == |c.values| && i <= |c.keys|
    ensures MergingRows(r') && r'.name == r.name && r'.sent.Flags? == r.sent.Flags?
    ensures r'.sent.Flags? ==> |r'.sent.flags| == |r.sent.flags|
    decreases |c.keys| - i
  {
    if i == |c.keys| then r else MergeFrom(noDup, MergePair(noDup, r, c.keys[i], c.values[i]), c, i + 1)
  }

  /** The xrealloc that ends the merge: flags for the appended pairs, cleared. */
  function GrowFlags(r: ServerRec): (r': ServerRec)
    requires MergingRows(r)
    ensures RecRows(r') && r'.name == r.name && r'.keys == r.keys && r'.values == r.values
  {
    if r.sent.Null? then r
    else r.(sent := Flags(r.sent.flags + seq(|r.keys| - |r.sent.flags|, _ => false)))
  }

  function Merge(noDup: bool, r: ServerRec, c: Comm): (r': ServerRec)
    requires RecRows(r) && |c.keys| == |c.values|
    ensures RecRows(r') && r'.name == r.name
  {
    GrowFlags(MergeFrom(noDup, r, c, 0))
  }

  /** pmi_kvs_put from space i of the incoming set. */
  function PutSet(noDup: bool, recs: seq<ServerRec>, kvsSet: seq<Comm>, i: nat): (recs': seq<ServerRec>)
    requires TableRows(recs) && CommRows(kvsSet) && i <= |kvsSet|
    ensures TableRows(recs')
    decreases |kvsSet| - i
  {
    if i == |kvsSet| then recs
    else PutSet(noDup, PutSpace(noDup, recs, kvsSet[i]), kvsSet, i + 1)
  }

  function PutSpace(noDup: bool, recs: seq<ServerRec>, c: Comm): (recs': seq<ServerRec>)
    requires TableRows(recs) && |c.keys| == |c.values|
    ensures TableRows(recs')
  {
    var k := NameIndex(recs, c.name);
    if k < |recs| then recs[k := Merge(noDup, recs[k], c)]
    else recs + [ServerRec(c.name, c.keys, c.values, Null)]
  }

  /** Merging c stays within the flags of the record it goes to. */
  ghost predicate MergesInside(noDup: bool, recs: seq<ServerRec>, c: Comm)
  {
    var k := NameIndex(recs, c.name);
    noDup || k == |recs| || recs[k].sent.Null? || NewKeysOnce(recs[k].keys, c.keys)
  }

  /** Each space i, i+1, ... does, merged into the records as the spaces before it left them. */
  ghost predicate SetInside(noDup: bool, recs: seq<ServerRec>, kvsSet: seq<Comm>, i: nat)
    requires TableRows(recs) && CommRows(kvsSet) && i <= |kvsSet|
    decreases |kvsSet| - i
  {
    i < |kvsSet| ==>
      && MergesInside(noDup, recs, kvsSet[i])
      && SetInside(noDup, PutSpace(noDup, recs, kvsSet[i]), kvsSet, i + 1)
  }

  // ---------------------------------------------------------------------------------------------
  // Copying what has not been sent yet.

  /** c with the pairs j, j+1, ... whose flag is clear. */
  function Collect(r: ServerRec, flags: seq<bool>, j: nat, c: Comm): (c': Comm)
    requires |r.keys| == |r.values| == |flags| && j <= |flags| && |c.keys| == |c.values|
    ensures |c'.keys| == |c'.values| && c'.name == c.name
    decreases |flags| - j
  {
    if j == |flags| then c
    else Collect(r, flags, j + 1, if flags[j] then c else Comm(c.name, c.keys + [r.keys[j]], c.values + [r.values[j]]))
  }

  function UnsentPairs(r: ServerRec): (c: Comm)
    requires RecRows(r)
    ensures |c.keys| == |c.values| && c.name == r.name
  {
    Collect(r, FlagsOf(r), 0, Comm(r.name, [], []))
  }

  function FlagsOf(r: ServerRec): (flags: seq<bool>)
    requires RecRows(r)
    ensures |flags| == |r.keys|
  {
    if r.sent.Null? then seq(|r.keys|, _ => false) else r.sent.flags
  }

  /** _kvs_comm_dup: the delta, one entry per space, and every pair marked as sent. */
  function Delta(recs: seq<ServerRec>): (delta: seq<Comm>)
    requires TableRows(recs)
    ensures |delta| == |recs| && CommRows(delta)
  {
    seq(|recs|, i requires 0 <= i < |recs| => UnsentPairs(recs[i]))
  }

  function MarkSent(recs: seq<ServerRec>): (recs': seq<ServerRec>)
    requires TableRows(recs)
    ensures |recs'| == |recs| && TableRows(recs')
  {
    seq(|recs|, i requires 0 <= i < |recs| => recs[i].(sent := Flags(seq(|recs[i].keys|, _ => true))))
  }

  // ---------------------------------------------------------------------------------------------
  // The barrier table.

  /** struct barrier_resp; port 0 is an empty slot. */
  datatype Slot = Slot(port: nat, hostname: string)

  /** barrier_ptr, barrier_resp_cnt and barrier_cnt; no barrier is in progress when cnt is 0. */
  datatype Barrier = Barrier(slots: seq<Slot>, respCnt: nat, cnt: nat)

  datatype Request = Request(taskId: nat, size: nat, port: nat, hostname: string)

  const NO_BARRIER := Barrier([], 0, 0)

  function EmptySlots(n: nat): (s: seq<Slot>)
    ensures |s| == n && forall i :: 0 <= i < n ==> s[i].port == 0
  {
    seq(n, _ => Slot(0, ""))
  }

  datatype Arrival = Arrival(ok: bool, barrier: Barrier, fired: seq<Slot>)

  /** pmi_kvs_get on the barrier table; fired is the full table handed to the agent, or []. */
  function Arrive(b: Barrier, q: Request): (r: Arrival)
    requires |b.slots| == b.cnt
    ensures |r.barrier.slots| == r.barrier.cnt
  {
    if q.size == 0 then Arrival(false, b, [])
    else
      var b1 := if b.cnt == 0 then Barrier(EmptySlots(q.size), b.respCnt, q.size) else b;
      if b1.cnt != q.size then Arrival(false, b1, [])
      else if q.taskId >= b1.cnt then Arrival(false, b1, [])
      else
        var resp := if b1.slots[q.taskId].port == 0 then b1.respCnt + 1 else b1.respCnt;
        var slots := b1.slots[q.taskId := Slot(q.port, q.hostname)];
        if resp == b1.cnt then Arrival(true, NO_BARRIER, slots)
        else Arrival(true, Barrier(slots, resp, b1.cnt), [])
  }

  // ---------------------------------------------------------------------------------------------
  // srun's global variables, as the two RPC handlers update them.

  /** struct agent_arg */
  datatype AgentArg = AgentArg(slots: seq<Slot>, delta: seq<Comm>)

  class Server {
    var recs: seq<ServerRec>
    var updated: bool
    var barrier: Barrier
    var agents: seq<AgentArg>
    const noDup: bool

    ghost predicate Valid()
      reads this
    {
      TableRows(recs) && |barrier.slots| == barrier.cnt
    }

    constructor (noDup: bool)
      ensures Valid() && recs == [] && !updated && barrier == NO_BARRIER && agents == [] && this.noDup == noDup
    {
      recs, updated, barrier, agents := [], false, NO_BARRIER, [];
      this.noDup := noDup;
    }

    /** One pair of _merge_named_kvs.  The flag written must exist, hence the last precondition. */
    method MergeOne(r: ServerRec, key: string, value: string) returns (r': ServerRec)
      requires MergingRows(r)
      requires noDup || r.sent.Null? || Find(r.keys, key) < |r.sent.flags| || Find(r.keys, key) == |r.keys|
      ensures r' == MergePair(noDup, r, key, value)
    {
      r' := r;
      var j := if noDup then |r.keys| else 0;
      while j < |r.keys| && r.keys[j] != key
        invariant 0 <= j <= |r.keys|
        invariant noDup ==> j == |r.keys|
        invariant !noDup ==> forall l :: 0 <= l < j ==> r.keys[l] != key
      {
        j := j + 1;
      }
      if j < |r.keys| {
        if r.sent.Flags? {
          r' := r'.(sent := Flags(r.sent.flags[j := false]));
        }
        r' := r'.(values := r.values[j := value]);
      } else {
        r' := r'.(keys := r.keys + [key], values := r.values + [value]);
      }
    }

    /** The loop of _merge_named_kvs.  With kvs_key_sent allocated, a key the record lacks that comes
        twice in one incoming space would be found beyond the flags, hence the last precondition. */
    method MergeLoop(r0: ServerRec, c: Comm) returns (r: ServerRec)
      requires RecRows(r0) && |c.keys| == |c.values|
      requires noDup || r0.sent.Null? || NewKeysOnce(r0.keys, c.keys)
      ensures r == MergeFrom(noDup, r0, c, 0)
    {
      r := r0;
      var i := 0;
      while i < |c.keys|
        invariant 0 <= i <= |c.keys| && Grown(r0, r, c.keys[..i])
        invariant MergeFrom(noDup, r, c, i) == MergeFrom(noDup, r0, c, 0)
      {
        FlagExists(noDup, r0, r, c.keys, i);
        GrownNext(noDup, r0, r, c.keys, i, c.values[i]);
        r := MergeOne(r, c.keys[i], c.values[i]);
        i := i + 1;
      }
    }

    /** _merge_named_kvs */
    method MergeNamed(k: nat, c: Comm)
      requires Valid() && k < |recs| && |c.keys| == |c.values|
      requires noDup || recs[k].sent.Null? || NewKeysOnce(recs[k].keys, c.keys)
      modifies this`recs
      ensures Valid() && recs == old(recs)[k := Merge(noDup, old(recs)[k], c)]
    {
      var r := MergeLoop(recs[k], c);
      if r.sent.Flags? {
        r := r.(sent := Flags(r.sent.flags + seq(|r.keys| - |r.sent.flags|, _ => false)));
      }
      recs := recs[k := r];
    }

    /** One space of pmi_kvs_put: merged into the record of that name, or moved in as a new one. */
    method PutComm(c: Comm)
      requires Valid() && |c.keys| == |c.values| && MergesInside(noDup, recs, c)
      modifies this`recs
      ensures Valid() && recs == PutSpace(noDup, old(recs), c)
    {
      var k := FindByName(c.name);
      if k < |recs| {
        MergeNamed(k, c);
      } else {
        recs := recs + [ServerRec(c.name, c.keys, c.values, Null)];
      }
    }

    /** pmi_kvs_put */
    method KvsPut(kvsSet: seq<Comm>)
      requires Valid() && CommRows(kvsSet)
      requires SetInside(noDup, recs, kvsSet, 0)
      modifies this`recs, this`updated
      ensures Valid() && recs == PutSet(noDup, old(recs), kvsSet, 0) && updated
    {
      var i := 0;
      while i < |kvsSet|
        invariant Valid() && 0 <= i <= |kvsSet|
        invariant PutSet(noDup, recs, kvsSet, i) == PutSet(noDup, old(recs), kvsSet, 0)
        invariant SetInside(noDup, recs, kvsSet, i)
      {
        PutComm(kvsSet[i]);
        i := i + 1;
      }
      updated := true;
    }

    /** _find_kvs_by_name */
    method FindByName(name: string) returns (i: nat)
      ensures i == NameIndex(recs, name)
    {
      i := 0;
      while i < |recs| && recs[i].name != name
        invariant 0 <= i <= |recs|
        invariant forall k :: 0 <= k < i ==> recs[k].name != name
      {
        i := i + 1;
      }
    }

    /** One space of _kvs_comm_dup */
    method DupRec(i: nat) returns (c: Comm)
      requires Valid() && i < |recs|
      modifies this`recs
      ensures Valid() && |recs| == |old(recs)|
      ensures recs == old(recs)[i := old(recs)[i].(sent := Flags(seq(|old(recs)[i].keys|, _ => true)))]
      ensures c == UnsentPairs(old(recs)[i])
    {
      var r := recs[i];
      var flags := if r.sent.Null? then seq(|r.keys|, _ => false) else r.sent.flags;
      c := Comm(r.name, [], []);
      var j := 0;
      while j < |r.keys|
        invariant 0 <= j <= |r.keys| == |flags| && |c.keys| == |c.values|
        invariant forall k :: 0 <= k < j ==> flags[k]
        invariant flags[j..] == FlagsOf(r)[j..]
        invariant Collect(r, FlagsOf(r), j, c) == UnsentPairs(r)
      {
        assert flags[j] == flags[j..][0] == FlagsOf(r)[j..][0] == FlagsOf(r)[j];
        if !flags[j] {
          c := Comm(c.name, c.keys + [r.keys[j]], c.values + [r.values[j]]);
          flags := flags[j := true];
        }
        j := j + 1;
      }
      assert flags == seq(|r.keys|, _ => true);
      recs := recs[i := r.(sent := Flags(flags))];
    }

    /** _kvs_comm_dup */
    method CommDup() returns (delta: seq<Comm>)
      requires Valid()
      modifies this`recs
      ensures Valid() && delta == Delta(old(recs)) && recs == MarkSent(old(recs))
    {
      delta := [];
      var i := 0;
      while i < |recs|
        invariant Valid() && 0 <= i <= |recs| && |recs| == |old(recs)|
        invariant delta == Delta(old(recs))[..i]
        invariant recs[..i] == MarkSent(old(recs))[..i] && recs[i..] == old(recs)[i..]
      {
        assert recs[i] == old(recs)[i];
        var c := DupRec(i);
        delta := delta + [c];
        i := i + 1;
      }
    }

    /** _kvs_xmit_tasks: the table goes to a new agent with the delta, and the next barrier starts empty. */
    method XmitTasks()
      requires Valid()
      modifies this
      ensures Valid() && barrier == NO_BARRIER && !updated
      ensures recs == if old(updated) then MarkSent(old(recs)) else old(recs)
      ensures agents == old(agents) + [AgentArg(old(barrier.slots), if old(updated) then Delta(old(recs)) else [])]
    {
      var slots := barrier.slots;
      barrier := NO_BARRIER;
      var delta := [];
      if updated {
        delta := CommDup();
        updated := false;
      }
      agents := agents + [AgentArg(slots, delta)];
    }

    /** pmi_kvs_get */
    method KvsGet(q: Request) returns (ok: bool)
      requires Valid()
      modifies this
      ensures Valid()
      ensures
        var r := Arrive(old(barrier), q);
        && ok == r.ok && barrier == r.barrier
        && if r.fired != [] then
             && recs == (if old(updated) then MarkSent(old(recs)) else old(recs))
             && agents == old(agents) + [AgentArg(r.fired, if old(updated) then Delta(old(recs)) else [])]
             && !updated
           else
             recs == old(recs) && agents == old(agents) && updated == old(updated)
    {
      if q.size == 0 {
        return false;
      }
      if barrier.cnt == 0 {
        barrier := barrier.(cnt := q.size, slots := EmptySlots(q.size));
      } else if barrier.cnt != q.size {
        return false;
      }
      if q.taskId >= barrier.cnt {
        return false;
      }
      if barrier.slots[q.taskId].port == 0 {
        barrier := barrier.(respCnt := barrier.respCnt + 1);
      }
      barrier := barrier.(slots := barrier.slots[q.taskId := Slot(q.port, q.hostname)]);
      if barrier.respCnt == barrier.cnt {
        XmitTasks();
      }
      ok := true;
    }
  }

  /** r is r0 inside the merge loop, after the given keys. */
  ghost predicate Grown(r0: ServerRec, r: ServerRec, keys: seq<string>)
  {
    && RecRows(r0) && MergingRows(r)
    && r.sent.Flags? == r0.sent.Flags?
    && (r.sent.Flags? ==> |r.sent.flags| == |r0.keys|)
    && r0.keys <= r.keys
    && forall j :: |r0.keys| <= j < |r.keys| ==> r.keys[j] in keys
  }

  lemma GrownNext(noDup: bool, r0: ServerRec, r: ServerRec, keys: seq<string>, i: nat, value: string)
    requires i < |keys| && Grown(r0, r, keys[..i])
    ensures Grown(r0, MergePair(noDup, r, keys[i], value), keys[..i + 1])
  {
    assert keys[..i + 1] == keys[..i] + [keys[i]];
  }

  /** The key is either new or has a flag. */
  lemma FlagExists(noDup: bool, r0: ServerRec, r: ServerRec, keys: seq<string>, i: nat)
    requires i < |keys| && Grown(r0, r, keys[..i])
    requires noDup || r0.sent.Null? || NewKeysOnce(r0.keys, keys)
    ensures noDup || r.sent.Null? || Find(r.keys, keys[i]) < |r.sent.flags| || Find(r.keys, keys[i]) == |r.keys|
  {
    if !noDup && r.sent.Flags? {
      if keys[i] in r0.keys {
        var k :| 0 <= k < |r0.keys| && r0.keys[k] == keys[i];
        assert r.keys[k] == keys[i];
      } else {
        forall j | 0 <= j < |r.keys| ensures r.keys[j] != keys[i] {
          if j < |r0.keys| {
            assert r.keys[j] == r0.keys[j];
          } else {
            var l :| 0 <= l < i && keys[..i][l] == r.keys[j];
            assert keys[l] == r.keys[j];
          }
        }
      }
    }
  }

  /** No key that is not in keys occurs twice among incoming. */
  ghost predicate NewKeysOnce(keys: seq<string>, incoming: seq<string>)
  {
    forall i, j :: 0 <= i < j < |incoming| && incoming[i] == incoming[j] ==> incoming[i] in keys
  }

  /** What ranks send: with duplicate checking, no space has a key twice. */
  lemma {:induction false} DistinctIsInside(noDup: bool, recs: seq<ServerRec>, kvsSet: seq<Comm>, i: nat)
    requires TableRows(recs) && CommRows(kvsSet) && i <= |kvsSet|
    requires noDup || forall k :: 0 <= k < |kvsSet| ==> Distinct(kvsSet[k].keys)
    ensures SetInside(noDup, recs, kvsSet, i)
    decreases |kvsSet| - i
  {
    if i < |kvsSet| {
      DistinctIsInside(noDup, PutSpace(noDup, recs, kvsSet[i]), kvsSet, i + 1);
    }
  }
}
