// Delta broadcast refines full broadcast (src/api/pmi_server.c): whatever values are put, in the
// deduplicating mode the deltas broadcast so far add up to srun's whole table after every barrier.
module KvsBroadcast {
  import opened Kvs
  import opened KvsServer
  import opened KvsServerProofs

  /** s with the pairs of d replacing those of the same name and key. */
  ghost function Override(s: set<Triple>, d: set<Triple>): (r: set<Triple>)
  {
    d + set t | t in s && !Mentions(d, t.0, t.1)
  }

  ghost predicate Mentions(s: set<Triple>, name: string, key: string)
  {
    exists t :: t in s && t.0 == name && t.1 == key
  }

  ghost predicate DistinctNames(recs: seq<ServerRec>)
  {
    forall i, j :: 0 <= i < j < |recs| ==> recs[i].name != recs[j].name
  }

  ghost predicate DistinctRecKeys(recs: seq<ServerRec>)
  {
    forall i :: 0 <= i < |recs| ==> Distinct(recs[i].keys)
  }

  /** A pair is unsent or agrees with what was delivered, and nothing else was delivered. */
  ghost predicate RecCovered(r: ServerRec, acc: set<Triple>)
    requires |r.keys| == |r.values|
  {
    && (forall j: nat :: j < |r.keys| && !IsUnsent(r, j) ==> (r.name, r.keys[j], r.values[j]) in acc)
    && (forall t :: t in acc && t.0 == r.name ==> t.1 in r.keys)
  }

  ghost predicate Functional(s: set<Triple>)
  {
    forall t, u :: t in s && u in s && t.0 == u.0 && t.1 == u.1 ==> t == u
  }

  ghost predicate Covered(recs: seq<ServerRec>, acc: set<Triple>)
  {
    && TableRows(recs) && DistinctNames(recs) && DistinctRecKeys(recs)
    && (forall i :: 0 <= i < |recs| ==> RecCovered(recs[i], acc))
    && (forall t :: t in acc ==> NameIndex(recs, t.0) < |recs|)
    && Functional(acc)
  }

  // ---------------------------------------------------------------------------------------------
  // Commits keep the coverage.

  lemma MergePairCovered(r: ServerRec, key: string, value: string, acc: set<Triple>)
    requires MergingRows(r) && Distinct(r.keys) && RecCovered(r, acc)
    ensures
      var r' := MergePair(false, r, key, value);
      Distinct(r'.keys) && RecCovered(r', acc)
  {
    var r' := MergePair(false, r, key, value);
    forall j: nat | j < |r'.keys| && !IsUnsent(r', j) ensures (r'.name, r'.keys[j], r'.values[j]) in acc {
      assert !IsUnsent(r, j) && j < |r.keys|;
    }
  }

  lemma {:induction false} MergeFromCovered(r: ServerRec, c: Comm, i: nat, acc: set<Triple>)
    requires MergingRows(r) && |c.keys| == |c.values| && i <= |c.keys|
    requires Distinct(r.keys) && RecCovered(r, acc)
    ensures
      var r' := MergeFrom(false, r, c, i);
      Distinct(r'.keys) && RecCovered(r', acc)
    decreases |c.keys| - i
  {
    if i < |c.keys| {
      MergePairCovered(r, c.keys[i], c.values[i], acc);
      MergeFromCovered(MergePair(false, r, c.keys[i], c.values[i]), c, i + 1, acc);
    }
  }

  lemma MergeCovered(r: ServerRec, c: Comm, acc: set<Triple>)
    requires RecRows(r) && |c.keys| == |c.values| && Distinct(r.keys) && RecCovered(r, acc)
    ensures Distinct(Merge(false, r, c).keys) && RecCovered(Merge(false, r, c), acc)
  {
    MergeFromCovered(r, c, 0, acc);
    var m := MergeFrom(false, r, c, 0);
    forall j: nat | j < |m.keys| ensures IsUnsent(GrowFlags(m), j) == IsUnsent(m, j) { }
  }

  lemma SameNames(recs: seq<ServerRec>, recs': seq<ServerRec>, name: string)
    requires |recs| <= |recs'| && forall k :: 0 <= k < |recs| ==> recs[k].name == recs'[k].name
    ensures NameIndex(recs, name) < |recs| ==> NameIndex(recs', name) < |recs'|
  {
    var i := NameIndex(recs, name);
    assert i < |recs| ==> recs'[i].name == name;
  }

  lemma PutSpaceCovered(recs: seq<ServerRec>, c: Comm, acc: set<Triple>)
    requires Covered(recs, acc) && |c.keys| == |c.values| && Distinct(c.keys)
    ensures Covered(PutSpace(false, recs, c), acc)
  {
    var k := NameIndex(recs, c.name);
    var recs' := PutSpace(false, recs, c);
    forall t | t in acc ensures NameIndex(recs', t.0) < |recs'| { SameNames(recs, recs', t.0); }
    if k < |recs| {
      MergeCovered(recs[k], c, acc);
    } else {
      forall t | t in acc ensures t.0 != c.name { }
    }
  }

  lemma {:induction false} PutSetCovered(recs: seq<ServerRec>, cs: seq<Comm>, i: nat, acc: set<Triple>)
    requires Covered(recs, acc) && CommRows(cs) && i <= |cs|
    requires forall k :: 0 <= k < |cs| ==> Distinct(cs[k].keys)
    ensures Covered(PutSet(false, recs, cs, i), acc)
    decreases |cs| - i
  {
    if i < |cs| {
      PutSpaceCovered(recs, cs[i], acc);
      PutSetCovered(PutSpace(false, recs, cs[i]), cs, i + 1, acc);
    }
  }

  // ---------------------------------------------------------------------------------------------
  // A barrier delivers everything.

  /** Two rows of the same name and key are the same row. */
  lemma SameRow(recs: seq<ServerRec>, acc: set<Triple>, i: nat, j: nat, i': nat, j': nat)
    requires Covered(recs, acc) && i < |recs| && j < |recs[i].keys| && i' < |recs| && j' < |recs[i'].keys|
    requires recs[i].name == recs[i'].name && recs[i].keys[j] == recs[i'].keys[j']
    ensures i == i' && j == j'
  {
  }

  lemma UnsentRow(recs: seq<ServerRec>, acc: set<Triple>, i: nat, j: nat)
    requires Covered(recs, acc) && i < |recs| && j < |recs[i].keys|
    ensures IsUnsent(recs[i], j) <==> Mentions(Unsent(recs), recs[i].name, recs[i].keys[j])
  {
    var u := (recs[i].name, recs[i].keys[j], recs[i].values[j]);
    if IsUnsent(recs[i], j) {
      assert u in RecUnsent(recs[i]);
      assert u in Unsent(recs);
    }
    if Mentions(Unsent(recs), u.0, u.1) {
      var t :| t in Unsent(recs) && t.0 == u.0 && t.1 == u.1;
      var i' :| 0 <= i' < |recs| && t in RecUnsent(recs[i']);
      var j' :| 0 <= j' < |recs[i'].keys| && IsUnsent(recs[i'], j')
                && t == (recs[i'].name, recs[i'].keys[j'], recs[i'].values[j']);
      SameRow(recs, acc, i, j, i', j');
    }
  }

  lemma DeliveredIsStored(recs: seq<ServerRec>, acc: set<Triple>, t: Triple)
    requires Covered(recs, acc) && t in acc && !Mentions(Unsent(recs), t.0, t.1)
    ensures t in All(recs)
  {
    var i := NameIndex(recs, t.0);
    assert t.1 in recs[i].keys;
    var j: nat :| j < |recs[i].keys| && recs[i].keys[j] == t.1;
    UnsentRow(recs, acc, i, j);
    assert (recs[i].name, recs[i].keys[j], recs[i].values[j]) in acc;
    assert t in RecAll(recs[i]);
  }

  lemma StoredIsDelivered(recs: seq<ServerRec>, acc: set<Triple>, t: Triple)
    requires Covered(recs, acc) && t in All(recs)
    ensures t in Override(acc, Unsent(recs))
  {
    var i :| 0 <= i < |recs| && t in RecAll(recs[i]);
    var j :| 0 <= j < |recs[i].keys| && t == (recs[i].name, recs[i].keys[j], recs[i].values[j]);
    UnsentRow(recs, acc, i, j);
    if IsUnsent(recs[i], j) {
      assert t in RecUnsent(recs[i]);
    } else {
      assert t in acc;
    }
  }

  lemma DeltaDeliversAll(recs: seq<ServerRec>, acc: set<Triple>)
    requires Covered(recs, acc)
    ensures Override(acc, Unsent(recs)) == All(recs)
  {
    forall t | t in Override(acc, Unsent(recs)) ensures t in All(recs) {
      if t in Unsent(recs) {
        var i :| 0 <= i < |recs| && t in RecUnsent(recs[i]);
        assert t in RecAll(recs[i]);
      } else {
        DeliveredIsStored(recs, acc, t);
      }
    }
    forall t | t in All(recs) ensures t in Override(acc, Unsent(recs)) { StoredIsDelivered(recs, acc, t); }
  }

  lemma MarkSentCovered(recs: seq<ServerRec>, acc: set<Triple>)
    requires Covered(recs, acc)
    ensures Covered(MarkSent(recs), All(recs))
  {
    var m, s := MarkSent(recs), All(recs);
    forall t | t in s ensures NameIndex(m, t.0) < |m| {
      var i :| 0 <= i < |recs| && t in RecAll(recs[i]);
      assert m[i].name == t.0;
    }
    forall i | 0 <= i < |m| ensures RecCovered(m[i], s) {
      forall j: nat | j < |m[i].keys| ensures (m[i].name, m[i].keys[j], m[i].values[j]) in s {
        assert (m[i].name, m[i].keys[j], m[i].values[j]) in RecAll(recs[i]);
      }
      forall t | t in s && t.0 == m[i].name ensures t.1 in m[i].keys {
        var k :| 0 <= k < |recs| && t in RecAll(recs[k]);
        assert k == i;
      }
    }
    AllFunctional(recs, acc);
  }

  lemma AllFunctional(recs: seq<ServerRec>, acc: set<Triple>)
    requires Covered(recs, acc)
    ensures Functional(All(recs))
  {
    var s := All(recs);
    forall t, u | t in s && u in s && t.0 == u.0 && t.1 == u.1 ensures t == u {
      var i :| 0 <= i < |recs| && t in RecAll(recs[i]);
      var j :| 0 <= j < |recs[i].keys| && t == (recs[i].name, recs[i].keys[j], recs[i].values[j]);
      var i' :| 0 <= i' < |recs| && u in RecAll(recs[i']);
      var j' :| 0 <= j' < |recs[i'].keys| && u == (recs[i'].name, recs[i'].keys[j'], recs[i'].values[j']);
      SameRow(recs, acc, i, j, i', j');
    }
  }

  // ---------------------------------------------------------------------------------------------
  // Whole runs of srun.

  datatype ServerOp = CommitOp(kvsSet: seq<Comm>) | BarrierOp

  /** recs, kvs_updated, and the pairs all broadcasts so far have delivered. */
  datatype ServerRun = ServerRun(recs: seq<ServerRec>, updated: bool, delivered: set<Triple>)

  ghost predicate OpOk(op: ServerOp)
  {
    op.CommitOp? ==> CommRows(op.kvsSet) && forall k :: 0 <= k < |op.kvsSet| ==> Distinct(op.kvsSet[k].keys)
  }

  ghost function StepOp(s: ServerRun, op: ServerOp): (s': ServerRun)
    requires TableRows(s.recs) && OpOk(op)
    ensures TableRows(s'.recs)
  {
    match op
    case CommitOp(kvsSet) => ServerRun(PutSet(false, s.recs, kvsSet, 0), true, s.delivered)
    case BarrierOp =>
      if s.updated then ServerRun(MarkSent(s.recs), false, Override(s.delivered, Triples(Delta(s.recs))))
      else ServerRun(s.recs, false, Override(s.delivered, Triples([])))
  }

  ghost function RunOps(ops: seq<ServerOp>): (s: ServerRun)
    requires forall k :: 0 <= k < |ops| ==> OpOk(ops[k])
    ensures TableRows(s.recs)
  {
    if ops == [] then ServerRun([], false, {})
    else StepOp(RunOps(ops[..|ops| - 1]), ops[|ops| - 1])
  }

  lemma {:induction false} RunCovered(ops: seq<ServerOp>)
    requires forall k :: 0 <= k < |ops| ==> OpOk(ops[k])
    ensures
      var s := RunOps(ops);
      Covered(s.recs, s.delivered) && (!s.updated ==> s.delivered == All(s.recs))
  {
    if ops != [] {
      var s, op := RunOps(ops[..|ops| - 1]), ops[|ops| - 1];
      RunCovered(ops[..|ops| - 1]);
      match op
      case CommitOp(kvsSet) => PutSetCovered(s.recs, kvsSet, 0, s.delivered);
      case BarrierOp =>
        if s.updated {
          DeltaSets(s.recs);
          DeltaDeliversAll(s.recs, s.delivered);
          MarkSentCovered(s.recs, s.delivered);
        } else {
          assert Override(s.delivered, {}) == s.delivered;
        }
    }
  }

  /** After every barrier, updated or not, the deltas delivered so far are the whole table. */
  lemma DeltaRefinesFullBroadcast(ops: seq<ServerOp>)
    requires forall k :: 0 <= k < |ops| ==> OpOk(ops[k])
    requires ops != [] && ops[|ops| - 1].BarrierOp?
    ensures RunOps(ops).delivered == All(RunOps(ops).recs)
  {
    RunCovered(ops);
  }

  // ---------------------------------------------------------------------------------------------
  // When the merge stays inside kvs_key_sent.

  /** Merging pair i of c writes a flag that does not exist. */
  ghost predicate Overruns(r: ServerRec, c: Comm, i: nat)
    requires MergingRows(r) && |c.keys| == |c.values| && i <= |c.keys|
    decreases |c.keys| - i
  {
    i < |c.keys| &&
    ((r.sent.Flags? && |r.sent.flags| <= Find(r.keys, c.keys[i]) < |r.keys|)
     || Overruns(MergePair(false, r, c.keys[i], c.values[i]), c, i + 1))
  }

  /** Incoming key l, which this merge has appended, or will append when it first comes at k. */
  ghost predicate ComesAgainAt(r: ServerRec, c: Comm, i: nat, k: nat, l: nat)
    requires r.sent.Flags? && |r.sent.flags| <= |r.keys|
  {
    && i <= k <= l < |c.keys| && c.keys[k] == c.keys[l]
    && if c.keys[l] in r.keys then c.keys[l] !in r.keys[..|r.sent.flags|] else k < l
  }

  ghost predicate ComesAgain(r: ServerRec, c: Comm, i: nat)
    requires r.sent.Flags? && |r.sent.flags| <= |r.keys|
  {
    exists k: nat, l: nat :: ComesAgainAt(r, c, i, k, l)
  }

  lemma {:induction false} OverrunCondition(r: ServerRec, c: Comm, i: nat)
    requires MergingRows(r) && |c.keys| == |c.values| && i <= |c.keys| && r.sent.Flags?
    ensures Overruns(r, c, i) <==> ComesAgain(r, c, i)
    decreases |c.keys| - i
  {
    if i < |c.keys| {
      OverrunCondition(MergePair(false, r, c.keys[i], c.values[i]), c, i + 1);
      OverrunStep(r, c, i);
    }
  }

  lemma MergedKeys(r: ServerRec, key: string, value: string, x: string)
    requires MergingRows(r) && r.sent.Flags?
    ensures
      var r' := MergePair(false, r, key, value);
      && (x in r'.keys <==> x in r.keys || x == key)
      && r'.keys[..|r.sent.flags|] == r.keys[..|r.sent.flags|]
  {
    var r', j := MergePair(false, r, key, value), Find(r.keys, key);
    if j == |r.keys| { assert r'.keys[j] == key; }
    if x in r.keys {
      var k :| 0 <= k < |r.keys| && r.keys[k] == x;
      assert r'.keys[k] == x;
    }
  }

  lemma OverrunStep(r: ServerRec, c: Comm, i: nat)
    requires MergingRows(r) && |c.keys| == |c.values| && i < |c.keys| && r.sent.Flags?
    ensures ComesAgain(r, c, i)
       <==> || |r.sent.flags| <= Find(r.keys, c.keys[i]) < |r.keys|
            || ComesAgain(MergePair(false, r, c.keys[i], c.values[i]), c, i + 1)
  {
    var key, n, j := c.keys[i], |r.sent.flags|, Find(r.keys, c.keys[i]);
    var r' := MergePair(false, r, key, c.values[i]);
    if n <= j < |r.keys| {
      assert key in r.keys && key !in r.keys[..n];
      assert ComesAgainAt(r, c, i, i, i);
    }
    if ComesAgain(r', c, i + 1) {
      var k: nat, l: nat :| ComesAgainAt(r', c, i + 1, k, l);
      MergedKeys(r, key, c.values[i], c.keys[l]);
      assert ComesAgainAt(r, c, i, if c.keys[l] in r.keys then k else if c.keys[l] == key then i else k, l);
    }
    if ComesAgain(r, c, i) && (j < n || j == |r.keys|) {
      var k: nat, l: nat :| ComesAgainAt(r, c, i, k, l);
      MergedKeys(r, key, c.values[i], c.keys[l]);
      assert j < n ==> r.keys[..n][j] == key;
      assert l != i;
      assert ComesAgainAt(r', c, i + 1, if k == i then l else k, l);
    }
  }

  /** With flags allocated, a merge overruns them exactly when a key the record lacks comes twice. */
  lemma MergeOverrunsIff(r: ServerRec, c: Comm)
    requires RecRows(r) && r.sent.Flags? && |c.keys| == |c.values|
    ensures Overruns(r, c, 0) <==> !NewKeysOnce(r.keys, c.keys)
  {
    OverrunCondition(r, c, 0);
    assert r.keys[..|r.sent.flags|] == r.keys;
    if ComesAgain(r, c, 0) {
      var k: nat, l: nat :| ComesAgainAt(r, c, 0, k, l);
      assert c.keys[k] == c.keys[l] && c.keys[k] !in r.keys;
    }
    if !NewKeysOnce(r.keys, c.keys) {
      var k: nat, l: nat :| k < l < |c.keys| && c.keys[k] == c.keys[l] && c.keys[k] !in r.keys;
      assert ComesAgainAt(r, c, 0, k, l);
    }
  }

  /** A record whose flags are allocated, and a message that has the same new key twice. */
  lemma MergeCanOverrun()
    ensures
      var r := ServerRec("kvs", ["old"], ["0"], Flags([true]));
      var c := Comm("kvs", ["new", "new"], ["1", "2"]);
      RecRows(r) && Overruns(r, c, 0)
  {
    var r := ServerRec("kvs", ["old"], ["0"], Flags([true]));
    var c := Comm("kvs", ["new", "new"], ["1", "2"]);
    assert c.keys[0] == c.keys[1] && c.keys[0] !in r.keys;
    MergeOverrunsIff(r, c);
  }
}
