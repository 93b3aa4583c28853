// What srun's table, its delta broadcasts and its barrier mean (src/api/pmi_server.c).
module KvsServerProofs {
  import opened Kvs
  import opened KvsServer

  // ---------------------------------------------------------------------------------------------
  // The table as a set of pairs, and the pairs still to be sent.

  predicate IsUnsent(r: ServerRec, j: nat)
  {
    r.sent.Null? || j >= |r.sent.flags| || !r.sent.flags[j]
  }

  ghost function RecAll(r: ServerRec): (s: set<Triple>)
    requires |r.keys| == |r.values|
  {
    RowTriples(r.name, r.keys, r.values)
  }

  ghost function RecUnsent(r: ServerRec): (s: set<Triple>)
    requires |r.keys| == |r.values|
  {
    set j | 0 <= j < |r.keys| && IsUnsent(r, j) :: (r.name, r.keys[j], r.values[j])
  }

  ghost function All(recs: seq<ServerRec>): (s: set<Triple>)
    requires TableRows(recs)
  {
    set i, t | 0 <= i < |recs| && t in RecAll(recs[i]) :: t
  }

  ghost function Unsent(recs: seq<ServerRec>): (s: set<Triple>)
    requires TableRows(recs)
  {
    set i, t | 0 <= i < |recs| && t in RecUnsent(recs[i]) :: t
  }

  lemma UpdateSets(recs: seq<ServerRec>, i: nat, r: ServerRec, extra: set<Triple>)
    requires TableRows(recs) && i < |recs| && RecRows(r)
    requires RecAll(r) == RecAll(recs[i]) + extra && RecUnsent(r) == RecUnsent(recs[i]) + extra
    ensures All(recs[i := r]) == All(recs) + extra && Unsent(recs[i := r]) == Unsent(recs) + extra
  {
    var recs' := recs[i := r];
    forall t
      ensures t in All(recs') <==> t in All(recs) || t in extra
      ensures t in Unsent(recs') <==> t in Unsent(recs) || t in extra
    {
      if t in All(recs') {
        var k :| 0 <= k < |recs'| && t in RecAll(recs'[k]);
        assert t in RecAll(recs[k]) || t in extra;
      }
      if t in All(recs) {
        var k :| 0 <= k < |recs| && t in RecAll(recs[k]);
        assert t in RecAll(recs'[k]);
      }
      if t in Unsent(recs') {
        var k :| 0 <= k < |recs'| && t in RecUnsent(recs'[k]);
        assert t in RecUnsent(recs[k]) || t in extra;
      }
      if t in Unsent(recs) {
        var k :| 0 <= k < |recs| && t in RecUnsent(recs[k]);
        assert t in RecUnsent(recs'[k]);
      }
      if t in extra { assert t in RecAll(recs'[i]) && t in RecUnsent(recs'[i]); }
    }
  }

  /** Merging a pair that repeats the value of a present key, in either mode, makes it present and unsent. */
  lemma MergePairSets(noDup: bool, r: ServerRec, key: string, value: string)
    requires MergingRows(r)
    requires forall j :: 0 <= j < |r.keys| && r.keys[j] == key ==> r.values[j] == value
    ensures
      var r', t := MergePair(noDup, r, key, value), (r.name, key, value);
      RecAll(r') == RecAll(r) + {t} && RecUnsent(r') == RecUnsent(r) + {t}
  {
    var r', t := MergePair(noDup, r, key, value), (r.name, key, value);
    var j := if noDup then |r.keys| else Find(r.keys, key);
    if j < |r.keys| {
      assert r'.values == r.values;
      assert t == (r.name, r.keys[j], r.values[j]);
      forall x ensures x in RecUnsent(r') <==> x in RecUnsent(r) || x == t {
        if x in RecUnsent(r) {
          var k :| 0 <= k < |r.keys| && IsUnsent(r, k) && x == (r.name, r.keys[k], r.values[k]);
          assert IsUnsent(r', k);
        }
        if x in RecUnsent(r') {
          var k :| 0 <= k < |r.keys| && IsUnsent(r', k) && x == (r.name, r.keys[k], r.values[k]);
          assert k == j || IsUnsent(r, k);
        }
        assert IsUnsent(r', j);
      }
    } else {
      var n := |r.keys|;
      assert r'.keys[n] == key && r'.values[n] == value && IsUnsent(r', n);
      forall k | 0 <= k < n
        ensures IsUnsent(r', k) == IsUnsent(r, k) && r'.keys[k] == r.keys[k] && r'.values[k] == r.values[k]
      {
      }
      assert RecAll(r') == RecAll(r) + {t};
      assert RecUnsent(r') == RecUnsent(r) + {t};
    }
  }

  lemma {:induction false} MergeFromSets(noDup: bool, r: ServerRec, c: Comm, i: nat, puts: Puts)
    requires MergingRows(r) && |c.keys| == |c.values| && i <= |c.keys| && c.name == r.name
    requires Agrees(RecAll(r), puts) && Agrees(RowsFrom(c, i), puts)
    ensures
      var r' := MergeFrom(noDup, r, c, i);
      RecAll(r') == RecAll(r) + RowsFrom(c, i) && RecUnsent(r') == RecUnsent(r) + RowsFrom(c, i)
    decreases |c.keys| - i
  {
    if i < |c.keys| {
      var t := (c.name, c.keys[i], c.values[i]);
      assert RowsFrom(c, i) == {t} + RowsFrom(c, i + 1);
      assert t in RowsFrom(c, i);
      forall j | 0 <= j < |r.keys| && r.keys[j] == c.keys[i] ensures r.values[j] == c.values[i] {
        assert (r.name, r.keys[j], r.values[j]) in RecAll(r);
      }
      MergePairSets(noDup, r, c.keys[i], c.values[i]);
      MergeFromSets(noDup, MergePair(noDup, r, c.keys[i], c.values[i]), c, i + 1, puts);
    }
  }

  lemma GrowFlagsSets(r: ServerRec)
    requires MergingRows(r)
    ensures RecAll(GrowFlags(r)) == RecAll(r) && RecUnsent(GrowFlags(r)) == RecUnsent(r)
  {
    forall j: nat | j < |r.keys| ensures IsUnsent(GrowFlags(r), j) == IsUnsent(r, j) { }
  }

  /** The table gained the pairs s, all of them unsent. */
  ghost predicate Gains(recs: seq<ServerRec>, recs': seq<ServerRec>, s: set<Triple>)
  {
    && TableRows(recs) && TableRows(recs')
    && All(recs') == All(recs) + s
    && Unsent(recs') == Unsent(recs) + s
  }

  lemma GainsTransitive(a: seq<ServerRec>, b: seq<ServerRec>, c: seq<ServerRec>, s: set<Triple>, t: set<Triple>)
    requires Gains(a, b, s) && Gains(b, c, t)
    ensures Gains(a, c, s + t)
  {
  }

  lemma PutSpaceSets(noDup: bool, recs: seq<ServerRec>, c: Comm, puts: Puts)
    requires TableRows(recs) && |c.keys| == |c.values|
    requires Agrees(All(recs), puts) && Agrees(RowsFrom(c, 0), puts)
    ensures Gains(recs, PutSpace(noDup, recs, c), RowsFrom(c, 0))
    ensures Agrees(All(PutSpace(noDup, recs, c)), puts)
  {
    var k := NameIndex(recs, c.name);
    if k < |recs| {
      forall t | t in RecAll(recs[k]) ensures t in All(recs) { }
      MergeFromSets(noDup, recs[k], c, 0, puts);
      GrowFlagsSets(MergeFrom(noDup, recs[k], c, 0));
      UpdateSets(recs, k, Merge(noDup, recs[k], c), RowsFrom(c, 0));
    } else {
      AppendSets(recs, ServerRec(c.name, c.keys, c.values, Null));
    }
  }

  lemma AppendSets(recs: seq<ServerRec>, r: ServerRec)
    requires TableRows(recs) && RecRows(r)
    ensures All(recs + [r]) == All(recs) + RecAll(r) && Unsent(recs + [r]) == Unsent(recs) + RecUnsent(r)
  {
    var recs' := recs + [r];
    assert recs'[|recs|] == r;
    forall t
      ensures t in All(recs') <==> t in All(recs) || t in RecAll(r)
      ensures t in Unsent(recs') <==> t in Unsent(recs) || t in RecUnsent(r)
    {
      if t in All(recs) {
        var k :| 0 <= k < |recs| && t in RecAll(recs[k]);
        assert t in RecAll(recs'[k]);
      }
      if t in Unsent(recs) {
        var k :| 0 <= k < |recs| && t in RecUnsent(recs[k]);
        assert t in RecUnsent(recs'[k]);
      }
    }
  }

  /** A commit adds exactly its pairs to the table, all of them unsent. */
  lemma {:induction false} PutSetSets(noDup: bool, recs: seq<ServerRec>, cs: seq<Comm>, i: nat, puts: Puts)
    requires TableRows(recs) && CommRows(cs) && i <= |cs|
    requires Agrees(All(recs), puts) && Agrees(TriplesFrom(cs, i), puts)
    ensures Gains(recs, PutSet(noDup, recs, cs, i), TriplesFrom(cs, i))
    decreases |cs| - i
  {
    if i < |cs| {
      TriplesFromNext(cs, i);
      var next := PutSpace(noDup, recs, cs[i]);
      PutSpaceSets(noDup, recs, cs[i], puts);
      PutSetSets(noDup, next, cs, i + 1, puts);
      GainsTransitive(recs, next, PutSet(noDup, recs, cs, i), RowsFrom(cs[i], 0), TriplesFrom(cs, i + 1));
    }
  }

  // ---------------------------------------------------------------------------------------------
  // The delta.

  lemma {:induction false} CollectSets(r: ServerRec, flags: seq<bool>, j: nat, c: Comm)
    requires |r.keys| == |r.values| == |flags| && j <= |flags| && |c.keys| == |c.values| && c.name == r.name
    ensures
      var c' := Collect(r, flags, j, c);
      RowTriples(c'.name, c'.keys, c'.values)
        == RowTriples(c.name, c.keys, c.values)
           + set k | j <= k < |flags| && !flags[k] :: (r.name, r.keys[k], r.values[k])
    decreases |flags| - j
  {
    if j < |flags| {
      if flags[j] {
        CollectSets(r, flags, j + 1, c);
      } else {
        var d := Comm(c.name, c.keys + [r.keys[j]], c.values + [r.values[j]]);
        CollectSets(r, flags, j + 1, d);
        var t := (r.name, r.keys[j], r.values[j]);
        assert RowTriples(d.name, d.keys, d.values) == RowTriples(c.name, c.keys, c.values) + {t} by {
          forall k | 0 <= k < |d.keys|
            ensures k == |c.keys| || (d.keys[k] == c.keys[k] && d.values[k] == c.values[k])
          {
          }
          assert d.keys[|c.keys|] == r.keys[j] && d.values[|c.keys|] == r.values[j];
        }
      }
    }
  }

  lemma UnsentPairsSets(r: ServerRec)
    requires RecRows(r)
    ensures var c := UnsentPairs(r); RowTriples(c.name, c.keys, c.values) == RecUnsent(r)
  {
    CollectSets(r, FlagsOf(r), 0, Comm(r.name, [], []));
  }

  /** The delta holds exactly the unsent pairs; afterwards nothing is unsent and no pair has changed. */
  lemma DeltaSets(recs: seq<ServerRec>)
    requires TableRows(recs)
    ensures Triples(Delta(recs)) == Unsent(recs)
    ensures Unsent(MarkSent(recs)) == {} && All(MarkSent(recs)) == All(recs)
  {
    var d, m := Delta(recs), MarkSent(recs);
    forall i | 0 <= i < |recs|
      ensures RowTriples(d[i].name, d[i].keys, d[i].values) == RecUnsent(recs[i])
      ensures RecAll(m[i]) == RecAll(recs[i]) && RecUnsent(m[i]) == {}
    {
      UnsentPairsSets(recs[i]);
    }
    assert All(m) == All(recs);
  }
}
