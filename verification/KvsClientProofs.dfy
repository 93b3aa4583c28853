// What the operations on a rank's keyval spaces mean (src/api/pmi.c).
module KvsClientProofs {
  import opened Kvs
  import opened KvsClient

  // ---------------------------------------------------------------------------------------------
  // PMI_KVS_Commit partitions three parallel arrays in place.

  type Entry = (bool, string, string)

  /** Row j of the parallel arrays. */
  function Entries(r: KvsRec): (es: seq<Entry>)
    requires Rows(r)
    ensures |es| == |r.keys|
  {
    seq(|r.keys|, j requires 0 <= j < |r.keys| => (r.states[j], r.keys[j], r.values[j]))
  }

  /** The LOCAL rows, in order. */
  function LocalRows(es: seq<Entry>): (l: seq<Entry>)
  {
    if es == [] then [] else (if es[0].0 then [es[0]] else []) + LocalRows(es[1..])
  }

  lemma SwapEntries(r: KvsRec, a: nat, b: nat)
    requires Rows(r) && a < |r.keys| && b < |r.keys|
    ensures Entries(Swap(r, a, b)) == Entries(r)[a := Entries(r)[b]][b := Entries(r)[a]]
    ensures multiset(Entries(Swap(r, a, b))) == multiset(Entries(r))
  {
  }

  /** Rows below cnt are LOCAL, rows from cnt to end are not. */
  ghost predicate Split(r: KvsRec, cnt: nat, end: nat)
  {
    && Rows(r)
    && cnt <= end <= |r.keys|
    && (forall k :: 0 <= k < cnt ==> r.states[k])
    && (forall k :: cnt <= k < end ==> !r.states[k])
  }

  lemma ToFrontSplit(r: KvsRec, j: nat, local: nat)
    requires Split(r, local, j) && j < |r.keys| && r.states[j]
    ensures Split(ToFront(r, j, local), local + 1, j + 1)
  {
  }

  lemma ToFrontRows(r: KvsRec, j: nat, local: nat)
    requires Rows(r) && local <= j < |r.keys|
    ensures SameRows(ToFront(r, j, local), r)
  {
    SwapEntries(r, j, local);
  }

  lemma ToFrontEntries(r: KvsRec, j: nat, local: nat)
    requires Rows(r) && local <= j < |r.keys|
    ensures
      var s, es := ToFront(r, j, local), Entries(r);
      && Entries(s)[..local + 1] == es[..local] + [es[j]]
      && Entries(s)[j + 1..] == es[j + 1..]
  {
    SwapEntries(r, j, local);
  }

  /** The same rows, each as often. */
  ghost predicate SameRows(r: KvsRec, r': KvsRec)
  {
    Rows(r) && Rows(r') && multiset(Entries(r)) == multiset(Entries(r'))
  }

  lemma {:induction false} PartitionStates(r: KvsRec, j: nat, local: nat)
    requires Split(r, local, j)
    ensures var (r', cnt) := Partition(r, j, local); Split(r', cnt, |r'.keys|)
    decreases |r.keys| - j
  {
    if j < |r.keys| {
      if r.states[j] {
        ToFrontSplit(r, j, local);
        PartitionStates(ToFront(r, j, local), j + 1, local + 1);
      } else {
        PartitionStates(r, j + 1, local);
      }
    }
  }

  lemma {:induction false} PartitionKeepsRows(r: KvsRec, j: nat, local: nat)
    requires Rows(r) && local <= j <= |r.keys|
    ensures SameRows(Partition(r, j, local).0, r)
    decreases |r.keys| - j
  {
    if j < |r.keys| {
      if r.states[j] {
        ToFrontRows(r, j, local);
        PartitionKeepsRows(ToFront(r, j, local), j + 1, local + 1);
      } else {
        PartitionKeepsRows(r, j + 1, local);
      }
    }
  }

  lemma LocalRowsAt(es: seq<Entry>, local: nat, j: nat)
    requires local <= j < |es|
    ensures es[..local] + LocalRows(es[j..])
         == (if es[j].0 then es[..local] + [es[j]] else es[..local]) + LocalRows(es[j + 1..])
  {
    assert es[j..] == [es[j]] + es[j + 1..];
  }

  lemma {:induction false} PartitionFront(r: KvsRec, j: nat, local: nat)
    requires Split(r, local, j)
    ensures
      var (r', cnt) := Partition(r, j, local);
      Entries(r')[..cnt] == Entries(r)[..local] + LocalRows(Entries(r)[j..])
    decreases |r.keys| - j
  {
    if j < |r.keys| {
      LocalRowsAt(Entries(r), local, j);
      if r.states[j] {
        ToFrontEntries(r, j, local);
        ToFrontSplit(r, j, local);
        PartitionFront(ToFront(r, j, local), j + 1, local + 1);
      } else {
        PartitionFront(r, j + 1, local);
      }
    }
  }

  /** The prefix sent is exactly the LOCAL rows in their order, and no row is lost, split or duplicated. */
  lemma PartitionSpec(r: KvsRec)
    requires Rows(r)
    ensures
      var (r', cnt) := Partition(r, 0, 0);
      && Entries(r')[..cnt] == LocalRows(Entries(r))
      && Split(r', cnt, |r'.keys|)
      && SameRows(r', r)
  {
    PartitionStates(r, 0, 0);
    PartitionKeepsRows(r, 0, 0);
    PartitionFront(r, 0, 0);
    assert Entries(r)[0..] == Entries(r);
  }

  lemma SameRow(r: KvsRec, r': KvsRec, e: Entry)
    requires SameRows(r, r')
    ensures e in Entries(r) <==> e in Entries(r')
  {
    assert e in multiset(Entries(r)) <==> e in multiset(Entries(r'));
  }

  /** With unique keys, every lookup is unchanged by the partition. */
  lemma PartitionKeepsLookups(recs: seq<KvsRec>, i: nat, name: string, key: string)
    requires StoreRows(recs) && i < |recs| && Distinct(recs[i].keys)
    ensures Get(recs[i := Partition(recs[i], 0, 0).0], name, key) == Get(recs, name, key)
  {
    var r, r' := recs[i], Partition(recs[i], 0, 0).0;
    var recs' := recs[i := r'];
    RecIndexSame(recs, recs', name);
    if RecIndex(recs, name) == i {
      PartitionSpec(r);
      var j, j' := Find(r.keys, key), Find(r'.keys, key);
      if j < |r.keys| {
        SameRow(r, r', Entries(r)[j]);
        var k :| 0 <= k < |r'.keys| && Entries(r')[k] == Entries(r)[j];
        assert j' <= k;
      }
      if j' < |r'.keys| {
        SameRow(r, r', Entries(r')[j']);
        var k :| 0 <= k < |r.keys| && Entries(r)[k] == Entries(r')[j'];
        assert j == k;
      }
    }
  }

  // ---------------------------------------------------------------------------------------------
  // The store as a set of pairs.

  ghost function RecAll(r: KvsRec): (s: set<Triple>)
    requires Rows(r)
  {
    RowTriples(r.name, r.keys, r.values)
  }

  ghost function RecLocal(r: KvsRec): (s: set<Triple>)
    requires Rows(r)
  {
    set j | 0 <= j < |r.keys| && r.states[j] :: (r.name, r.keys[j], r.values[j])
  }

  ghost function All(recs: seq<KvsRec>): (s: set<Triple>)
    requires StoreRows(recs)
  {
    set i, t | 0 <= i < |recs| && t in RecAll(recs[i]) :: t
  }

  /** The LOCAL pairs of the records from i on. */
  ghost function LocalFrom(recs: seq<KvsRec>, i: nat): (s: set<Triple>)
    requires StoreRows(recs)
  {
    set k, t | i <= k < |recs| && t in RecLocal(recs[k]) :: t
  }

  ghost function Local(recs: seq<KvsRec>): (s: set<Triple>)
    requires StoreRows(recs)
  {
    LocalFrom(recs, 0)
  }

  /** The names of the records, in order. */
  function Names(recs: seq<KvsRec>): (names: seq<string>)
    ensures |names| == |recs|
  {
    seq(|recs|, i requires 0 <= i < |recs| => recs[i].name)
  }

  predicate Open(recs: seq<KvsRec>, name: string)
  {
    RecIndex(recs, name) < |recs|
  }

  /** Records opened again under the same name stay unused. */
  ghost predicate OnlyFirstUsed(recs: seq<KvsRec>)
  {
    forall i, j :: 0 <= i < j < |recs| && recs[i].name == recs[j].name ==> recs[j].keys == []
  }

  ghost predicate UniqueKeys(recs: seq<KvsRec>)
  {
    forall i :: 0 <= i < |recs| ==> Distinct(recs[i].keys)
  }

  /** Replacing record i by one that has extra pairs. */
  lemma UpdateAll(recs: seq<KvsRec>, i: nat, r: KvsRec, extra: set<Triple>)
    requires StoreRows(recs) && i < |recs| && Rows(r) && RecAll(r) == RecAll(recs[i]) + extra
    ensures All(recs[i := r]) == All(recs) + extra
  {
    var recs' := recs[i := r];
    forall t ensures t in All(recs') <==> t in All(recs) || t in extra {
      if t in All(recs') {
        var k :| 0 <= k < |recs'| && t in RecAll(recs'[k]);
        assert t in RecAll(recs[k]) || t in extra;
      }
      if t in All(recs) {
        var k :| 0 <= k < |recs| && t in RecAll(recs[k]);
        assert t in RecAll(recs'[k]);
      }
      if t in extra { assert t in RecAll(recs'[i]); }
    }
  }

  lemma UpdateLocal(recs: seq<KvsRec>, i: nat, r: KvsRec, extra: set<Triple>, from: nat)
    requires StoreRows(recs) && from <= i < |recs| && Rows(r) && RecLocal(r) == RecLocal(recs[i]) + extra
    ensures LocalFrom(recs[i := r], from) == LocalFrom(recs, from) + extra
  {
    var recs' := recs[i := r];
    forall t ensures t in LocalFrom(recs', from) <==> t in LocalFrom(recs, from) || t in extra {
      if t in LocalFrom(recs', from) {
        var k :| from <= k < |recs'| && t in RecLocal(recs'[k]);
        assert t in RecLocal(recs[k]) || t in extra;
      }
      if t in LocalFrom(recs, from) {
        var k :| from <= k < |recs| && t in RecLocal(recs[k]);
        assert t in RecLocal(recs'[k]);
      }
      if t in extra { assert t in RecLocal(recs'[i]); }
    }
  }

  /** A put that repeats the value of a present key, in either mode, adds exactly that pair. */
  lemma PutRecSets(noDup: bool, r: KvsRec, key: string, value: string, local: bool)
    requires Rows(r)
    requires forall j :: 0 <= j < |r.keys| && r.keys[j] == key ==> r.values[j] == value
    ensures
      var r', t := PutRec(noDup, r, key, value, local), (r.name, key, value);
      && RecAll(r') == RecAll(r) + {t}
      && RecLocal(r') == RecLocal(r) + (if local then {t} else {})
  {
    var r', t := PutRec(noDup, r, key, value, local), (r.name, key, value);
    var j := if noDup then |r.keys| else Find(r.keys, key);
    if j < |r.keys| {
      assert r'.values == r.values;
      assert t == (r.name, r.keys[j], r.values[j]);
      forall x ensures x in RecLocal(r') <==> x in RecLocal(r) || (local && x == t) {
        if x in RecLocal(r) {
          var k :| 0 <= k < |r.keys| && r.states[k] && x == (r.name, r.keys[k], r.values[k]);
          assert r'.states[k];
        }
        if local && x == t { assert r'.states[j]; }
      }
    } else {
      var n := |r.keys|;
      assert r'.keys[n] == key && r'.values[n] == value && r'.states[n] == local;
      forall x ensures x in RecAll(r') <==> x in RecAll(r) || x == t {
        if x in RecAll(r) {
          var k :| 0 <= k < n && x == (r.name, r.keys[k], r.values[k]);
          assert x == (r'.name, r'.keys[k], r'.values[k]);
        }
      }
      forall x ensures x in RecLocal(r') <==> x in RecLocal(r) || (local && x == t) {
        if x in RecLocal(r) {
          var k :| 0 <= k < n && r.states[k] && x == (r.name, r.keys[k], r.values[k]);
          assert r'.states[k] && x == (r'.name, r'.keys[k], r'.values[k]);
        }
      }
    }
  }

  lemma PutStoreSets(noDup: bool, recs: seq<KvsRec>, name: string, key: string, value: string, local: bool, puts: Puts)
    requires StoreRows(recs) && Open(recs, name)
    requires Agrees(All(recs), puts) && (name, key) in puts && puts[(name, key)] == value
    ensures
      var recs', t := PutStore(noDup, recs, name, key, value, local), (name, key, value);
      && Names(recs') == Names(recs)
      && All(recs') == All(recs) + {t}
      && Local(recs') == Local(recs) + (if local then {t} else {})
  {
    var i := RecIndex(recs, name);
    var r := recs[i];
    forall j | 0 <= j < |r.keys| && r.keys[j] == key ensures r.values[j] == value {
      assert (name, key, r.values[j]) in RecAll(r);
      assert (name, key, r.values[j]) in All(recs);
    }
    PutRecSets(noDup, r, key, value, local);
    var r' := PutRec(noDup, r, key, value, local);
    UpdateAll(recs, i, r', {(name, key, value)});
    UpdateLocal(recs, i, r', if local then {(name, key, value)} else {}, 0);
  }

  /** What a put keeps whatever the values are. */
  lemma PutStoreKeeps(noDup: bool, recs: seq<KvsRec>, name: string, key: string, value: string, local: bool)
    requires StoreRows(recs)
    ensures
      var recs' := PutStore(noDup, recs, name, key, value, local);
      && Names(recs') == Names(recs)
      && (OnlyFirstUsed(recs) ==> OnlyFirstUsed(recs'))
      && (!noDup && UniqueKeys(recs) ==> UniqueKeys(recs'))
  {
    var i := RecIndex(recs, name);
    if i < |recs| && !noDup && Distinct(recs[i].keys) {
      assert Distinct(PutRec(noDup, recs[i], key, value, local).keys);
    }
  }

  // ---------------------------------------------------------------------------------------------
  // Commit.

  lemma PartitionSets(r: KvsRec)
    requires Rows(r)
    ensures
      var (r', cnt) := Partition(r, 0, 0);
      && RecAll(r') == RecAll(r)
      && RecLocal(r') == RecLocal(r)
      && RowTriples(r'.name, r'.keys[..cnt], r'.values[..cnt]) == RecLocal(r)
      && (cnt == 0 ==> RecLocal(r) == {})
  {
    var (r', cnt) := Partition(r, 0, 0);
    PartitionSpec(r);
    RowsToSets(r, r');
    RowsToSets(r', r);
    assert RowTriples(r'.name, r'.keys[..cnt], r'.values[..cnt]) == RecLocal(r') by {
      forall t ensures t in RowTriples(r'.name, r'.keys[..cnt], r'.values[..cnt]) <==> t in RecLocal(r') {
        if t in RecLocal(r') {
          var j :| 0 <= j < |r'.keys| && r'.states[j] && t == (r'.name, r'.keys[j], r'.values[j]);
          assert t == (r'.name, r'.keys[..cnt][j], r'.values[..cnt][j]);
        }
      }
    }
  }

  lemma RowsToSets(r: KvsRec, r': KvsRec)
    requires r.name == r'.name && SameRows(r, r')
    ensures RecAll(r) <= RecAll(r') && RecLocal(r) <= RecLocal(r')
  {
    forall j | 0 <= j < |r.keys|
      ensures (r.name, r.keys[j], r.values[j]) in RecAll(r')
      ensures r.states[j] ==> (r.name, r.keys[j], r.values[j]) in RecLocal(r')
    {
      SameRow(r, r', Entries(r)[j]);
      var k :| 0 <= k < |r'.keys| && Entries(r')[k] == Entries(r)[j];
    }
  }

  lemma {:induction false} PartitionDistinct(r: KvsRec, j: nat, local: nat)
    requires Rows(r) && local <= j <= |r.keys| && Distinct(r.keys)
    ensures Distinct(Partition(r, j, local).0.keys)
    decreases |r.keys| - j
  {
    if j < |r.keys| {
      if r.states[j] {
        PartitionDistinct(ToFront(r, j, local), j + 1, local + 1);
      } else {
        PartitionDistinct(r, j + 1, local);
      }
    }
  }

  ghost predicate DistinctKeys(cs: seq<Comm>)
  {
    forall i :: 0 <= i < |cs| ==> Distinct(cs[i].keys)
  }

  /** Commit changes no pair and no state, and the message holds exactly the LOCAL pairs. */
  lemma {:induction false} PackSets(recs: seq<KvsRec>, i: nat, packed: seq<Comm>)
    requires StoreRows(recs) && i <= |recs| && CommRows(packed)
    ensures
      var (recs', msg) := Pack(recs, i, packed);
      && Names(recs') == Names(recs)
      && All(recs') == All(recs)
      && Local(recs') == Local(recs)
      && Triples(msg) == Triples(packed) + LocalFrom(recs, i)
      && (OnlyFirstUsed(recs) ==> OnlyFirstUsed(recs'))
    decreases |recs| - i
  {
    if i < |recs| {
      var (r, packed') := PackOne(recs, i, packed);
      PackOneSets(recs, i, packed);
      PackStep(recs, i, r);
      PackSets(recs[i := r], i + 1, packed');
      assert Pack(recs, i, packed) == Pack(recs[i := r], i + 1, packed');
    }
  }

  /** Record i partitioned, and the message with its local pairs. */
  function PackOne(recs: seq<KvsRec>, i: nat, packed: seq<Comm>): (res: (KvsRec, seq<Comm>))
    requires StoreRows(recs) && i < |recs| && CommRows(packed)
    ensures Rows(res.0) && res.0.name == recs[i].name && |res.0.keys| == |recs[i].keys| && CommRows(res.1)
  {
    var (r, cnt) := Partition(recs[i], 0, 0);
    (r, packed + if cnt == 0 then [] else [Comm(r.name, r.keys[..cnt], r.values[..cnt])])
  }

  lemma PackOneSets(recs: seq<KvsRec>, i: nat, packed: seq<Comm>)
    requires StoreRows(recs) && i < |recs| && CommRows(packed)
    ensures
      var (r, packed') := PackOne(recs, i, packed);
      && RecAll(r) == RecAll(recs[i]) && RecLocal(r) == RecLocal(recs[i])
      && Triples(packed') == Triples(packed) + RecLocal(recs[i])
  {
    var (r, cnt) := Partition(recs[i], 0, 0);
    PartitionSets(recs[i]);
    if cnt > 0 {
      TriplesSnoc(packed, Comm(r.name, r.keys[..cnt], r.values[..cnt]));
    } else {
      assert packed + [] == packed;
    }
  }

  /** Unique keys stay unique, in the store and in the message. */
  lemma {:induction false} PackDistinct(recs: seq<KvsRec>, i: nat, packed: seq<Comm>)
    requires StoreRows(recs) && i <= |recs| && CommRows(packed)
    requires UniqueKeys(recs) && DistinctKeys(packed)
    ensures UniqueKeys(Pack(recs, i, packed).0) && DistinctKeys(Pack(recs, i, packed).1)
    decreases |recs| - i
  {
    if i < |recs| {
      var (r, packed') := PackOne(recs, i, packed);
      PartitionDistinct(recs[i], 0, 0);
      PackDistinct(recs[i := r], i + 1, packed');
      assert Pack(recs, i, packed) == Pack(recs[i := r], i + 1, packed');
    }
  }

  lemma PackStep(recs: seq<KvsRec>, i: nat, r: KvsRec)
    requires StoreRows(recs) && i < |recs| && Rows(r) && r.name == recs[i].name && |r.keys| == |recs[i].keys|
    requires RecAll(r) == RecAll(recs[i]) && RecLocal(r) == RecLocal(recs[i])
    ensures
      var next := recs[i := r];
      && Names(next) == Names(recs) && All(next) == All(recs) && Local(next) == Local(recs)
      && LocalFrom(recs, i) == RecLocal(recs[i]) + LocalFrom(next, i + 1)
      && (OnlyFirstUsed(recs) ==> OnlyFirstUsed(next))
  {
    UpdateAll(recs, i, r, {});
    UpdateLocal(recs, i, r, {}, 0);
    var next := recs[i := r];
    forall t ensures t in LocalFrom(recs, i) <==> t in RecLocal(recs[i]) || t in LocalFrom(next, i + 1) {
      if t in LocalFrom(recs, i) {
        var k :| i <= k < |recs| && t in RecLocal(recs[k]);
        assert k > i ==> t in RecLocal(next[k]);
      }
      if t in LocalFrom(next, i + 1) {
        var k :| i + 1 <= k < |next| && t in RecLocal(next[k]);
        assert t in RecLocal(recs[k]);
      }
    }
  }

  // ---------------------------------------------------------------------------------------------
  // Applying what a barrier delivered.

  /** The pairs of the spaces a rank has opened. */
  ghost function Visible(names: seq<string>, s: set<Triple>): (v: set<Triple>)
  {
    set t | t in s && t.0 in names
  }

  lemma OpenNames(recs: seq<KvsRec>, name: string)
    ensures Open(recs, name) <==> name in Names(recs)
  {
    if name in Names(recs) {
      var i :| 0 <= i < |recs| && Names(recs)[i] == name;
      assert recs[i].name == name;
    }
    if Open(recs, name) {
      assert Names(recs)[RecIndex(recs, name)] == name;
    }
  }

  lemma PutOne(noDup: bool, recs: seq<KvsRec>, t: Triple, puts: Puts)
    requires StoreRows(recs) && Agrees(All(recs), puts) && Agrees({t}, puts)
    ensures
      var recs' := PutStore(noDup, recs, t.0, t.1, t.2, false);
      && Names(recs') == Names(recs)
      && All(recs') == All(recs) + Visible(Names(recs), {t})
      && Local(recs') == Local(recs)
      && Agrees(All(recs'), puts)
  {
    assert t in {t};
    OpenNames(recs, t.0);
    if Open(recs, t.0) {
      PutStoreSets(noDup, recs, t.0, t.1, t.2, false, puts);
    }
  }

  lemma {:induction false} ApplyPairsSets(noDup: bool, recs: seq<KvsRec>, c: Comm, j: nat, puts: Puts)
    requires StoreRows(recs) && |c.keys| == |c.values| && j <= |c.keys|
    requires Agrees(All(recs), puts) && Agrees(RowsFrom(c, j), puts)
    ensures
      var recs' := ApplyPairs(noDup, recs, c, j);
      && Names(recs') == Names(recs)
      && All(recs') == All(recs) + Visible(Names(recs), RowsFrom(c, j))
      && Local(recs') == Local(recs)
    decreases |c.keys| - j
  {
    if j < |c.keys| {
      var t := (c.name, c.keys[j], c.values[j]);
      assert RowsFrom(c, j) == {t} + RowsFrom(c, j + 1);
      PutOne(noDup, recs, t, puts);
      var next := PutStore(noDup, recs, t.0, t.1, t.2, false);
      ApplyPairsSets(noDup, next, c, j + 1, puts);
      assert Visible(Names(recs), RowsFrom(c, j))
             == Visible(Names(recs), {t}) + Visible(Names(recs), RowsFrom(c, j + 1));
    }
  }

  /** A rank gains exactly the delivered pairs of the spaces it has opened, none of them LOCAL. */
  lemma {:induction false} ApplySets(noDup: bool, recs: seq<KvsRec>, delta: seq<Comm>, i: nat, puts: Puts)
    requires StoreRows(recs) && CommRows(delta) && i <= |delta|
    requires Agrees(All(recs), puts) && Agrees(TriplesFrom(delta, i), puts)
    ensures
      var recs' := Apply(noDup, recs, delta, i);
      && Names(recs') == Names(recs)
      && All(recs') == All(recs) + Visible(Names(recs), TriplesFrom(delta, i))
      && Local(recs') == Local(recs)
    decreases |delta| - i
  {
    if i < |delta| {
      TriplesFromNext(delta, i);
      ApplyPairsSets(noDup, recs, delta[i], 0, puts);
      var next := ApplyPairs(noDup, recs, delta[i], 0);
      ApplySets(noDup, next, delta, i + 1, puts);
      assert Visible(Names(recs), TriplesFrom(delta, i))
          == Visible(Names(recs), RowsFrom(delta[i], 0)) + Visible(Names(recs), TriplesFrom(delta, i + 1));
    }
  }

  lemma {:induction false} ApplyPairsKeeps(noDup: bool, recs: seq<KvsRec>, c: Comm, j: nat)
    requires StoreRows(recs) && |c.keys| == |c.values| && j <= |c.keys|
    ensures
      var recs' := ApplyPairs(noDup, recs, c, j);
      && (OnlyFirstUsed(recs) ==> OnlyFirstUsed(recs'))
      && (!noDup && UniqueKeys(recs) ==> UniqueKeys(recs'))
    decreases |c.keys| - j
  {
    if j < |c.keys| {
      PutStoreKeeps(noDup, recs, c.name, c.keys[j], c.values[j], false);
      ApplyPairsKeeps(noDup, PutStore(noDup, recs, c.name, c.keys[j], c.values[j], false), c, j + 1);
    }
  }

  lemma {:induction false} ApplyKeeps(noDup: bool, recs: seq<KvsRec>, delta: seq<Comm>, i: nat)
    requires StoreRows(recs) && CommRows(delta) && i <= |delta|
    ensures
      var recs' := Apply(noDup, recs, delta, i);
      && (OnlyFirstUsed(recs) ==> OnlyFirstUsed(recs'))
      && (!noDup && UniqueKeys(recs) ==> UniqueKeys(recs'))
    decreases |delta| - i
  {
    if i < |delta| {
      ApplyPairsKeeps(noDup, recs, delta[i], 0);
      ApplyKeeps(noDup, ApplyPairs(noDup, recs, delta[i], 0), delta, i + 1);
    }
  }

  // ---------------------------------------------------------------------------------------------
  // Lookups.

  /** A lookup is determined by the open spaces, the set of pairs and the values put. */
  lemma GetMeaning(recs: seq<KvsRec>, name: string, key: string, puts: Puts)
    requires StoreRows(recs) && OnlyFirstUsed(recs) && Agrees(All(recs), puts)
    ensures Get(recs, name, key)
         == if name !in Names(recs) then NoSpace
            else if (name, key) in puts && (name, key, puts[(name, key)]) in All(recs) then Found(puts[(name, key)])
            else NoKey
  {
    OpenNames(recs, name);
    var i := RecIndex(recs, name);
    if i < |recs| {
      var j := Find(recs[i].keys, key);
      if j < |recs[i].keys| {
        assert (name, key, recs[i].values[j]) in RecAll(recs[i]);
        assert (name, key, recs[i].values[j]) in All(recs);
      }
      if (name, key) in puts && (name, key, puts[(name, key)]) in All(recs) {
        var k :| 0 <= k < |recs| && (name, key, puts[(name, key)]) in RecAll(recs[k]);
        assert k == i;
        assert key in recs[i].keys;
      }
    }
  }
}
