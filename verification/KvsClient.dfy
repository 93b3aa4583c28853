// The keyval spaces of one rank (src/api/pmi.c).
module KvsClient {
  import opened Kvs

  const PMI_MAX_KVSNAME_LEN := 256
  const PMI_MAX_KEY_LEN := 256
  const PMI_MAX_VAL_LEN := 256

  datatype ReturnCode = Success | InvalidKvs | InvalidKey | InvalidVal | InvalidLength

  /** struct kvs_rec: three parallel arrays; states[j] is KVS_KEY_STATE_LOCAL. */
  datatype KvsRec = KvsRec(name: string, states: seq<bool>, keys: seq<string>, values: seq<string>)

  ghost predicate Rows(r: KvsRec)
  {
    |r.states| == |r.keys| == |r.values|
  }

  ghost predicate StoreRows(recs: seq<KvsRec>)
  {
    forall i :: 0 <= i < |recs| ==> Rows(recs[i])
  }

  /** The record a space name refers to: the first one of that name, or |recs|. */
  function RecIndex(recs: seq<KvsRec>, name: string): (i: nat)
    ensures i <= |recs|
    ensures i < |recs| ==> recs[i].name == name
    ensures forall k :: 0 <= k < i ==> recs[k].name != name
  {
    if recs == [] || recs[0].name == name then 0 else 1 + RecIndex(recs[1..], name)
  }

  lemma RecIndexSame(recs: seq<KvsRec>, recs': seq<KvsRec>, name: string)
    requires |recs| == |recs'| && forall k :: 0 <= k < |recs| ==> recs[k].name == recs'[k].name
    ensures RecIndex(recs, name) == RecIndex(recs', name)
  {
    var i, i' := RecIndex(recs, name), RecIndex(recs', name);
    assert i < |recs| ==> recs[i].name == recs'[i].name;
    assert i' < |recs| ==> recs[i'].name == recs'[i'].name;
  }

  // ---------------------------------------------------------------------------------------------
  // The operations on values.

  function PutRec(noDup: bool, r: KvsRec, key: string, value: string, local: bool): (r': KvsRec)
    requires Rows(r)
    ensures Rows(r') && r'.name == r.name
  {
    var j := if noDup then |r.keys| else Find(r.keys, key);
    if j < |r.keys| then
      r.(states := if local then r.states[j := true] else r.states, values := r.values[j := value])
    else
      r.(states := r.states + [local], keys := r.keys + [key], values := r.values + [value])
  }

  function PutStore(noDup: bool, recs: seq<KvsRec>, name: string, key: string, value: string, local: bool)
    : (recs': seq<KvsRec>)
    requires StoreRows(recs)
    ensures StoreRows(recs') && |recs'| == |recs|
  {
    var i := RecIndex(recs, name);
    if i < |recs| then recs[i := PutRec(noDup, recs[i], key, value, local)] else recs
  }

  function Swap(r: KvsRec, a: nat, b: nat): (r': KvsRec)
    requires Rows(r) && a < |r.keys| && b < |r.keys|
    ensures Rows(r') && |r'.keys| == |r.keys| && r'.name == r.name
  {
    r.(states := r.states[a := r.states[b]][b := r.states[a]],
       keys := r.keys[a := r.keys[b]][b := r.keys[a]],
       values := r.values[a := r.values[b]][b := r.values[a]])
  }

  /** Row j moved behind the local rows already in front. */
  function ToFront(r: KvsRec, j: nat, local: nat): (r': KvsRec)
    requires Rows(r) && local <= j < |r.keys|
    ensures Rows(r') && |r'.keys| == |r.keys| && r'.name == r.name
  {
    if local != j then Swap(r, j, local) else r
  }

  /** The partition loop of PMI_KVS_Commit from position j, with local pairs already in front. */
  function Partition(r: KvsRec, j: nat, local: nat): (res: (KvsRec, nat))
    requires Rows(r) && local <= j <= |r.keys|
    ensures Rows(res.0) && |res.0.keys| == |r.keys| && res.1 <= |r.keys| && res.0.name == r.name
    decreases |r.keys| - j
  {
    if j == |r.keys| then (r, local)
    else if r.states[j] then Partition(ToFront(r, j, local), j + 1, local + 1)
    else Partition(r, j + 1, local)
  }

  /** The store and the message after packing records i, i+1, ... behind those already packed. */
  function Pack(recs: seq<KvsRec>, i: nat, packed: seq<Comm>): (res: (seq<KvsRec>, seq<Comm>))
    requires StoreRows(recs) && i <= |recs| && CommRows(packed)
    ensures StoreRows(res.0) && |res.0| == |recs| && CommRows(res.1)
    decreases |recs| - i
  {
    if i == |recs| then (recs, packed)
    else
      var (r, cnt) := Partition(recs[i], 0, 0);
      Pack(recs[i := r], i + 1, packed + if cnt == 0 then [] else [Comm(r.name, r.keys[..cnt], r.values[..cnt])])
  }

  /** Putting the pairs j, j+1, ... of one received space as GLOBAL. */
  function ApplyPairs(noDup: bool, recs: seq<KvsRec>, c: Comm, j: nat): (recs': seq<KvsRec>)
    requires StoreRows(recs) && |c.keys| == |c.values| && j <= |c.keys|
    ensures StoreRows(recs') && |recs'| == |recs|
    decreases |c.keys| - j
  {
    if j == |c.keys| then recs
    else ApplyPairs(noDup, PutStore(noDup, recs, c.name, c.keys[j], c.values[j], false), c, j + 1)
  }

  /** A received space with pairs but no open record of its name. */
  predicate NotOpen(recs: seq<KvsRec>, c: Comm)
  {
    c.keys != [] && RecIndex(recs, c.name) == |recs|
  }

  /** Some space before i is not open. */
  ghost predicate SomeNotOpen(recs: seq<KvsRec>, delta: seq<Comm>, i: nat)
    requires i <= |delta|
  {
    exists k :: 0 <= k < i && NotOpen(recs, delta[k])
  }

  ghost predicate SameNames(recs: seq<KvsRec>, recs': seq<KvsRec>)
  {
    |recs| == |recs'| && forall k :: 0 <= k < |recs| ==> recs[k].name == recs'[k].name
  }

  lemma SameNamesTwice(a: seq<KvsRec>, b: seq<KvsRec>, c: seq<KvsRec>)
    requires SameNames(a, b) && SameNames(b, c)
    ensures SameNames(a, c)
  {
  }

  lemma SomeNotOpenNext(recs: seq<KvsRec>, recs': seq<KvsRec>, delta: seq<Comm>, i: nat)
    requires SameNames(recs, recs') && i < |delta|
    ensures SomeNotOpen(recs, delta, i + 1) <==> SomeNotOpen(recs, delta, i) || NotOpen(recs', delta[i])
  {
    RecIndexSame(recs, recs', delta[i].name);
  }

  /** Putting the received spaces i, i+1, ... */
  function Apply(noDup: bool, recs: seq<KvsRec>, delta: seq<Comm>, i: nat): (recs': seq<KvsRec>)
    requires StoreRows(recs) && CommRows(delta) && i <= |delta|
    ensures StoreRows(recs') && |recs'| == |recs|
    decreases |delta| - i
  {
    if i == |delta| then recs else Apply(noDup, ApplyPairs(noDup, recs, delta[i], 0), delta, i + 1)
  }

  datatype Lookup = Found(value: string) | NoKey | NoSpace

  /** What PMI_KVS_Get finds, before the length check. */
  function Get(recs: seq<KvsRec>, name: string, key: string): (res: Lookup)
    requires StoreRows(recs)
  {
    var i := RecIndex(recs, name);
    if i == |recs| then NoSpace
    else
      var j := Find(recs[i].keys, key);
      if j == |recs[i].keys| then NoKey else Found(recs[i].values[j])
  }

  // ---------------------------------------------------------------------------------------------
  // The global state of the library, as the calls update it.

  class Library {
    var recs: seq<KvsRec>
    const noDup: bool

    ghost predicate Valid()
      reads this
    {
      StoreRows(recs)
    }

    constructor (noDup: bool)
      ensures Valid() && recs == [] && this.noDup == noDup
    {
      recs := [];
      this.noDup := noDup;
    }

    /** _init_kvs */
    method InitKvs(name: string)
      requires Valid()
      modifies this
      ensures Valid() && recs == old(recs) + [KvsRec(name, [], [], [])]
    {
      recs := recs + [KvsRec(name, [], [], [])];
    }

    /** _kvs_put */
    method KvsPut(name: string, key: string, value: string, local: bool) returns (rc: ReturnCode)
      requires Valid()
      modifies this
      ensures Valid() && recs == PutStore(noDup, old(recs), name, key, value, local)
      ensures rc == if RecIndex(old(recs), name) < |old(recs)| then Success else InvalidKvs
    {
      var i := 0;
      while i < |recs|
        invariant 0 <= i <= |recs| && recs == old(recs)
        invariant forall k :: 0 <= k < i ==> recs[k].name != name
      {
        if recs[i].name != name {
          i := i + 1;
          continue;
        }
        var r := recs[i];
        var j := if noDup then |r.keys| else 0;
        while j < |r.keys|
          invariant 0 <= j <= |r.keys| && r == recs[i] && recs == old(recs)
          invariant !noDup ==> forall k :: 0 <= k < j ==> r.keys[k] != key
          invariant noDup ==> j == |r.keys|
        {
          if r.keys[j] != key {
            j := j + 1;
            continue;
          }
          if local {
            r := r.(states := r.states[j := true]);
          }
          recs := recs[i := r.(values := r.values[j := value])];
          return Success;
        }
        r := r.(states := r.states + [local]);
        r := r.(values := r.values + [value]);
        r := r.(keys := r.keys + [key]);
        recs := recs[i := r];
        return Success;
      }
      rc := InvalidKvs;
    }

    /** PMI_KVS_Put.  A string of exactly the maximum length would be stored without its terminator. */
    method Put(name: string, key: string, value: string) returns (rc: ReturnCode)
      requires Valid()
      requires |name| != PMI_MAX_KVSNAME_LEN && |key| != PMI_MAX_KEY_LEN && |value| != PMI_MAX_VAL_LEN
      modifies this
      ensures Valid()
      ensures |name| > PMI_MAX_KVSNAME_LEN ==> rc == InvalidKvs && recs == old(recs)
      ensures |name| < PMI_MAX_KVSNAME_LEN && |key| > PMI_MAX_KEY_LEN ==> rc == InvalidKey && recs == old(recs)
      ensures |name| < PMI_MAX_KVSNAME_LEN && |key| < PMI_MAX_KEY_LEN && |value| > PMI_MAX_VAL_LEN ==>
                rc == InvalidVal && recs == old(recs)
      ensures |name| < PMI_MAX_KVSNAME_LEN && |key| < PMI_MAX_KEY_LEN && |value| < PMI_MAX_VAL_LEN ==>
                && recs == PutStore(noDup, old(recs), name, key, value, true)
                && rc == if RecIndex(old(recs), name) < |old(recs)| then Success else InvalidKvs
    {
      if |name| > PMI_MAX_KVSNAME_LEN {
        return InvalidKvs;
      }
      if |key| > PMI_MAX_KEY_LEN {
        return InvalidKey;
      }
      if |value| > PMI_MAX_VAL_LEN {
        return InvalidVal;
      }
      rc := KvsPut(name, key, value, true);
    }

    /** _kvs_swap on record i */
    method KvsSwap(i: nat, inx1: nat, inx2: nat)
      requires Valid() && i < |recs| && inx1 < |recs[i].keys| && inx2 < |recs[i].keys|
      modifies this
      ensures Valid() && recs == old(recs)[i := Swap(old(recs)[i], inx1, inx2)]
    {
      var r := recs[i];
      var state := r.states[inx1];
      r := r.(states := r.states[inx1 := r.states[inx2]]);
      r := r.(states := r.states[inx2 := state]);
      var tmp := r.keys[inx1];
      r := r.(keys := r.keys[inx1 := r.keys[inx2]]);
      r := r.(keys := r.keys[inx2 := tmp]);
      tmp := r.values[inx1];
      r := r.(values := r.values[inx1 := r.values[inx2]]);
      r := r.(values := r.values[inx2 := tmp]);
      recs := recs[i := r];
    }

    /** The inner loop of PMI_KVS_Commit: the local pairs of record i go to the front. */
    method PartitionRec(i: nat) returns (local: nat)
      requires Valid() && i < |recs|
      modifies this
      ensures Valid() && i < |recs| && recs == old(recs)[i := recs[i]]
      ensures (recs[i], local) == Partition(old(recs)[i], 0, 0)
    {
      local := 0;
      var j := 0;
      while j < |recs[i].keys|
        invariant Valid() && i < |recs| && recs == old(recs)[i := recs[i]]
        invariant 0 <= local <= j <= |recs[i].keys|
        invariant Partition(recs[i], j, local) == Partition(old(recs)[i], 0, 0)
        decreases |recs[i].keys| - j
      {
        if recs[i].states[j] {
          if local != j {
            KvsSwap(i, j, local);
          }
          local := local + 1;
        }
        j := j + 1;
      }
    }

    /** PMI_KVS_Commit: packs the LOCAL pairs of every space, whichever one is named. */
    method Commit() returns (kvsSet: seq<Comm>)
      requires Valid()
      modifies this
      ensures Valid() && (recs, kvsSet) == Pack(old(recs), 0, [])
    {
      kvsSet := [];
      var i := 0;
      while i < |recs|
        invariant Valid() && 0 <= i <= |recs| && |recs| == |old(recs)|
        invariant CommRows(kvsSet) && Pack(recs, i, kvsSet) == Pack(old(recs), 0, [])
      {
        var cnt := PartitionRec(i);
        if cnt != 0 {
          kvsSet := kvsSet + [Comm(recs[i].name, recs[i].keys[..cnt], recs[i].values[..cnt])];
        } else {
          assert kvsSet + [] == kvsSet;
        }
        i := i + 1;
      }
    }

    /** The inner loop of PMI_Barrier over the pairs of one received space. */
    method ApplySpace(c: Comm) returns (rc: ReturnCode)
      requires Valid() && |c.keys| == |c.values|
      modifies this
      ensures Valid() && recs == ApplyPairs(noDup, old(recs), c, 0) && SameNames(old(recs), recs)
      ensures rc == if NotOpen(old(recs), c) then InvalidKvs else Success
    {
      rc := Success;
      var j := 0;
      while j < |c.keys|
        invariant Valid() && 0 <= j <= |c.keys| && SameNames(old(recs), recs)
        invariant ApplyPairs(noDup, recs, c, j) == ApplyPairs(noDup, old(recs), c, 0)
        invariant rc == if j > 0 && NotOpen(old(recs), c) then InvalidKvs else Success
      {
        RecIndexSame(old(recs), recs, c.name);
        var k := KvsPut(c.name, c.keys[j], c.values[j], false);
        if k != Success {
          rc := k;
        }
        j := j + 1;
      }
    }

    /** The loops of PMI_Barrier over the received pairs; rc is the last error. */
    method ApplyDelta(delta: seq<Comm>) returns (rc: ReturnCode)
      requires Valid() && CommRows(delta)
      modifies this
      ensures Valid() && recs == Apply(noDup, old(recs), delta, 0)
      ensures rc == if SomeNotOpen(old(recs), delta, |delta|) then InvalidKvs else Success
    {
      rc := Success;
      var i := 0;
      while i < |delta|
        invariant Valid() && 0 <= i <= |delta| && SameNames(old(recs), recs)
        invariant Apply(noDup, recs, delta, i) == Apply(noDup, old(recs), delta, 0)
        invariant rc == if SomeNotOpen(old(recs), delta, i) then InvalidKvs else Success
      {
        SomeNotOpenNext(old(recs), recs, delta, i);
        ghost var before := recs;
        var k := ApplySpace(delta[i]);
        SameNamesTwice(old(recs), before, recs);
        if k != Success {
          rc := k;
        }
        i := i + 1;
      }
    }

    /** PMI_KVS_Get.  The length is compared as an unsigned number, so a length of zero is no limit, and
        nothing is copied then. */
    method KvsGet(name: string, key: string, length: int) returns (rc: ReturnCode, value: string)
      requires Valid() && length >= 0
      requires |name| != PMI_MAX_KVSNAME_LEN && |key| != PMI_MAX_KEY_LEN
      ensures |name| > PMI_MAX_KVSNAME_LEN ==> rc == InvalidKvs
      ensures |name| < PMI_MAX_KVSNAME_LEN && |key| > PMI_MAX_KEY_LEN ==> rc == InvalidKey
      ensures |name| < PMI_MAX_KVSNAME_LEN && |key| < PMI_MAX_KEY_LEN ==>
                match Get(recs, name, key)
                case NoSpace => rc == InvalidKvs
                case NoKey => rc == InvalidKey
                case Found(v) =>
                  if length == 0 then rc == Success && value == ""
                  else if |v| > length - 1 then rc == InvalidLength
                  else rc == Success && value == v
    {
      value := "";
      if |name| > PMI_MAX_KVSNAME_LEN {
        return InvalidKvs, value;
      }
      if |key| > PMI_MAX_KEY_LEN {
        return InvalidKey, value;
      }
      var i := 0;
      while i < |recs|
        invariant 0 <= i <= |recs|
        invariant forall k :: 0 <= k < i ==> recs[k].name != name
      {
        if recs[i].name != name {
          i := i + 1;
          continue;
        }
        var j := 0;
        while j < |recs[i].keys|
          invariant 0 <= j <= |recs[i].keys|
          invariant forall k :: 0 <= k < j ==> recs[i].keys[k] != key
        {
          if recs[i].keys[j] != key {
            j := j + 1;
            continue;
          }
          if length >= 1 && |recs[i].values[j]| > length - 1 {
            return InvalidLength, value;
          }
          return Success, if length == 0 then "" else recs[i].values[j];
        }
        return InvalidKey, value;
      }
      rc := InvalidKvs;
    }
  }
}
