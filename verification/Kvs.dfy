// Key-value pairs as they travel between the ranks and srun (src/api/slurm_pmi.h).
module Kvs {

  /** struct kvs_comm as sent: the pairs of one keyval space. */
  datatype Comm = Comm(name: string, keys: seq<string>, values: seq<string>)

  /** A pair in a space: name, key, value. */
  type Triple = (string, string, string)

  /** What the ranks have put: the value of each (name, key). */
  type Puts = map<(string, string), string>

  ghost predicate CommRows(cs: seq<Comm>)
  {
    forall i :: 0 <= i < |cs| ==> |cs[i].keys| == |cs[i].values|
  }

  /** The rows of two parallel arrays, as pairs of the space name. */
  ghost function RowTriples(name: string, keys: seq<string>, values: seq<string>): (s: set<Triple>)
    requires |keys| == |values|
  {
    set j | 0 <= j < |keys| :: (name, keys[j], values[j])
  }

  /** All pairs of a message. */
  ghost function Triples(cs: seq<Comm>): (s: set<Triple>)
    requires CommRows(cs)
  {
    set i, t | 0 <= i < |cs| && t in RowTriples(cs[i].name, cs[i].keys, cs[i].values) :: t
  }

  lemma TriplesSnoc(cs: seq<Comm>, c: Comm)
    requires CommRows(cs) && |c.keys| == |c.values|
    ensures Triples(cs + [c]) == Triples(cs) + RowTriples(c.name, c.keys, c.values)
  {
    var ds := cs + [c];
    forall t ensures t in Triples(ds) <==> t in Triples(cs) || t in RowTriples(c.name, c.keys, c.values) {
      if t in Triples(cs) {
        var i :| 0 <= i < |cs| && t in RowTriples(cs[i].name, cs[i].keys, cs[i].values);
        assert ds[i] == cs[i];
      }
      if t in RowTriples(c.name, c.keys, c.values) {
        assert ds[|cs|] == c;
      }
    }
  }

  /** The pairs j, j+1, ... of a message's space. */
  ghost function RowsFrom(c: Comm, j: nat): (s: set<Triple>)
    requires |c.keys| == |c.values|
  {
    set k | j <= k < |c.keys| :: (c.name, c.keys[k], c.values[k])
  }

  /** The pairs of the spaces i, i+1, ... of a message. */
  ghost function TriplesFrom(cs: seq<Comm>, i: nat): (s: set<Triple>)
    requires CommRows(cs)
  {
    set k, t | i <= k < |cs| && t in RowTriples(cs[k].name, cs[k].keys, cs[k].values) :: t
  }

  lemma TriplesFromNext(cs: seq<Comm>, i: nat)
    requires CommRows(cs) && i < |cs|
    ensures TriplesFrom(cs, i) == RowsFrom(cs[i], 0) + TriplesFrom(cs, i + 1)
  {
    assert RowsFrom(cs[i], 0) == RowTriples(cs[i].name, cs[i].keys, cs[i].values);
    forall t ensures t in TriplesFrom(cs, i) <==> t in RowsFrom(cs[i], 0) || t in TriplesFrom(cs, i + 1) {
      if t in TriplesFrom(cs, i) {
        var k :| i <= k < |cs| && t in RowTriples(cs[k].name, cs[k].keys, cs[k].values);
      }
    }
  }

  /** The first position of key, or |keys|. */
  function Find(keys: seq<string>, key: string): (j: nat)
    ensures j <= |keys|
    ensures j < |keys| ==> keys[j] == key
    ensures forall k :: 0 <= k < j ==> keys[k] != key
  {
    if keys == [] || keys[0] == key then 0 else 1 + Find(keys[1..], key)
  }

  ghost predicate Distinct<T>(s: seq<T>)
  {
    forall i, j :: 0 <= i < j < |s| ==> s[i] != s[j]
  }

  /** Every pair carries the value that was put for its key. */
  ghost predicate Agrees(s: set<Triple>, puts: Puts)
  {
    forall t :: t in s ==> (t.0, t.1) in puts && puts[(t.0, t.1)] == t.2
  }
}
