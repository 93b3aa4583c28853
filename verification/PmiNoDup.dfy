// SLURM_PMI_KVS_NO_DUP_KEYS makes both sides append without looking for the key
// (src/api/pmi.c:1124-1151, 1356-1371; src/api/pmi_server.c:356-383).  No lookup can tell.
module PmiNoDup {
  import opened Kvs
  import Client = KvsClient
  import CP = KvsClientProofs
  import Server = KvsServer
  import SP = KvsServerProofs
  import W = PmiWire
  import opened PmiProtocol
  import V = PmiVisibility

  ghost predicate SameStore(x: seq<Client.KvsRec>, y: seq<Client.KvsRec>)
  {
    && Client.StoreRows(x) && Client.StoreRows(y)
    && CP.Names(x) == CP.Names(y) && CP.All(x) == CP.All(y) && CP.Local(x) == CP.Local(y)
  }

  ghost predicate SameStores(s: State, t: State)
  {
    |s.stores| == |t.stores| && forall r :: 0 <= r < |s.stores| ==> SameStore(s.stores[r], t.stores[r])
  }

  /** srun's tables and broadcasts hold the same pairs, in whatever order and number. */
  ghost predicate SameTables(s: State, t: State)
  {
    && Server.TableRows(s.recs) && Server.TableRows(t.recs) && SP.Unsent(s.recs) == SP.Unsent(t.recs)
    && CommRows(s.delta) && CommRows(t.delta) && Triples(s.delta) == Triples(t.delta)
    && s.updated == t.updated && s.committed == t.committed
  }

  ghost predicate SameView(s: State, t: State)
  {
    s.wire == t.wire && s.puts == t.puts && SameStores(s, t) && SameTables(s, t)
  }

  /** One rank's store changes on both sides. */
  lemma StoreStaysSame(s: State, t: State, s': State, t': State, r: nat, x: seq<Client.KvsRec>, y: seq<Client.KvsRec>)
    requires SameStores(s, t) && r < |s.stores| && SameStore(x, y)
    requires s'.stores == s.stores[r := x] && t'.stores == t.stores[r := y]
    ensures SameStores(s', t')
  {
  }

  ghost predicate Pair(c: Config, d: Config, s: State, t: State)
  {
    c.wire == d.wire && Data(c, s) && Data(d, t) && SameView(s, t)
  }

  lemma StoresOk(c: Config, d: Config, s: State, t: State, r: nat)
    requires Pair(c, d, s, t) && r < |s.stores|
    ensures StoreOk(c.noDup, s.stores[r], s.puts) && StoreOk(d.noDup, t.stores[r], s.puts)
    ensures SameStore(s.stores[r], t.stores[r])
  {
  }

  lemma SameOpen(c: Config, d: Config, s: State, t: State, r: nat, name: string)
    requires Pair(c, d, s, t) && Enabled(s, Open(r, name))
    ensures SameView(Next(c, s, Open(r, name)), Next(d, t, Open(r, name)))
  {
    StoresOk(c, d, s, t, r);
    OpenStoreOk(c.noDup, s.stores[r], s.puts, name);
    OpenStoreOk(d.noDup, t.stores[r], s.puts, name);
    var k := Client.KvsRec(name, [], [], []);
    StoreStaysSame(s, t, Next(c, s, Open(r, name)), Next(d, t, Open(r, name)), r, s.stores[r] + [k], t.stores[r] + [k]);
  }

  lemma SamePut(c: Config, d: Config, s: State, t: State, e: Event)
    requires Pair(c, d, s, t) && e.Put? && Enabled(s, e) && Consistent(s, e)
    ensures SameView(Next(c, s, e), Next(d, t, e))
  {
    var r := e.r;
    StoresOk(c, d, s, t, r);
    CP.OpenNames(s.stores[r], e.name);
    CP.OpenNames(t.stores[r], e.name);
    if CP.Open(s.stores[r], e.name) {
      PutStoreOk(c.noDup, s.stores[r], s.puts, e.name, e.key, e.value);
      PutStoreOk(d.noDup, t.stores[r], s.puts, e.name, e.key, e.value);
      StoreStaysSame(s, t, Next(c, s, e), Next(d, t, e), r,
                     Client.PutStore(c.noDup, s.stores[r], e.name, e.key, e.value, true),
                     Client.PutStore(d.noDup, t.stores[r], e.name, e.key, e.value, true));
    }
  }

  lemma SameCommit(c: Config, d: Config, s: State, t: State, r: nat)
    requires Pair(c, d, s, t) && Enabled(s, Commit(r))
    ensures SameView(Next(c, s, Commit(r)), Next(d, t, Commit(r)))
  {
    StoresOk(c, d, s, t, r);
    PackStoreOk(c.noDup, s.stores[r], s.puts);
    PackStoreOk(d.noDup, t.stores[r], s.puts);
    var (x, msg) := Client.Pack(s.stores[r], 0, []);
    var (y, msg') := Client.Pack(t.stores[r], 0, []);
    CommitTableOk(c.noDup, s.recs, s.updated, s.committed, s.published, s.puts, msg);
    CommitTableOk(d.noDup, t.recs, t.updated, t.committed, t.published, t.puts, msg');
    StoreStaysSame(s, t, Next(c, s, Commit(r)), Next(d, t, Commit(r)), r, x, y);
  }

  lemma SameBroadcast(c: Config, d: Config, s: State, t: State, w: W.Wire)
    requires Pair(c, d, s, t)
    ensures SameView(Broadcast(c, s, w), Broadcast(d, t, w))
  {
    BroadcastTableOk(s.recs, s.updated, s.committed, s.published, s.puts);
    BroadcastTableOk(t.recs, t.updated, t.committed, t.published, t.puts);
  }

  lemma SameReturn(c: Config, d: Config, s: State, t: State, r: nat)
    requires Pair(c, d, s, t) && W.Enabled(s.wire, W.Return(r))
    ensures SameView(MoveNext(c, s, W.Return(r)), MoveNext(d, t, W.Return(r)))
  {
    StoresOk(c, d, s, t, r);
    assert s.held[r] == s.delta && t.held[r] == t.delta;
    ApplyStoreOk(c.noDup, s.stores[r], s.puts, s.delta);
    ApplyStoreOk(d.noDup, t.stores[r], s.puts, t.delta);
    StoreStaysSame(s, t, MoveNext(c, s, W.Return(r)), MoveNext(d, t, W.Return(r)), r,
                   Client.Apply(c.noDup, s.stores[r], s.held[r], 0), Client.Apply(d.noDup, t.stores[r], t.held[r], 0));
  }

  lemma SameMove(c: Config, d: Config, s: State, t: State, step: W.Step)
    requires Pair(c, d, s, t) && W.Enabled(s.wire, step)
    ensures SameView(MoveNext(c, s, step), MoveNext(d, t, step))
  {
    match step
    case Enter(r) => if W.Fires(c.wire, s.wire, r) { SameBroadcast(c, d, s, t, W.Next(c.wire, s.wire, step)); }
    case Deliver(i) =>
    case Relay(r) =>
    case Return(r) => SameReturn(c, d, s, t, r);
  }

  lemma SameNext(c: Config, d: Config, s: State, t: State, e: Event)
    requires Pair(c, d, s, t) && Enabled(s, e) && Consistent(s, e)
    ensures Enabled(t, e) && Consistent(t, e) && SameView(Next(c, s, e), Next(d, t, e))
  {
    match e
    case Open(r, name) => SameOpen(c, d, s, t, r, name);
    case Put(_, _, _, _) => SamePut(c, d, s, t, e);
    case Commit(r) => SameCommit(c, d, s, t, r);
    case Move(step) => SameMove(c, d, s, t, step);
  }

  /** The same events are a run in both modes, and lead to the same view. */
  lemma {:induction false} SameRun(c: Config, d: Config, es: seq<Event>)
    requires IsRun(c, es) && c.wire == d.wire
    ensures IsRun(d, es) && Pair(c, d, After(c, es), After(d, es))
  {
    if es == [] {
      InitData(c);
      InitData(d);
    } else {
      var before, e := es[..|es| - 1], es[|es| - 1];
      SameRun(c, d, before);
      SameNext(c, d, After(c, before), After(d, before), e);
      RunInv(c, es);
      RunInv(d, es);
    }
  }

  /** In every run where no key is put with two different values, every lookup gives the same answer whether
      or not both sides skip the search for duplicate keys. */
  lemma NoDupIsInvisible(c: Config, es: seq<Event>, noDup: bool, r: nat, name: string, key: string)
    requires IsRun(c, es) && r < |c.wire.ports|
    ensures
      var d := c.(noDup := noDup);
      && IsRun(d, es) && Rows(c, After(c, es)) && Rows(d, After(d, es))
      && V.Get(c, After(c, es), r, name, key) == V.Get(d, After(d, es), r, name, key)
  {
    var d := c.(noDup := noDup);
    SameRun(c, d, es);
    var s, t := After(c, es), After(d, es);
    StoresOk(c, d, s, t, r);
    CP.GetMeaning(s.stores[r], name, key, s.puts);
    CP.GetMeaning(t.stores[r], name, key, t.puts);
  }
}
