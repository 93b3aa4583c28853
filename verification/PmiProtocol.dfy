// The PMI-1 protocol as a whole: n ranks (src/api/pmi.c, src/api/slurm_pmi.c) and srun
// (src/api/pmi_server.c).  A run is a sequence of events; RPCs are reliable and processed once.
module PmiProtocol {
  import opened Kvs
  import Client = KvsClient
  import CP = KvsClientProofs
  import Server = KvsServer
  import SP = KvsServerProofs
  import W = PmiWire

  /** noDup is SLURM_PMI_KVS_NO_DUP_KEYS on both sides. */
  datatype Config = Config(noDup: bool, wire: W.Config)

  /** stores[r] are rank r's spaces, cargo[i] the pairs message i carries, held[r] those rank r received
      last.  The last six fields are history: what was put, committed, published (committed when the last
      barrier filled) and published by the barrier before, the last broadcast, and what each rank received
      for spaces it had not opened. */
  datatype State = State(
    stores: seq<seq<Client.KvsRec>>, wire: W.Wire, cargo: seq<seq<Comm>>, held: seq<seq<Comm>>,
    recs: seq<Server.ServerRec>, updated: bool,
    puts: Puts, committed: set<Triple>, published: set<Triple>, prior: set<Triple>,
    delta: seq<Comm>, missed: seq<set<Triple>>)

  datatype Event =
    | Open(r: nat, name: string)                              // PMI_KVS_Get_my_name, PMI_KVS_Create
    | Put(r: nat, name: string, key: string, value: string)   // PMI_KVS_Put
    | Commit(r: nat)                                          // PMI_KVS_Commit
    | Move(step: W.Step)                                      // a step of PMI_Barrier

  function Init(c: Config): (s: State)
  {
    var n := |c.wire.ports|;
    State(seq(n, _ => []), W.Init(c.wire), [], seq(n, _ => []), [], false, map[], {}, {}, {}, [], seq(n, _ => {}))
  }

  /** What the operations need in order to be defined. */
  ghost predicate Rows(c: Config, s: State)
  {
    && W.Shape(c.wire, s.wire)
    && |s.stores| == |s.held| == |s.missed| == |c.wire.ports|
    && |s.cargo| == |s.wire.net|
    && (forall r :: 0 <= r < |s.stores| ==> Client.StoreRows(s.stores[r]))
    && (forall r :: 0 <= r < |s.held| ==> CommRows(s.held[r]))
    && (forall i :: 0 <= i < |s.cargo| ==> CommRows(s.cargo[i]))
    && Server.TableRows(s.recs)
    && CommRows(s.delta)
  }

  predicate IsRunning(s: State, r: nat)
  {
    r < |s.wire.phases| && s.wire.phases[r].Running?
  }

  predicate Enabled(s: State, e: Event)
  {
    match e
    case Open(r, name) => IsRunning(s, r)
    case Put(r, name, key, value) =>
      && IsRunning(s, r)
      && |name| < Client.PMI_MAX_KVSNAME_LEN && |key| < Client.PMI_MAX_KEY_LEN && |value| < Client.PMI_MAX_VAL_LEN
    case Commit(r) => IsRunning(s, r)
    case Move(step) => W.Enabled(s.wire, step)
  }

  ghost function PutNext(c: Config, s: State, r: nat, name: string, key: string, value: string): (s': State)
    requires Rows(c, s) && r < |s.stores|
  {
    if !CP.Open(s.stores[r], name) then s
    else s.(stores := s.stores[r := Client.PutStore(c.noDup, s.stores[r], name, key, value, true)],
            puts := s.puts[(name, key) := value])
  }

  ghost function CommitNext(c: Config, s: State, r: nat): (s': State)
    requires Rows(c, s) && r < |s.stores|
  {
    var (store, msg) := Client.Pack(s.stores[r], 0, []);
    s.(stores := s.stores[r := store], recs := Server.PutSet(c.noDup, s.recs, msg, 0), updated := true,
       committed := s.committed + Triples(msg))
  }

  /** The broadcast of a filled barrier: only the pairs not sent yet, or nothing. */
  ghost function Broadcast(c: Config, s: State, w: W.Wire): (s': State)
    requires Rows(c, s)
  {
    var delta := if s.updated then Server.Delta(s.recs) else [];
    s.(wire := w, cargo := s.cargo + seq(if |w.net| > |s.cargo| then |w.net| - |s.cargo| else 0, _ => delta),
       recs := if s.updated then Server.MarkSent(s.recs) else s.recs, updated := false,
       published := s.committed, prior := s.published, delta := delta)
  }

  ghost function MoveNext(c: Config, s: State, step: W.Step): (s': State)
    requires Rows(c, s) && W.Enabled(s.wire, step)
  {
    var w := W.Next(c.wire, s.wire, step);
    match step
    case Enter(r) => if W.Fires(c.wire, s.wire, r) then Broadcast(c, s, w) else s.(wire := w)
    case Deliver(i) =>
      s.(wire := w, held := s.held[s.wire.net[i].target := s.cargo[i]], cargo := s.cargo[..i] + s.cargo[i + 1..])
    case Relay(r) => s.(wire := w, cargo := s.cargo + [s.held[r]])
    case Return(r) =>
      var got := Triples(s.held[r]);
      s.(wire := w, stores := s.stores[r := Client.Apply(c.noDup, s.stores[r], s.held[r], 0)],
         missed := s.missed[r := s.missed[r] + (got - CP.Visible(CP.Names(s.stores[r]), got))])
  }

  ghost function Next(c: Config, s: State, e: Event): (s': State)
    requires Rows(c, s) && Enabled(s, e)
  {
    match e
    case Open(r, name) => s.(stores := s.stores[r := s.stores[r] + [Client.KvsRec(name, [], [], [])]])
    case Put(r, name, key, value) => PutNext(c, s, r, name, key, value)
    case Commit(r) => CommitNext(c, s, r)
    case Move(step) => MoveNext(c, s, step)
  }

  // ---------------------------------------------------------------------------------------------
  // Runs.

  /** No key is put with two different values: e agrees with what was put before. */
  predicate Consistent(s: State, e: Event)
  {
    e.Put? && (e.name, e.key) in s.puts ==> s.puts[(e.name, e.key)] == e.value
  }

  /** A run in which no key is put with two different values.  (Rows holds after every run: RunInv.) */
  ghost predicate IsRun(c: Config, es: seq<Event>)
    decreases |es|, 0
  {
    && W.ConfigOk(c.wire)
    && (es != [] ==>
          && IsRun(c, es[..|es| - 1])
          && Rows(c, After(c, es[..|es| - 1]))
          && Enabled(After(c, es[..|es| - 1]), es[|es| - 1])
          && Consistent(After(c, es[..|es| - 1]), es[|es| - 1]))
  }

  ghost function After(c: Config, es: seq<Event>): (s: State)
    requires IsRun(c, es)
    decreases |es|, 1
  {
    if es == [] then Init(c) else Next(c, After(c, es[..|es| - 1]), es[|es| - 1])
  }

  // ---------------------------------------------------------------------------------------------
  // The invariant on the data.

  ghost predicate StoreOk(noDup: bool, store: seq<Client.KvsRec>, puts: Puts)
  {
    && Client.StoreRows(store)
    && CP.OnlyFirstUsed(store)
    && Agrees(CP.All(store), puts)
    && (noDup || CP.UniqueKeys(store))
  }

  /** srun's table: every committed pair, published unless still unsent. */
  ghost predicate TableOk(recs: seq<Server.ServerRec>, updated: bool, committed: set<Triple>, published: set<Triple>,
                          puts: Puts)
  {
    && Server.TableRows(recs)
    && SP.All(recs) == committed
    && Agrees(committed, puts)
    && committed == published + SP.Unsent(recs)
    && (!updated ==> SP.Unsent(recs) == {})
  }

  /** All messages under way carry the last broadcast. */
  ghost predicate CargoOk(cargo: seq<seq<Comm>>, held: seq<seq<Comm>>, phases: seq<W.Phase>, delta: seq<Comm>)
  {
    && |held| == |phases|
    && (forall i :: 0 <= i < |cargo| ==> cargo[i] == delta)
    && (forall r :: 0 <= r < |held| && phases[r].Relaying? ==> held[r] == delta)
  }

  /** Rank r has what was published before the last broadcast and, once it has returned, all that is
      published, but for the spaces it had not opened. */
  ghost predicate Informed(s: State, r: nat)
    requires r < |s.stores| == |s.missed| == |s.wire.returned| && Client.StoreRows(s.stores[r])
  {
    var known := CP.All(s.stores[r]) + s.missed[r];
    s.prior <= known && (s.wire.returned[r] == s.wire.fills ==> s.published <= known)
  }

  ghost predicate Stores(c: Config, s: State)
  {
    forall r :: 0 <= r < |s.stores| ==> StoreOk(c.noDup, s.stores[r], s.puts)
  }

  ghost predicate AllInformed(c: Config, s: State)
    requires Rows(c, s)
  {
    forall r :: 0 <= r < |s.stores| ==> Informed(s, r)
  }

  ghost predicate Data(c: Config, s: State)
  {
    && Rows(c, s)
    && Stores(c, s)
    && TableOk(s.recs, s.updated, s.committed, s.published, s.puts)
    && CargoOk(s.cargo, s.held, s.wire.phases, s.delta)
    && Triples(s.delta) <= s.published && s.prior <= s.published <= s.prior + Triples(s.delta)
    && AllInformed(c, s)
  }

  // ---------------------------------------------------------------------------------------------
  // What each operation does to its part of the data.

  ghost predicate Extends(puts: Puts, puts': Puts)
  {
    forall k :: k in puts ==> k in puts' && puts'[k] == puts[k]
  }

  lemma OpenStoreOk(noDup: bool, store: seq<Client.KvsRec>, puts: Puts, name: string)
    requires StoreOk(noDup, store, puts)
    ensures
      var store' := store + [Client.KvsRec(name, [], [], [])];
      && StoreOk(noDup, store', puts) && CP.All(store') == CP.All(store) && CP.Local(store') == CP.Local(store)
      && CP.Names(store') == CP.Names(store) + [name]
  {
    var k := Client.KvsRec(name, [], [], []);
    var store' := store + [k];
    forall t
      ensures (t in CP.All(store') <==> t in CP.All(store)) && (t in CP.Local(store') <==> t in CP.Local(store))
    {
      if t in CP.All(store) {
        var i :| 0 <= i < |store| && t in CP.RecAll(store[i]);
        assert t in CP.RecAll(store'[i]);
      }
      if t in CP.Local(store) {
        var i :| 0 <= i < |store| && t in CP.RecLocal(store[i]);
        assert t in CP.RecLocal(store'[i]);
      }
    }
    assert CP.All(store') == CP.All(store);
    assert CP.Local(store') == CP.Local(store);
  }

  lemma PutStoreOk(noDup: bool, store: seq<Client.KvsRec>, puts: Puts, name: string, key: string, value: string)
    requires StoreOk(noDup, store, puts) && CP.Open(store, name)
    requires (name, key) in puts ==> puts[(name, key)] == value
    ensures
      var store' := Client.PutStore(noDup, store, name, key, value, true);
      && StoreOk(noDup, store', puts[(name, key) := value])
      && CP.Names(store') == CP.Names(store)
      && CP.All(store') == CP.All(store) + {(name, key, value)}
      && CP.Local(store') == CP.Local(store) + {(name, key, value)}
  {
    CP.PutStoreSets(noDup, store, name, key, value, true, puts[(name, key) := value]);
    CP.PutStoreKeeps(noDup, store, name, key, value, true);
  }

  lemma LocalIsHeld(store: seq<Client.KvsRec>)
    requires Client.StoreRows(store)
    ensures CP.Local(store) <= CP.All(store)
  {
    forall t | t in CP.Local(store) ensures t in CP.All(store) {
      var k :| 0 <= k < |store| && t in CP.RecLocal(store[k]);
      assert t in CP.RecAll(store[k]);
    }
  }

  lemma PackStoreOk(noDup: bool, store: seq<Client.KvsRec>, puts: Puts)
    requires StoreOk(noDup, store, puts)
    ensures
      var (store', msg) := Client.Pack(store, 0, []);
      && StoreOk(noDup, store', puts)
      && CP.Names(store') == CP.Names(store) && CP.All(store') == CP.All(store) && CP.Local(store') == CP.Local(store)
      && Triples(msg) == CP.Local(store) && Agrees(Triples(msg), puts)
  {
    CP.PackSets(store, 0, []);
    if !noDup { CP.PackDistinct(store, 0, []); }
    assert Triples([]) == {};
    LocalIsHeld(store);
  }

  lemma TriplesFromStart(cs: seq<Comm>)
    requires CommRows(cs)
    ensures TriplesFrom(cs, 0) == Triples(cs)
  {
  }

  lemma CommitTableOk(noDup: bool, recs: seq<Server.ServerRec>, updated: bool, committed: set<Triple>,
                      published: set<Triple>, puts: Puts, msg: seq<Comm>)
    requires TableOk(recs, updated, committed, published, puts) && CommRows(msg) && Agrees(Triples(msg), puts)
    ensures
      var recs' := Server.PutSet(noDup, recs, msg, 0);
      && TableOk(recs', true, committed + Triples(msg), published, puts)
      && SP.Unsent(recs') == SP.Unsent(recs) + Triples(msg)
  {
    TriplesFromStart(msg);
    SP.PutSetSets(noDup, recs, msg, 0, puts);
  }

  lemma BroadcastTableOk(recs: seq<Server.ServerRec>, updated: bool, committed: set<Triple>,
                         published: set<Triple>, puts: Puts)
    requires TableOk(recs, updated, committed, published, puts)
    ensures
      var delta := if updated then Server.Delta(recs) else [];
      var recs' := if updated then Server.MarkSent(recs) else recs;
      && TableOk(recs', false, committed, committed, puts)
      && Triples(delta) == SP.Unsent(recs) && Triples(delta) <= committed && committed == published + Triples(delta)
  {
    SP.DeltaSets(recs);
    assert Triples([]) == {};
  }

  lemma ApplyStoreOk(noDup: bool, store: seq<Client.KvsRec>, puts: Puts, delta: seq<Comm>)
    requires StoreOk(noDup, store, puts) && CommRows(delta) && Agrees(Triples(delta), puts)
    ensures
      var store' := Client.Apply(noDup, store, delta, 0);
      && StoreOk(noDup, store', puts)
      && CP.Names(store') == CP.Names(store)
      && CP.All(store') == CP.All(store) + CP.Visible(CP.Names(store), Triples(delta))
      && CP.Local(store') == CP.Local(store)
  {
    TriplesFromStart(delta);
    CP.ApplySets(noDup, store, delta, 0, puts);
    CP.ApplyKeeps(noDup, store, delta, 0);
  }

  // ---------------------------------------------------------------------------------------------
  // Each event keeps the data invariant.

  lemma InitData(c: Config)
    requires W.ConfigOk(c.wire)
    ensures Data(c, Init(c))
  {
    var s := Init(c);
    forall r | 0 <= r < |s.stores| ensures StoreOk(c.noDup, s.stores[r], s.puts) && Informed(s, r) {
      assert s.stores[r] == [];
    }
    assert SP.All([]) == {} && SP.Unsent([]) == {} && Triples([]) == {};
  }

  /** Events that change one store and srun's table, and nothing on the way. */
  lemma StoreData(c: Config, s: State, r: nat, store: seq<Client.KvsRec>, s': State)
    requires Data(c, s) && r < |s.stores|
    requires s' == s.(stores := s.stores[r := store], puts := s'.puts, recs := s'.recs, updated := s'.updated,
                      committed := s'.committed)
    requires Extends(s.puts, s'.puts) && StoreOk(c.noDup, store, s'.puts) && CP.All(s.stores[r]) <= CP.All(store)
    requires TableOk(s'.recs, s'.updated, s'.committed, s'.published, s'.puts)
    ensures Data(c, s')
  {
    forall x | 0 <= x < |s.stores| ensures StoreOk(c.noDup, s'.stores[x], s'.puts) {
      assert StoreOk(c.noDup, s.stores[x], s.puts);
    }
    forall x | 0 <= x < |s.stores| ensures Informed(s', x) {
      assert Informed(s, x);
    }
  }

  lemma OpenData(c: Config, s: State, r: nat, name: string)
    requires Data(c, s) && Enabled(s, Open(r, name))
    ensures Data(c, Next(c, s, Open(r, name)))
  {
    assert StoreOk(c.noDup, s.stores[r], s.puts);
    OpenStoreOk(c.noDup, s.stores[r], s.puts, name);
    StoreData(c, s, r, s.stores[r] + [Client.KvsRec(name, [], [], [])], Next(c, s, Open(r, name)));
  }

  lemma PutData(c: Config, s: State, r: nat, name: string, key: string, value: string)
    requires Data(c, s) && Enabled(s, Put(r, name, key, value)) && Consistent(s, Put(r, name, key, value))
    ensures Data(c, PutNext(c, s, r, name, key, value))
  {
    if CP.Open(s.stores[r], name) {
      assert StoreOk(c.noDup, s.stores[r], s.puts);
      PutStoreOk(c.noDup, s.stores[r], s.puts, name, key, value);
      var store := Client.PutStore(c.noDup, s.stores[r], name, key, value, true);
      StoreData(c, s, r, store, PutNext(c, s, r, name, key, value));
    }
  }

  lemma CommitData(c: Config, s: State, r: nat)
    requires Data(c, s) && Enabled(s, Commit(r))
    ensures Data(c, CommitNext(c, s, r))
    ensures CommitNext(c, s, r).committed == s.committed + CP.Local(s.stores[r])
  {
    assert StoreOk(c.noDup, s.stores[r], s.puts);
    PackStoreOk(c.noDup, s.stores[r], s.puts);
    var (store, msg) := Client.Pack(s.stores[r], 0, []);
    CommitTableOk(c.noDup, s.recs, s.updated, s.committed, s.published, s.puts, msg);
    StoreData(c, s, r, store, CommitNext(c, s, r));
  }

  /** Steps of the barrier that keep stores, table and broadcast. */
  lemma TransitData(c: Config, s: State, s': State)
    requires Data(c, s) && Rows(c, s')
    requires s' == s.(wire := s'.wire, cargo := s'.cargo, held := s'.held)
    requires s'.wire.fills == s.wire.fills && s'.wire.returned == s.wire.returned
    requires CargoOk(s'.cargo, s'.held, s'.wire.phases, s.delta)
    ensures Data(c, s')
  {
    forall x | 0 <= x < |s.stores| ensures StoreOk(c.noDup, s'.stores[x], s'.puts) {
      assert StoreOk(c.noDup, s.stores[x], s.puts);
    }
    forall x | 0 <= x < |s.stores| ensures Informed(s', x) {
      assert Informed(s, x);
    }
  }

  lemma EnterData(c: Config, s: State, r: nat)
    requires Data(c, s) && W.Enabled(s.wire, W.Enter(r)) && !W.Fires(c.wire, s.wire, r)
    ensures Data(c, MoveNext(c, s, W.Enter(r)))
  {
    TransitData(c, s, MoveNext(c, s, W.Enter(r)));
  }

  lemma DeliverData(c: Config, s: State, i: nat)
    requires Data(c, s) && W.Enabled(s.wire, W.Deliver(i))
    ensures Data(c, MoveNext(c, s, W.Deliver(i)))
  {
    TransitData(c, s, MoveNext(c, s, W.Deliver(i)));
  }

  lemma RelayData(c: Config, s: State, r: nat)
    requires Data(c, s) && W.Enabled(s.wire, W.Relay(r))
    ensures Data(c, MoveNext(c, s, W.Relay(r)))
  {
    TransitData(c, s, MoveNext(c, s, W.Relay(r)));
  }

  lemma BroadcastData(c: Config, s: State, w: W.Wire)
    requires Data(c, s) && W.Shape(c.wire, w) && s.wire.net == []
    requires w.fills == s.wire.fills + 1 && w.returned == s.wire.returned
    requires forall x :: 0 <= x < |w.phases| ==> w.phases[x].AtBarrier? && w.returned[x] == s.wire.fills
    ensures Data(c, Broadcast(c, s, w))
  {
    var s' := Broadcast(c, s, w);
    BroadcastTableOk(s.recs, s.updated, s.committed, s.published, s.puts);
    forall x | 0 <= x < |s.stores| ensures StoreOk(c.noDup, s'.stores[x], s'.puts) {
      assert StoreOk(c.noDup, s.stores[x], s.puts);
    }
    forall x | 0 <= x < |s.stores| ensures Informed(s', x) {
      assert Informed(s, x) && w.phases[x].AtBarrier? && w.returned[x] == s.wire.fills;
    }
  }

  lemma ReturnData(c: Config, s: State, r: nat)
    requires Data(c, s) && W.Enabled(s.wire, W.Return(r)) && s.wire.returned[r] + 1 == s.wire.fills
    ensures Data(c, MoveNext(c, s, W.Return(r)))
  {
    var s' := MoveNext(c, s, W.Return(r));
    assert StoreOk(c.noDup, s.stores[r], s.puts) && Informed(s, r) && s.held[r] == s.delta;
    ApplyStoreOk(c.noDup, s.stores[r], s.puts, s.delta);
    forall x | 0 <= x < |s.stores| ensures StoreOk(c.noDup, s'.stores[x], s'.puts) {
      assert StoreOk(c.noDup, s.stores[x], s.puts);
    }
    forall x | 0 <= x < |s.stores| ensures Informed(s', x) {
      assert Informed(s, x);
    }
  }

  // ---------------------------------------------------------------------------------------------
  // Every run keeps both invariants.

  ghost predicate Inv(c: Config, s: State)
  {
    W.Inv(c.wire, s.wire) && Data(c, s)
  }

  lemma MoveInv(c: Config, s: State, step: W.Step)
    requires Inv(c, s) && W.Enabled(s.wire, step)
    ensures Inv(c, MoveNext(c, s, step))
  {
    W.NextInv(c.wire, s.wire, step);
    match step
    case Deliver(i) => DeliverData(c, s, i);
    case Relay(r) => RelayData(c, s, r);
    case Return(r) =>
      assert W.PhaseOk(s.wire, r);
      ReturnData(c, s, r);
    case Enter(r) =>
      if W.Fires(c.wire, s.wire, r) {
        W.EnterInv(c.wire, s.wire, r);
        var w := W.Next(c.wire, s.wire, step);
        forall x | 0 <= x < |w.phases| ensures w.phases[x].AtBarrier? && w.returned[x] == s.wire.fills {
          assert W.InTable(W.Joined(c.wire, s.wire, r), x);
        }
        BroadcastData(c, s, w);
      } else {
        EnterData(c, s, r);
      }
  }

  lemma NextInv(c: Config, s: State, e: Event)
    requires Inv(c, s) && Enabled(s, e) && Consistent(s, e)
    ensures Inv(c, Next(c, s, e))
  {
    match e
    case Open(r, name) => OpenData(c, s, r, name);
    case Put(r, name, key, value) => PutData(c, s, r, name, key, value);
    case Commit(r) => CommitData(c, s, r);
    case Move(step) => MoveInv(c, s, step);
  }

  lemma {:induction false} RunInv(c: Config, es: seq<Event>)
    requires IsRun(c, es)
    ensures Inv(c, After(c, es))
  {
    if es == [] {
      W.InitInv(c.wire);
      InitData(c);
    } else {
      RunInv(c, es[..|es| - 1]);
      NextInv(c, After(c, es[..|es| - 1]), es[|es| - 1]);
    }
  }

  /** In every run, what a rank commits stays inside the sent flags of srun's table. */
  lemma CommitsStayInside(c: Config, es: seq<Event>, r: nat)
    requires IsRun(c, es) && Rows(c, After(c, es)) && r < |After(c, es).stores|
    ensures Server.SetInside(c.noDup, After(c, es).recs, Client.Pack(After(c, es).stores[r], 0, []).1, 0)
  {
    RunInv(c, es);
    var s := After(c, es);
    assert StoreOk(c.noDup, s.stores[r], s.puts);
    if !c.noDup { CP.PackDistinct(s.stores[r], 0, []); }
    Server.DistinctIsInside(c.noDup, s.recs, Client.Pack(s.stores[r], 0, []).1, 0);
  }
}
