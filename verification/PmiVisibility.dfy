// What PMI promises its users (slurm/pmi.h): once a pair is committed, it can be read by every rank
// after a barrier.
module PmiVisibility {
  import opened Kvs
  import Client = KvsClient
  import CP = KvsClientProofs
  import W = PmiWire
  import opened PmiProtocol

  /** What rank r's PMI_KVS_Get finds. */
  ghost function Get(c: Config, s: State, r: nat, name: string, key: string): (res: Client.Lookup)
    requires Rows(c, s) && r < |s.stores|
  {
    Client.Get(s.stores[r], name, key)
  }

  // ---------------------------------------------------------------------------------------------
  // One event.

  ghost predicate Grows(s: State, s': State)
  {
    && |s.stores| == |s'.stores|
    && s.committed <= s'.committed
    && (forall p :: 0 <= p < |s.stores| ==>
          && Client.StoreRows(s.stores[p]) && Client.StoreRows(s'.stores[p])
          && CP.Local(s.stores[p]) <= CP.Local(s'.stores[p])
          && CP.Names(s.stores[p]) <= CP.Names(s'.stores[p]))
  }

  lemma GrowsTransitive(s: State, s': State, s'': State)
    requires Grows(s, s') && Grows(s', s'')
    ensures Grows(s, s'')
  {
  }

  lemma StoreGrows(c: Config, s: State, s': State, r: nat, store: seq<Client.KvsRec>)
    requires Rows(c, s) && r < |s.stores| && s'.stores == s.stores[r := store] && s.committed <= s'.committed
    requires Client.StoreRows(store)
    requires CP.Local(s.stores[r]) <= CP.Local(store) && CP.Names(s.stores[r]) <= CP.Names(store)
    ensures Grows(s, s')
  {
  }

  lemma OpenGrows(c: Config, s: State, r: nat, name: string)
    requires Data(c, s) && Enabled(s, Open(r, name))
    ensures Grows(s, Next(c, s, Open(r, name)))
  {
    assert StoreOk(c.noDup, s.stores[r], s.puts);
    OpenStoreOk(c.noDup, s.stores[r], s.puts, name);
    StoreGrows(c, s, Next(c, s, Open(r, name)), r, s.stores[r] + [Client.KvsRec(name, [], [], [])]);
  }

  lemma PutGrows(c: Config, s: State, e: Event)
    requires Data(c, s) && e.Put? && Enabled(s, e) && Consistent(s, e)
    ensures Grows(s, Next(c, s, e))
    ensures CP.Open(s.stores[e.r], e.name) ==> TripleOf(e) in CP.Local(Next(c, s, e).stores[e.r])
  {
    var store := s.stores[e.r];
    assert StoreOk(c.noDup, store, s.puts);
    if CP.Open(store, e.name) {
      PutStoreOk(c.noDup, store, s.puts, e.name, e.key, e.value);
      StoreGrows(c, s, Next(c, s, e), e.r, Client.PutStore(c.noDup, store, e.name, e.key, e.value, true));
    }
  }

  lemma CommitGrows(c: Config, s: State, r: nat)
    requires Data(c, s) && Enabled(s, Commit(r))
    ensures Grows(s, Next(c, s, Commit(r)))
  {
    assert StoreOk(c.noDup, s.stores[r], s.puts);
    PackStoreOk(c.noDup, s.stores[r], s.puts);
    StoreGrows(c, s, Next(c, s, Commit(r)), r, Client.Pack(s.stores[r], 0, []).0);
  }

  lemma ReturnGrows(c: Config, s: State, r: nat)
    requires Data(c, s) && W.Enabled(s.wire, W.Return(r))
    ensures Grows(s, Next(c, s, Move(W.Return(r))))
  {
    assert StoreOk(c.noDup, s.stores[r], s.puts) && s.held[r] == s.delta;
    ApplyStoreOk(c.noDup, s.stores[r], s.puts, s.delta);
    StoreGrows(c, s, Next(c, s, Move(W.Return(r))), r, Client.Apply(c.noDup, s.stores[r], s.held[r], 0));
  }

  lemma NextGrows(c: Config, s: State, e: Event)
    requires Data(c, s) && Enabled(s, e) && Consistent(s, e)
    ensures Grows(s, Next(c, s, e))
  {
    match e
    case Open(r, name) => OpenGrows(c, s, r, name);
    case Put(_, _, _, _) => PutGrows(c, s, e);
    case Commit(r) => CommitGrows(c, s, r);
    case Move(step) => if step.Return? { ReturnGrows(c, s, step.r); }
  }

  ghost function TripleOf(e: Event): (t: Triple)
    requires e.Put?
  {
    (e.name, e.key, e.value)
  }

  /** What was published by the barrier that was the last of `fills`: still the current publication, or
      part of what every rank had before the current one. */
  ghost predicate Tracks(published: set<Triple>, fills: nat, s: State)
  {
    || (s.wire.fills == fills && s.published == published)
    || (s.wire.fills > fills && published <= s.prior)
  }

  lemma NextTracks(c: Config, s: State, e: Event, published: set<Triple>, fills: nat)
    requires Rows(c, s) && s.prior <= s.published && Enabled(s, e) && Tracks(published, fills, s)
    ensures Tracks(published, fills, Next(c, s, e))
  {
  }

  // ---------------------------------------------------------------------------------------------
  // Runs and their prefixes.

  lemma {:induction false} PrefixIsRun(c: Config, es: seq<Event>, k: nat)
    requires IsRun(c, es) && k <= |es|
    ensures IsRun(c, es[..k])
  {
    if k < |es| {
      PrefixIsRun(c, es[..|es| - 1], k);
      assert es[..|es| - 1][..k] == es[..k];
    } else {
      assert es[..k] == es;
    }
  }

  /** The state before event k, with what the run says about it. */
  lemma Before(c: Config, es: seq<Event>, k: nat) returns (s: State)
    requires IsRun(c, es) && k < |es|
    ensures IsRun(c, es[..k]) && IsRun(c, es[..k + 1]) && s == After(c, es[..k])
    ensures Inv(c, s) && Enabled(s, es[k]) && Consistent(s, es[k]) && After(c, es[..k + 1]) == Next(c, s, es[k])
  {
    PrefixIsRun(c, es, k);
    PrefixIsRun(c, es, k + 1);
    assert es[..k + 1][..k] == es[..k];
    RunInv(c, es[..k]);
    s := After(c, es[..k]);
  }

  lemma StepGrows(c: Config, es: seq<Event>, m: nat, s0: State)
    requires IsRun(c, es) && m < |es| && IsRun(c, es[..m]) && Grows(s0, After(c, es[..m]))
    ensures IsRun(c, es[..m + 1]) && Grows(s0, After(c, es[..m + 1]))
  {
    var s := Before(c, es, m);
    NextGrows(c, s, es[m]);
    GrowsTransitive(s0, s, Next(c, s, es[m]));
  }

  lemma {:induction false} RunGrows(c: Config, es: seq<Event>, k: nat, m: nat, s0: State)
    requires IsRun(c, es) && k <= m <= |es| && IsRun(c, es[..k]) && Grows(s0, After(c, es[..k]))
    ensures IsRun(c, es[..m]) && Grows(s0, After(c, es[..m]))
    decreases m
  {
    if k < m {
      RunGrows(c, es, k, m - 1, s0);
      StepGrows(c, es, m - 1, s0);
    }
  }

  lemma StepTracks(c: Config, es: seq<Event>, m: nat, published: set<Triple>, fills: nat)
    requires IsRun(c, es) && m < |es| && IsRun(c, es[..m]) && Tracks(published, fills, After(c, es[..m]))
    ensures IsRun(c, es[..m + 1]) && Tracks(published, fills, After(c, es[..m + 1]))
  {
    var s := Before(c, es, m);
    NextTracks(c, s, es[m], published, fills);
  }

  lemma {:induction false} RunTracks(c: Config, es: seq<Event>, k: nat, m: nat, published: set<Triple>, fills: nat)
    requires IsRun(c, es) && k <= m <= |es| && IsRun(c, es[..k]) && Tracks(published, fills, After(c, es[..k]))
    ensures IsRun(c, es[..m]) && Tracks(published, fills, After(c, es[..m]))
    decreases m
  {
    if k < m {
      RunTracks(c, es, k, m - 1, published, fills);
      StepTracks(c, es, m - 1, published, fills);
    }
  }

  // ---------------------------------------------------------------------------------------------
  // Spaces opened by everyone.

  ghost predicate OpenEverywhere(s: State, name: string)
  {
    forall r :: 0 <= r < |s.stores| ==> name in CP.Names(s.stores[r])
  }

  /** Every put goes into a space all ranks have opened. */
  ghost predicate SharedSpaces(c: Config, es: seq<Event>)
    requires IsRun(c, es)
  {
    es != [] ==>
      && SharedSpaces(c, es[..|es| - 1])
      && (es[|es| - 1].Put? ==> OpenEverywhere(After(c, es[..|es| - 1]), es[|es| - 1].name))
  }

  ghost predicate NothingMissed(s: State)
  {
    && (forall k :: k in s.puts ==> OpenEverywhere(s, k.0))
    && (forall r :: 0 <= r < |s.missed| ==> s.missed[r] == {})
  }

  lemma StillOpen(s: State, s': State, name: string)
    requires Grows(s, s') && OpenEverywhere(s, name)
    ensures OpenEverywhere(s', name)
  {
    forall r | 0 <= r < |s'.stores| ensures name in CP.Names(s'.stores[r]) {
      assert CP.Names(s.stores[r]) <= CP.Names(s'.stores[r]);
      var i :| 0 <= i < |CP.Names(s.stores[r])| && CP.Names(s.stores[r])[i] == name;
      assert CP.Names(s'.stores[r])[i] == name;
    }
  }

  /** Everything delivered belongs to a space the rank has opened. */
  lemma ReturnMissesNothing(c: Config, s: State, r: nat)
    requires Data(c, s) && NothingMissed(s) && W.Enabled(s.wire, W.Return(r))
    ensures MoveNext(c, s, W.Return(r)).missed[r] == {}
  {
    assert s.held[r] == s.delta;
    forall t | t in Triples(s.delta) ensures t in CP.Visible(CP.Names(s.stores[r]), Triples(s.delta)) {
      assert t in s.committed && (t.0, t.1) in s.puts;
      assert OpenEverywhere(s, t.0);
    }
  }

  lemma PutsStayOpen(s: State, s': State, name: string)
    requires Grows(s, s') && forall k :: k in s.puts ==> OpenEverywhere(s, k.0)
    requires forall k :: k in s'.puts ==> k in s.puts || (k.0 == name && OpenEverywhere(s, name))
    ensures forall k :: k in s'.puts ==> OpenEverywhere(s', k.0)
  {
    forall k | k in s'.puts ensures OpenEverywhere(s', k.0) {
      assert k in s.puts ==> OpenEverywhere(s, k.0);
      StillOpen(s, s', k.0);
    }
  }

  lemma NextNothingMissed(c: Config, s: State, e: Event)
    requires Data(c, s) && Enabled(s, e) && Consistent(s, e) && NothingMissed(s)
    requires e.Put? ==> OpenEverywhere(s, e.name)
    ensures NothingMissed(Next(c, s, e))
  {
    NextGrows(c, s, e);
    PutsStayOpen(s, Next(c, s, e), if e.Put? then e.name else "");
    if e.Move? && e.step.Return? { ReturnMissesNothing(c, s, e.step.r); }
  }

  lemma {:induction false} RunNothingMissed(c: Config, es: seq<Event>)
    requires IsRun(c, es) && SharedSpaces(c, es)
    ensures NothingMissed(After(c, es))
  {
    if es != [] {
      RunNothingMissed(c, es[..|es| - 1]);
      RunInv(c, es[..|es| - 1]);
      NextNothingMissed(c, After(c, es[..|es| - 1]), es[|es| - 1]);
    }
  }

  // ---------------------------------------------------------------------------------------------
  // The promise.

  /** A rank that knows a pair and has opened its space reads its value. */
  lemma KnownIsRead(c: Config, s: State, r: nat, t: Triple)
    requires Inv(c, s) && r < |s.stores| && t in CP.All(s.stores[r])
    ensures Get(c, s, r, t.0, t.1) == Client.Found(t.2)
  {
    assert StoreOk(c.noDup, s.stores[r], s.puts);
    var i :| 0 <= i < |s.stores[r]| && t in CP.RecAll(s.stores[r][i]);
    assert CP.Names(s.stores[r])[i] == t.0;
    CP.GetMeaning(s.stores[r], t.0, t.1, s.puts);
  }

  lemma {:induction false} SharedAt(c: Config, es: seq<Event>, i: nat)
    requires IsRun(c, es) && SharedSpaces(c, es) && i < |es| && es[i].Put?
    ensures IsRun(c, es[..i]) && OpenEverywhere(After(c, es[..i]), es[i].name)
  {
    if i < |es| - 1 {
      SharedAt(c, es[..|es| - 1], i);
      assert es[..|es| - 1][..i] == es[..i];
    }
  }

  /** Event k is the request that fills a barrier. */
  ghost predicate FillsAt(c: Config, es: seq<Event>, k: nat)
  {
    && k < |es| && es[k].Move? && es[k].step.Enter?
    && IsRun(c, es[..k])
    && Rows(c, After(c, es[..k])) && W.Enabled(After(c, es[..k]).wire, es[k].step)
    && W.Fires(c.wire, After(c, es[..k]).wire, es[k].step.r)
  }

  lemma PutStaysLocal(c: Config, es: seq<Event>, i: nat, j: nat)
    requires IsRun(c, es) && SharedSpaces(c, es) && i < j <= |es| && es[i].Put?
    ensures IsRun(c, es[..j]) && es[i].r < |After(c, es[..j]).stores|
    ensures Client.StoreRows(After(c, es[..j]).stores[es[i].r])
    ensures TripleOf(es[i]) in CP.Local(After(c, es[..j]).stores[es[i].r])
  {
    var s := Before(c, es, i);
    SharedAt(c, es, i);
    CP.OpenNames(s.stores[es[i].r], es[i].name);
    PutGrows(c, s, es[i]);
    var put := Next(c, s, es[i]);
    GrowsFrom(c, es, i + 1, j, put);
  }

  lemma GrowsFrom(c: Config, es: seq<Event>, k: nat, m: nat, s0: State)
    requires IsRun(c, es) && k <= m <= |es| && IsRun(c, es[..k]) && s0 == After(c, es[..k])
    ensures IsRun(c, es[..m]) && Grows(s0, After(c, es[..m]))
  {
    RunInv(c, es[..k]);
    RunGrows(c, es, k, m, s0);
  }

  lemma CommitStaysCommitted(c: Config, es: seq<Event>, j: nat, k: nat, t: Triple)
    requires IsRun(c, es) && j < k <= |es| && es[j].Commit?
    requires IsRun(c, es[..j]) && es[j].r < |After(c, es[..j]).stores|
    requires Client.StoreRows(After(c, es[..j]).stores[es[j].r]) && t in CP.Local(After(c, es[..j]).stores[es[j].r])
    ensures IsRun(c, es[..k]) && t in After(c, es[..k]).committed
  {
    var s := Before(c, es, j);
    CommitData(c, s, es[j].r);
    GrowsFrom(c, es, j + 1, k, Next(c, s, es[j]));
  }

  lemma FillPublishes(c: Config, es: seq<Event>, k: nat)
    requires IsRun(c, es) && FillsAt(c, es, k)
    ensures IsRun(c, es[..k + 1]) && After(c, es[..k + 1]).published == After(c, es[..k]).committed
    ensures After(c, es[..k + 1]).wire.fills == After(c, es[..k]).wire.fills + 1
  {
    var s := Before(c, es, k);
  }

  /** What every rank has that has returned from the barrier filled by event k. */
  lemma ReturnedKnows(c: Config, es: seq<Event>, k: nat, r: nat)
    requires IsRun(c, es) && SharedSpaces(c, es) && FillsAt(c, es, k)
    requires r < |After(c, es).wire.returned| && After(c, es).wire.returned[r] >= After(c, es[..k]).wire.fills + 1
    ensures Inv(c, After(c, es)) && r < |After(c, es).stores|
    ensures After(c, es[..k]).committed <= CP.All(After(c, es).stores[r])
  {
    FillPublishes(c, es, k);
    var filled := After(c, es[..k + 1]);
    RunTracks(c, es, k + 1, |es|, filled.published, filled.wire.fills);
    assert es[..|es|] == es;
    RunInv(c, es);
    RunNothingMissed(c, es);
    var s := After(c, es);
    assert W.PhaseOk(s.wire, r) && Informed(s, r) && s.missed[r] == {};
  }

  /** In every run where no key is put with two values and all puts go into spaces all ranks have opened: a
      pair put (event i) and committed (event j) before a barrier fills (event k) is read by every rank r
      that has returned from that barrier. */
  lemma CommittedPairsAreVisible(c: Config, es: seq<Event>, i: nat, j: nat, k: nat, r: nat)
    requires IsRun(c, es) && SharedSpaces(c, es) && i < j < k < |es|
    requires es[i].Put? && es[j] == Commit(es[i].r) && FillsAt(c, es, k)
    requires r < |After(c, es).wire.returned| && After(c, es).wire.returned[r] >= After(c, es[..k]).wire.fills + 1
    ensures Rows(c, After(c, es)) && r < |After(c, es).stores|
    ensures Get(c, After(c, es), r, es[i].name, es[i].key) == Client.Found(es[i].value)
  {
    PutStaysLocal(c, es, i, j);
    CommitStaysCommitted(c, es, j, k, TripleOf(es[i]));
    ReturnedKnows(c, es, k, r);
    KnownIsRead(c, After(c, es), r, TripleOf(es[i]));
  }

  /** Without the assumption on spaces: a rank that has returned reads exactly the published pairs it holds,
      and the ones it lacks are those it received before opening their space. */
  lemma PublishedOrMissed(c: Config, es: seq<Event>, r: nat, t: Triple)
    requires IsRun(c, es) && Rows(c, After(c, es)) && r < |After(c, es).stores|
    requires After(c, es).wire.returned[r] == After(c, es).wire.fills && t in After(c, es).published
    ensures t in After(c, es).missed[r] || Get(c, After(c, es), r, t.0, t.1) == Client.Found(t.2)
  {
    RunInv(c, es);
    var s := After(c, es);
    assert Informed(s, r);
    if t !in s.missed[r] { KnownIsRead(c, s, r, t); }
  }
}
