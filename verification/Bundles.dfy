/** Transition bundles: what `rgb_bundles` must return for a store, and the round trip from an embedded batch. */
module Bundles {
  import opened Base
  import opened Protocol
  import opened Ledger
  import opened Store
  import opened TransitionOrder

  datatype TransitionBundle = TransitionBundle(inputMap: ConsumerMap, known: seq<KnownTransition>)

  predicate Readable(lib: Library, store: KeyMap, ids: set<OpId>) {
    forall id :: id in ids ==> ReadTransition(lib, store, id).Ok?
  }

  predicate IsStored(lib: Library, store: KeyMap, id: OpId) {
    ReadTransition(lib, store, id).Ok? && ReadTransition(lib, store, id).value.Some?
  }

  /* The transitions among `ids` that the store has. */
  ghost function StoredAmong(lib: Library, store: KeyMap, ids: set<OpId>): Graph {
    map id | id in ids && IsStored(lib, store, id) :: ReadTransition(lib, store, id).value.value
  }

  ghost predicate SizeFits(n: nat) {
    1 <= n <= 0xFFFF
  }

  /** A bundle can be made of the consumers of this contract. */
  ghost predicate CanBundle(lib: Library, store: KeyMap, consumers: ConsumerMap) {
    && SizeFits(|consumers|)
    && Readable(lib, store, consumers.Values)
    && Acyclic(StoredAmong(lib, store, consumers.Values))
    && SizeFits(|StoredAmong(lib, store, consumers.Values)|)
  }

  ghost predicate ContractReady(lib: Library, store: KeyMap, c: ContractId) {
    ReadConsumers(store, c).Ok? && CanBundle(lib, store, ReadConsumers(store, c).value)
  }

  /** All consumers of the contract, and their stored transitions in dependency order. */
  ghost predicate IsBundleOf(lib: Library, store: KeyMap, c: ContractId, bundle: TransitionBundle) {
    && ReadConsumers(store, c) == Ok(bundle.inputMap)
    && IsOrderingOf(StoredAmong(lib, store, bundle.inputMap.Values), bundle.known)
  }

  ghost predicate BundlesReady(lib: Library, store: KeyMap) {
    ReadContractIds(store).Ok? && forall c :: c in ReadContractIds(store).value ==> ContractReady(lib, store, c)
  }

  ghost predicate AreBundlesOf(lib: Library, store: KeyMap, bundles: map<ContractId, TransitionBundle>) {
    && ReadContractIds(store) == Ok(bundles.Keys)
    && forall c :: c in bundles ==> IsBundleOf(lib, store, c, bundles[c])
  }

  /** The transitions of the batch that act on the contract and have inputs. */
  ghost predicate ActsOn(batch: seq<Transition>, c: ContractId, t: Transition) {
    t in batch && t.content.contractId == c && t.content.inputs != {}
  }

  /* The dependency graph of the batch, restricted to one contract; `g` has each operation once. */
  ghost predicate IsContractGraph(lib: Library, batch: seq<Transition>, c: ContractId, g: Graph) {
    && (forall t :: ActsOn(batch, c, t) ==> lib.opid(t.content) in g)
    && (forall id :: id in g ==> ActsOn(batch, c, g[id]) && lib.opid(g[id].content) == id)
  }

  ghost predicate IsInputMap(lib: Library, batch: seq<Transition>, c: ContractId, m: ConsumerMap) {
    && (forall o :: o in m ==> ConsumedIn(lib, batch, c, o, m[o]))
    && (forall t, o :: t in batch && Consumes(t, c, o) ==> o in m && m[o] == lib.opid(t.content))
  }

  lemma EmbeddedState(lib: Library, batch: seq<Transition>, s: Rgb)
    requires Embed(lib, EMPTY, batch).1.Ok? && s == Embed(lib, EMPTY, batch).0
    ensures forall c :: IsInputMap(lib, batch, c, s.Of(c))
    ensures forall t :: t in batch ==> lib.Id(t) in s.transitions
    ensures forall id :: id in s.transitions ==> s.transitions[id] in batch && lib.Id(s.transitions[id]) == id
  {
    EmbedRecords(lib, EMPTY, batch);
    forall c ensures IsInputMap(lib, batch, c, s.Of(c)) {
      forall o | o in s.Of(c) ensures ConsumedIn(lib, batch, c, o, s.Of(c)[o]) {
        assert s.Records(c, o);
      }
      forall t, o | t in batch && Consumes(t, c, o) ensures o in s.Of(c) && s.Of(c)[o] == lib.Id(t) {
        assert s.Records(c, o);
      }
    }
  }

  ghost function Restricted(s: Rgb, ids: set<OpId>): Graph {
    map id | id in ids && id in s.transitions :: s.transitions[id]
  }

  lemma StoredAmongState(lib: Library, store: KeyMap, s: Rgb, ids: set<OpId>)
    requires lib.Lawful() && Refines(lib, store, s)
    ensures StoredAmong(lib, store, ids) == Restricted(s, ids)
    ensures Readable(lib, store, ids)
  {
    TransitionsRead(lib, store, s);
  }

  lemma GraphOnlyActing(lib: Library, batch: seq<Transition>, c: ContractId, s: Rgb, id: OpId)
    requires CollisionFree(lib, set t | t in batch)
    requires IsInputMap(lib, batch, c, s.Of(c)) && id in s.Of(c).Values
    requires id in s.transitions && s.transitions[id] in batch && lib.Id(s.transitions[id]) == id
    ensures ActsOn(batch, c, s.transitions[id])
  {
  }

  lemma GraphHasActing(lib: Library, batch: seq<Transition>, c: ContractId, m: ConsumerMap, t: Transition)
    requires IsInputMap(lib, batch, c, m) && ActsOn(batch, c, t)
    ensures lib.Id(t) in m.Values
  {
    var o :| o in t.content.inputs;
    assert Consumes(t, c, o);
    assert m[o] in m.Values;
  }

  lemma ContractGraph(lib: Library, batch: seq<Transition>, c: ContractId, s: Rgb)
    requires CollisionFree(lib, set t | t in batch)
    requires Embed(lib, EMPTY, batch).1.Ok? && s == Embed(lib, EMPTY, batch).0
    ensures IsContractGraph(lib, batch, c, Restricted(s, s.Of(c).Values))
  {
    EmbeddedState(lib, batch, s);
    var m := s.Of(c);
    var g := Restricted(s, m.Values);
    assert IsInputMap(lib, batch, c, m);
    forall t | ActsOn(batch, c, t) ensures lib.Id(t) in g {
      GraphHasActing(lib, batch, c, m, t);
    }
    forall id | id in g ensures ActsOn(batch, c, g[id]) && lib.Id(g[id]) == id {
      GraphOnlyActing(lib, batch, c, s, id);
    }
  }

  lemma ContractsOfBatch(lib: Library, batch: seq<Transition>, s: Rgb, c: ContractId)
    requires IsInputMap(lib, batch, c, s.Of(c))
    ensures s.Of(c) != map[] <==> exists t :: ActsOn(batch, c, t)
  {
    if o :| o in s.Of(c) {
      assert ConsumedIn(lib, batch, c, o, s.Of(c)[o]);
      var t :| t in batch && Consumes(t, c, o);
      assert ActsOn(batch, c, t);
    }
    if t :| ActsOn(batch, c, t) {
      var o :| o in t.content.inputs;
      assert Consumes(t, c, o);
    }
  }

  /** What `rgb_bundles` finds for one contract after the batch was embedded. */
  ghost predicate HoldsBatch(lib: Library, store: KeyMap, batch: seq<Transition>, c: ContractId) {
    && ReadConsumers(store, c).Ok?
    && var m := ReadConsumers(store, c).value;
    && var g := StoredAmong(lib, store, m.Values);
    && IsInputMap(lib, batch, c, m)
    && IsContractGraph(lib, batch, c, g)
    && (ContractReady(lib, store, c) <==> SizeFits(|m|) && Acyclic(g) && SizeFits(|g|))
  }

  lemma EmbeddedContract(lib: Library, store: KeyMap, batch: seq<Transition>, s: Rgb, c: ContractId)
    requires lib.Lawful() && Refines(lib, store, s)
    requires CollisionFree(lib, set t | t in batch)
    requires Embed(lib, EMPTY, batch).1.Ok? && s == Embed(lib, EMPTY, batch).0
    ensures c in s.consumers <==> exists t :: ActsOn(batch, c, t)
    ensures HoldsBatch(lib, store, batch, c)
  {
    var m := s.Of(c);
    var g := Restricted(s, m.Values);
    assert IsInputMap(lib, batch, c, m) by { EmbeddedState(lib, batch, s); }
    assert ReadConsumers(store, c) == Ok(m) && (c in s.consumers <==> m != map[]) by { ConsumersRead(store, s); }
    assert m != map[] <==> exists t :: ActsOn(batch, c, t) by { ContractsOfBatch(lib, batch, s, c); }
    assert IsContractGraph(lib, batch, c, g) by { ContractGraph(lib, batch, c, s); }
    assert StoredAmong(lib, store, m.Values) == g && Readable(lib, store, m.Values) by {
      StoredAmongState(lib, store, s, m.Values);
    }
  }

  /**
   * Embedding a batch into a fresh PSBT and reading it back: the contracts are those of the transitions with inputs,
   * each input map is the union of the contract's inputs, and the known transitions are the contract's, each once.
   */
  lemma EmbedThenBundle(lib: Library, store: KeyMap, batch: seq<Transition>)
    requires lib.Lawful() && Fresh(store)
    requires CollisionFree(lib, set t | t in batch)
    requires StoreEmbed(lib, store, batch).1.Ok?
    ensures ReadContractIds(StoreEmbed(lib, store, batch).0).Ok?
    ensures forall c :: c in ReadContractIds(StoreEmbed(lib, store, batch).0).value <==> exists t :: ActsOn(batch, c, t)
    ensures forall c :: HoldsBatch(lib, StoreEmbed(lib, store, batch).0, batch, c)
  {
    var store' := StoreEmbed(lib, store, batch).0;
    var s := Embed(lib, EMPTY, batch).0;
    FreshRefinesEmpty(lib, store);
    EmbedRefines(lib, store, EMPTY, batch);
    ContractIdsRead(store', s);
    forall c ensures HoldsBatch(lib, store', batch, c) && (c in s.consumers <==> exists t :: ActsOn(batch, c, t)) {
      EmbeddedContract(lib, store', batch, s, c);
    }
  }

  /* Input map and known transitions are those of the batch for the contract, each once, dependencies first. */
  ghost predicate BundlesBatch(lib: Library, batch: seq<Transition>, c: ContractId, bundle: TransitionBundle) {
    && IsInputMap(lib, batch, c, bundle.inputMap)
    && exists g :: IsContractGraph(lib, batch, c, g) && IsOrderingOf(g, bundle.known)
  }

  /** The bundles read back after embedding hold exactly what was embedded. */
  lemma BundlesOfBatch(lib: Library, store: KeyMap, batch: seq<Transition>, bundles: map<ContractId, TransitionBundle>)
    requires lib.Lawful() && Fresh(store)
    requires CollisionFree(lib, set t | t in batch)
    requires StoreEmbed(lib, store, batch).1.Ok?
    requires AreBundlesOf(lib, StoreEmbed(lib, store, batch).0, bundles)
    ensures forall c :: c in bundles <==> exists t :: ActsOn(batch, c, t)
    ensures forall c :: c in bundles ==> BundlesBatch(lib, batch, c, bundles[c])
  {
    hide StoreEmbed, Library.Lawful, Fresh, CollisionFree, IsInputMap, IsContractGraph, IsOrderingOf, StoredAmong,
        ActsOn;
    EmbedThenBundle(lib, store, batch);
    var store' := StoreEmbed(lib, store, batch).0;
    forall c | c in bundles ensures BundlesBatch(lib, batch, c, bundles[c]) {
      assert HoldsBatch(lib, store', batch, c) && IsBundleOf(lib, store', c, bundles[c]);
      assert IsContractGraph(lib, batch, c, StoredAmong(lib, store', bundles[c].inputMap.Values));
    }
  }
}
