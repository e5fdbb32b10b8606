/** Transitions that move the bystander state of other contracts to change (`build_extra_transitions`). */
module Extras {
  import opened Base
  import opened Protocol
  import opened Selection
  import opened Conservation
  import opened Composition

  /** An assignment of some contract. */
  datatype Item = Item(contractId: ContractId, opout: Opout, state: State)

  type World = map<ContractId, Items>

  function Of(world: World, c: ContractId): Items {
    if c in world then world[c] else map[]
  }

  /** The transition that moves one assignment to the change output. */
  function ExtraContent(lib: BuilderLibrary, item: Item, change: nat): Content {
    Content(item.contractId, lib.transitionType(item.contractId, item.opout.ty), {item.opout},
            [Assignment(item.opout.ty, Revealed(change), item.state)])
  }

  /* Assignments of contracts of `world`, none twice. */
  ghost predicate Lists(items: seq<Item>, world: World) {
    && (forall i :: 0 <= i < |items| ==>
          items[i].opout in Of(world, items[i].contractId)
              && items[i].state == Of(world, items[i].contractId)[items[i].opout])
    && (forall i, j :: 0 <= i < j < |items| ==>
        items[i].contractId != items[j].contractId || items[i].opout != items[j].opout)
  }

  /** Every assignment of every contract of `world` is listed, each once. */
  ghost predicate Enumerates(items: seq<Item>, world: World) {
    && Lists(items, world)
    && (forall c, o :: o in Of(world, c) ==> IsListed(items, c, o))
  }

  ghost predicate IsListed(items: seq<Item>, c: ContractId, o: Opout) {
    exists i :: 0 <= i < |items| && items[i].contractId == c && items[i].opout == o
  }

  /** Each transition moves the item of the same position. */
  ghost predicate MoveEach(lib: BuilderLibrary, ts: seq<Transition>, items: seq<Item>, change: Option<nat>) {
    && |ts| == |items|
    && (items != [] ==> change.Some?)
    && forall i :: 0 <= i < |ts| ==> ts[i].content == ExtraContent(lib, items[i], change.value)
  }

  lemma EnumerateOneMore(items: seq<Item>, world: World, c: ContractId, o: Opout, state: State)
    requires Enumerates(items, world) && o !in Of(world, c)
    ensures Enumerates(items + [Item(c, o, state)], world[c := Of(world, c)[o := state]])
  {
    var items', world' := items + [Item(c, o, state)], world[c := Of(world, c)[o := state]];
    forall d, p | p in Of(world', d) ensures IsListed(items', d, p) {
      if d == c && p == o {
        assert items'[|items|].opout == o;
      } else {
        assert IsListed(items, d, p);
        var i :| 0 <= i < |items| && items[i].contractId == d && items[i].opout == p;
        assert items'[i] == items[i];
      }
    }
  }

  /** Every extra transition conserves all state. */
  lemma ExtraConserves(lib: BuilderLibrary, item: Item, change: nat)
    ensures SameState(map[item.opout := item.state], ExtraContent(lib, item, change).outputs)
  {
    var none: Items := map[];
    var a := Assignment(item.opout.ty, Revealed(change), item.state);
    var items := map[item.opout := item.state];
    assert none[item.opout := item.state] == items;
    assert [] + [a] == [a];
    forall t: U16, state: State ensures OutCount([a], t, state) == InCount(items, t, state) {
      InCountAdd(none, item.opout, item.state, t, state);
      OutCountSnoc([], a, t, state);
    }
  }

  /* There is a change output, and the builder allows to begin, to take the item, to put it there and to finish. */
  ghost predicate CanMove(lib: BuilderLibrary, item: Item, change: Option<nat>) {
    && change.Some?
    && var start := Builder(item.contractId, lib.transitionType(item.contractId, item.opout.ty), map[], []);
    && var taken := start.(inputs := map[item.opout := item.state]);
    && var a := Assignment(item.opout.ty, Revealed(change.value), item.state);
    && lib.allows(start, Begin)
    && lib.allows(start, TakeInput(item.opout, item.state))
    && lib.allows(taken, GiveOutput(a))
    && lib.allows(taken.(outputs := [a]), Finish)
  }

  /** All assignments of `world` can be moved, and they are not too many. */
  ghost predicate Movable(lib: BuilderLibrary, world: World, change: Option<nat>) {
    && (forall c, o :: o in Of(world, c) ==> CanMove(lib, Item(c, o, Of(world, c)[o]), change))
    && (forall items :: Lists(items, world) ==> |items| <= 0xFF_FFFE)
  }

  ghost predicate Within(part: World, world: World) {
    forall c, o :: o in Of(part, c) ==> o in Of(world, c) && Of(world, c)[o] == Of(part, c)[o]
  }

  lemma MovablePart(lib: BuilderLibrary, part: World, world: World, change: Option<nat>)
    requires Within(part, world) && Movable(lib, world, change)
    ensures Movable(lib, part, change)
  {
  }

  /* The transitions made so far, of these items. */
  ghost predicate Moved(lib: BuilderLibrary, ts: seq<Transition>, items: seq<Item>, change: Option<nat>) {
    && MoveEach(lib, ts, items, change)
    && (forall i :: 0 <= i < |items| ==> CanMove(lib, items[i], change))
    && |items| <= MAX_EXTRAS
  }

  ghost function PairsOf(items: seq<Item>): set<(ContractId, Opout)> {
    set i | 0 <= i < |items| :: (items[i].contractId, items[i].opout)
  }

  lemma {:induction false} PairsCount(items: seq<Item>, world: World)
    requires Lists(items, world)
    ensures |PairsOf(items)| == |items|
  {
    if items != [] {
      var n := |items| - 1;
      PairsCount(items[..n], world);
      assert PairsOf(items) == PairsOf(items[..n]) + {(items[n].contractId, items[n].opout)};
    }
  }

  lemma FullListIsLongest(items: seq<Item>, all: seq<Item>, world: World)
    requires Lists(items, world) && Enumerates(all, world)
    ensures |items| <= |all|
  {
    PairsCount(items, world);
    PairsCount(all, world);
    forall p | p in PairsOf(items) ensures p in PairsOf(all) {
      assert IsListed(all, p.0, p.1);
    }
    SubsetSize(PairsOf(items), PairsOf(all));
  }

  lemma MovedAll(lib: BuilderLibrary, ts: seq<Transition>, items: seq<Item>, world: World, change: Option<nat>)
    requires Moved(lib, ts, items, change) && Enumerates(items, world)
    ensures Movable(lib, world, change)
  {
    forall c, o | o in Of(world, c) ensures CanMove(lib, Item(c, o, Of(world, c)[o]), change) {
      assert IsListed(items, c, o);
      var i :| 0 <= i < |items| && items[i].contractId == c && items[i].opout == o;
      assert items[i] == Item(c, o, Of(world, c)[o]);
    }
    forall list | Lists(list, world) ensures |list| <= MAX_EXTRAS {
      FullListIsLongest(list, items, world);
    }
  }

  /* One assignment cannot be moved, or one more would be too many. */
  lemma CannotMove(lib: BuilderLibrary, item: Item, items: seq<Item>, part: World, world: World, change: Option<nat>)
    requires Lists(items + [item], part) && Within(part, world)
    requires !CanMove(lib, item, change) || |items| >= MAX_EXTRAS
    ensures !Movable(lib, world, change)
  {
    assert (items + [item])[|items|] == item;
    assert item.opout in Of(part, item.contractId)
           && item == Item(item.contractId, item.opout, Of(part, item.contractId)[item.opout]);
    if Movable(lib, world, change) {
      MovablePart(lib, part, world, change);
    }
  }

  predicate IsExtraError(e: CompositionError) {
    e.NoExtraOrChange? || e == BuilderError || e == TooManyExtras || e == UnknownContract
  }

  method MoveItem(lib: BuilderLibrary, item: Item, meta: PsbtMeta) returns (r: Result<Transition, CompositionError>)
    ensures r.Ok? <==> CanMove(lib, item, meta.changeVout)
    ensures r.Ok? ==> r.value.content == ExtraContent(lib, item, meta.changeVout.value)
    ensures r.Err? ==> r.error == BuilderError || (r.error == NoExtraOrChange(item.opout.ty) && meta.changeVout.None?)
  {
    var start := Builder(item.contractId, lib.transitionType(item.contractId, item.opout.ty), map[], []);
    var begun := start.Begun(lib);
    if begun.Err? {
      return Err(begun.error);
    }
    var seal := ChangeSeal(item.opout.ty, meta);
    if seal.Err? {
      return Err(seal.error);
    }
    var taken := begun.value.AddInput(lib, item.opout, item.state);
    if taken.Err? {
      return Err(taken.error);
    }
    assert taken.value.inputs == map[item.opout := item.state];
    var moved := taken.value.AddOwned(lib, Assignment(item.opout.ty, seal.value, item.state));
    if moved.Err? {
      return Err(moved.error);
    }
    assert moved.value.outputs == [Assignment(item.opout.ty, seal.value, item.state)];
    r := moved.value.Complete(lib);
  }

  lemma ListedOneMore(items: seq<Item>, world: World, c: ContractId, added: Items, o: Opout, state: State)
    requires Enumerates(items, world[c := added]) && o !in added
    ensures Enumerates(items + [Item(c, o, state)], world[c := added[o := state]])
  {
    EnumerateOneMore(items, world[c := added], c, o, state);
    assert world[c := added][c := added[o := state]] == world[c := added[o := state]];
  }

  lemma MovedOneMore(lib: BuilderLibrary, ts: seq<Transition>, items: seq<Item>, change: Option<nat>, t: Transition,
                     item: Item)
    requires Moved(lib, ts, items, change) && |items| < MAX_EXTRAS
    requires CanMove(lib, item, change) && t.content == ExtraContent(lib, item, change.value)
    ensures Moved(lib, ts + [t], items + [item], change)
  {
  }

  lemma WithinList(world: World, c: ContractId, list: Items, rest: Items, added: Items)
    requires AddedSoFar(Of(world, c), list, rest, added)
    ensures Within(world[c := added], world[c := Of(world, c) + list])
  {
  }

  /* One transition per assignment of a list. */
  method MoveList(lib: BuilderLibrary, c: ContractId, list: Items, meta: PsbtMeta, ts: seq<Transition>,
                  ghost items: seq<Item>, ghost world: World)
    returns (r: Result<seq<Transition>, CompositionError>, ghost items': seq<Item>)
    requires Moved(lib, ts, items, meta.changeVout) && Enumerates(items, world)
    requires list.Keys !! Of(world, c).Keys
    ensures r.Ok? ==>
              Moved(lib, r.value, items', meta.changeVout) && Enumerates(items', world[c := Of(world, c) + list])
    ensures r.Err? ==> IsExtraError(r.error) && !Movable(lib, world[c := Of(world, c) + list], meta.changeVout)
  {
    ghost var added := Of(world, c);
    AddedNothing(added, list);
    EnumerateMore(items, world, c);
    assert |ts| == |items| <= MAX_EXTRAS;
    hide AddedSoFar, Moved, Movable, Within, CanMove, IsListed, Lists;
    var extras := ts;
    items' := items;
    var rest := list;
    while rest != map[]
      invariant AddedSoFar(Of(world, c), list, rest, added) && rest.Keys <= list.Keys
      invariant Moved(lib, extras, items', meta.changeVout) && |extras| == |items'| <= MAX_EXTRAS
      invariant Enumerates(items', world[c := added])
      decreases |rest|
    {
      var o :| o in rest;
      var item := Item(c, o, rest[o]);
      AddedOneMore(Of(world, c), list, rest, added, o);
      ListedOneMore(items', world, c, added, o, rest[o]);
      WithinList(world, c, list, rest - {o}, added[o := rest[o]]);
      var transition := MoveItem(lib, item, meta);
      if transition.Err? {
        CannotMove(lib, item, items', world[c := added[o := rest[o]]], world[c := Of(world, c) + list],
                   meta.changeVout);
        return Err(transition.error), items';
      }
      if |extras| >= MAX_EXTRAS {
        CannotMove(lib, item, items', world[c := added[o := rest[o]]], world[c := Of(world, c) + list],
                   meta.changeVout);
        return Err(TooManyExtras), items';
      }
      MovedOneMore(lib, extras, items', meta.changeVout, transition.value, item);
      extras := extras + [transition.value];
      items' := items' + [item];
      added := added[o := rest[o]];
      rest := rest - {o};
    }
    AddedAll(Of(world, c), list, added);
    r := Ok(extras);
  }

  lemma EnumerateMore(items: seq<Item>, world: World, c: ContractId)
    requires Enumerates(items, world)
    ensures Enumerates(items, world[c := Of(world, c)])
  {
  }

  lemma OutputsWithin(lib: BuilderLibrary, world: World, c: ContractId, h: Holdings, some: set<OutputSeal>,
                      outputs: set<OutputSeal>, change: Option<nat>)
    requires OneSealEach(h) && some <= outputs
    requires !Movable(lib, world[c := ItemsAt(h, some)], change)
    ensures !Movable(lib, world[c := ItemsAt(h, outputs)], change)
  {
    hide ItemsAt, Movable;
    FewerOutputs(h, some, outputs);
    assert Within(world[c := ItemsAt(h, some)], world[c := ItemsAt(h, outputs)]);
    if Movable(lib, world[c := ItemsAt(h, outputs)], change) {
      MovablePart(lib, world[c := ItemsAt(h, some)], world[c := ItemsAt(h, outputs)], change);
    }
  }

  /* All assignments of one contract on the outputs. */
  method MoveContract(lib: BuilderLibrary, c: ContractId, holdings: Holdings, outputs: set<OutputSeal>, meta: PsbtMeta,
                      ts: seq<Transition>, ghost items: seq<Item>, ghost world: World)
    returns (r: Result<seq<Transition>, CompositionError>, ghost items': seq<Item>)
    requires OneSealEach(holdings) && Of(world, c) == map[]
    requires Moved(lib, ts, items, meta.changeVout) && Enumerates(items, world)
    ensures r.Ok? ==>
              Moved(lib, r.value, items', meta.changeVout) && Enumerates(items', world[c := ItemsAt(holdings, outputs)])
    ensures r.Err? ==> IsExtraError(r.error) && !Movable(lib, world[c := ItemsAt(holdings, outputs)], meta.changeVout)
  {
    hide Enumerates, Moved, Movable, Within, ItemsAt, IsExtraError;
    r, items' := Ok(ts), items;
    var rest := outputs * holdings.Keys;
    ghost var done: set<OutputSeal> := {};
    ItemsAtNone(holdings);
    EnumerateMore(items, world, c);
    while rest != {}
      invariant rest <= outputs * holdings.Keys && done == outputs * holdings.Keys - rest
      invariant r.Ok? && Moved(lib, r.value, items', meta.changeVout)
      invariant Enumerates(items', world[c := ItemsAt(holdings, done)])
    {
      var output :| output in rest;
      ItemsOfOneMore(holdings, done, output);
      ghost var before := world[c := ItemsAt(holdings, done)];
      r, items' := MoveList(lib, c, holdings[output], meta, r.value, items', before);
      assert before[c := ItemsAt(holdings, done) + holdings[output]] == world[c := ItemsAt(holdings, done + {output})];
      if r.Err? {
        OutputsWithin(lib, world, c, holdings, done + {output}, outputs, meta.changeVout);
        return;
      }
      done := done + {output};
      rest := rest - {output};
    }
    assert done == outputs * holdings.Keys;
    ItemsAtKnown(holdings, outputs);
  }

  /* Adding the same assignments again changes nothing. */
  function Extend(entry: Holdings, state: Holdings): Holdings {
    map s | s in entry.Keys + state.Keys ::
      (if s in entry then entry[s] else map[]) + (if s in state then state[s] else map[])
  }

  function OnOutputs(h: Holdings, outputs: set<OutputSeal>): Holdings {
    map s | s in h && s in outputs :: h[s]
  }

  function IdSet(ids: seq<ContractId>): set<ContractId> {
    set c | c in ids
  }

  /* The stock has every listed contract but perhaps the invoiced one. */
  ghost predicate AllKnown(stock: Stock, contractId: ContractId, ids: seq<ContractId>) {
    forall c :: c in ids && c != contractId ==> c in stock.contracts
  }

  /** State of the other contracts on the outputs; a contract listed twice is collected once. */
  method CollectExtraState(stock: Stock, contractId: ContractId, outputs: set<OutputSeal>, ids: seq<ContractId>)
    returns (r: Result<map<ContractId, Holdings>, CompositionError>)
    ensures r.Ok? ==> r.value.Keys == IdSet(ids) - {contractId}
    ensures r.Ok? ==> forall c :: c in r.value ==>
              c in stock.contracts && r.value[c] == OnOutputs(stock.contracts[c], outputs)
    ensures r.Ok? <==> AllKnown(stock, contractId, ids)
    ensures r.Err? ==> r.error == UnknownContract
  {
    var extra: map<ContractId, Holdings> := map[];
    var i := 0;
    while i < |ids|
      invariant 0 <= i <= |ids|
      invariant extra.Keys == IdSet(ids[..i]) - {contractId}
      invariant forall c :: c in extra ==> c in stock.contracts && extra[c] == OnOutputs(stock.contracts[c], outputs)
    {
      var id := ids[i];
      assert ids[..i + 1] == ids[..i] + [id];
      if id != contractId {
        if id !in stock.contracts {
          return Err(UnknownContract);
        }
        var state := OnOutputs(stock.contracts[id], outputs);
        var entry := if id in extra then extra[id] else map[];
        assert Extend(entry, state) == state by {
          forall s | s in state ensures Extend(entry, state)[s] == state[s] {
          }
        }
        extra := extra[id := Extend(entry, state)];
      }
      i := i + 1;
    }
    assert ids[..i] == ids;
    r := Ok(extra);
  }

  lemma ItemsAtOnOutputs(h: Holdings, outputs: set<OutputSeal>)
    requires OneSealEach(h)
    ensures OneSealEach(OnOutputs(h, outputs))
    ensures ItemsAt(OnOutputs(h, outputs), outputs) == ItemsAt(h, outputs)
  {
    hide ItemsAt;
    forall o ensures o in ItemsAt(OnOutputs(h, outputs), outputs) <==> o in ItemsAt(h, outputs)
             ensures o in ItemsAt(h, outputs) ==> ItemsAt(OnOutputs(h, outputs), outputs)[o] == ItemsAt(h, outputs)[o]
    {
      ItemIff(h, outputs, o);
      ItemIff(OnOutputs(h, outputs), outputs, o);
      forall s ensures IsOn(OnOutputs(h, outputs), outputs, s, o) <==> IsOn(h, outputs, s, o) {
        assert s in OnOutputs(h, outputs) <==> s in h && s in outputs;
      }
    }
  }

  /** The assignments of the listed contracts, other than the invoiced one, on the outputs. */
  ghost function OtherItems(stock: Stock, contractId: ContractId, outputs: set<OutputSeal>, ids: set<ContractId>): World
    requires stock.Valid()
  {
    map c | c in ids && c != contractId && c in stock.contracts :: ItemsAt(stock.contracts[c], outputs)
  }

  ghost predicate EachOneSeal(extra: map<ContractId, Holdings>) {
    forall c :: c in extra ==> OneSealEach(extra[c])
  }

  ghost function CollectedItems(extra: map<ContractId, Holdings>, outputs: set<OutputSeal>): World
    requires EachOneSeal(extra)
  {
    map c | c in extra :: ItemsAt(extra[c], outputs)
  }

  lemma CollectedAreOtherItems(stock: Stock, contractId: ContractId, outputs: set<OutputSeal>, ids: seq<ContractId>,
                               extra: map<ContractId, Holdings>)
    requires stock.Valid()
    requires extra.Keys == IdSet(ids) - {contractId}
    requires forall c :: c in extra ==> c in stock.contracts && extra[c] == OnOutputs(stock.contracts[c], outputs)
    ensures EachOneSeal(extra)
    ensures CollectedItems(extra, outputs) == OtherItems(stock, contractId, outputs, IdSet(ids))
  {
    hide OneSealEach, ItemsAt;
    forall c | c in extra
      ensures OneSealEach(extra[c]) && ItemsAt(extra[c], outputs) == ItemsAt(stock.contracts[c], outputs)
    {
      ItemsAtOnOutputs(stock.contracts[c], outputs);
    }
  }

  /* All assignments of the collected contracts, one contract after another. */
  method MoveContracts(lib: BuilderLibrary, extra: map<ContractId, Holdings>, outputs: set<OutputSeal>, meta: PsbtMeta)
    returns (r: Result<seq<Transition>, CompositionError>, ghost items: seq<Item>)
    requires EachOneSeal(extra)
    ensures r.Ok? ==> Moved(lib, r.value, items, meta.changeVout) && Enumerates(items, CollectedItems(extra, outputs))
    ensures r.Err? ==> IsExtraError(r.error) && !Movable(lib, CollectedItems(extra, outputs), meta.changeVout)
  {
    r, items := Ok([]), [];
    assert Enumerates(items, map[]) && Moved(lib, [], items, meta.changeVout);
    hide OneSealEach, ItemsAt, Enumerates, Moved, Movable, IsExtraError;
    var rest := extra.Keys;
    ghost var world: World := map[];
    while rest != {}
      invariant rest <= extra.Keys && world.Keys == extra.Keys - rest
      invariant forall c :: c in world ==> world[c] == ItemsAt(extra[c], outputs)
      invariant r.Ok? && Moved(lib, r.value, items, meta.changeVout) && Enumerates(items, world)
    {
      var c :| c in rest;
      r, items := MoveContract(lib, c, extra[c], outputs, meta, r.value, items, world);
      world := world[c := ItemsAt(extra[c], outputs)];
      if r.Err? {
        if Movable(lib, CollectedItems(extra, outputs), meta.changeVout) {
          MovablePart(lib, world, CollectedItems(extra, outputs), meta.changeVout);
        }
        return;
      }
      rest := rest - {c};
    }
    assert world == CollectedItems(extra, outputs);
  }

  /**
   * One transition per assignment of every other contract on the outputs, moving it to change. It succeeds exactly when
   * the listed contracts are known and all of their assignments can be moved.
   */
  method BuildExtraTransitions(lib: BuilderLibrary, stock: Stock, contractId: ContractId, outputs: set<OutputSeal>,
                               ids: seq<ContractId>, meta: PsbtMeta)
    returns (r: Result<seq<Transition>, CompositionError>, ghost items: seq<Item>)
    requires stock.Valid()
    ensures r.Ok? <==>
              && AllKnown(stock, contractId, ids)
              && Movable(lib, OtherItems(stock, contractId, outputs, IdSet(ids)), meta.changeVout)
    ensures r.Ok? ==> MoveEach(lib, r.value, items, meta.changeVout)
    ensures r.Ok? ==> Enumerates(items, OtherItems(stock, contractId, outputs, IdSet(ids)))
    ensures r.Err? ==> IsExtraError(r.error)
  {
    var collected := CollectExtraState(stock, contractId, outputs, ids);
    if collected.Err? {
      return Err(collected.error), [];
    }
    CollectedAreOtherItems(stock, contractId, outputs, ids, collected.value);
    r, items := MoveContracts(lib, collected.value, outputs, meta);
    if r.Ok? { MovedAll(lib, r.value, items, CollectedItems(collected.value, outputs), meta.changeVout); }
  }
}
