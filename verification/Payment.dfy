/** What a payment spends, the batch of transitions that pays it, and what the batch keeps. */
module Payment {
  import opened Base
  import opened Protocol
  import opened Ledger
  import opened Store
  import opened Selection
  import opened Conservation
  import opened Composition
  import opened Extras

  /* The fungible allocations of a type on the spendable outputs, in any order. */
  ghost predicate ListsFungible(h: Holdings, ty: U16, spendable: set<OutputSeal>, allocations: seq<Allocation>) {
    && (forall i, j :: 0 <= i < j < |allocations| ==> allocations[i].opout != allocations[j].opout)
    && (forall a :: a in allocations ==>
          IsOn(h, spendable, a.seal, a.opout) && a.opout.ty == ty && h[a.seal][a.opout] == Amount(a.amount))
    && (forall s, o :: IsOn(h, spendable, s, o) && o.ty == ty && h[s][o].Amount? ==>
          exists a :: a in allocations && a.opout == o)
  }

  lemma SelectedAreListed(h: Holdings, ty: U16, spendable: set<OutputSeal>, allocations: seq<Allocation>,
                          seals: set<OutputSeal>)
    requires OneSealEach(h) && ListsFungible(h, ty, spendable, allocations) && seals <= AllSeals(allocations)
    ensures ListedAs(ItemsAt(h, seals), ty, allocations, seals)
  {
    var items := ItemsAt(h, seals);
    hide ItemsAt;
    forall a | a in allocations && a.seal in seals ensures a.opout in items && items[a.opout] == Amount(a.amount) {
      ItemIff(h, seals, a.opout);
      assert IsOn(h, seals, a.seal, a.opout);
    }
    forall o | o in items && o.ty == ty && items[o].Amount?
      ensures exists a :: a in allocations && a.seal in seals && a.opout == o
    {
      ItemIff(h, seals, o);
      var s :| IsOn(h, seals, s, o);
      assert s in AllSeals(allocations);
      var b :| b in allocations && b.seal == s;
      assert IsOn(h, spendable, s, o);
      var a :| a in allocations && a.opout == o;
      assert a.seal == s;
    }
  }

  /** What selection counted on the selected outputs is what building finds there. */
  lemma SelectionAndBuildingAgree(h: Holdings, ty: U16, spendable: set<OutputSeal>, allocations: seq<Allocation>,
                                  seals: set<OutputSeal>)
    requires OneSealEach(h) && ListsFungible(h, ty, spendable, allocations) && seals <= AllSeals(allocations)
    ensures InSum(ItemsAt(h, seals), ty) == Held(allocations, seals)
  {
    SelectedAreListed(h, ty, spendable, allocations, seals);
    HeldIsInSum(ItemsAt(h, seals), ty, allocations, seals);
  }

  /**
   * What a payment is made from. `allocations` are the fungible ones the contract lists, `assigning` lists the
   * contracts with state on given outputs.
   */
  datatype Order = Order(
    lib: BuilderLibrary,
    stock: Stock,
    invoice: Invoice,
    context: PaymentContext,
    spendable: set<OutputSeal>,
    allocations: seq<Allocation>,
    assigning: set<OutputSeal> -> seq<ContractId>)
  {
    /* Every contract with state on the outputs is listed; contracts may be listed more than once. */
    ghost predicate Valid() {
      stock.Valid() && forall outputs, c :: stock.ItemsOn(c, outputs) != map[] ==> c in assigning(outputs)
    }

    predicate Selectable() {
      context.contractId in stock.contracts && invoice.state.Some?
    }

    function Ty(): U16 {
      context.assignmentType
    }

    function Contract(): Holdings
      requires Selectable()
    {
      stock.contracts[context.contractId]
    }

    /** The outputs to spend: the best cover of an amount, or all outputs with the data or right. */
    ghost predicate Selects(outputs: set<OutputSeal>)
      requires Selectable()
    {
      match invoice.state.value
      case AmountState(amount) =>
        if 0 < amount <= Held(allocations, AllSeals(allocations)) then
          IsBestCover(allocations, amount, outputs) && outputs != {}
        else outputs == {}
      case DataState(data) => forall s :: s in outputs <==> HasState(s, Data(data))
      case VoidState => forall s :: s in outputs <==> HasState(s, Void)
    }

    ghost predicate HasState(s: OutputSeal, state: State)
      requires Selectable()
    {
      exists o :: IsOn(Contract(), spendable, s, o) && o.ty == context.assignmentType && Contract()[s][o] == state
    }
  }

  /* The outputs with a state of the invoiced type. */
  method SelectSingle(order: Order, state: State) returns (outputs: set<OutputSeal>)
    requires order.Selectable()
    ensures forall s :: s in outputs <==> order.HasState(s, state)
  {
    var h := order.Contract();
    outputs := set s: OutputSeal, o: Opout |
      s in h && s in order.spendable && o in h[s] && o.ty == order.Ty() && h[s][o] == state :: s;
    assert forall s, o :: IsOn(h, order.spendable, s, o) <==> s in h && s in order.spendable && o in h[s];
  }

  /** The outputs to spend for the invoice. */
  method SelectStateForInvoice(order: Order) returns (r: Result<set<OutputSeal>, CompositionError>)
    ensures r.Ok? <==> order.Selectable()
    ensures r.Err? ==> r.error == UnknownContract || r.error == NoAssignmentState
    ensures r.Ok? ==> order.Selects(r.value)
  {
    if order.context.contractId !in order.stock.contracts {
      return Err(UnknownContract);
    }
    if order.invoice.state.None? {
      return Err(NoAssignmentState);
    }
    var selection;
    match order.invoice.state.value {
      case AmountState(amount) => selection := SelectForAmount(order.allocations, amount);
      case DataState(data) => selection := SelectSingle(order, Data(data));
      case VoidState => selection := SelectSingle(order, Void);
    }
    r := Ok(selection);
  }

  /** An order once outputs were selected and the PSBT for them was made. */
  datatype Plan = Plan(order: Order, outputs: set<OutputSeal>, meta: PsbtMeta) {
    function AsRequest(): Request {
      Request(order.lib, order.invoice, order.context, meta)
    }

    function Ids(): seq<ContractId> {
      order.assigning(outputs)
    }

    /* The assignments of a contract on the selected outputs. */
    ghost function ItemsOf(c: ContractId): Items
      requires Valid()
    {
      order.stock.ItemsOn(c, outputs)
    }

    ghost function MainItems(): Items
      requires Valid()
    {
      ItemsOf(order.context.contractId)
    }

    ghost function Others(): World
      requires Valid()
    {
      OtherItems(order.stock, order.context.contractId, outputs, IdSet(Ids()))
    }

    ghost predicate Valid() {
      order.stock.Valid() && forall c :: order.stock.ItemsOn(c, outputs) != map[] ==> c in Ids()
    }

    /** The batch of a payment: the main transition, then one transition per bystander assignment. */
    ghost predicate IsBatch(batch: seq<Transition>, items: seq<Item>)
      requires Valid()
    {
      && batch != []
      && AsRequest().IsMain(MainItems(), batch[0].content)
      && MoveEach(order.lib, batch[1..], items, meta.changeVout)
      && Enumerates(items, Others())
    }
  }

  lemma OthersOn(plan: Plan, c: ContractId)
    requires plan.Valid()
    ensures Of(plan.Others(), c) == if c == plan.order.context.contractId then map[] else plan.ItemsOf(c)
  {
  }

  /* What the transition at a position of the batch consumes. */
  lemma BatchConsumes(plan: Plan, batch: seq<Transition>, items: seq<Item>, i: nat, c: ContractId, o: Opout)
    requires plan.Valid() && plan.IsBatch(batch, items) && i < |batch|
    ensures |items| == |batch| - 1
    ensures i == 0 ==> (Consumes(batch[i], c, o) <==> c == plan.order.context.contractId && o in plan.ItemsOf(c))
    ensures i > 0 ==> (Consumes(batch[i], c, o) <==> items[i - 1].contractId == c && items[i - 1].opout == o)
    ensures i > 0 && Consumes(batch[i], c, o) ==> c != plan.order.context.contractId && o in plan.ItemsOf(c)
  {
    hide ItemsAt, OtherItems;
    if i > 0 {
      assert batch[i] == batch[1..][i - 1];
      assert batch[i].content == ExtraContent(plan.order.lib, items[i - 1], plan.meta.changeVout.value);
      OthersOn(plan, c);
    }
  }

  /** No two transitions of the batch consume the same assignment. */
  lemma BatchIsDisjoint(plan: Plan, batch: seq<Transition>, items: seq<Item>, lib: Library)
    requires plan.Valid() && plan.IsBatch(batch, items)
    ensures forall i, j, c, o :: 0 <= i < j < |batch| ==> !(Consumes(batch[i], c, o) && Consumes(batch[j], c, o))
    ensures !Conflict(lib, EMPTY, batch)
  {
    hide *;
    ItemsAreDistinct(plan, batch, items);
    forall i, j, c, o | 0 <= i < j < |batch| ensures !(Consumes(batch[i], c, o) && Consumes(batch[j], c, o)) {
      BatchConsumes(plan, batch, items, i, c, o);
      BatchConsumes(plan, batch, items, j, c, o);
    }
    DisjointIsNoConflict(lib, batch);
  }

  lemma ItemsAreDistinct(plan: Plan, batch: seq<Transition>, items: seq<Item>)
    requires plan.Valid() && plan.IsBatch(batch, items)
    ensures forall i, j :: 0 <= i < j < |items| ==>
              items[i].contractId != items[j].contractId || items[i].opout != items[j].opout
  {
    hide OtherItems, ItemsAt, MoveEach, Request.IsMain;
  }

  lemma DisjointIsNoConflict(lib: Library, batch: seq<Transition>)
    requires forall i, j, c, o :: 0 <= i < j < |batch| ==> !(Consumes(batch[i], c, o) && Consumes(batch[j], c, o))
    ensures !Conflict(lib, EMPTY, batch)
  {
  }

  lemma ItemIsConsumed(plan: Plan, batch: seq<Transition>, items: seq<Item>, c: ContractId, o: Opout)
    requires plan.Valid() && plan.IsBatch(batch, items)
    requires o in plan.ItemsOf(c)
    ensures exists t :: t in batch && Consumes(t, c, o)
  {
    BatchConsumes(plan, batch, items, 0, c, o);
    if c == plan.order.context.contractId {
      assert batch[0] in batch;
    } else {
      OthersOn(plan, c);
      assert IsListed(items, c, o);
      var i :| 0 <= i < |items| && items[i].contractId == c && items[i].opout == o;
      BatchConsumes(plan, batch, items, i + 1, c, o);
      assert batch[i + 1] in batch;
    }
  }

  /** Every assignment of every contract on the selected outputs is consumed, and nothing else is. */
  lemma BatchConsumesAll(plan: Plan, batch: seq<Transition>, items: seq<Item>, c: ContractId, o: Opout)
    requires plan.Valid() && plan.IsBatch(batch, items)
    ensures o in plan.ItemsOf(c) <==> exists t :: t in batch && Consumes(t, c, o)
  {
    if o in plan.ItemsOf(c) {
      ItemIsConsumed(plan, batch, items, c, o);
    }
    if t :| t in batch && Consumes(t, c, o) {
      var i :| 0 <= i < |batch| && batch[i] == t;
      BatchConsumes(plan, batch, items, i, c, o);
    }
  }

  /* The inputs of one transition of the batch, with their states. */
  ghost function InputItems(plan: Plan, t: Transition): Items
    requires plan.Valid()
  {
    var all := plan.ItemsOf(t.content.contractId);
    map o | o in t.content.inputs && o in all :: all[o]
  }

  /* The outputs hold the state of the inputs; amounts of the invoiced type may be divided by an amount invoice. */
  ghost predicate KeepsState(items: Items, outputs: seq<Assignment>, ty: U16, state: InvoiceState) {
    if state.AmountState? then Conserved(items, outputs, ty) else SameState(items, outputs)
  }

  /* Of the invoiced type the inputs have amounts only, or the one invoiced piece of state. */
  ghost predicate NothingToDrop(items: Items, ty: U16, state: InvoiceState) {
    match state
    case AmountState(_) => AllAmounts(items, ty)
    case DataState(data) => IsOnlyOf(items, ty, Data(data))
    case VoidState => IsOnlyOf(items, ty, Void)
  }

  /**
   * No state is lost. Every bystander transition holds on its outputs exactly the state of its inputs. The main
   * transition does so for all other types, and for the invoiced type exactly when there is nothing to drop.
   */
  lemma BatchConserves(plan: Plan, batch: seq<Transition>, items: seq<Item>, i: nat)
    requires plan.Valid() && plan.IsBatch(batch, items) && i < |batch|
    ensures plan.order.invoice.state.Some?
    ensures InputItems(plan, batch[i]).Keys == batch[i].content.inputs
    ensures i > 0 ==> SameState(InputItems(plan, batch[i]), batch[i].content.outputs)
    ensures i == 0 ==>
              SameOthers(InputItems(plan, batch[0]), batch[0].content.outputs, plan.order.context.assignmentType)
    ensures i == 0 ==>
              var state := plan.order.invoice.state.value;
              KeepsState(InputItems(plan, batch[0]), batch[0].content.outputs, plan.order.context.assignmentType, state)
              <==> NothingToDrop(InputItems(plan, batch[0]), plan.order.context.assignmentType, state)
  {
    hide ItemsAt, OtherItems, Conserved, SameState, SameOthers, AllAmounts, IsOnlyOf;
    var inputs := InputItems(plan, batch[i]);
    if i == 0 {
      assert inputs == plan.MainItems();
      MainKeeps(inputs, plan.order.context.assignmentType, plan.order.invoice.state.value,
                BeneficiarySeal(plan.order.invoice.beneficiary, plan.meta).value, plan.meta.changeVout,
                batch[0].content.outputs);
    } else {
      var item := items[i - 1];
      assert batch[i] == batch[1..][i - 1];
      OthersOn(plan, item.contractId);
      assert inputs == map[item.opout := item.state];
      ExtraConserves(plan.order.lib, item, plan.meta.changeVout.value);
    }
  }

  lemma MainKeeps(items: Items, ty: U16, state: InvoiceState, seal: Seal, change: Option<nat>, outputs: seq<Assignment>)
    requires PaysState(items, ty, state, seal, change, outputs)
    ensures SameOthers(items, outputs, ty)
    ensures KeepsState(items, outputs, ty, state) <==> NothingToDrop(items, ty, state)
  {
    hide PaysInvoice, PaysSingle, Conserved, SameState, SameOthers, AllAmounts, IsOnlyOf;
    match state
    case AmountState(amount) => MainConservesIff(items, ty, amount, seal, change, outputs);
    case DataState(data) => SingleConservesIff(items, ty, Data(data), seal, change, outputs);
    case VoidState => SingleConservesIff(items, ty, Void, seal, change, outputs);
  }

  datatype StateKind = Fungible | Structured | Declarative

  function KindOf(state: State): StateKind {
    match state case Amount(_) => Fungible case Data(_) => Structured case Void => Declarative
  }

  /** The schema of a contract gives every assignment type one kind of state. */
  ghost predicate FollowsSchema(h: Holdings, kinds: U16 -> StateKind) {
    forall s, o :: s in h && o in h[s] ==> KindOf(h[s][o]) == kinds(o.ty)
  }

  /** In a contract that follows its schema an amount invoice finds amounts only, so it drops nothing. */
  lemma SchemaKeepsAmounts(plan: Plan, kinds: U16 -> StateKind)
    requires plan.Valid() && plan.order.Selectable() && plan.order.Selects(plan.outputs) && plan.outputs != {}
    requires plan.order.invoice.state.value.AmountState?
    requires ListsFungible(plan.order.Contract(), plan.order.Ty(), plan.order.spendable, plan.order.allocations)
    requires FollowsSchema(plan.order.Contract(), kinds)
    ensures NothingToDrop(plan.MainItems(), plan.order.Ty(), plan.order.invoice.state.value)
  {
    hide ItemsAt, Held;
    var s :| s in plan.outputs;
    assert s in AllSeals(plan.order.allocations);
    var a :| a in plan.order.allocations && a.seal == s;
    assert kinds(plan.order.Ty()) == Fungible;
    var h := plan.order.Contract();
    forall o | o in plan.MainItems() && o.ty == plan.order.Ty() ensures plan.MainItems()[o].Amount? {
      ItemIff(h, plan.outputs, o);
      var s :| IsOn(h, plan.outputs, s, o);
      assert KindOf(h[s][o]) == Fungible;
    }
  }

  /** Without a change output a batch exists only if nothing has to go to change. */
  lemma WithoutChange(plan: Plan, batch: seq<Transition>, items: seq<Item>)
    requires plan.Valid() && plan.IsBatch(batch, items) && plan.meta.changeVout.None?
    ensures forall c :: c != plan.order.context.contractId ==> plan.ItemsOf(c) == map[]
    ensures AllOfType(plan.MainItems(), plan.order.Ty())
    ensures plan.order.invoice.state.value.AmountState? ==>
              InSum(plan.MainItems(), plan.order.Ty()) == plan.order.invoice.state.value.amount
  {
    hide ItemsAt, OtherItems;
    forall c | c != plan.order.context.contractId ensures plan.ItemsOf(c) == map[] {
      if o :| o in plan.ItemsOf(c) {
        OthersOn(plan, c);
      }
    }
    NothingMoved(plan.MainItems(), plan.order.Ty(), plan.order.invoice.state.value,
                 BeneficiarySeal(plan.order.invoice.beneficiary, plan.meta).value, batch[0].content.outputs);
  }

  lemma NothingMoved(items: Items, ty: U16, state: InvoiceState, beneficiary: Seal, outputs: seq<Assignment>)
    requires PaysState(items, ty, state, beneficiary, None, outputs)
    ensures AllOfType(items, ty)
    ensures state.AmountState? ==> InSum(items, ty) == state.amount
  {
    var moved :| MovesOthers(items, ty, None, moved);
    forall o | o in items ensures o.ty == ty {
      assert o in InputsOf(items, o.ty, items[o]);
      OutNone(moved, o.ty, items[o]);
    }
  }

  /* The store records, for every contract, exactly its assignments on the selected outputs. */
  ghost predicate HoldsInputs(store: KeyMap, plan: Plan)
    requires plan.Valid()
  {
    forall c :: ReadConsumers(store, c).Ok? && ReadConsumers(store, c).value.Keys == plan.ItemsOf(c).Keys
  }

  /**
   * Embedding a payment in a fresh PSBT records exactly the assignments of the selected outputs, without double
   * spend.
   */
  lemma EmbeddedPayment(plan: Plan, batch: seq<Transition>, items: seq<Item>, lib: Library, store: KeyMap)
    requires plan.Valid() && plan.IsBatch(batch, items)
    requires lib.Lawful() && Fresh(store)
    ensures StoreEmbed(lib, store, batch).1 != Err(DoubleSpend)
    ensures StoreEmbed(lib, store, batch).1.Ok? ==> HoldsInputs(StoreEmbed(lib, store, batch).0, plan)
  {
    FreshRefinesEmpty(lib, store);
    EmbedRefines(lib, store, EMPTY, batch);
    BatchIsDisjoint(plan, batch, items, lib);
    EmbedDoubleSpend(lib, EMPTY, batch);
    if StoreEmbed(lib, store, batch).1.Ok? {
      var s := Embed(lib, EMPTY, batch).0;
      ConsumersRead(StoreEmbed(lib, store, batch).0, s);
      forall c ensures s.Of(c).Keys == plan.ItemsOf(c).Keys {
        forall o ensures o in s.Of(c) <==> o in plan.ItemsOf(c) {
          RecordedIffConsumed(lib, batch, c, o);
          BatchConsumesAll(plan, batch, items, c, o);
        }
      }
    }
  }

  lemma RecordedIffConsumed(lib: Library, batch: seq<Transition>, c: ContractId, o: Opout)
    requires Embed(lib, EMPTY, batch).1.Ok?
    ensures o in Embed(lib, EMPTY, batch).0.Of(c) <==> exists t :: t in batch && Consumes(t, c, o)
  {
    EmbedRecords(lib, EMPTY, batch);
    var s := Embed(lib, EMPTY, batch).0;
    assert o in s.Of(c) <==> s.Records(c, o);
    if s.Records(c, o) {
      assert ConsumedIn(lib, batch, c, o, s.Spender(c, o));
    }
  }

  /* The operations of a batch are different: inputs are disjoint, and none is without. */
  lemma BatchIsNew(plan: Plan, batch: seq<Transition>, items: seq<Item>, lib: Library)
    requires plan.Valid() && plan.IsBatch(batch, items)
    requires CollisionFree(lib, set t | t in batch)
    ensures NewOperations(lib, EMPTY, batch)
  {
    hide *;
    BatchIsDisjoint(plan, batch, items, lib);
    forall i, j | 0 <= i < j < |batch| ensures lib.Id(batch[i]) != lib.Id(batch[j]) {
      SomethingConsumed(plan, batch, items, i);
      if lib.Id(batch[i]) == lib.Id(batch[j]) { SameIdConsumesSame(lib, batch, i, j); }
    }
    NewOperationsOfEmpty(lib, batch);
  }

  lemma SameIdConsumesSame(lib: Library, batch: seq<Transition>, i: nat, j: nat)
    requires CollisionFree(lib, set t | t in batch) && i < j < |batch| && lib.Id(batch[i]) == lib.Id(batch[j])
    ensures forall c, o :: Consumes(batch[i], c, o) ==> Consumes(batch[j], c, o)
  {
  }

  lemma NewOperationsOfEmpty(lib: Library, batch: seq<Transition>)
    requires forall i, j :: 0 <= i < j < |batch| ==> lib.Id(batch[i]) != lib.Id(batch[j])
    ensures NewOperations(lib, EMPTY, batch)
  {
  }

  lemma SomethingConsumed(plan: Plan, batch: seq<Transition>, items: seq<Item>, i: nat)
    requires plan.Valid() && plan.IsBatch(batch, items) && i < |batch|
    ensures exists o :: Consumes(batch[i], batch[i].content.contractId, o)
  {
    hide ItemsAt, OtherItems;
    if i == 0 {
      var o :| o in batch[0].content.inputs;
      assert Consumes(batch[0], batch[0].content.contractId, o);
    } else {
      assert batch[i] == batch[1..][i - 1];
      assert Consumes(batch[i], items[i - 1].contractId, items[i - 1].opout);
    }
  }

  /** Embedding a payment in a fresh PSBT succeeds exactly when every transition is small enough to be stored. */
  lemma PaymentEmbedsIff(plan: Plan, batch: seq<Transition>, items: seq<Item>, lib: Library, store: KeyMap)
    requires plan.Valid() && plan.IsBatch(batch, items)
    requires lib.Lawful() && Fresh(store) && CollisionFree(lib, set t | t in batch)
    ensures StoreEmbed(lib, store, batch).1.Ok? <==> AllFit(lib, batch)
    ensures StoreEmbed(lib, store, batch).1.Err? ==> StoreEmbed(lib, store, batch).1.error.TransitionTooBig?
  {
    FreshRefinesEmpty(lib, store);
    EmbedRefines(lib, store, EMPTY, batch);
    BatchIsNew(plan, batch, items, lib);
    BatchIsDisjoint(plan, batch, items, lib);
    hide Embed, StoreEmbed, Conflict, AllFit, Consumes;
    EmbedSucceedsIff(lib, EMPTY, batch);
    EmbedDoubleSpend(lib, EMPTY, batch);
  }

  /* One contract, with these items on one output, and an invoice to a blinded seal; there is no change output. */
  function LonePlan(lib: BuilderLibrary, c: ContractId, items: Items, ty: U16, state: InvoiceState,
                    allocations: seq<Allocation>, s: OutputSeal, secret: Bytes): Plan
  {
    Plan(Order(lib, Stock(map[c := map[s := items]]), Invoice(Some(state), BlindedSeal(secret)),
               PaymentContext(c, ty, 0), {s}, allocations, (_) => [c]),
         {s}, PsbtMeta(None, None))
  }

  function LoneBatch(c: ContractId, items: Items, outputs: seq<Assignment>): seq<Transition> {
    [Transition(Content(c, 0, items.Keys, outputs), [])]
  }

  lemma LoneItems(h: Holdings, s: OutputSeal)
    requires OneSealEach(h) && h.Keys == {s}
    ensures ItemsAt(h, {s}) == h[s]
  {
    var items := ItemsAt(h, {s});
    hide ItemsAt;
    forall p ensures p in items <==> p in h[s]
             ensures p in h[s] ==> items[p] == h[s][p]
    {
      ItemIff(h, {s}, p);
      if p in h[s] { assert IsOn(h, {s}, s, p); }
    }
  }

  /* Outputs that pay the invoice from these items make a batch. */
  lemma LonePlanBatch(lib: BuilderLibrary, c: ContractId, items: Items, ty: U16, state: InvoiceState,
                      allocations: seq<Allocation>, s: OutputSeal, secret: Bytes, outputs: seq<Assignment>)
    requires items != map[] && PaysState(items, ty, state, Concealed(secret), None, outputs)
    ensures var plan := LonePlan(lib, c, items, ty, state, allocations, s, secret);
      plan.Valid() && plan.IsBatch(LoneBatch(c, items, outputs), []) && plan.MainItems() == items
  {
    var plan := LonePlan(lib, c, items, ty, state, allocations, s, secret);
    LoneItems(plan.order.stock.contracts[c], s);
    hide ItemsAt, PaysState;
    assert plan.Valid();
    assert plan.AsRequest().IsMain(items, LoneBatch(c, items, outputs)[0].content);
    assert plan.Others() == map[];
  }

  /* One allocation that covers the amount is selected. */
  lemma LoneSelection(a: Allocation)
    requires a.amount > 0
    ensures IsBestCover([a], a.amount, {a.seal}) && Held([a], AllSeals([a])) == a.amount
  {
    assert AllSeals([a]) == {a.seal};
    forall other: set<OutputSeal> ensures Held([a], other) == if a.seal in other then a.amount else 0 {
      assert [a][1..] == [];
    }
    forall other: set<OutputSeal> | Held([a], other) >= a.amount ensures |other| >= |{a.seal}| {
      assert a.seal in other;
      SubsetSize({a.seal}, other);
    }
    forall part: set<OutputSeal> | part < {a.seal} ensures Held([a], part) < a.amount {
      assert part == {};
    }
  }

  /** A payment without change: one transition that moves everything to the beneficiary. */
  lemma ExactPaymentExample(lib: BuilderLibrary, c: ContractId, o: Opout, s: OutputSeal, secret: Bytes)
    ensures var items := map[o := Amount(10)];
      var plan := LonePlan(lib, c, items, o.ty, AmountState(10), [Allocation(o, s, 10)], s, secret);
      var outputs := [Assignment(o.ty, Concealed(secret), Amount(10))];
      && plan.Valid() && plan.order.Selects(plan.outputs) && plan.IsBatch(LoneBatch(c, items, outputs), [])
  {
    var items: Items := map[o := Amount(10)];
    var outputs := [Assignment(o.ty, Concealed(secret), Amount(10))];
    LoneSelection(Allocation(o, s, 10));
    MovesOthersEmpty(o.ty, None);
    MoveOneMore(map[], o.ty, None, [], o, Amount(10));
    InSumAdd(map[], o, Amount(10), o.ty);
    assert map[][o := Amount(10)] == items;
    assert outputs == [] + Payment(o.ty, Concealed(secret), 10) + [];
    assert PaysInvoice(items, o.ty, 10, Concealed(secret), None, outputs);
    hide ItemsAt, Held, IsBestCover, PaysInvoice, Plan.Valid, Plan.IsBatch;
    LonePlanBatch(lib, c, items, o.ty, AmountState(10), [Allocation(o, s, 10)], s, secret, outputs);
  }

  /** An amount and a right of one type: five units go to the beneficiary, and the right to no one. */
  lemma DroppedRightExample(lib: BuilderLibrary, c: ContractId, op: OpId, ty: U16, s: OutputSeal, secret: Bytes)
    ensures var o, items := Opout(op, ty, 0), map[Opout(op, ty, 0) := Amount(5), Opout(op, ty, 1) := Void];
      var plan := LonePlan(lib, c, items, ty, AmountState(5), [Allocation(o, s, 5)], s, secret);
      var outputs := [Assignment(ty, Concealed(secret), Amount(5))];
      && plan.Valid() && plan.order.Selects(plan.outputs) && plan.IsBatch(LoneBatch(c, items, outputs), [])
      && plan.MainItems() == items && !Conserved(items, outputs, ty)
  {
    var o, right := Opout(op, ty, 0), Opout(op, ty, 1);
    var one: Items := map[o := Amount(5)];
    var items := map[o := Amount(5), right := Void];
    var outputs := [Assignment(ty, Concealed(secret), Amount(5))];
    LoneSelection(Allocation(o, s, 5));
    MovesOthersEmpty(ty, None);
    MoveOneMore(map[], ty, None, [], o, Amount(5));
    InSumAdd(map[], o, Amount(5), ty);
    assert map[][o := Amount(5)] == one && one[right := Void] == items;
    MoveOneMore(one, ty, None, [], right, Void);
    InSumAdd(one, right, Void, ty);
    assert outputs == [] + Payment(ty, Concealed(secret), 5) + [];
    assert PaysInvoice(items, ty, 5, Concealed(secret), None, outputs);
    assert right in items && !AllAmounts(items, ty);
    hide ItemsAt, Held, IsBestCover, PaysInvoice, Plan.Valid, Plan.IsBatch, AllAmounts, Conserved;
    MainConservesIff(items, ty, 5, Concealed(secret), None, outputs);
    LonePlanBatch(lib, c, items, ty, AmountState(5), [Allocation(o, s, 5)], s, secret, outputs);
  }

  lemma OneOfTwoData(op: OpId, ty: U16, seal: Seal)
    ensures var items := map[Opout(op, ty, 0) := Data([1]), Opout(op, ty, 1) := Data([2])];
      var outputs := [Assignment(ty, seal, Data([1]))];
      PaysState(items, ty, DataState([1]), seal, None, outputs) && !SameState(items, outputs)
  {
    var o, other := Opout(op, ty, 0), Opout(op, ty, 1);
    var one: Items := map[o := Data([1])];
    var items := map[o := Data([1]), other := Data([2])];
    var outputs := [Assignment(ty, seal, Data([1]))];
    MovesOthersEmpty(ty, None);
    MoveOneMore(map[], ty, None, [], o, Data([1]));
    assert map[][o := Data([1])] == one && one[other := Data([2])] == items;
    MoveOneMore(one, ty, None, [], other, Data([2]));
    hide MovesOthers;
    assert outputs == [] + [Assignment(ty, seal, Data([1]))];
    assert o in items && other in items && items[o] == Data([1]);
    assert PaysSingle(items, ty, Data([1]), seal, None, outputs);
    assert !IsOnlyOf(items, ty, Data([1]));
    hide PaysSingle, IsOnlyOf, SameState;
    SingleConservesIff(items, ty, Data([1]), seal, None, outputs);
  }

  /** Two data states of one type on the spent output: the one that was not asked for goes to no one. */
  lemma DroppedDataExample(lib: BuilderLibrary, c: ContractId, op: OpId, ty: U16, s: OutputSeal, secret: Bytes)
    ensures var items := map[Opout(op, ty, 0) := Data([1]), Opout(op, ty, 1) := Data([2])];
      var plan := LonePlan(lib, c, items, ty, DataState([1]), [], s, secret);
      var outputs := [Assignment(ty, Concealed(secret), Data([1]))];
      && plan.Valid() && plan.order.Selects(plan.outputs) && plan.IsBatch(LoneBatch(c, items, outputs), [])
      && plan.MainItems() == items && !SameState(items, outputs)
  {
    var o, items := Opout(op, ty, 0), map[Opout(op, ty, 0) := Data([1]), Opout(op, ty, 1) := Data([2])];
    var outputs := [Assignment(ty, Concealed(secret), Data([1]))];
    var plan := LonePlan(lib, c, items, ty, DataState([1]), [], s, secret);
    assert o in items && items[o] == Data([1]);
    assert IsOn(plan.order.Contract(), {s}, s, o) && plan.order.HasState(s, Data([1]));
    hide ItemsAt, PaysState, Plan.Valid, Plan.IsBatch, SameState;
    OneOfTwoData(op, ty, Concealed(secret));
    LonePlanBatch(lib, c, items, ty, DataState([1]), [], s, secret, outputs);
  }
}
