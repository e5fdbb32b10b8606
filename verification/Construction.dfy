/** Construction of the PSBT of a payment (`construct_psbt_rgb`): select, place the host, compose, embed. */
module Construction {
  import opened Base
  import opened Protocol
  import opened Ledger
  import opened Store
  import opened OutputState
  import opened Psbts
  import opened Selection
  import opened Conservation
  import opened Composition
  import opened Extras
  import opened Placement
  import opened Payment

  /** A batch can be composed from the selected outputs, unless the builder refuses a step of the main transition. */
  ghost predicate Composable(plan: Plan)
    requires plan.Valid()
  {
    && plan.outputs != {}
    && plan.AsRequest().Payable(plan.MainItems())
    && AllKnown(plan.order.stock, plan.order.context.contractId, plan.Ids())
    && Movable(plan.order.lib, plan.Others(), plan.meta.changeVout)
  }

  /* The builder refuses a step of the main transition. */
  ghost predicate Refused(plan: Plan)
    requires plan.Valid()
  {
    plan.AsRequest().Refused(plan.MainItems())
  }

  /* A batch could not be composed, or the builder refused a step of the main transition. */
  ghost predicate Explains(plan: Plan, e: CompositionError)
    requires plan.Valid()
  {
    !Composable(plan) || (e == BuilderError && Refused(plan))
  }

  /* The selected outputs do not hold the invoiced state. */
  ghost predicate Lacks(plan: Plan)
    requires plan.Valid()
  {
    || plan.MainItems() == map[]
    || (plan.order.invoice.state.Some? && !Affords(plan.MainItems(), plan.order.Ty(), plan.order.invoice.state.value))
  }

  /* The plan is for this order, with the outputs that selection chose. */
  ghost predicate IsPlanFor(plan: Plan, order: Order) {
    && plan.order == order
    && if order.Selectable() then order.Selects(plan.outputs) else plan.outputs == {}
  }

  /* An amount that can be had is never refused for want of state, nor is anything that was selected. */
  ghost predicate OnlyFailsForWant(plan: Plan)
    requires plan.Valid()
  {
    var order := plan.order;
    order.Selectable() ==>
      match order.invoice.state.value
      case AmountState(amount) =>
        ListsFungible(order.Contract(), order.Ty(), order.spendable, order.allocations) ==>
          amount == 0 || Held(order.allocations, AllSeals(order.allocations)) < amount
      case DataState(_) => plan.outputs == {}
      case VoidState => plan.outputs == {}
  }

  /** Composes the batch of a payment. */
  method ComposeBatch(plan: Plan) returns (r: Result<seq<Transition>, CompositionError>, ghost items: seq<Item>)
    requires plan.Valid() && plan.outputs != {}
    ensures r.Ok? ==> Composable(plan) && plan.IsBatch(r.value, items)
    ensures r.Err? ==> IsCompositionError(r.error) && Explains(plan, r.error)
    ensures r == Err(InsufficientState) ==> Lacks(plan)
  {
    hide Request.IsMain, Request.Payable, Request.Refused, Enumerates, MoveEach, ItemsAt, OtherItems, OneSealEach,
      Movable;
    items := [];
    var order := plan.order;
    var main := BuildMainTransition(plan.AsRequest(), order.stock, plan.outputs);
    if main.Err? {
      return Err(main.error), items;
    }
    var extras, moved := BuildExtraTransitions(order.lib, order.stock, order.context.contractId, plan.outputs,
                                               plan.Ids(), plan.meta);
    if extras.Err? {
      return Err(extras.error), items;
    }
    items := moved;
    r := Ok([main.value] + extras.value);
    assert r.value[1..] == extras.value;
  }

  /**
   * What comes of embedding a payment in a fresh PSBT: no double spend, exactly the selected assignments recorded, and
   * success exactly when all transitions can be stored.
   */
  ghost predicate EmbedsWell(lib: Library, store: KeyMap, plan: Plan, batch: seq<Transition>, store': KeyMap,
                             r: Result<(), RgbError>)
    requires plan.Valid()
  {
    lib.Lawful() && Fresh(store) ==>
      && r != Err(DoubleSpend)
      && (r.Ok? ==> HoldsInputs(store', plan))
      && (CollisionFree(lib, set t | t in batch) ==> (r.Ok? <==> AllFit(lib, batch)))
  }

  lemma FreshStart(store: KeyMap, how: CloseMethod)
    requires Fresh(store)
    ensures Fresh(WithCloseMethod(store, how))
  {
  }

  lemma PaymentEmbedsWell(plan: Plan, batch: seq<Transition>, items: seq<Item>, lib: Library, store: KeyMap,
                          how: CloseMethod)
    requires plan.Valid() && plan.IsBatch(batch, items)
    ensures var (store', r) := StoreEmbed(lib, WithCloseMethod(store, how), batch);
      EmbedsWell(lib, store, plan, batch, store', r)
  {
    hide Plan.Valid, Plan.IsBatch, Library.Lawful, Fresh, WithCloseMethod, StoreEmbed, HoldsInputs, AllFit,
      CollisionFree;
    if lib.Lawful() && Fresh(store) {
      FreshStart(store, how);
      EmbeddedPayment(plan, batch, items, lib, WithCloseMethod(store, how));
      if CollisionFree(lib, set t | t in batch) {
        PaymentEmbedsIff(plan, batch, items, lib, WithCloseMethod(store, how));
      }
    }
  }

  /* The keys of the PSBT after the close method was set and the batch embedded, and the answer. */
  ghost predicate IsEmbedded(lib: Library, plan: Plan, batch: seq<Transition>, store: KeyMap, how: CloseMethod,
                             store': KeyMap, error: Option<RgbError>)
    requires plan.Valid()
  {
    var (embedded, result) := StoreEmbed(lib, WithCloseMethod(store, how), batch);
    && store' == embedded
    && (if error.None? then result.Ok? else result == Err(error.value))
    && EmbedsWell(lib, store, plan, batch, embedded, result)
  }

  /** Outputs, keys and change position of a PSBT at some time. */
  datatype Snapshot = Snapshot(views: seq<OutState>, store: KeyMap, changeVout: Option<nat>)

  /** The PSBT of a payment: the host is placed, and the batch embedded behind the close method. */
  ghost predicate IsConstructed(lib: Library, plan: Plan, batch: seq<Transition>, start: Snapshot, how: CloseMethod,
                                views: seq<OutState>, store: KeyMap, error: Option<RgbError>)
    requires plan.Valid()
  {
    exists placed: KeyMap ::
      && IsPlaced(start.views, start.store, start.changeVout, plan.order.invoice.beneficiary, how, views, placed,
                  plan.meta)
      && IsEmbedded(lib, plan, batch, placed, how, store, error)
  }

  /** Fixes the close method and the outputs, and embeds the batch. */
  method EmbedBatch(psbt: Psbt, how: CloseMethod, batch: seq<Transition>, ghost plan: Plan, ghost items: seq<Item>)
    returns (r: Result<(), RgbError>)
    requires plan.Valid() && plan.IsBatch(batch, items)
    modifies psbt
    ensures psbt.outputs == old(psbt.outputs) && !psbt.outputsModifiable
    ensures (psbt.proprietary, r) == StoreEmbed(psbt.lib, WithCloseMethod(old(psbt.proprietary), how), batch)
    ensures EmbedsWell(psbt.lib, old(psbt.proprietary), plan, batch, psbt.proprietary, r)
  {
    hide *;
    PaymentEmbedsWell(plan, batch, items, psbt.lib, psbt.proprietary, how);
    psbt.SetRgbCloseMethod(how);
    psbt.SetAsUnmodifiable();
    r := psbt.RgbEmbed(batch);
  }

  /* Composes the batch and embeds it in the PSBT. */
  method BuildAndEmbed(plan: Plan, psbt: Psbt, how: CloseMethod)
    returns (r: Result<(), CompositionError>, ghost batch: seq<Transition>, ghost items: seq<Item>)
    requires plan.Valid() && plan.outputs != {}
    modifies psbt
    ensures psbt.outputs == old(psbt.outputs)
    ensures r.Ok? || r.error.EmbedFailed? ==>
              && Composable(plan) && plan.IsBatch(batch, items) && !psbt.outputsModifiable
              && IsEmbedded(psbt.lib, plan, batch, old(psbt.proprietary), how, psbt.proprietary,
                            if r.Ok? then None else Some(r.error.rgb))
    ensures r.Err? && !r.error.EmbedFailed? ==> IsCompositionError(r.error) && Explains(plan, r.error)
    ensures r == Err(InsufficientState) ==> Lacks(plan)
  {
    hide Plan.Valid, Plan.IsBatch, Composable, Explains, Lacks, StoreEmbed, WithCloseMethod, EmbedsWell;
    batch := [];
    var composed;
    composed, items := ComposeBatch(plan);
    if composed.Err? {
      return Err(composed.error), batch, items;
    }
    batch := composed.value;
    var embedded := EmbedBatch(psbt, how, composed.value, plan, items);
    r := if embedded.Err? then Err(EmbedFailed(embedded.error)) else Ok(());
  }

  /* Why construction failed before anything was embedded. */
  ghost predicate IsConstructionError(plan: Plan, start: Snapshot, how: CloseMethod, funded: set<OutputSeal> -> bool,
                                      e: CompositionError)
    requires plan.Valid()
  {
    if !plan.order.Selectable() then e == UnknownContract || e == NoAssignmentState
    else if plan.outputs == {} then e == InsufficientState
    else if !funded(plan.outputs) then e == NotFunded
    else if !HasHost(start.views, start.changeVout, plan.order.invoice.beneficiary, how) then
      e == NoOutputForTapretCommitment
    else IsCompositionError(e) && Explains(plan, e)
  }

  /**
   * Selects what to spend, places the host in the PSBT made for it, composes the batch and embeds it. `psbt` and
   * `changeVout` are what the wallet constructs for the selected outputs, if it can fund them. It fails only if nothing
   * was selected, funding fails, there is no output for the commitment, the payment is not composable, the builder
   * refuses the main transition, or a transition is too big to store; it never double-spends.
   */
  method ConstructPsbtRgb(order: Order, psbt: Psbt, changeVout: Option<nat>, how: CloseMethod,
                          funded: set<OutputSeal> -> bool)
    returns (r: Result<PsbtMeta, CompositionError>, ghost plan: Plan, ghost batch: seq<Transition>,
             ghost items: seq<Item>)
    requires order.Valid() && psbt.Valid()
    requires order.invoice.beneficiary.WitnessVout? ==> HasScript(psbt.Views(), order.invoice.beneficiary.script)
    modifies psbt, psbt.outputs
    ensures psbt.Valid() && forall o :: o in psbt.outputs ==> o in old(psbt.outputs) || fresh(o)
    ensures plan.Valid() && IsPlanFor(plan, order)
    ensures r.Ok? || r.error.EmbedFailed? ==>
              && Composable(plan) && plan.IsBatch(batch, items) && !psbt.outputsModifiable
              && IsConstructed(psbt.lib, plan, batch, Snapshot(old(psbt.Views()), old(psbt.proprietary), changeVout),
                               how, psbt.Views(), psbt.proprietary, if r.Ok? then None else Some(r.error.rgb))
    ensures r.Ok? ==> r.value == plan.meta
    ensures r.Err? && !r.error.EmbedFailed? ==>
              IsConstructionError(plan, Snapshot(old(psbt.Views()), old(psbt.proprietary), changeVout), how, funded,
                                  r.error)
    ensures r == Err(InsufficientState) ==> OnlyFailsForWant(plan)
  {
    hide Order.Valid, Order.Selects, Locates, IsPlaced, HasHost, HasScript, Composable, Explains, Lacks, IsEmbedded,
      OnlyFailsForWant, Plan.Valid, Plan.IsBatch, IsCompositionError;
    plan, batch, items := Plan(order, {}, PsbtMeta(None, None)), [], [];
    PlanIsValid(plan);
    var selected := SelectStateForInvoice(order);
    if selected.Err? {
      return Err(selected.error), plan, batch, items;
    }
    var outputs := selected.value;
    if outputs == {} {
      NothingCovers(plan);
      return Err(InsufficientState), plan, batch, items;
    }
    plan := plan.(outputs := outputs);
    PlanIsValid(plan);
    if !funded(outputs) {
      return Err(NotFunded), plan, batch, items;
    }
    var placed := CreatePsbt(psbt, order.invoice.beneficiary, changeVout, how);
    if placed.Err? {
      return Err(placed.error), plan, batch, items;
    }
    var payment := Plan(order, outputs, placed.value);
    plan := payment;
    PlanIsValid(plan);
    ghost var views, store := psbt.Views(), psbt.proprietary;
    assert IsPlaced(old(psbt.Views()), old(psbt.proprietary), changeVout, order.invoice.beneficiary, how, views, store,
                    plan.meta);
    var embedded;
    embedded, batch, items := BuildAndEmbed(payment, psbt, how);
    assert psbt.Views() == views;
    assert embedded.Ok? || embedded.error.EmbedFailed? ==>
        IsEmbedded(psbt.lib, plan, batch, store, how, psbt.proprietary,
                   if embedded.Ok? then None else Some(embedded.error.rgb));
    if embedded.Err? {
      if embedded.error == InsufficientState { EnoughToBuild(plan); }
      return Err(embedded.error), plan, batch, items;
    }
    r := Ok(placed.value);
  }

  lemma PlanIsValid(plan: Plan)
    requires plan.order.Valid()
    ensures plan.Valid()
  {
  }

  lemma NothingCovers(plan: Plan)
    requires plan.Valid() && plan.outputs == {} && plan.order.Selectable() && plan.order.Selects({})
    ensures OnlyFailsForWant(plan)
  {
  }

  lemma SelectedIsThere(plan: Plan, state: State)
    requires plan.Valid() && plan.order.Selectable() && plan.outputs != {}
    requires forall s :: s in plan.outputs ==> plan.order.HasState(s, state)
    ensures exists o :: o in plan.MainItems() && o.ty == plan.order.Ty() && plan.MainItems()[o] == state
  {
    hide ItemsAt;
    var h := plan.order.Contract();
    var s :| s in plan.outputs;
    var o :| IsOn(h, plan.order.spendable, s, o) && o.ty == plan.order.Ty() && h[s][o] == state;
    ItemIff(h, plan.outputs, o);
    assert IsOn(h, plan.outputs, s, o);
  }

  /** What was selected is enough for the main transition. */
  lemma EnoughToBuild(plan: Plan)
    requires plan.Valid() && plan.outputs != {} && Lacks(plan)
    requires plan.order.Selectable() && plan.order.Selects(plan.outputs)
    ensures OnlyFailsForWant(plan)
  {
    hide ListsFungible, ItemsAt, Held, OneSealEach;
    var order := plan.order;
    match order.invoice.state.value
    case AmountState(_) =>
      if ListsFungible(order.Contract(), order.Ty(), order.spendable, order.allocations) {
        SelectionAndBuildingAgree(order.Contract(), order.Ty(), order.spendable, order.allocations, plan.outputs);
      }
    case DataState(data) => SelectedIsThere(plan, Data(data));
    case VoidState => SelectedIsThere(plan, Void);
  }
}
