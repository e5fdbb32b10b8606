/** Composing a transfer: the transitions of a payment and their embedding into a PSBT. */
module Composition {
  import opened Base
  import opened Protocol
  import opened OutputState
  import opened Selection
  import opened Conservation

  const MAX_EXTRAS := MAX_U24 - 1

  datatype Stock = Stock(contracts: map<ContractId, Holdings>) {
    ghost predicate Valid() {
      forall c :: c in contracts ==> OneSealEach(contracts[c])
    }

    /* The assignments of a contract on these outputs. */
    ghost function ItemsOn(c: ContractId, outputs: set<OutputSeal>): Items
      requires Valid()
    {
      if c in contracts then ItemsAt(contracts[c], outputs) else map[]
    }
  }

  datatype Beneficiary = BlindedSeal(secret: Bytes) | WitnessVout(script: Script, internalKey: Option<Bytes>)

  datatype InvoiceState = AmountState(amount: nat) | DataState(data: Bytes) | VoidState

  datatype Invoice = Invoice(state: Option<InvoiceState>, beneficiary: Beneficiary)

  datatype PaymentContext = PaymentContext(contractId: ContractId, assignmentType: U16, transitionType: U16)

  datatype PsbtMeta = PsbtMeta(beneficiaryVout: Option<nat>, changeVout: Option<nat>)

  datatype CompositionError =
    | NoAssignmentState
    | InsufficientState
    | BeneficiaryVout
    | NoBeneficiaryOutput
    | NoExtraOrChange(ty: U16)
    | NoOutputForTapretCommitment
    | NotFunded
    | UnknownContract
    | BuilderError
    | TooManyExtras
    | EmbedFailed(rgb: RgbError)

  /** What a transition builder is asked to do. */
  datatype BuilderStep =
    | Begin
    | TakeInput(opout: Opout, state: State)
    | GiveOutput(assignment: Assignment)
    | Finish

  /** The builder of the standard library: its checks of each step, disclosed data, default transition types. */
  datatype BuilderLibrary = BuilderLibrary(
    allows: (Builder, BuilderStep) -> bool,
    disclose: Content -> Bytes,
    transitionType: (ContractId, U16) -> U16)

  datatype Builder = Builder(contractId: ContractId, transitionType: U16, inputs: Items, outputs: seq<Assignment>) {
    function Begun(lib: BuilderLibrary): Result<Builder, CompositionError> {
      if lib.allows(this, Begin) then Ok(this) else Err(BuilderError)
    }

    function AddInput(lib: BuilderLibrary, o: Opout, state: State): Result<Builder, CompositionError> {
      if lib.allows(this, TakeInput(o, state)) then Ok(this.(inputs := inputs[o := state])) else Err(BuilderError)
    }

    function AddOwned(lib: BuilderLibrary, a: Assignment): Result<Builder, CompositionError> {
      if lib.allows(this, GiveOutput(a)) then Ok(this.(outputs := outputs + [a])) else Err(BuilderError)
    }

    function Finished(): Content {
      Content(contractId, transitionType, inputs.Keys, outputs)
    }

    function Complete(lib: BuilderLibrary): Result<Transition, CompositionError> {
      if lib.allows(this, Finish) then Ok(Transition(Finished(), lib.disclose(Finished()))) else Err(BuilderError)
    }
  }

  /* State of the invoiced contract goes to the change output, if there is one. */
  function ChangeSeal(ty: U16, meta: PsbtMeta): Result<Seal, CompositionError> {
    if meta.changeVout.None? then Err(NoExtraOrChange(ty)) else Ok(Revealed(meta.changeVout.value))
  }

  function BeneficiarySeal(b: Beneficiary, meta: PsbtMeta): Result<Seal, CompositionError> {
    match (b, meta.beneficiaryVout)
    case (BlindedSeal(secret), None) => Ok(Concealed(secret))
    case (BlindedSeal(_), Some(_)) => Err(BeneficiaryVout)
    case (WitnessVout(_, _), Some(vout)) => Ok(Revealed(vout))
    case (WitnessVout(_, _), None) => Err(NoBeneficiaryOutput)
  }

  /** What a main transition is asked for. */
  datatype Request = Request(lib: BuilderLibrary, invoice: Invoice, context: PaymentContext, meta: PsbtMeta) {
    function Ty(): U16 {
      context.assignmentType
    }

    function Start(): Builder {
      Builder(context.contractId, context.transitionType, map[], [])
    }

    /* The builder is for this contract and has some of the items as inputs. */
    ghost predicate IsPartial(b: Builder, items: Items) {
      b.contractId == context.contractId && b.transitionType == context.transitionType && PartOf(b.inputs, items)
    }

    /** A step on the way to the main transition that spends these items. */
    ghost predicate IsStep(b: Builder, step: BuilderStep, items: Items) {
      && IsPartial(b, items)
      && match step
         case Begin => b == Start()
         case TakeInput(o, state) =>
           o in items && items[o] == state && o !in b.inputs && MovesOthers(b.inputs, Ty(), meta.changeVout, b.outputs)
         case GiveOutput(a) => if a.ty == Ty() then b.inputs == items && Pays(b.outputs, a, items) else Moves(b, a)
         case Finish => IsMain(items, b.Finished())
    }

    /* The assignment moves the last input, which is of another type, to change; the other inputs were dealt with. */
    ghost predicate Moves(b: Builder, a: Assignment) {
      && ChangeSeal(a.ty, meta) == Ok(a.seal)
      && exists o :: o in b.inputs && o.ty == a.ty && b.inputs[o] == a.state
                     && MovesOthers(b.inputs - {o}, Ty(), meta.changeVout, b.outputs)
    }

    /* The invoice asks for this state, and this is the seal of its beneficiary. */
    predicate IsFor(state: InvoiceState, seal: Seal) {
      invoice.state == Some(state) && BeneficiarySeal(invoice.beneficiary, meta) == Ok(seal)
    }

    /* After all other types were moved, the assignment is what the beneficiary gets, or the rest of an amount. */
    ghost predicate Pays(outputs: seq<Assignment>, a: Assignment, items: Items) {
      && invoice.state.Some? && BeneficiarySeal(invoice.beneficiary, meta).Ok?
      && Affords(items, Ty(), invoice.state.value)
      && var seal := BeneficiarySeal(invoice.beneficiary, meta).value;
      match invoice.state.value
      case AmountState(amount) =>
        || (amount > 0 && a == Assignment(Ty(), seal, Amount(amount))
            && MovesOthers(items, Ty(), meta.changeVout, outputs))
        || (InSum(items, Ty()) > amount && PaysRest(outputs, a, items, seal, amount))
      case DataState(data) =>
        a == Assignment(Ty(), seal, Data(data)) && MovesOthers(items, Ty(), meta.changeVout, outputs)
      case VoidState => a == Assignment(Ty(), seal, Void) && MovesOthers(items, Ty(), meta.changeVout, outputs)
    }

    /* The beneficiary was paid, and the assignment gives the rest to change. */
    ghost predicate PaysRest(outputs: seq<Assignment>, a: Assignment, items: Items, seal: Seal, amount: nat)
      requires InSum(items, Ty()) >= amount
    {
      && meta.changeVout.Some?
      && a == Assignment(Ty(), Revealed(meta.changeVout.value), Amount(InSum(items, Ty()) - amount))
      && exists moved ::
           MovesOthers(items, Ty(), meta.changeVout, moved) && outputs == moved + Payment(Ty(), seal, amount)
    }

    /** The builder refuses some step. */
    ghost predicate Refused(items: Items) {
      exists b, step :: IsStep(b, step, items) && !lib.allows(b, step)
    }

    /** Everything the main transition needs is there. */
    ghost predicate Payable(items: Items) {
      && items != map[]
      && invoice.state.Some?
      && BeneficiarySeal(invoice.beneficiary, meta).Ok?
      && Affords(items, Ty(), invoice.state.value)
      && ChangeSuffices(items, Ty(), invoice.state.value, meta.changeVout)
    }

    /** What the main transition of an invoice is. */
    ghost predicate IsMain(items: Items, t: Content) {
      && t.contractId == context.contractId && t.transitionType == context.transitionType
      && t.inputs == items.Keys && items != map[]
      && invoice.state.Some?
      && BeneficiarySeal(invoice.beneficiary, meta).Ok?
      && PaysState(items, context.assignmentType, invoice.state.value,
                   BeneficiarySeal(invoice.beneficiary, meta).value, meta.changeVout,
                   t.outputs)
    }
  }

  /** The outputs carry the invoiced state to the beneficiary and move all state of other types to change. */
  ghost predicate PaysState(items: Items, ty: U16, state: InvoiceState, seal: Seal, change: Option<nat>,
                            outputs: seq<Assignment>)
  {
    match state
    case AmountState(amount) => PaysInvoice(items, ty, amount, seal, change, outputs)
    case DataState(data) =>
      && (exists o :: o in items && o.ty == ty && items[o] == Data(data))
      && PaysSingle(items, ty, Data(data), seal, change, outputs)
    case VoidState => PaysSingle(items, ty, Void, seal, change, outputs)
  }

  /* The inputs hold the invoiced state. */
  ghost predicate Affords(items: Items, ty: U16, state: InvoiceState) {
    match state
    case AmountState(amount) => InSum(items, ty) >= amount
    case DataState(data) => exists o :: o in items && o.ty == ty && items[o] == Data(data)
    case VoidState => true
  }

  /* There is a change output, or nothing to put on it. */
  ghost predicate ChangeSuffices(items: Items, ty: U16, state: InvoiceState, change: Option<nat>) {
    change.None? ==> AllOfType(items, ty) && (state.AmountState? ==> InSum(items, ty) == state.amount)
  }

  ghost predicate AllOfType(items: Items, ty: U16) {
    forall o :: o in items ==> o.ty == ty
  }

  /* Data states of the invoiced type among the inputs. */
  ghost predicate CollectsData(data: seq<Bytes>, done: Items, ty: U16) {
    forall d :: d in data <==> exists o :: o in done && o.ty == ty && done[o] == Data(d)
  }

  /** A builder in the making, with the amounts and the data of the invoiced type among its inputs. */
  datatype Draft = Draft(builder: Builder, sum: nat, data: seq<Bytes>) {
    /* The draft after the items `done` were added. */
    ghost predicate Has(request: Request, done: Items) {
      && builder.contractId == request.context.contractId && builder.transitionType == request.context.transitionType
      && builder.inputs == done
      && MovesOthers(done, request.Ty(), request.meta.changeVout, builder.outputs)
      && sum == InSum(done, request.Ty())
      && CollectsData(data, done, request.Ty())
      && (request.meta.changeVout.None? ==> AllOfType(done, request.Ty()))
    }

    /* The draft once an input of the invoiced type is in the builder. */
    function Counted(b: Builder, state: State): Draft {
      match state
      case Amount(value) => Draft(b, sum + value, data)
      case Data(d) => Draft(b, sum, data + [d])
      case Void => Draft(b, sum, data)
    }
  }

  /* Adding an item fails in the builder, or because it should go to change and there is none. */
  ghost predicate IsInputError(request: Request, items: Items, e: CompositionError) {
    || (e == BuilderError && request.Refused(items))
    || (e.NoExtraOrChange? && request.meta.changeVout.None? && !AllOfType(items, request.Ty()))
  }

  lemma CollectsMore(data: seq<Bytes>, done: Items, ty: U16, o: Opout, state: State)
    requires CollectsData(data, done, ty) && o !in done
    ensures CollectsData(if o.ty == ty && state.Data? then data + [state.data] else data, done[o := state], ty)
  {
  }

  /* One more item of the invoiced type is counted. */
  lemma HasCounted(request: Request, d: Draft, done: Items, o: Opout, state: State, b: Builder)
    requires d.Has(request, done) && o !in done && o.ty == request.Ty()
    requires b == d.builder.(inputs := done[o := state])
    ensures d.Counted(b, state).Has(request, done[o := state])
  {
    MoveOneMore(done, request.Ty(), request.meta.changeVout, d.builder.outputs, o, state);
    InSumAdd(done, o, state, request.Ty());
    CollectsMore(d.data, done, request.Ty(), o, state);
    hide MovesOthers, InSum, CollectsData;
  }

  /* One more item of another type is moved. */
  lemma HasMoved(request: Request, d: Draft, done: Items, o: Opout, state: State, b: Builder)
    requires d.Has(request, done) && o !in done && o.ty != request.Ty() && request.meta.changeVout.Some?
    requires b.contractId == d.builder.contractId && b.transitionType == d.builder.transitionType
    requires b.inputs == done[o := state]
    requires b.outputs == d.builder.outputs + [Assignment(o.ty, Revealed(request.meta.changeVout.value), state)]
    ensures Draft(b, d.sum, d.data).Has(request, done[o := state])
  {
    MoveOneMore(done, request.Ty(), request.meta.changeVout, d.builder.outputs, o, state);
    InSumAdd(done, o, state, request.Ty());
    CollectsMore(d.data, done, request.Ty(), o, state);
    hide MovesOthers, InSum, CollectsData;
  }

  method AddItem(request: Request, d: Draft, o: Opout, state: State, ghost done: Items, ghost items: Items)
    returns (r: Result<Draft, CompositionError>)
    requires d.Has(request, done) && o !in done && PartOf(done[o := state], items)
    ensures r.Ok? ==> r.value.Has(request, done[o := state])
    ensures r.Err? ==> IsInputError(request, items, r.error)
  {
    hide MovesOthers, InSum, CollectsData;
    assert forall p :: p in done ==> p in done[o := state] && done[o := state][p] == done[p];
    assert o in done[o := state];
    assert request.IsStep(d.builder, TakeInput(o, state), items);
    var taken := d.builder.AddInput(request.lib, o, state);
    if taken.Err? {
      return Err(taken.error);
    }
    if o.ty == request.Ty() {
      HasCounted(request, d, done, o, state, taken.value);
      return Ok(d.Counted(taken.value, state));
    }
    var seal := ChangeSeal(o.ty, request.meta);
    if seal.Err? {
      return Err(seal.error);
    }
    var a := Assignment(o.ty, seal.value, state);
    assert done[o := state] - {o} == done;
    assert request.Moves(taken.value, a);
    assert request.IsStep(taken.value, GiveOutput(a), items);
    var moved := taken.value.AddOwned(request.lib, a);
    if moved.Err? {
      return Err(moved.error);
    }
    HasMoved(request, d, done, o, state, moved.value);
    r := Ok(Draft(moved.value, d.sum, d.data));
  }

  lemma PartSoFar(done: Items, list: Items, rest: Items, added: Items, o: Opout, items: Items)
    requires AddedSoFar(done, list, rest, added) && o in rest && PartOf(done + list, items)
    ensures PartOf(added[o := rest[o]], items)
  {
  }

  /* The assignments found on one output. */
  method AddList(request: Request, d: Draft, list: Items, ghost done: Items, ghost items: Items)
    returns (r: Result<Draft, CompositionError>)
    requires d.Has(request, done) && list.Keys !! done.Keys && PartOf(done + list, items)
    ensures r.Ok? ==> r.value.Has(request, done + list)
    ensures r.Err? ==> IsInputError(request, items, r.error)
  {
    AddedNothing(done, list);
    hide Draft.Has, AddedSoFar, PartOf, IsInputError;
    r := Ok(d);
    var rest := list;
    ghost var added: Items := done;
    while rest != map[]
      invariant AddedSoFar(done, list, rest, added) && rest.Keys <= list.Keys
      invariant r.Ok? && r.value.Has(request, added)
      decreases |rest|
    {
      var o :| o in rest;
      AddedOneMore(done, list, rest, added, o);
      PartSoFar(done, list, rest, added, o, items);
      r := AddItem(request, r.value, o, rest[o], added, items);
      if r.Err? {
        return;
      }
      added := added[o := rest[o]];
      rest := rest - {o};
    }
    AddedAll(done, list, added);
  }

  /* All assignments of the invoiced contract on the selected outputs, one output after another. */
  method AddInputs(request: Request, b: Builder, holdings: Holdings, outputs: set<OutputSeal>)
    returns (r: Result<Draft, CompositionError>)
    requires OneSealEach(holdings) && b == request.Start()
    ensures r.Ok? ==> r.value.Has(request, ItemsAt(holdings, outputs))
    ensures r.Err? ==> IsInputError(request, ItemsAt(holdings, outputs), r.error)
  {
    var rest := outputs * holdings.Keys;
    ghost var done: set<OutputSeal> := {};
    ItemsAtNone(holdings);
    MovesOthersEmpty(request.Ty(), request.meta.changeVout);
    r := Ok(Draft(b, 0, []));
    assert r.value.Has(request, ItemsAt(holdings, {}));
    ItemsAtKnown(holdings, outputs);
    hide Draft.Has, PartOf, IsInputError, ItemsAt, OneSealEach;
    while rest != {}
      invariant rest <= outputs * holdings.Keys && done == outputs * holdings.Keys - rest
      invariant r.Ok? && r.value.Has(request, ItemsAt(holdings, done))
    {
      var output :| output in rest;
      ItemsOfOneMore(holdings, done, output);
      FewerOutputs(holdings, done + {output}, outputs);
      r := AddList(request, r.value, holdings[output], ItemsAt(holdings, done), ItemsAt(holdings, outputs));
      if r.Err? {
        return;
      }
      done := done + {output};
      rest := rest - {output};
    }
    assert done == outputs * holdings.Keys;
  }

  /* Paying fails in the builder, for want of state, or for want of a change output. */
  ghost predicate IsPaymentError(request: Request, items: Items, state: InvoiceState, e: CompositionError) {
    || (e == BuilderError && request.Refused(items))
    || (e == InsufficientState && !Affords(items, request.Ty(), state))
    || (e == NoExtraOrChange(request.Ty()) && !ChangeSuffices(items, request.Ty(), state, request.meta.changeVout))
  }

  method GiveState(request: Request, b: Builder, seal: Seal, state: State, ghost items: Items)
    returns (r: Result<Builder, CompositionError>)
    requires b.inputs == items && request.IsPartial(b, items)
    requires request.Pays(b.outputs, Assignment(request.Ty(), seal, state), items)
    ensures r.Ok? ==> r.value == b.(outputs := b.outputs + [Assignment(request.Ty(), seal, state)])
    ensures r.Err? ==> r.error == BuilderError && request.Refused(items)
  {
    hide Request.Pays;
    var a := Assignment(request.Ty(), seal, state);
    assert request.IsStep(b, GiveOutput(a), items);
    r := b.AddOwned(request.lib, a);
  }

  /* The outputs of an amount invoice: to the beneficiary, and the rest to change. */
  method AddAmount(request: Request, d: Draft, amount: nat, seal: Seal, ghost items: Items)
    returns (r: Result<Builder, CompositionError>)
    requires d.Has(request, items) && request.IsFor(AmountState(amount), seal)
    ensures r.Ok? ==> r.value == d.builder.(outputs := r.value.outputs)
    ensures r.Ok? ==> PaysInvoice(items, request.Ty(), amount, seal, request.meta.changeVout, r.value.outputs)
    ensures r.Err? ==> IsPaymentError(request, items, AmountState(amount), r.error)
    ensures r == Err(InsufficientState) <==> d.sum < amount
  {
    hide MovesOthers, CollectsData;
    if d.sum < amount {
      return Err(InsufficientState);
    }
    var builder := d.builder;
    if amount > 0 {
      var paid := GiveState(request, builder, seal, Amount(amount), items);
      if paid.Err? {
        return paid;
      }
      builder := paid.value;
    }
    assert builder.outputs == d.builder.outputs + Payment(request.Ty(), seal, amount);
    if d.sum > amount {
      var changeSeal := ChangeSeal(request.Ty(), request.meta);
      if changeSeal.Err? {
        return Err(changeSeal.error);
      }
      var changed := GiveState(request, builder, changeSeal.value, Amount(d.sum - amount), items);
      if changed.Err? {
        return changed;
      }
      builder := changed.value;
    }
    assert builder.outputs == d.builder.outputs + Payment(request.Ty(), seal, amount)
             + (if request.meta.changeVout.Some? then
                  Payment(request.Ty(), Revealed(request.meta.changeVout.value), d.sum - amount)
                else []);
    r := Ok(builder);
  }

  method AddPayment(request: Request, d: Draft, state: InvoiceState, seal: Seal, ghost items: Items)
    returns (r: Result<Builder, CompositionError>)
    requires d.Has(request, items) && request.IsFor(state, seal)
    ensures r.Ok? ==> r.value == d.builder.(outputs := r.value.outputs)
    ensures r.Ok? ==> PaysState(items, request.Ty(), state, seal, request.meta.changeVout, r.value.outputs)
    ensures r.Err? ==> IsPaymentError(request, items, state, r.error)
  {
    hide MovesOthers, PaysInvoice;
    match state {
      case AmountState(amount) =>
        r := AddAmount(request, d, amount, seal, items);
      case DataState(data) =>
        if data !in d.data {
          return Err(InsufficientState);
        }
        r := GiveState(request, d.builder, seal, Data(data), items);
      case VoidState =>
        r := GiveState(request, d.builder, seal, Void, items);
    }
  }

  /* An output of an amount invoice leaves nothing behind that should go to change. */
  lemma PaidSuffices(request: Request, items: Items, seal: Seal, outputs: seq<Assignment>)
    requires request.invoice.state.Some?
    requires PaysState(items, request.Ty(), request.invoice.state.value, seal, request.meta.changeVout, outputs)
    requires request.meta.changeVout.None? ==> AllOfType(items, request.Ty())
    ensures Affords(items, request.Ty(), request.invoice.state.value)
    ensures ChangeSuffices(items, request.Ty(), request.invoice.state.value, request.meta.changeVout)
  {
  }

  /**
   * The transition that pays the invoice with the selected outputs of its contract. It comes out exactly when the
   * invoice is payable, unless the builder refuses a step on the way.
   */
  method BuildMainTransition(request: Request, stock: Stock, outputs: set<OutputSeal>)
    returns (r: Result<Transition, CompositionError>)
    requires stock.Valid()
    ensures var items := stock.ItemsOn(request.context.contractId, outputs);
      && (r.Ok? ==> request.IsMain(items, r.value.content) && request.Payable(items))
      && (r == Err(BuilderError) ==> request.Refused(items))
      && (r.Err? && r.error != BuilderError ==> !request.Payable(items))
      && (r == Err(InsufficientState) ==>
            items == map[]
            || (request.invoice.state.Some? && !Affords(items, request.Ty(), request.invoice.state.value)))
    ensures r.Err? && r.error.NoExtraOrChange? ==> request.meta.changeVout.None?
    ensures r.Err? ==> IsCompositionError(r.error)
  {
    hide MovesOthers, PaysState, CollectsData, ItemsAt, InSum, Affords, AllOfType;
    if request.invoice.state.None? {
      return Err(NoAssignmentState);
    }
    var seal := BeneficiarySeal(request.invoice.beneficiary, request.meta);
    if seal.Err? {
      return Err(seal.error);
    }
    if request.context.contractId !in stock.contracts {
      return Err(UnknownContract);
    }
    ghost var items := stock.ItemsOn(request.context.contractId, outputs);
    assert request.IsStep(request.Start(), Begin, items);
    var begun := request.Start().Begun(request.lib);
    if begun.Err? {
      return Err(begun.error);
    }
    var added := AddInputs(request, begun.value, stock.contracts[request.context.contractId], outputs);
    if added.Err? {
      return Err(added.error);
    }
    var paid := AddPayment(request, added.value, request.invoice.state.value, seal.value, items);
    if paid.Err? {
      return Err(paid.error);
    }
    if paid.value.inputs == map[] {
      return Err(InsufficientState);
    }
    assert request.IsMain(items, paid.value.Finished());
    PaidSuffices(request, items, seal.value, paid.value.outputs);
    assert request.IsStep(paid.value, Finish, items);
    r := paid.value.Complete(request.lib);
  }

  /* The errors of building transitions, as opposed to those of placing the host and of embedding. */
  predicate IsCompositionError(e: CompositionError) {
    !e.EmbedFailed? && e != NoOutputForTapretCommitment && e != NotFunded
  }

  /* Where the beneficiary gets its state: at its reported position, or at its own blinded seal. */
  ghost predicate IsSealOf(seal: Seal, beneficiary: Beneficiary, meta: PsbtMeta) {
    match beneficiary
    case WitnessVout(_, _) => meta.beneficiaryVout.Some? && seal == Revealed(meta.beneficiaryVout.value)
    case BlindedSeal(secret) => meta.beneficiaryVout.None? && seal == Concealed(secret)
  }

  /* The invoiced state at a seal; an amount of zero needs no output. */
  ghost predicate Gives(outputs: seq<Assignment>, ty: U16, seal: Seal, state: InvoiceState) {
    match state
    case AmountState(amount) => amount > 0 ==> Assignment(ty, seal, Amount(amount)) in outputs
    case DataState(data) => Assignment(ty, seal, Data(data)) in outputs
    case VoidState => Assignment(ty, seal, Void) in outputs
  }

  /* Everything else is at the change output. */
  ghost predicate RestIsChange(outputs: seq<Assignment>, ty: U16, seal: Seal, change: Option<nat>) {
    forall a :: a in outputs ==>
      (a.ty == ty && a.seal == seal) || (change.Some? && a.seal == Revealed(change.value))
  }

  /** A main transition gives the beneficiary what was invoiced, and all the rest to change. */
  lemma BeneficiaryIsPaid(request: Request, items: Items, t: Content)
    requires request.IsMain(items, t)
    ensures exists seal ::
              && IsSealOf(seal, request.invoice.beneficiary, request.meta)
              && Gives(t.outputs, request.context.assignmentType, seal, request.invoice.state.value)
              && RestIsChange(t.outputs, request.context.assignmentType, seal, request.meta.changeVout)
  {
    hide InSum, InCount, OutCount, OutSum;
    var seal := BeneficiarySeal(request.invoice.beneficiary, request.meta).value;
    assert IsSealOf(seal, request.invoice.beneficiary, request.meta);
  }
}
