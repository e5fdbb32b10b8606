/** A payment from invoice to commitment (`pay`): what the committed transaction stands for. */
module Pay {
  import opened Base
  import opened Protocol
  import opened Ledger
  import opened Store
  import opened OutputState
  import opened OutputEffects
  import opened TransitionOrder
  import opened Bundles
  import opened Commitment
  import opened Psbts
  import opened Selection
  import opened Conservation
  import opened Composition
  import opened Extras
  import opened Placement
  import opened PlacementEffects
  import opened Payment
  import opened Construction
  import opened Wallet

  datatype PayError = Composing(composition: CompositionError) | Completing(completion: CompletionError)

  /* Outputs as a PSBT constructor leaves them: no host is marked, no message is set. */
  ghost predicate Quiet(views: seq<OutState>) {
    forall i :: 0 <= i < |views| ==> NoMessages(views[i])
  }

  lemma {:induction false} SortAddsNothing(views: seq<OutState>, how: CloseMethod)
    ensures forall v :: v in HostsFirst(views, how) ==> v in views
  {
    if views != [] {
      var n := |views| - 1;
      SortAddsNothing(views[..n], how);
      assert forall v :: v in HostsFirst(views, how) ==> v in HostsFirst(views[..n], how) || v == views[n];
    }
  }

  lemma PreparedStaysQuiet(views: seq<OutState>, change: Option<Script>, beneficiary: Beneficiary, how: CloseMethod)
    requires how == TapretFirst ==> TapretOutput(change, beneficiary).Some?
    requires Quiet(views)
    ensures Quiet(Prepared(views, change, beneficiary, how))
  {
    match how {
      case OpretFirst =>
        assert Quiet(WithOpretHost(views));
      case TapretFirst =>
        var keyed := WithInternalKey(views, change, beneficiary);
        assert Quiet(keyed);
        assert Quiet(WithTapretHost(keyed, TapretOutput(change, beneficiary).value));
    }
  }

  lemma QuietAfterSort(views: seq<OutState>, how: CloseMethod)
    requires Quiet(views)
    ensures Quiet(HostsFirst(views, how))
  {
    SortAddsNothing(views, how);
    var sorted := HostsFirst(views, how);
    forall i | 0 <= i < |sorted| ensures NoMessages(sorted[i]) {
      assert sorted[i] in views;
    }
  }

  /* If any output ends up marked, it is the first one, it will be committed, and it has no messages. */
  lemma PlacedHost(start: Snapshot, beneficiary: Beneficiary, how: CloseMethod, views: seq<OutState>, store: KeyMap,
                   meta: PsbtMeta)
    requires IsPlaced(start.views, start.store, start.changeVout, beneficiary, how, views, store, meta)
    requires Unmarked(start.views, how) && Quiet(start.views)
    requires HostIndex(views, how) < |views|
    ensures HostIndex(views, how) == 0 && views[0].CanHost(how) && NoMessages(views[0])
  {
    hide NoMessages, Locates;
    var change := ChangeScript(start.views, start.changeVout);
    PreparedStaysQuiet(start.views, change, beneficiary, how);
    QuietAfterSort(Prepared(start.views, change, beneficiary, how), how);
    match how {
      case OpretFirst => OpretHostPlaced(start.views);
      case TapretFirst =>
        var keyed := WithInternalKey(start.views, change, beneficiary);
        assert Unmarked(keyed, how);
        TapretHostPlaced(keyed, TapretOutput(change, beneficiary).value);
    }
  }

  /** A PSBT as its constructor leaves it. */
  ghost predicate IsNew(start: Snapshot, how: CloseMethod) {
    && Fresh(start.store) && CloseMethodKey() !in start.store && TapretHostOnChangeKey() !in start.store
    && Unmarked(start.views, how) && Quiet(start.views)
  }

  ghost predicate HasChange(start: Snapshot) {
    start.changeVout.Some? && start.changeVout.value < |start.views|
  }

  lemma PlacedIsFresh(start: Snapshot, beneficiary: Beneficiary, how: CloseMethod, views: seq<OutState>, store: KeyMap,
                      meta: PsbtMeta)
    requires IsPlaced(start.views, start.store, start.changeVout, beneficiary, how, views, store, meta)
    requires IsNew(start, how)
    ensures Fresh(store) && Fresh(WithCloseMethod(store, how)) && CloseMethodKey() !in store
    ensures TapretHostOnChangeKey() in store <==> how == TapretFirst && HasChange(start)
  {
  }

  /* The consumers recorded for a contract: the assignments on the selected outputs, each under its transition. */
  ghost predicate IsInputMapOf(opLib: Library, plan: Plan, batch: seq<Transition>, c: ContractId, m: ConsumerMap)
    requires plan.Valid()
  {
    m.Keys == plan.ItemsOf(c).Keys && IsInputMap(opLib, batch, c, m)
  }

  /**
   * The bundles are the payment: one for every contract with assignments on the selected outputs, in which each of
   * these assignments has the one operation that consumes it; and, if ids separate the transitions of the batch, in
   * which the known transitions are those of the batch for the contract, each once, dependencies first.
   */
  ghost predicate BundleThePayment(opLib: Library, plan: Plan, batch: seq<Transition>,
                                   bundles: map<ContractId, TransitionBundle>)
    requires plan.Valid()
  {
    && (forall c :: c in bundles <==> plan.ItemsOf(c) != map[])
    && (forall c :: c in bundles ==> IsInputMapOf(opLib, plan, batch, c, bundles[c].inputMap))
    && (CollisionFree(opLib, set t | t in batch) ==>
          forall c :: c in bundles ==> BundlesBatch(opLib, batch, c, bundles[c]))
  }

  /* What is recorded for each contract once a payment was embedded in a fresh PSBT. */
  lemma EmbeddedConsumers(opLib: Library, plan: Plan, batch: seq<Transition>, items: seq<Item>, store: KeyMap)
    requires plan.Valid() && plan.IsBatch(batch, items)
    requires opLib.Lawful() && Fresh(store) && StoreEmbed(opLib, store, batch).1.Ok?
    ensures var store' := StoreEmbed(opLib, store, batch).0;
      && ReadContractIds(store').Ok?
      && (forall c :: ReadConsumers(store', c).Ok?
                      && IsInputMapOf(opLib, plan, batch, c, ReadConsumers(store', c).value))
      && (forall c :: c in ReadContractIds(store').value <==> plan.ItemsOf(c) != map[])
  {
    var store', s := StoreEmbed(opLib, store, batch).0, Embed(opLib, EMPTY, batch).0;
    hide Plan.IsBatch, Plan.Valid, Library.Lawful, Fresh, Refines, StoreEmbed, Embed, IsInputMap, ItemsAt,
      ReadConsumers, ReadContractIds;
    FreshRefinesEmpty(opLib, store);
    EmbedRefines(opLib, store, EMPTY, batch);
    EmbeddedPayment(plan, batch, items, opLib, store);
    EmbeddedState(opLib, batch, s);
    ReadsRefine(opLib, store', s);
  }

  lemma EmbeddedBundles(opLib: Library, plan: Plan, batch: seq<Transition>, items: seq<Item>, store: KeyMap,
                        bundles: map<ContractId, TransitionBundle>)
    requires plan.Valid() && plan.IsBatch(batch, items)
    requires opLib.Lawful() && Fresh(store) && StoreEmbed(opLib, store, batch).1.Ok?
    requires AreBundlesOf(opLib, StoreEmbed(opLib, store, batch).0, bundles)
    ensures BundleThePayment(opLib, plan, batch, bundles)
  {
    hide StoreEmbed, Plan.IsBatch, IsInputMapOf, ReadConsumers, ReadContractIds, Library.Lawful, Fresh, IsOrderingOf,
      CollisionFree, BundlesBatch;
    EmbeddedConsumers(opLib, plan, batch, items, store);
    forall c | c in bundles ensures IsInputMapOf(opLib, plan, batch, c, bundles[c].inputMap) {
      assert IsBundleOf(opLib, StoreEmbed(opLib, store, batch).0, c, bundles[c]);
    }
    if CollisionFree(opLib, set t | t in batch) { BundlesOfBatch(opLib, store, batch, bundles); }
  }

  /* Embedding leaves the close method and the place of the host as they were set. */
  lemma EmbeddedSettings(opLib: Library, store: KeyMap, how: CloseMethod, batch: seq<Transition>)
    requires CloseMethodKey() !in store
    ensures var store' := StoreEmbed(opLib, WithCloseMethod(store, how), batch).0;
      && ReadCloseMethod(store') == Ok(Some(how))
      && (TapretHostOnChangeKey() in store' <==> TapretHostOnChangeKey() in store)
  {
    EmbedLeavesOtherKeys(opLib, WithCloseMethod(store, how), batch);
  }

  /* The first output commits to the messages; the other outputs are as they were. */
  ghost predicate FirstCommits(lib: CommitLibrary, views: seq<OutState>, views': seq<OutState>, how: CloseMethod,
                               messages: map<Id, Id>, block: Bytes, random: U64)
  {
    && |views'| == |views| > 0
    && (forall i :: 0 < i < |views| ==> views'[i] == views[i])
    && Covers(lib, Given(views[0], messages), views'[0], how, messages, block, random)
  }

  /* The bundles of the fascia are the payment, and the first output commits to their ids. */
  ghost predicate IsPaid(opLib: Library, lib: CommitLibrary, plan: Plan, batch: seq<Transition>, placed: seq<OutState>,
                         how: CloseMethod, views: seq<OutState>, fascia: Fascia, random: U64)
    requires plan.Valid()
  {
    && BundleThePayment(opLib, plan, batch, fascia.bundles)
    && exists messages ::
         && AreBundleIds(lib, fascia.bundles, messages)
         && FirstCommits(lib, placed, views, how, messages, fascia.block, random)
  }

  /* A constructed PSBT and the fascia that committing it gave. */
  ghost predicate IsCommitted(opLib: Library, lib: CommitLibrary, plan: Plan, batch: seq<Transition>, start: Snapshot,
                              how: CloseMethod, placed: seq<OutState>, store: KeyMap, modifiable: bool, random: U64,
                              views: seq<OutState>, fascia: Fascia)
    requires plan.Valid()
  {
    && IsConstructed(opLib, plan, batch, start, how, placed, store, None)
    && IsCommitOf(opLib, lib, store, placed, modifiable, random, views, fascia.block, fascia.proof)
    && AreBundlesOf(opLib, store, fascia.bundles)
  }

  /**
   * What was committed is the payment. From a new PSBT, through placement of the host, embedding of the batch and
   * `rgb_commit`: the bundles are the payment, the first output commits to exactly their ids, one message per contract,
   * and no other output changes.
   */
  lemma PaymentIsCommitted(opLib: Library, lib: CommitLibrary, plan: Plan, batch: seq<Transition>, items: seq<Item>,
                           start: Snapshot, how: CloseMethod, placed: seq<OutState>, store: KeyMap, modifiable: bool,
                           random: U64, views: seq<OutState>, fascia: Fascia)
    requires plan.Valid() && plan.IsBatch(batch, items)
    requires IsNew(start, how) && opLib.Lawful()
    requires IsCommitted(opLib, lib, plan, batch, start, how, placed, store, modifiable, random, views, fascia)
    ensures IsPaid(opLib, lib, plan, batch, placed, how, views, fascia, random)
    ensures ReadCloseMethod(store) == Ok(Some(how))
    ensures TapretHostOnChangeKey() in store <==> how == TapretFirst && HasChange(start)
  {
    hide Plan.Valid, Plan.IsBatch, Library.Lawful, Quiet, BundleThePayment, StoreEmbed, EmbedsWell, DueMessages,
      Covers, Given, AreBundlesOf, AreBundleIds, NoMessages, OnlyFor;
    var keys: KeyMap :|
      && IsPlaced(start.views, start.store, start.changeVout, plan.order.invoice.beneficiary, how, placed, keys,
                  plan.meta)
      && IsEmbedded(opLib, plan, batch, keys, how, store, None);
    PlacedIsFresh(start, plan.order.invoice.beneficiary, how, placed, keys, plan.meta);
    EmbeddedSettings(opLib, keys, how, batch);
    EmbeddedBundles(opLib, plan, batch, items, WithCloseMethod(keys, how), fascia.bundles);
    DueAreBundleIds(lib, opLib, store, fascia.bundles);
    PlacedHost(start, plan.order.invoice.beneficiary, how, placed, keys, plan.meta);
    NoMessagesOnlyFor(placed[0], DueMessages(lib, store));
    CommitCoversBundles(opLib, lib, store, placed, modifiable, random, views, fascia.block, fascia.proof);
    assert FirstCommits(lib, placed, views, how, DueMessages(lib, store), fascia.block, random);
  }

  /** The tweaks after a payment: that of a tapret host on change is recorded at its only terminal, nothing else is. */
  ghost predicate IsRecorded(lib: CommitLibrary, start: Snapshot, how: CloseMethod, placed: seq<OutState>,
                             views: seq<OutState>, keys: Terminal -> seq<Bytes>, before: Tweaks, after: Tweaks)
    requires |views| == |placed| > 0
  {
    if how == TapretFirst && HasChange(start) && exists t :: IsOnlyTerminal(placed[0], t) then
      ChangeRecorded(lib, placed[0], views[0], keys, before, after)
    else after == before
  }

  /* In a committed payment the first output is the host. */
  lemma CommittedHostIsFirst(opLib: Library, lib: CommitLibrary, plan: Plan, batch: seq<Transition>, start: Snapshot,
                             how: CloseMethod, placed: seq<OutState>, store: KeyMap, modifiable: bool, random: U64,
                             views: seq<OutState>, fascia: Fascia)
    requires plan.Valid() && IsNew(start, how)
    requires ReadCloseMethod(store) == Ok(Some(how))
    requires IsCommitted(opLib, lib, plan, batch, start, how, placed, store, modifiable, random, views, fascia)
    ensures |views| == |placed| > 0 && ProperIndex(placed, how) == 0 && placed[0].Has(HostKey(how))
  {
    hide Plan.Valid, Quiet, IsEmbedded, AreBundlesOf, DueMessages, BundlesReady, AcceptsMessages, ReadCloseMethod,
      IsPlaced, NoMessages, CommitOutput;
    var keys: KeyMap :| IsPlaced(start.views, start.store, start.changeVout, plan.order.invoice.beneficiary, how,
                                 placed,
                                 keys, plan.meta);
    PlacedHost(start, plan.order.invoice.beneficiary, how, placed, keys, plan.meta);
    assert placed[0].CanHost(how);
  }

  /* The tweaks are recorded, and the transfer is inconclusive only for a host on change without a single terminal. */
  ghost predicate RecordsTweaks(lib: CommitLibrary, start: Snapshot, how: CloseMethod, placed: seq<OutState>,
                                store: KeyMap, views: seq<OutState>, keys: Terminal -> seq<Bytes>, before: Tweaks,
                                after: Tweaks)
  {
    && |views| == |placed| > 0
    && IsRecorded(lib, start, how, placed, views, keys, before, after)
    && (Inconclusive(store, placed) <==>
          how == TapretFirst && HasChange(start) && forall t :: !IsOnlyTerminal(placed[0], t))
  }

  lemma PaymentIsRecorded(opLib: Library, lib: CommitLibrary, plan: Plan, batch: seq<Transition>, items: seq<Item>,
                          start: Snapshot, how: CloseMethod, placed: seq<OutState>, store: KeyMap, modifiable: bool,
                          random: U64, views: seq<OutState>, fascia: Fascia, keys: Terminal -> seq<Bytes>,
                          before: Tweaks, after: Tweaks)
    requires plan.Valid() && plan.IsBatch(batch, items)
    requires IsNew(start, how) && opLib.Lawful()
    requires IsCommitted(opLib, lib, plan, batch, start, how, placed, store, modifiable, random, views, fascia)
    requires TweaksAfterCommit(lib, store, placed, views, keys, before, after)
    ensures RecordsTweaks(lib, start, how, placed, store, views, keys, before, after)
  {
    hide *;
    PaymentIsCommitted(opLib, lib, plan, batch, items, start, how, placed, store, modifiable, random, views, fascia);
    CommittedHostIsFirst(opLib, lib, plan, batch, start, how, placed, store, modifiable, random, views, fascia);
    TweaksAreRecorded(lib, start, how, placed, store, views, keys, before, after);
  }

  lemma TweaksAreRecorded(lib: CommitLibrary, start: Snapshot, how: CloseMethod, placed: seq<OutState>, store: KeyMap,
                          views: seq<OutState>, keys: Terminal -> seq<Bytes>, before: Tweaks, after: Tweaks)
    requires |views| == |placed| > 0 && ProperIndex(placed, how) == 0 && ReadCloseMethod(store) == Ok(Some(how))
    requires TapretHostOnChangeKey() in store <==> how == TapretFirst && HasChange(start)
    requires TweaksAfterCommit(lib, store, placed, views, keys, before, after)
    ensures RecordsTweaks(lib, start, how, placed, store, views, keys, before, after)
  {
    hide HasChange, ChangeRecorded, IsOnlyTerminal, ReadCloseMethod;
  }

  /* The change output that the wallet constructed is put first as the host, with its key and terminals. */
  ghost predicate ChangeIsHost(start: Snapshot, placed: seq<OutState>)
    requires HasChange(start)
  {
    exists m ::
      && IsFirstWith(start.views, start.views[start.changeVout.value].script, m)
      && PutsFirst(start.views, m, TapretFirst, placed)
  }

  lemma CommittedChangeIsHost(plan: Plan, start: Snapshot, placed: seq<OutState>, store: KeyMap)
    requires IsNew(start, TapretFirst) && HasChange(start)
    requires IsPlaced(start.views, start.store, start.changeVout, plan.order.invoice.beneficiary, TapretFirst, placed,
                      store, plan.meta)
    requires placed != [] && placed[0].Has(HostKey(TapretFirst))
    ensures ChangeIsHost(start, placed)
  {
    hide IsPlaced, Quiet, PutsFirst, IsFirstWith;
    TapretOnChange(start.views, start.store, start.changeVout.value, plan.order.invoice.beneficiary, placed, store,
                   plan.meta);
  }

  /* Where the beneficiary gets its state: at an output with its script, or at its own blinded seal. */
  ghost predicate IsPayee(seal: Seal, beneficiary: Beneficiary, views: seq<OutState>) {
    match beneficiary
    case WitnessVout(script, _) => seal.Revealed? && seal.vout < |views| && views[seal.vout].script == script
    case BlindedSeal(secret) => seal == Concealed(secret)
  }

  /* An output with the script of the change output that the wallet constructed. */
  ghost predicate IsChangeAt(start: Snapshot, views: seq<OutState>, w: nat)
    requires HasChange(start)
  {
    w < |views| && views[w].script == start.views[start.changeVout.value].script
  }

  ghost predicate AllChange(outputs: seq<Assignment>, w: nat) {
    forall a :: a in outputs ==> a.seal == Revealed(w)
  }

  /**
   * Who gets what, by scripts: the beneficiary gets the invoiced state, and an output with the script of the change
   * that
   * the wallet constructed gets the rest and all state of bystanders.
   */
  ghost predicate PaysScripts(plan: Plan, batch: seq<Transition>, start: Snapshot, placed: seq<OutState>) {
    && batch != [] && plan.order.invoice.state.Some?
    && exists seal ::
         && IsPayee(seal, plan.order.invoice.beneficiary, placed)
         && Gives(batch[0].content.outputs, plan.order.context.assignmentType, seal, plan.order.invoice.state.value)
         && (HasChange(start) ==> exists w :: IsChangeAt(start, placed, w) && ChangeGetsRest(plan, batch, seal, w))
         && (start.changeVout.None? ==>
             RestIsChange(batch[0].content.outputs, plan.order.context.assignmentType, seal, None) && |batch| == 1)
  }

  ghost predicate ChangeGetsRest(plan: Plan, batch: seq<Transition>, seal: Seal, w: nat)
    requires batch != []
  {
    && RestIsChange(batch[0].content.outputs, plan.order.context.assignmentType, seal, Some(w))
    && forall i :: 0 < i < |batch| ==> AllChange(batch[i].content.outputs, w)
  }

  lemma ExtrasGoToChange(plan: Plan, batch: seq<Transition>, items: seq<Item>)
    requires plan.Valid() && plan.IsBatch(batch, items)
    ensures plan.meta.changeVout.Some? ==>
              forall i :: 0 < i < |batch| ==> AllChange(batch[i].content.outputs, plan.meta.changeVout.value)
    ensures plan.meta.changeVout.None? ==> |batch| == 1
  {
    hide Enumerates, OtherItems, ItemsAt, Request.IsMain;
    forall i | 0 < i < |batch| && plan.meta.changeVout.Some?
      ensures AllChange(batch[i].content.outputs, plan.meta.changeVout.value)
    {
      assert batch[i] == batch[1..][i - 1];
    }
  }

  /** A constructed payment pays the scripts it should. */
  lemma PaymentPaysScripts(plan: Plan, batch: seq<Transition>, items: seq<Item>, start: Snapshot, how: CloseMethod,
                           placed: seq<OutState>, store: KeyMap)
    requires plan.Valid() && plan.IsBatch(batch, items)
    requires IsPlaced(start.views, start.store, start.changeVout, plan.order.invoice.beneficiary, how, placed, store,
                      plan.meta)
    ensures PaysScripts(plan, batch, start, placed)
  {
    ExtrasGoToChange(plan, batch, items);
    BeneficiaryIsPaid(plan.AsRequest(), plan.MainItems(), batch[0].content);
    hide Plan.Valid, Plan.IsBatch, IsPlaced, IsSealOf, Gives, RestIsChange, AllChange, Request.IsMain, PaysScripts;
    var seal :|
      && IsSealOf(seal, plan.order.invoice.beneficiary, plan.meta)
      && Gives(batch[0].content.outputs, plan.order.context.assignmentType, seal, plan.order.invoice.state.value)
      && RestIsChange(batch[0].content.outputs, plan.order.context.assignmentType, seal, plan.meta.changeVout);
    BeneficiaryPosition(start.views, start.store, start.changeVout, plan.order.invoice.beneficiary, how, placed, store,
                        plan.meta);
    if HasChange(start) {
      ChangePosition(start.views, start.store, start.changeVout.value, plan.order.invoice.beneficiary, how, placed,
                     store,
                     plan.meta);
    } else {
      ChangeAsReported(start.views, start.store, start.changeVout, plan.order.invoice.beneficiary, how, placed, store,
                       plan.meta);
    }
    SealPays(plan, batch, start, placed, seal);
  }

  /* With the positions that were reported, the seals are those of the scripts. */
  lemma SealPays(plan: Plan, batch: seq<Transition>, start: Snapshot, placed: seq<OutState>, seal: Seal)
    requires batch != [] && plan.order.invoice.state.Some?
    requires IsSealOf(seal, plan.order.invoice.beneficiary, plan.meta)
    requires Gives(batch[0].content.outputs, plan.order.context.assignmentType, seal, plan.order.invoice.state.value)
    requires RestIsChange(batch[0].content.outputs, plan.order.context.assignmentType, seal, plan.meta.changeVout)
    requires plan.order.invoice.beneficiary.WitnessVout? ==>
               && plan.meta.beneficiaryVout.Some? && plan.meta.beneficiaryVout.value < |placed|
               && placed[plan.meta.beneficiaryVout.value].script == plan.order.invoice.beneficiary.script
    requires if HasChange(start) then
               plan.meta.changeVout.Some? && IsChangeAt(start, placed, plan.meta.changeVout.value)
             else plan.meta.changeVout == start.changeVout
    requires if plan.meta.changeVout.Some? then
               forall i :: 0 < i < |batch| ==> AllChange(batch[i].content.outputs, plan.meta.changeVout.value)
             else |batch| == 1
    ensures PaysScripts(plan, batch, start, placed)
  {
    hide Gives, RestIsChange, AllChange, IsChangeAt;
    assert IsPayee(seal, plan.order.invoice.beneficiary, placed);
    if HasChange(start) {
      assert ChangeGetsRest(plan, batch, seal, plan.meta.changeVout.value);
    }
  }

  /* The payment was not constructed, or not embedded. */
  ghost predicate StopsEarly(opLib: Library, plan: Plan, batch: seq<Transition>, items: seq<Item>, start: Snapshot,
                             how: CloseMethod, funded: set<OutputSeal> -> bool, placed: seq<OutState>, store: KeyMap,
                             e: CompositionError)
    requires plan.Valid()
  {
    if e.EmbedFailed? then
      && Composable(plan) && plan.IsBatch(batch, items)
      && IsConstructed(opLib, plan, batch, start, how, placed, store, Some(e.rgb))
    else IsConstructionError(plan, start, how, funded, e)
  }

  /* The payment was constructed, and committed exactly if that could succeed. */
  ghost predicate ReachesCommit(opLib: Library, lib: CommitLibrary, plan: Plan, batch: seq<Transition>,
                                items: seq<Item>,
                                start: Snapshot, how: CloseMethod, placed: seq<OutState>, store: KeyMap, random: U64,
                                views: seq<OutState>, fascia: Option<Fascia>)
    requires plan.Valid()
  {
    && Composable(plan) && plan.IsBatch(batch, items)
    && IsConstructed(opLib, plan, batch, start, how, placed, store, None)
    && (fascia.Some? <==> CommitSucceeds(opLib, lib, store, placed, false, random))
    && (fascia.Some? ==>
          IsCommitted(opLib, lib, plan, batch, start, how, placed, store, false, random, views, fascia.value))
  }

  /** A committed payment on a new PSBT: the commitment is to it, and the wallet has the tweak of its change. */
  ghost predicate Settles(opLib: Library, lib: CommitLibrary, plan: Plan, batch: seq<Transition>, start: Snapshot,
                          how: CloseMethod, placed: seq<OutState>, views: seq<OutState>, fascia: Fascia, random: U64,
                          keys: Terminal -> seq<Bytes>, before: Tweaks, after: Tweaks)
    requires plan.Valid()
  {
    opLib.Lawful() && IsNew(start, how) ==>
      && IsPaid(opLib, lib, plan, batch, placed, how, views, fascia, random)
      && PaysScripts(plan, batch, start, placed)
      && |views| == |placed| > 0
      && (how == TapretFirst && HasChange(start) ==> ChangeIsHost(start, placed))
      && IsRecorded(lib, start, how, placed, views, keys, before, after)
  }

  lemma CommittedSettles(opLib: Library, lib: CommitLibrary, plan: Plan, batch: seq<Transition>, items: seq<Item>,
                         start: Snapshot, how: CloseMethod, placed: seq<OutState>, store: KeyMap, random: U64,
                         views: seq<OutState>, fascia: Fascia, keys: Terminal -> seq<Bytes>, before: Tweaks,
                         after: Tweaks)
    requires plan.Valid()
    requires ReachesCommit(opLib, lib, plan, batch, items, start, how, placed, store, random, views, Some(fascia))
    requires TweaksAfterCommit(lib, store, placed, views, keys, before, after)
    ensures Settles(opLib, lib, plan, batch, start, how, placed, views, fascia, random, keys, before, after)
  {
    hide Plan.Valid, Plan.IsBatch, Composable, Library.Lawful, IsNew, IsPaid, IsRecorded, IsEmbedded, IsCommitOf,
      CommitSucceeds, AreBundlesOf, TweaksAfterCommit, Inconclusive, HasChange, IsPlaced, PaysScripts, ChangeIsHost;
    if opLib.Lawful() && IsNew(start, how) {
      PaymentIsCommitted(opLib, lib, plan, batch, items, start, how, placed, store, false, random, views, fascia);
      PaymentIsRecorded(opLib, lib, plan, batch, items, start, how, placed, store, false, random, views, fascia, keys,
                        before, after);
      CommittedHostIsFirst(opLib, lib, plan, batch, start, how, placed, store, false, random, views, fascia);
      var placedKeys: KeyMap :|
        IsPlaced(start.views, start.store, start.changeVout, plan.order.invoice.beneficiary, how, placed, placedKeys,
                 plan.meta);
      PaymentPaysScripts(plan, batch, items, start, how, placed, placedKeys);
      if how == TapretFirst && HasChange(start) { CommittedChangeIsHost(plan, start, placed, placedKeys); }
    }
  }

  /**
   * Pays an invoice: selects, places the host, composes, embeds, commits, records the tweak of a tapret host on change,
   * and hands the bundles to the stock. Whenever a new PSBT was committed, what its first output commits to is the
   * payment, and the wallet has the tweak of its change, also if the stock then refuses the bundles.
   */
  method PayInvoice(order: Order, psbt: Psbt, changeVout: Option<nat>, how: CloseMethod, descriptor: TapretKey,
                    random: U64, funded: set<OutputSeal> -> bool, stock: StockVerdict)
    returns (r: Result<Fascia, PayError>, ghost plan: Plan, ghost batch: seq<Transition>, ghost items: seq<Item>,
             ghost placed: seq<OutState>, ghost fascia: Option<Fascia>)
    requires order.Valid() && psbt.Valid()
    requires order.invoice.beneficiary.WitnessVout? ==> HasScript(psbt.Views(), order.invoice.beneficiary.script)
    modifies psbt, psbt.outputs, descriptor
    ensures plan.Valid() && IsPlanFor(plan, order)
    ensures r.Err? && r.error.Composing? ==>
              && fascia.None?
              && StopsEarly(psbt.lib, plan, batch, items,
                            Snapshot(old(psbt.Views()), old(psbt.proprietary), changeVout),
                            how, funded, placed, psbt.proprietary, r.error.composition)
    ensures r.Ok? || r.error.Completing? ==>
              ReachesCommit(psbt.lib, psbt.commitLib, plan, batch, items,
                            Snapshot(old(psbt.Views()), old(psbt.proprietary), changeVout), how, placed,
                            psbt.proprietary, random, psbt.Views(), fascia)
    ensures r.Ok? <==> fascia.Some? && !Inconclusive(psbt.proprietary, placed)
                       && stock.Accepts(order.context.contractId, fascia.value)
    ensures r.Ok? ==> fascia == Some(r.value)
    ensures fascia.Some? ==>
              Settles(psbt.lib, psbt.commitLib, plan, batch,
                      Snapshot(old(psbt.Views()), old(psbt.proprietary), changeVout), how, placed, psbt.Views(),
                      fascia.value, random, descriptor.keys, old(descriptor.tweaks), descriptor.tweaks)
    ensures fascia.None? ==> descriptor.tweaks == old(descriptor.tweaks)
  {
    hide Order.Valid, IsPlanFor, Plan.Valid, Plan.IsBatch, Composable, IsConstructed, IsConstructionError,
      OnlyFailsForWant, IsCommitOf, CommitSucceeds, AreBundlesOf, AllKept, Settles, Inconclusive, TweaksAfterCommit,
      HasScript, StockVerdict.Accepts;
    ghost var start := Snapshot(psbt.Views(), psbt.proprietary, changeVout);
    fascia := None;
    var constructed;
    constructed, plan, batch, items := ConstructPsbtRgb(order, psbt, changeVout, how, funded);
    placed := psbt.Views();
    if constructed.Err? {
      return Err(Composing(constructed.error)), plan, batch, items, placed, fascia;
    }
    forall i | 0 <= i < |psbt.outputs| ensures psbt.outputs[i] in old(psbt.outputs) || fresh(psbt.outputs[i]) {
      assert psbt.outputs[i] in psbt.outputs;
    }
    var transferred;
    transferred, fascia := Transfer(psbt, Some(order.context.contractId), descriptor, random, stock);
    r := if transferred.Err? then Err(Completing(transferred.error)) else Ok(transferred.value);
    if fascia.Some? {
      CommittedSettles(psbt.lib, psbt.commitLib, plan, batch, items, start, how, placed, psbt.proprietary, random,
                       psbt.Views(), fascia.value, descriptor.keys, old(descriptor.tweaks), descriptor.tweaks);
    }
  }
}
