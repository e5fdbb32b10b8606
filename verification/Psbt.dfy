/** The PSBT: its proprietary keys, its outputs, and the RGB methods that update them in place. */
module Psbts {
  import opened Base
  import opened Protocol
  import opened ConsumerCodec
  import opened Ledger
  import opened Store
  import opened OutputState
  import opened Outputs
  import opened TransitionOrder
  import opened Bundles
  import opened Commitment

  method SetMessage(host: Output, protocol: Id, message: Id, ghost before: OutState, ghost sent: map<Id, Id>)
    returns (r: Result<bool, MpcError>)
    requires AcceptsMessages(before, sent) && host.View() == Given(before, sent) && protocol !in sent
    modifies host
    ensures r.Ok? <==> AcceptsMessages(before, sent[protocol := message])
    ensures host.View() == Given(before, if r.Ok? then sent[protocol := message] else sent)
  {
    MessageGiven(before, sent, protocol, message);
    r := host.SetMpcMessage(protocol, message);
  }

  /* Sets one MPC message after another on an output; `sent` are those that went through. */
  method SetMessages(host: Output, messages: map<Id, Id>) returns (r: Result<(), MpcError>, ghost sent: map<Id, Id>)
    modifies host
    ensures r.Ok? <==> AcceptsMessages(old(host.View()), messages)
    ensures r.Ok? ==> sent == messages
    ensures AcceptsMessages(old(host.View()), sent) && host.View() == Given(old(host.View()), sent)
  {
    hide Given, AcceptsMessages;
    ghost var before := host.View();
    sent := map[];
    GivenNothing(before);
    var rest := messages.Keys;
    while rest != {}
      invariant rest <= messages.Keys && sent.Keys == messages.Keys - rest
      invariant forall c :: c in sent ==> sent[c] == messages[c]
      invariant AcceptsMessages(before, sent) && host.View() == Given(before, sent)
    {
      var protocol :| protocol in rest;
      var done := SetMessage(host, protocol, messages[protocol], before, sent);
      if done.Err? {
        if AcceptsMessages(before, messages) { AcceptsFewer(before, messages, sent[protocol := messages[protocol]]); }
        return Err(done.error), sent;
      }
      sent := sent[protocol := messages[protocol]];
      rest := rest - {protocol};
    }
    assert sent.Keys == messages.Keys;
    assert sent == messages;
    r := Ok(());
  }

  class Psbt {
    const lib: Library
    const commitLib: CommitLibrary
    var proprietary: KeyMap
    var outputs: seq<Output>
    var outputsModifiable: bool

    constructor (lib: Library, commitLib: CommitLibrary, outputs: seq<Output>)
      requires forall i, j :: 0 <= i < j < |outputs| ==> outputs[i] != outputs[j]
      ensures Valid() && this.lib == lib && this.commitLib == commitLib
      ensures proprietary == map[] && this.outputs == outputs && outputsModifiable
    {
      this.lib := lib;
      this.commitLib := commitLib;
      proprietary := map[];
      this.outputs := outputs;
      outputsModifiable := true;
    }

    /* Outputs are owned, so no two of them are the same object. */
    ghost predicate Valid()
      reads this
    {
      forall i, j :: 0 <= i < j < |outputs| ==> outputs[i] != outputs[j]
    }

    ghost function Views(): (views: seq<OutState>)
      reads this, outputs
      ensures |views| == |outputs|
      ensures forall i :: 0 <= i < |outputs| ==> views[i] == outputs[i].View()
    {
      seq(|outputs|, i requires 0 <= i < |outputs| reads this, outputs => outputs[i].View())
    }

    method ProprietaryPush(k: PropKey, v: Bytes) returns (r: Result<(), MpcError>)
      modifies this`proprietary
      ensures r == (if k in old(proprietary) then Err(KeyAlreadyPresent) else Ok(()))
      ensures proprietary == Pushed(old(proprietary), k, v)
    {
      if k in proprietary {
        return Err(KeyAlreadyPresent);
      }
      proprietary := proprietary[k := v];
      r := Ok(());
    }

    method SetRgbCloseMethod(how: CloseMethod)
      modifies this`proprietary
      ensures proprietary == WithCloseMethod(old(proprietary), how)
      ensures CloseMethodKey() !in old(proprietary) ==> ReadCloseMethod(proprietary) == Ok(Some(how))
    {
      var _ := ProprietaryPush(CloseMethodKey(), [CloseMethodByte(how)]);
    }

    method SetRgbTapretHostOnChange()
      modifies this`proprietary
      ensures proprietary == Pushed(old(proprietary), TapretHostOnChangeKey(), [])
    {
      var _ := ProprietaryPush(TapretHostOnChangeKey(), []);
    }

    method SetAsUnmodifiable()
      modifies this`outputsModifiable
      ensures !outputsModifiable
    {
      outputsModifiable := false;
    }

    /** Records the spender of an opout. */
    method SetRgbContractConsumer(contractId: ContractId, opout: Opout, opid: OpId) returns (r: Result<bool, RgbError>)
      modifies this`proprietary
      ensures (proprietary, r) == StoreConsumer(old(proprietary), contractId, opout, opid)
    {
      var key := ConsumedByKey(contractId);
      if key in proprietary {
        var read := Deserialize(proprietary[key]);
        if read.Err? {
          return Err(read.error);
        }
        var items := read.value;
        if opout in items {
          if items[opout] != opid {
            return Err(DoubleSpend);
          }
          return Ok(false);
        }
        items := items[opout := opid];
        var bytes := Serialize(items);
        proprietary := proprietary[key := bytes];
      } else {
        var bytes := Serialize(map[opout := opid]);
        var _ := ProprietaryPush(key, bytes);
      }
      r := Ok(true);
    }

    /** Stores a transition and records its inputs one by one; an error leaves what was done. */
    method PushRgbTransition(t: Transition) returns (r: Result<bool, RgbError>)
      modifies this`proprietary
      ensures (proprietary, r) == StorePush(lib, old(proprietary), t)
    {
      var opid := lib.Id(t);
      var prev := ReadTransition(lib, proprietary, opid);
      if prev.Err? {
        return Err(prev.error);
      }
      var transition := t;
      if prev.value.Some? {
        var merged := lib.mergeReveal(t, prev.value.value);
        if merged.None? {
          return Err(UnrelatedTransitions(lib.Id(prev.value.value), opid));
        }
        transition := merged.value;
      }
      var serialized := lib.encode(transition);
      if |serialized| > MAX_U24 {
        return Err(TransitionTooBig(opid));
      }
      var _ := ProprietaryPush(TransitionKey(opid), serialized);
      ghost var start := proprietary;
      var rest := transition.content.inputs;
      while rest != {}
        invariant rest <= transition.content.inputs
        invariant StoreConsumers(proprietary, transition.content.contractId, Ascending(rest), opid) ==
                    StoreConsumers(start, transition.content.contractId, transition.Inputs(), opid)
      {
        LeastExists(rest);
        var opout :| opout in rest && forall p :: p in rest && p != opout ==> Below(opout, p);
        BelowTotal(opout, Least(rest));
        var recorded := SetRgbContractConsumer(transition.content.contractId, opout, opid);
        if recorded.Err? {
          return Err(recorded.error);
        }
        rest := rest - {opout};
      }
      r := Ok(prev.value.None?);
    }

    /** Pushes the transitions of a batch in order. */
    method RgbEmbed(batch: seq<Transition>) returns (r: Result<(), RgbError>)
      modifies this`proprietary
      ensures (proprietary, r) == StoreEmbed(lib, old(proprietary), batch)
    {
      var i := 0;
      while i < |batch|
        invariant 0 <= i <= |batch|
        invariant StoreEmbed(lib, proprietary, batch[i..]) == StoreEmbed(lib, old(proprietary), batch)
      {
        assert batch[i..][0] == batch[i] && batch[i..][1..] == batch[i + 1..];
        var pushed := PushRgbTransition(batch[i]);
        if pushed.Err? {
          return Err(pushed.error);
        }
        i := i + 1;
      }
      r := Ok(());
    }

    /* The stored transitions of the spenders in an input map. */
    method CollectTransitions(inputMap: ConsumerMap) returns (r: Result<Graph, RgbError>)
      ensures r.Ok? <==> Readable(lib, proprietary, inputMap.Values)
      ensures r.Ok? ==> r.value == StoredAmong(lib, proprietary, inputMap.Values)
    {
      var transitions: Graph := map[];
      var opids := inputMap.Values;
      while opids != {}
        invariant opids <= inputMap.Values
        invariant Readable(lib, proprietary, inputMap.Values - opids)
        invariant transitions == StoredAmong(lib, proprietary, inputMap.Values - opids)
      {
        var opid :| opid in opids;
        var read := ReadTransition(lib, proprietary, opid);
        if read.Err? {
          return Err(read.error);
        }
        ghost var done := inputMap.Values - opids;
        if read.value.Some? {
          transitions := transitions[opid := read.value.value];
        }
        opids := opids - {opid};
        assert inputMap.Values - opids == done + {opid};
      }
      assert inputMap.Values - opids == inputMap.Values;
      r := Ok(transitions);
    }

    method RgbBundle(contractId: ContractId) returns (r: Result<TransitionBundle, RgbError>)
      ensures r.Ok? <==> ContractReady(lib, proprietary, contractId)
      ensures r.Ok? ==> IsBundleOf(lib, proprietary, contractId, r.value)
    {
      var consumers := ReadConsumers(proprietary, contractId);
      if consumers.Err? {
        return Err(consumers.error);
      }
      var inputMap := consumers.value;
      if inputMap == map[] {
        return Err(NoContractConsumers);
      }
      if |inputMap| > MAX_U16 {
        return Err(InvalidInputsNumber(|inputMap|));
      }
      var transitions := CollectTransitions(inputMap);
      if transitions.Err? {
        return Err(transitions.error);
      }
      var sorted, known := InsertTransitionsSorted(transitions.value, []);
      if sorted.Err? {
        return Err(sorted.error);
      }
      assert known[0..] == known;
      if known == [] {
        return Err(InvalidTransitionsNumber(contractId, |transitions.value|));
      }
      r := Ok(TransitionBundle(inputMap, known));
    }

    /** One bundle per contract. It succeeds exactly when every contract can be bundled. */
    method RgbBundles() returns (r: Result<map<ContractId, TransitionBundle>, RgbError>)
      ensures r.Ok? <==> BundlesReady(lib, proprietary)
      ensures r.Ok? ==> AreBundlesOf(lib, proprietary, r.value)
    {
      hide ContractReady, IsBundleOf;
      ghost var store := proprietary;
      var read := ReadContractIds(proprietary);
      if read.Err? {
        return Err(read.error);
      }
      var ids := read.value;
      var bundles: map<ContractId, TransitionBundle> := map[];
      var rest := ids;
      while rest != {}
        invariant rest <= ids && bundles.Keys == ids - rest
        invariant forall c :: c in bundles ==> ContractReady(lib, store, c) && IsBundleOf(lib, store, c, bundles[c])
      {
        var contractId :| contractId in rest;
        var bundle := RgbBundle(contractId);
        if bundle.Err? {
          return Err(bundle.error);
        }
        bundles := bundles[contractId := bundle.value];
        rest := rest - {contractId};
      }
      assert bundles.Keys == ids;
      r := Ok(bundles);
    }

    /* The position of the first output marked as host. */
    method FindHost(how: CloseMethod) returns (i: nat)
      ensures i == HostIndex(Views(), how)
    {
      i := 0;
      while i < |outputs| && HostKey(how) !in outputs[i].proprietary
        invariant 0 <= i <= |outputs|
        invariant forall j :: 0 <= j < i ==> !Views()[j].Has(HostKey(how))
      {
        i := i + 1;
      }
      assert i < |outputs| ==> Views()[i].Has(HostKey(how));
      ghost var h := HostIndex(Views(), how);
      assert h >= i;
    }

    /** The position of the first output whose script suits the close method, if there is one. */
    method DbcOutput(how: CloseMethod) returns (r: Option<nat>)
      ensures r == (if ProperIndex(Views(), how) < |outputs| then Some(ProperIndex(Views(), how)) else None)
    {
      var i := 0;
      while i < |outputs| && !(if how == TapretFirst then outputs[i].script.P2tr? else outputs[i].script.OpReturn?)
        invariant 0 <= i <= |outputs|
        invariant forall j :: 0 <= j < i ==> !Views()[j].CanHost(how)
      {
        i := i + 1;
      }
      assert i < |outputs| ==> Views()[i].CanHost(how);
      ghost var d := ProperIndex(Views(), how);
      assert d >= i;
      r := if i < |outputs| then Some(i) else None;
    }

    method SetOpretCommitment(idx: nat)
      requires Valid() && idx < |outputs| && Views()[idx].Has(OpretCommitmentKey())
      modifies outputs[idx]
      ensures Views() == old(Views())[idx := old(Views())[idx].(script := OpretScript(old(Views())[idx]))]
    {
      outputs[idx].script := OpReturn(outputs[idx].proprietary[OpretCommitmentKey()]);
    }

    method SetTapretCommitment(idx: nat)
      requires Valid() && idx < |outputs| && Views()[idx].internalKey.Some? && Views()[idx].tapTree.Some?
      modifies outputs[idx]
      ensures Views() == old(Views())[idx := old(Views())[idx].(script := TapretScript(commitLib, old(Views())[idx]))]
    {
      var merkleRoot := commitLib.merkleRoot(outputs[idx].tapTree.value);
      outputs[idx].script := P2tr(commitLib.taprootProgram(outputs[idx].internalKey.value, Some(merkleRoot)));
    }

    /* Opret: commit to the messages, record the commitment, put it in the script. */
    method OpretDbcCommit(idx: nat, random: U64) returns (r: Result<(Bytes, DbcProof), DbcError>)
      requires Valid() && idx < |outputs|
      modifies outputs[idx]
      ensures Views() == old(Views())[idx := outputs[idx].View()]
      ensures (outputs[idx].View(), r) == CommitOutput(commitLib, old(outputs[idx].View()), OpretFirst, random)
    {
      hide OutputState.MpcCommit, OutputState.OpretCommit;
      var committed := outputs[idx].MpcCommit(commitLib, random);
      if committed.Err? {
        return Err(DbcMpc(committed.error));
      }
      CommittedHasScript(commitLib, outputs[idx].View(), committed.value.0);
      var done := outputs[idx].OpretCommit(committed.value.0);
      if done.Err? {
        return Err(DbcOpret(done.error));
      }
      SetOpretCommitment(idx);
      r := Ok((committed.value.1, OpretDbc));
    }

    /* Tapret: commit to the messages, build the tap tree and the proof, derive the script. */
    method TapretDbcCommit(idx: nat, random: U64) returns (r: Result<(Bytes, DbcProof), DbcError>)
      requires Valid() && idx < |outputs|
      modifies outputs[idx]
      ensures Views() == old(Views())[idx := outputs[idx].View()]
      ensures (outputs[idx].View(), r) == CommitOutput(commitLib, old(outputs[idx].View()), TapretFirst, random)
    {
      hide OutputState.MpcCommit, OutputState.TapretCommit;
      var committed := outputs[idx].MpcCommit(commitLib, random);
      if committed.Err? {
        return Err(DbcMpc(committed.error));
      }
      CommittedHasScript(commitLib, outputs[idx].View(), committed.value.0);
      var done := outputs[idx].TapretCommit(commitLib, committed.value.0);
      if done.Err? {
        return Err(DbcTapret(done.error));
      }
      SetTapretCommitment(idx);
      r := Ok((committed.value.1, TapretDbc(done.value)));
    }

    /** Commits the first suitable output, whichever output was marked as host. */
    method DbcCommit(how: CloseMethod, random: U64) returns (r: Result<(Bytes, DbcProof), DbcError>)
      requires Valid()
      modifies outputs
      ensures outputsModifiable ==> r == Err(TxOutputsModifiable) && Views() == old(Views())
      ensures !outputsModifiable && ProperIndex(old(Views()), how) == |outputs| ==>
                r == Err(NoProperOutput(how)) && Views() == old(Views())
      ensures !outputsModifiable && ProperIndex(old(Views()), how) < |outputs| ==>
                var d := ProperIndex(old(Views()), how);
                && r == CommitOutput(commitLib, old(Views())[d], how, random).1
                && Views() == old(Views())[d := CommitOutput(commitLib, old(Views())[d], how, random).0]
      ensures AllKept(old(Views()), Views())
    {
      hide AllKept, CommittedDataKept, CommitOutput;
      ghost var before := Views();
      AllKeptSame(before);
      if outputsModifiable {
        return Err(TxOutputsModifiable);
      }
      var found := DbcOutput(how);
      if found.None? {
        return Err(NoProperOutput(how));
      }
      if how == OpretFirst {
        r := OpretDbcCommit(found.value, random);
      } else {
        r := TapretDbcCommit(found.value, random);
      }
      CommitOutputKeepsCommittedData(commitLib, before[found.value], how, random);
      KeptAt(before, found.value, outputs[found.value].View());
    }

    /** Gives the bundle ids, as MPC messages, to the first output marked as host for the close method. */
    method RgbBundlesToMpc() returns (r: Result<map<ContractId, TransitionBundle>, RgbError>)
      requires Valid()
      modifies outputs
      ensures AllKept(old(Views()), Views())
      ensures r.Ok? <==> MessagesDue(lib, commitLib, proprietary, old(Views()))
      ensures r.Ok? ==> AreBundlesOf(lib, proprietary, r.value)
      ensures r.Ok? ==> Views() == AfterMessages(commitLib, proprietary, old(Views()))
    {
      hide AllKept, CommittedDataKept, AreBundlesOf, BundlesReady, Given, AcceptsMessages, HostIndex, DueMessages;
      ghost var before := Views();
      AllKeptSame(before);
      var bundles := RgbBundles();
      if bundles.Err? {
        return Err(bundles.error);
      }
      var closeMethod := ReadCloseMethod(proprietary);
      if closeMethod.Err? {
        return Err(closeMethod.error);
      }
      if closeMethod.value.None? {
        return Err(NoCloseMethod);
      }
      var host := FindHost(closeMethod.value.value);
      if host == |outputs| {
        return Err(NoHostOutput(closeMethod.value.value));
      }
      BundlesGiveDueMessages(commitLib, lib, proprietary, bundles.value);
      DueContracts(commitLib, lib, proprietary, bundles.value);
      var done, sent := SetMessages(outputs[host], BundleMessages(commitLib, bundles.value));
      GivenKeepsCommittedData(before[host], sent);
      KeptAt(before, host, outputs[host].View());
      assert Views() == before[host := outputs[host].View()];
      if done.Err? {
        return Err(Mpc(done.error));
      }
      if |bundles.value| == 0 || |bundles.value| > MAX_U24 {
        return Err(NoContracts);
      }
      r := Ok(bundles.value);
    }

    /** Turns the embedded transitions into a commitment on one of the outputs. */
    method RgbCommit(random: U64) returns (r: Result<Fascia, CommitError>)
      requires Valid()
      modifies outputs
      ensures AllKept(old(Views()), Views())
      ensures r.Ok? <==> CommitSucceeds(lib, commitLib, proprietary, old(Views()), outputsModifiable, random)
      ensures r.Ok? ==>
                IsCommitOf(lib, commitLib, proprietary, old(Views()), outputsModifiable, random, Views(),
                           r.value.block, r.value.proof)
      ensures r.Ok? ==> AreBundlesOf(lib, proprietary, r.value.bundles)
      ensures r.Ok? ==> |r.value.scripts| == |outputs|
      ensures r.Ok? ==> forall i :: 0 <= i < |outputs| ==> r.value.scripts[i] == outputs[i].script
    {
      hide AllKept, CommittedDataKept, AreBundlesOf, BundlesReady, AfterMessages, CommitOutput, HostIndex;
      var bundles := RgbBundlesToMpc();
      if bundles.Err? {
        return Err(RgbFailure(bundles.error));
      }
      var closeMethod := ReadCloseMethod(proprietary);
      ghost var given := Views();
      var committed := DbcCommit(closeMethod.value.value, random);
      AllKeptTransitive(old(Views()), given, Views());
      if committed.Err? {
        return Err(DbcFailure(committed.error));
      }
      var scripts := seq(|outputs|, i requires 0 <= i < |outputs| reads this, outputs => outputs[i].script);
      r := Ok(Fascia(scripts, committed.value.0, committed.value.1, bundles.value));
    }
  }
}
