/** A PSBT output and the operations that update it in place. */
module Outputs {
  import opened Base
  import opened Protocol
  import opened Store
  import opened OutputState

  class Output {
    var script: Script
    var proprietary: KeyMap
    var internalKey: Option<Bytes>
    var tapTree: Option<Bytes>
    const bip32Terminals: seq<Terminal>
    const tapTerminals: seq<Terminal>

    constructor (script: Script)
      ensures View() == OutState(script, map[], None, None, [], [])
    {
      this.script := script;
      proprietary := map[];
      internalKey := None;
      tapTree := None;
      bip32Terminals := [];
      tapTerminals := [];
    }

    ghost function View(): OutState
      reads this
    {
      OutState(script, proprietary, internalKey, tapTree, bip32Terminals, tapTerminals)
    }

    method ProprietaryPush(k: PropKey, v: Bytes) returns (r: Result<(), MpcError>)
      modifies this`proprietary
      ensures r == (if k in old(proprietary) then Err(KeyAlreadyPresent) else Ok(()))
      ensures proprietary == Pushed(old(proprietary), k, v)
    {
      if k in proprietary {
        return Err(KeyAlreadyPresent);
      }
      proprietary := proprietary[k := v];
      r := Ok(());
    }

    method SetHost(how: CloseMethod) returns (wasSet: bool)
      modifies this
      ensures (View(), wasSet) == OutputState.SetHost(old(View()), how)
    {
      var r := ProprietaryPush(HostKey(how), []);
      wasSet := r.Err?;
    }

    method SetMpcEntropy(entropy: U64) returns (r: Result<bool, MpcError>)
      modifies this
      ensures (View(), r) == OutputState.SetMpcEntropy(old(View()), entropy)
    {
      if MpcCommitmentKey() in proprietary {
        return Err(Finalized);
      }
      var key, val := MpcEntropyKey(), EntropyBytes(entropy);
      if key in proprietary {
        if proprietary[key] != val {
          return Err(InvalidKeyValue);
        }
        return Ok(false);
      }
      var pushed := ProprietaryPush(key, val);
      assert pushed.Ok?;
      r := Ok(true);
    }

    method SetMpcMessage(protocol: Id, message: Id) returns (r: Result<bool, MpcError>)
      modifies this
      ensures (View(), r) == OutputState.SetMpcMessage(old(View()), protocol, message)
    {
      if MpcCommitmentKey() in proprietary {
        return Err(Finalized);
      }
      var key := MpcMessageKey(protocol);
      if key in proprietary {
        if proprietary[key] != message {
          return Err(InvalidKeyValue);
        }
        return Ok(false);
      }
      var pushed := ProprietaryPush(key, message);
      assert pushed.Ok?;
      r := Ok(true);
    }

    /** Commits to the messages; `random` is drawn when the output has no entropy. */
    method MpcCommit(lib: CommitLibrary, random: U64) returns (r: Result<(Id, Bytes), MpcError>)
      modifies this
      ensures (View(), r) == OutputState.MpcCommit(lib, old(View()), random)
    {
      var messages := ReadMessages(proprietary);
      if messages.Err? {
        return Err(messages.error);
      }
      var tree := lib.mpcTree(MpcSource(ReadMinDepth(proprietary), messages.value, ReadEntropy(proprietary)), random);
      if tree.None? {
        return Err(Tree);
      }
      var entropySet := SetMpcEntropy(tree.value.entropy);
      if entropySet.Err? {
        return Err(entropySet.error);
      }
      var pushed := ProprietaryPush(MpcCommitmentKey(), tree.value.commitment);
      if pushed.Ok? {
        pushed := ProprietaryPush(MpcProofKey(), tree.value.block);
      }
      r := if pushed.Err? then Err(OutputAlreadyHasCommitment) else Ok((tree.value.commitment, tree.value.block));
    }

    method OpretCommit(commitment: Id) returns (r: Result<(), OpretError>)
      modifies this
      ensures (View(), r) == OutputState.OpretCommit(old(View()), commitment)
    {
      if OpretHostKey() !in proprietary {
        return Err(OpretError.OpretProhibited);
      }
      var pushed := ProprietaryPush(OpretCommitmentKey(), commitment);
      if pushed.Err? {
        return Err(OpretHasCommitment);
      }
      proprietary := proprietary - {OpretHostKey()};
      r := Ok(());
    }

    method TapretCommit(lib: CommitLibrary, commitment: Id) returns (r: Result<TapretProof, TapretError>)
      modifies this
      ensures (View(), r) == OutputState.TapretCommit(lib, old(View()), commitment)
    {
      if TapretHostKey() !in proprietary {
        return Err(TapretError.TapretProhibited);
      }
      if tapTree.Some? {
        return Err(TapTreeNonEmpty);
      }
      var tapret := TapretCommitment(commitment, 0);
      tapTree := Some(lib.leafScript(tapret));
      if internalKey.None? {
        return Err(NoInternalKey);
      }
      var proof := TapretProof(internalKey.value, 0);
      var pushed := ProprietaryPush(TapretCommitmentKey(), tapret.ToBytes());
      if pushed.Ok? {
        pushed := ProprietaryPush(TapretProofKey(), lib.encodeProof(proof));
      }
      if pushed.Err? {
        return Err(TapretHasCommitment);
      }
      proprietary := proprietary - {TapretHostKey()};
      r := Ok(proof);
    }
  }
}
