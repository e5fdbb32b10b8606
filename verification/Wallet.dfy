/** Tapret tweaks of the wallet descriptor, and the completion of a transfer that records them. */
module Wallet {
  import opened Base
  import opened Protocol
  import opened Store
  import opened OutputState
  import opened OutputEffects
  import opened Outputs
  import opened Commitment
  import opened Bundles
  import opened Psbts

  type Tweaks = map<Terminal, set<TapretCommitment>>

  datatype DerivedScript = TaprootKeyOnly(key: Bytes) | TaprootScript(key: Bytes, leaf: Bytes)

  /* The script pubkey of a derived script. */
  function ScriptPubkey(lib: CommitLibrary, s: DerivedScript): Script {
    match s
    case TaprootKeyOnly(key) => P2tr(lib.taprootProgram(key, None))
    case TaprootScript(key, leaf) => P2tr(lib.taprootProgram(key, Some(lib.merkleRoot(leaf))))
  }

  function TweaksAt(tweaks: Tweaks, t: Terminal): set<TapretCommitment> {
    if t in tweaks then tweaks[t] else {}
  }

  function AddTweak(tweaks: Tweaks, t: Terminal, tweak: TapretCommitment): Tweaks {
    tweaks[t := TweaksAt(tweaks, t) + {tweak}]
  }

  /** Scripts of a terminal: for each of its keys the key alone, and the key with each tweak recorded there. */
  ghost predicate Derivable(lib: CommitLibrary, keys: seq<Bytes>, tweaks: set<TapretCommitment>, s: DerivedScript) {
    match s
    case TaprootKeyOnly(key) => key in keys
    case TaprootScript(key, leaf) => key in keys && exists tweak :: tweak in tweaks && leaf == lib.leafScript(tweak)
  }

  ghost predicate IsTweaked(lib: CommitLibrary, key: Bytes, tweaks: set<TapretCommitment>, s: DerivedScript) {
    s.TaprootScript? && s.key == key && exists tweak :: tweak in tweaks && s.leaf == lib.leafScript(tweak)
  }

  ghost predicate Owns(lib: CommitLibrary, keys: seq<Bytes>, tweaks: set<TapretCommitment>, script: Script) {
    exists s :: Derivable(lib, keys, tweaks, s) && ScriptPubkey(lib, s) == script
  }

  /** The wallet owns exactly the outputs to one of its keys, alone or tweaked by a leaf for a recorded tweak. */
  lemma OwnsIff(lib: CommitLibrary, keys: seq<Bytes>, tweaks: set<TapretCommitment>, script: Script)
    ensures Owns(lib, keys, tweaks, script) <==>
              exists key :: key in keys &&
                (|| script == P2tr(lib.taprootProgram(key, None))
                 || exists tweak :: tweak in tweaks
                                    && script == P2tr(lib.taprootProgram(key,
                                                                         Some(lib.merkleRoot(lib.leafScript(tweak))))))
  {
    if s :| Derivable(lib, keys, tweaks, s) && ScriptPubkey(lib, s) == script {
      assert s.key in keys;
    }
    if key :| key in keys && script == P2tr(lib.taprootProgram(key, None)) {
      assert Derivable(lib, keys, tweaks, TaprootKeyOnly(key)) && ScriptPubkey(lib, TaprootKeyOnly(key)) == script;
    }
    if key, tweak :| key in keys && tweak in tweaks
                     && script == P2tr(lib.taprootProgram(key, Some(lib.merkleRoot(lib.leafScript(tweak))))) {
      var s := TaprootScript(key, lib.leafScript(tweak));
      assert Derivable(lib, keys, tweaks, s) && ScriptPubkey(lib, s) == script;
    }
  }

  datatype Tweak = Tweak(terminal: Terminal, commitment: TapretCommitment)

  function AddTweaks(tweaks: Tweaks, added: seq<Tweak>): Tweaks
    decreases |added|
  {
    if added == [] then tweaks else AddTweaks(AddTweak(tweaks, added[0].terminal, added[0].commitment), added[1..])
  }

  /** Over every later run of additions a terminal has exactly its old tweaks and those added to it. */
  lemma {:induction false} TweaksAfterRun(tweaks: Tweaks, added: seq<Tweak>, t: Terminal)
    ensures forall c :: c in TweaksAt(AddTweaks(tweaks, added), t) <==> c in TweaksAt(tweaks, t) || Tweak(t, c) in added
    decreases |added|
  {
    if added != [] {
      TweaksAfterRun(AddTweak(tweaks, added[0].terminal, added[0].commitment), added[1..], t);
      assert forall x :: x in added <==> x == added[0] || x in added[1..];
    }
  }

  /** What the wallet could derive it can still derive, and terminals without additions are unaffected. */
  lemma OwnershipAfterRun(lib: CommitLibrary, keys: seq<Bytes>, tweaks: Tweaks, added: seq<Tweak>, t: Terminal)
    ensures forall script :: Owns(lib, keys, TweaksAt(tweaks, t), script) ==>
              Owns(lib, keys, TweaksAt(AddTweaks(tweaks, added), t), script)
    ensures (forall c :: Tweak(t, c) !in added) ==> TweaksAt(AddTweaks(tweaks, added), t) == TweaksAt(tweaks, t)
  {
    TweaksAfterRun(tweaks, added, t);
    forall s | Derivable(lib, keys, TweaksAt(tweaks, t), s)
      ensures Derivable(lib, keys, TweaksAt(AddTweaks(tweaks, added), t), s)
    {
    }
  }

  /** A tapret descriptor: its keys at every terminal, and the tweaks recorded so far. */
  class TapretKey {
    const keys: Terminal -> seq<Bytes>
    var tweaks: Tweaks

    constructor (keys: Terminal -> seq<Bytes>)
      ensures this.keys == keys && tweaks == map[]
    {
      this.keys := keys;
      tweaks := map[];
    }

    method AddTapretTweak(t: Terminal, tweak: TapretCommitment)
      modifies this
      ensures tweaks == AddTweak(old(tweaks), t, tweak)
    {
      var entry := if t in tweaks then tweaks[t] else {};
      tweaks := tweaks[t := entry + {tweak}];
    }

    /* The tweaked scripts of one key. */
    method DeriveTweaked(lib: CommitLibrary, key: Bytes, t: Terminal, before: seq<DerivedScript>)
      returns (scripts: seq<DerivedScript>)
      ensures forall s :: s in scripts <==> s in before || IsTweaked(lib, key, TweaksAt(tweaks, t), s)
    {
      scripts := before;
      var rest := if t in tweaks then tweaks[t] else {};
      while rest != {}
        invariant rest <= TweaksAt(tweaks, t)
        invariant forall s :: s in scripts <==> s in before || IsTweaked(lib, key, TweaksAt(tweaks, t) - rest, s)
      {
        var tweak :| tweak in rest;
        ghost var was := scripts;
        scripts := scripts + [TaprootScript(key, lib.leafScript(tweak))];
        assert forall s :: s in scripts <==> s in was || s == TaprootScript(key, lib.leafScript(tweak));
        rest := rest - {tweak};
      }
    }

    /** All scripts of a terminal. */
    method Derive(lib: CommitLibrary, t: Terminal) returns (scripts: seq<DerivedScript>)
      ensures forall s :: s in scripts <==> Derivable(lib, keys(t), TweaksAt(tweaks, t), s)
    {
      scripts := [];
      var derived := keys(t);
      var i := 0;
      while i < |derived|
        invariant 0 <= i <= |derived|
        invariant forall s :: s in scripts <==> Derivable(lib, derived[..i], TweaksAt(tweaks, t), s)
      {
        var key := derived[i];
        assert forall k :: k in derived[..i + 1] <==> k in derived[..i] || k == key by {
          assert derived[..i + 1] == derived[..i] + [key];
        }
        scripts := DeriveTweaked(lib, key, t, scripts + [TaprootKeyOnly(key)]);
        i := i + 1;
      }
      assert derived[..i] == derived;
    }
  }

  datatype CompletionError =
    | NoContract
    | CommitFailed(commit: CommitError)
    | TapretFailed(tapret: TapretError)
    | InconclusiveDerivation
    | StockRefused

  /** Whether the stock consumes the committed bundles, and whether it then makes a transfer of the contract. */
  datatype StockVerdict = StockVerdict(consumes: Fascia -> bool, consigns: (ContractId, Fascia) -> bool) {
    predicate Accepts(c: ContractId, fascia: Fascia) {
      consumes(fascia) && consigns(c, fascia)
    }
  }

  /* The committed output still is the first that can host. */
  lemma CommittedStaysProper(lib: CommitLibrary, given: seq<OutState>, random: U64)
    requires Committable(lib, given, TapretFirst, random)
    ensures ProperIndex(AfterCommit(lib, given, TapretFirst, random), TapretFirst) == ProperIndex(given, TapretFirst)
  {
    var d := ProperIndex(given, TapretFirst);
    var after := AfterCommit(lib, given, TapretFirst, random);
    assert after[d].CanHost(TapretFirst) by { CommitOutputCommitsTo(lib, given[d], TapretFirst, random); }
    hide CommitOutput;
    assert forall j :: 0 <= j < d ==> after[j] == given[j];
  }

  /* A script carrying a tapret commitment is derivable where its internal key and the commitment are recorded. */
  lemma CarriedIsOwned(lib: CommitLibrary, o: OutState, keys: seq<Bytes>, tweaks: set<TapretCommitment>)
    requires CarriesCommitment(lib, o, TapretFirst)
    requires o.internalKey.value in keys && o.ReadTapretCommitment().value in tweaks
    ensures Owns(lib, keys, tweaks, o.script)
  {
    var tweak := o.ReadTapretCommitment().value;
    var s := TaprootScript(o.internalKey.value, lib.leafScript(tweak));
    assert Derivable(lib, keys, tweaks, s) && ScriptPubkey(lib, s) == o.script;
  }

  /**
   * The tapret host on change, before and after the commit: its tweak is recorded at the one terminal it was given. If
   * the internal key it had is one of the keys there, the wallet owns it after the commit.
   */
  ghost predicate ChangeRecorded(lib: CommitLibrary, host: OutState, change: OutState, keys: Terminal -> seq<Bytes>,
                                 before: Tweaks, after: Tweaks)
  {
    && CarriesCommitment(lib, change, TapretFirst) && SameKeyAndTerminals(host, change)
    && exists t :: IsOnlyTerminal(host, t) && RecordedAt(lib, host, change, t, keys, before, after)
  }

  ghost predicate RecordedAt(lib: CommitLibrary, host: OutState, change: OutState, t: Terminal,
                             keys: Terminal -> seq<Bytes>, before: Tweaks, after: Tweaks)
    requires CarriesCommitment(lib, change, TapretFirst) && SameKeyAndTerminals(host, change)
  {
    && after == AddTweak(before, t, TapretCommitment(change.proprietary[MpcCommitmentKey()], 0))
    && (host.internalKey.value in keys(t) ==> Owns(lib, keys(t), TweaksAt(after, t), change.script))
  }

  /* Records the tweak of a committed output at the terminal of the output. */
  method RecordTweak(output: Output, descriptor: TapretKey, ghost lib: CommitLibrary, ghost host: OutState)
    returns (r: Result<(), CompletionError>)
    requires CarriesCommitment(lib, output.View(), TapretFirst) && SameKeyAndTerminals(host, output.View())
    modifies descriptor
    ensures r.Ok? ==> ChangeRecorded(lib, host, output.View(), descriptor.keys, old(descriptor.tweaks),
                                     descriptor.tweaks)
    ensures r.Err? <==> forall t :: !IsOnlyTerminal(host, t)
    ensures r.Err? ==> r.error == InconclusiveDerivation && descriptor.tweaks == old(descriptor.tweaks)
  {
    var all := output.bip32Terminals + output.tapTerminals;
    assert forall u :: u in all <==> u in host.bip32Terminals || u in host.tapTerminals;
    if all == [] || exists i :: 0 <= i < |all| && all[i] != all[0] {
      if all != [] {
        var i :| 0 <= i < |all| && all[i] != all[0];
        assert all[i] in all && all[0] in all;
      }
      return Err(InconclusiveDerivation);
    }
    assert IsOnlyTerminal(host, all[0]);
    var data := output.proprietary[TapretCommitmentKey()];
    descriptor.AddTapretTweak(all[0], TapretCommitment(data[..32], data[32]));
    if output.internalKey.value in descriptor.keys(all[0]) {
      CarriedIsOwned(lib, output.View(), descriptor.keys(all[0]), TweaksAt(descriptor.tweaks, all[0]));
    }
    assert RecordedAt(lib, host, output.View(), all[0], descriptor.keys, old(descriptor.tweaks), descriptor.tweaks);
    r := Ok(());
  }

  /* After `rgb_commit` returned a tapret proof the first suitable output is still the same, and it carries the
     commitment. */
  lemma TapretCommitCarries(opLib: Library, lib: CommitLibrary, store: KeyMap, views: seq<OutState>, modifiable: bool,
                            random: U64, views': seq<OutState>, block: Bytes, proof: DbcProof)
    requires IsCommitOf(opLib, lib, store, views, modifiable, random, views', block, proof) && proof.TapretDbc?
    ensures ProperIndex(views', TapretFirst) == ProperIndex(views, TapretFirst) < |views'| == |views|
    ensures CarriesCommitment(lib, views'[ProperIndex(views', TapretFirst)], TapretFirst)
  {
    hide BundlesReady, AcceptsMessages, DueMessages, CarriesCommitment;
    assert ReadCloseMethod(store).value.value == TapretFirst;
    hide CommitOutput;
    var given := AfterMessages(lib, store, views);
    CommittedStaysProper(lib, given, random);
    CommitOutputCommitsTo(lib, given[ProperIndex(given, TapretFirst)], TapretFirst, random);
    assert forall i :: 0 <= i < |views| ==> (given[i].CanHost(TapretFirst) <==> views[i].CanHost(TapretFirst));
  }

  /* A tapret host was put on change. */
  predicate HostOnChange(store: KeyMap) {
    ReadCloseMethod(store) == Ok(Some(TapretFirst)) && TapretHostOnChangeKey() in store
  }

  /* The host on change has no single terminal to record the tweak at. */
  ghost predicate Inconclusive(store: KeyMap, views: seq<OutState>) {
    && HostOnChange(store)
    && ProperIndex(views, TapretFirst) < |views|
    && forall t :: !IsOnlyTerminal(views[ProperIndex(views, TapretFirst)], t)
  }

  /** What a commit does to the tweaks of the wallet: that of a host on change is recorded, nothing else is. */
  ghost predicate TweaksAfterCommit(lib: CommitLibrary, store: KeyMap, views: seq<OutState>, views': seq<OutState>,
                                    keys: Terminal -> seq<Bytes>, before: Tweaks, after: Tweaks)
  {
    if HostOnChange(store) && !Inconclusive(store, views) then
      var d := ProperIndex(views, TapretFirst);
      d < |views| == |views'| && ChangeRecorded(lib, views[d], views'[d], keys, before, after)
    else after == before
  }

  /* The proof is of the kind of the close method. */
  lemma ProofKind(opLib: Library, lib: CommitLibrary, store: KeyMap, views: seq<OutState>, modifiable: bool,
                  random: U64, views': seq<OutState>, block: Bytes, proof: DbcProof)
    requires IsCommitOf(opLib, lib, store, views, modifiable, random, views', block, proof)
    ensures proof.TapretDbc? <==> ReadCloseMethod(store) == Ok(Some(TapretFirst))
  {
    hide BundlesReady, AcceptsMessages, DueMessages, Given;
  }

  /**
   * Commits the PSBT, records the tweak of a tapret host on change, and hands the bundles to the stock. `fascia` is
   * what was committed, if it was, also when the stock refuses it afterwards: then the tweak stays recorded.
   */
  method Transfer(psbt: Psbt, contractId: Option<ContractId>, descriptor: TapretKey, random: U64, stock: StockVerdict)
    returns (r: Result<Fascia, CompletionError>, ghost fascia: Option<Fascia>)
    requires psbt.Valid()
    modifies psbt.outputs, descriptor
    ensures AllKept(old(psbt.Views()), psbt.Views())
    ensures contractId.None? ==> r == Err(NoContract) && fascia.None? && psbt.Views() == old(psbt.Views())
    ensures contractId.Some? ==>
              (fascia.Some? <==> CommitSucceeds(psbt.lib, psbt.commitLib, psbt.proprietary, old(psbt.Views()),
                                                psbt.outputsModifiable, random))
    ensures fascia.Some? ==>
              && AreBundlesOf(psbt.lib, psbt.proprietary, fascia.value.bundles)
              && IsCommitOf(psbt.lib, psbt.commitLib, psbt.proprietary, old(psbt.Views()), psbt.outputsModifiable,
                            random, psbt.Views(), fascia.value.block, fascia.value.proof)
              && TweaksAfterCommit(psbt.commitLib, psbt.proprietary, old(psbt.Views()), psbt.Views(), descriptor.keys,
                                   old(descriptor.tweaks), descriptor.tweaks)
    ensures fascia.None? ==> descriptor.tweaks == old(descriptor.tweaks)
    ensures contractId.Some? && fascia.None? ==> r.Err? && r.error.CommitFailed?
    ensures contractId.Some? && fascia.Some? ==>
              r == if Inconclusive(psbt.proprietary, old(psbt.Views())) then Err(InconclusiveDerivation)
                   else if !stock.Accepts(contractId.value, fascia.value) then Err(StockRefused)
                   else Ok(fascia.value)
  {
    hide AllKept, AreBundlesOf, CommitSucceeds, IsCommitOf, CarriesCommitment, ChangeRecorded, IsOnlyTerminal,
      SameKeyAndTerminals;
    fascia := None;
    AllKeptSame(psbt.Views());
    if contractId.None? {
      return Err(NoContract), fascia;
    }
    var committed := psbt.RgbCommit(random);
    if committed.Err? {
      return Err(CommitFailed(committed.error)), fascia;
    }
    fascia := Some(committed.value);
    ProofKind(psbt.lib, psbt.commitLib, psbt.proprietary, old(psbt.Views()), psbt.outputsModifiable, random,
              psbt.Views(), committed.value.block, committed.value.proof);
    if committed.value.proof.TapretDbc? && TapretHostOnChangeKey() in psbt.proprietary {
      TapretCommitCarries(psbt.lib, psbt.commitLib, psbt.proprietary, old(psbt.Views()), psbt.outputsModifiable, random,
                          psbt.Views(), committed.value.block, committed.value.proof);
      var found := psbt.DbcOutput(TapretFirst);
      if found.None? {
        return Err(TapretFailed(NotTaprootOutput)), fascia;
      }
      CommitKeepsKeys(psbt.lib, psbt.commitLib, psbt.proprietary, old(psbt.Views()), psbt.outputsModifiable, random,
                      psbt.Views(), committed.value.block, committed.value.proof);
      var recorded := RecordTweak(psbt.outputs[found.value], descriptor, psbt.commitLib,
                                  old(psbt.Views())[found.value]);
      if recorded.Err? {
        return Err(recorded.error), fascia;
      }
    }
    if !stock.consumes(committed.value) || !stock.consigns(contractId.value, committed.value) {
      return Err(StockRefused), fascia;
    }
    r := Ok(committed.value);
  }

  /** A bundle of a received transfer with its inputs, and the proofs of its commitment. */
  datatype AnchoredBundle = AnchoredBundle(witnessId: Id, proof: DbcProof, mpcProof: Bytes,
                                           inputMap: map<Opout, OpId>) {
    /* The commitment that the MPC proof leads to from the message of the contract. */
    function Commitment(lib: CommitLibrary, c: ContractId): Option<Id> {
      lib.convolve(mpcProof, c, lib.bundleId(inputMap))
    }
  }

  /* The first bundle of the transaction. */
  function FindBundle(bundles: seq<AnchoredBundle>, txid: Id): Option<AnchoredBundle> {
    if bundles == [] then None
    else if bundles[0].witnessId == txid then Some(bundles[0])
    else FindBundle(bundles[1..], txid)
  }

  /** The bundle found is one of the transaction, and none before it is. */
  lemma FindBundleIsFirst(bundles: seq<AnchoredBundle>, txid: Id)
    ensures match FindBundle(bundles, txid)
            case Some(b) => exists i :: 0 <= i < |bundles| && bundles[i] == b && IsFirstOf(bundles, txid, i)
            case None => forall i :: 0 <= i < |bundles| ==> bundles[i].witnessId != txid
  {
    if bundles != [] && bundles[0].witnessId != txid {
      FindBundleIsFirst(bundles[1..], txid);
      if FindBundle(bundles, txid).Some? {
        var i :| 0 <= i < |bundles[1..]| && bundles[1..][i] == FindBundle(bundles, txid).value
                 && IsFirstOf(bundles[1..], txid, i);
        assert forall j :: 0 <= j < i ==> bundles[j + 1] == bundles[1..][j];
        assert bundles[i + 1] == FindBundle(bundles, txid).value && IsFirstOf(bundles, txid, i + 1);
      }
    } else if bundles != [] {
      assert IsFirstOf(bundles, txid, 0);
    }
  }

  ghost predicate IsFirstOf(bundles: seq<AnchoredBundle>, txid: Id, i: nat)
    requires i < |bundles|
  {
    bundles[i].witnessId == txid && forall j :: 0 <= j < i ==> bundles[j].witnessId != txid
  }

  /* Derivation indexes are searched below the next index, which is cut to 16 bits. */
  function SearchBound(next: nat): nat {
    next % 0x1_0000
  }

  /** The next index in 16 bits. */
  lemma SearchBoundIsTruncated(next: nat)
    ensures 0 <= SearchBound(next) <= 0xFFFF && exists n: nat :: next == SearchBound(next) + 65536 * n
  {
    assert next == SearchBound(next) + 65536 * (next / 65536);
  }

  ghost predicate HasKeyAt(keys: Terminal -> seq<Bytes>, next: Byte -> nat, t: Terminal, key: Bytes) {
    t.index < SearchBound(next(t.keychain)) && key in keys(t)
  }

  /* A terminal of these keychains, below the next index of its keychain, has the key. */
  ghost predicate Derived(keys: Terminal -> seq<Bytes>, keychains: seq<Byte>, next: Byte -> nat, key: Bytes) {
    exists t: Terminal :: t.keychain in keychains && t.index < next(t.keychain) && key in keys(t)
  }

  /* The search range has a terminal of these keychains with the key. */
  ghost predicate Searched(keys: Terminal -> seq<Bytes>, keychains: seq<Byte>, next: Byte -> nat, key: Bytes) {
    exists t: Terminal :: t.keychain in keychains && HasKeyAt(keys, next, t, key)
  }

  /* A key at one terminal only: the first of a keychain that the search range leaves out. */
  function MissedKeys(k: Byte, next: nat, key: Bytes): Terminal -> seq<Bytes> {
    (t: Terminal) => if t == Terminal(k, SearchBound(next)) then [key] else []
  }

  lemma MissedIsMissed(keychains: seq<Byte>, next: Byte -> nat, k: Byte, key: Bytes)
    requires k in keychains && next(k) > 0xFFFF
    ensures Derived(MissedKeys(k, next(k), key), keychains, next, key)
    ensures !Searched(MissedKeys(k, next(k), key), keychains, next, key)
  {
    var keys, t := MissedKeys(k, next(k), key), Terminal(k, SearchBound(next(k)));
    assert key in keys(t) && t.index < next(t.keychain);
    assert forall u: Terminal :: key in keys(u) ==> u == t;
  }

  /** The search finds every derived key, whatever the keys are, if and only if no next index needs over 16 bits. */
  lemma SearchIsCompleteIff(keychains: seq<Byte>, next: Byte -> nat, key: Bytes)
    ensures (forall keys :: Searched(keys, keychains, next, key) <==> Derived(keys, keychains, next, key))
            <==> forall k :: k in keychains ==> next(k) <= 0xFFFF
  {
    if forall keys :: Searched(keys, keychains, next, key) <==> Derived(keys, keychains, next, key) {
      forall k | k in keychains ensures next(k) <= 0xFFFF {
        if next(k) > 0xFFFF { MissedIsMissed(keychains, next, k, key); }
      }
    }
    if forall k :: k in keychains ==> next(k) <= 0xFFFF {
      forall keys ensures Searched(keys, keychains, next, key) <==> Derived(keys, keychains, next, key) {
        assert forall t: Terminal :: t.keychain in keychains ==> SearchBound(next(t.keychain)) == next(t.keychain);
      }
    }
  }

  /** With 65536 as next index nothing is searched, and the key of the first terminal is missed. */
  lemma WrappedSearchExample(key: Bytes)
    ensures SearchBound(65536) == 0
    ensures Derived(MissedKeys(0, 65536, key), [0], (_) => 65536, key)
    ensures !Searched(MissedKeys(0, 65536, key), [0], (_) => 65536, key)
  {
    MissedIsMissed([0], (_) => 65536, 0, key);
  }

  /* The largest index of a keychain whose scripts have the internal key. */
  method FindIndex(descriptor: TapretKey, lib: CommitLibrary, keychain: Byte, bound: nat, key: Bytes)
    returns (r: Option<nat>)
    ensures r.Some? ==> r.value < bound && key in descriptor.keys(Terminal(keychain, r.value))
    ensures r.Some? ==> forall i :: r.value < i < bound ==> key !in descriptor.keys(Terminal(keychain, i))
    ensures r.None? ==> forall i :: 0 <= i < bound ==> key !in descriptor.keys(Terminal(keychain, i))
  {
    var i := bound;
    while i > 0
      invariant 0 <= i <= bound
      invariant forall j :: i <= j < bound ==> key !in descriptor.keys(Terminal(keychain, j))
    {
      i := i - 1;
      var t := Terminal(keychain, i);
      var scripts := descriptor.Derive(lib, t);
      if exists k :: 0 <= k < |scripts| && scripts[k].key == key {
        ghost var s :| s in scripts && s.key == key;
        assert Derivable(lib, descriptor.keys(t), TweaksAt(descriptor.tweaks, t), s);
        return Some(i);
      }
      assert TaprootKeyOnly(key) in scripts <==> key in descriptor.keys(t);
      assert TaprootKeyOnly(key) !in scripts;
    }
    r := None;
  }

  /**
   * Looks for the terminal of a received tapret output, keychain by keychain. It fails exactly when the transaction has
   * no tapret bundle or no terminal in the search range has the internal key; otherwise the wallet owns the output.
   */
  method TryAddTapretTweak(lib: CommitLibrary, descriptor: TapretKey, keychains: seq<Byte>, next: Byte -> nat,
                           contractId: ContractId, bundles: seq<AnchoredBundle>, txid: Id)
    returns (r: Option<Terminal>)
    requires keychains != [] && FindBundle(bundles, txid).Some? && FindBundle(bundles, txid).value.proof.TapretDbc? ==>
               FindBundle(bundles, txid).value.Commitment(lib, contractId).Some?
    modifies descriptor
    ensures r.None? ==> descriptor.tweaks == old(descriptor.tweaks)
    ensures r.Some? <==>
              && FindBundle(bundles, txid).Some? && FindBundle(bundles, txid).value.proof.TapretDbc?
              && Searched(descriptor.keys, keychains, next, FindBundle(bundles, txid).value.proof.proof.internalKey)
    ensures r.Some? ==> IsFound(lib, descriptor.keys, keychains, next, contractId, FindBundle(bundles, txid).value,
                                r.value, old(descriptor.tweaks), descriptor.tweaks)
  {
    var i := 0;
    while i < |keychains|
      invariant 0 <= i <= |keychains| && descriptor.tweaks == old(descriptor.tweaks)
      invariant FindBundle(bundles, txid).Some? && FindBundle(bundles, txid).value.proof.TapretDbc? ==>
                  forall t: Terminal :: t.keychain in keychains[..i] ==>
                    !HasKeyAt(descriptor.keys, next, t, FindBundle(bundles, txid).value.proof.proof.internalKey)
    {
      var keychain := keychains[i];
      assert keychains[..i + 1] == keychains[..i] + [keychain];
      var found := FindBundle(bundles, txid);
      if found.Some? && found.value.proof.TapretDbc? {
        var tapret := found.value.proof.proof;
        var index := FindIndex(descriptor, lib, keychain, SearchBound(next(keychain)), tapret.internalKey);
        if index.Some? {
          assert NoneHasKey(descriptor.keys, keychains[..i], next, tapret.internalKey);
          var t := Terminal(keychain, index.value);
          var tweak := TapretCommitment(found.value.Commitment(lib, contractId).value, tapret.nonce);
          descriptor.AddTapretTweak(t, tweak);
          assert HasKeyAt(descriptor.keys, next, t, tapret.internalKey);
          ghost var s := TaprootScript(tapret.internalKey, lib.leafScript(tweak));
          assert Derivable(lib, descriptor.keys(t), TweaksAt(descriptor.tweaks, t), s);
          assert ScriptPubkey(lib, s) == TweakedScript(lib, tapret.internalKey, tweak);
          return Some(t);
        }
        forall t: Terminal | t.keychain == keychain
          ensures !HasKeyAt(descriptor.keys, next, t, tapret.internalKey)
        {
          assert t == Terminal(keychain, t.index);
        }
      }
      i := i + 1;
    }
    assert keychains[..i] == keychains;
    r := None;
  }

  /* The script of an internal key with a tapret commitment as its only leaf. */
  function TweakedScript(lib: CommitLibrary, key: Bytes, tweak: TapretCommitment): Script {
    P2tr(lib.taprootProgram(key, Some(lib.merkleRoot(lib.leafScript(tweak)))))
  }

  /**
   * The terminal found is the last with the key in the first keychain that has one. The tweak is the commitment that
   * the
   * proof, the contract and the bundle lead to, and with it the wallet owns the output.
   */
  ghost predicate IsFound(lib: CommitLibrary, keys: Terminal -> seq<Bytes>, keychains: seq<Byte>, next: Byte -> nat,
                          contractId: ContractId, bundle: AnchoredBundle, t: Terminal, before: Tweaks, after: Tweaks)
  {
    && bundle.proof.TapretDbc?
    && var commitment := lib.convolve(bundle.mpcProof, contractId, lib.bundleId(bundle.inputMap));
    && commitment.Some?
    && var tweak := TapretCommitment(commitment.value, bundle.proof.proof.nonce);
    && var key := bundle.proof.proof.internalKey;
    && HasKeyAt(keys, next, t, key)
    && (exists i :: 0 <= i < |keychains| && keychains[i] == t.keychain && NoneHasKey(keys, keychains[..i], next, key))
    && (forall u: Terminal :: u.keychain == t.keychain && HasKeyAt(keys, next, u, key) ==> u.index <= t.index)
    && after == AddTweak(before, t, tweak)
    && Owns(lib, keys(t), TweaksAt(after, t), TweakedScript(lib, key, tweak))
  }

  ghost predicate NoneHasKey(keys: Terminal -> seq<Bytes>, keychains: seq<Byte>, next: Byte -> nat, key: Bytes) {
    forall t: Terminal :: t.keychain in keychains ==> !HasKeyAt(keys, next, t, key)
  }

  /** The proof for a protocol of a tree leads from its message to the commitment. */
  ghost predicate ProofsConvolve(lib: CommitLibrary) {
    forall source, random, p :: lib.mpcTree(source, random).Some? && p in source.messages ==>
      var tree := lib.mpcTree(source, random).value;
      lib.convolve(lib.proofFor(tree.block, p), p, source.messages[p]) == Some(tree.commitment)
  }

  /**
   * What the sender commits the receiver recognises: if the message of the contract is the id of the bundle, and the
   * proofs are those of the committed output, the script that the receiver finds is the script of that output.
   */
  lemma ReceivedIsSent(lib: CommitLibrary, before: OutState, o: OutState, messages: map<Id, Id>, block: Bytes,
                       random: U64, contractId: ContractId, bundle: AnchoredBundle)
    requires ProofsConvolve(lib) && Covers(lib, before, o, TapretFirst, messages, block, random)
    requires contractId in messages && messages[contractId] == lib.bundleId(bundle.inputMap)
    requires bundle.proof == TapretDbc(TapretProof(o.internalKey.value, 0))
    requires bundle.mpcProof == lib.proofFor(block, contractId)
    ensures lib.convolve(bundle.mpcProof, contractId, lib.bundleId(bundle.inputMap)).Some?
    ensures var commitment := lib.convolve(bundle.mpcProof, contractId, lib.bundleId(bundle.inputMap)).value;
      o.script == TweakedScript(lib, bundle.proof.proof.internalKey,
                                TapretCommitment(commitment, bundle.proof.proof.nonce))
  {
    hide ReadMessages, GivesDepth, GivesEntropy;
  }
}
