/** What committing to a PSBT must do to its outputs, as values, and what a commitment covers. */
module Commitment {
  import opened Base
  import opened Protocol
  import opened Store
  import opened OutputState
  import opened OutputEffects
  import opened Bundles

  datatype DbcProof = OpretDbc | TapretDbc(proof: TapretProof)

  datatype DbcError =
    | NoProperOutput(closeMethod: CloseMethod)
    | TxOutputsModifiable
    | DbcMpc(mpc: MpcError)
    | DbcTapret(tapret: TapretError)
    | DbcOpret(opret: OpretError)

  datatype CommitError = RgbFailure(rgb: RgbError) | DbcFailure(dbc: DbcError)

  /** The committed witness: output scripts, the MPC proof, the commitment proof and the bundles. */
  datatype Fascia = Fascia(
    scripts: seq<Script>,
    block: Bytes,
    proof: DbcProof,
    bundles: map<ContractId, TransitionBundle>)

  /* The first output marked as host, or the number of outputs. */
  function HostIndex(views: seq<OutState>, how: CloseMethod): (i: nat)
    ensures i <= |views|
    ensures i < |views| ==> views[i].Has(HostKey(how))
    ensures forall j :: 0 <= j < i ==> !views[j].Has(HostKey(how))
  {
    FirstIndex(views, (v: OutState) => v.Has(HostKey(how)))
  }

  /* The first output whose script can carry the commitment, or the number of outputs. */
  function ProperIndex(views: seq<OutState>, how: CloseMethod): (i: nat)
    ensures i <= |views|
    ensures i < |views| ==> views[i].CanHost(how)
    ensures forall j :: 0 <= j < i ==> !views[j].CanHost(how)
  {
    FirstIndex(views, (v: OutState) => v.CanHost(how))
  }

  /* The script that an opret or tapret commitment puts on its output. */
  function OpretScript(o: OutState): Script
    requires o.Has(OpretCommitmentKey())
  {
    OpReturn(o.proprietary[OpretCommitmentKey()])
  }

  function TapretScript(lib: CommitLibrary, o: OutState): Script
    requires o.internalKey.Some? && o.tapTree.Some?
  {
    P2tr(lib.taprootProgram(o.internalKey.value, Some(lib.merkleRoot(o.tapTree.value))))
  }

  /** MPC commitment, then opret or tapret commitment, then the script. */
  function CommitOutput(lib: CommitLibrary, o: OutState, how: CloseMethod, random: U64)
    : (OutState, Result<(Bytes, DbcProof), DbcError>)
  {
    var (o1, r1) := MpcCommit(lib, o, random);
    if r1.Err? then (o1, Err(DbcMpc(r1.error)))
    else
      match how
      case OpretFirst =>
        var (o2, r2) := OpretCommit(o1, r1.value.0);
        if r2.Err? then (o2, Err(DbcOpret(r2.error)))
        else (o2.(script := OpretScript(o2)), Ok((r1.value.1, OpretDbc)))
      case TapretFirst =>
        var (o2, r2) := TapretCommit(lib, o1, r1.value.0);
        if r2.Err? then (o2, Err(DbcTapret(r2.error)))
        else (o2.(script := TapretScript(lib, o2)), Ok((r1.value.1, TapretDbc(r2.value))))
  }

  lemma CommitOutputKeepsCommittedData(lib: CommitLibrary, o: OutState, how: CloseMethod, random: U64)
    ensures CommittedDataKept(o, CommitOutput(lib, o, how, random).0)
  {
    MpcCommitKeepsCommittedData(lib, o, random);
    var (o1, r1) := MpcCommit(lib, o, random);
    if r1.Ok? {
      OpretCommitKeepsCommittedData(o1, r1.value.0);
      TapretCommitKeepsCommittedData(lib, o1, r1.value.0);
    }
  }

  /** The message of each contract is the id of its bundle. */
  function BundleMessages(lib: CommitLibrary, bundles: map<ContractId, TransitionBundle>): map<Id, Id> {
    map c | c in bundles :: lib.bundleId(bundles[c].inputMap)
  }

  function MessageEntries(messages: map<Id, Id>): KeyMap {
    map c | c in messages :: MpcMessageKey(c) := messages[c]
  }

  /** The messages due for a store: every contract with the id of the bundle of all its consumers. */
  ghost function DueMessages(lib: CommitLibrary, store: KeyMap): map<Id, Id> {
    if ReadContractIds(store).Ok? then
      map c | c in ReadContractIds(store).value && ReadConsumers(store, c).Ok? ::
        lib.bundleId(ReadConsumers(store, c).value)
    else map[]
  }

  lemma BundlesGiveDueMessages(lib: CommitLibrary, opLib: Library, store: KeyMap,
                               bundles: map<ContractId, TransitionBundle>)
    requires AreBundlesOf(opLib, store, bundles)
    ensures BundleMessages(lib, bundles) == DueMessages(lib, store)
  {
    assert forall c :: c in bundles ==> IsBundleOf(opLib, store, c, bundles[c]);
  }

  /** One message for each bundle, its contract with the id of its inputs. */
  ghost predicate AreBundleIds(lib: CommitLibrary, bundles: map<ContractId, TransitionBundle>, messages: map<Id, Id>) {
    messages.Keys == bundles.Keys && forall c :: c in bundles ==> messages[c] == lib.bundleId(bundles[c].inputMap)
  }

  lemma DueAreBundleIds(lib: CommitLibrary, opLib: Library, store: KeyMap, bundles: map<ContractId, TransitionBundle>)
    requires AreBundlesOf(opLib, store, bundles)
    ensures AreBundleIds(lib, bundles, DueMessages(lib, store))
  {
    hide DueMessages, AreBundlesOf;
    BundlesGiveDueMessages(lib, opLib, store, bundles);
  }

  lemma DueContracts(lib: CommitLibrary, opLib: Library, store: KeyMap, bundles: map<ContractId, TransitionBundle>)
    requires AreBundlesOf(opLib, store, bundles)
    ensures DueMessages(lib, store).Keys == bundles.Keys && |DueMessages(lib, store)| == |bundles|
  {
  }

  /* The output after it was given the messages. */
  function Given(o: OutState, messages: map<Id, Id>): OutState {
    o.(proprietary := o.proprietary + MessageEntries(messages))
  }

  ghost predicate NoMessages(o: OutState) {
    forall k :: k in o.proprietary ==> !IsMessageKey(k)
  }

  /* A message already present for one of the contracts is the same message. */
  ghost predicate Agrees(o: OutState, messages: map<Id, Id>) {
    forall c :: c in messages && o.Has(MpcMessageKey(c)) ==> o.proprietary[MpcMessageKey(c)] == messages[c]
  }

  /** An output that has no MPC commitment accepts any messages that agree with those it has. */
  ghost predicate AcceptsMessages(o: OutState, messages: map<Id, Id>) {
    (messages == map[] || !o.Has(MpcCommitmentKey())) && Agrees(o, messages)
  }

  lemma GivenNothing(o: OutState)
    ensures Given(o, map[]) == o && AcceptsMessages(o, map[])
  {
  }

  lemma GivenKeepsCommittedData(o: OutState, messages: map<Id, Id>)
    requires AcceptsMessages(o, messages)
    ensures CommittedDataKept(o, Given(o, messages))
  {
  }

  /* One more message is accepted exactly when it agrees, and then it has been given. */
  lemma MessageGiven(o: OutState, messages: map<Id, Id>, c: Id, m: Id)
    requires AcceptsMessages(o, messages) && c !in messages
    ensures SetMpcMessage(Given(o, messages), c, m).1.Ok? <==> AcceptsMessages(o, messages[c := m])
    ensures SetMpcMessage(Given(o, messages), c, m).1.Ok? ==>
              SetMpcMessage(Given(o, messages), c, m).0 == Given(o, messages[c := m])
    ensures SetMpcMessage(Given(o, messages), c, m).1.Err? ==>
              SetMpcMessage(Given(o, messages), c, m).0 == Given(o, messages)
  {
    GiveOneMore(o, messages, c, m);
    var g := Given(o, messages);
    assert MpcMessageKey(c) !in MessageEntries(messages) && MpcCommitmentKey() !in MessageEntries(messages);
    assert c in messages[c := m];
    if g.Has(MpcMessageKey(c)) && g.proprietary[MpcMessageKey(c)] == m {
      assert g.With(MpcMessageKey(c), m).proprietary == g.proprietary;
    }
  }

  lemma AcceptsFewer(o: OutState, messages: map<Id, Id>, fewer: map<Id, Id>)
    requires AcceptsMessages(o, messages)
    requires forall c :: c in fewer ==> c in messages && messages[c] == fewer[c]
    ensures AcceptsMessages(o, fewer)
  {
  }

  /** The bundles can be made and handed to a host: when `rgb_bundles_to_mpc` succeeds. */
  ghost predicate MessagesDue(opLib: Library, lib: CommitLibrary, store: KeyMap, views: seq<OutState>) {
    && BundlesReady(opLib, store)
    && ReadCloseMethod(store).Ok? && ReadCloseMethod(store).value.Some?
    && var h := HostIndex(views, ReadCloseMethod(store).value.value);
    && h < |views|
    && AcceptsMessages(views[h], DueMessages(lib, store))
    && 1 <= |DueMessages(lib, store)| <= 0xFF_FFFF
  }

  /** The outputs once the host has the messages. */
  ghost function AfterMessages(lib: CommitLibrary, store: KeyMap, views: seq<OutState>): seq<OutState>
    requires ReadCloseMethod(store).Ok? && ReadCloseMethod(store).value.Some?
    requires HostIndex(views, ReadCloseMethod(store).value.value) < |views|
  {
    var h := HostIndex(views, ReadCloseMethod(store).value.value);
    views[h := Given(views[h], DueMessages(lib, store))]
  }

  /** No output lost committed data. */
  ghost predicate AllKept(views: seq<OutState>, views': seq<OutState>) {
    |views| == |views'| && forall i :: 0 <= i < |views| ==> CommittedDataKept(views[i], views'[i])
  }

  lemma KeptAt(views: seq<OutState>, h: nat, o: OutState)
    requires h < |views| && CommittedDataKept(views[h], o)
    ensures AllKept(views, views[h := o])
  {
  }

  lemma AllKeptSame(views: seq<OutState>)
    ensures AllKept(views, views)
  {
  }

  lemma AllKeptTransitive(a: seq<OutState>, b: seq<OutState>, c: seq<OutState>)
    requires AllKept(a, b) && AllKept(b, c)
    ensures AllKept(a, c)
  {
  }

  lemma MessageEntriesUpdate(messages: map<Id, Id>, c: Id, m: Id)
    ensures MessageEntries(messages)[MpcMessageKey(c) := m] == MessageEntries(messages[c := m])
  {
  }

  lemma GiveOneMore(o: OutState, messages: map<Id, Id>, c: Id, m: Id)
    ensures Given(o, messages).With(MpcMessageKey(c), m) == Given(o, messages[c := m])
  {
    hide MessageEntries, MpcMessageKey;
    MessageEntriesUpdate(messages, c, m);
    PlusUpdate(o.proprietary, MessageEntries(messages), MpcMessageKey(c), m);
  }

  lemma PlusUpdate<K, V>(a: map<K, V>, b: map<K, V>, k: K, v: V)
    ensures (a + b)[k := v] == a + b[k := v]
  {
  }

  /* Every message of the output is for one of these contracts. */
  ghost predicate OnlyFor(o: OutState, messages: map<Id, Id>) {
    forall k :: k in o.proprietary && IsMessageKey(k) ==> exists c :: c in messages && k == MpcMessageKey(c)
  }

  lemma NoMessagesOnlyFor(o: OutState, messages: map<Id, Id>)
    requires NoMessages(o)
    ensures OnlyFor(o, messages)
  {
  }

  /** An output reads exactly the messages it was given, if and only if it had none for others. */
  lemma GivenMessagesReadIff(o: OutState, messages: map<Id, Id>)
    requires ReadMessages(Given(o, messages).proprietary).Ok?
    ensures ReadMessages(Given(o, messages).proprietary) == Ok(messages) <==> OnlyFor(o, messages)
  {
    var store := Given(o, messages).proprietary;
    var read := ReadMessages(store).value;
    forall c | c in messages ensures c in read && read[c] == messages[c] {
      assert MpcMessageKey(c) in MessageEntries(messages);
      assert MpcMessageKey(c) in store && ToId(MpcMessageKey(c).key) == c;
      assert c in MessageProtocols(store);
    }
    if OnlyFor(o, messages) {
      forall c | c in read ensures c in messages {
        assert MpcMessageKey(c) in store && IsMessageKey(MpcMessageKey(c));
        assert MpcMessageKey(c) in o.proprietary || MpcMessageKey(c) in MessageEntries(messages);
      }
      assert read == messages;
    }
    if read == messages {
      forall k | k in o.proprietary && IsMessageKey(k) ensures exists c :: c in messages && k == MpcMessageKey(c) {
        assert k in store && |k.key| == 32;
        assert ToId(k.key) in MessageProtocols(store) && k == MpcMessageKey(ToId(k.key));
        assert ToId(k.key) in read;
      }
    }
  }

  /* The tree of this source is the one whose commitment, entropy and proof the output stores. */
  ghost predicate StoresTree(lib: CommitLibrary, source: MpcSource, random: U64, o: OutState, block: Bytes) {
    && lib.mpcTree(source, random).Some?
    && var tree := lib.mpcTree(source, random).value;
    && Stored(o, MpcCommitmentKey(), tree.commitment)
    && Stored(o, MpcEntropyKey(), EntropyBytes(tree.entropy))
    && Stored(o, MpcProofKey(), tree.block) && block == tree.block
  }

  /**
   * What a commitment stored in an output commits to: these messages, in the tree of the depth and the entropy that the
   * output gave.
   */
  ghost predicate CommitsTo(lib: CommitLibrary, before: OutState, after: OutState, messages: map<Id, Id>, block: Bytes,
                            random: U64) {
    && ReadMessages(after.proprietary) == Ok(messages)
    && exists depth, entropy ::
         && GivesDepth(before, depth) && GivesEntropy(before, entropy)
         && StoresTree(lib, MpcSource(depth, messages, entropy), random, after, block)
  }

  lemma SameMessages(o: OutState, o': OutState)
    requires forall k: PropKey :: IsMessageKey(k) ==>
               (k in o.proprietary <==> k in o'.proprietary)
                   && (k in o.proprietary ==> o'.proprietary[k] == o.proprietary[k])
    ensures ReadMessages(o.proprietary) == ReadMessages(o'.proprietary)
  {
    assert WellFormedMessages(o.proprietary) <==> WellFormedMessages(o'.proprietary);
    forall p ensures p in MessageProtocols(o.proprietary) <==> p in MessageProtocols(o'.proprietary) {
      if p in MessageProtocols(o.proprietary) {
        var k :| k in o.proprietary.Keys && IsMessageKey(k) && |k.key| == 32 && ToId(k.key) == p;
        assert k in o'.proprietary;
      }
      if p in MessageProtocols(o'.proprietary) {
        var k :| k in o'.proprietary.Keys && IsMessageKey(k) && |k.key| == 32 && ToId(k.key) == p;
        assert k in o.proprietary;
      }
    }
    assert MessageProtocols(o.proprietary) == MessageProtocols(o'.proprietary);
    var r, r' := ReadMessages(o.proprietary), ReadMessages(o'.proprietary);
    if r.Ok? {
      forall p ensures p in r.value <==> p in r'.value
               ensures p in r.value ==> r.value[p] == r'.value[p]
      {
        assert IsMessageKey(MpcMessageKey(p));
      }
      assert r.value == r'.value;
    }
  }

  lemma MpcCommitCommitsTo(lib: CommitLibrary, o: OutState, random: U64)
    requires MpcCommit(lib, o, random).1.Ok?
    ensures ReadMessages(o.proprietary).Ok?
    ensures CommitsTo(lib, o, MpcCommit(lib, o, random).0, ReadMessages(o.proprietary).value,
                      MpcCommit(lib, o, random).1.value.1, random)
    ensures MpcCommit(lib, o, random).0.proprietary[MpcCommitmentKey()] == MpcCommit(lib, o, random).1.value.0
  {
    hide MpcCommit, SourceOf, GivesDepth, GivesEntropy, ReadMessages, EntropyBytes;
    MpcCommitStoresTree(lib, o, random);
    MpcCommitEffect(lib, o, random);
    SameMessages(o, MpcCommit(lib, o, random).0);
    var messages := ReadMessages(o.proprietary).value;
    var source := SourceOf(o, messages);
    SourceIsOfOutput(o, messages);
    assert source == MpcSource(source.minDepth, messages, source.staticEntropy);
    assert StoresTree(lib, source, random, MpcCommit(lib, o, random).0, MpcCommit(lib, o, random).1.value.1);
  }

  /* The script of the output is the one its MPC commitment calls for. */
  ghost predicate CarriesCommitment(lib: CommitLibrary, o: OutState, how: CloseMethod) {
    && o.Has(MpcCommitmentKey()) && |o.proprietary[MpcCommitmentKey()]| == 32
    && var commitment: Id := o.proprietary[MpcCommitmentKey()];
    match how
    case OpretFirst => o.script == OpReturn(commitment)
    case TapretFirst =>
      && o.internalKey.Some?
      && o.ReadTapretCommitment() == Ok(TapretCommitment(commitment, 0))
      && o.script == P2tr(lib.taprootProgram(o.internalKey.value,
                                             Some(lib.merkleRoot(lib.leafScript(TapretCommitment(commitment, 0))))))
  }

  lemma CommitsToKept(lib: CommitLibrary, before: OutState, o: OutState, o': OutState, messages: map<Id, Id>,
                      block: Bytes, random: U64)
    requires CommitsTo(lib, before, o, messages, block, random) && SameMpcData(o, o')
    ensures CommitsTo(lib, before, o', messages, block, random)
  {
    SameMessages(o, o');
    hide GivesDepth, GivesEntropy, ReadMessages;
    var depth, entropy :| GivesDepth(before, depth) && GivesEntropy(before, entropy)
                          && StoresTree(lib, MpcSource(depth, messages, entropy), random, o, block);
    assert StoresTree(lib, MpcSource(depth, messages, entropy), random, o', block);
  }

  lemma OpretCarries(lib: CommitLibrary, o: OutState, commitment: Id)
    requires o.Has(MpcCommitmentKey()) && o.proprietary[MpcCommitmentKey()] == commitment
    requires OpretCommit(o, commitment).1.Ok?
    ensures var o' := OpretCommit(o, commitment).0;
      o.Has(OpretHostKey()) && CarriesCommitment(lib, o'.(script := OpretScript(o')), OpretFirst)
  {
  }

  lemma TapretCarries(lib: CommitLibrary, o: OutState, commitment: Id)
    requires o.Has(MpcCommitmentKey()) && o.proprietary[MpcCommitmentKey()] == commitment
    requires TapretCommit(lib, o, commitment).1.Ok?
    ensures var o' := TapretCommit(lib, o, commitment).0;
      o.Has(TapretHostKey()) && CarriesCommitment(lib, o'.(script := TapretScript(lib, o')), TapretFirst)
  {
  }

  /** A successful commit of an output commits to the messages the output had, and its script carries the commitment. */
  lemma CommitOutputCommitsTo(lib: CommitLibrary, o: OutState, how: CloseMethod, random: U64)
    requires CommitOutput(lib, o, how, random).1.Ok?
    ensures o.Has(HostKey(how))
    ensures ReadMessages(o.proprietary).Ok?
    ensures CommitsTo(lib, o, CommitOutput(lib, o, how, random).0, ReadMessages(o.proprietary).value,
                      CommitOutput(lib, o, how, random).1.value.0, random)
    ensures CarriesCommitment(lib, CommitOutput(lib, o, how, random).0, how)
  {
    hide MpcCommit, OpretCommit, TapretCommit, CommitsTo, ReadMessages, CarriesCommitment, OpretScript, TapretScript,
      CommittedDataKept;
    var (o1, r1) := MpcCommit(lib, o, random);
    assert r1.Ok?;
    var o' := CommitOutput(lib, o, how, random).0;
    MpcCommitEffect(lib, o, random);
    MpcCommitCommitsTo(lib, o, random);
    match how {
      case OpretFirst =>
        OpretCarries(lib, o1, r1.value.0);
        OpretCommitEffect(o1, r1.value.0);
      case TapretFirst =>
        TapretCarries(lib, o1, r1.value.0);
        TapretCommitEffect(lib, o1, r1.value.0);
    }
    assert SameMpcData(o1, o');
    CommitsToKept(lib, o, o1, o', ReadMessages(o.proprietary).value, r1.value.1, random);
  }

  /* The output is marked as host and has no commitment of this kind yet; tapret also needs a key and no tap tree. */
  predicate CanCarry(o: OutState, how: CloseMethod) {
    && o.Has(HostKey(how))
    && match how
       case OpretFirst => !o.Has(OpretCommitmentKey())
       case TapretFirst =>
         o.tapTree.None? && o.internalKey.Some? && !o.Has(TapretCommitmentKey()) && !o.Has(TapretProofKey())
  }

  lemma CanCarryIff(lib: CommitLibrary, o: OutState, commitment: Id)
    ensures OpretCommit(o, commitment).1.Ok? <==> CanCarry(o, OpretFirst)
    ensures TapretCommit(lib, o, commitment).1.Ok? <==> CanCarry(o, TapretFirst)
  {
  }

  /** A commit succeeds exactly when its MPC commitment does and the output can carry it. */
  lemma CommitOutputSucceedsIff(lib: CommitLibrary, o: OutState, how: CloseMethod, random: U64)
    ensures CommitOutput(lib, o, how, random).1.Ok? <==> MpcCommit(lib, o, random).1.Ok? && CanCarry(o, how)
  {
    hide MpcCommit;
    MpcCommitTouches(lib, o, random);
    hide OpretCommit, TapretCommit;
    var (o1, r1) := MpcCommit(lib, o, random);
    if r1.Ok? { CanCarryIff(lib, o1, r1.value.0); }
  }

  /** A commit, failed or not, leaves internal key and terminals as they are; a failed one also the script. */
  lemma CommitOutputKeepsKey(lib: CommitLibrary, o: OutState, how: CloseMethod, random: U64)
    ensures SameKeyAndTerminals(o, CommitOutput(lib, o, how, random).0)
    ensures how == OpretFirst ==> CommitOutput(lib, o, how, random).0.tapTree == o.tapTree
    ensures CommitOutput(lib, o, how, random).1.Err? ==> CommitOutput(lib, o, how, random).0.script == o.script
    ensures SameBut(o, CommitOutput(lib, o, how, random).0,
                    {MpcEntropyKey(), MpcCommitmentKey(), MpcProofKey(), OpretHostKey(), OpretCommitmentKey(),
                     TapretHostKey(), TapretCommitmentKey(), TapretProofKey()})
  {
    hide MpcCommit, OpretCommit, TapretCommit, OpretScript, TapretScript;
    MpcCommitEffect(lib, o, random);
    var (o1, r1) := MpcCommit(lib, o, random);
    if r1.Ok? {
      OpretCommitEffect(o1, r1.value.0);
      TapretCommitEffect(lib, o1, r1.value.0);
    }
  }

  /**
   * A successful commit uses up the host flag; a tapret commit stores and returns the proof for the internal key that
   * the
   * output had.
   */
  lemma CommitOutputSpendsHost(lib: CommitLibrary, o: OutState, how: CloseMethod, random: U64)
    requires CommitOutput(lib, o, how, random).1.Ok?
    ensures !CommitOutput(lib, o, how, random).0.Has(HostKey(how))
    ensures how == TapretFirst ==>
              && o.internalKey.Some?
              && var proof := TapretProof(o.internalKey.value, 0);
              && CommitOutput(lib, o, how, random).1.value.1 == TapretDbc(proof)
              && Stored(CommitOutput(lib, o, how, random).0, TapretProofKey(), lib.encodeProof(proof))
    ensures how == OpretFirst ==> CommitOutput(lib, o, how, random).1.value.1 == OpretDbc
  {
    hide MpcCommit, OpretCommit, TapretCommit, OpretScript, TapretScript;
    MpcCommitEffect(lib, o, random);
    var (o1, r1) := MpcCommit(lib, o, random);
    assert r1.Ok?;
    match how {
      case OpretFirst =>
        OpretCommitEffect(o1, r1.value.0);
        var (o2, r2) := OpretCommit(o1, r1.value.0);
        assert r2.Ok?;
        assert CommitOutput(lib, o, how, random) == (o2.(script := OpretScript(o2)), Ok((r1.value.1, OpretDbc)));
      case TapretFirst =>
        TapretCommitEffect(lib, o1, r1.value.0);
        var (o2, r2) := TapretCommit(lib, o1, r1.value.0);
        assert r2.Ok?;
        assert o2.internalKey.Some? && o2.tapTree.Some?;
        assert CommitOutput(lib, o, how, random) ==
                 (o2.(script := TapretScript(lib, o2)), Ok((r1.value.1, TapretDbc(r2.value))));
    }
  }

  /**
   * The messages go to the first marked output `h`, the commitment to the first output `d` with a matching script,
   * and nothing checks that they are the same. They are the same exactly when the script of `h` matches.
   */
  lemma HostIsCommittedIff(lib: CommitLibrary, views: seq<OutState>, how: CloseMethod, messages: map<Id, Id>,
                           random: U64)
    requires HostIndex(views, how) < |views|
    requires var given := views[HostIndex(views, how) := Given(views[HostIndex(views, how)], messages)];
      && ProperIndex(given, how) < |given|
      && CommitOutput(lib, given[ProperIndex(given, how)], how, random).1.Ok?
    ensures var given := views[HostIndex(views, how) := Given(views[HostIndex(views, how)], messages)];
      ProperIndex(given, how) == HostIndex(views, how) <==> views[HostIndex(views, how)].CanHost(how)
  {
    var h := HostIndex(views, how);
    var given := views[h := Given(views[h], messages)];
    var d := ProperIndex(given, how);
    CommitOutputCommitsTo(lib, given[d], how, random);
    assert given[d].Has(HostKey(how));
    assert views[d].Has(HostKey(how)) by {
      if d == h { assert HostKey(how) !in MessageEntries(messages); }
    }
    assert h <= d;
    if views[h].CanHost(how) {
      assert given[h].CanHost(how);
    }
  }

  /** The outcome of committing the outputs, once they have their messages: what `dbc_commit` finds and does. */
  ghost predicate Committable(lib: CommitLibrary, given: seq<OutState>, how: CloseMethod, random: U64) {
    && ProperIndex(given, how) < |given|
    && CommitOutput(lib, given[ProperIndex(given, how)], how, random).1.Ok?
  }

  ghost function AfterCommit(lib: CommitLibrary, given: seq<OutState>, how: CloseMethod, random: U64): seq<OutState>
    requires ProperIndex(given, how) < |given|
  {
    given[ProperIndex(given, how) := CommitOutput(lib, given[ProperIndex(given, how)], how, random).0]
  }

  /** `rgb_commit` succeeds exactly when this holds. */
  ghost predicate CommitSucceeds(opLib: Library, lib: CommitLibrary, store: KeyMap, views: seq<OutState>,
                                 modifiable: bool, random: U64) {
    && MessagesDue(opLib, lib, store, views)
    && !modifiable
    && Committable(lib, AfterMessages(lib, store, views), ReadCloseMethod(store).value.value, random)
  }

  /** The outputs after a successful `rgb_commit`, and the proofs it returns. */
  ghost predicate IsCommitOf(opLib: Library, lib: CommitLibrary, store: KeyMap, views: seq<OutState>, modifiable: bool,
                             random: U64, views': seq<OutState>, block: Bytes, proof: DbcProof) {
    && CommitSucceeds(opLib, lib, store, views, modifiable, random)
    && var how := ReadCloseMethod(store).value.value; var given := AfterMessages(lib, store, views);
    && views' == AfterCommit(lib, given, how, random)
    && CommitOutput(lib, given[ProperIndex(given, how)], how, random).1 == Ok((block, proof))
  }

  /** The committed output commits to exactly these messages and its script carries the commitment. */
  ghost predicate Covers(lib: CommitLibrary, before: OutState, after: OutState, how: CloseMethod,
                         messages: map<Id, Id>, block: Bytes, random: U64) {
    CommitsTo(lib, before, after, messages, block, random) && CarriesCommitment(lib, after, how)
  }

  /**
   * If the first marked output has a matching script, it is the one a successful commit commits, and no other output
   * changes. The commitment covers exactly the bundles, one message per contract, the id of its bundle, if and only if
   * that output had no messages for other contracts.
   */
  lemma CommitCoversBundles(opLib: Library, lib: CommitLibrary, store: KeyMap, views: seq<OutState>, modifiable: bool,
                            random: U64, views': seq<OutState>, block: Bytes, proof: DbcProof)
    requires IsCommitOf(opLib, lib, store, views, modifiable, random, views', block, proof)
    requires var how := ReadCloseMethod(store).value.value; views[HostIndex(views, how)].CanHost(how)
    ensures var how := ReadCloseMethod(store).value.value; var h := HostIndex(views, how);
      var due := DueMessages(lib, store);
      && |views'| == |views|
      && (forall i :: 0 <= i < |views| && i != h ==> views'[i] == views[i])
      && (Covers(lib, Given(views[h], due), views'[h], how, due, block, random) <==> OnlyFor(views[h], due))
  {
    hide CommitOutput, DueMessages, BundlesReady, OnlyFor, AcceptsMessages, CarriesCommitment, ReadMessages;
    var how := ReadCloseMethod(store).value.value;
    var h := HostIndex(views, how);
    var given := AfterMessages(lib, store, views);
    HostIsCommittedIff(lib, views, how, DueMessages(lib, store), random);
    CommitOutputCommitsTo(lib, given[h], how, random);
    GivenMessagesReadIff(views[h], DueMessages(lib, store));
  }

  /**
   * What a successful commit covers, whatever output it is on: the bundles exactly, if and only if the first marked
   * output is suitable and had no messages for others, or else the committed output had just those messages itself.
   */
  lemma CommitCoversIff(opLib: Library, lib: CommitLibrary, store: KeyMap, views: seq<OutState>, modifiable: bool,
                        random: U64, views': seq<OutState>, block: Bytes, proof: DbcProof)
    requires IsCommitOf(opLib, lib, store, views, modifiable, random, views', block, proof)
    ensures var how := ReadCloseMethod(store).value.value; var h := HostIndex(views, how);
      var due, given := DueMessages(lib, store), AfterMessages(lib, store, views); var d := ProperIndex(given, how);
      && |views'| == |views|
      && (forall i :: 0 <= i < |views| && i != d ==> views'[i] == given[i])
      && (Covers(lib, given[d], views'[d], how, due, block, random) <==>
            if views[h].CanHost(how) then OnlyFor(views[h], due) else ReadMessages(views[d].proprietary) == Ok(due))
  {
    hide CommitOutput, DueMessages, BundlesReady, OnlyFor, AcceptsMessages, CarriesCommitment, ReadMessages;
    var how := ReadCloseMethod(store).value.value;
    var h := HostIndex(views, how);
    var given := AfterMessages(lib, store, views);
    HostIsCommittedIff(lib, views, how, DueMessages(lib, store), random);
    CommitOutputCommitsTo(lib, given[ProperIndex(given, how)], how, random);
    if views[h].CanHost(how) { GivenMessagesReadIff(views[h], DueMessages(lib, store)); }
  }

  /** Committing a PSBT leaves internal keys and terminals of all outputs as they are. */
  lemma CommitKeepsKeys(opLib: Library, lib: CommitLibrary, store: KeyMap, views: seq<OutState>, modifiable: bool,
                        random: U64, views': seq<OutState>, block: Bytes, proof: DbcProof)
    requires IsCommitOf(opLib, lib, store, views, modifiable, random, views', block, proof)
    ensures |views'| == |views|
    ensures forall i :: 0 <= i < |views| ==> SameKeyAndTerminals(views[i], views'[i])
  {
    hide CommitOutput, DueMessages, BundlesReady, AcceptsMessages;
    var how := ReadCloseMethod(store).value.value;
    var given := AfterMessages(lib, store, views);
    CommitOutputKeepsKey(lib, given[ProperIndex(given, how)], how, random);
  }

  /* The outputs have the scripts they had and lost no committed data. */
  ghost predicate SameCommitted(views: seq<OutState>, views': seq<OutState>) {
    AllKept(views, views') && forall i :: 0 <= i < |views| ==> views'[i].script == views[i].script
  }

  /**
   * A PSBT is committed once: after a successful commit none succeeds again, whatever happens to store and outputs, as
   * long as close method and scripts stay and no output loses what is committed.
   */
  lemma CommitOnce(opLib: Library, lib: CommitLibrary, store: KeyMap, views: seq<OutState>, modifiable: bool,
                   random: U64, views': seq<OutState>, block: Bytes, proof: DbcProof, store': KeyMap,
                   later: seq<OutState>, modifiable': bool, random': U64)
    requires IsCommitOf(opLib, lib, store, views, modifiable, random, views', block, proof)
    requires SameCommitted(views', later) && ReadCloseMethod(store') == ReadCloseMethod(store)
    ensures !CommitSucceeds(opLib, lib, store', later, modifiable', random')
  {
    hide CommitOutput, DueMessages, BundlesReady, ReadMessages, ReadCloseMethod, SameMpcData;
    if CommitSucceeds(opLib, lib, store', later, modifiable', random') {
      var how := ReadCloseMethod(store).value.value;
      var given := AfterMessages(lib, store, views);
      var d := ProperIndex(given, how);
      CommitOutputCommitsTo(lib, given[d], how, random);
      assert later[d].Has(MpcCommitmentKey()) by { KeptCommitment(views'[d], later[d]); }
      assert later[d].CanHost(how);
      var given' := AfterMessages(lib, store', later);
      assert given'[d].CanHost(how) && given'[d].Has(MpcCommitmentKey());
      assert forall i :: 0 <= i < d ==> given'[i].CanHost(how) == given[i].CanHost(how);
      assert ProperIndex(given', how) == d;
      CommitOutputSucceedsIff(lib, given'[d], how, random');
      CommittedFails(lib, given'[d], random');
    }
  }

  lemma KeptCommitment(o: OutState, o': OutState)
    requires CommittedDataKept(o, o') && o.Has(MpcCommitmentKey())
    ensures o'.Has(MpcCommitmentKey())
  {
  }

  lemma CommittedFails(lib: CommitLibrary, o: OutState, random: U64)
    requires o.Has(MpcCommitmentKey())
    ensures MpcCommit(lib, o, random).1.Err?
  {
  }
}
