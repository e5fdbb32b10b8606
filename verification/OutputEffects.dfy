/** What the operations on one output read and write, key by key, and what they leave as it is. */
module OutputEffects {
  import opened Base
  import opened Protocol
  import opened Store
  import opened OutputState

  /* The last byte is the most significant one. */
  lemma {:induction false} MostSignificantLast(b: Bytes, v: Byte)
    ensures FromLittleEndianBytes(b + [v]) == FromLittleEndianBytes(b) + Pow256(|b|) * v
  {
    if b == [] {
      assert [] + [v] == [v] && [v][1..] == [];
    } else {
      MostSignificantLast(b[1..], v);
      assert (b + [v])[1..] == b[1..] + [v];
      assert 0x100 * (Pow256(|b| - 1) * v) == Pow256(|b|) * v;
    }
  }

  /* A key that holds a protocol message. */
  ghost predicate IsMpcMessage(k: PropKey) {
    k.prefix == [77, 80, 67] && k.subtype == 0
  }

  /** Messages are read exactly when all keys and values are 32 bytes long and there are at most 2^24 - 1 protocols. */
  lemma ReadMessagesIff(store: KeyMap)
    ensures ReadMessages(store).Ok? <==>
              && (forall k :: k in store && IsMpcMessage(k) ==> |k.key| == 32 && |store[k]| == 32)
              && |set k | k in store.Keys && IsMpcMessage(k) :: k.key| <= 0xFF_FFFF
    ensures ReadMessages(store).Ok? ==>
              forall p: Id ::
                && (p in ReadMessages(store).value <==> PropKey([77, 80, 67], 0, p) in store)
                && (p in ReadMessages(store).value ==>
                      ReadMessages(store).value[p] == store[PropKey([77, 80, 67], 0, p)])
  {
    assert forall k :: IsMpcMessage(k) <==> IsMessageKey(k);
    if WellFormedMessages(store) {
      var keys := set k | k in store.Keys && IsMpcMessage(k) :: k.key;
      forall p ensures p in keys <==> p in MessageProtocols(store) {
        if p in keys {
          var k :| k in store.Keys && IsMpcMessage(k) && k.key == p;
          assert ToId(k.key) == p;
        }
      }
      ProtocolCount(keys, MessageProtocols(store));
    }
    if ReadMessages(store).Ok? {
      forall p: Id ensures p in ReadMessages(store).value <==> PropKey([77, 80, 67], 0, p) in store {
        assert MpcMessageKey(p) == PropKey([77, 80, 67], 0, p);
        if MpcMessageKey(p) in store { assert ToId(MpcMessageKey(p).key) == p; }
      }
    }
  }

  lemma {:induction false} ProtocolCount(a: set<Bytes>, b: set<Id>)
    requires forall p :: p in a <==> p in b
    ensures |a| == |b|
    decreases |b|
  {
    if b == {} {
      assert a == {};
    } else {
      var p :| p in b;
      ProtocolCount(a - {p}, b - {p});
    }
  }

  /** The tree depth an output asks for: the one byte under its key, if there is exactly one. */
  ghost predicate GivesDepth(o: OutState, depth: Option<Byte>) {
    match depth
    case Some(d) => o.Has(MpcMinTreeDepthKey()) && o.proprietary[MpcMinTreeDepthKey()] == [d]
    case None => !o.Has(MpcMinTreeDepthKey()) || |o.proprietary[MpcMinTreeDepthKey()]| != 1
  }

  /** The entropy an output gives: the number in the eight bytes under its key, if there are eight. */
  ghost predicate GivesEntropy(o: OutState, entropy: Option<U64>) {
    match entropy
    case Some(e) =>
      o.Has(MpcEntropyKey()) && |o.proprietary[MpcEntropyKey()]| == 8
      && FromLittleEndianBytes(o.proprietary[MpcEntropyKey()]) == e
    case None => !o.Has(MpcEntropyKey()) || |o.proprietary[MpcEntropyKey()]| != 8
  }

  /** The tree is made from the depth and the entropy of the output and from the messages as they are. */
  lemma SourceIsOfOutput(o: OutState, messages: map<Id, Id>)
    ensures var source := SourceOf(o, messages);
      GivesDepth(o, source.minDepth) && source.messages == messages && GivesEntropy(o, source.staticEntropy)
  {
    hide FromLittleEndianBytes;
  }

  /* Script, internal key and terminals. */
  ghost predicate SameIdentity(o: OutState, o': OutState) {
    && o'.script == o.script && SameKeyAndTerminals(o, o')
  }

  ghost predicate SameKeyAndTerminals(o: OutState, o': OutState) {
    && o'.internalKey == o.internalKey
    && o'.bip32Terminals == o.bip32Terminals && o'.tapTerminals == o.tapTerminals
  }

  /* All keys but these hold what they held. */
  ghost predicate SameBut(o: OutState, o': OutState, keys: set<PropKey>) {
    forall k :: k !in keys ==>
      (k in o'.proprietary <==> k in o.proprietary) && (k in o.proprietary ==> o'.proprietary[k] == o.proprietary[k])
  }

  ghost predicate Stored(o: OutState, k: PropKey, v: Bytes) {
    o.Has(k) && o.proprietary[k] == v
  }

  lemma SetHostEffect(o: OutState, how: CloseMethod)
    ensures var (o', wasSet) := SetHost(o, how);
      && SameIdentity(o, o') && o'.tapTree == o.tapTree && SameBut(o, o', {HostKey(how)})
      && o'.Has(HostKey(how)) && wasSet == o.Has(HostKey(how))
  {
  }

  lemma SetOnceEffect(o: OutState, k: PropKey, v: Bytes)
    ensures var (o', r) := SetOnce(o, k, v);
      && SameIdentity(o, o') && o'.tapTree == o.tapTree && SameBut(o, o', {k}) && (r.Ok? ==> Stored(o', k, v))
  {
  }

  /** An MPC commitment writes entropy, commitment and proof, and returns what it wrote. */
  lemma MpcCommitEffect(lib: CommitLibrary, o: OutState, random: U64)
    ensures var (o', r) := MpcCommit(lib, o, random);
      && SameIdentity(o, o') && o'.tapTree == o.tapTree
      && SameBut(o, o', {MpcEntropyKey(), MpcCommitmentKey(), MpcProofKey()})
      && (r.Ok? ==> Stored(o', MpcCommitmentKey(), r.value.0) && Stored(o', MpcProofKey(), r.value.1))
  {
    hide ReadMessages, SourceOf, EntropyBytes;
  }

  /** What a successful MPC commitment writes is the tree of the messages read. */
  lemma MpcCommitStoresTree(lib: CommitLibrary, o: OutState, random: U64)
    requires MpcCommit(lib, o, random).1.Ok?
    ensures ReadMessages(o.proprietary).Ok?
    ensures lib.mpcTree(SourceOf(o, ReadMessages(o.proprietary).value), random).Some?
    ensures var tree := lib.mpcTree(SourceOf(o, ReadMessages(o.proprietary).value), random).value;
      var (o', r) := MpcCommit(lib, o, random);
      && Stored(o', MpcCommitmentKey(), tree.commitment) && Stored(o', MpcProofKey(), tree.block)
      && Stored(o', MpcEntropyKey(), EntropyBytes(tree.entropy)) && r.value == (tree.commitment, tree.block)
  {
    hide ReadMessages, SourceOf, EntropyBytes;
  }

  /** An opret commitment is stored in place of the host flag. */
  lemma OpretCommitEffect(o: OutState, commitment: Id)
    ensures var (o', r) := OpretCommit(o, commitment);
      && SameIdentity(o, o') && o'.tapTree == o.tapTree && SameBut(o, o', {OpretHostKey(), OpretCommitmentKey()})
      && (r.Ok? ==> Stored(o', OpretCommitmentKey(), commitment) && !o'.Has(OpretHostKey()))
  {
  }

  /** A tapret commitment is stored, with its proof, in place of the host flag; the internal key stays. */
  lemma TapretCommitEffect(lib: CommitLibrary, o: OutState, commitment: Id)
    ensures var (o', r) := TapretCommit(lib, o, commitment);
      && SameIdentity(o, o') && SameBut(o, o', {TapretHostKey(), TapretCommitmentKey(), TapretProofKey()})
      && (r.Ok? ==>
            && o.internalKey.Some? && r.value == TapretProof(o.internalKey.value, 0)
            && o'.tapTree == Some(lib.leafScript(TapretCommitment(commitment, 0)))
            && Stored(o', TapretCommitmentKey(), commitment + [0])
            && Stored(o', TapretProofKey(), lib.encodeProof(r.value)) && !o'.Has(TapretHostKey()))
  {
  }

  /** The one terminal that is given for the output, in either list. */
  ghost predicate IsOnlyTerminal(o: OutState, t: Terminal) {
    && (t in o.bip32Terminals || t in o.tapTerminals)
    && (forall u :: u in o.bip32Terminals ==> u == t)
    && (forall u :: u in o.tapTerminals ==> u == t)
  }

  /** A derivation is conclusive exactly if all places give the same terminal, and then it is that one. */
  lemma TerminalDerivationIff(o: OutState, t: Terminal)
    ensures o.TerminalDerivation() == Some(t) <==> IsOnlyTerminal(o, t)
  {
    var all := o.bip32Terminals + o.tapTerminals;
    assert forall u :: u in all <==> u in o.bip32Terminals || u in o.tapTerminals;
    if all != [] { assert all[0] in all; }
  }

  /** The keys of an output: prefix, subtype and data. */
  lemma OutputKeys(p: Id)
    ensures MpcMessageKey(p) == PropKey([77, 80, 67], 0, p) && MpcEntropyKey() == PropKey([77, 80, 67], 1, [])
    ensures MpcMinTreeDepthKey() == PropKey([77, 80, 67], 4, [])
    ensures MpcCommitmentKey() == PropKey([77, 80, 67], 0x10, []) && MpcProofKey() == PropKey([77, 80, 67], 0x11, [])
    ensures OpretHostKey() == PropKey([79, 80, 82, 69, 84], 0, [])
    ensures OpretCommitmentKey() == PropKey([79, 80, 82, 69, 84], 1, [])
    ensures TapretHostKey() == PropKey([84, 65, 82, 69, 84], 0, [])
    ensures TapretCommitmentKey() == PropKey([84, 65, 82, 69, 84], 1, [])
    ensures TapretProofKey() == PropKey([84, 65, 82, 69, 84], 2, [])
  {
  }

  /** The keys of an output do not clash, and messages of different protocols have different keys. */
  lemma KeysAreDistinct(p: Id, q: Id)
    ensures |{MpcEntropyKey(), MpcMinTreeDepthKey(), MpcCommitmentKey(), MpcProofKey(), OpretHostKey(),
              OpretCommitmentKey(), TapretHostKey(), TapretCommitmentKey(), TapretProofKey(), MpcMessageKey(p)}| == 10
    ensures MpcMessageKey(p) == MpcMessageKey(q) <==> p == q
  {
    var a := {MpcEntropyKey(), MpcMinTreeDepthKey(), MpcCommitmentKey(), MpcProofKey(), MpcMessageKey(p)};
    var b := {OpretHostKey(), OpretCommitmentKey(), TapretHostKey(), TapretCommitmentKey(), TapretProofKey()};
    assert OPRET_PREFIX[0] != MPC_PREFIX[0] && TAPRET_PREFIX[0] != MPC_PREFIX[0];
    assert OPRET_PREFIX[0] != TAPRET_PREFIX[0];
    assert |a| == 5 && |b| == 5 && a !! b;
    assert |a + b| == 10;
    assert a + b == {MpcEntropyKey(), MpcMinTreeDepthKey(), MpcCommitmentKey(), MpcProofKey(), OpretHostKey(),
              OpretCommitmentKey(), TapretHostKey(), TapretCommitmentKey(), TapretProofKey(), MpcMessageKey(p)};
  }
}
