/** The commitment data of one PSBT output, as values: what each operation on it does. */
module OutputState {
  import opened Base
  import opened Protocol
  import opened Store

  type U64 = x: int | 0 <= x < 0x1_0000_0000_0000_0000

  const MPC_PREFIX: Bytes := [77, 80, 67]
  const OUT_MPC_MESSAGE: Byte := 0x00
  const OUT_MPC_ENTROPY: Byte := 0x01
  const OUT_MPC_MIN_TREE_DEPTH: Byte := 0x04
  const OUT_MPC_COMMITMENT: Byte := 0x10
  const OUT_MPC_PROOF: Byte := 0x11
  const OPRET_PREFIX: Bytes := [79, 80, 82, 69, 84]
  const OUT_OPRET_HOST: Byte := 0x00
  const OUT_OPRET_COMMITMENT: Byte := 0x01
  const TAPRET_PREFIX: Bytes := [84, 65, 82, 69, 84]
  const OUT_TAPRET_HOST: Byte := 0x00
  const OUT_TAPRET_COMMITMENT: Byte := 0x01
  const OUT_TAPRET_PROOF: Byte := 0x02

  function MpcMessageKey(protocol: Id): PropKey { PropKey(MPC_PREFIX, OUT_MPC_MESSAGE, protocol) }

  function MpcEntropyKey(): PropKey { PropKey(MPC_PREFIX, OUT_MPC_ENTROPY, []) }

  function MpcMinTreeDepthKey(): PropKey { PropKey(MPC_PREFIX, OUT_MPC_MIN_TREE_DEPTH, []) }

  function MpcCommitmentKey(): PropKey { PropKey(MPC_PREFIX, OUT_MPC_COMMITMENT, []) }

  function MpcProofKey(): PropKey { PropKey(MPC_PREFIX, OUT_MPC_PROOF, []) }

  function OpretHostKey(): PropKey { PropKey(OPRET_PREFIX, OUT_OPRET_HOST, []) }

  function OpretCommitmentKey(): PropKey { PropKey(OPRET_PREFIX, OUT_OPRET_COMMITMENT, []) }

  function TapretHostKey(): PropKey { PropKey(TAPRET_PREFIX, OUT_TAPRET_HOST, []) }

  function TapretCommitmentKey(): PropKey { PropKey(TAPRET_PREFIX, OUT_TAPRET_COMMITMENT, []) }

  function TapretProofKey(): PropKey { PropKey(TAPRET_PREFIX, OUT_TAPRET_PROOF, []) }

  function HostKey(how: CloseMethod): PropKey {
    match how case OpretFirst => OpretHostKey() case TapretFirst => TapretHostKey()
  }

  datatype Script = P2tr(program: Bytes) | OpReturn(data: Bytes) | Other(raw: Bytes)

  datatype Terminal = Terminal(keychain: Byte, index: nat)

  datatype OpretError = OpretHasCommitment | OpretProhibited

  datatype TapretError =
    | TapretHasCommitment
    | TapretProhibited
    | NotTaprootOutput
    | NoCommitment
    | InvalidCommitment
    | TapTreeNonEmpty
    | NoInternalKey

  /** The message a tapret leaf commits to. */
  datatype TapretCommitment = TapretCommitment(mpc: Id, nonce: Byte) {
    function ToBytes(): (b: Bytes)
      ensures |b| == 33
    {
      mpc + [nonce]
    }
  }

  datatype TapretProof = TapretProof(internalKey: Bytes, nonce: Byte)

  datatype MpcSource = MpcSource(minDepth: Option<Byte>, messages: map<Id, Id>, staticEntropy: Option<U64>)

  datatype MpcTree = MpcTree(entropy: U64, commitment: Id, block: Bytes)

  /**
   * Hashing and tree construction of external crates. A tree draws `random` when no entropy is given; `proofFor`
   * takes the proof for a protocol out of the stored one, and `convolve` gives the commitment that a proof, a protocol
   * and its message lead to.
   */
  datatype CommitLibrary = CommitLibrary(
    mpcTree: (MpcSource, U64) -> Option<MpcTree>,
    proofFor: (Bytes, Id) -> Bytes,
    convolve: (Bytes, Id, Id) -> Option<Id>,
    bundleId: map<Opout, OpId> -> Id,
    leafScript: TapretCommitment -> Bytes,
    merkleRoot: Bytes -> Bytes,
    taprootProgram: (Bytes, Option<Bytes>) -> Bytes,
    encodeProof: TapretProof -> Bytes)

  /** One output. `tapTree` is the script of the only leaf of its taproot tree. */
  datatype OutState = OutState(
    script: Script,
    proprietary: KeyMap,
    internalKey: Option<Bytes>,
    tapTree: Option<Bytes>,
    bip32Terminals: seq<Terminal>,
    tapTerminals: seq<Terminal>)
  {
    predicate Has(k: PropKey) {
      k in proprietary
    }

    function With(k: PropKey, v: Bytes): OutState {
      this.(proprietary := proprietary[k := v])
    }

    function Without(k: PropKey): OutState {
      this.(proprietary := proprietary - {k})
    }

    predicate CanHost(how: CloseMethod) {
      match how case OpretFirst => script.OpReturn? case TapretFirst => script.P2tr?
    }

    /* The derivation of the output, if it is the same in every place that gives one. */
    function TerminalDerivation(): Option<Terminal> {
      var all := bip32Terminals + tapTerminals;
      if all != [] && forall t :: t in all ==> t == all[0] then Some(all[0]) else None
    }

    function ReadTapretCommitment(): Result<TapretCommitment, TapretError> {
      if !Has(TapretCommitmentKey()) then Err(NoCommitment)
      else
        var data := proprietary[TapretCommitmentKey()];
        if |data| != 33 then Err(InvalidCommitment) else Ok(TapretCommitment(data[..32], data[32]))
    }
  }

  function LittleEndianBytes(width: nat, x: nat): (b: Bytes)
    ensures |b| == width
  {
    if width == 0 then [] else [x % 0x100] + LittleEndianBytes(width - 1, x / 0x100)
  }

  function FromLittleEndianBytes(b: Bytes): nat {
    if b == [] then 0 else b[0] + 0x100 * FromLittleEndianBytes(b[1..])
  }

  function Pow256(width: nat): nat {
    if width == 0 then 1 else 0x100 * Pow256(width - 1)
  }

  lemma {:induction false} LittleEndianRoundTrip(width: nat, x: nat)
    requires x < Pow256(width)
    ensures FromLittleEndianBytes(LittleEndianBytes(width, x)) == x
  {
    if width > 0 {
      LittleEndianRoundTrip(width - 1, x / 0x100);
      assert LittleEndianBytes(width, x)[1..] == LittleEndianBytes(width - 1, x / 0x100);
    }
  }

  lemma {:induction false} FromLittleEndianBound(b: Bytes)
    ensures FromLittleEndianBytes(b) < Pow256(|b|)
  {
    if b != [] { FromLittleEndianBound(b[1..]); }
  }

  lemma Pow256Of8()
    ensures Pow256(8) == 0x1_0000_0000_0000_0000
  {
  }

  function EntropyBytes(e: U64): Bytes {
    LittleEndianBytes(8, e)
  }

  /* Entropy that is absent or not 8 bytes long reads as none. */
  function ReadEntropy(store: KeyMap): Option<U64> {
    if MpcEntropyKey() in store && |store[MpcEntropyKey()]| == 8 then
      FromLittleEndianBound(store[MpcEntropyKey()]);
      Pow256Of8();
      Some(FromLittleEndianBytes(store[MpcEntropyKey()]))
    else None
  }

  function ReadMinDepth(store: KeyMap): Option<Byte> {
    if MpcMinTreeDepthKey() in store && |store[MpcMinTreeDepthKey()]| == 1 then Some(store[MpcMinTreeDepthKey()][0])
    else None
  }

  predicate IsMessageKey(k: PropKey) {
    k.prefix == MPC_PREFIX && k.subtype == OUT_MPC_MESSAGE
  }

  predicate WellFormedMessages(store: KeyMap) {
    forall k :: k in store.Keys && IsMessageKey(k) ==> |k.key| == 32 && |store[k]| == 32
  }

  function MessageProtocols(store: KeyMap): set<Id> {
    set k | k in store.Keys && IsMessageKey(k) && |k.key| == 32 :: ToId(k.key)
  }

  function ReadMessages(store: KeyMap): Result<map<Id, Id>, MpcError> {
    if !WellFormedMessages(store) then Err(InvalidKeyValue)
    else if |MessageProtocols(store)| > MAX_U24 then Err(MessageMapTooLarge)
    else Ok(map p | p in MessageProtocols(store) && MpcMessageKey(p) in store :: ToId(store[MpcMessageKey(p)]))
  }

  /* Marking an output as host; the flag says that it was marked before. */
  function SetHost(o: OutState, how: CloseMethod): (OutState, bool) {
    if o.Has(HostKey(how)) then (o, true) else (o.With(HostKey(how), []), false)
  }

  /* Values of MPC keys can be set again to the same value, and not at all after the commitment. */
  function SetOnce(o: OutState, k: PropKey, v: Bytes): (OutState, Result<bool, MpcError>) {
    if o.Has(MpcCommitmentKey()) then (o, Err(Finalized))
    else if o.Has(k) then (o, if o.proprietary[k] != v then Err(InvalidKeyValue) else Ok(false))
    else (o.With(k, v), Ok(true))
  }

  function SetMpcEntropy(o: OutState, e: U64): (OutState, Result<bool, MpcError>) {
    SetOnce(o, MpcEntropyKey(), EntropyBytes(e))
  }

  function SetMpcMessage(o: OutState, protocol: Id, message: Id): (OutState, Result<bool, MpcError>) {
    SetOnce(o, MpcMessageKey(protocol), message)
  }

  function SourceOf(o: OutState, messages: map<Id, Id>): MpcSource {
    MpcSource(ReadMinDepth(o.proprietary), messages, ReadEntropy(o.proprietary))
  }

  function MpcCommit(lib: CommitLibrary, o: OutState, random: U64): (OutState, Result<(Id, Bytes), MpcError>) {
    var messages := ReadMessages(o.proprietary);
    if messages.Err? then (o, Err(messages.error))
    else
      var tree := lib.mpcTree(SourceOf(o, messages.value), random);
      if tree.None? then (o, Err(Tree))
      else
        var (o1, r) := SetMpcEntropy(o, tree.value.entropy);
        if r.Err? then (o1, Err(r.error))
        else if o1.Has(MpcCommitmentKey()) then (o1, Err(OutputAlreadyHasCommitment))
        else
          var o2 := o1.With(MpcCommitmentKey(), tree.value.commitment);
          if o2.Has(MpcProofKey()) then (o2, Err(OutputAlreadyHasCommitment))
          else (o2.With(MpcProofKey(), tree.value.block), Ok((tree.value.commitment, tree.value.block)))
  }

  function OpretCommit(o: OutState, commitment: Id): (OutState, Result<(), OpretError>) {
    if !o.Has(OpretHostKey()) then (o, Err(OpretError.OpretProhibited))
    else if o.Has(OpretCommitmentKey()) then (o, Err(OpretHasCommitment))
    else (o.With(OpretCommitmentKey(), commitment).Without(OpretHostKey()), Ok(()))
  }

  function TapretCommit(lib: CommitLibrary, o: OutState, commitment: Id): (OutState, Result<TapretProof, TapretError>) {
    var tapret := TapretCommitment(commitment, 0);
    if !o.Has(TapretHostKey()) then (o, Err(TapretError.TapretProhibited))
    else if o.tapTree.Some? then (o, Err(TapTreeNonEmpty))
    else
      var o1 := o.(tapTree := Some(lib.leafScript(tapret)));
      if o1.internalKey.None? then (o1, Err(NoInternalKey))
      else
        var proof := TapretProof(o1.internalKey.value, 0);
        if o1.Has(TapretCommitmentKey()) then (o1, Err(TapretHasCommitment))
        else
          var o2 := o1.With(TapretCommitmentKey(), tapret.ToBytes());
          if o2.Has(TapretProofKey()) then (o2, Err(TapretHasCommitment))
          else (o2.With(TapretProofKey(), lib.encodeProof(proof)).Without(TapretHostKey()), Ok(proof))
  }

  /* A successful commitment leaves what the script is made from. */
  lemma CommittedHasScript(lib: CommitLibrary, o: OutState, c: Id)
    ensures OpretCommit(o, c).1.Ok? ==> OpretCommit(o, c).0.Has(OpretCommitmentKey())
    ensures TapretCommit(lib, o, c).1.Ok? ==>
              TapretCommit(lib, o, c).0.internalKey.Some? && TapretCommit(lib, o, c).0.tapTree.Some?
  {
  }

  /** A value can be set once; setting it again is harmless, setting another value fails, and the first value stays. */
  lemma SetOnceKeepsFirst(o: OutState, k: PropKey, v: Bytes, v': Bytes)
    requires SetOnce(o, k, v).1.Ok? && k != MpcCommitmentKey()
    ensures var o' := SetOnce(o, k, v).0;
      && o'.Has(k) && o'.proprietary[k] == v
      && SetOnce(o', k, v) == (o', Ok(false))
      && (v' != v ==> SetOnce(o', k, v') == (o', Err(InvalidKeyValue)))
  {
  }

  /** Entropy that was set is read back. */
  lemma EntropyReadsBack(o: OutState, e: U64)
    requires SetMpcEntropy(o, e).1.Ok?
    ensures ReadEntropy(SetMpcEntropy(o, e).0.proprietary) == Some(e)
  {
    Pow256Of8();
    LittleEndianRoundTrip(8, e);
    SetOnceKeepsFirst(o, MpcEntropyKey(), EntropyBytes(e), []);
  }

  lemma {:induction false} LittleEndianOfRead(b: Bytes)
    ensures LittleEndianBytes(|b|, FromLittleEndianBytes(b)) == b
  {
    if b != [] {
      LittleEndianOfRead(b[1..]);
      var x := FromLittleEndianBytes(b);
      assert x % 0x100 == b[0] && x / 0x100 == FromLittleEndianBytes(b[1..]);
      assert b == [b[0]] + b[1..];
    }
  }

  /** A tree is built with the entropy it is given. */
  ghost predicate UsesGivenEntropy(lib: CommitLibrary) {
    forall source, random :: lib.mpcTree(source, random).Some? && source.staticEntropy.Some? ==>
      lib.mpcTree(source, random).value.entropy == source.staticEntropy.value
  }

  /**
   * When an MPC commitment succeeds. Entropy of the wrong length reads as absent, yet it makes the commitment fail,
   * because the entropy of the tree cannot replace it.
   */
  lemma MpcCommitSucceedsIff(lib: CommitLibrary, o: OutState, random: U64)
    requires UsesGivenEntropy(lib)
    ensures MpcCommit(lib, o, random).1.Ok? <==>
              && ReadMessages(o.proprietary).Ok?
              && lib.mpcTree(SourceOf(o, ReadMessages(o.proprietary).value), random).Some?
              && !o.Has(MpcCommitmentKey()) && !o.Has(MpcProofKey())
              && (o.Has(MpcEntropyKey()) ==> |o.proprietary[MpcEntropyKey()]| == 8)
  {
    if o.Has(MpcEntropyKey()) {
      LittleEndianOfRead(o.proprietary[MpcEntropyKey()]);
    }
  }

  /* An output with one message and entropy of one byte. */
  function ShortEntropy(message: Id): OutState {
    OutState(OpReturn([]), map[MpcEntropyKey() := [7], MpcMessageKey(message) := message], None, None, [], [])
  }

  /** Entropy of one byte, as a concrete output: it reads as none, and its commitment fails. */
  lemma ShortEntropyExample(lib: CommitLibrary, message: Id, random: U64)
    requires lib.mpcTree(MpcSource(None, map[message := message], None), random).Some?
    ensures var o := ShortEntropy(message);
      && ReadEntropy(o.proprietary) == None
      && ReadMessages(o.proprietary) == Ok(map[message := message])
      && MpcCommit(lib, o, random) == (o, Err(InvalidKeyValue))
  {
    var o := ShortEntropy(message);
    assert o.proprietary[MpcEntropyKey()] == [7];
    assert MpcMessageKey(message) in o.proprietary && ToId(MpcMessageKey(message).key) == message;
    assert MessageProtocols(o.proprietary) == {message};
    assert o.proprietary[MpcMessageKey(message)] == message;
    assert ReadMessages(o.proprietary).value == map[message := message];
  }

  datatype OutCall =
    | SetHostCall(how: CloseMethod)
    | SetEntropyCall(entropy: U64)
    | SetMessageCall(protocol: Id, message: Id)
    | MpcCommitCall(random: U64)
    | OpretCommitCall(commitment: Id)
    | TapretCommitCall(commitment: Id)

  function OutStep(lib: CommitLibrary, o: OutState, call: OutCall): OutState {
    match call
    case SetHostCall(m) => SetHost(o, m).0
    case SetEntropyCall(e) => SetMpcEntropy(o, e).0
    case SetMessageCall(p, m) => SetMpcMessage(o, p, m).0
    case MpcCommitCall(random) => MpcCommit(lib, o, random).0
    case OpretCommitCall(c) => OpretCommit(o, c).0
    case TapretCommitCall(c) => TapretCommit(lib, o, c).0
  }

  function OutRun(lib: CommitLibrary, o: OutState, calls: seq<OutCall>): OutState
    decreases |calls|
  {
    if calls == [] then o else OutRun(lib, OutStep(lib, o, calls[0]), calls[1..])
  }

  /* Messages, entropy, tree depth, commitment and proof are all held under the MPC prefix. */
  ghost predicate SameMpcData(o: OutState, o': OutState) {
    forall k: PropKey :: k.prefix == MPC_PREFIX ==>
      (k in o.proprietary <==> k in o'.proprietary) && (k in o.proprietary ==> o'.proprietary[k] == o.proprietary[k])
  }

  ghost predicate Keeps(o: OutState, o': OutState, k: PropKey) {
    o.Has(k) ==> o'.Has(k) && o'.proprietary[k] == o.proprietary[k]
  }

  /** Once an output has a commitment, whatever it covers stays as it is. */
  ghost predicate CommittedDataKept(o: OutState, o': OutState) {
    && (o.Has(MpcCommitmentKey()) ==> SameMpcData(o, o'))
    && Keeps(o, o', OpretCommitmentKey())
    && Keeps(o, o', TapretCommitmentKey())
    && Keeps(o, o', TapretProofKey())
    && (o.tapTree.Some? ==> o'.tapTree == o.tapTree)
  }

  lemma SetKeepsCommittedData(o: OutState, how: CloseMethod, k: PropKey, v: Bytes)
    requires k.prefix == MPC_PREFIX
    ensures CommittedDataKept(o, SetHost(o, how).0)
    ensures CommittedDataKept(o, SetOnce(o, k, v).0)
  {
  }

  lemma MpcCommitKeepsCommittedData(lib: CommitLibrary, o: OutState, random: U64)
    ensures CommittedDataKept(o, MpcCommit(lib, o, random).0)
  {
    hide ReadMessages, SourceOf, EntropyBytes;
    MpcCommitTouches(lib, o, random);
    hide MpcCommit;
  }

  /* An MPC commitment changes MPC keys only, and none once there is a commitment. */
  lemma MpcCommitTouches(lib: CommitLibrary, o: OutState, random: U64)
    ensures var o' := MpcCommit(lib, o, random).0;
      && (forall k: PropKey :: k.prefix != MPC_PREFIX ==>
            (o'.Has(k) <==> o.Has(k)) && (o.Has(k) ==> o'.proprietary[k] == o.proprietary[k]))
      && o'.tapTree == o.tapTree && o'.internalKey == o.internalKey
      && (o.Has(MpcCommitmentKey()) ==> o' == o)
  {
    hide ReadMessages, SourceOf, EntropyBytes;
  }

  lemma OpretCommitKeepsCommittedData(o: OutState, c: Id)
    ensures CommittedDataKept(o, OpretCommit(o, c).0)
  {
  }

  lemma TapretCommitKeepsCommittedData(lib: CommitLibrary, o: OutState, c: Id)
    ensures CommittedDataKept(o, TapretCommit(lib, o, c).0)
  {
  }

  lemma StepKeepsCommittedData(lib: CommitLibrary, o: OutState, call: OutCall)
    ensures CommittedDataKept(o, OutStep(lib, o, call))
  {
    match call
    case SetHostCall(how) => SetKeepsCommittedData(o, how, MpcEntropyKey(), []);
    case SetEntropyCall(e) => SetKeepsCommittedData(o, OpretFirst, MpcEntropyKey(), EntropyBytes(e));
    case SetMessageCall(p, m) => SetKeepsCommittedData(o, OpretFirst, MpcMessageKey(p), m);
    case MpcCommitCall(random) => MpcCommitKeepsCommittedData(lib, o, random);
    case OpretCommitCall(c) => OpretCommitKeepsCommittedData(o, c);
    case TapretCommitCall(c) => TapretCommitKeepsCommittedData(lib, o, c);
  }

  /** Over every sequence of operations, committed data never changes. */
  lemma {:induction false} RunKeepsCommittedData(lib: CommitLibrary, o: OutState, calls: seq<OutCall>)
    ensures CommittedDataKept(o, OutRun(lib, o, calls))
    decreases |calls|
  {
    if calls != [] {
      StepKeepsCommittedData(lib, o, calls[0]);
      RunKeepsCommittedData(lib, OutStep(lib, o, calls[0]), calls[1..]);
    }
  }

  /** After an MPC commitment no later one succeeds, whatever happens in between. */
  lemma MpcCommitOnce(lib: CommitLibrary, o: OutState, random: U64, calls: seq<OutCall>, random': U64)
    requires MpcCommit(lib, o, random).1.Ok?
    ensures MpcCommit(lib, OutRun(lib, MpcCommit(lib, o, random).0, calls), random').1.Err?
  {
    RunKeepsCommittedData(lib, MpcCommit(lib, o, random).0, calls);
  }

  /** The same for opret, even if the host flag is set again. */
  lemma OpretCommitOnce(lib: CommitLibrary, o: OutState, c: Id, calls: seq<OutCall>, c': Id)
    requires OpretCommit(o, c).1.Ok?
    ensures OpretCommit(OutRun(lib, OpretCommit(o, c).0, calls), c').1.Err?
  {
    RunKeepsCommittedData(lib, OpretCommit(o, c).0, calls);
  }

  /** The same for tapret. */
  lemma TapretCommitOnce(lib: CommitLibrary, o: OutState, c: Id, calls: seq<OutCall>, c': Id)
    requires TapretCommit(lib, o, c).1.Ok?
    ensures TapretCommit(lib, OutRun(lib, TapretCommit(lib, o, c).0, calls), c').1.Err?
  {
    RunKeepsCommittedData(lib, TapretCommit(lib, o, c).0, calls);
  }
}
