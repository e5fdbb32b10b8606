/** The proprietary keys of a PSBT and what the RGB methods read from and write to them. */
module Store {
  import opened Base
  import opened Protocol
  import opened ConsumerCodec
  import opened Ledger

  datatype PropKey = PropKey(prefix: Bytes, subtype: Byte, key: Bytes)

  type KeyMap = map<PropKey, Bytes>

  const RGB_PREFIX: Bytes := [82, 71, 66]
  const GLOBAL_RGB_TRANSITION: Byte := 0x01
  const GLOBAL_RGB_CLOSE_METHOD: Byte := 0x02
  const GLOBAL_RGB_TAP_HOST_CHANGE: Byte := 0x03
  const GLOBAL_RGB_CONSUMED_BY: Byte := 0x04

  function TransitionKey(opid: OpId): PropKey { PropKey(RGB_PREFIX, GLOBAL_RGB_TRANSITION, opid) }

  function CloseMethodKey(): PropKey { PropKey(RGB_PREFIX, GLOBAL_RGB_CLOSE_METHOD, []) }

  function TapretHostOnChangeKey(): PropKey { PropKey(RGB_PREFIX, GLOBAL_RGB_TAP_HOST_CHANGE, []) }

  function ConsumedByKey(c: ContractId): PropKey { PropKey(RGB_PREFIX, GLOBAL_RGB_CONSUMED_BY, c) }

  predicate IsConsumerKey(k: PropKey) {
    k.prefix == RGB_PREFIX && k.subtype == GLOBAL_RGB_CONSUMED_BY
  }

  predicate IsTransitionKey(k: PropKey) {
    k.prefix == RGB_PREFIX && k.subtype == GLOBAL_RGB_TRANSITION
  }

  /* `CloseMethod as u8` and back. */
  function CloseMethodByte(m: CloseMethod): Byte {
    match m case OpretFirst => 0 case TapretFirst => 1
  }

  function ReadCloseMethod(store: KeyMap): Result<Option<CloseMethod>, RgbError> {
    if CloseMethodKey() !in store then Ok(None)
    else if store[CloseMethodKey()] == [CloseMethodByte(OpretFirst)] then Ok(Some(OpretFirst))
    else if store[CloseMethodKey()] == [CloseMethodByte(TapretFirst)] then Ok(Some(TapretFirst))
    else Err(InvalidCloseMethod)
  }

  /* A value is kept if its key is already present. */
  function Pushed(store: KeyMap, k: PropKey, v: Bytes): KeyMap {
    if k in store then store else store[k := v]
  }

  /** The keys of a PSBT: prefix, subtype and data; and the byte of each close method. */
  lemma RgbKeys(id: Id, store: KeyMap)
    ensures TransitionKey(id) == PropKey([82, 71, 66], 1, id) && ConsumedByKey(id) == PropKey([82, 71, 66], 4, id)
    ensures CloseMethodKey() == PropKey([82, 71, 66], 2, []) && TapretHostOnChangeKey() == PropKey([82, 71, 66], 3, [])
    ensures ReadCloseMethod(store[CloseMethodKey() := [0]]) == Ok(Some(OpretFirst))
    ensures ReadCloseMethod(store[CloseMethodKey() := [1]]) == Ok(Some(TapretFirst))
  {
  }

  function WithCloseMethod(store: KeyMap, how: CloseMethod): KeyMap {
    Pushed(store, CloseMethodKey(), [CloseMethodByte(how)])
  }

  function ReadContractIds(store: KeyMap): Result<set<ContractId>, RgbError> {
    if exists k :: k in store.Keys && IsConsumerKey(k) && |k.key| != 32 then Err(InvalidContractId)
    else Ok(set k | k in store.Keys && IsConsumerKey(k) && |k.key| == 32 :: ToId(k.key))
  }

  function ToId(b: Bytes): Id
    requires |b| == 32
  {
    b
  }

  function ReadConsumers(store: KeyMap, c: ContractId): Result<ConsumerMap, RgbError> {
    if ConsumedByKey(c) !in store then Ok(map[]) else Decoding(store[ConsumedByKey(c)])
  }

  function ReadTransition(lib: Library, store: KeyMap, opid: OpId): Result<Option<Transition>, RgbError> {
    if TransitionKey(opid) !in store then Ok(None)
    else if |store[TransitionKey(opid)]| > MAX_U24 then Err(TooManyTransitionsInBundle)
    else if lib.decode(store[TransitionKey(opid)]).None? then Err(InvalidTransition)
    else Ok(lib.decode(store[TransitionKey(opid)]))
  }

  ghost function StoreConsumer(store: KeyMap, c: ContractId, o: Opout, opid: OpId): (KeyMap, Result<bool, RgbError>) {
    var key := ConsumedByKey(c);
    if key !in store then (store[key := Encoding(map[o := opid])], Ok(true))
    else
      var items := Decoding(store[key]);
      if items.Err? then (store, Err(items.error))
      else if o in items.value then (store, if items.value[o] != opid then Err(DoubleSpend) else Ok(false))
      else (store[key := Encoding(items.value[o := opid])], Ok(true))
  }

  ghost function StoreConsumers(store: KeyMap, c: ContractId, inputs: seq<Opout>, opid: OpId)
    : (KeyMap, Result<(), RgbError>)
    decreases |inputs|
  {
    if inputs == [] then (store, Ok(()))
    else
      var (store', r) := StoreConsumer(store, c, inputs[0], opid);
      if r.Err? then (store', Err(r.error)) else StoreConsumers(store', c, inputs[1..], opid)
  }

  /* The transition to be written, merged with a stored one of the same id. */
  function Prepare(lib: Library, store: KeyMap, t: Transition): Result<Transition, RgbError> {
    var opid := lib.Id(t);
    var prev := ReadTransition(lib, store, opid);
    if prev.Err? then Err(prev.error)
    else if prev.value.Some? && lib.mergeReveal(t, prev.value.value).None? then
      Err(UnrelatedTransitions(lib.Id(prev.value.value), opid))
    else
      var t' := if prev.value.Some? then lib.mergeReveal(t, prev.value.value).value else t;
      if |lib.encode(t')| > MAX_U24 then Err(TransitionTooBig(opid)) else Ok(t')
  }

  ghost function StorePush(lib: Library, store: KeyMap, t: Transition): (KeyMap, Result<bool, RgbError>) {
    var prepared := Prepare(lib, store, t);
    if prepared.Err? then (store, Err(prepared.error))
    else
      var t' := prepared.value;
      var key := TransitionKey(lib.Id(t));
      var (store', r) := StoreConsumers(Pushed(store, key, lib.encode(t')), t'.content.contractId, t'.Inputs(),
                                        lib.Id(t));
      (store', if r.Err? then Err(r.error) else Ok(key !in store))
  }

  ghost function StoreEmbed(lib: Library, store: KeyMap, batch: seq<Transition>): (KeyMap, Result<(), RgbError>)
    decreases |batch|
  {
    if batch == [] then (store, Ok(()))
    else
      var (store', r) := StorePush(lib, store, batch[0]);
      if r.Err? then (store', Err(r.error)) else StoreEmbed(lib, store', batch[1..])
  }

  ghost function StoreStep(lib: Library, store: KeyMap, call: Call): KeyMap {
    match call
    case PushCall(t) => StorePush(lib, store, t).0
    case ConsumeCall(c, o, opid) => StoreConsumer(store, c, o, opid).0
  }

  ghost function StoreRun(lib: Library, store: KeyMap, calls: seq<Call>): KeyMap
    decreases |calls|
  {
    if calls == [] then store else StoreRun(lib, StoreStep(lib, store, calls[0]), calls[1..])
  }

  ghost predicate HoldsTransitions(lib: Library, store: KeyMap, transitions: map<OpId, Transition>) {
    && (forall id: OpId :: TransitionKey(id) in store <==> id in transitions)
    && (forall id: OpId :: id in transitions ==>
          store[TransitionKey(id)] == lib.encode(transitions[id]) && |lib.encode(transitions[id])| <= MAX_U24)
  }

  ghost predicate HoldsConsumers(store: KeyMap, consumers: map<ContractId, ConsumerMap>) {
    && (forall c: ContractId :: ConsumedByKey(c) in store <==> c in consumers)
    && (forall c: ContractId :: c in consumers ==>
          consumers[c] != map[] && store[ConsumedByKey(c)] == Encoding(consumers[c]))
    && (forall k :: k in store && IsConsumerKey(k) ==> |k.key| == 32)
  }

  /** The RGB keys of `store` hold the abstract state `s`, and hold nothing else. */
  ghost predicate Refines(lib: Library, store: KeyMap, s: Rgb) {
    HoldsTransitions(lib, store, s.transitions) && HoldsConsumers(store, s.consumers)
  }

  /** A PSBT without RGB keys. */
  ghost predicate Fresh(store: KeyMap) {
    forall k :: k in store ==> !IsConsumerKey(k) && !IsTransitionKey(k)
  }

  lemma FreshRefinesEmpty(lib: Library, store: KeyMap)
    requires Fresh(store)
    ensures Refines(lib, store, EMPTY)
  {
  }

  lemma TransitionsRead(lib: Library, store: KeyMap, s: Rgb)
    requires lib.Lawful() && HoldsTransitions(lib, store, s.transitions)
    ensures forall id ::
              ReadTransition(lib, store, id) == Ok(if id in s.transitions then Some(s.transitions[id]) else None)
  {
  }

  lemma ConsumersRead(store: KeyMap, s: Rgb)
    requires HoldsConsumers(store, s.consumers)
    ensures forall c :: ReadConsumers(store, c) == Ok(s.Of(c))
    ensures forall c :: c in s.consumers <==> s.Of(c) != map[]
  {
    forall c ensures ReadConsumers(store, c) == Ok(s.Of(c)) {
      assert ConsumedByKey(c) in store <==> c in s.consumers;
      if c in s.consumers { RoundTrip(s.consumers[c]); }
    }
  }

  lemma ContractIdsRead(store: KeyMap, s: Rgb)
    requires HoldsConsumers(store, s.consumers)
    ensures ReadContractIds(store) == Ok(s.consumers.Keys)
  {
    hide Encoding;
    var ids := ReadContractIds(store);
    assert ids.Ok?;
    forall c ensures c in ids.value <==> c in s.consumers {
      if c in ids.value {
        var k :| k in store.Keys && IsConsumerKey(k) && |k.key| == 32 && ToId(k.key) == c;
        assert k == ConsumedByKey(c);
      }
      if c in s.consumers {
        assert ConsumedByKey(c) in store && ToId(ConsumedByKey(c).key) == c;
      }
    }
    assert ids.value == s.consumers.Keys;
  }

  /** What the readers return: no decode error and no empty consumer map is reachable. */
  lemma ReadsRefine(lib: Library, store: KeyMap, s: Rgb)
    requires lib.Lawful() && Refines(lib, store, s)
    ensures ReadContractIds(store) == Ok(s.consumers.Keys)
    ensures forall c :: ReadConsumers(store, c) == Ok(s.Of(c))
    ensures forall c :: c in s.consumers <==> s.Of(c) != map[]
    ensures forall id ::
              ReadTransition(lib, store, id) == Ok(if id in s.transitions then Some(s.transitions[id]) else None)
  {
    TransitionsRead(lib, store, s);
    ConsumersRead(store, s);
    ContractIdsRead(store, s);
  }

  /** The abstract state is determined by the bytes. */
  lemma RefinedStateUnique(lib: Library, store: KeyMap, s: Rgb, s': Rgb)
    requires lib.Lawful() && Refines(lib, store, s) && Refines(lib, store, s')
    ensures s == s'
  {
    assert s.transitions == s'.transitions by {
      TransitionsRead(lib, store, s);
      TransitionsRead(lib, store, s');
      forall id ensures id in s.transitions <==> id in s'.transitions
                ensures id in s.transitions ==> s.transitions[id] == s'.transitions[id]
      {
        var r := ReadTransition(lib, store, id);
        assert r == Ok(if id in s.transitions then Some(s.transitions[id]) else None);
        assert r == Ok(if id in s'.transitions then Some(s'.transitions[id]) else None);
      }
    }
    assert s.consumers == s'.consumers by {
      ConsumersRead(store, s);
      ConsumersRead(store, s');
      forall c ensures c in s.consumers <==> c in s'.consumers
               ensures c in s.consumers ==> s.consumers[c] == s'.consumers[c]
      {
        assert ReadConsumers(store, c) == Ok(s.Of(c));
        assert s.Of(c) == s'.Of(c);
      }
    }
  }

  lemma WriteConsumers(store: KeyMap, consumers: map<ContractId, ConsumerMap>, c: ContractId, m: ConsumerMap)
    requires HoldsConsumers(store, consumers) && m != map[]
    ensures HoldsConsumers(store[ConsumedByKey(c) := Encoding(m)], consumers[c := m])
  {
    hide Encoding;
  }

  lemma ConsumerUpdate(store: KeyMap, s: Rgb, c: ContractId, o: Opout, opid: OpId)
    requires HoldsConsumers(store, s.consumers)
    ensures HoldsConsumers(StoreConsumer(store, c, o, opid).0, Consume(s, c, o, opid).0.consumers)
    ensures StoreConsumer(store, c, o, opid).1 == Consume(s, c, o, opid).1
  {
    hide Encoding, Decoding;
    assert ReadConsumers(store, c) == Ok(s.Of(c)) by { ConsumersRead(store, s); }
    var empty: ConsumerMap := map[];
    assert empty[o := opid] == map[o := opid];
    assert ConsumedByKey(c) in store <==> c in s.consumers;
    assert o in s.Of(c)[o := opid];
    WriteConsumers(store, s.consumers, c, s.Of(c)[o := opid]);
  }

  lemma ConsumerWritesOneKey(store: KeyMap, c: ContractId, o: Opout, opid: OpId)
    ensures forall k :: k != ConsumedByKey(c) ==>
              && (k in StoreConsumer(store, c, o, opid).0 <==> k in store)
              && (k in store ==> StoreConsumer(store, c, o, opid).0[k] == store[k])
  {
  }

  lemma ConsumerKeepsTransitions(lib: Library, store: KeyMap, transitions: map<OpId, Transition>, c: ContractId,
                                 o: Opout, opid: OpId)
    requires HoldsTransitions(lib, store, transitions)
    ensures HoldsTransitions(lib, StoreConsumer(store, c, o, opid).0, transitions)
  {
    ConsumerWritesOneKey(store, c, o, opid);
  }

  lemma ConsumerRefines(lib: Library, store: KeyMap, s: Rgb, c: ContractId, o: Opout, opid: OpId)
    requires Refines(lib, store, s)
    ensures Refines(lib, StoreConsumer(store, c, o, opid).0, Consume(s, c, o, opid).0)
    ensures StoreConsumer(store, c, o, opid).1 == Consume(s, c, o, opid).1
  {
    ConsumerUpdate(store, s, c, o, opid);
    ConsumerKeepsTransitions(lib, store, s.transitions, c, o, opid);
  }

  lemma {:induction false} ConsumersRefine(lib: Library, store: KeyMap, s: Rgb, c: ContractId, inputs: seq<Opout>,
                                           opid: OpId)
    requires Refines(lib, store, s)
    ensures Refines(lib, StoreConsumers(store, c, inputs, opid).0, ConsumeAll(s, c, inputs, opid).0)
    ensures StoreConsumers(store, c, inputs, opid).1 == ConsumeAll(s, c, inputs, opid).1
    decreases |inputs|
  {
    if inputs != [] {
      ConsumerRefines(lib, store, s, c, inputs[0], opid);
      ConsumersRefine(lib, StoreConsumer(store, c, inputs[0], opid).0, Consume(s, c, inputs[0], opid).0, c,
                      inputs[1..], opid);
    }
  }

  lemma PrepareRefines(lib: Library, store: KeyMap, s: Rgb, t: Transition)
    requires lib.Lawful() && Refines(lib, store, s)
    ensures Prepare(lib, store, t) == Admit(lib, s, t)
    ensures Admit(lib, s, t).Ok? ==> Admit(lib, s, t).value.content == t.content
  {
    TransitionsRead(lib, store, s);
    assert ReadTransition(lib, store, lib.Id(t)) ==
           Ok(if lib.Id(t) in s.transitions then Some(s.transitions[lib.Id(t)]) else None);
  }

  lemma WriteTransition(lib: Library, store: KeyMap, s: Rgb, t: Transition)
    requires lib.Lawful() && Refines(lib, store, s) && Admit(lib, s, t).Ok?
    ensures Refines(lib, Pushed(store, TransitionKey(lib.Id(t)), lib.encode(Admit(lib, s, t).value)),
                    Remember(lib, s, t))
  {
    assert TransitionKey(lib.Id(t)) in store <==> lib.Id(t) in s.transitions;
  }

  /** A push on the bytes is a push on the abstract state, with the same answer. */
  lemma PushRefines(lib: Library, store: KeyMap, s: Rgb, t: Transition)
    requires lib.Lawful() && Refines(lib, store, s)
    ensures Refines(lib, StorePush(lib, store, t).0, Push(lib, s, t).0)
    ensures StorePush(lib, store, t).1 == Push(lib, s, t).1
  {
    PrepareRefines(lib, store, s, t);
    if Admit(lib, s, t).Ok? {
      assert TransitionKey(lib.Id(t)) in store <==> lib.Id(t) in s.transitions;
      WriteTransition(lib, store, s, t);
      ConsumersRefine(lib, Pushed(store, TransitionKey(lib.Id(t)), lib.encode(Admit(lib, s, t).value)),
                      Remember(lib, s, t), t.content.contractId, t.Inputs(), lib.Id(t));
    }
  }

  lemma {:induction false} EmbedRefines(lib: Library, store: KeyMap, s: Rgb, batch: seq<Transition>)
    requires lib.Lawful() && Refines(lib, store, s)
    ensures Refines(lib, StoreEmbed(lib, store, batch).0, Embed(lib, s, batch).0)
    ensures StoreEmbed(lib, store, batch).1 == Embed(lib, s, batch).1
    decreases |batch|
  {
    if batch != [] {
      PushRefines(lib, store, s, batch[0]);
      EmbedRefines(lib, StorePush(lib, store, batch[0]).0, Push(lib, s, batch[0]).0, batch[1..]);
    }
  }

  /** Across every sequence of calls, failed ones included, the bytes hold what the abstract ledger holds. */
  lemma {:induction false} RunRefines(lib: Library, store: KeyMap, s: Rgb, calls: seq<Call>)
    requires lib.Lawful() && Refines(lib, store, s)
    ensures Refines(lib, StoreRun(lib, store, calls), Run(lib, s, calls))
    decreases |calls|
  {
    if calls != [] {
      match calls[0] {
        case PushCall(t) => PushRefines(lib, store, s, t);
        case ConsumeCall(c, o, opid) => ConsumerRefines(lib, store, s, c, o, opid);
      }
      RunRefines(lib, StoreStep(lib, store, calls[0]), Step(lib, s, calls[0]), calls[1..]);
    }
  }

  /** After any calls on a fresh PSBT, reading the bytes gives the abstract ledger, without errors or empty entries. */
  lemma RunsReadBack(lib: Library, store: KeyMap, calls: seq<Call>)
    requires lib.Lawful() && Fresh(store)
    ensures var store', s := StoreRun(lib, store, calls), Run(lib, EMPTY, calls);
      && ReadContractIds(store') == Ok(s.consumers.Keys)
      && (forall c :: ReadConsumers(store', c) == Ok(s.Of(c)))
      && (forall c :: c in s.consumers <==> s.Of(c) != map[])
      && (forall id ::
            ReadTransition(lib, store', id) == Ok(if id in s.transitions then Some(s.transitions[id]) else None))
  {
    FreshRefinesEmpty(lib, store);
    RunRefines(lib, store, EMPTY, calls);
    ReadsRefine(lib, StoreRun(lib, store, calls), Run(lib, EMPTY, calls));
  }

  /** What was once read as the spender of an opout is read after every later run, failed calls included. */
  lemma SpenderReadForever(lib: Library, store: KeyMap, s: Rgb, calls: seq<Call>, c: ContractId, o: Opout)
    requires lib.Lawful() && Refines(lib, store, s)
    requires ReadConsumers(store, c).Ok? && o in ReadConsumers(store, c).value
    ensures ReadConsumers(StoreRun(lib, store, calls), c).Ok?
    ensures o in ReadConsumers(StoreRun(lib, store, calls), c).value
    ensures ReadConsumers(StoreRun(lib, store, calls), c).value[o] == ReadConsumers(store, c).value[o]
  {
    var s' := Run(lib, s, calls);
    assert ReadConsumers(store, c) == Ok(s.Of(c)) by { ConsumersRead(store, s); }
    RunRefines(lib, store, s, calls);
    assert ReadConsumers(StoreRun(lib, store, calls), c) == Ok(s'.Of(c)) by {
      ConsumersRead(StoreRun(lib, store, calls), s');
    }
    SpenderForever(lib, s, calls);
    assert s.Records(c, o) && s'.Records(c, o) && s'.Spender(c, o) == s.Spender(c, o);
  }

  /* Keys other than the RGB transition and consumer keys. */
  ghost predicate SameElsewhere(store: KeyMap, store': KeyMap) {
    forall k :: !IsConsumerKey(k) && !IsTransitionKey(k) ==>
      (k in store <==> k in store') && (k in store ==> store'[k] == store[k])
  }

  lemma {:induction false} ConsumersLeaveOtherKeys(store: KeyMap, c: ContractId, inputs: seq<Opout>, opid: OpId)
    ensures SameElsewhere(store, StoreConsumers(store, c, inputs, opid).0)
    decreases |inputs|
  {
    if inputs != [] {
      ConsumersLeaveOtherKeys(StoreConsumer(store, c, inputs[0], opid).0, c, inputs[1..], opid);
    }
  }

  lemma {:induction false} EmbedLeavesOtherKeys(lib: Library, store: KeyMap, batch: seq<Transition>)
    ensures SameElsewhere(store, StoreEmbed(lib, store, batch).0)
    decreases |batch|
  {
    if batch != [] {
      var prepared := Prepare(lib, store, batch[0]);
      if prepared.Ok? {
        var key := TransitionKey(lib.Id(batch[0]));
        ConsumersLeaveOtherKeys(Pushed(store, key, lib.encode(prepared.value)), prepared.value.content.contractId,
                                prepared.value.Inputs(), lib.Id(batch[0]));
      }
      EmbedLeavesOtherKeys(lib, StorePush(lib, store, batch[0]).0, batch[1..]);
    }
  }
}
