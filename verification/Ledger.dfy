/**
 * The abstract state behind the RGB keys of a PSBT: which transitions are stored and, per contract, which
 * operation spends each recorded opout.
 */
module Ledger {
  import opened Base
  import opened Protocol

  type ConsumerMap = map<Opout, OpId>

  datatype Rgb = Rgb(transitions: map<OpId, Transition>, consumers: map<ContractId, ConsumerMap>) {
    predicate Records(c: ContractId, o: Opout) {
      c in consumers && o in consumers[c]
    }

    /* The operation recorded as the spender of `o`. */
    function Spender(c: ContractId, o: Opout): OpId
      requires Records(c, o)
    {
      consumers[c][o]
    }

    predicate SpentByOther(c: ContractId, o: Opout, opid: OpId) {
      Records(c, o) && Spender(c, o) != opid
    }

    function Of(c: ContractId): ConsumerMap {
      if c in consumers then consumers[c] else map[]
    }
  }

  const EMPTY := Rgb(map[], map[])

  function Consume(s: Rgb, c: ContractId, o: Opout, opid: OpId): (Rgb, Result<bool, RgbError>) {
    if s.SpentByOther(c, o, opid) then (s, Err(DoubleSpend))
    else if s.Records(c, o) then (s, Ok(false))
    else (s.(consumers := s.consumers[c := s.Of(c)[o := opid]]), Ok(true))
  }

  /* Consumes one opout after another and stops at the first failure, keeping what was recorded. */
  function ConsumeAll(s: Rgb, c: ContractId, inputs: seq<Opout>, opid: OpId): (Rgb, Result<(), RgbError>)
    decreases |inputs|
  {
    if inputs == [] then (s, Ok(()))
    else
      var (s', r) := Consume(s, c, inputs[0], opid);
      if r.Err? then (s', Err(r.error)) else ConsumeAll(s', c, inputs[1..], opid)
  }

  /* Checks made before anything is written. */
  function Admit(lib: Library, s: Rgb, t: Transition): Result<Transition, RgbError> {
    var opid := lib.Id(t);
    if opid in s.transitions && lib.mergeReveal(t, s.transitions[opid]).None? then
      Err(UnrelatedTransitions(lib.Id(s.transitions[opid]), opid))
    else
      var t' := if opid in s.transitions then lib.mergeReveal(t, s.transitions[opid]).value else t;
      if |lib.encode(t')| > MAX_U24 then Err(TransitionTooBig(opid)) else Ok(t')
  }

  function Remember(lib: Library, s: Rgb, t: Transition): Rgb {
    if lib.Id(t) in s.transitions then s else s.(transitions := s.transitions[lib.Id(t) := t])
  }

  ghost function Push(lib: Library, s: Rgb, t: Transition): (Rgb, Result<bool, RgbError>) {
    var admitted := Admit(lib, s, t);
    if admitted.Err? then (s, Err(admitted.error))
    else
      var (s', r) := ConsumeAll(Remember(lib, s, t), t.content.contractId, t.Inputs(), lib.Id(t));
      (s', if r.Err? then Err(r.error) else Ok(lib.Id(t) !in s.transitions))
  }

  ghost function Embed(lib: Library, s: Rgb, batch: seq<Transition>): (Rgb, Result<(), RgbError>)
    decreases |batch|
  {
    if batch == [] then (s, Ok(()))
    else
      var (s', r) := Push(lib, s, batch[0]);
      if r.Err? then (s', Err(r.error)) else Embed(lib, s', batch[1..])
  }

  /** Any call a user of the PSBT can make on its RGB keys; failed calls leave what they did. */
  datatype Call = PushCall(transition: Transition) | ConsumeCall(contractId: ContractId, opout: Opout, opid: OpId)

  ghost function Step(lib: Library, s: Rgb, call: Call): Rgb {
    match call
    case PushCall(t) => Push(lib, s, t).0
    case ConsumeCall(c, o, opid) => Consume(s, c, o, opid).0
  }

  ghost function Run(lib: Library, s: Rgb, calls: seq<Call>): Rgb
    decreases |calls|
  {
    if calls == [] then s else Run(lib, Step(lib, s, calls[0]), calls[1..])
  }

  /* `s'` forgets nothing that `s` records or stores. */
  ghost predicate Extends(s: Rgb, s': Rgb) {
    && (forall id :: id in s.transitions ==> id in s'.transitions && s'.transitions[id] == s.transitions[id])
    && (forall c, o :: s.Records(c, o) ==> s'.Records(c, o) && s'.Spender(c, o) == s.Spender(c, o))
  }

  /** Consuming a list of opouts fails exactly when one of them already has another spender. */
  lemma {:induction false} ConsumeAllFailsIff(s: Rgb, c: ContractId, inputs: seq<Opout>, opid: OpId)
    ensures var r := ConsumeAll(s, c, inputs, opid).1;
      && (r.Err? <==> exists o :: o in inputs && s.SpentByOther(c, o, opid))
      && (r.Err? ==> r.error == DoubleSpend)
    decreases |inputs|
  {
    if inputs != [] {
      var (s', r) := Consume(s, c, inputs[0], opid);
      assert forall o :: o in inputs <==> o == inputs[0] || o in inputs[1..];
      assert r.Ok? ==> forall o :: s'.SpentByOther(c, o, opid) <==> s.SpentByOther(c, o, opid);
      ConsumeAllFailsIff(s', c, inputs[1..], opid);
    }
  }

  /** What is recorded after it: nothing is lost, and what is new is one of the inputs under this spender. */
  lemma {:induction false} ConsumeAllRecords(s: Rgb, c: ContractId, inputs: seq<Opout>, opid: OpId)
    ensures var (s', r) := ConsumeAll(s, c, inputs, opid);
      && s'.transitions == s.transitions
      && Extends(s, s')
      && (forall d, o :: s'.Records(d, o) && !s.Records(d, o) ==> d == c && o in inputs && s'.Spender(d, o) == opid)
      && (r.Ok? ==> forall o :: o in inputs ==> s'.Records(c, o) && s'.Spender(c, o) == opid)
    decreases |inputs|
  {
    if inputs != [] {
      var (s', r) := Consume(s, c, inputs[0], opid);
      assert forall o :: o in inputs <==> o == inputs[0] || o in inputs[1..];
      assert Extends(s, s');
      ConsumeAllRecords(s', c, inputs[1..], opid);
    }
  }

  /** A transition is admitted exactly when it merges with a stored one of its id, if any, and is small enough. */
  lemma AdmitIff(lib: Library, s: Rgb, t: Transition)
    ensures var id := lib.opid(t.content);
      Admit(lib, s, t).Ok? <==>
        if id in s.transitions then
          var merged := lib.mergeReveal(t, s.transitions[id]);
          merged.Some? && |lib.encode(merged.value)| <= 0xFF_FFFF
        else |lib.encode(t)| <= 0xFF_FFFF
  {
  }

  lemma PushExtends(lib: Library, s: Rgb, t: Transition)
    ensures Extends(s, Push(lib, s, t).0)
  {
    var s1 := Remember(lib, s, t);
    ConsumeAllRecords(s1, t.content.contractId, t.Inputs(), lib.Id(t));
    assert s1.consumers == s.consumers;
  }

  /** An opout once recorded keeps its spender through every later run, failed calls included. */
  lemma {:induction false} SpenderForever(lib: Library, s: Rgb, calls: seq<Call>)
    ensures Extends(s, Run(lib, s, calls))
    decreases |calls|
  {
    if calls != [] {
      if calls[0].PushCall? {
        PushExtends(lib, s, calls[0].transition);
      }
      SpenderForever(lib, Step(lib, s, calls[0]), calls[1..]);
    }
  }

  /** An admissible push fails exactly when some input already has another spender, and reports it. */
  lemma DoubleSpendIff(lib: Library, s: Rgb, t: Transition)
    requires Admit(lib, s, t).Ok?
    ensures Push(lib, s, t).1.Err? <==>
              exists o :: o in t.content.inputs && s.SpentByOther(t.content.contractId, o, lib.Id(t))
    ensures Push(lib, s, t).1.Err? ==> Push(lib, s, t).1.error == DoubleSpend
  {
    ConsumeAllFailsIff(Remember(lib, s, t), t.content.contractId, t.Inputs(), lib.Id(t));
    assert forall o :: Remember(lib, s, t).SpentByOther(t.content.contractId, o, lib.Id(t)) <==>
        s.SpentByOther(t.content.contractId, o, lib.Id(t));
    assert forall o :: o in t.Inputs() <==> o in t.content.inputs;
  }

  /* Recording recorded inputs again changes nothing. */
  lemma {:induction false} ConsumeAllAgain(s: Rgb, c: ContractId, inputs: seq<Opout>, opid: OpId)
    requires forall o :: o in inputs ==> s.Records(c, o) && s.Spender(c, o) == opid
    ensures ConsumeAll(s, c, inputs, opid) == (s, Ok(()))
    decreases |inputs|
  {
    if inputs != [] {
      assert inputs[0] in inputs;
      ConsumeAllAgain(s, c, inputs[1..], opid);
    }
  }

  /** A push that succeeds answers whether the operation is new, consuming whether anything was recorded. */
  lemma AnswersTellNews(lib: Library, s: Rgb, t: Transition, c: ContractId, o: Opout, opid: OpId)
    ensures Push(lib, s, t).1.Ok? ==> (Push(lib, s, t).1.value <==> lib.Id(t) !in s.transitions)
    ensures Consume(s, c, o, opid).1 == Ok(true) <==> !s.Records(c, o)
    ensures Consume(s, c, o, opid).1 == Ok(false) <==> s.Records(c, o) && s.Spender(c, o) == opid
  {
  }

  /** Pushing the same transition again succeeds, reports that it was there and changes nothing. */
  lemma PushAgain(lib: Library, s: Rgb, t: Transition)
    requires lib.Lawful() && Push(lib, s, t).1.Ok?
    ensures Push(lib, Push(lib, s, t).0, t) == (Push(lib, s, t).0, Ok(false))
  {
    var s' := Push(lib, s, t).0;
    assert forall o :: o in t.Inputs() ==>
             s'.Records(t.content.contractId, o) && s'.Spender(t.content.contractId, o) == lib.Id(t) by {
      PushRecords(lib, s, t);
      assert forall o :: o in t.Inputs() ==> Consumes(t, t.content.contractId, o);
    }
    assert s'.transitions == Remember(lib, s, t).transitions by { PushRecords(lib, s, t); }
    ConsumeAllAgain(s', t.content.contractId, t.Inputs(), lib.Id(t));
    assert Remember(lib, s', t) == s';
    assert Admit(lib, s', t).Ok?;
  }

  /** Among these transitions the hash separates different contents. */
  ghost predicate CollisionFree(lib: Library, ts: set<Transition>) {
    forall t, u :: t in ts && u in ts && lib.Id(t) == lib.Id(u) ==> t.content == u.content
  }

  /* Every stored transition is one of `ts` and is stored under its own id. */
  ghost predicate Stores(lib: Library, s: Rgb, ts: set<Transition>) {
    forall id :: id in s.transitions ==> s.transitions[id] in ts && lib.Id(s.transitions[id]) == id
  }

  /* Every recorded spender is stored, belongs to the contract and lists the opout as its input. */
  ghost predicate Backed(s: Rgb) {
    forall c, o :: s.Records(c, o) ==>
      && s.Spender(c, o) in s.transitions
      && s.transitions[s.Spender(c, o)].content.contractId == c
      && o in s.transitions[s.Spender(c, o)].content.inputs
  }

  lemma PushKeepsBacked(lib: Library, s: Rgb, t: Transition, ts: set<Transition>)
    requires CollisionFree(lib, ts) && t in ts
    requires Stores(lib, s, ts) && Backed(s)
    ensures Stores(lib, Push(lib, s, t).0, ts) && Backed(Push(lib, s, t).0)
  {
    var s1 := Remember(lib, s, t);
    assert s1.transitions[lib.Id(t)].content == t.content;
    ConsumeAllRecords(s1, t.content.contractId, t.Inputs(), lib.Id(t));
    var s' := Push(lib, s, t).0;
    forall c, o | s'.Records(c, o)
      ensures s'.Spender(c, o) in s'.transitions
      ensures s'.transitions[s'.Spender(c, o)].content.contractId == c
      ensures o in s'.transitions[s'.Spender(c, o)].content.inputs
    {
      if s.Records(c, o) {
        assert s'.Spender(c, o) == s.Spender(c, o);
      } else {
        assert !s1.Records(c, o);
      }
    }
  }

  ghost function Pushes(ts: seq<Transition>): seq<Call> {
    seq(|ts|, i requires 0 <= i < |ts| => PushCall(ts[i]))
  }

  /** Over every run of pushes, failed ones included, every record is backed by a stored transition. */
  lemma {:induction false} RecordsBackedOverRuns(lib: Library, s: Rgb, pushed: seq<Transition>, ts: set<Transition>)
    requires CollisionFree(lib, ts) && forall t :: t in pushed ==> t in ts
    requires Stores(lib, s, ts) && Backed(s)
    ensures Stores(lib, Run(lib, s, Pushes(pushed)), ts) && Backed(Run(lib, s, Pushes(pushed)))
    decreases |pushed|
  {
    if pushed != [] {
      PushKeepsBacked(lib, s, pushed[0], ts);
      assert Pushes(pushed)[1..] == Pushes(pushed[1..]);
      RecordsBackedOverRuns(lib, Push(lib, s, pushed[0]).0, pushed[1..], ts);
    }
  }

  /* What a successful push adds. */
  lemma PushRecords(lib: Library, s: Rgb, t: Transition)
    requires Push(lib, s, t).1.Ok?
    ensures Push(lib, s, t).0.transitions == Remember(lib, s, t).transitions
    ensures forall d, o :: Push(lib, s, t).0.Records(d, o) && !s.Records(d, o) ==>
              Consumes(t, d, o) && Push(lib, s, t).0.Spender(d, o) == lib.Id(t)
    ensures forall d, o :: Consumes(t, d, o) ==>
              Push(lib, s, t).0.Records(d, o) && Push(lib, s, t).0.Spender(d, o) == lib.Id(t)
  {
    var s1 := Remember(lib, s, t);
    ConsumeAllRecords(s1, t.content.contractId, t.Inputs(), lib.Id(t));
    assert forall o :: o in t.Inputs() <==> o in t.content.inputs;
    assert s1.consumers == s.consumers;
    assert Push(lib, s, t).0 == ConsumeAll(s1, t.content.contractId, t.Inputs(), lib.Id(t)).0;
  }

  predicate Consumes(t: Transition, c: ContractId, o: Opout) {
    t.content.contractId == c && o in t.content.inputs
  }

  /* Two transitions of the batch, or one of them and the ledger, compete for an opout. */
  ghost predicate Conflict(lib: Library, s: Rgb, batch: seq<Transition>) {
    || (exists i, c, o :: 0 <= i < |batch| && Consumes(batch[i], c, o) && s.SpentByOther(c, o, lib.Id(batch[i])))
    || (exists i, j, c, o :: 0 <= i < j < |batch| && Consumes(batch[i], c, o) && Consumes(batch[j], c, o)
                              && lib.Id(batch[i]) != lib.Id(batch[j]))
  }

  lemma ConflictInTail(lib: Library, s: Rgb, batch: seq<Transition>)
    requires batch != [] && Push(lib, s, batch[0]).1.Ok?
    requires Conflict(lib, Push(lib, s, batch[0]).0, batch[1..])
    ensures Conflict(lib, s, batch)
  {
    var s', tail := Push(lib, s, batch[0]).0, batch[1..];
    PushRecords(lib, s, batch[0]);
    PushExtends(lib, s, batch[0]);
    if i, c, o :| 0 <= i < |tail| && Consumes(tail[i], c, o) && s'.SpentByOther(c, o, lib.Id(tail[i])) {
      assert tail[i] == batch[i + 1];
      if !s.Records(c, o) {
        assert Consumes(batch[0], c, o);
      }
    } else {
      var i, j, c, o :| 0 <= i < j < |tail| && Consumes(tail[i], c, o) && Consumes(tail[j], c, o)
                        && lib.Id(tail[i]) != lib.Id(tail[j]);
      assert tail[i] == batch[i + 1] && tail[j] == batch[j + 1];
    }
  }

  lemma ConflictReachesTail(lib: Library, s: Rgb, batch: seq<Transition>)
    requires batch != [] && Push(lib, s, batch[0]).1.Ok?
    requires Conflict(lib, s, batch)
    ensures Conflict(lib, Push(lib, s, batch[0]).0, batch[1..])
  {
    var s', tail := Push(lib, s, batch[0]).0, batch[1..];
    assert Extends(s, s') by { PushExtends(lib, s, batch[0]); }
    assert forall d, o :: Consumes(batch[0], d, o) ==> s'.Records(d, o) && s'.Spender(d, o) == lib.Id(batch[0]) by {
      PushRecords(lib, s, batch[0]);
    }
    hide Push;
    if i, c, o :| 0 <= i < |batch| && Consumes(batch[i], c, o) && s.SpentByOther(c, o, lib.Id(batch[i])) {
      assert s'.SpentByOther(c, o, lib.Id(batch[i]));
      assert i > 0;
      assert tail[i - 1] == batch[i];
    } else {
      var i, j, c, o :| 0 <= i < j < |batch| && Consumes(batch[i], c, o) && Consumes(batch[j], c, o)
                        && lib.Id(batch[i]) != lib.Id(batch[j]);
      assert tail[j - 1] == batch[j];
      if i == 0 {
        assert s'.SpentByOther(c, o, lib.Id(batch[j]));
      } else {
        assert tail[i - 1] == batch[i];
      }
    }
  }

  /** Embedding reports a double spend only for a real conflict, and never succeeds on one. */
  lemma {:induction false} EmbedDoubleSpend(lib: Library, s: Rgb, batch: seq<Transition>)
    ensures Embed(lib, s, batch).1 == Err(DoubleSpend) ==> Conflict(lib, s, batch)
    ensures Embed(lib, s, batch).1.Ok? ==> !Conflict(lib, s, batch)
    decreases |batch|
  {
    if batch != [] {
      var (s', r) := Push(lib, s, batch[0]);
      if r.Ok? {
        EmbedDoubleSpend(lib, s', batch[1..]);
        if Conflict(lib, s', batch[1..]) { ConflictInTail(lib, s, batch); }
        if Conflict(lib, s, batch) { ConflictReachesTail(lib, s, batch); }
      } else if r.error == DoubleSpend {
        ConflictOfFirst(lib, s, batch);
      }
    }
  }

  /* The operations of the batch are new, and no two of them are the same. */
  ghost predicate NewOperations(lib: Library, s: Rgb, batch: seq<Transition>) {
    && (forall i :: 0 <= i < |batch| ==> lib.Id(batch[i]) !in s.transitions)
    && (forall i, j :: 0 <= i < j < |batch| ==> lib.Id(batch[i]) != lib.Id(batch[j]))
  }

  ghost predicate AllFit(lib: Library, batch: seq<Transition>) {
    forall i :: 0 <= i < |batch| ==> |lib.encode(batch[i])| <= 0xFF_FFFF
  }

  lemma ConflictOfFirst(lib: Library, s: Rgb, batch: seq<Transition>)
    requires batch != [] && Push(lib, s, batch[0]).1 == Err(DoubleSpend) && Admit(lib, s, batch[0]).Ok?
    ensures Conflict(lib, s, batch)
  {
    DoubleSpendIff(lib, s, batch[0]);
    var o :| o in batch[0].content.inputs && s.SpentByOther(batch[0].content.contractId, o, lib.Id(batch[0]));
    assert Consumes(batch[0], batch[0].content.contractId, o);
  }

  /** Embedding new operations succeeds exactly when they fit and do not compete for an opout. */
  lemma {:induction false} EmbedSucceedsIff(lib: Library, s: Rgb, batch: seq<Transition>)
    requires NewOperations(lib, s, batch)
    ensures Embed(lib, s, batch).1.Ok? <==> AllFit(lib, batch) && !Conflict(lib, s, batch)
    ensures Embed(lib, s, batch).1.Err? ==>
              Embed(lib, s, batch).1.error.DoubleSpend? || Embed(lib, s, batch).1.error.TransitionTooBig?
    decreases |batch|
  {
    if batch != [] {
      var t, tail := batch[0], batch[1..];
      var (s', r) := Push(lib, s, t);
      assert forall i :: 0 <= i < |tail| ==> tail[i] == batch[i + 1];
      assert AllFit(lib, batch) <==> |lib.encode(t)| <= MAX_U24 && AllFit(lib, tail) by {
        assert AllFit(lib, batch) ==> |lib.encode(batch[0])| <= MAX_U24;
        assert forall i :: 0 < i < |batch| ==> batch[i] == tail[i - 1];
      }
      if Admit(lib, s, t).Ok? { DoubleSpendIff(lib, s, t); }
      if r.Ok? {
        PushRecords(lib, s, t);
        assert NewOperations(lib, s', tail);
        hide Push, Conflict, AllFit, NewOperations;
        EmbedSucceedsIff(lib, s', tail);
        if Conflict(lib, s', tail) { ConflictInTail(lib, s, batch); }
        if Conflict(lib, s, batch) { ConflictReachesTail(lib, s, batch); }
      } else if Admit(lib, s, t).Ok? {
        ConflictOfFirst(lib, s, batch);
      }
    }
  }

  ghost predicate ConsumedIn(lib: Library, batch: seq<Transition>, c: ContractId, o: Opout, opid: OpId) {
    exists t :: t in batch && Consumes(t, c, o) && lib.Id(t) == opid
  }

  /** A successful embedding records exactly the inputs of the batch, each under its own transition. */
  lemma {:induction false} EmbedRecords(lib: Library, s: Rgb, batch: seq<Transition>)
    requires Embed(lib, s, batch).1.Ok?
    ensures var s' := Embed(lib, s, batch).0;
      && Extends(s, s')
      && (forall c, o :: s'.Records(c, o) && !s.Records(c, o) ==> ConsumedIn(lib, batch, c, o, s'.Spender(c, o)))
      && (forall t, c, o :: t in batch && Consumes(t, c, o) ==> s'.Records(c, o) && s'.Spender(c, o) == lib.Id(t))
      && (forall t :: t in batch ==> lib.Id(t) in s'.transitions)
      && (forall id :: id in s'.transitions && id !in s.transitions ==>
          s'.transitions[id] in batch && lib.Id(s'.transitions[id]) == id)
    decreases |batch|
  {
    if batch != [] {
      var s1 := Push(lib, s, batch[0]).0;
      PushRecords(lib, s, batch[0]);
      PushExtends(lib, s, batch[0]);
      EmbedRecords(lib, s1, batch[1..]);
      var s' := Embed(lib, s, batch).0;
      assert forall t :: t in batch <==> t == batch[0] || t in batch[1..];
      forall c, o | s'.Records(c, o) && !s.Records(c, o) ensures ConsumedIn(lib, batch, c, o, s'.Spender(c, o)) {
        if s1.Records(c, o) {
          assert Consumes(batch[0], c, o) && s'.Spender(c, o) == s1.Spender(c, o) == lib.Id(batch[0]);
        } else {
          assert ConsumedIn(lib, batch[1..], c, o, s'.Spender(c, o));
        }
      }
    }
  }
}
