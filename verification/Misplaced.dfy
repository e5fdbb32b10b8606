/** A commitment that succeeds on another output than the one that was given the messages. */
module Misplaced {
  import opened Base
  import opened Protocol
  import opened ConsumerCodec
  import opened Store
  import opened OutputState
  import opened TransitionOrder
  import opened Bundles
  import opened Commitment

  /* An opret output marked as host, with one message. */
  function LoneHost(message: Id): OutState {
    OutState(OpReturn([]), map[OpretHostKey() := [], MpcMessageKey(message) := message], None, None, [], [])
  }

  lemma OneMessageEntry(message: Id)
    ensures MessageEntries(map[message := message]) == map[MpcMessageKey(message) := message]
  {
  }

  lemma LoneHostReads(message: Id)
    ensures ReadMessages(LoneHost(message).proprietary) == Ok(map[message := message])
  {
    var bare := OutState(OpReturn([]), map[OpretHostKey() := []], None, None, [], []);
    var store := LoneHost(message).proprietary;
    OneMessageEntry(message);
    assert store == Given(bare, map[message := message]).proprietary;
    assert MessageProtocols(store) == {message} by {
      assert MpcMessageKey(message) in store && ToId(MpcMessageKey(message).key) == message;
    }
    assert ReadMessages(store).Ok?;
    GivenMessagesReadIff(bare, map[message := message]);
  }

  lemma LoneHostCommits(lib: CommitLibrary, message: Id, random: U64)
    requires lib.mpcTree(MpcSource(None, map[message := message], None), random).Some?
    ensures CommitOutput(lib, LoneHost(message), OpretFirst, random).1.Ok?
  {
    LoneHostReads(message);
  }

  /* Two outputs marked for opret, the first without a matching script. */
  function MisplacedHosts(message: Id): seq<OutState> {
    [OutState(Other([]), map[OpretHostKey() := []], None, None, [], []), LoneHost(message)]
  }

  /* A store with one transition of one contract, that spends one opout. */
  ghost function LoneStore(opLib: Library, t: Transition, o: Opout): KeyMap {
    map[CloseMethodKey() := [CloseMethodByte(OpretFirst)],
        ConsumedByKey(t.content.contractId) := Encoding(map[o := opLib.Id(t)]),
        TransitionKey(opLib.Id(t)) := opLib.encode(t)]
  }

  /* The transition can be stored, and does not spend its own output. */
  ghost predicate IsLone(opLib: Library, t: Transition, o: Opout) {
    && opLib.decode(opLib.encode(t)) == Some(t) && |opLib.encode(t)| <= MAX_U24
    && t.content.inputs == {o} && o.op != opLib.Id(t)
  }

  lemma LoneStoreReads(opLib: Library, t: Transition, o: Opout)
    requires IsLone(opLib, t, o)
    ensures var store, c := LoneStore(opLib, t, o), t.content.contractId;
      && ReadCloseMethod(store) == Ok(Some(OpretFirst))
      && ReadContractIds(store) == Ok({c})
      && ReadConsumers(store, c) == Ok(map[o := opLib.Id(t)])
      && ReadTransition(opLib, store, opLib.Id(t)) == Ok(Some(t))
  {
    var store, c := LoneStore(opLib, t, o), t.content.contractId;
    RoundTrip(map[o := opLib.Id(t)]);
    assert ConsumedByKey(c) in store && ToId(ConsumedByKey(c).key) == c;
    assert ReadContractIds(store).Ok?;
    assert ReadContractIds(store).value == {c};
  }

  lemma LoneStoreReady(opLib: Library, t: Transition, o: Opout)
    requires IsLone(opLib, t, o)
    ensures BundlesReady(opLib, LoneStore(opLib, t, o))
  {
    var store, id, m := LoneStore(opLib, t, o), opLib.Id(t), map[o := opLib.Id(t)];
    LoneStoreReads(opLib, t, o);
    hide LoneStore, ReadConsumers, ReadTransition, ReadContractIds;
    assert m[o] in m.Values && m.Values == {id};
    var g := StoredAmong(opLib, store, m.Values);
    assert g == map[id := t];
    assert Acyclic(g) by {
      forall p ensures !IsCycle(g, p) {
        if |p| >= 2 && p[0] == id && p[1] == id { assert !DependsOn(g, p[0], p[1]); }
      }
    }
    assert |m| == 1 && |g| == 1;
  }

  lemma LoneStoreDue(opLib: Library, lib: CommitLibrary, t: Transition, o: Opout)
    requires IsLone(opLib, t, o)
    ensures DueMessages(lib, LoneStore(opLib, t, o)) == map[t.content.contractId := lib.bundleId(map[o := opLib.Id(t)])]
  {
    LoneStoreReads(opLib, t, o);
    hide LoneStore, ReadConsumers, ReadContractIds;
  }

  /** A commit that succeeds, and leaves the committed output with other messages than those due for the store. */
  ghost predicate CommitsOthers(opLib: Library, lib: CommitLibrary, store: KeyMap, views: seq<OutState>, random: U64) {
    && CommitSucceeds(opLib, lib, store, views, false, random)
    && var how := ReadCloseMethod(store).value.value;
    && var given := AfterMessages(lib, store, views);
    && ReadMessages(AfterCommit(lib, given, how, random)[ProperIndex(given, how)].proprietary)
         != Ok(DueMessages(lib, store))
  }

  /* A commit that succeeds on an output that is the lone host, with its message. */
  ghost predicate CommitsLone(opLib: Library, lib: CommitLibrary, store: KeyMap, views: seq<OutState>, message: Id,
                              random: U64)
  {
    && CommitSucceeds(opLib, lib, store, views, false, random)
    && var how := ReadCloseMethod(store).value.value;
    && var given := AfterMessages(lib, store, views);
    && how == OpretFirst && given[ProperIndex(given, how)] == LoneHost(message)
  }

  lemma MisplacedHostsSucceed(opLib: Library, lib: CommitLibrary, store: KeyMap, message: Id, random: U64)
    requires BundlesReady(opLib, store) && ReadCloseMethod(store) == Ok(Some(OpretFirst))
    requires 1 <= |DueMessages(lib, store)| <= MAX_U24
    requires lib.mpcTree(MpcSource(None, map[message := message], None), random).Some?
    ensures CommitsLone(opLib, lib, store, MisplacedHosts(message), message, random)
  {
    hide CommitOutput, ReadMessages, BundlesReady, DueMessages, ReadCloseMethod;
    var views := MisplacedHosts(message);
    assert views[0].Has(OpretHostKey());
    assert HostIndex(views, OpretFirst) == 0;
    assert AcceptsMessages(views[0], DueMessages(lib, store));
    var given := AfterMessages(lib, store, views);
    assert !given[0].CanHost(OpretFirst) && given[1] == LoneHost(message);
    assert ProperIndex(given, OpretFirst) == 1;
    LoneHostCommits(lib, message, random);
  }

  /**
   * Without a matching script on the first marked output `rgb_commit` can succeed and commit to a stale message of
   * another output, for a contract that has no bundle, while the one that has a bundle is not committed to.
   */
  lemma MisplacedHost(opLib: Library, lib: CommitLibrary, t: Transition, o: Opout, message: Id, random: U64)
    requires IsLone(opLib, t, o) && message != t.content.contractId
    requires lib.mpcTree(MpcSource(None, map[message := message], None), random).Some?
    ensures CommitsOthers(opLib, lib, LoneStore(opLib, t, o), MisplacedHosts(message), random)
  {
    var store, views, c := LoneStore(opLib, t, o), MisplacedHosts(message), t.content.contractId;
    LoneStoreReads(opLib, t, o);
    LoneStoreReady(opLib, t, o);
    LoneStoreDue(opLib, lib, t, o);
    assert c in DueMessages(lib, store) && |DueMessages(lib, store)| == 1;
    hide LoneStore, CommitOutput, ReadMessages, BundlesReady, DueMessages, ReadCloseMethod, CommitSucceeds,
      AfterMessages, MisplacedHosts, LoneHost, ProperIndex;
    MisplacedHostsSucceed(opLib, lib, store, message, random);
    LoneHostReads(message);
    LoneHostCommits(lib, message, random);
    CommitOutputCommitsTo(lib, LoneHost(message), OpretFirst, random);
    assert c !in map[message := message];
  }

  /* A library with one operation id, for one transition. */
  function LoneLibrary(t: Transition, id: OpId): Library {
    Library((_) => id, (_) => [], (_) => Some(t), (a, b) => Some(a))
  }

  /* The entropy given, or zero. */
  function EntropyOf(source: MpcSource): U64 {
    if source.staticEntropy.Some? then source.staticEntropy.value else 0
  }

  function LoneCommitLibrary(id: Id): CommitLibrary {
    CommitLibrary((source: MpcSource, _: U64) => Some(MpcTree(EntropyOf(source), id, [])), (_, _) => [],
                  (_, _, _) => None, (_) => id,
                  (_) => [], (b) => b, (key, _) => key, (_) => [])
  }

  function Repeated(b: Byte): Id {
    seq(32, i => b)
  }

  function LoneTransition(): Transition {
    Transition(Content(Repeated(3), 0, {Opout(Repeated(2), 0, 0)}, []), [])
  }

  /** The same at one concrete input: the stale message is for contract 2, the bundle of contract 3. */
  lemma MisplacedHostExample()
    ensures var opLib := LoneLibrary(LoneTransition(), Repeated(1));
      CommitsOthers(opLib, LoneCommitLibrary(Repeated(1)), LoneStore(opLib, LoneTransition(), Opout(Repeated(2), 0, 0)),
                    MisplacedHosts(Repeated(2)), 0)
  {
    var opLib, t, o := LoneLibrary(LoneTransition(), Repeated(1)), LoneTransition(), Opout(Repeated(2), 0, 0);
    assert Repeated(1)[0] != Repeated(2)[0] && Repeated(3)[0] != Repeated(2)[0];
    assert IsLone(opLib, t, o);
    hide CommitsOthers;
    MisplacedHost(opLib, LoneCommitLibrary(Repeated(1)), t, o, Repeated(2), 0);
  }
}
