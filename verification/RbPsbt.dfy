/** The rust-bitcoin form of the PSBT: transaction outputs and PSBT outputs in two parallel vectors. */
module RbPsbts {
  import opened Base
  import opened Protocol
  import opened Store
  import opened OutputState

  const PSBT_GLOBAL_TX_MODIFIABLE: Byte := 0x06
  const OUTPUTS_MODIFIABLE: Byte := 2

  datatype TxOut = TxOut(value: nat, script: Script)

  datatype RbOutput = RbOutput(proprietary: KeyMap, internalKey: Option<Bytes>, tapTree: Option<Bytes>)

  datatype RawKey = RawKey(typeValue: Byte, key: Bytes)

  const TX_MODIFIABLE_KEY := RawKey(PSBT_GLOBAL_TX_MODIFIABLE, [])

  const DEFAULT_OUTPUT := RbOutput(map[], None, None)
  const OPRET_TXOUT := TxOut(0, OpReturn([]))

  datatype Pair = Pair(tx: TxOut, out: RbOutput) {
    predicate CanHost(how: CloseMethod) {
      match how case OpretFirst => tx.script.OpReturn? case TapretFirst => tx.script.P2tr?
    }

    /* The pair with its output marked as opret host. */
    function Marked(): Pair {
      this.(out := out.(proprietary := Pushed(out.proprietary, OpretHostKey(), [])))
    }
  }

  function Pairs(txs: seq<TxOut>, outs: seq<RbOutput>): seq<Pair>
    requires |txs| == |outs|
  {
    seq(|txs|, i requires 0 <= i < |txs| => Pair(txs[i], outs[i]))
  }

  /* The first pair whose script can carry the commitment, or the number of pairs. */
  function DbcIndex(pairs: seq<Pair>, how: CloseMethod): (i: nat)
    ensures i <= |pairs|
    ensures i < |pairs| ==> pairs[i].CanHost(how)
    ensures forall j :: 0 <= j < i ==> !pairs[j].CanHost(how)
  {
    FirstIndex(pairs, (p: Pair) => p.CanHost(how))
  }

  /** The pairs after `set_opret_host`: the first OP_RETURN pair is marked, or else a marked pair is put in front. */
  function WithOpretHost(pairs: seq<Pair>): seq<Pair> {
    var n := DbcIndex(pairs, OpretFirst);
    if n < |pairs| then pairs[n := pairs[n].Marked()] else [Pair(OPRET_TXOUT, DEFAULT_OUTPUT).Marked()] + pairs
  }

  /* The first pair that can host is known by what precedes it. */
  lemma IsDbcIndex(pairs: seq<Pair>, how: CloseMethod, n: nat)
    requires n < |pairs| && pairs[n].CanHost(how) && forall j :: 0 <= j < n ==> !pairs[j].CanHost(how)
    ensures DbcIndex(pairs, how) == n
  {
  }

  /* `after` has all of `pairs`, in order, `shift` places further; only the PSBT output at `host` may differ. */
  ghost predicate KeepsOrder(pairs: seq<Pair>, after: seq<Pair>, host: nat, shift: nat) {
    && |after| == |pairs| + shift
    && forall i :: 0 <= i < |pairs| ==>
         after[i + shift].tx == pairs[i].tx && (i + shift != host ==> after[i + shift] == pairs[i])
  }

  /**
   * Existing pairs keep their order and all but the marked one stay as they are; the marked pair is the one that is
   * found for opret, and so it is the host.
   */
  lemma OpretHostFound(pairs: seq<Pair>)
    ensures var after := WithOpretHost(pairs); var host := DbcIndex(after, OpretFirst);
      && host < |after| && OpretHostKey() in after[host].out.proprietary
      && KeepsOrder(pairs, after, host, if DbcIndex(pairs, OpretFirst) < |pairs| then 0 else 1)
  {
    var n := DbcIndex(pairs, OpretFirst);
    if n < |pairs| {
      IsDbcIndex(WithOpretHost(pairs), OpretFirst, n);
    } else {
      IsDbcIndex(WithOpretHost(pairs), OpretFirst, 0);
    }
  }

  /** Marking an output sets its flag, and a new host is an empty OP_RETURN output with the flag only. */
  lemma MarkedKeeps(p: Pair)
    ensures p.Marked().tx == p.tx
    ensures p.Marked().out.internalKey == p.out.internalKey && p.Marked().out.tapTree == p.out.tapTree
    ensures forall k :: k != OpretHostKey() ==>
              (k in p.Marked().out.proprietary <==> k in p.out.proprietary)
              && (k in p.out.proprietary ==> p.Marked().out.proprietary[k] == p.out.proprietary[k])
    ensures OpretHostKey() in p.Marked().out.proprietary
  {
  }

  lemma OnlyHostIsMarked(pairs: seq<Pair>)
    ensures var after, n := WithOpretHost(pairs), DbcIndex(pairs, OpretFirst);
      if n < |pairs| then |after| == |pairs| && after[n] == pairs[n].Marked()
      else after[0] == Pair(TxOut(0, OpReturn([])), RbOutput(map[OpretHostKey() := []], None, None))
  {
  }

  /** Writing a commitment script to the host keeps it the first pair for its close method. */
  lemma CommitmentKeepsHost(pairs: seq<Pair>, how: CloseMethod, script: Script)
    requires DbcIndex(pairs, how) < |pairs|
    requires match how case OpretFirst => script.OpReturn? case TapretFirst => script.P2tr?
    ensures var n := DbcIndex(pairs, how);
      DbcIndex(pairs[n := pairs[n].(tx := pairs[n].tx.(script := script))], how) == n
  {
    var n := DbcIndex(pairs, how);
    var after := pairs[n := pairs[n].(tx := pairs[n].tx.(script := script))];
    assert forall j :: 0 <= j < n ==> after[j] == pairs[j];
    assert after[n].CanHost(how);
  }

  /* `flags & 2 != 0`, and `flags & !2`. */
  predicate OutputsBit(flags: Byte) {
    flags / OUTPUTS_MODIFIABLE % 2 == 1
  }

  function ClearOutputsBit(flags: Byte): Byte {
    if OutputsBit(flags) then flags - OUTPUTS_MODIFIABLE else flags
  }

  /** Clearing the flag clears it and no other. */
  lemma ClearOutputsBitClearsOne(flags: Byte)
    ensures !OutputsBit(ClearOutputsBit(flags))
    ensures ClearOutputsBit(flags) % 2 == flags % 2 && ClearOutputsBit(flags) / 4 == flags / 4
  {
  }

  class RbPsbt {
    var txOutputs: seq<TxOut>
    var outputs: seq<RbOutput>
    var unknown: map<RawKey, Bytes>

    constructor (txOutputs: seq<TxOut>)
      ensures Aligned() && this.txOutputs == txOutputs && unknown == map[]
    {
      this.txOutputs := txOutputs;
      outputs := seq(|txOutputs|, i => DEFAULT_OUTPUT);
      unknown := map[];
    }

    predicate Aligned()
      reads this
    {
      |txOutputs| == |outputs|
    }

    ghost function View(): seq<Pair>
      requires Aligned()
      reads this
    {
      Pairs(txOutputs, outputs)
    }

    function Flags(): Byte
      reads this
    {
      if TX_MODIFIABLE_KEY in unknown && unknown[TX_MODIFIABLE_KEY] != [] then unknown[TX_MODIFIABLE_KEY][0] else 0
    }

    /** The flags are the first byte under the key 0x06, and none are set without one. */
    lemma FlagsAreFirstByte()
      ensures RawKey(6, []) in unknown && |unknown[RawKey(6, [])]| > 0 ==> Flags() == unknown[RawKey(6, [])][0]
      ensures RawKey(6, []) !in unknown || unknown[RawKey(6, [])] == [] ==> Flags() == 0
      ensures ModifiableOutputs() <==> Flags() / 2 % 2 == 1
    {
    }

    predicate ModifiableOutputs()
      reads this
    {
      OutputsBit(Flags())
    }

    method SetAsUnmodifiable()
      modifies this`unknown
      ensures !ModifiableOutputs()
      ensures Flags() == ClearOutputsBit(old(Flags()))
      ensures forall k :: k != TX_MODIFIABLE_KEY ==>
                (k in unknown <==> k in old(unknown)) && (k in unknown ==> unknown[k] == old(unknown)[k])
    {
      ClearOutputsBitClearsOne(Flags());
      var flags := ClearOutputsBit(Flags());
      unknown := unknown[TX_MODIFIABLE_KEY := [flags]];
    }

    /* The position in the transaction decides; the PSBT output of the same position is returned. */
    method DbcOutput(how: CloseMethod) returns (r: Option<nat>)
      requires Aligned()
      ensures r == (if DbcIndex(View(), how) < |View()| then Some(DbcIndex(View(), how)) else None)
    {
      var i := 0;
      while i < |txOutputs| && !(if how == TapretFirst then txOutputs[i].script.P2tr?
                                 else txOutputs[i].script.OpReturn?)
        invariant 0 <= i <= |txOutputs|
        invariant forall j :: 0 <= j < i ==> !View()[j].CanHost(how)
      {
        i := i + 1;
      }
      assert i < |txOutputs| ==> View()[i].CanHost(how);
      assert DbcIndex(View(), how) >= i;
      r := if i < |txOutputs| then Some(i) else None;
    }

    /** Marks the first OP_RETURN output; if there is none, inserts one in front of both vectors. */
    method SetOpretHost() returns (wasSet: bool)
      requires Aligned()
      modifies this`txOutputs, this`outputs
      ensures Aligned() && View() == WithOpretHost(old(View()))
      ensures wasSet <==> (DbcIndex(old(View()), OpretFirst) < |old(View())|
                           && OpretHostKey() in old(View())[DbcIndex(old(View()), OpretFirst)].out.proprietary)
    {
      var found := DbcOutput(OpretFirst);
      var idx := 0;
      if found.Some? {
        idx := found.value;
      } else {
        txOutputs := [OPRET_TXOUT] + txOutputs;
        outputs := [DEFAULT_OUTPUT] + outputs;
      }
      wasSet := OpretHostKey() in outputs[idx].proprietary;
      outputs := outputs[idx := outputs[idx].(proprietary := Pushed(outputs[idx].proprietary, OpretHostKey(), []))];
    }

    /** Writes the 32-byte commitment of an output to its script in the transaction. */
    method SetOpretCommitment(idx: nat)
      requires Aligned() && idx < |outputs|
      requires OpretCommitmentKey() in outputs[idx].proprietary
               && |outputs[idx].proprietary[OpretCommitmentKey()]| == 32
      modifies this`txOutputs
      ensures Aligned()
      ensures var script := OpReturn(outputs[idx].proprietary[OpretCommitmentKey()]);
        View() == old(View())[idx := old(View())[idx].(tx := old(View())[idx].tx.(script := script))]
      ensures idx == DbcIndex(old(View()), OpretFirst) ==> DbcIndex(View(), OpretFirst) == idx
    {
      ghost var before := View();
      var script := OpReturn(outputs[idx].proprietary[OpretCommitmentKey()]);
      txOutputs := txOutputs[idx := txOutputs[idx].(script := script)];
      assert View() == before[idx := before[idx].(tx := before[idx].tx.(script := script))];
      if idx == DbcIndex(before, OpretFirst) { CommitmentKeepsHost(before, OpretFirst, script); }
    }

    method SetTapretCommitment(lib: CommitLibrary, idx: nat)
      requires Aligned() && idx < |outputs| && outputs[idx].internalKey.Some? && outputs[idx].tapTree.Some?
      modifies this`txOutputs
      ensures Aligned()
      ensures var script := P2tr(lib.taprootProgram(outputs[idx].internalKey.value,
                                                    Some(lib.merkleRoot(outputs[idx].tapTree.value))));
        View() == old(View())[idx := old(View())[idx].(tx := old(View())[idx].tx.(script := script))]
      ensures idx == DbcIndex(old(View()), TapretFirst) ==> DbcIndex(View(), TapretFirst) == idx
    {
      ghost var before := View();
      var script := P2tr(lib.taprootProgram(outputs[idx].internalKey.value,
                                            Some(lib.merkleRoot(outputs[idx].tapTree.value))));
      txOutputs := txOutputs[idx := txOutputs[idx].(script := script)];
      assert View() == before[idx := before[idx].(tx := before[idx].tx.(script := script))];
      if idx == DbcIndex(before, TapretFirst) { CommitmentKeepsHost(before, TapretFirst, script); }
    }
  }
}
