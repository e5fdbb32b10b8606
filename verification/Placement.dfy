/** Where the wallet puts the commitment host among the outputs of a new PSBT (`create_psbt` of the BP wallet). */
module Placement {
  import opened Base
  import opened Protocol
  import opened Store
  import opened OutputState
  import opened Outputs
  import opened Commitment
  import opened Psbts
  import opened Composition

  /* Outputs marked as host, in order, and the others, in order. */
  function Hosts(views: seq<OutState>, how: CloseMethod): seq<OutState> {
    if views == [] then []
    else Hosts(views[..|views| - 1], how) + (if views[|views| - 1].Has(HostKey(how)) then [views[|views| - 1]] else [])
  }

  function Others(views: seq<OutState>, how: CloseMethod): seq<OutState> {
    if views == [] then []
    else Others(views[..|views| - 1], how) + (if views[|views| - 1].Has(HostKey(how)) then [] else [views[|views| - 1]])
  }

  /** A stable sort by whether an output is marked. */
  function HostsFirst(views: seq<OutState>, how: CloseMethod): seq<OutState> {
    Hosts(views, how) + Others(views, how)
  }

  ghost predicate Unmarked(views: seq<OutState>, how: CloseMethod) {
    forall i :: 0 <= i < |views| ==> !views[i].Has(HostKey(how))
  }

  lemma {:induction false} UnmarkedStay(views: seq<OutState>, how: CloseMethod)
    requires Unmarked(views, how)
    ensures Hosts(views, how) == [] && Others(views, how) == views
  {
    if views != [] {
      UnmarkedStay(views[..|views| - 1], how);
    }
  }

  lemma PartitionStep(views: seq<OutState>, i: nat, how: CloseMethod)
    requires i < |views|
    ensures Hosts(views[..i + 1], how) ==
            Hosts(views[..i], how) + (if views[i].Has(HostKey(how)) then [views[i]] else [])
    ensures Others(views[..i + 1], how) ==
            Others(views[..i], how) + (if views[i].Has(HostKey(how)) then [] else [views[i]])
  {
    assert views[..i + 1][..i] == views[..i];
  }

  lemma SkipOne<T>(s: seq<T>, m: nat)
    requires m < |s| - 1
    ensures s[..|s| - 1][..m] + s[..|s| - 1][m + 1..] + [s[|s| - 1]] == s[..m] + s[m + 1..]
  {
  }

  /* Marking one output moves it, and nothing else, to the front. */
  lemma {:induction false} MarkedMovesToFront(views: seq<OutState>, how: CloseMethod, m: nat, marked: OutState)
    requires Unmarked(views, how) && m < |views| && marked.Has(HostKey(how))
    ensures Hosts(views[m := marked], how) == [marked]
    ensures Others(views[m := marked], how) == views[..m] + views[m + 1..]
  {
    hide Hosts, Others;
    var after := views[m := marked];
    var n := |views| - 1;
    assert after[..n + 1] == after;
    PartitionStep(after, n, how);
    if m == n {
      assert after[..n] == views[..n] && views[..m] + views[m + 1..] == views[..n];
      UnmarkedStay(views[..n], how);
    } else {
      assert after[..n] == views[..n][m := marked] && after[n] == views[n];
      MarkedMovesToFront(views[..n], how, m, marked);
      SkipOne(views, m);
    }
  }

  /* The first output with a script, or the number of outputs. */
  function ScriptIndex(views: seq<OutState>, script: Script): (i: nat)
    ensures i <= |views|
    ensures i < |views| ==> views[i].script == script
    ensures forall j :: 0 <= j < i ==> views[j].script != script
  {
    FirstIndex(views, (v: OutState) => v.script == script)
  }

  method FindScript(psbt: Psbt, script: Script) returns (i: nat)
    ensures i == ScriptIndex(psbt.Views(), script)
  {
    i := 0;
    while i < |psbt.outputs| && psbt.outputs[i].script != script
      invariant 0 <= i <= |psbt.outputs|
      invariant forall j :: 0 <= j < i ==> psbt.Views()[j].script != script
    {
      i := i + 1;
    }
    assert i < |psbt.outputs| ==> psbt.Views()[i].script == script;
    assert ScriptIndex(psbt.Views(), script) >= i;
  }

  ghost predicate Distinct<T>(s: seq<T>) {
    forall i, j :: 0 <= i < j < |s| ==> s[i] != s[j]
  }

  lemma InsertDistinct<T>(a: seq<T>, x: T, b: seq<T>)
    requires Distinct(a + b) && x !in a + b
    ensures Distinct(a + [x] + b)
    ensures forall y :: y in a + [x] + b <==> y in a + b || y == x
  {
    var s, s' := a + b, a + [x] + b;
    assert forall k :: 0 <= k < |s'| ==> s'[k] == if k < |a| then s[k] else if k == |a| then x else s[k - 1];
    forall i, j | 0 <= i < j < |s'| ensures s'[i] != s'[j] {
      var i', j' := if i < |a| then i else i - 1, if j < |a| then j else j - 1;
      if i == |a| {
        assert s'[j] == s[j'] && s[j'] in s;
      } else if j == |a| {
        assert s'[i] == s[i'] && s[i'] in s;
      } else {
        assert s'[i] == s[i'] && s'[j] == s[j'];
      }
    }
    forall y ensures y in s' <==> y in s || y == x {
      if y in s {
        var k :| 0 <= k < |s| && s[k] == y;
        assert s'[if k < |a| then k else k + 1] == y;
      }
      if y == x { assert s'[|a|] == x; }
    }
  }

  lemma DistinctPairs<T>(s: seq<T>)
    requires Distinct(s)
    ensures forall i, j :: 0 <= i < j < |s| ==> s[i] != s[j]
  {
  }

  lemma EmptyPartition(views: seq<OutState>, how: CloseMethod)
    ensures Hosts(views[..0], how) == [] && Others(views[..0], how) == []
    ensures Distinct<Output>([] + [])
  {
  }

  lemma AppendOther<T>(hosts: seq<T>, others: seq<T>, x: T)
    requires Distinct(hosts + others) && x !in hosts + others
    ensures Distinct(hosts + (others + [x]))
    ensures forall y :: y in hosts + (others + [x]) <==> y in hosts + others || y == x
  {
    assert hosts + others + [] == hosts + others;
    InsertDistinct(hosts + others, x, []);
    assert hosts + others + [x] + [] == hosts + (others + [x]);
  }

  method SortHostsFirst(psbt: Psbt, how: CloseMethod)
    requires psbt.Valid()
    modifies psbt`outputs
    ensures psbt.Valid() && psbt.Views() == HostsFirst(old(psbt.Views()), how)
    ensures forall o :: o in psbt.outputs <==> o in old(psbt.outputs)
  {
    hide Hosts, Others, Distinct;
    var outputs := psbt.outputs;
    ghost var views := psbt.Views();
    EmptyPartition(views, how);
    var hosts: seq<Output>, others: seq<Output> := [], [];
    var i := 0;
    while i < |outputs|
      invariant 0 <= i <= |outputs| && psbt.outputs == outputs
      invariant ViewsOf(hosts) == Hosts(views[..i], how) && ViewsOf(others) == Others(views[..i], how)
      invariant forall o :: o in hosts + others <==> o in outputs[..i]
      invariant Distinct(hosts + others)
    {
      var output := outputs[i];
      assert outputs[..i + 1] == outputs[..i] + [output];
      PartitionStep(views, i, how);
      assert output !in outputs[..i];
      if HostKey(how) in output.proprietary {
        InsertDistinct(hosts, output, others);
        hosts := hosts + [output];
      } else {
        AppendOther(hosts, others, output);
        others := others + [output];
      }
      i := i + 1;
    }
    assert outputs[..i] == outputs && views[..i] == views;
    psbt.outputs := hosts + others;
    DistinctPairs(psbt.outputs);
    assert ViewsOf(hosts) + ViewsOf(others) == psbt.Views();
  }

  ghost function ViewsOf(outputs: seq<Output>): (views: seq<OutState>)
    reads outputs
    ensures |views| == |outputs|
    ensures forall i :: 0 <= i < |outputs| ==> views[i] == outputs[i].View()
  {
    seq(|outputs|, i requires 0 <= i < |outputs| reads outputs => outputs[i].View())
  }

  /* The outputs once a host for opret was marked, or appended if no output has an OP_RETURN script. */
  function WithOpretHost(views: seq<OutState>): seq<OutState> {
    var n := ProperIndex(views, OpretFirst);
    if n < |views| then views[n := SetHost(views[n], OpretFirst).0]
    else views + [SetHost(OutState(OpReturn([]), map[], None, None, [], []), OpretFirst).0]
  }

  method MarkOutput(psbt: Psbt, idx: nat, how: CloseMethod) returns (wasSet: bool)
    requires psbt.Valid() && idx < |psbt.outputs|
    modifies psbt.outputs[idx]
    ensures psbt.Views() == old(psbt.Views())[idx := SetHost(old(psbt.Views())[idx], how).0]
    ensures wasSet == SetHost(old(psbt.Views())[idx], how).1
  {
    hide SetHost;
    wasSet := psbt.outputs[idx].SetHost(how);
  }

  /* An OP_RETURN output without data at the end. */
  method AddOpretOutput(psbt: Psbt)
    requires psbt.Valid()
    modifies psbt`outputs
    ensures psbt.Valid() && psbt.Views() == old(psbt.Views()) + [OutState(OpReturn([]), map[], None, None, [], [])]
    ensures |psbt.outputs| == |old(psbt.outputs)| + 1 && psbt.outputs[..|old(psbt.outputs)|] == old(psbt.outputs)
    ensures fresh(psbt.outputs[|old(psbt.outputs)|])
  {
    var output := new Output(OpReturn([]));
    psbt.outputs := psbt.outputs + [output];
  }

  method SetOpretHost(psbt: Psbt) returns (wasSet: bool)
    requires psbt.Valid()
    modifies psbt`outputs, psbt.outputs
    ensures psbt.Valid() && psbt.Views() == WithOpretHost(old(psbt.Views()))
    ensures forall o :: o in psbt.outputs ==> o in old(psbt.outputs) || fresh(o)
  {
    hide SetHost, OutState.CanHost;
    ghost var views := psbt.Views();
    var found := psbt.DbcOutput(OpretFirst);
    if found.Some? {
      wasSet := MarkOutput(psbt, found.value, OpretFirst);
    } else {
      var idx := |psbt.outputs|;
      AddOpretOutput(psbt);
      wasSet := MarkOutput(psbt, idx, OpretFirst);
      assert psbt.Views() == WithOpretHost(views);
    }
  }

  /* The outputs once the first taproot output with the script was marked, if there is one. */
  function WithTapretHost(views: seq<OutState>, script: Script): seq<OutState> {
    var n := ScriptIndex(views, script);
    if script.P2tr? && n < |views| then views[n := SetHost(views[n], TapretFirst).0] else views
  }

  method SetTapretHost(psbt: Psbt, script: Script)
    requires psbt.Valid()
    modifies psbt.outputs
    ensures psbt.Views() == WithTapretHost(old(psbt.Views()), script)
  {
    if script.P2tr? {
      var n := FindScript(psbt, script);
      if n < |psbt.outputs| {
        var _ := MarkOutput(psbt, n, TapretFirst);
      }
    }
  }

  /** Once marked and sorted, the host is the first output and the one that will be committed. */
  ghost predicate HostIsFirst(views: seq<OutState>, how: CloseMethod) {
    && views != []
    && HostIndex(views, how) == 0 && ProperIndex(views, how) == 0
    && forall i :: 0 < i < |views| ==> !views[i].Has(HostKey(how))
  }

  lemma MarkedIsFirst(views: seq<OutState>, how: CloseMethod, m: nat)
    requires Unmarked(views, how) && m < |views| && views[m].CanHost(how)
    ensures HostIsFirst(HostsFirst(views[m := SetHost(views[m], how).0], how), how)
  {
    var marked := SetHost(views[m], how).0;
    MarkedMovesToFront(views, how, m, marked);
    var sorted := HostsFirst(views[m := marked], how);
    assert sorted[0] == marked;
    forall i | 0 < i < |sorted| ensures !sorted[i].Has(HostKey(how)) {
      var at := if i - 1 < m then i - 1 else i;
      assert sorted[i] == views[at];
    }
  }

  /** Opret always ends with a host in front. */
  lemma OpretHostPlaced(views: seq<OutState>)
    requires Unmarked(views, OpretFirst)
    ensures HostIsFirst(HostsFirst(WithOpretHost(views), OpretFirst), OpretFirst)
  {
    var n := ProperIndex(views, OpretFirst);
    if n < |views| {
      MarkedIsFirst(views, OpretFirst, n);
    } else {
      var added := OutState(OpReturn([]), map[], None, None, [], []);
      var views' := views + [added];
      assert Unmarked(views', OpretFirst);
      assert views'[n := SetHost(added, OpretFirst).0] == WithOpretHost(views);
      MarkedIsFirst(views', OpretFirst, n);
    }
  }

  /** Tapret ends with a host in front exactly when the chosen script is that of a taproot output. */
  lemma TapretHostPlaced(views: seq<OutState>, script: Script)
    requires Unmarked(views, TapretFirst)
    ensures var sorted := HostsFirst(WithTapretHost(views, script), TapretFirst);
      var hosted := script.P2tr? && ScriptIndex(views, script) < |views|;
      && (hosted ==> HostIsFirst(sorted, TapretFirst) && sorted[0].script == script)
      && (!hosted ==> sorted == views)
  {
    var n := ScriptIndex(views, script);
    if script.P2tr? && n < |views| {
      MarkedIsFirst(views, TapretFirst, n);
      MarkedMovesToFront(views, TapretFirst, n, SetHost(views[n], TapretFirst).0);
    } else {
      UnmarkedStay(views, TapretFirst);
    }
  }

  ghost predicate HasScript(views: seq<OutState>, script: Script) {
    exists i :: 0 <= i < |views| && views[i].script == script
  }

  lemma HasScriptIffIndex(views: seq<OutState>, script: Script)
    ensures HasScript(views, script) <==> ScriptIndex(views, script) < |views|
  {
  }

  lemma {:induction false} SortKeepsScripts(views: seq<OutState>, how: CloseMethod, script: Script)
    requires HasScript(views, script)
    ensures HasScript(HostsFirst(views, how), script)
  {
    var n := |views| - 1;
    var before, after := HostsFirst(views[..n], how), HostsFirst(views, how);
    var h, o := Hosts(views[..n], how), Others(views[..n], how);
    if views[n].script == script {
      assert views[n].Has(HostKey(how)) ==> after[|h|] == views[n];
      assert !views[n].Has(HostKey(how)) ==> after[|h| + |o|] == views[n];
    } else {
      var i :| 0 <= i < |views| && views[i].script == script;
      assert views[..n][i].script == script;
      SortKeepsScripts(views[..n], how, script);
      var j :| 0 <= j < |before| && before[j].script == script;
      assert after[if j < |h| || !views[n].Has(HostKey(how)) then j else j + 1].script == script;
    }
  }

  /* The script of the change output the constructor reported. */
  function ChangeScript(views: seq<OutState>, changeVout: Option<nat>): Option<Script> {
    if changeVout.Some? && changeVout.value < |views| then Some(views[changeVout.value].script) else None
  }

  /* The script that hosts a tapret commitment: change, or else the beneficiary if it gives its internal key. */
  function TapretOutput(change: Option<Script>, beneficiary: Beneficiary): Option<Script> {
    if change.Some? then change
    else if beneficiary.WitnessVout? && beneficiary.internalKey.Some? then Some(beneficiary.script)
    else None
  }

  /* The outputs before they are sorted. */
  function Prepared(views: seq<OutState>, change: Option<Script>, beneficiary: Beneficiary, how: CloseMethod)
    : seq<OutState>
    requires how == TapretFirst ==> TapretOutput(change, beneficiary).Some?
  {
    match how
    case OpretFirst => WithOpretHost(views)
    case TapretFirst =>
      WithTapretHost(WithInternalKey(views, change, beneficiary), TapretOutput(change, beneficiary).value)
  }

  /* A beneficiary that hosts the commitment gives its internal key to its output. */
  function WithInternalKey(views: seq<OutState>, change: Option<Script>, beneficiary: Beneficiary): seq<OutState> {
    if change.None? && beneficiary.WitnessVout? && beneficiary.internalKey.Some?
        && ScriptIndex(views, beneficiary.script) < |views| then
      var n := ScriptIndex(views, beneficiary.script);
      views[n := views[n].(internalKey := beneficiary.internalKey)]
    else views
  }

  lemma PreparedKeepsScripts(views: seq<OutState>, change: Option<Script>, beneficiary: Beneficiary, how: CloseMethod,
                             script: Script)
    requires how == TapretFirst ==> TapretOutput(change, beneficiary).Some?
    requires HasScript(views, script)
    ensures HasScript(Prepared(views, change, beneficiary, how), script)
  {
    hide ProperIndex, ScriptIndex;
    var i :| 0 <= i < |views| && views[i].script == script;
    match how {
      case OpretFirst =>
        assert WithOpretHost(views)[i].script == script;
      case TapretFirst =>
        assert WithInternalKey(views, change, beneficiary)[i].script == script;
        assert Prepared(views, change, beneficiary, how)[i].script == script;
    }
  }

  lemma HostPlaced(views: seq<OutState>, change: Option<Script>, beneficiary: Beneficiary, how: CloseMethod)
    requires Unmarked(views, how)
    requires how == TapretFirst ==>
               TapretOutput(change, beneficiary).Some? && HasScript(views, TapretOutput(change, beneficiary).value)
    ensures var sorted := HostsFirst(Prepared(views, change, beneficiary, how), how);
      && (how == OpretFirst ==> HostIsFirst(sorted, how))
      && (how == TapretFirst && TapretOutput(change, beneficiary).value.P2tr? ==>
            HostIsFirst(sorted, how) && sorted[0].script == TapretOutput(change, beneficiary).value)
  {
    match how {
      case OpretFirst => OpretHostPlaced(views);
      case TapretFirst =>
        var script := TapretOutput(change, beneficiary).value;
        var keyed := WithInternalKey(views, change, beneficiary);
        assert Unmarked(keyed, how);
        assert HasScript(keyed, script) by {
          var i :| 0 <= i < |views| && views[i].script == script;
          assert keyed[i].script == script;
        }
        HasScriptIffIndex(keyed, script);
        TapretHostPlaced(keyed, script);
    }
  }

  /* The host is on change. */
  method MarkChange(psbt: Psbt, change: Script, beneficiary: Beneficiary)
    requires psbt.Valid()
    modifies psbt, psbt.outputs
    ensures psbt.outputs == old(psbt.outputs) && psbt.outputsModifiable == old(psbt.outputsModifiable)
    ensures psbt.Views() == Prepared(old(psbt.Views()), Some(change), beneficiary, TapretFirst)
    ensures psbt.proprietary == Pushed(old(psbt.proprietary), TapretHostOnChangeKey(), [])
  {
    hide WithTapretHost, Pushed;
    ghost var views := psbt.Views();
    psbt.SetRgbTapretHostOnChange();
    assert psbt.Views() == views == WithInternalKey(views, Some(change), beneficiary);
    SetTapretHost(psbt, change);
  }

  /* The host is on the output of a beneficiary that gives its internal key. */
  method MarkBeneficiary(psbt: Psbt, beneficiary: Beneficiary)
    requires psbt.Valid() && beneficiary.WitnessVout? && beneficiary.internalKey.Some?
    requires HasScript(psbt.Views(), beneficiary.script)
    modifies psbt.outputs
    ensures psbt.Views() == Prepared(old(psbt.Views()), None, beneficiary, TapretFirst)
  {
    hide WithTapretHost;
    ghost var views := psbt.Views();
    HasScriptIffIndex(views, beneficiary.script);
    var n := FindScript(psbt, beneficiary.script);
    psbt.outputs[n].internalKey := beneficiary.internalKey;
    assert psbt.Views() == WithInternalKey(views, None, beneficiary);
    SetTapretHost(psbt, beneficiary.script);
  }

  /* Marks the host; without change a tapret beneficiary also gives its internal key. */
  method MarkHost(psbt: Psbt, change: Option<Script>, beneficiary: Beneficiary, how: CloseMethod)
    returns (r: Result<(), CompositionError>)
    requires psbt.Valid()
    requires beneficiary.WitnessVout? ==> HasScript(psbt.Views(), beneficiary.script)
    modifies psbt, psbt.outputs
    ensures psbt.Valid() && (forall o :: o in psbt.outputs ==> o in old(psbt.outputs) || fresh(o))
    ensures psbt.outputsModifiable == old(psbt.outputsModifiable)
    ensures r.Err? <==> how == TapretFirst && TapretOutput(change, beneficiary).None?
    ensures r.Err? ==> r.error == NoOutputForTapretCommitment
    ensures r.Ok? ==>
              && psbt.Views() == Prepared(old(psbt.Views()), change, beneficiary, how)
              && psbt.proprietary == WithHostOnChange(old(psbt.proprietary), change, how)
  {
    hide WithOpretHost, WithTapretHost, WithInternalKey, HasScript, Pushed;
    if how == OpretFirst {
      var _ := SetOpretHost(psbt);
    } else if change.Some? {
      MarkChange(psbt, change.value, beneficiary);
    } else if beneficiary.WitnessVout? && beneficiary.internalKey.Some? {
      MarkBeneficiary(psbt, beneficiary);
    } else {
      return Err(NoOutputForTapretCommitment);
    }
    r := Ok(());
  }

  /* The keys once it was noted that change hosts a tapret commitment. */
  function WithHostOnChange(store: KeyMap, change: Option<Script>, how: CloseMethod): KeyMap {
    if how == TapretFirst && change.Some? then Pushed(store, TapretHostOnChangeKey(), []) else store
  }

  lemma ScriptsSurvive(views: seq<OutState>, change: Option<Script>, beneficiary: Beneficiary, how: CloseMethod,
                       script: Script)
    requires how == TapretFirst ==> TapretOutput(change, beneficiary).Some?
    requires HasScript(views, script)
    ensures HasScript(HostsFirst(Prepared(views, change, beneficiary, how), how), script)
  {
    PreparedKeepsScripts(views, change, beneficiary, how, script);
    SortKeepsScripts(Prepared(views, change, beneficiary, how), how, script);
  }

  /** The positions of change and beneficiary among the outputs, as the wallet reports them. */
  ghost predicate Locates(views: seq<OutState>, change: Option<Script>, changeVout: Option<nat>,
                          beneficiary: Beneficiary, meta: PsbtMeta) {
    && (change.Some? ==> HasScript(views, change.value) && meta.changeVout == Some(ScriptIndex(views, change.value)))
    && (change.None? ==> meta.changeVout == changeVout)
    && (beneficiary.WitnessVout? ==>
        HasScript(views, beneficiary.script) && meta.beneficiaryVout == Some(ScriptIndex(views, beneficiary.script)))
    && (beneficiary.BlindedSeal? ==> meta.beneficiaryVout == None)
  }

  /* An opret host can always be added; a tapret host is change or a beneficiary that gives its internal key. */
  ghost predicate HasHost(views: seq<OutState>, changeVout: Option<nat>, beneficiary: Beneficiary, how: CloseMethod) {
    how == TapretFirst ==> TapretOutput(ChangeScript(views, changeVout), beneficiary).Some?
  }

  /** Outputs and keys of a PSBT once its host is marked and in front, and the positions reported for it. */
  ghost predicate IsPlaced(views: seq<OutState>, store: KeyMap, changeVout: Option<nat>, beneficiary: Beneficiary,
                           how: CloseMethod, views': seq<OutState>, store': KeyMap, meta: PsbtMeta) {
    var change := ChangeScript(views, changeVout);
    && HasHost(views, changeVout, beneficiary, how)
    && views' == HostsFirst(Prepared(views, change, beneficiary, how), how)
    && store' == WithHostOnChange(store, change, how)
    && Locates(views', change, changeVout, beneficiary, meta)
  }

  method FindPositions(psbt: Psbt, change: Option<Script>, changeVout: Option<nat>, beneficiary: Beneficiary)
    returns (meta: PsbtMeta)
    requires change.Some? ==> HasScript(psbt.Views(), change.value)
    requires beneficiary.WitnessVout? ==> HasScript(psbt.Views(), beneficiary.script)
    ensures Locates(psbt.Views(), change, changeVout, beneficiary, meta)
  {
    meta := PsbtMeta(None, changeVout);
    if change.Some? {
      var v := FindScript(psbt, change.value);
      meta := meta.(changeVout := Some(v));
    }
    if beneficiary.WitnessVout? {
      var v := FindScript(psbt, beneficiary.script);
      meta := meta.(beneficiaryVout := Some(v));
    }
  }

  /**
   * Marks the host, moves it to the front and finds change and beneficiary again by their scripts. `changeVout` is what
   * the PSBT constructor reported.
   */
  method CreatePsbt(psbt: Psbt, beneficiary: Beneficiary, changeVout: Option<nat>, how: CloseMethod)
    returns (r: Result<PsbtMeta, CompositionError>)
    requires psbt.Valid()
    requires beneficiary.WitnessVout? ==> HasScript(psbt.Views(), beneficiary.script)
    modifies psbt, psbt.outputs
    ensures psbt.Valid()
    ensures r.Ok? <==> HasHost(old(psbt.Views()), changeVout, beneficiary, how)
    ensures r.Err? ==> r.error == NoOutputForTapretCommitment
    ensures r.Ok? ==>
              IsPlaced(old(psbt.Views()), old(psbt.proprietary), changeVout, beneficiary, how, psbt.Views(),
                       psbt.proprietary, r.value)
    ensures psbt.outputsModifiable == old(psbt.outputsModifiable)
    ensures forall o :: o in psbt.outputs ==> o in old(psbt.outputs) || fresh(o)
  {
    hide Locates, Prepared, HostsFirst, TapretOutput;
    ghost var before := psbt.Views();
    var change :=
      if changeVout.Some? && changeVout.value < |psbt.outputs| then Some(psbt.outputs[changeVout.value].script)
      else None;
    assert change == ChangeScript(before, changeVout);
    var marked := MarkHost(psbt, change, beneficiary, how);
    if marked.Err? {
      return Err(marked.error);
    }
    SortHostsFirst(psbt, how);
    if change.Some? {
      assert before[changeVout.value].script == change.value;
      ScriptsSurvive(before, change, beneficiary, how, change.value);
    }
    if beneficiary.WitnessVout? {
      ScriptsSurvive(before, change, beneficiary, how, beneficiary.script);
    }
    var meta := FindPositions(psbt, change, changeVout, beneficiary);
    r := Ok(meta);
  }

  /** Change and beneficiary get different positions whenever their scripts differ. */
  lemma PositionsDiffer(views: seq<OutState>, change: Script, beneficiary: Script)
    requires HasScript(views, change) && HasScript(views, beneficiary)
    ensures ScriptIndex(views, change) == ScriptIndex(views, beneficiary) <==> change == beneficiary
  {
  }
}
