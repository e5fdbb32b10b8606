/** What placing the host does to the outputs of a new PSBT, and whose positions are reported. */
module PlacementEffects {
  import opened Base
  import opened Protocol
  import opened Store
  import opened OutputState
  import opened OutputEffects
  import opened Commitment
  import opened Composition
  import opened Placement

  /** Sorting is by parts: marked outputs of the one, of the other, then the rest of the one, of the other. */
  lemma {:induction false} PartitionOfConcat(a: seq<OutState>, b: seq<OutState>, how: CloseMethod)
    ensures Hosts(a + b, how) == Hosts(a, how) + Hosts(b, how)
    ensures Others(a + b, how) == Others(a, how) + Others(b, how)
  {
    if b == [] {
      assert a + b == a;
    } else {
      var n := |b| - 1;
      PartitionOfConcat(a, b[..n], how);
      assert (a + b)[..|a + b| - 1] == a + b[..n] && (a + b)[|a + b| - 1] == b[n];
    }
  }

  lemma PartitionOfOne(o: OutState, how: CloseMethod)
    ensures HostKey(how) in o.proprietary ==> Hosts([o], how) == [o] && Others([o], how) == []
    ensures HostKey(how) !in o.proprietary ==> Hosts([o], how) == [] && Others([o], how) == [o]
  {
    assert [o][..0] == [];
  }

  /* The output with the host flag, and nothing else changed. */
  ghost predicate IsMarked(o: OutState, o': OutState, how: CloseMethod) {
    SameIdentity(o, o') && o'.tapTree == o.tapTree && SameBut(o, o', {HostKey(how)}) && Stored(o', HostKey(how), [])
  }

  /* `views'` is the output at `m`, marked, and then all others as they were. */
  ghost predicate PutsFirst(views: seq<OutState>, m: nat, how: CloseMethod, views': seq<OutState>)
    requires m < |views|
  {
    |views'| == |views| && IsMarked(views[m], views'[0], how) && views'[1..] == views[..m] + views[m + 1..]
  }

  lemma MarkedIsPutFirst(views: seq<OutState>, how: CloseMethod, m: nat)
    requires Unmarked(views, how) && m < |views|
    ensures PutsFirst(views, m, how, HostsFirst(views[m := SetHost(views[m], how).0], how))
  {
    var marked := SetHost(views[m], how).0;
    MarkedMovesToFront(views, how, m, marked);
    var sorted := HostsFirst(views[m := marked], how);
    assert sorted[1..] == views[..m] + views[m + 1..];
  }

  /** The output the wallet reported as change is the one whose script is found at the reported change position. */
  lemma ChangePosition(views: seq<OutState>, store: KeyMap, v: nat, beneficiary: Beneficiary, how: CloseMethod,
                       views': seq<OutState>, store': KeyMap, meta: PsbtMeta)
    requires IsPlaced(views, store, Some(v), beneficiary, how, views', store', meta) && v < |views|
    ensures meta.changeVout.Some? && meta.changeVout.value < |views'|
    ensures views'[meta.changeVout.value].script == views[v].script
  {
    hide Prepared, HostsFirst;
    HasScriptIffIndex(views', views[v].script);
  }

  /** A position without an output is reported as it was. */
  lemma ChangeAsReported(views: seq<OutState>, store: KeyMap, changeVout: Option<nat>, beneficiary: Beneficiary,
                         how: CloseMethod, views': seq<OutState>, store': KeyMap, meta: PsbtMeta)
    requires IsPlaced(views, store, changeVout, beneficiary, how, views', store', meta)
    requires changeVout.Some? ==> changeVout.value >= |views|
    ensures meta.changeVout == changeVout
  {
    hide Prepared, HostsFirst;
  }

  /** A witness beneficiary has its script at the reported position; a blinded one has no position. */
  lemma BeneficiaryPosition(views: seq<OutState>, store: KeyMap, changeVout: Option<nat>, beneficiary: Beneficiary,
                            how: CloseMethod, views': seq<OutState>, store': KeyMap, meta: PsbtMeta)
    requires IsPlaced(views, store, changeVout, beneficiary, how, views', store', meta)
    ensures beneficiary.WitnessVout? ==>
              && meta.beneficiaryVout.Some? && meta.beneficiaryVout.value < |views'|
              && views'[meta.beneficiaryVout.value].script == beneficiary.script
    ensures beneficiary.BlindedSeal? ==> meta.beneficiaryVout.None?
  {
    hide Prepared, HostsFirst;
    if beneficiary.WitnessVout? { HasScriptIffIndex(views', beneficiary.script); }
  }

  ghost predicate IsFirstOpReturn(views: seq<OutState>, m: nat) {
    m < |views| && views[m].script.OpReturn? && forall i :: 0 <= i < m ==> !views[i].script.OpReturn?
  }

  ghost predicate IsFirstWith(views: seq<OutState>, script: Script, m: nat) {
    m < |views| && views[m].script == script && forall i :: 0 <= i < m ==> views[i].script != script
  }

  /** An opret host is the first OP_RETURN output, or a new one; it is put first, and nothing else changes. */
  lemma OpretPlaced(views: seq<OutState>, store: KeyMap, changeVout: Option<nat>, beneficiary: Beneficiary,
                    views': seq<OutState>, store': KeyMap, meta: PsbtMeta)
    requires IsPlaced(views, store, changeVout, beneficiary, OpretFirst, views', store', meta)
    requires Unmarked(views, OpretFirst)
    ensures store' == store
    ensures if exists i :: 0 <= i < |views| && views[i].script.OpReturn? then
              exists m :: IsFirstOpReturn(views, m) && PutsFirst(views, m, OpretFirst, views')
            else views' == [OutState(OpReturn([]), map[OpretHostKey() := []], None, None, [], [])] + views
  {
    hide Locates, HostsFirst, SetHost;
    var n := ProperIndex(views, OpretFirst);
    if n < |views| {
      MarkedIsPutFirst(views, OpretFirst, n);
      assert IsFirstOpReturn(views, n);
    } else {
      assert forall i :: 0 <= i < |views| ==> !views[i].CanHost(OpretFirst);
      NewHostIsFirst(views);
    }
  }

  lemma NewHostIsFirst(views: seq<OutState>)
    requires Unmarked(views, OpretFirst) && ProperIndex(views, OpretFirst) == |views|
    ensures HostsFirst(WithOpretHost(views), OpretFirst) ==
              [OutState(OpReturn([]), map[OpretHostKey() := []], None, None, [], [])] + views
  {
    var host := OutState(OpReturn([]), map[OpretHostKey() := []], None, None, [], []);
    PartitionOfConcat(views, [host], OpretFirst);
    PartitionOfOne(host, OpretFirst);
    UnmarkedStay(views, OpretFirst);
    hide Hosts, Others;
    assert WithOpretHost(views) == views + [host];
  }

  /** With change, a tapret host is the first output with its script, if that is taproot, put first as it was. */
  lemma TapretOnChange(views: seq<OutState>, store: KeyMap, v: nat, beneficiary: Beneficiary, views': seq<OutState>,
                       store': KeyMap, meta: PsbtMeta)
    requires IsPlaced(views, store, Some(v), beneficiary, TapretFirst, views', store', meta) && v < |views|
    requires Unmarked(views, TapretFirst)
    ensures TapretHostOnChangeKey() in store'
    ensures if views[v].script.P2tr? then
              exists m :: IsFirstWith(views, views[v].script, m) && PutsFirst(views, m, TapretFirst, views')
            else views' == views
  {
    hide Locates, HostsFirst, SetHost;
    var m := ScriptIndex(views, views[v].script);
    assert m < |views|;
    assert WithInternalKey(views, Some(views[v].script), beneficiary) == views;
    if views[v].script.P2tr? {
      MarkedIsPutFirst(views, TapretFirst, m);
      assert IsFirstWith(views, views[v].script, m);
    } else {
      UnmarkedStays(views, TapretFirst);
    }
  }

  lemma UnmarkedStays(views: seq<OutState>, how: CloseMethod)
    requires Unmarked(views, how)
    ensures HostsFirst(views, how) == views
  {
    UnmarkedStay(views, how);
  }

  lemma IsScriptIndex(views: seq<OutState>, script: Script, m: nat)
    requires IsFirstWith(views, script, m)
    ensures ScriptIndex(views, script) == m
  {
    assert views[m].script == script;
  }

  /* The output at `m` has the internal key, and is put first if it is taproot. */
  ghost predicate KeyedHost(views: seq<OutState>, m: nat, key: Bytes, views': seq<OutState>)
    requires m < |views|
  {
    var keyed := views[m := views[m].(internalKey := Some(key))];
    if views[m].script.P2tr? then PutsFirst(keyed, m, TapretFirst, views') else views' == keyed
  }

  /** Without change, the beneficiary gives its internal key to the first output with its script, which is the host. */
  lemma TapretOnBeneficiary(views: seq<OutState>, store: KeyMap, changeVout: Option<nat>, script: Script, key: Bytes,
                            views': seq<OutState>, store': KeyMap, meta: PsbtMeta)
    requires IsPlaced(views, store, changeVout, WitnessVout(script, Some(key)), TapretFirst, views', store', meta)
    requires changeVout.Some? ==> changeVout.value >= |views|
    requires Unmarked(views, TapretFirst) && HasScript(views, script)
    ensures store' == store
    ensures exists m :: IsFirstWith(views, script, m) && KeyedHost(views, m, key, views')
  {
    hide Locates, HostsFirst, SetHost;
    var m := ScriptIndex(views, script);
    HasScriptIffIndex(views, script);
    assert IsFirstWith(views, script, m);
    var keyed := views[m := views[m].(internalKey := Some(key))];
    assert WithInternalKey(views, None, WitnessVout(script, Some(key))) == keyed;
    assert Unmarked(keyed, TapretFirst);
    assert IsFirstWith(keyed, script, m);
    IsScriptIndex(keyed, script, m);
    if script.P2tr? {
      MarkedIsPutFirst(keyed, TapretFirst, m);
    } else {
      UnmarkedStays(keyed, TapretFirst);
    }
    assert KeyedHost(views, m, key, views');
  }
}
