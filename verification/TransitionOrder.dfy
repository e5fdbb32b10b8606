/** Ordering of a bundle's known transitions by dependency (`insert_transitions_sorted`). */
module TransitionOrder {
  import opened Base
  import opened Protocol

  datatype KnownTransition = KnownTransition(opid: OpId, transition: Transition)

  type Graph = map<OpId, Transition>

  /** `spender` has an input made by `dep`, and both are in the map. */
  ghost predicate DependsOn(g: Graph, spender: OpId, dep: OpId) {
    && spender in g
    && dep in g
    && exists o :: o in g[spender].content.inputs && o.op == dep
  }

  ghost predicate IsPath(g: Graph, p: seq<OpId>) {
    && (forall i :: 0 <= i < |p| ==> p[i] in g)
    && (forall i, j :: 0 <= i && j == i + 1 < |p| ==> DependsOn(g, p[i], p[j]))
  }

  /* A dependency walk that returns to its start; a self-loop is one of length two. */
  ghost predicate IsCycle(g: Graph, p: seq<OpId>) {
    |p| >= 2 && IsPath(g, p) && p[0] == p[|p| - 1]
  }

  ghost predicate Acyclic(g: Graph) {
    forall p :: !IsCycle(g, p)
  }

  ghost predicate HasEntry(list: seq<KnownTransition>, end: nat, opid: OpId)
    requires end <= |list|
  {
    exists j :: 0 <= j < end && list[j].opid == opid
  }

  ghost function Opids(list: seq<KnownTransition>): set<OpId> {
    set k | k in list :: k.opid
  }

  /** Entries come from the map, none twice, and every in-map dependency precedes its spender. */
  ghost predicate Sorted(g: Graph, list: seq<KnownTransition>) {
    && (forall k :: 0 <= k < |list| ==> list[k].opid in g && list[k].transition == g[list[k].opid])
    && (forall i, j :: 0 <= i < j < |list| ==> list[i].opid != list[j].opid)
    && (forall k, dep :: 0 <= k < |list| && DependsOn(g, list[k].opid, dep) ==> HasEntry(list, k, dep))
  }

  /** The whole map, in dependency order. */
  ghost predicate IsOrderingOf(g: Graph, list: seq<KnownTransition>) {
    Sorted(g, list) && Opids(list) == g.Keys && |list| == |g|
  }

  /* Along a dependency path the positions in a sorted list go down. */
  lemma {:induction false} PathDescends(g: Graph, list: seq<KnownTransition>, p: seq<OpId>, first: nat)
    returns (last: nat)
    requires Sorted(g, list) && IsPath(g, p) && p != []
    requires first < |list| && list[first].opid == p[0]
    ensures last < |list| && list[last].opid == p[|p| - 1]
    ensures last <= first && (|p| >= 2 ==> last < first)
    decreases |p|
  {
    if |p| == 1 {
      last := first;
    } else {
      assert DependsOn(g, p[0], p[1]);
      assert HasEntry(list, first, p[1]);
      var next :| 0 <= next < first && list[next].opid == p[1];
      forall i, j | 0 <= i && j == i + 1 < |p[1..]| ensures DependsOn(g, p[1..][i], p[1..][j]) {
        assert p[1..][i] == p[i + 1] && p[1..][j] == p[j + 1];
      }
      last := PathDescends(g, list, p[1..], next);
    }
  }

  /** A dependency order exists only for acyclic maps. */
  lemma OrderingImpliesAcyclic(g: Graph, list: seq<KnownTransition>)
    requires IsOrderingOf(g, list)
    ensures Acyclic(g)
  {
    forall p ensures !IsCycle(g, p) {
      if IsCycle(g, p) {
        assert p[0] in Opids(list);
        var first :| 0 <= first < |list| && list[first].opid == p[0];
        var last := PathDescends(g, list, p, first);
        assert false;
      }
    }
  }

  /* A dependency that is already on the stack closes a cycle. */
  lemma StackCycle(g: Graph, stack: seq<OpId>, opid: OpId)
    requires IsPath(g, stack) && opid in stack
    requires DependsOn(g, stack[|stack| - 1], opid)
    ensures !Acyclic(g)
  {
    var k :| 0 <= k < |stack| && stack[k] == opid;
    var p := stack[k..] + [opid];
    forall i, j | 0 <= i && j == i + 1 < |p| ensures DependsOn(g, p[i], p[j]) {
      if j < |stack| - k {
        assert p[i] == stack[k + i] && p[j] == stack[k + j];
      }
    }
    assert IsCycle(g, p);
  }

  ghost function Elements(p: seq<OpId>): set<OpId> {
    set x | x in p
  }

  /**
   * What the search keeps: `list` is what it has emitted, `visited` the operations in it, and `visiting` the
   * operations on `stack`, each depending on the next.
   */
  ghost predicate SearchInvariant(g: Graph, list: seq<KnownTransition>, visited: set<OpId>, visiting: set<OpId>,
                                  stack: seq<OpId>) {
    && Sorted(g, list)
    && visited == Opids(list) && |visited| == |list|
    && IsPath(g, stack)
    && visiting == Elements(stack)
    && visited !! visiting
  }

  lemma EnterKeepsInvariant(g: Graph, list: seq<KnownTransition>, visited: set<OpId>, visiting: set<OpId>,
                            stack: seq<OpId>, opid: OpId)
    requires SearchInvariant(g, list, visited, visiting, stack)
    requires opid in g && opid !in visited && opid !in visiting
    requires stack != [] ==> DependsOn(g, stack[|stack| - 1], opid)
    ensures SearchInvariant(g, list, visited, visiting + {opid}, stack + [opid])
  {
  }

  /* Appending an operation whose dependencies are all emitted keeps the list sorted. */
  lemma EmitKeepsSorted(g: Graph, list: seq<KnownTransition>, opid: OpId)
    requires Sorted(g, list) && opid in g && opid !in Opids(list)
    requires forall dep :: DependsOn(g, opid, dep) ==> dep in Opids(list)
    ensures Sorted(g, list + [KnownTransition(opid, g[opid])])
    ensures Opids(list + [KnownTransition(opid, g[opid])]) == Opids(list) + {opid}
  {
    var list' := list + [KnownTransition(opid, g[opid])];
    forall k, dep | 0 <= k < |list'| && DependsOn(g, list'[k].opid, dep) ensures HasEntry(list', k, dep) {
      if k < |list| {
        assert HasEntry(list, k, dep);
        var j :| 0 <= j < k && list[j].opid == dep;
        assert list'[j].opid == dep;
      } else {
        assert dep in Opids(list);
        var j :| 0 <= j < |list| && list[j].opid == dep;
        assert list'[j].opid == dep;
      }
    }
    assert list' == list + [list'[|list|]];
    forall i, j | 0 <= i < j < |list'| ensures list'[i].opid != list'[j].opid {
      assert list[i] in list;
    }
    forall x ensures x in Opids(list') <==> x in Opids(list) + {opid} {
      if x == opid { assert list'[|list|] in list'; }
      if x in Opids(list) {
        var k :| k in list && k.opid == x;
        assert k in list';
      }
    }
  }

  lemma EmitKeepsInvariant(g: Graph, list: seq<KnownTransition>, visited: set<OpId>, visiting: set<OpId>,
                           stack: seq<OpId>, opid: OpId)
    requires SearchInvariant(g, list, visited, visiting, stack + [opid])
    requires opid in g && opid !in stack
    requires forall o :: o in g[opid].content.inputs && o.op in g ==> o.op in visited
    ensures opid !in visited && visited + {opid} <= g.Keys
    ensures SearchInvariant(g, list + [KnownTransition(opid, g[opid])], visited + {opid}, visiting - {opid}, stack)
  {
    assert forall i :: 0 <= i < |stack| ==> (stack + [opid])[i] == stack[i];
    assert (stack + [opid])[|stack|] == opid;
    assert opid in stack + [opid];
    EmitKeepsSorted(g, list, opid);
    assert Elements(stack + [opid]) == Elements(stack) + {opid};
  }

  /** The depth-first search and the variables it updates. */
  class Search {
    const transitions: Graph
    ghost const base: seq<KnownTransition>
    var known: seq<KnownTransition>
    var visited: set<OpId>
    var visiting: set<OpId>

    constructor (transitions: Graph, known: seq<KnownTransition>)
      requires |known| <= MAX_U16
      ensures this.transitions == transitions && this.known == base == known
      ensures visited == {} && visiting == {} && Valid([])
    {
      this.transitions := transitions;
      this.base := known;
      this.known := known;
      visited := {};
      visiting := {};
    }

    ghost predicate Valid(stack: seq<OpId>)
      reads this
    {
      && base <= known && |known| <= MAX_U16
      && SearchInvariant(transitions, known[|base|..], visited, visiting, stack)
    }

    /* Moves a finished operation from `visiting` to `visited` and to the end of the list. */
    method Emit(opid: OpId, ghost stack: seq<OpId>) returns (r: Result<(), RgbError>)
      requires opid in transitions && Valid(stack + [opid]) && opid !in stack
      requires forall o :: o in transitions[opid].content.inputs && o.op in transitions ==> o.op in visited
      modifies this
      ensures r.Ok? ==>
                && Valid(stack)
                && visiting == old(visiting) - {opid}
                && visited == old(visited) + {opid}
                && known == old(known) + [KnownTransition(opid, transitions[opid])]
      ensures r.Err? ==>
                && r.error.InvalidTransitionsNumber? && r.error.count == |transitions|
                && |base| + |transitions| > MAX_U16
    {
      hide Sorted, IsPath, Opids, Elements;
      ghost var list, list' := known[|base|..], known[|base|..] + [KnownTransition(opid, transitions[opid])];
      EmitKeepsInvariant(transitions, list, visited, visiting, stack, opid);
      SubsetSize(visited + {opid}, transitions.Keys);
      visiting := visiting - {opid};
      visited := visited + {opid};
      if |known| >= MAX_U16 {
        return Err(InvalidTransitionsNumber(transitions[opid].content.contractId, |transitions|));
      }
      known := known + [KnownTransition(opid, transitions[opid])];
      assert known[|base|..] == list';
      assert SearchInvariant(transitions, list', visited, visiting, stack);
      r := Ok(());
    }

    method VisitAndInsert(opid: OpId, ghost stack: seq<OpId>) returns (r: Result<(), RgbError>)
      requires Valid(stack)
      requires stack != [] ==> DependsOn(transitions, stack[|stack| - 1], opid)
      modifies this
      ensures r.Ok? ==>
                && Valid(stack)
                && visiting == old(visiting)
                && old(visited) <= visited
                && old(known) <= known
                && (opid in transitions ==> opid in visited)
      ensures r == Err(KnownTransitionsInconsistency) ==> !Acyclic(transitions)
      ensures r.Err? && r.error != KnownTransitionsInconsistency ==>
                && r.error.InvalidTransitionsNumber? && r.error.count == |transitions|
                && |base| + |transitions| > MAX_U16
      decreases transitions.Keys - visiting
    {
      hide Sorted, IsPath, Opids;
      if opid in visited {
        return Ok(());
      }
      if opid in visiting {
        StackCycle(transitions, stack, opid);
        return Err(KnownTransitionsInconsistency);
      }
      if opid in transitions {
        var transition := transitions[opid];
        visiting := visiting + {opid};
        ghost var stack' := stack + [opid];
        EnterKeepsInvariant(transitions, known[|base|..], visited, old(visiting), stack, opid);
        var inputs := transition.content.inputs;
        while inputs != {}
          invariant inputs <= transition.content.inputs
          invariant Valid(stack') && visiting == old(visiting) + {opid}
          invariant old(visited) <= visited && old(known) <= known
          invariant forall o :: o in transition.content.inputs - inputs && o.op in transitions ==> o.op in visited
          decreases inputs
        {
          var input :| input in inputs;
          if input.op in transitions {
            var r' := VisitAndInsert(input.op, stack');
            if r'.Err? {
              return r';
            }
          }
          inputs := inputs - {input};
        }
        r := Emit(opid, stack);
        return r;
      }
      return Ok(());
    }
  }

  /**
   * Appends the transitions to the list, dependencies first, whatever order the hash map is iterated in.
   * It succeeds exactly when the dependencies have no cycle and the list has room.
   */
  method InsertTransitionsSorted(transitions: Graph, known: seq<KnownTransition>)
    returns (r: Result<(), RgbError>, known': seq<KnownTransition>)
    requires |known| <= 0xFFFF
    ensures r.Ok? <==> Acyclic(transitions) && |known| + |transitions| <= 0xFFFF
    ensures r.Ok? ==> known <= known' && IsOrderingOf(transitions, known'[|known|..])
    ensures r == Err(KnownTransitionsInconsistency) ==> !Acyclic(transitions)
    ensures r.Err? && r.error != KnownTransitionsInconsistency ==>
              && r.error.InvalidTransitionsNumber? && r.error.count == |transitions|
              && |known| + |transitions| > 0xFFFF
  {
    var search := new Search(transitions, known);
    var keys := transitions.Keys;
    while keys != {}
      invariant keys <= transitions.Keys
      invariant search.transitions == transitions && search.base == known
      invariant fresh(search) && search.Valid([])
      invariant transitions.Keys - keys <= search.visited
    {
      var opid :| opid in keys;
      var v := search.VisitAndInsert(opid, []);
      if v.Err? {
        return v, search.known;
      }
      keys := keys - {opid};
    }
    assert search.visited == transitions.Keys by {
      assert search.visited <= transitions.Keys;
    }
    assert IsOrderingOf(transitions, search.known[|known|..]);
    OrderingImpliesAcyclic(transitions, search.known[|known|..]);
    return Ok(()), search.known;
  }
}
