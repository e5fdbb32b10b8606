/** Coin selection for a fungible invoice (the amount branch of `select_state_for_invoice`). */
module Selection {
  import opened Base

  datatype OutputSeal = OutputSeal(txid: Id, vout: nat)

  /** A fungible allocation as the contract lists it. */
  datatype Allocation = Allocation(opout: Opout, seal: OutputSeal, amount: nat)

  datatype Group = Group(sum: nat, seal: OutputSeal, values: seq<nat>)

  /** The amount allocated to a set of seals. */
  function Held(allocations: seq<Allocation>, seals: set<OutputSeal>): nat {
    if allocations == [] then 0
    else (if allocations[0].seal in seals then allocations[0].amount else 0) + Held(allocations[1..], seals)
  }

  function AllSeals(allocations: seq<Allocation>): set<OutputSeal> {
    set a | a in allocations :: a.seal
  }

  lemma {:induction false} HeldDisjointUnion(allocations: seq<Allocation>, a: set<OutputSeal>, b: set<OutputSeal>)
    requires a !! b
    ensures Held(allocations, a + b) == Held(allocations, a) + Held(allocations, b)
  {
    if allocations != [] { HeldDisjointUnion(allocations[1..], a, b); }
  }

  lemma {:induction false} HeldNothing(allocations: seq<Allocation>, seals: set<OutputSeal>)
    requires seals == {} || forall a :: a in allocations ==> a.seal !in seals
    ensures Held(allocations, seals) == 0
  {
    if allocations != [] {
      assert allocations[0] in allocations;
      HeldNothing(allocations[1..], seals);
    }
  }

  /* Only seals with allocations matter. */
  lemma HeldOnAllSeals(allocations: seq<Allocation>, seals: set<OutputSeal>)
    ensures Held(allocations, seals) == Held(allocations, seals * AllSeals(allocations))
  {
    var none := seals - AllSeals(allocations);
    HeldNothing(allocations, none);
    HeldDisjointUnion(allocations, seals * AllSeals(allocations), none);
    assert seals == seals * AllSeals(allocations) + none;
  }

  function Sum(values: seq<nat>): nat {
    if values == [] then 0 else values[0] + Sum(values[1..])
  }

  lemma {:induction false} SumSnoc(values: seq<nat>, v: nat)
    ensures Sum(values + [v]) == Sum(values) + v
  {
    if values == [] {
      assert values + [v] == [v];
    } else {
      SumSnoc(values[1..], v);
      assert (values + [v])[1..] == values[1..] + [v];
    }
  }

  lemma {:induction false} HeldSnoc(allocations: seq<Allocation>, a: Allocation, seals: set<OutputSeal>)
    ensures Held(allocations + [a], seals) == Held(allocations, seals) + (if a.seal in seals then a.amount else 0)
  {
    if allocations == [] {
      assert allocations + [a] == [a];
    } else {
      HeldSnoc(allocations[1..], a, seals);
      assert (allocations + [a])[1..] == allocations[1..] + [a];
    }
  }

  function Seals(groups: seq<Group>): set<OutputSeal> {
    set g | g in groups :: g.seal
  }

  ghost predicate DistinctSeals(groups: seq<Group>) {
    forall i, j :: 0 <= i < j < |groups| ==> groups[i].seal != groups[j].seal
  }

  /* Every seal has one group at most, and its sum is what the seal holds. */
  ghost predicate AreGroups(allocations: seq<Allocation>, groups: seq<Group>) {
    && DistinctSeals(groups)
    && (forall i :: 0 <= i < |groups| ==> groups[i].sum == Held(allocations, {groups[i].seal}))
  }

  /** One group per seal with allocations. */
  ghost predicate IsGrouping(allocations: seq<Allocation>, groups: seq<Group>) {
    AreGroups(allocations, groups) && Seals(groups) == AllSeals(allocations)
  }

  ghost predicate SortedBySum(groups: seq<Group>) {
    forall i, j :: 0 <= i < j < |groups| ==> groups[i].sum <= groups[j].sum
  }

  /* The values of each seal, in the order they are listed. */
  method GroupBySeal(allocations: seq<Allocation>) returns (state: map<OutputSeal, seq<nat>>)
    ensures state.Keys == AllSeals(allocations)
    ensures forall s :: s in state ==> Sum(state[s]) == Held(allocations, {s})
  {
    state := map[];
    var i := 0;
    while i < |allocations|
      invariant 0 <= i <= |allocations|
      invariant state.Keys == AllSeals(allocations[..i])
      invariant forall s :: s in state ==> Sum(state[s]) == Held(allocations[..i], {s})
    {
      var a := allocations[i];
      assert allocations[..i + 1] == allocations[..i] + [a];
      forall s
        ensures Held(allocations[..i + 1], {s}) == Held(allocations[..i], {s}) + (if a.seal == s then a.amount else 0)
      {
        HeldSnoc(allocations[..i], a, {s});
      }
      if a.seal !in state {
        HeldNothing(allocations[..i], {a.seal});
      }
      var values := if a.seal in state then state[a.seal] else [];
      SumSnoc(values, a.amount);
      state := state[a.seal := values + [a.amount]];
      i := i + 1;
    }
    assert allocations[..i] == allocations;
  }

  /* A group put at any place of a list of groups. */
  lemma PlaceGroup(allocations: seq<Allocation>, groups: seq<Group>, p: nat, g: Group)
    requires AreGroups(allocations, groups) && p <= |groups|
    requires g.seal !in Seals(groups) && g.sum == Held(allocations, {g.seal})
    ensures AreGroups(allocations, groups[..p] + [g] + groups[p..])
    ensures Seals(groups[..p] + [g] + groups[p..]) == Seals(groups) + {g.seal}
  {
  }

  /* The groups in any order the map gives them. */
  method CollectGroups(allocations: seq<Allocation>, state: map<OutputSeal, seq<nat>>) returns (groups: seq<Group>)
    requires state.Keys == AllSeals(allocations)
    requires forall s :: s in state ==> Sum(state[s]) == Held(allocations, {s})
    ensures IsGrouping(allocations, groups)
  {
    groups := [];
    var rest := state.Keys;
    while rest != {}
      invariant rest <= state.Keys && Seals(groups) == state.Keys - rest
      invariant AreGroups(allocations, groups)
    {
      var seal :| seal in rest;
      var group := Group(Sum(state[seal]), seal, state[seal]);
      PlaceGroup(allocations, groups, |groups|, group);
      assert groups[..|groups|] + [group] + groups[|groups|..] == groups + [group];
      groups := groups + [group];
      rest := rest - {seal};
    }
  }

  /* Stable insertion sort, standing for the standard library's `sort_by_key`. */
  method SortGroups(allocations: seq<Allocation>, groups: seq<Group>) returns (sorted: seq<Group>)
    requires IsGrouping(allocations, groups)
    ensures IsGrouping(allocations, sorted) && SortedBySum(sorted)
  {
    sorted := [];
    var rest := groups;
    while rest != []
      invariant AreGroups(allocations, sorted) && AreGroups(allocations, rest)
      invariant Seals(sorted) !! Seals(rest) && Seals(sorted) + Seals(rest) == Seals(groups)
      invariant SortedBySum(sorted)
      decreases |rest|
    {
      SealsStep(rest);
      sorted := InsertGroup(allocations, sorted, rest[0]);
      rest := rest[1..];
    }
  }

  method InsertGroup(ghost allocations: seq<Allocation>, sorted: seq<Group>, g: Group) returns (inserted: seq<Group>)
    requires AreGroups(allocations, sorted) && SortedBySum(sorted)
    requires g.seal !in Seals(sorted) && g.sum == Held(allocations, {g.seal})
    ensures AreGroups(allocations, inserted) && SortedBySum(inserted)
    ensures Seals(inserted) == Seals(sorted) + {g.seal}
  {
    var p := |sorted|;
    while p > 0 && sorted[p - 1].sum > g.sum
      invariant 0 <= p <= |sorted|
      invariant forall k :: p <= k < |sorted| ==> sorted[k].sum > g.sum
      decreases p
    {
      p := p - 1;
    }
    PlaceGroup(allocations, sorted, p, g);
    hide AreGroups, Seals;
    inserted := sorted[..p] + [g] + sorted[p..];
  }

  /* The last `k` groups hold at least as much as any `k` seals. */
  lemma {:induction false} LastGroupsHoldMost(allocations: seq<Allocation>, groups: seq<Group>, seals: set<OutputSeal>)
    requires AreGroups(allocations, groups) && SortedBySum(groups)
    requires seals <= Seals(groups) && |seals| <= |groups|
    ensures Held(allocations, seals) <= Held(allocations, Seals(groups[|groups| - |seals|..]))
    decreases |groups|
  {
    hide AreGroups, SortedBySum, Seals, Held;
    if groups == [] {
      assert seals == {};
      HeldNothing(allocations, seals);
    } else {
      WithoutSmallest(allocations, groups, seals);
      LastGroupsHoldMost(allocations, groups[1..], seals - {groups[0].seal});
      if groups[0].seal in seals {
        SmallestTraded(allocations, groups, seals);
      } else {
        SmallestSkipped(allocations, groups, seals);
      }
    }
  }

  lemma WithoutSmallest(allocations: seq<Allocation>, groups: seq<Group>, seals: set<OutputSeal>)
    requires AreGroups(allocations, groups) && SortedBySum(groups) && groups != [] && seals <= Seals(groups)
    ensures AreGroups(allocations, groups[1..]) && SortedBySum(groups[1..])
    ensures seals - {groups[0].seal} <= Seals(groups[1..])
    ensures |seals - {groups[0].seal}| <= |groups[1..]|
  {
    SealsStep(groups);
    TailGroups(allocations, groups);
    SealsBound(groups[1..], seals - {groups[0].seal});
  }

  lemma SmallestSkipped(allocations: seq<Allocation>, groups: seq<Group>, seals: set<OutputSeal>)
    requires groups != [] && groups[0].seal !in seals
    requires var fewer := seals - {groups[0].seal};
      && |fewer| < |groups|
      && Held(allocations, fewer) <= Held(allocations, Seals(groups[1..][|groups| - 1 - |fewer|..]))
    ensures |seals| <= |groups|
    ensures Held(allocations, seals) <= Held(allocations, Seals(groups[|groups| - |seals|..]))
  {
    assert seals - {groups[0].seal} == seals;
    assert groups[1..][|groups| - 1 - |seals|..] == groups[|groups| - |seals|..];
  }

  lemma SealsBound(groups: seq<Group>, seals: set<OutputSeal>)
    requires DistinctSeals(groups)
    requires seals <= Seals(groups)
    ensures |seals| <= |groups|
  {
    SealsCount(groups);
    SubsetSize(seals, Seals(groups));
  }

  lemma TailGroups(allocations: seq<Allocation>, groups: seq<Group>)
    requires AreGroups(allocations, groups) && SortedBySum(groups) && groups != []
    ensures AreGroups(allocations, groups[1..]) && SortedBySum(groups[1..])
  {
  }

  lemma FirstIsSmallest(allocations: seq<Allocation>, groups: seq<Group>, at: nat)
    requires AreGroups(allocations, groups) && SortedBySum(groups) && at < |groups|
    ensures Held(allocations, {groups[0].seal}) <= groups[at].sum
  {
    hide Held;
  }

  /* Trading the smallest group of all for one of the last ones loses nothing. */
  lemma SmallestTraded(allocations: seq<Allocation>, groups: seq<Group>, seals: set<OutputSeal>)
    requires AreGroups(allocations, groups) && SortedBySum(groups) && groups != [] && groups[0].seal in seals
    requires var fewer := seals - {groups[0].seal};
      && |fewer| < |groups|
      && Held(allocations, fewer) <= Held(allocations, Seals(groups[1..][|groups| - 1 - |fewer|..]))
    ensures Held(allocations, seals) <= Held(allocations, Seals(groups[|groups| - |seals|..]))
  {
    hide *;
    var fewer := seals - {groups[0].seal};
    var at := |groups| - |seals|;
    assert |seals| == |fewer| + 1;
    assert groups[1..][|groups| - 1 - |fewer|..] == groups[at + 1..];
    FirstIsSmallest(allocations, groups, at);
    TakeGroup(allocations, groups, at);
    HeldDisjointUnion(allocations, fewer, {groups[0].seal});
    assert seals == fewer + {groups[0].seal};
  }

  lemma SealsStep(groups: seq<Group>)
    requires groups != []
    requires DistinctSeals(groups)
    ensures Seals(groups) == Seals(groups[1..]) + {groups[0].seal}
    ensures groups[0].seal !in Seals(groups[1..])
  {
  }

  lemma {:induction false} SealsCount(groups: seq<Group>)
    requires DistinctSeals(groups)
    ensures |Seals(groups)| == |groups|
  {
    if groups != [] {
      SealsStep(groups);
      SealsCount(groups[1..]);
    }
  }

  lemma {:induction false} HeldMonotone(allocations: seq<Allocation>, a: set<OutputSeal>, b: set<OutputSeal>)
    requires a <= b
    ensures Held(allocations, a) <= Held(allocations, b)
  {
    if allocations != [] { HeldMonotone(allocations[1..], a, b); }
  }

  /** The seals cover the amount, no set with fewer seals does, and no proper part of them does. */
  ghost predicate IsBestCover(allocations: seq<Allocation>, amount: nat, seals: set<OutputSeal>) {
    && Held(allocations, seals) >= amount
    && seals <= AllSeals(allocations)
    && (forall other: set<OutputSeal> :: Held(allocations, other) >= amount ==> |other| >= |seals|)
    && (forall part: set<OutputSeal> :: part < seals ==> Held(allocations, part) < amount)
  }

  lemma FewerSealsFallShort(allocations: seq<Allocation>, groups: seq<Group>, amount: nat, i: nat,
                            other: set<OutputSeal>)
    requires IsGrouping(allocations, groups) && SortedBySum(groups)
    requires i < |groups| && Held(allocations, Seals(groups[i + 1..])) < amount
    requires |other| < |groups| - i
    ensures Held(allocations, other) < amount
  {
    var seals := other * AllSeals(allocations);
    HeldOnAllSeals(allocations, other);
    SubsetSize(seals, other);
    SealsBound(groups, seals);
    LastGroupsHoldMost(allocations, groups, seals);
    var last := groups[|groups| - |seals|..];
    assert forall g :: g in last ==> g in groups[i + 1..] by {
      assert last == groups[i + 1..][|groups| - |seals| - (i + 1)..];
    }
    HeldMonotone(allocations, Seals(last), Seals(groups[i + 1..]));
  }

  lemma LargestGroupsAreBest(allocations: seq<Allocation>, groups: seq<Group>, amount: nat, i: nat)
    requires IsGrouping(allocations, groups) && SortedBySum(groups)
    requires i < |groups| && Held(allocations, Seals(groups[i + 1..])) < amount <= Held(allocations, Seals(groups[i..]))
    ensures IsBestCover(allocations, amount, Seals(groups[i..]))
  {
    var seals := Seals(groups[i..]);
    assert forall g :: g in groups[i..] ==> g in groups;
    SealsCount(groups[i..]);
    forall other: set<OutputSeal> | Held(allocations, other) >= amount ensures |other| >= |seals| {
      if |other| < |seals| { FewerSealsFallShort(allocations, groups, amount, i, other); }
    }
    forall part: set<OutputSeal> | part < seals ensures Held(allocations, part) < amount {
      SubsetSize(part, seals);
      FewerSealsFallShort(allocations, groups, amount, i, part);
    }
  }

  lemma TakeGroup(allocations: seq<Allocation>, groups: seq<Group>, i: nat)
    requires AreGroups(allocations, groups) && i < |groups|
    ensures Seals(groups[i..]) == Seals(groups[i + 1..]) + {groups[i].seal}
    ensures Held(allocations, Seals(groups[i..])) == Held(allocations, Seals(groups[i + 1..])) + groups[i].sum
  {
    SealsStep(groups[i..]);
    assert groups[i..][1..] == groups[i + 1..];
    HeldDisjointUnion(allocations, Seals(groups[i + 1..]), {groups[i].seal});
  }

  /**
   * Takes the seals with the largest sums until the amount is covered. The selection is a best cover;
   * it is empty for a zero amount and when all seals together fall short.
   */
  method SelectForAmount(allocations: seq<Allocation>, amount: nat) returns (selection: set<OutputSeal>)
    ensures 0 < amount <= Held(allocations, AllSeals(allocations)) ==>
              IsBestCover(allocations, amount, selection) && selection != {}
    ensures amount == 0 || Held(allocations, AllSeals(allocations)) < amount ==> selection == {}
  {
    hide AreGroups, SortedBySum, IsBestCover;
    var grouped := GroupBySeal(allocations);
    var state := CollectGroups(allocations, grouped);
    state := SortGroups(allocations, state);
    var sum := 0;
    var i := |state|;
    selection := {};
    HeldNothing(allocations, {});
    while i > 0 && sum < amount
      invariant 0 <= i <= |state|
      invariant selection == Seals(state[i..]) && sum == Held(allocations, selection)
      invariant i < |state| ==> Held(allocations, Seals(state[i + 1..])) < amount
      decreases i
    {
      i := i - 1;
      TakeGroup(allocations, state, i);
      sum := sum + state[i].sum;
      selection := selection + {state[i].seal};
    }
    if sum < amount {
      assert state[i..] == state;
      selection := {};
    } else if amount > 0 {
      LargestGroupsAreBest(allocations, state, amount, i);
      HeldMonotone(allocations, selection, AllSeals(allocations));
      assert state[i] in state[i..];
    }
  }
}
