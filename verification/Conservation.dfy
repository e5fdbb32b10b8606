/** State on both sides of a transition, and what it means that none is lost. */
module Conservation {
  import opened Base
  import opened Protocol
  import opened Selection

  /* The assignments of one contract by output; an opout is found on one output only. */
  type Holdings = map<OutputSeal, map<Opout, State>>

  type Items = map<Opout, State>

  ghost predicate OneSealEach(h: Holdings) {
    forall s, s', o :: s in h && s' in h && o in h[s] && o in h[s'] ==> s == s'
  }

  /* `o` is assigned on output `s`, one of these. */
  ghost predicate IsOn(h: Holdings, outputs: set<OutputSeal>, s: OutputSeal, o: Opout) {
    s in h && s in outputs && o in h[s]
  }

  /** All assignments on these outputs. */
  ghost function ItemsAt(h: Holdings, outputs: set<OutputSeal>): Items
    requires OneSealEach(h)
  {
    map s, o | s in h && o in h[s] && IsOn(h, outputs, s, o) :: o := h[s][o]
  }

  lemma ItemIff(h: Holdings, outputs: set<OutputSeal>, o: Opout)
    requires OneSealEach(h)
    ensures o in ItemsAt(h, outputs) <==> exists s :: IsOn(h, outputs, s, o)
    ensures forall s :: IsOn(h, outputs, s, o) ==> ItemsAt(h, outputs)[o] == h[s][o]
  {
  }

  lemma ItemOnOneMore(h: Holdings, outputs: set<OutputSeal>, s: OutputSeal, o: Opout)
    requires OneSealEach(h) && s in h && s !in outputs
    ensures o in ItemsAt(h, outputs + {s}) <==> o in ItemsAt(h, outputs) || o in h[s]
    ensures o in h[s] ==> ItemsAt(h, outputs + {s})[o] == h[s][o] && o !in ItemsAt(h, outputs)
    ensures o in ItemsAt(h, outputs) ==> ItemsAt(h, outputs + {s})[o] == ItemsAt(h, outputs)[o]
  {
  }

  /* One more output adds its own assignments. */
  lemma ItemsOfOneMore(h: Holdings, outputs: set<OutputSeal>, s: OutputSeal)
    requires OneSealEach(h) && s in h && s !in outputs
    ensures h[s].Keys !! ItemsAt(h, outputs).Keys
    ensures ItemsAt(h, outputs + {s}) == ItemsAt(h, outputs) + h[s]
  {
    hide ItemsAt;
    forall o ensures o in ItemsAt(h, outputs + {s}) <==> o in ItemsAt(h, outputs) || o in h[s]
             ensures o in h[s] ==> ItemsAt(h, outputs + {s})[o] == h[s][o] && o !in ItemsAt(h, outputs)
             ensures o in ItemsAt(h, outputs) ==> ItemsAt(h, outputs + {s})[o] == ItemsAt(h, outputs)[o]
    {
      ItemOnOneMore(h, outputs, s, o);
    }
  }

  lemma ItemsAtNone(h: Holdings)
    requires OneSealEach(h)
    ensures ItemsAt(h, {}) == map[]
  {
  }

  lemma ItemsAtKnown(h: Holdings, outputs: set<OutputSeal>)
    requires OneSealEach(h)
    ensures ItemsAt(h, outputs) == ItemsAt(h, outputs * h.Keys)
  {
  }

  /* Some of the items, with the states they have there. */
  ghost predicate PartOf(part: Items, items: Items) {
    forall o :: o in part ==> o in items && items[o] == part[o]
  }

  lemma FewerOutputs(h: Holdings, some: set<OutputSeal>, outputs: set<OutputSeal>)
    requires OneSealEach(h) && some <= outputs
    ensures PartOf(ItemsAt(h, some), ItemsAt(h, outputs))
  {
  }

  /* `added` is `done` with all of `list` except `rest`. */
  ghost predicate AddedSoFar(done: Items, list: Items, rest: Items, added: Items) {
    && rest.Keys <= list.Keys
    && (forall o :: o in rest ==> rest[o] == list[o])
    && added.Keys == done.Keys + (list.Keys - rest.Keys)
    && (forall o :: o in added ==> added[o] == if o in list then list[o] else done[o])
  }

  lemma AddedNothing(done: Items, list: Items)
    requires list.Keys !! done.Keys
    ensures AddedSoFar(done, list, list, done)
  {
  }

  lemma AddedOneMore(done: Items, list: Items, rest: Items, added: Items, o: Opout)
    requires AddedSoFar(done, list, rest, added) && o in rest && list.Keys !! done.Keys
    ensures o !in added
    ensures AddedSoFar(done, list, rest - {o}, added[o := rest[o]])
  {
  }

  lemma AddedAll(done: Items, list: Items, added: Items)
    requires AddedSoFar(done, list, map[], added)
    ensures added == done + list
  {
  }

  ghost function InputsOf(items: Items, ty: U16, state: State): set<Opout> {
    set o | o in items && o.ty == ty && items[o] == state
  }

  /** How many of the inputs are of this type and state. */
  ghost function InCount(items: Items, ty: U16, state: State): nat {
    |InputsOf(items, ty, state)|
  }

  /** How many of the outputs are of this type and state, wherever they go. */
  function OutCount(outputs: seq<Assignment>, ty: U16, state: State): nat {
    if outputs == [] then 0
    else
      var last := outputs[|outputs| - 1];
      OutCount(outputs[..|outputs| - 1], ty, state) + (if last.ty == ty && last.state == state then 1 else 0)
  }

  function AmountOf(state: State): nat {
    if state.Amount? then state.value else 0
  }

  /** The total amount among inputs of a type. */
  ghost function InSum(items: Items, ty: U16): nat {
    if items == map[] then 0
    else
      var o :| o in items;
      (if o.ty == ty then AmountOf(items[o]) else 0) + InSum(items - {o}, ty)
  }

  /** The total amount among outputs of a type. */
  function OutSum(outputs: seq<Assignment>, ty: U16): nat {
    if outputs == [] then 0
    else
      var last := outputs[|outputs| - 1];
      OutSum(outputs[..|outputs| - 1], ty) + (if last.ty == ty then AmountOf(last.state) else 0)
  }

  lemma {:induction false} InSumRemove(items: Items, o: Opout, ty: U16)
    requires o in items
    ensures InSum(items, ty) == (if o.ty == ty then AmountOf(items[o]) else 0) + InSum(items - {o}, ty)
    decreases |items|
  {
    var x :| x in items && InSum(items, ty) == (if x.ty == ty then AmountOf(items[x]) else 0) + InSum(items - {x}, ty);
    if x != o {
      InSumRemove(items - {x}, o, ty);
      InSumRemove(items - {o}, x, ty);
      assert items - {x} - {o} == items - {o} - {x};
    }
  }

  lemma InSumAdd(items: Items, o: Opout, state: State, ty: U16)
    requires o !in items
    ensures InSum(items[o := state], ty) == InSum(items, ty) + (if o.ty == ty then AmountOf(state) else 0)
  {
    InSumRemove(items[o := state], o, ty);
    assert items[o := state] - {o} == items;
  }

  lemma {:induction false} InSumNone(items: Items, ty: U16)
    requires forall o :: o in items ==> o.ty != ty || !items[o].Amount?
    ensures InSum(items, ty) == 0
    decreases |items|
  {
    if items != map[] {
      var o :| o in items;
      InSumRemove(items, o, ty);
      InSumNone(items - {o}, ty);
    }
  }

  lemma InCountAdd(items: Items, o: Opout, added: State, ty: U16, state: State)
    requires o !in items
    ensures InCount(items[o := added], ty, state) ==
            InCount(items, ty, state) + (if o.ty == ty && added == state then 1 else 0)
  {
    var before, after := InputsOf(items, ty, state), InputsOf(items[o := added], ty, state);
    var extra := if o.ty == ty && added == state then {o} else {};
    forall x ensures x in after <==> x in before + extra {
      if x != o { assert x in items[o := added] <==> x in items; }
    }
    assert after == before + extra && o !in before;
  }

  lemma OutCountSnoc(outputs: seq<Assignment>, a: Assignment, ty: U16, state: State)
    ensures OutCount(outputs + [a], ty, state) ==
            OutCount(outputs, ty, state) + (if a.ty == ty && a.state == state then 1 else 0)
    ensures OutSum(outputs + [a], ty) == OutSum(outputs, ty) + (if a.ty == ty then AmountOf(a.state) else 0)
  {
  }

  lemma {:induction false} OutNone(outputs: seq<Assignment>, ty: U16, state: State)
    requires forall a :: a in outputs ==> a.ty != ty
    ensures OutCount(outputs, ty, state) == 0 && OutSum(outputs, ty) == 0
  {
    if outputs != [] {
      assert outputs[|outputs| - 1] in outputs;
      OutNone(outputs[..|outputs| - 1], ty, state);
    }
  }

  /** Every input of another type is reassigned to the change output with the state it had. */
  ghost predicate MovesOthers(items: Items, ty: U16, change: Option<nat>, outputs: seq<Assignment>) {
    && (forall a :: a in outputs ==> a.ty != ty && change.Some? && a.seal == Revealed(change.value))
    && (forall t: U16, state: State :: t != ty ==> OutCount(outputs, t, state) == InCount(items, t, state))
    && (forall t: U16 :: t != ty ==> OutSum(outputs, t) == InSum(items, t))
  }

  lemma MovesOthersEmpty(ty: U16, change: Option<nat>)
    ensures MovesOthers(map[], ty, change, [])
    ensures InSum(map[], ty) == 0
  {
  }

  /* One more input: reassigned if it is of another type, left to the payment otherwise. */
  lemma MoveOneMore(items: Items, ty: U16, change: Option<nat>, outputs: seq<Assignment>, o: Opout, state: State)
    requires MovesOthers(items, ty, change, outputs) && o !in items
    ensures o.ty == ty ==> MovesOthers(items[o := state], ty, change, outputs)
    ensures o.ty != ty && change.Some? ==>
              MovesOthers(items[o := state], ty, change, outputs + [Assignment(o.ty, Revealed(change.value), state)])
  {
    forall t, st | t != ty
      ensures InCount(items[o := state], t, st) == InCount(items, t, st) + (if o.ty == t && state == st then 1 else 0)
    {
      InCountAdd(items, o, state, t, st);
    }
    forall t | t != ty
      ensures InSum(items[o := state], t) == InSum(items, t) + (if o.ty == t then AmountOf(state) else 0)
    {
      InSumAdd(items, o, state, t);
    }
    if o.ty != ty && change.Some? {
      var a := Assignment(o.ty, Revealed(change.value), state);
      forall t, st | t != ty
        ensures OutCount(outputs + [a], t, st) == OutCount(outputs, t, st) + (if a.ty == t && state == st then 1 else 0)
      {
        OutCountSnoc(outputs, a, t, st);
      }
      forall t | t != ty
        ensures OutSum(outputs + [a], t) == OutSum(outputs, t) + (if a.ty == t then AmountOf(state) else 0)
      {
        OutCountSnoc(outputs, a, t, Void);
      }
    }
    hide InSum, OutSum, InCount, OutCount;
  }

  /** Everything of other types goes to change, and one piece of state of the invoiced type to the beneficiary. */
  ghost predicate PaysSingle(items: Items, ty: U16, state: State, beneficiary: Seal, change: Option<nat>,
                             outputs: seq<Assignment>)
  {
    exists moved :: MovesOthers(items, ty, change, moved) && outputs == moved + [Assignment(ty, beneficiary, state)]
  }

  /* The outputs that pay an amount of the invoiced type. */
  function Payment(ty: U16, seal: Seal, amount: nat): seq<Assignment> {
    if amount > 0 then [Assignment(ty, seal, Amount(amount))] else []
  }

  /**
   * The outputs of the main transition: everything of other types on change, the invoiced amount to the beneficiary,
   * the rest of the invoiced type to change.
   */
  ghost predicate PaysInvoice(items: Items, ty: U16, amount: nat, beneficiary: Seal, change: Option<nat>,
                              outputs: seq<Assignment>) {
    && InSum(items, ty) >= amount
    && (InSum(items, ty) > amount ==> change.Some?)
    && exists moved :: MovesOthers(items, ty, change, moved) &&
         outputs == moved + Payment(ty, beneficiary, amount)
                      + (if change.Some? then Payment(ty, Revealed(change.value), InSum(items, ty) - amount) else [])
  }

  /**
   * The outputs hold the state of the inputs: the amounts of every type add up, and every state is there as often as
   * before, except that amounts of type `ty` may have been divided differently.
   */
  ghost predicate Conserved(items: Items, outputs: seq<Assignment>, ty: U16) {
    && (forall t: U16 :: OutSum(outputs, t) == InSum(items, t))
    && forall t: U16, state: State :: t != ty || !state.Amount? ==>
          OutCount(outputs, t, state) == InCount(items, t, state)
  }

  ghost predicate AllAmounts(items: Items, ty: U16) {
    forall o :: o in items && o.ty == ty ==> items[o].Amount?
  }

  lemma PaymentOutputs(moved: seq<Assignment>, payment: seq<Assignment>, rest: seq<Assignment>, ty: U16, t: U16,
                       state: State)
    requires |payment| <= 1 && |rest| <= 1
    requires forall a :: a in payment || a in rest ==> a.ty == ty && a.state.Amount?
    ensures OutSum(moved + payment + rest, t) == OutSum(moved, t) +
              (if t == ty then
                 (if payment == [] then 0 else payment[0].state.value) + (if rest == [] then 0 else rest[0].state.value)
               else 0)
    ensures t != ty || !state.Amount? ==> OutCount(moved + payment + rest, t, state) == OutCount(moved, t, state)
  {
    if payment == [] {
      assert moved + payment == moved;
    } else {
      assert payment == [payment[0]];
      OutCountSnoc(moved, payment[0], t, state);
    }
    if rest == [] {
      assert moved + payment + rest == moved + payment;
    } else {
      assert rest == [rest[0]];
      OutCountSnoc(moved + payment, rest[0], t, state);
    }
  }

  lemma NonAmountsCounted(items: Items, ty: U16)
    ensures AllAmounts(items, ty) <==> forall state: State :: !state.Amount? ==> InCount(items, ty, state) == 0
  {
    if AllAmounts(items, ty) {
      forall state: State | !state.Amount? ensures InCount(items, ty, state) == 0 {
        assert InputsOf(items, ty, state) == {};
      }
    } else {
      var o :| o in items && o.ty == ty && !items[o].Amount?;
      assert o in InputsOf(items, ty, items[o]);
    }
  }

  /**
   * The main transition loses no amount and no state of another type. It conserves all state exactly when the inputs
   * of the invoiced type are amounts only: other states of that type are dropped.
   */
  lemma MainConservesIff(items: Items, ty: U16, amount: nat, beneficiary: Seal, change: Option<nat>,
                         outputs: seq<Assignment>)
    requires PaysInvoice(items, ty, amount, beneficiary, change, outputs)
    ensures forall t: U16 :: OutSum(outputs, t) == InSum(items, t)
    ensures SameOthers(items, outputs, ty)
    ensures Conserved(items, outputs, ty) <==> AllAmounts(items, ty)
  {
    var moved :| MovesOthers(items, ty, change, moved) &&
      outputs == moved + Payment(ty, beneficiary, amount)
                   + (if change.Some? then Payment(ty, Revealed(change.value), InSum(items, ty) - amount) else []);
    var payment := Payment(ty, beneficiary, amount);
    var rest := if change.Some? then Payment(ty, Revealed(change.value), InSum(items, ty) - amount) else [];
    assert (forall a :: a in payment || a in rest ==> a.ty == ty && a.state.Amount?) && |payment| <= 1 && |rest| <= 1;
    hide OutSum, InSum, OutCount, InCount;
    OutNone(moved, ty, Void);
    forall t: U16 ensures OutSum(outputs, t) == InSum(items, t) {
      PaymentOutputs(moved, payment, rest, ty, t, Void);
    }
    forall t: U16, state: State | t != ty || !state.Amount?
      ensures OutCount(outputs, t, state) == OutCount(moved, t, state)
    {
      PaymentOutputs(moved, payment, rest, ty, t, state);
    }
    forall state: State | !state.Amount? ensures OutCount(outputs, ty, state) == 0 {
      OutNone(moved, ty, state);
    }
    NonAmountsCounted(items, ty);
  }

  /* Types other than `ty` have the same amounts in all and the same states, each as often. */
  ghost predicate SameOthers(items: Items, outputs: seq<Assignment>, ty: U16) {
    && (forall t: U16 :: t != ty ==> OutSum(outputs, t) == InSum(items, t))
    && (forall t: U16, state: State :: t != ty ==> OutCount(outputs, t, state) == InCount(items, t, state))
  }

  /** Every state of every type is there as often as before. */
  ghost predicate SameState(items: Items, outputs: seq<Assignment>) {
    forall t: U16, state: State :: OutCount(outputs, t, state) == InCount(items, t, state)
  }

  /* One input of the type, with this state. */
  ghost predicate IsOnlyOf(items: Items, ty: U16, state: State) {
    exists o :: o in items && o.ty == ty && items[o] == state && forall p :: p in items && p.ty == ty ==> p == o
  }

  lemma OnlyOfIff(items: Items, ty: U16, state: State)
    ensures IsOnlyOf(items, ty, state) <==>
              forall st: State :: InCount(items, ty, st) == if st == state then 1 else 0
  {
    if IsOnlyOf(items, ty, state) {
      var o :| o in items && o.ty == ty && items[o] == state && forall p :: p in items && p.ty == ty ==> p == o;
      forall st: State ensures InCount(items, ty, st) == if st == state then 1 else 0 {
        assert InputsOf(items, ty, st) == if st == state then {o} else {};
      }
    }
    if forall st: State :: InCount(items, ty, st) == if st == state then 1 else 0 {
      assert InCount(items, ty, state) == 1;
      var o :| o in InputsOf(items, ty, state);
      assert |InputsOf(items, ty, state) - {o}| == 0;
      forall p | p in items && p.ty == ty ensures p == o {
        assert p in InputsOf(items, ty, items[p]);
        assert InCount(items, ty, items[p]) > 0;
        assert p in InputsOf(items, ty, state) && p !in InputsOf(items, ty, state) - {o};
      }
    }
  }

  /**
   * A main transition for one piece of state keeps everything of other types. It keeps all state exactly when that
   * piece was the only one of its type.
   */
  lemma SingleConservesIff(items: Items, ty: U16, state: State, beneficiary: Seal, change: Option<nat>,
                           outputs: seq<Assignment>)
    requires PaysSingle(items, ty, state, beneficiary, change, outputs)
    ensures SameOthers(items, outputs, ty)
    ensures SameState(items, outputs) <==> IsOnlyOf(items, ty, state)
  {
    var moved :| MovesOthers(items, ty, change, moved) && outputs == moved + [Assignment(ty, beneficiary, state)];
    forall t: U16, st: State
      ensures OutCount(outputs, t, st) == OutCount(moved, t, st) + (if t == ty && st == state then 1 else 0)
      ensures t != ty ==> OutSum(outputs, t) == OutSum(moved, t)
    {
      OutCountSnoc(moved, Assignment(ty, beneficiary, state), t, st);
    }
    forall st: State ensures OutCount(moved, ty, st) == 0 {
      OutNone(moved, ty, st);
    }
    OnlyOfIff(items, ty, state);
    hide InCount, OutCount, InSum, OutSum;
  }

  /* The amounts of the type on these outputs are the listed allocations: both sides add up to the same amount. */
  ghost predicate ListedAs(items: Items, ty: U16, allocations: seq<Allocation>, seals: set<OutputSeal>) {
    && (forall i, j :: 0 <= i < j < |allocations| ==> allocations[i].opout != allocations[j].opout)
    && (forall a :: a in allocations && a.seal in seals ==>
          a.opout.ty == ty && a.opout in items && items[a.opout] == Amount(a.amount))
    && (forall o :: o in items && o.ty == ty && items[o].Amount? ==>
          exists a :: a in allocations && a.seal in seals && a.opout == o)
  }

  /** What selection counted is what building sums up. */
  lemma {:induction false} HeldIsInSum(items: Items, ty: U16, allocations: seq<Allocation>, seals: set<OutputSeal>)
    requires ListedAs(items, ty, allocations, seals)
    ensures Held(allocations, seals) == InSum(items, ty)
    decreases |allocations|
  {
    if allocations == [] {
      InSumNone(items, ty);
    } else {
      var a, tail := allocations[0], allocations[1..];
      assert forall x :: x in allocations <==> x == a || x in tail;
      assert forall x :: x in tail ==> x.opout != a.opout by {
        forall x | x in tail ensures x.opout != a.opout {
          var j :| 0 <= j < |tail| && tail[j] == x;
          assert allocations[j + 1] == x;
        }
      }
      if a.seal in seals {
        InSumRemove(items, a.opout, ty);
        HeldIsInSum(items - {a.opout}, ty, tail, seals);
      } else {
        HeldIsInSum(items, ty, tail, seals);
      }
    }
  }
}
