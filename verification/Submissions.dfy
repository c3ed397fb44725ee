/** A submission step by step on the four structures of a book: which slot it takes, what it writes and
    in which order slots return to the free list. */
module Submissions {
  import opened Types
  import opened FlatBook
  import opened Levels
  import opened BookState
  import opened Equivalences

  /** The slot the pool hands out next: the last one freed, or a new one. */
  ghost function NextSlot(st: State): Slot {
    if st.free == [] then |st.storage| else st.free[|st.free| - 1]
  }

  /** The order in that slot, linked at the back of its level and indexed. */
  ghost function Placed(st: State, o: Order): State {
    var slot := NextSlot(st);
    if st.free == [] then Added(st, st.storage + [o], [], slot)
    else if slot < |st.storage| then Added(st, st.storage[slot := o], st.free[..|st.free| - 1], slot)
    else st
  }

  /** The best opposite order exists, is indexed and is not the incoming one. */
  ghost predicate Faces(st: State, side: Side, slot: Slot) {
    var slots := Slots(st.Of(side.Opposite()));
    && slots != [] && slot < |st.storage| && slots[0] < |st.storage| && slots[0] != slot
    && st.storage[slots[0]].id in st.lookup && st.storage[slots[0]].id != st.storage[slot].id
  }

  /** An order is marked filled and taken out of all four structures once nothing of it is left. */
  ghost function Retired(st: State, slot: Slot): State
    requires slot < |st.storage| && st.storage[slot].id in st.lookup
  {
    var o := st.storage[slot];
    if o.IsFilled() then Removed(st.(storage := st.storage[slot := o.(status := Filled)]), o.id) else st
  }

  /** A fill written to both orders. */
  ghost function Traded(st: State, slot: Slot, resting: Slot): State
    requires slot < |st.storage| && resting < |st.storage|
  {
    var t, r := st.storage[slot], st.storage[resting];
    var fill := Min(t.remaining, r.remaining);
    st.(storage := st.storage[slot := t.(remaining := t.remaining - fill)][resting := r.(remaining := r.remaining - fill)])
  }

  /** One turn of the matching loop. */
  ghost function Turn(st: State, side: Side, slot: Slot): State {
    if !Faces(st, side, slot) then st
    else
      var resting := Slots(st.Of(side.Opposite()))[0];
      Retired(Traded(st, slot, resting), resting)
  }

  ghost function Turns(st: State, side: Side, slot: Slot, n: nat): State {
    if n == 0 then st else Turn(Turns(st, side, slot, n - 1), side, slot)
  }

  ghost function Settled(st: State, slot: Slot): State {
    if slot < |st.storage| then st.(storage := st.storage[slot := Settle(st.storage[slot])]) else st
  }

  /** A filled order leaves, and so does the remainder of a market or IOC order. */
  ghost function Finished(st: State, slot: Slot): State {
    if !(slot < |st.storage| && st.storage[slot].id in st.lookup) then st
    else
      var o := st.storage[slot];
      if o.IsFilled() then Removed(st, o.id)
      else if o.kind.Limit? then st
      else Removed(st.(storage := st.storage[slot := o.(status := if o.FilledQty() > 0 then PartiallyFilled else Cancelled)]), o.id)
  }

  /** Placing, matching for n turns, settling and finishing. */
  ghost function Submitted(st: State, o: Order, n: nat): State {
    var slot := NextSlot(st);
    Finished(Settled(Turns(Placed(st, o), o.side, slot, n), slot), slot)
  }

  /** The state an accepted submission leaves: one turn of the loop for each trade. */
  ghost function AfterSubmit(st: State, op: Op): State
    requires Wf(st) && op.Submit?
  {
    Submitted(st, Taker(View(st), op), |SweepOf(View(st), op).trades|)
  }

  ghost function AfterCancel(st: State, id: OrderId): State {
    if id in st.lookup && st.lookup[id].slot < |st.storage| then
      var slot := st.lookup[id].slot;
      Removed(st.(storage := st.storage[slot := st.storage[slot].(status := Cancelled)]), id)
    else st
  }

  // ---- IOC and limit-then-cancel, down to the free list ----

  /** The same state but for the kind of the order in one slot. */
  ghost predicate Twins(a: State, b: State, slot: Slot) {
    slot < |a.storage| && b == a.(storage := a.storage[slot := a.storage[slot].(kind := Limit)])
  }

  /** The order, which may not rest, is in its slot and the index leads there. */
  ghost predicate Held(st: State, slot: Slot, id: OrderId) {
    && slot < |st.storage| && st.storage[slot].id == id && !st.storage[slot].kind.Limit?
    && id in st.lookup && st.lookup[id].slot == slot
  }

  lemma {:induction false} PlacedTwins(st: State, o: Order)
    requires st.free != [] ==> NextSlot(st) < |st.storage|
    requires o.id == st.nextId && !o.kind.Limit?
    ensures NextSlot(st) < |Placed(st, o).storage|
    ensures Twins(Placed(st, o), Placed(st, o.(kind := Limit)), NextSlot(st)) && Held(Placed(st, o), NextSlot(st), o.id)
  {
  }

  lemma {:induction false} TurnTwins(a: State, b: State, side: Side, slot: Slot, id: OrderId)
    requires Twins(a, b, slot) && Held(a, slot, id)
    ensures Twins(Turn(a, side, slot), Turn(b, side, slot), slot) && Held(Turn(a, side, slot), slot, id)
  {
    hide Slots, Traded, Retired;
    assert Faces(a, side, slot) == Faces(b, side, slot);
    if Faces(a, side, slot) {
      var resting := Slots(a.Of(side.Opposite()))[0];
      TradedTwins(a, b, slot, resting, id);
      RetiredTwins(Traded(a, slot, resting), Traded(b, slot, resting), slot, resting, id);
    }
  }

  lemma {:induction false} TradedTwins(a: State, b: State, slot: Slot, resting: Slot, id: OrderId)
    requires Twins(a, b, slot) && Held(a, slot, id) && resting < |a.storage| && resting != slot
    ensures var a', b' := Traded(a, slot, resting), Traded(b, slot, resting);
            && Twins(a', b', slot) && Held(a', slot, id) && a'.lookup == a.lookup
            && |a'.storage| == |a.storage| && a'.storage[resting].id == a.storage[resting].id
  {
    var a', b' := Traded(a, slot, resting), Traded(b, slot, resting);
    assert b'.storage == a'.storage[slot := a'.storage[slot].(kind := Limit)];
  }

  lemma {:induction false} RetiredTwins(a: State, b: State, slot: Slot, resting: Slot, id: OrderId)
    requires Twins(a, b, slot) && Held(a, slot, id)
    requires resting < |a.storage| && resting != slot && a.storage[resting].id in a.lookup && a.storage[resting].id != id
    ensures Twins(Retired(a, resting), Retired(b, resting), slot) && Held(Retired(a, resting), slot, id)
  {
    hide Erase;
    var o := a.storage[resting].(status := Filled);
    assert a.storage[resting := o][slot := a.storage[slot].(kind := Limit)] == b.storage[resting := o];
  }

  lemma {:induction false} TurnsTwins(a: State, b: State, side: Side, slot: Slot, id: OrderId, n: nat)
    requires Twins(a, b, slot) && Held(a, slot, id)
    ensures Twins(Turns(a, side, slot, n), Turns(b, side, slot, n), slot) && Held(Turns(a, side, slot, n), slot, id)
    decreases n
  {
    hide Turn, Twins, Held;
    if n > 0 {
      TurnsTwins(a, b, side, slot, id, n - 1);
      TurnTwins(Turns(a, side, slot, n - 1), Turns(b, side, slot, n - 1), side, slot, id);
    }
  }

  lemma {:induction false} SettledTwins(a: State, b: State, slot: Slot, id: OrderId)
    requires Twins(a, b, slot) && Held(a, slot, id)
    ensures Twins(Settled(a, slot), Settled(b, slot), slot) && Held(Settled(a, slot), slot, id)
  {
    var o := a.storage[slot];
    assert Settle(o.(kind := Limit)) == Settle(o).(kind := Limit);
  }

  /** Levels, index, free list and counter are equal, and so is the storage but for one slot, which is
      free and next to be handed out. */
  ghost predicate SameButDeadSlot(a: State, b: State, slot: Slot) {
    && a.bids == b.bids && a.asks == b.asks && a.lookup == b.lookup && a.nextId == b.nextId
    && a.free == b.free && a.free != [] && a.free[|a.free| - 1] == slot
    && |a.storage| == |b.storage| && forall s :: 0 <= s < |a.storage| && s != slot ==> a.storage[s] == b.storage[s]
  }

  lemma {:induction false} FinishedAlike(a: State, b: State, slot: Slot, id: OrderId)
    requires Twins(a, b, slot) && Held(a, slot, id)
    ensures SameButDeadSlot(Finished(a, slot), AfterCancel(Finished(b, slot), id), slot)
  {
    hide Erase;
  }

  /** An IOC order leaves levels, index, free list and storage as a limit order does that is cancelled
      the moment the call returns; only the kind and status of its own, freed slot differ. */
  lemma {:induction false} IocPoolIsLimitThenCancel(st: State, side: Side, price: Price, quantity: Quantity)
    requires Wf(st)
    ensures var ioc, limit := Submit(side, IOC, price, quantity), Submit(side, Limit, price, quantity);
            SameButDeadSlot(AfterSubmit(st, ioc), AfterCancel(AfterSubmit(st, limit), st.nextId), NextSlot(st))
  {
    hide Wf, Turns, Settled, Finished, AfterCancel, Twins, Held, Placed, SameButDeadSlot, Sweep;
    var b := View(st);
    var ioc, limit := NewOrder(b.nextId, side, IOC, price, quantity), NewOrder(b.nextId, side, Limit, price, quantity);
    SweepSteeredByInterest(b.Of(side.Opposite()), ioc, limit, 0);
    var n, slot := |SweepOf(b, Submit(side, IOC, price, quantity)).trades|, NextSlot(st);
    FreeSlotExists(st);
    PlacedTwins(st, ioc);
    TurnsTwins(Placed(st, ioc), Placed(st, limit), side, slot, st.nextId, n);
    SettledTwins(Turns(Placed(st, ioc), side, slot, n), Turns(Placed(st, limit), side, slot, n), slot, st.nextId);
    FinishedAlike(Settled(Turns(Placed(st, ioc), side, slot, n), slot), Settled(Turns(Placed(st, limit), side, slot, n), slot), slot, st.nextId);
  }

  lemma {:induction false} FreeSlotExists(st: State)
    requires Wf(st)
    ensures st.free != [] ==> NextSlot(st) < |st.storage|
  {
  }
}
