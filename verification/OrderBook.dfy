/** The order book object. Every operation updates the levels, the id index and the pool in place,
    and is proved to be the corresponding operation on the flat book. */
module OrderBooks {
  import opened Types
  import opened FlatBook
  import opened Levels
  import opened BookState
  import opened ObjectPools
  import opened Submissions

  const BLANK_ORDER := Order(0, Buy, Limit, 0, 0, 0, Accepted)

  datatype MaybeLevel = NoLevel | BestAt(level: Level)

  class OrderBook {
    const symbol: Symbol
    const pool: ObjectPool<Order>
    var bids: seq<Level>
    var asks: seq<Level>
    var orderLookup: map<OrderId, Location>
    var nextOrderId: OrderId

    ghost function Now(): State
      reads this, pool
    {
      State(bids, asks, orderLookup, pool.storage, pool.freeList, nextOrderId)
    }

    /** The four structures agree. */
    ghost predicate Valid()
      reads this, pool
    {
      Wf(Now())
    }

    /** The flat book this object stands for. */
    ghost function Contents(): Book
      requires Valid()
      reads this, pool
    {
      View(Now())
    }

    constructor (symbol: Symbol, poolSize: nat)
      ensures this.symbol == symbol && fresh(pool)
      ensures Valid() && Contents() == EMPTY
    {
      this.symbol := symbol;
      pool := new ObjectPool(poolSize, BLANK_ORDER);
      bids, asks, orderLookup, nextOrderId := [], [], map[], 1;
      new;
      assert Members(bids) == {} && Members(asks) == {};
    }

    function Levels(side: Side): seq<Level>
      reads this
    {
      if side.Buy? then bids else asks
    }

    method SetLevels(side: Side, levels: seq<Level>)
      modifies this`bids, this`asks
      ensures Levels(side) == levels && Levels(side.Opposite()) == old(Levels(side.Opposite()))
    {
      if side.Buy? {
        bids := levels;
      } else {
        asks := levels;
      }
    }

    /** Links a new order at the back of its price level. */
    method AddOrder(side: Side, kind: OrderType, price: Price, quantity: Quantity) returns (slot: Slot)
      requires Valid()
      modifies this, pool
      ensures Valid() && slot < |pool.storage| && slot in Members(Levels(side))
      ensures pool.storage[slot] == Order(old(nextOrderId), side, kind, price, quantity, quantity, Accepted)
      ensures Contents() == old(Contents())
                            .With(side, Insert(old(Contents()).Of(side), pool.storage[slot]))
                            .(nextId := old(nextOrderId) + 1)
      ensures slot == NextSlot(old(Now())) && Now() == Placed(old(Now()), pool.storage[slot])
    {
      hide Wf, View, Push, Added, Placed, NextSlot, Acquired, Members;
      ghost var st := Now();
      FreeListOk(st);
      slot := pool.Acquire();
      AcquireGives(st, pool.storage, pool.freeList, slot, pool.blank,
                   Order(nextOrderId, side, kind, price, quantity, quantity, Accepted));
      pool.storage := pool.storage[slot := Order(nextOrderId, side, kind, price, quantity, quantity, Accepted)];
      nextOrderId := nextOrderId + 1;
      SetLevels(side, Push(Levels(side), side, price, slot));
      orderLookup := orderLookup[pool.storage[slot].id := Location(side, price, slot)];

      AddedNow(st, Now(), slot);
      AddRefinesInsert(st, pool.storage, pool.freeList, slot);
      PushedHolds(st, side, price, slot);
    }

    /** Removes the level at a price if its list is empty; every other level stays, in order. */
    method CleanupPriceLevel(side: Side, price: Price)
      requires Ladder(Levels(side), side)
      modifies this`bids, this`asks
      ensures Ladder(Levels(side), side)
      ensures forall l :: l in Levels(side) <==> l in old(Levels(side)) && (l.price != price || l.slots != [])
      ensures Levels(side) == Cleanup(old(Levels(side)), price)
      ensures Levels(side.Opposite()) == old(Levels(side.Opposite()))
    {
      CleanupKeeps(Levels(side), side, price);
      SetLevels(side, Cleanup(Levels(side), price));
    }

    /** Unlinks an indexed order from its list, its level if empty, the index and the pool. */
    method Unlink(id: OrderId)
      requires Valid() && id in orderLookup
      modifies this, pool`freeList
      ensures Valid() && Now() == Removed(old(Now()), id)
      ensures Outcome(Contents(), Done(true)) == CancelIn(old(Contents()), id)
    {
      ghost var st := Now();
      var loc := orderLookup[id];
      EraseNodeKeepsLadder(Levels(loc.side), loc.side, loc.price, loc.slot);
      SetLevels(loc.side, EraseNode(Levels(loc.side), loc.price, loc.slot));
      CleanupPriceLevel(loc.side, loc.price);
      orderLookup := orderLookup - {id};
      RestingSlotIsTaken(st, id);
      pool.Release(loc.slot);
      assert Now() == Removed(st, id);
      RemoveRefinesCancel(st, id);
    }

    /** An id is indexed exactly if its order rests, and the index leads to it. */
    lemma {:induction false} IndexedRests(id: OrderId)
      requires Valid()
      ensures id in orderLookup <==> Contents().Has(id)
      ensures id in orderLookup ==> orderLookup[id].slot < |pool.storage| && pool.storage[orderLookup[id].slot] == Find(Contents(), id)
    {
      LookupFinds(Now(), id);
    }

    method CancelOrder(id: OrderId) returns (ok: bool)
      requires Valid()
      modifies this, pool
      ensures Valid() && Outcome(Contents(), Done(ok)) == CancelIn(old(Contents()), id)
      ensures ok <==> id in old(orderLookup)
      ensures Now() == AfterCancel(old(Now()), id)
    {
      LookupFinds(Now(), id);
      if id !in orderLookup {
        IndexIsView(Now(), Buy, id);
        IndexIsView(Now(), Sell, id);
        RemoveAbsent(SideView(Now(), Buy), id);
        RemoveAbsent(SideView(Now(), Sell), id);
        return false;
      }
      var loc := orderLookup[id];
      ghost var st := Now();
      assert loc.slot in Members(st.Of(loc.side));
      Write(loc.side, loc.slot, pool.storage[loc.slot].(status := Cancelled));
      CancelIgnoresStatus(st, Now(), id);
      Unlink(id);
      ok := true;
    }

    /** Writes through an order pointer; identity, side and price never change. */
    method Write(side: Side, slot: Slot, o: Order)
      requires Valid() && slot in Members(Levels(side)) && slot < |pool.storage|
      requires o.id == pool.storage[slot].id && o.side == pool.storage[slot].side && o.price == pool.storage[slot].price
      modifies pool`storage
      ensures Valid() && Now() == old(Now()).(storage := old(pool.storage)[slot := o])
      ensures SideView(Now(), side) == Put(old(SideView(Now(), side)), o)
      ensures SideView(Now(), side.Opposite()) == old(SideView(Now(), side.Opposite()))
    {
      WriteRefinesPut(Now(), slot, o, side);
      pool.storage := pool.storage[slot := o];
    }

    /** Shrinks an order in place, keeping its place in the queue. */
    method ReduceOrder(id: OrderId, newQuantity: Quantity) returns (ok: bool)
      requires Valid()
      modifies this, pool
      ensures Valid() && Outcome(Contents(), Done(ok)) == ReduceIn(old(Contents()), id, newQuantity)
      ensures ok <==> old(id in orderLookup && orderLookup[id].slot < |pool.storage|
                          && newQuantity < pool.storage[orderLookup[id].slot].remaining)
      ensures !ok ==> Now() == old(Now())
    {
      LookupFinds(Now(), id);
      if id !in orderLookup {
        return false;
      }
      var loc := orderLookup[id];
      var order := pool.storage[loc.slot];
      if newQuantity >= order.remaining {
        return false;
      }
      if newQuantity == 0 {
        ok := CancelOrder(id);
        return;
      }
      ghost var st := Now();
      assert loc.slot in Members(st.Of(loc.side));
      Write(loc.side, loc.slot, order.(remaining := newQuantity));
      WriteIsReduce(st, id, newQuantity);
      ok := true;
    }

    /** Takes out a filled order; an order that is no longer indexed is left alone. */
    method RemoveOrder(slot: Slot)
      requires Valid() && slot < |pool.storage|
      requires pool.storage[slot].id in orderLookup ==> orderLookup[pool.storage[slot].id].slot == slot
      modifies this, pool`freeList
      ensures Valid()
      ensures var id := old(pool.storage[slot].id);
              if id in old(orderLookup) then
                Now() == Removed(old(Now()), id) && Outcome(Contents(), Done(true)) == CancelIn(old(Contents()), id)
              else Now() == old(Now())
    {
      var id := pool.storage[slot].id;
      if id !in orderLookup {
        return;
      }
      Unlink(id);
    }

    /** The best level of a side, if it has any. */
    function BestLevel(side: Side): (l: MaybeLevel)
      requires Valid()
      reads this, pool
      ensures l.NoLevel? <==> Contents().Of(side) == []
      ensures l.BestAt? ==> l.level.slots != [] && l.level.slots[0] < |pool.storage|
                            && l.level.slots[0] in Members(Levels(side))
                            && Slots(Levels(side)) != [] && l.level.slots[0] == Slots(Levels(side))[0]
                            && pool.storage[l.level.slots[0]] == Contents().Of(side)[0]
    {
      SideFacts(Now(), side);
      FrontIsHead(Levels(side), pool.storage, side);
      if Levels(side) == [] then NoLevel else BestAt(Levels(side)[0])
    }

    /** Orders on the book: as many as the pool has handed out slots. */
    function OrderCount(): (n: nat)
      requires Valid()
      reads this, pool
      ensures n == |Contents().bids| + |Contents().asks|
      ensures n == |pool.storage| - |pool.freeList|
    {
      ActiveSlotsAreResting(Now());
      |orderLookup|
    }

    /** Shares resting on a side, added up in 32 bits: the true total modulo 2^32. */
    method TotalQuantity(side: Side) returns (total: Quantity)
      requires Valid()
      ensures total == Total(Contents().Of(side)) % 0x1_0000_0000
    {
      SideFacts(Now(), side);
      TotalBySlots(pool.storage, Slots(Levels(side)));
      total := TotalOfLevels(Levels(side));
    }

    method TotalOfLevels(levels: seq<Level>) returns (total: Quantity)
      requires InRange(Slots(levels), |pool.storage|)
      ensures total == SlotTotal(pool.storage, Slots(levels)) % 0x1_0000_0000
    {
      total := 0;
      ghost var exact: nat := 0;
      assert levels[0..] == levels;
      for i := 0 to |levels|
        invariant InRange(Slots(levels[i..]), |pool.storage|)
        invariant exact + SlotTotal(pool.storage, Slots(levels[i..])) == SlotTotal(pool.storage, Slots(levels))
        invariant total == exact % 0x1_0000_0000
      {
        var level := levels[i];
        ghost var later := Slots(levels[i + 1..]);
        assert levels[i..][1..] == levels[i + 1..];
        assert level.slots[0..] == level.slots;
        for j := 0 to |level.slots|
          invariant InRange(level.slots[j..] + later, |pool.storage|)
          invariant exact + SlotTotal(pool.storage, level.slots[j..] + later) == SlotTotal(pool.storage, Slots(levels))
          invariant total == exact % 0x1_0000_0000
        {
          HeadOfConcat(level.slots, j, later);
          WrapTwice(exact, pool.storage[level.slots[j]].remaining);
          total := (total + pool.storage[level.slots[j]].remaining) % 0x1_0000_0000;
          exact := exact + pool.storage[level.slots[j]].remaining;
        }
        assert level.slots[|level.slots|..] + later == later;
      }
    }
  }

  // ---- Glue between the object and its state ----

  /** What the pool hands out is not linked anywhere, and nothing linked is lost. */
  lemma {:induction false} AcquireGives(st: State, storage: seq<Order>, free: seq<Slot>, slot: Slot, blank: Order, o: Order)
    requires Wf(st) && slot < |storage|
    requires st.free == [] ==> slot == |st.storage| && storage == st.storage + [blank] && free == []
    requires st.free != [] ==> st.free == free + [slot] && storage == st.storage
    ensures Acquired(st, storage[slot := o], free, slot)
    ensures slot == NextSlot(st) && Placed(st, o) == Added(st, storage[slot := o], free, slot)
    ensures slot !in Members(st.bids) + Members(st.asks)
  {
    hide Push;
    assert st.free == [] ==> storage[slot := o] == st.storage + [o];
    assert st.free != [] ==> st.free[..|st.free| - 1] == free;
    var resting := Members(st.bids) + Members(st.asks);
    assert forall s :: s in resting ==> s < |st.storage|;
    if st.free != [] {
      PoolAcquire(resting, free, |storage|, slot);
    }
  }

  lemma {:induction false} FreeListOk(st: State)
    requires Wf(st)
    ensures NoDup(st.free) && InRange(st.free, |st.storage|)
  {
  }

  /** The book after linking and indexing the order in a slot. */
  lemma {:induction false} AddedNow(st: State, st': State, slot: Slot)
    requires slot < |st'.storage| && st'.storage[slot].id == st.nextId && st'.nextId == st.nextId + 1
    requires var o := st'.storage[slot];
             && st'.Of(o.side) == Push(st.Of(o.side), o.side, o.price, slot)
             && st'.Of(o.side.Opposite()) == st.Of(o.side.Opposite())
             && st'.lookup == st.lookup[st.nextId := Location(o.side, o.price, slot)]
    ensures st' == Added(st, st'.storage, st'.free, slot)
  {
    hide Push;
  }

  lemma {:induction false} PushedHolds(st: State, side: Side, price: Price, slot: Slot)
    requires Wf(st) && slot !in Members(st.bids) + Members(st.asks)
    ensures slot in Members(Push(st.Of(side), side, price, slot))
  {
    PushedSlots(st.Of(side), side, price, slot);
  }

  lemma {:induction false} PoolAcquire(resting: set<Slot>, free: seq<Slot>, n: nat, slot: Slot)
    requires PoolWf(resting, free + [slot], n)
    ensures slot !in resting && PoolWf(resting + {slot}, free, n)
  {
    var before := free + [slot];
    assert before[|free|] == slot;
    assert forall k :: 0 <= k < |free| ==> before[k] == free[k];
    assert forall s :: s in before <==> s in free || s == slot;
  }

  lemma {:induction false} RestingSlotIsTaken(st: State, id: OrderId)
    requires Wf(st) && id in st.lookup
    ensures st.lookup[id].slot < |st.storage| && st.lookup[id].slot !in st.free
  {
    assert st.lookup[id].slot in Members(st.bids) + Members(st.asks);
  }

  lemma {:induction false} RemovePut(s: seq<Order>, o: Order)
    ensures Remove(Put(s, o), o.id) == Remove(s, o.id)
    decreases |s|
  {
    if s != [] && s[0].id != o.id {
      RemovePut(s[1..], o);
    }
  }

  /** Marking an order cancelled first does not change what cancelling it leaves. */
  lemma {:induction false} CancelIgnoresStatus(st: State, st': State, id: OrderId)
    requires Wf(st) && Wf(st') && id in st.lookup && st.lookup[id].slot < |st.storage|
    requires var loc := st.lookup[id];
             var o := st.storage[loc.slot].(status := Cancelled);
             && st' == st.(storage := st.storage[loc.slot := o])
             && SideView(st', loc.side) == Put(SideView(st, loc.side), o)
             && SideView(st', loc.side.Opposite()) == SideView(st, loc.side.Opposite())
    ensures CancelIn(View(st'), id) == CancelIn(View(st), id)
  {
    var loc := st.lookup[id];
    RemovePut(SideView(st, loc.side), st.storage[loc.slot].(status := Cancelled));
    LookupFinds(st, id);
    LookupFinds(st', id);
  }

  lemma {:induction false} PutIsSetRemaining(s: seq<Order>, id: OrderId, n: Quantity)
    ensures HasId(s, id) ==> SetRemaining(s, id, n) == Put(s, s[IndexOf(s, id)].(remaining := n))
    ensures !HasId(s, id) ==> SetRemaining(s, id, n) == s
    decreases |s|
  {
    if s != [] && s[0].id != id {
      assert forall k :: 0 <= k < |s[1..]| ==> s[1..][k] == s[k + 1];
      assert HasId(s, id) ==> HasId(s[1..], id) by {
        if HasId(s, id) {
          var k :| 0 <= k < |s| && s[k].id == id;
          assert s[1..][k - 1].id == id;
        }
      }
      PutIsSetRemaining(s[1..], id, n);
    }
  }

  lemma {:induction false} WriteIsReduce(st: State, id: OrderId, n: Quantity)
    requires Wf(st) && id in st.lookup && st.lookup[id].slot < |st.storage|
    requires 0 < n < st.storage[st.lookup[id].slot].remaining
    ensures var loc := st.lookup[id];
            var o := st.storage[loc.slot].(remaining := n);
            Outcome(View(st).With(loc.side, Put(SideView(st, loc.side), o)), Done(true)) == ReduceIn(View(st), id, n)
  {
    LookupFinds(st, id);
    IndexIsView(st, Buy, id);
    IndexIsView(st, Sell, id);
    PutIsSetRemaining(SideView(st, Buy), id, n);
    PutIsSetRemaining(SideView(st, Sell), id, n);
  }

  ghost function SlotTotal(storage: seq<Order>, slots: seq<Slot>): nat
    requires InRange(slots, |storage|)
  {
    if slots == [] then 0 else storage[slots[0]].remaining + SlotTotal(storage, slots[1..])
  }

  lemma {:induction false} TotalBySlots(storage: seq<Order>, slots: seq<Slot>)
    requires InRange(slots, |storage|)
    ensures SlotTotal(storage, slots) == Total(Orders(storage, slots))
    decreases |slots|
  {
    if slots != [] {
      TotalBySlots(storage, slots[1..]);
      assert Orders(storage, slots)[1..] == Orders(storage, slots[1..]);
    }
  }

  lemma {:induction false} HeadOfConcat(slots: seq<Slot>, j: nat, later: seq<Slot>)
    requires j < |slots|
    ensures (slots[j..] + later)[0] == slots[j] && (slots[j..] + later)[1..] == slots[j + 1..] + later
  {
  }
}
