/** The four structures of a book taken together: price levels, id index, pool storage and free
    list. States how they must agree, and that each update of all four is one update of the flat
    book. */
module BookState {
  import opened Types
  import opened FlatBook
  import opened Levels

  datatype Location = Location(side: Side, price: Price, slot: Slot)

  datatype State = State(bids: seq<Level>, asks: seq<Level>, lookup: map<OrderId, Location>,
                         storage: seq<Order>, free: seq<Slot>, nextId: OrderId)
  {
    function Of(side: Side): seq<Level> {
      if side.Buy? then bids else asks
    }

    function With(side: Side, levels: seq<Level>): State {
      if side.Buy? then this.(bids := levels) else this.(asks := levels)
    }
  }

  /** The slots linked into a side's lists. */
  ghost function Members(levels: seq<Level>): set<Slot> {
    SetOf(Slots(levels))
  }

  ghost function SetOf(slots: seq<Slot>): set<Slot> {
    set s | s in slots
  }

  /** Every list node has the index entry that leads back to it. */
  ghost predicate NodesIndexed(nodes: set<Slot>, side: Side, lookup: map<OrderId, Location>, storage: seq<Order>) {
    forall s :: s in nodes ==>
      && s < |storage|
      && storage[s].id in lookup
      && lookup[storage[s].id] == Location(side, storage[s].price, s)
  }

  /** Every index entry leads to a list node holding that order. */
  ghost predicate EntriesRest(bids: set<Slot>, asks: set<Slot>, lookup: map<OrderId, Location>, storage: seq<Order>) {
    forall id :: id in lookup ==>
      && lookup[id].slot in (if lookup[id].side.Buy? then bids else asks)
      && lookup[id].slot < |storage| && storage[lookup[id].slot].id == id
  }

  ghost predicate IdsIssued(lookup: map<OrderId, Location>, nextId: OrderId) {
    nextId > 0 && forall id :: id in lookup ==> 0 < id < nextId
  }

  /** A pool slot is free, and listed once, or holds a resting order. */
  ghost predicate PoolWf(resting: set<Slot>, free: seq<Slot>, n: nat) {
    && NoDup(free) && InRange(free, n)
    && (forall s :: s in resting ==> s !in free)
    && forall s {:trigger s in resting} {:trigger s in free} :: 0 <= s < n ==> s in resting || s in free
  }

  ghost predicate Wf(st: State) {
    var bids, asks := Members(st.bids), Members(st.asks);
    && SideWf(st.bids, st.storage, Buy) && SideWf(st.asks, st.storage, Sell)
    && NoDup(Slots(st.bids)) && NoDup(Slots(st.asks)) && bids !! asks
    && NodesIndexed(bids, Buy, st.lookup, st.storage) && NodesIndexed(asks, Sell, st.lookup, st.storage)
    && EntriesRest(bids, asks, st.lookup, st.storage) && IdsIssued(st.lookup, st.nextId)
    && PoolWf(bids + asks, st.free, |st.storage|)
  }

  /** The resting orders of one side as one flat list. */
  ghost function SideView(st: State, side: Side): seq<Order>
    requires Wf(st)
  {
    SlotsInRange(st.bids, st.storage, Buy);
    SlotsInRange(st.asks, st.storage, Sell);
    Orders(st.storage, Slots(st.Of(side)))
  }

  ghost function View(st: State): Book
    requires Wf(st)
  {
    Book(SideView(st, Buy), SideView(st, Sell), st.nextId)
  }

  /** The clauses of the invariant for one side. */
  lemma {:induction false} SideFacts(st: State, side: Side)
    requires Wf(st)
    ensures var levels := st.Of(side);
            && SideWf(levels, st.storage, side) && InRange(Slots(levels), |st.storage|) && NoDup(Slots(levels))
            && SideView(st, side) == Orders(st.storage, Slots(levels))
            && NodesIndexed(Members(levels), side, st.lookup, st.storage)
            && Members(levels) !! Members(st.Of(side.Opposite()))
  {
    SlotsInRange(st.Of(side), st.storage, side);
  }

  // ---- The view and the index agree ----

  /** An id rests in the view of a side exactly if the index has it there. */
  lemma {:induction false} IndexIsView(st: State, side: Side, id: OrderId)
    requires Wf(st)
    ensures HasId(SideView(st, side), id) <==> id in st.lookup && st.lookup[id].side == side
  {
    var slots, flat := Slots(st.Of(side)), SideView(st, side);
    if HasId(flat, id) {
      var k :| 0 <= k < |flat| && flat[k].id == id;
      assert slots[k] in Members(st.Of(side));
    }
    if id in st.lookup && st.lookup[id].side == side {
      assert st.lookup[id].slot in Members(st.Of(side));
      var k :| 0 <= k < |slots| && slots[k] == st.lookup[id].slot;
      assert flat[k].id == id;
    }
  }

  lemma {:induction false} LookupFinds(st: State, id: OrderId)
    requires Wf(st)
    ensures View(st).Has(id) <==> id in st.lookup
    ensures id in st.lookup ==> st.lookup[id].slot < |st.storage| && Find(View(st), id) == st.storage[st.lookup[id].slot]
  {
    IndexIsView(st, Buy, id);
    IndexIsView(st, Sell, id);
    if id in st.lookup {
      var side := st.lookup[id].side;
      var flat := SideView(st, side);
      var k := IndexOf(flat, id);
      assert Slots(st.Of(side))[k] in Members(st.Of(side));
      assert flat[k] == st.storage[st.lookup[id].slot];
    }
  }

  /** One id, one slot. */
  lemma {:induction false} IdsIdentifySlots(levels: seq<Level>, st: State, side: Side, slot: Slot)
    requires NodesIndexed(Members(levels), side, st.lookup, st.storage) && slot in Members(levels)
    ensures var slots := Slots(levels);
            && InRange(slots, |st.storage|) && slot < |st.storage|
            && forall k :: 0 <= k < |slots| ==> (st.storage[slots[k]].id == st.storage[slot].id <==> slots[k] == slot)
  {
    var slots := Slots(levels);
    forall k | 0 <= k < |slots|
      ensures slots[k] < |st.storage| && (st.storage[slots[k]].id == st.storage[slot].id <==> slots[k] == slot)
    {
      assert slots[k] in Members(levels);
    }
  }

  // ---- Adding an order ----

  /** A slot taken from the pool and filled in, before it is linked anywhere. */
  ghost predicate Acquired(st: State, storage: seq<Order>, free: seq<Slot>, slot: Slot) {
    var resting := Members(st.bids) + Members(st.asks);
    && slot < |storage| && |st.storage| <= |storage| && slot !in resting
    && PoolWf(resting + {slot}, free, |storage|)
    && forall s :: 0 <= s < |st.storage| && s != slot ==> storage[s] == st.storage[s]
  }

  ghost function Added(st: State, storage: seq<Order>, free: seq<Slot>, slot: Slot): State
    requires slot < |storage|
  {
    var o := storage[slot];
    st.With(o.side, Push(st.Of(o.side), o.side, o.price, slot))
      .(storage := storage, free := free, nextId := st.nextId + 1,
        lookup := st.lookup[st.nextId := Location(o.side, o.price, slot)])
  }

  /** Orders elsewhere in the pool do not move when another slot is written or the pool grows. */
  lemma {:induction false} SideStable(levels: seq<Level>, storage: seq<Order>, storage': seq<Order>, side: Side)
    requires SideWf(levels, storage, side) && |storage| <= |storage'|
    requires forall s :: s in Slots(levels) && s < |storage| ==> storage'[s] == storage[s]
    ensures SideWf(levels, storage', side)
    ensures InRange(Slots(levels), |storage|) && InRange(Slots(levels), |storage'|)
    ensures Orders(storage', Slots(levels)) == Orders(storage, Slots(levels))
    decreases |levels|
  {
    SlotsInRange(levels, storage, side);
    var slots := Slots(levels);
    assert forall k :: 0 <= k < |slots| ==> slots[k] in slots;
    if levels != [] {
      TailWf(levels, storage, side);
      SideStable(levels[1..], storage, storage', side);
      LevelStable(levels[0], storage, storage', side);
      assert levels[1..] != [] ==> levels[1..][0] == levels[1];
      ConsWf(levels[0], levels[1..], storage', side);
      assert [levels[0]] + levels[1..] == levels;
    }
  }

  lemma {:induction false} LevelStable(l: Level, storage: seq<Order>, storage': seq<Order>, side: Side)
    requires LevelWf(l, storage, side) && |storage| <= |storage'|
    requires forall s :: s in l.slots && s < |storage| ==> storage'[s] == storage[s]
    ensures LevelWf(l, storage', side)
  {
    assert forall k :: 0 <= k < |l.slots| ==> l.slots[k] in l.slots;
  }

  lemma {:induction false} PushedSlots(levels: seq<Level>, side: Side, price: Price, slot: Slot)
    requires NoDup(Slots(levels)) && slot !in Members(levels)
    ensures var pushed := Push(levels, side, price, slot);
            NoDup(Slots(pushed)) && Members(pushed) == Members(levels) + {slot}
  {
    var slots, pushed := Slots(levels), Slots(Push(levels, side, price, slot));
    PushMembers(levels, side, price, slot);
    CountsNoDup(slots);
    forall s ensures s in pushed <==> s == slot || s in slots {
      assert s in pushed <==> multiset(pushed)[s] > 0;
      assert s in slots <==> multiset(slots)[s] > 0;
    }
    NoDupByCounts(pushed);
  }

  lemma {:induction false} CountsNoDup(slots: seq<Slot>)
    requires NoDup(slots)
    ensures forall s :: multiset(slots)[s] <= 1
    decreases |slots|
  {
    if slots != [] {
      CountsNoDup(slots[1..]);
      assert slots == [slots[0]] + slots[1..];
      forall s ensures multiset(slots)[s] <= 1 {
        assert s == slots[0] ==> s !in slots[1..];
        assert s in slots[1..] <==> multiset(slots[1..])[s] > 0;
      }
    }
  }

  lemma {:induction false} NoDupByCounts(slots: seq<Slot>)
    requires forall s :: s in multiset(slots) ==> multiset(slots)[s] <= 1
    ensures NoDup(slots)
    decreases |slots|
  {
    if slots != [] {
      var tail := slots[1..];
      assert slots == [slots[0]] + tail;
      forall s | s in multiset(tail) ensures multiset(tail)[s] <= 1 {
        assert s in multiset(slots);
      }
      NoDupByCounts(tail);
      forall i, j | 0 <= i < j < |slots| ensures slots[i] != slots[j] {
        if i == 0 {
          assert slots[j] == tail[j - 1];
          assert tail[j - 1] in multiset(tail);
          assert slots[0] in multiset(slots);
        } else {
          assert slots[i] == tail[i - 1] && slots[j] == tail[j - 1];
        }
      }
    }
  }

  lemma {:induction false} NodesGrow(nodes: set<Slot>, side: Side, lookup: map<OrderId, Location>, storage: seq<Order>,
                                     storage': seq<Order>, slot: Slot, id: OrderId, loc: Location)
    requires NodesIndexed(nodes, side, lookup, storage) && id !in lookup
    requires |storage| <= |storage'| && forall s :: 0 <= s < |storage| && s != slot ==> storage'[s] == storage[s]
    requires slot !in nodes
    ensures NodesIndexed(nodes, side, lookup[id := loc], storage')
    ensures slot < |storage'| && storage'[slot].id == id && loc == Location(side, storage'[slot].price, slot) ==>
              NodesIndexed(nodes + {slot}, side, lookup[id := loc], storage')
  {
  }

  lemma {:induction false} EntriesGrow(bids: set<Slot>, asks: set<Slot>, lookup: map<OrderId, Location>, storage: seq<Order>,
                                       storage': seq<Order>, id: OrderId, loc: Location)
    requires EntriesRest(bids, asks, lookup, storage) && id !in lookup
    requires |storage| <= |storage'| && forall s :: 0 <= s < |storage| && s != loc.slot ==> storage'[s] == storage[s]
    requires loc.slot !in bids && loc.slot !in asks && loc.slot < |storage'| && storage'[loc.slot].id == id
    ensures loc.side.Buy? ==> EntriesRest(bids + {loc.slot}, asks, lookup[id := loc], storage')
    ensures loc.side.Sell? ==> EntriesRest(bids, asks + {loc.slot}, lookup[id := loc], storage')
  {
  }

  lemma {:induction false} AddKeepsSides(st: State, storage: seq<Order>, free: seq<Slot>, slot: Slot)
    requires Wf(st) && Acquired(st, storage, free, slot) && storage[slot].id == st.nextId
    ensures var st', side := Added(st, storage, free, slot), storage[slot].side;
            && SideWf(st'.bids, storage, Buy) && SideWf(st'.asks, storage, Sell)
            && InRange(Slots(st'.bids), |storage|) && InRange(Slots(st'.asks), |storage|)
            && Orders(storage, Slots(st'.Of(side))) == Insert(SideView(st, side), storage[slot])
            && Orders(storage, Slots(st'.Of(side.Opposite()))) == SideView(st, side.Opposite())
  {
    hide NoDup, PoolWf, EntriesRest, SideWf, LevelWf, Push, Insert, Orders, InRange;
    var side := storage[slot].side;
    SideFacts(st, side);
    SideFacts(st, side.Opposite());
    AcquiredStable(st, storage, free, slot, side);
    AcquiredStable(st, storage, free, slot, side.Opposite());
    NewestId(st, side, storage, slot);
    PushKeepsWf(st.Of(side), storage, side, slot);
    PushIsInsert(st.Of(side), storage, side, slot);
  }

  lemma {:induction false} AcquiredStable(st: State, storage: seq<Order>, free: seq<Slot>, slot: Slot, side: Side)
    requires Wf(st) && Acquired(st, storage, free, slot)
    ensures var levels := st.Of(side);
            && SideWf(levels, storage, side) && InRange(Slots(levels), |st.storage|) && InRange(Slots(levels), |storage|)
            && Orders(storage, Slots(levels)) == Orders(st.storage, Slots(levels))
  {
    hide NoDup, PoolWf, EntriesRest, NodesIndexed, Orders;
    assert forall s :: s in Slots(st.Of(side)) ==> s in Members(st.Of(side));
    SideStable(st.Of(side), st.storage, storage, side);
  }

  lemma {:induction false} NewestId(st: State, side: Side, storage: seq<Order>, slot: Slot)
    requires NodesIndexed(Members(st.Of(side)), side, st.lookup, st.storage) && IdsIssued(st.lookup, st.nextId)
    requires slot < |storage| && storage[slot].id == st.nextId && slot !in Members(st.Of(side))
    requires |st.storage| <= |storage| && forall s :: 0 <= s < |st.storage| && s != slot ==> storage[s] == st.storage[s]
    ensures var slots := Slots(st.Of(side));
            forall k :: 0 <= k < |slots| ==> slots[k] < |storage| && storage[slots[k]].id < storage[slot].id
  {
    var slots := Slots(st.Of(side));
    forall k | 0 <= k < |slots| ensures slots[k] < |storage| && storage[slots[k]].id < storage[slot].id {
      assert slots[k] in Members(st.Of(side));
    }
  }

  lemma {:induction false} AddKeepsIndex(st: State, storage: seq<Order>, free: seq<Slot>, slot: Slot)
    requires Wf(st) && Acquired(st, storage, free, slot) && storage[slot].id == st.nextId
    ensures var st' := Added(st, storage, free, slot);
            var bids, asks := Members(st'.bids), Members(st'.asks);
            && NoDup(Slots(st'.bids)) && NoDup(Slots(st'.asks)) && bids !! asks
            && NodesIndexed(bids, Buy, st'.lookup, storage) && NodesIndexed(asks, Sell, st'.lookup, storage)
            && EntriesRest(bids, asks, st'.lookup, storage) && PoolWf(bids + asks, free, |storage|)
  {
    hide SideWf, Slots, Push, NoDup, Members;
    var o, bids, asks := storage[slot], Members(st.bids), Members(st.asks);
    var loc := Location(o.side, o.price, slot);
    PushedSlots(st.Of(o.side), o.side, o.price, slot);
    NodesGrow(bids, Buy, st.lookup, st.storage, storage, slot, st.nextId, loc);
    NodesGrow(asks, Sell, st.lookup, st.storage, storage, slot, st.nextId, loc);
    EntriesGrow(bids, asks, st.lookup, st.storage, storage, st.nextId, loc);
    assert (bids + {slot}) + asks == bids + asks + {slot} == bids + (asks + {slot});
  }

  /** Adding to all four structures is inserting into the flat book. */
  lemma {:induction false} AddRefinesInsert(st: State, storage: seq<Order>, free: seq<Slot>, slot: Slot)
    requires Wf(st) && Acquired(st, storage, free, slot) && storage[slot].id == st.nextId
    ensures var st', side := Added(st, storage, free, slot), storage[slot].side;
            && Wf(st')
            && View(st') == View(st).With(side, Insert(View(st).Of(side), storage[slot])).(nextId := st.nextId + 1)
  {
    AddKeepsSides(st, storage, free, slot);
    AddKeepsIndex(st, storage, free, slot);
  }

  // ---- Taking an order out ----

  ghost function Removed(st: State, id: OrderId): State
    requires id in st.lookup
  {
    var loc := st.lookup[id];
    st.With(loc.side, Erase(st.Of(loc.side), loc.price, loc.slot))
      .(lookup := st.lookup - {id}, free := st.free + [loc.slot])
  }

  lemma {:induction false} DroppedSlots(slots: seq<Slot>, slot: Slot)
    requires NoDup(slots) && slot in slots
    ensures NoDup(Drop(slots, slot)) && SetOf(Drop(slots, slot)) == SetOf(slots) - {slot}
    decreases |slots|
  {
    var tail := slots[1..];
    HeadApart(slots);
    if slots[0] != slot {
      DroppedSlots(tail, slot);
      ConsNoDup(slots[0], Drop(tail, slot));
    }
  }

  lemma {:induction false} HeadApart(slots: seq<Slot>)
    requires NoDup(slots) && slots != []
    ensures NoDup(slots[1..]) && slots[0] !in SetOf(slots[1..]) && SetOf(slots) == SetOf(slots[1..]) + {slots[0]}
  {
    assert slots == [slots[0]] + slots[1..];
  }

  lemma {:induction false} ConsNoDup(s: Slot, slots: seq<Slot>)
    requires NoDup(slots) && s !in SetOf(slots)
    ensures NoDup([s] + slots) && SetOf([s] + slots) == SetOf(slots) + {s}
  {
    assert forall k :: 0 <= k < |slots| ==> slots[k] in SetOf(slots);
  }

  lemma {:induction false} RemoveKeepsSides(st: State, id: OrderId)
    requires Wf(st) && id in st.lookup
    ensures var st', side := Removed(st, id), st.lookup[id].side;
            && SideWf(st'.bids, st.storage, Buy) && SideWf(st'.asks, st.storage, Sell)
            && Slots(st'.Of(side)) == Drop(Slots(st.Of(side)), st.lookup[id].slot)
            && InRange(Slots(st'.Of(side)), |st.storage|)
            && Orders(st.storage, Slots(st'.Of(side))) == Remove(SideView(st, side), id)
  {
    var loc := st.lookup[id];
    assert loc.slot in Members(st.Of(loc.side));
    EraseKeepsWf(st.Of(loc.side), st.storage, loc.side, loc.price, loc.slot);
    EraseIsDrop(st.Of(loc.side), st.storage, loc.side, loc.slot);
    IdsIdentifySlots(st.Of(loc.side), st, loc.side, loc.slot);
    DropIsRemove(Slots(st.Of(loc.side)), st.storage, loc.slot);
  }

  lemma {:induction false} NodesShrink(nodes: set<Slot>, side: Side, lookup: map<OrderId, Location>, storage: seq<Order>, id: OrderId)
    requires NodesIndexed(nodes, side, lookup, storage) && id in lookup
    ensures NodesIndexed(nodes - {lookup[id].slot}, side, lookup - {id}, storage)
  {
  }

  lemma {:induction false} EntriesShrink(bids: set<Slot>, asks: set<Slot>, lookup: map<OrderId, Location>, storage: seq<Order>, id: OrderId)
    requires EntriesRest(bids, asks, lookup, storage) && id in lookup
    ensures var slot := lookup[id].slot; EntriesRest(bids - {slot}, asks - {slot}, lookup - {id}, storage)
  {
  }

  lemma {:induction false} PoolRelease(resting: set<Slot>, free: seq<Slot>, n: nat, slot: Slot)
    requires PoolWf(resting, free, n) && slot in resting && slot < n
    ensures PoolWf(resting - {slot}, free + [slot], n)
  {
    assert forall s :: s in free + [slot] <==> s in free || s == slot;
  }

  lemma {:induction false} RemoveKeepsIndex(st: State, id: OrderId)
    requires Wf(st) && id in st.lookup
    requires var loc := st.lookup[id]; Slots(Removed(st, id).Of(loc.side)) == Drop(Slots(st.Of(loc.side)), loc.slot)
    ensures var st' := Removed(st, id);
            var bids, asks := Members(st'.bids), Members(st'.asks);
            && NoDup(Slots(st'.bids)) && NoDup(Slots(st'.asks)) && bids !! asks
            && NodesIndexed(bids, Buy, st'.lookup, st.storage) && NodesIndexed(asks, Sell, st'.lookup, st.storage)
            && EntriesRest(bids, asks, st'.lookup, st.storage) && PoolWf(bids + asks, st'.free, |st.storage|)
  {
    var loc, bids, asks := st.lookup[id], Members(st.bids), Members(st.asks);
    assert loc.slot in Members(st.Of(loc.side));
    DroppedSlots(Slots(st.Of(loc.side)), loc.slot);
    NodesShrink(bids, Buy, st.lookup, st.storage, id);
    NodesShrink(asks, Sell, st.lookup, st.storage, id);
    EntriesShrink(bids, asks, st.lookup, st.storage, id);
    PoolRelease(bids + asks, st.free, |st.storage|, loc.slot);
    var st' := Removed(st, id);
    assert Members(st'.bids) == bids - {loc.slot} && Members(st'.asks) == asks - {loc.slot};
    assert (bids - {loc.slot}) + (asks - {loc.slot}) == bids + asks - {loc.slot};
  }

  lemma {:induction false} RemoveAbsent(s: seq<Order>, id: OrderId)
    requires !HasId(s, id)
    ensures Remove(s, id) == s
    decreases |s|
  {
    if s != [] {
      assert s[0].id != id;
      assert forall k :: 0 <= k < |s[1..]| ==> s[1..][k] == s[k + 1];
      RemoveAbsent(s[1..], id);
    }
  }

  /** Taking an order out of all four structures is cancelling it in the flat book. */
  lemma {:induction false} RemoveRefinesCancel(st: State, id: OrderId)
    requires Wf(st) && id in st.lookup
    ensures var st' := Removed(st, id);
            Wf(st') && Outcome(View(st'), Done(true)) == CancelIn(View(st), id)
  {
    RemoveKeepsSides(st, id);
    RemoveKeepsIndex(st, id);
    LookupFinds(st, id);
    IndexIsView(st, st.lookup[id].side.Opposite(), id);
    RemoveAbsent(SideView(st, st.lookup[id].side.Opposite()), id);
  }

  // ---- Writing through an order pointer ----

  /** Replaces the order of the same id. */
  function Put(s: seq<Order>, o: Order): seq<Order> {
    if s == [] then []
    else if s[0].id == o.id then [o] + s[1..]
    else [s[0]] + Put(s[1..], o)
  }

  lemma {:induction false} PutIsUpdate(s: seq<Order>, o: Order, k: nat)
    requires k < |s| && s[k].id == o.id && forall i :: 0 <= i < |s| && s[i].id == o.id ==> i == k
    ensures Put(s, o) == s[k := o]
    decreases |s|
  {
    if k > 0 {
      assert s[0].id != o.id;
      PutIsUpdate(s[1..], o, k - 1);
      assert s[k := o] == [s[0]] + s[1..][k - 1 := o];
    } else {
      assert s[0 := o] == [o] + s[1..];
    }
  }

  lemma {:induction false} WriteKeepsSide(levels: seq<Level>, storage: seq<Order>, side: Side, slot: Slot, o: Order)
    requires SideWf(levels, storage, side) && slot < |storage|
    requires o.id == storage[slot].id && o.side == storage[slot].side && o.price == storage[slot].price
    ensures SideWf(levels, storage[slot := o], side)
  {
    var storage' := storage[slot := o];
    forall i | 0 <= i < |levels| ensures levels[i].slots != [] && LevelWf(levels[i], storage', side) {
      assert LevelWf(levels[i], storage, side);
    }
  }

  lemma {:induction false} WriteKeepsIndex(nodes: set<Slot>, side: Side, lookup: map<OrderId, Location>, storage: seq<Order>, slot: Slot, o: Order)
    requires NodesIndexed(nodes, side, lookup, storage) && slot < |storage|
    requires o.id == storage[slot].id && o.price == storage[slot].price
    ensures NodesIndexed(nodes, side, lookup, storage[slot := o])
  {
  }

  lemma {:induction false} WriteKeepsWf(st: State, slot: Slot, o: Order)
    requires Wf(st) && slot < |st.storage|
    requires o.id == st.storage[slot].id && o.side == st.storage[slot].side && o.price == st.storage[slot].price
    ensures Wf(st.(storage := st.storage[slot := o]))
  {
    WriteKeepsSide(st.bids, st.storage, Buy, slot, o);
    WriteKeepsSide(st.asks, st.storage, Sell, slot, o);
    WriteKeepsIndex(Members(st.bids), Buy, st.lookup, st.storage, slot, o);
    WriteKeepsIndex(Members(st.asks), Sell, st.lookup, st.storage, slot, o);
  }

  /** Writing a resting order's other fields changes just that entry of the flat book. */
  lemma {:induction false} WriteRefinesPut(st: State, slot: Slot, o: Order, side: Side)
    requires Wf(st) && slot in Members(st.Of(side)) && slot < |st.storage|
    requires o.id == st.storage[slot].id && o.side == st.storage[slot].side && o.price == st.storage[slot].price
    ensures var st' := st.(storage := st.storage[slot := o]);
            && Wf(st')
            && SideView(st', side) == Put(SideView(st, side), o)
            && SideView(st', side.Opposite()) == SideView(st, side.Opposite())
  {
    WriteKeepsWf(st, slot, o);
    SideFacts(st, side);
    SideFacts(st, side.Opposite());
    IdsIdentifySlots(st.Of(side), st, side, slot);
    WrittenSlots(Slots(st.Of(side)), st.storage, slot, o);
    UnwrittenSlots(Slots(st.Of(side.Opposite())), st.storage, slot, o);
  }

  lemma {:induction false} WrittenSlots(slots: seq<Slot>, storage: seq<Order>, slot: Slot, o: Order)
    requires InRange(slots, |storage|) && slot in slots && NoDup(slots) && o.id == storage[slot].id
    requires forall k :: 0 <= k < |slots| ==> (storage[slots[k]].id == storage[slot].id <==> slots[k] == slot)
    ensures Orders(storage[slot := o], slots) == Put(Orders(storage, slots), o)
  {
    var k :| 0 <= k < |slots| && slots[k] == slot;
    PutIsUpdate(Orders(storage, slots), o, k);
  }

  lemma {:induction false} UnwrittenSlots(slots: seq<Slot>, storage: seq<Order>, slot: Slot, o: Order)
    requires InRange(slots, |storage|) && slot !in SetOf(slots) && slot < |storage|
    ensures Orders(storage[slot := o], slots) == Orders(storage, slots)
  {
    assert forall k :: 0 <= k < |slots| ==> slots[k] in SetOf(slots);
  }

  // ---- No leak ----

  ghost function Range(n: nat): (r: set<Slot>)
    ensures |r| == n && forall s :: s in r <==> 0 <= s < n
  {
    if n == 0 then {} else Range(n - 1) + {n - 1}
  }

  lemma {:induction false} NoDupCard(slots: seq<Slot>)
    requires NoDup(slots)
    ensures |SetOf(slots)| == |slots|
    decreases |slots|
  {
    if slots != [] {
      HeadApart(slots);
      NoDupCard(slots[1..]);
    }
  }

  lemma {:induction false} PoolCovers(resting: set<Slot>, free: seq<Slot>, n: nat)
    requires PoolWf(resting, free, n) && forall s :: s in resting ==> s < n
    ensures n == |resting| + |free|
  {
    NoDupCard(free);
    var f := SetOf(free);
    assert resting !! f;
    assert resting + f == Range(n);
    assert |resting + f| == |resting| + |f|;
  }

  /** The pool's active slots are as many as the index entries and the resting orders. */
  lemma {:induction false} ActiveSlotsAreResting(st: State)
    requires Wf(st)
    ensures |st.storage| - |st.free| == |View(st).bids| + |View(st).asks| == |st.lookup|
  {
    var bids, asks := Members(st.bids), Members(st.asks);
    NoDupCard(Slots(st.bids));
    NoDupCard(Slots(st.asks));
    assert |bids + asks| == |bids| + |asks|;
    PoolCovers(bids + asks, st.free, |st.storage|);
    EntriesCountSlots(st.lookup, st.storage, bids + asks);
  }

  /** Index entries and resting slots are in one-to-one correspondence. */
  lemma {:induction false} EntriesCountSlots(lookup: map<OrderId, Location>, storage: seq<Order>, slots: set<Slot>)
    requires forall s :: s in slots ==> s < |storage| && storage[s].id in lookup && lookup[storage[s].id].slot == s
    requires forall id :: id in lookup ==>
               lookup[id].slot in slots && lookup[id].slot < |storage| && storage[lookup[id].slot].id == id
    ensures |lookup| == |slots|
    decreases |slots|
  {
    if slots == {} {
      assert lookup == map[];
    } else {
      var s :| s in slots;
      var id := storage[s].id;
      assert lookup.Keys == (lookup - {id}).Keys + {id};
      EntriesCountSlots(lookup - {id}, storage, slots - {s});
    }
  }
}
