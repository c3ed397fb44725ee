/** Price levels: a sorted map from price to a first-in first-out list of pool slots, and what
    pushing to and erasing from it does to the flat list of resting orders. */
module Levels {
  import opened Types
  import opened FlatBook

  /** The address of a pooled order. A list node is identified by the slot it holds. */
  type Slot = nat

  datatype Level = Level(price: Price, slots: seq<Slot>)

  /** All slots of a side, best level first, earliest arrival first within a level. */
  function Slots(levels: seq<Level>): seq<Slot> {
    if levels == [] then [] else levels[0].slots + Slots(levels[1..])
  }

  ghost predicate InRange(slots: seq<Slot>, n: nat) {
    forall k :: 0 <= k < |slots| ==> slots[k] < n
  }

  ghost predicate NoDup(slots: seq<Slot>) {
    forall i, j :: 0 <= i < j < |slots| ==> slots[i] != slots[j]
  }

  /** The orders behind a list of slots. */
  ghost function Orders(storage: seq<Order>, slots: seq<Slot>): (s: seq<Order>)
    requires InRange(slots, |storage|)
    ensures |s| == |slots| && forall k :: 0 <= k < |s| ==> s[k] == storage[slots[k]]
  {
    seq(|slots|, k requires 0 <= k < |slots| => storage[slots[k]])
  }

  /** A level holds orders of its own side and price only, in order of arrival. */
  ghost predicate LevelWf(l: Level, storage: seq<Order>, side: Side) {
    && InRange(l.slots, |storage|)
    && (forall k :: 0 <= k < |l.slots| ==> storage[l.slots[k]].side == side && storage[l.slots[k]].price == l.price)
    && (forall j, k :: 0 <= j < k < |l.slots| ==> storage[l.slots[j]].id < storage[l.slots[k]].id)
  }

  /** Levels are strictly sorted, best first. */
  ghost predicate Ladder(levels: seq<Level>, side: Side) {
    forall i, j :: 0 <= i < j < |levels| ==> Rank(side, levels[i].price) < Rank(side, levels[j].price)
  }

  ghost predicate SideWf(levels: seq<Level>, storage: seq<Order>, side: Side) {
    && Ladder(levels, side)
    && forall i :: 0 <= i < |levels| ==> levels[i].slots != [] && LevelWf(levels[i], storage, side)
  }

  // ---- Operations on one side ----

  /** `side[price].push_back(slot)`, creating the level when there is none. */
  function Push(levels: seq<Level>, side: Side, price: Price, slot: Slot): seq<Level> {
    if levels == [] || Rank(side, price) < Rank(side, levels[0].price) then [Level(price, [slot])] + levels
    else if levels[0].price == price then [Level(price, levels[0].slots + [slot])] + levels[1..]
    else [levels[0]] + Push(levels[1..], side, price, slot)
  }

  function Drop(slots: seq<Slot>, slot: Slot): seq<Slot> {
    if slots == [] then []
    else if slots[0] == slot then slots[1..]
    else [slots[0]] + Drop(slots[1..], slot)
  }

  /** `side[price].erase(node)`; the level stays, even if it is now empty. */
  function EraseNode(levels: seq<Level>, price: Price, slot: Slot): seq<Level> {
    if levels == [] then []
    else if levels[0].price == price then [Level(price, Drop(levels[0].slots, slot))] + levels[1..]
    else [levels[0]] + EraseNode(levels[1..], price, slot)
  }

  /** Deletes the level at `price` if it has become empty. */
  function Cleanup(levels: seq<Level>, price: Price): seq<Level> {
    if levels == [] then []
    else if levels[0].price == price then (if levels[0].slots == [] then levels[1..] else levels)
    else [levels[0]] + Cleanup(levels[1..], price)
  }

  function Erase(levels: seq<Level>, price: Price, slot: Slot): seq<Level> {
    Cleanup(EraseNode(levels, price, slot), price)
  }

  // ---- Basic facts ----

  lemma {:induction false} SlotsInRange(levels: seq<Level>, storage: seq<Order>, side: Side)
    requires SideWf(levels, storage, side)
    ensures InRange(Slots(levels), |storage|)
    ensures forall k :: 0 <= k < |Slots(levels)| ==> storage[Slots(levels)[k]].side == side
    decreases |levels|
  {
    if levels != [] {
      TailWf(levels, storage, side);
      SlotsInRange(levels[1..], storage, side);
      assert LevelWf(levels[0], storage, side);
    }
  }

  lemma {:induction false} TailWf(levels: seq<Level>, storage: seq<Order>, side: Side)
    requires SideWf(levels, storage, side) && levels != []
    ensures SideWf(levels[1..], storage, side) && LevelWf(levels[0], storage, side)
  {
    assert forall i :: 0 <= i < |levels[1..]| ==> levels[1..][i] == levels[i + 1];
  }

  lemma {:induction false} OrdersConcat(storage: seq<Order>, a: seq<Slot>, b: seq<Slot>)
    requires InRange(a, |storage|) && InRange(b, |storage|)
    ensures InRange(a + b, |storage|)
    ensures Orders(storage, a + b) == Orders(storage, a) + Orders(storage, b)
  {
  }

  /** Every slot of a side is worse than or equal to the head level's price. */
  lemma {:induction false} HeadIsBest(levels: seq<Level>, storage: seq<Order>, side: Side, k: nat)
    requires SideWf(levels, storage, side) && k < |Slots(levels)|
    ensures levels != [] && Slots(levels)[k] < |storage|
    ensures Rank(side, levels[0].price) <= Rank(side, storage[Slots(levels)[k]].price)
    decreases |levels|
  {
    SlotsInRange(levels, storage, side);
    TailWf(levels, storage, side);
    if k >= |levels[0].slots| {
      HeadIsBest(levels[1..], storage, side, k - |levels[0].slots|);
      assert levels[1..][0] == levels[1];
    }
  }

  /** The flat list of a side starts with the front of its best level. */
  lemma {:induction false} FrontIsHead(levels: seq<Level>, storage: seq<Order>, side: Side)
    requires SideWf(levels, storage, side)
    ensures levels == [] <==> Slots(levels) == []
    ensures levels != [] ==> levels[0].slots != [] && Slots(levels)[0] == levels[0].slots[0]
  {
  }

  // ---- Pushing refines Insert ----

  lemma {:induction false} InsertPast(a: seq<Order>, b: seq<Order>, o: Order)
    requires forall k :: 0 <= k < |a| ==> Rank(a[k].side, a[k].price) <= Rank(o.side, o.price)
    ensures Insert(a + b, o) == a + Insert(b, o)
    decreases |a|
  {
    if a == [] {
      assert a + b == b;
    } else {
      assert (a + b)[0] == a[0] && (a + b)[1..] == a[1..] + b;
      InsertPast(a[1..], b, o);
      assert Insert(a + b, o) == [a[0]] + (a[1..] + Insert(b, o));
      assert [a[0]] + (a[1..] + Insert(b, o)) == a + Insert(b, o) by {
        assert [a[0]] + a[1..] == a;
      }
    }
  }

  lemma {:induction false} LevelOrdersRank(l: Level, storage: seq<Order>, side: Side)
    requires LevelWf(l, storage, side)
    ensures forall k :: 0 <= k < |l.slots| ==>
              Rank(Orders(storage, l.slots)[k].side, Orders(storage, l.slots)[k].price) == Rank(side, l.price)
  {
  }

  lemma {:induction false} PushIsInsert(levels: seq<Level>, storage: seq<Order>, side: Side, slot: Slot)
    requires SideWf(levels, storage, side) && slot < |storage| && storage[slot].side == side
    requires InRange(Slots(levels), |storage|)
    ensures var pushed := Slots(Push(levels, side, storage[slot].price, slot));
            && InRange(pushed, |storage|)
            && Orders(storage, pushed) == Insert(Orders(storage, Slots(levels)), storage[slot])
    decreases |levels|
  {
    var o, flat := storage[slot], Orders(storage, Slots(levels));
    var pushed := Push(levels, side, o.price, slot);
    if levels == [] || Rank(side, o.price) < Rank(side, levels[0].price) {
      assert pushed[1..] == levels;
      assert Slots(pushed) == [slot] + Slots(levels);
      if levels != [] {
        FrontIsHead(levels, storage, side);
        TailWf(levels, storage, side);
        assert flat[0] == storage[levels[0].slots[0]];
      }
      assert Orders(storage, Slots(pushed)) == [o] + flat;
    } else {
      var head, rest := levels[0].slots, Slots(levels[1..]);
      TailWf(levels, storage, side);
      SlotsInRange(levels[1..], storage, side);
      OrdersConcat(storage, head, rest);
      LevelOrdersRank(levels[0], storage, side);
      InsertPast(Orders(storage, head), Orders(storage, rest), o);
      if levels[0].price == o.price {
        PushAtHead(levels, storage, side, slot);
      } else {
        PushIsInsert(levels[1..], storage, side, slot);
        var tail := Push(levels[1..], side, o.price, slot);
        assert pushed[1..] == tail;
        OrdersConcat(storage, head, Slots(tail));
      }
    }
  }

  /** The level exists and is the best one: the order joins its back, ahead of all worse levels. */
  lemma {:induction false} PushAtHead(levels: seq<Level>, storage: seq<Order>, side: Side, slot: Slot)
    requires SideWf(levels, storage, side) && slot < |storage| && storage[slot].side == side
    requires levels != [] && levels[0].price == storage[slot].price
    requires InRange(Slots(levels[1..]), |storage|)
    ensures var head, rest := levels[0].slots, Slots(levels[1..]);
            var pushed := Slots(Push(levels, side, storage[slot].price, slot));
            && InRange(head, |storage|) && InRange(pushed, |storage|)
            && Orders(storage, pushed) == Orders(storage, head) + Insert(Orders(storage, rest), storage[slot])
  {
    var o, head, rest := storage[slot], levels[0].slots, Slots(levels[1..]);
    TailWf(levels, storage, side);
    BehindHead(levels, storage, side, o);
    PushedHeadSlots(levels, side, o.price, slot);
    hide SideWf, Slots, Push, Orders;
    OrdersConcat(storage, [slot], rest);
    OrdersConcat(storage, head, [slot] + rest);
    assert Orders(storage, [slot]) == [o];
  }

  lemma {:induction false} PushedHeadSlots(levels: seq<Level>, side: Side, price: Price, slot: Slot)
    requires levels != [] && levels[0].price == price
    ensures Slots(Push(levels, side, price, slot)) == levels[0].slots + ([slot] + Slots(levels[1..]))
  {
    var head, rest := levels[0].slots, Slots(levels[1..]);
    assert Push(levels, side, price, slot)[1..] == levels[1..];
    assert (head + [slot]) + rest == head + ([slot] + rest);
  }

  /** An order at the best price goes in front of everything on the worse levels. */
  lemma {:induction false} BehindHead(levels: seq<Level>, storage: seq<Order>, side: Side, o: Order)
    requires SideWf(levels, storage, side) && o.side == side && levels != [] && levels[0].price == o.price
    requires InRange(Slots(levels[1..]), |storage|)
    ensures var rest := Orders(storage, Slots(levels[1..])); Insert(rest, o) == [o] + rest
  {
    if levels[1..] != [] {
      TailWf(levels, storage, side);
      FrontIsHead(levels[1..], storage, side);
      assert levels[1..][0] == levels[1] && LevelWf(levels[1], storage, side);
      assert Orders(storage, Slots(levels[1..]))[0] == storage[levels[1].slots[0]];
    }
  }

  /** Pushing an order with the newest id keeps the side well formed. */
  lemma {:induction false} PushKeepsWf(levels: seq<Level>, storage: seq<Order>, side: Side, slot: Slot)
    requires SideWf(levels, storage, side) && slot < |storage| && storage[slot].side == side
    requires InRange(Slots(levels), |storage|)
    requires forall k :: 0 <= k < |Slots(levels)| ==> storage[Slots(levels)[k]].id < storage[slot].id
    ensures var pushed := Push(levels, side, storage[slot].price, slot);
            && SideWf(pushed, storage, side)
            && pushed != []
            && (Rank(side, pushed[0].price) == Rank(side, storage[slot].price)
                || (levels != [] && Rank(side, pushed[0].price) == Rank(side, levels[0].price)))
    decreases |levels|
  {
    var o := storage[slot];
    var pushed := Push(levels, side, o.price, slot);
    if levels == [] || Rank(side, o.price) < Rank(side, levels[0].price) {
      ConsWf(Level(o.price, [slot]), levels, storage, side);
    } else {
      TailWf(levels, storage, side);
      SlotsInRange(levels[1..], storage, side);
      assert forall k :: 0 <= k < |levels[0].slots| ==> Slots(levels)[k] == levels[0].slots[k];
      if levels[0].price == o.price {
        var l := Level(o.price, levels[0].slots + [slot]);
        assert LevelWf(l, storage, side);
        assert levels[1..] != [] ==> levels[1..][0] == levels[1];
        ConsWf(l, levels[1..], storage, side);
      } else {
        var n := |levels[0].slots|;
        assert forall k :: 0 <= k < |Slots(levels[1..])| ==> Slots(levels[1..])[k] == Slots(levels)[n + k];
        PushKeepsWf(levels[1..], storage, side, slot);
        assert levels[1..] != [] ==> levels[1..][0] == levels[1];
        ConsWf(levels[0], Push(levels[1..], side, o.price, slot), storage, side);
      }
    }
  }

  lemma {:induction false} ConsWf(l: Level, levels: seq<Level>, storage: seq<Order>, side: Side)
    requires l.slots != [] && LevelWf(l, storage, side) && SideWf(levels, storage, side)
    requires levels != [] ==> Rank(side, l.price) < Rank(side, levels[0].price)
    ensures SideWf([l] + levels, storage, side)
  {
    var r := [l] + levels;
    ConsLadder(l, levels, side);
    forall i | 0 <= i < |r| ensures r[i].slots != [] && LevelWf(r[i], storage, side) {
      assert i > 0 ==> r[i] == levels[i - 1];
    }
  }

  lemma {:induction false} PushMembers(levels: seq<Level>, side: Side, price: Price, slot: Slot)
    ensures multiset(Slots(Push(levels, side, price, slot))) == multiset(Slots(levels)) + multiset{slot}
    decreases |levels|
  {
    var pushed := Push(levels, side, price, slot);
    if levels == [] || Rank(side, price) < Rank(side, levels[0].price) {
      assert pushed[1..] == levels;
    } else if levels[0].price == price {
      assert pushed[1..] == levels[1..];
    } else {
      PushMembers(levels[1..], side, price, slot);
      assert pushed[1..] == Push(levels[1..], side, price, slot);
    }
  }

  // ---- Erasing refines Remove ----

  lemma {:induction false} DropPast(a: seq<Slot>, b: seq<Slot>, slot: Slot)
    requires slot !in a
    ensures Drop(a + b, slot) == a + Drop(b, slot)
    decreases |a|
  {
    if a == [] {
      assert a + b == b;
    } else {
      assert (a + b)[1..] == a[1..] + b;
      DropPast(a[1..], b, slot);
      assert a == [a[0]] + a[1..];
    }
  }

  lemma {:induction false} DropWithin(a: seq<Slot>, b: seq<Slot>, slot: Slot)
    requires slot in a
    ensures Drop(a + b, slot) == Drop(a, slot) + b
    decreases |a|
  {
    assert (a + b)[1..] == a[1..] + b;
    if a[0] != slot {
      assert a == [a[0]] + a[1..];
      DropWithin(a[1..], b, slot);
    }
  }

  lemma {:induction false} DropAbsent(a: seq<Slot>, slot: Slot)
    requires slot !in a
    ensures Drop(a, slot) == a
    decreases |a|
  {
    if a != [] {
      DropAbsent(a[1..], slot);
    }
  }

  /** Where a slot rests: the level at its order's price. */
  lemma {:induction false} EraseIsDrop(levels: seq<Level>, storage: seq<Order>, side: Side, slot: Slot)
    requires SideWf(levels, storage, side) && slot in Slots(levels) && slot < |storage|
    ensures Slots(Erase(levels, storage[slot].price, slot)) == Drop(Slots(levels), slot)
    decreases |levels|
  {
    var price, head, tail := storage[slot].price, levels[0], levels[1..];
    TailWf(levels, storage, side);
    if head.price == price {
      SlotInHead(levels, storage, side, slot);
      DropWithin(head.slots, Slots(tail), slot);
      var kept := Drop(head.slots, slot);
      assert EraseNode(levels, price, slot)[1..] == tail;
      if kept == [] {
        assert [] + Slots(tail) == Slots(tail);
      }
    } else {
      assert slot in Slots(tail) && slot !in head.slots;
      DropPast(head.slots, Slots(tail), slot);
      EraseIsDrop(tail, storage, side, slot);
      assert EraseNode(levels, price, slot)[1..] == EraseNode(tail, price, slot);
      assert Erase(levels, price, slot) == [head] + Erase(tail, price, slot);
    }
  }

  lemma {:induction false} SlotInHead(levels: seq<Level>, storage: seq<Order>, side: Side, slot: Slot)
    requires SideWf(levels, storage, side) && slot in Slots(levels) && slot < |storage|
    requires levels != [] && levels[0].price == storage[slot].price
    ensures slot in levels[0].slots
  {
    TailWf(levels, storage, side);
    if slot in Slots(levels[1..]) {
      var k :| 0 <= k < |Slots(levels[1..])| && Slots(levels[1..])[k] == slot;
      HeadIsBest(levels[1..], storage, side, k);
      assert false;
    }
  }

  lemma {:induction false} DropLevelWf(l: Level, storage: seq<Order>, side: Side, slot: Slot)
    requires LevelWf(l, storage, side)
    ensures LevelWf(l.(slots := Drop(l.slots, slot)), storage, side)
  {
    hide LevelWf, Drop;
    if slot in l.slots {
      var k := DropShape(l.slots, slot);
      SplicedLevelWf(l, storage, side, k);
    } else {
      DropAbsent(l.slots, slot);
    }
  }

  lemma {:induction false} SplicedLevelWf(l: Level, storage: seq<Order>, side: Side, k: nat)
    requires LevelWf(l, storage, side) && k < |l.slots|
    ensures LevelWf(l.(slots := l.slots[..k] + l.slots[k + 1..]), storage, side)
  {
    var r := l.slots[..k] + l.slots[k + 1..];
    forall i | 0 <= i < |r|
      ensures r[i] < |storage| && storage[r[i]].side == side && storage[r[i]].price == l.price
    {
      assert r[i] == l.slots[if i < k then i else i + 1];
    }
    forall i, j | 0 <= i < j < |r| ensures storage[r[i]].id < storage[r[j]].id {
      assert r[i] == l.slots[if i < k then i else i + 1];
      assert r[j] == l.slots[if j < k then j else j + 1];
    }
  }

  lemma {:induction false} DropShape(a: seq<Slot>, slot: Slot) returns (k: nat)
    requires slot in a
    ensures k < |a| && a[k] == slot && Drop(a, slot) == a[..k] + a[k + 1..]
    ensures slot !in a[..k]
    decreases |a|
  {
    if a[0] == slot {
      k := 0;
    } else {
      var i := DropShape(a[1..], slot);
      assert a[..i + 1] == [a[0]] + a[1..][..i];
      assert a[i + 2..] == a[1..][i + 1..];
      k := i + 1;
    }
  }

  lemma {:induction false} EraseKeepsWf(levels: seq<Level>, storage: seq<Order>, side: Side, price: Price, slot: Slot)
    requires SideWf(levels, storage, side)
    ensures var erased := Erase(levels, price, slot);
            && SideWf(erased, storage, side)
            && (erased != [] ==> levels != [] && Rank(side, levels[0].price) <= Rank(side, erased[0].price))
    decreases |levels|
  {
    if levels != [] {
      var head, tail := levels[0], levels[1..];
      TailWf(levels, storage, side);
      assert tail != [] ==> tail[0] == levels[1];
      if head.price == price {
        DropLevelWf(head, storage, side, slot);
        var l := Level(price, Drop(head.slots, slot));
        assert EraseNode(levels, price, slot)[1..] == tail;
        if l.slots != [] {
          ConsWf(l, tail, storage, side);
        }
      } else {
        EraseKeepsWf(tail, storage, side, price, slot);
        assert EraseNode(levels, price, slot)[1..] == EraseNode(tail, price, slot);
        assert Erase(levels, price, slot) == [head] + Erase(tail, price, slot);
        ConsWf(head, Erase(tail, price, slot), storage, side);
      }
    }
  }

  lemma {:induction false} EraseNodeKeepsLadder(levels: seq<Level>, side: Side, price: Price, slot: Slot)
    requires Ladder(levels, side)
    ensures Ladder(EraseNode(levels, price, slot), side)
  {
    EraseNodePrices(levels, price, slot);
  }

  lemma {:induction false} EraseNodePrices(levels: seq<Level>, price: Price, slot: Slot)
    ensures var r := EraseNode(levels, price, slot);
            |r| == |levels| && forall i :: 0 <= i < |r| ==> r[i].price == levels[i].price
    decreases |levels|
  {
    if levels != [] && levels[0].price != price {
      EraseNodePrices(levels[1..], price, slot);
    }
  }

  /** Cleaning up keeps every level except an empty one at that price, and keeps their order. */
  lemma {:induction false} CleanupKeeps(levels: seq<Level>, side: Side, price: Price)
    requires Ladder(levels, side)
    ensures var kept := Cleanup(levels, price);
            && Ladder(kept, side)
            && (kept != [] ==> levels != [] && Rank(side, levels[0].price) <= Rank(side, kept[0].price))
            && forall l :: l in kept <==> l in levels && (l.price != price || l.slots != [])
    decreases |levels|
  {
    if levels != [] {
      var head, tail := levels[0], levels[1..];
      TailLadder(levels, side);
      if head.price != price {
        CleanupKeeps(tail, side, price);
        ConsLadder(head, Cleanup(tail, price), side);
      }
    }
  }

  lemma {:induction false} TailLadder(levels: seq<Level>, side: Side)
    requires levels != [] && Ladder(levels, side)
    ensures Ladder(levels[1..], side) && levels == [levels[0]] + levels[1..]
    ensures forall l :: l in levels[1..] ==> Rank(side, levels[0].price) < Rank(side, l.price)
  {
    assert forall i :: 0 <= i < |levels[1..]| ==> levels[1..][i] == levels[i + 1];
  }

  lemma {:induction false} ConsLadder(l: Level, levels: seq<Level>, side: Side)
    requires Ladder(levels, side) && (levels != [] ==> Rank(side, l.price) < Rank(side, levels[0].price))
    ensures Ladder([l] + levels, side)
  {
    var r := [l] + levels;
    forall i, j | 0 <= i < j < |r| ensures Rank(side, r[i].price) < Rank(side, r[j].price) {
      assert r[j] == levels[j - 1];
      assert i > 0 ==> r[i] == levels[i - 1];
      assert j > 1 ==> Rank(side, levels[0].price) < Rank(side, levels[j - 1].price);
    }
  }

  /** Dropping a slot removes its order from the flat list. */
  lemma {:induction false} DropIsRemove(slots: seq<Slot>, storage: seq<Order>, slot: Slot)
    requires InRange(slots, |storage|) && slot in slots
    requires forall k :: 0 <= k < |slots| ==> (storage[slots[k]].id == storage[slot].id <==> slots[k] == slot)
    ensures InRange(Drop(slots, slot), |storage|)
    ensures Orders(storage, Drop(slots, slot)) == Remove(Orders(storage, slots), storage[slot].id)
    decreases |slots|
  {
    var flat := Orders(storage, slots);
    assert flat[1..] == Orders(storage, slots[1..]);
    if slots[0] != slot {
      DropIsRemove(slots[1..], storage, slot);
      assert Orders(storage, Drop(slots, slot)) == [flat[0]] + Orders(storage, Drop(slots[1..], slot));
    }
  }
}
