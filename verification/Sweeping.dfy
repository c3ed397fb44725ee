/** What one sweep does: which orders it touches, in which order, and by how much. */
module Sweeping {
  import opened Types
  import opened FlatBook

  ghost predicate Sorted(s: seq<Order>) {
    forall i, j :: 0 <= i < j < |s| ==> Ahead(s[i], s[j])
  }

  ghost predicate OneSide(s: seq<Order>, side: Side) {
    forall k :: 0 <= k < |s| ==> s[k].side == side
  }

  /** An id names at most one order of a side. */
  ghost predicate UniqueIds(s: seq<Order>) {
    forall i, j :: 0 <= i < j < |s| ==> s[i].id != s[j].id
  }

  /** The resting party of a trade, seen from the taker's side. */
  function RestingId(taker: Side, t: Trade): OrderId {
    if taker.Buy? then t.sellId else t.buyId
  }

  function IncomingId(taker: Side, t: Trade): OrderId {
    if taker.Buy? then t.buyId else t.sellId
  }

  /** Trade k is with order k, at its price; every trade but the last exhausts its order. */
  ghost predicate TradesFollow(r: Swept, opp: seq<Order>, taker: Order) {
    && |r.trades| <= |opp|
    && forall k :: 0 <= k < |r.trades| ==>
         && Crosses(taker, opp[k])
         && r.trades[k] == Execution(taker, opp[k], r.trades[k].quantity)
         && r.trades[k].quantity <= opp[k].remaining
         && (k + 1 < |r.trades| ==> r.trades[k].quantity == opp[k].remaining)
  }

  /** What is left of the opposite side: the untouched orders, and the last one touched
      unless it was exhausted. */
  ghost predicate RestFollows(r: Swept, opp: seq<Order>)
    requires |r.trades| <= |opp|
  {
    var n := |r.trades|;
    if n > 0 && r.trades[n - 1].quantity < opp[n - 1].remaining then
      && r.taker.remaining == 0
      && r.rest == [opp[n - 1].(remaining := opp[n - 1].remaining - r.trades[n - 1].quantity)] + opp[n..]
    else
      r.rest == opp[n..]
  }

  /** One turn of the matching loop: either it stops, or it trades with the head. */
  ghost predicate Stops(opp: seq<Order>, taker: Order) {
    taker.remaining == 0 || opp == [] || !Crosses(taker, opp[0])
  }

  function After(taker: Order, resting: Order): Order {
    taker.(remaining := taker.remaining - Min(taker.remaining, resting.remaining))
  }

  lemma {:induction false} SweepTrades(opp: seq<Order>, taker: Order)
    ensures TradesFollow(Sweep(opp, taker), opp, taker)
    decreases |opp|
  {
    if !Stops(opp, taker) && opp[0].remaining <= taker.remaining {
      var taker' := After(taker, opp[0]);
      SweepTrades(opp[1..], taker');
      var t, more := Sweep(opp, taker).trades, Sweep(opp[1..], taker').trades;
      forall k | 0 <= k < |t|
        ensures Crosses(taker, opp[k]) && t[k] == Execution(taker, opp[k], t[k].quantity)
        ensures t[k].quantity <= opp[k].remaining
        ensures k + 1 < |t| ==> t[k].quantity == opp[k].remaining
      {
        if k > 0 {
          assert t[k] == more[k - 1] && opp[k] == opp[1..][k - 1];
        }
      }
    }
  }

  lemma {:induction false} SweepRest(opp: seq<Order>, taker: Order)
    ensures var r := Sweep(opp, taker);
            && |r.trades| <= |opp| && RestFollows(r, opp)
            && (r.taker.remaining > 0 ==> r.rest == [] || !Crosses(taker, r.rest[0]))
    decreases |opp|
  {
    if !Stops(opp, taker) && opp[0].remaining <= taker.remaining {
      var taker' := After(taker, opp[0]);
      SweepRest(opp[1..], taker');
      RestGrows(Sweep(opp[1..], taker'), Sweep(opp, taker), opp);
    }
  }

  /** A trade that exhausts the head in front of a sweep of the tail. */
  lemma {:induction false} RestGrows(more: Swept, r: Swept, opp: seq<Order>)
    requires opp != [] && |more.trades| < |opp| && RestFollows(more, opp[1..])
    requires |r.trades| == |more.trades| + 1 && r.trades[1..] == more.trades && r.trades[0].quantity == opp[0].remaining
    requires r.rest == more.rest && r.taker == more.taker
    ensures RestFollows(r, opp)
  {
    var n := |more.trades|;
    assert opp[1..][n..] == opp[n + 1..];
    assert n > 0 ==> r.trades[n] == more.trades[n - 1] && opp[n] == opp[1..][n - 1];
  }

  lemma {:induction false} SweepVolume(opp: seq<Order>, taker: Order)
    ensures var r := Sweep(opp, taker);
            && r.taker == taker.(remaining := r.taker.remaining)
            && r.taker.remaining + Volume(r.trades) == taker.remaining
    decreases |opp|
  {
    if Stops(opp, taker) {
    } else if opp[0].remaining <= taker.remaining {
      var taker' := After(taker, opp[0]);
      SweepVolume(opp[1..], taker');
      assert Sweep(opp, taker).trades[1..] == Sweep(opp[1..], taker').trades;
    } else {
      assert Sweep(opp, taker).trades[1..] == [];
    }
  }

  // ---- Shape of a sweep over a sorted side ----

  /** Within one submission prices never improve for the taker, ids rise within a price, no resting
      order trades twice, and every price respects the taker's limit. */
  lemma {:induction false} SweepInPriorityOrder(opp: seq<Order>, taker: Order, j: nat, k: nat)
    requires Sorted(opp) && OneSide(opp, taker.side.Opposite()) && UniqueIds(opp)
    requires j < k < |Sweep(opp, taker).trades|
    ensures var t := Sweep(opp, taker).trades;
            && (if taker.side.Buy? then t[j].price <= t[k].price <= taker.price
                else t[j].price >= t[k].price >= taker.price)
            && (t[j].price == t[k].price ==> RestingId(taker.side, t[j]) < RestingId(taker.side, t[k]))
            && RestingId(taker.side, t[j]) != RestingId(taker.side, t[k])
            && j < |opp| && t[j].quantity == opp[j].remaining
            && IncomingId(taker.side, t[j]) == IncomingId(taker.side, t[k]) == taker.id
  {
    SweepTrades(opp, taker);
    assert Ahead(opp[j], opp[k]);
  }

  // ---- Maximal fill ----

  /** Everything on the opposite side that the taker is willing to trade with. */
  function CrossingDepth(s: seq<Order>, taker: Order): nat {
    if s == [] then 0
    else (if Crosses(taker, s[0]) then s[0].remaining else 0) + CrossingDepth(s[1..], taker)
  }

  lemma {:induction false} NoDepthBehind(s: seq<Order>, taker: Order)
    requires Sorted(s) && OneSide(s, taker.side.Opposite())
    requires s == [] || !Crosses(taker, s[0])
    ensures CrossingDepth(s, taker) == 0
    decreases |s|
  {
    if s != [] {
      assert |s| > 1 ==> Ahead(s[0], s[1]);
      NoDepthBehind(s[1..], taker);
    }
  }

  /** A sweep fills exactly the smaller of what it wants and what crosses. */
  lemma {:induction false} SweepFillsMaximally(opp: seq<Order>, taker: Order)
    requires Sorted(opp) && OneSide(opp, taker.side.Opposite())
    ensures var depth := CrossingDepth(opp, taker);
            Volume(Sweep(opp, taker).trades) == if taker.remaining <= depth then taker.remaining else depth
    decreases |opp|
  {
    if taker.remaining == 0 {
    } else if opp == [] || !Crosses(taker, opp[0]) {
      NoDepthBehind(opp, taker);
    } else {
      var taker' := After(taker, opp[0]);
      if opp[0].remaining <= taker.remaining {
        SweepFillsMaximally(opp[1..], taker');
        DepthIgnoresRemaining(opp[1..], taker, taker');
        assert Sweep(opp, taker).trades[1..] == Sweep(opp[1..], taker').trades;
      } else {
        assert Sweep(opp, taker).trades[1..] == [];
      }
    }
  }

  lemma {:induction false} DepthIgnoresRemaining(s: seq<Order>, a: Order, b: Order)
    requires a.side == b.side && a.price == b.price
    ensures CrossingDepth(s, a) == CrossingDepth(s, b)
    decreases |s|
  {
    if s != [] {
      DepthIgnoresRemaining(s[1..], a, b);
    }
  }

  function CrossingCount(s: seq<Order>, taker: Order): nat {
    if s == [] then 0
    else (if Crosses(taker, s[0]) then 1 else 0) + CrossingCount(s[1..], taker)
  }

  /** The loop runs at most once per crossing order. */
  lemma {:induction false} SweepBounded(opp: seq<Order>, taker: Order)
    ensures |Sweep(opp, taker).trades| <= CrossingCount(opp, taker)
    decreases |opp|
  {
    if !Stops(opp, taker) && opp[0].remaining <= taker.remaining {
      SweepBounded(opp[1..], After(taker, opp[0]));
      CountIgnoresRemaining(opp[1..], taker, After(taker, opp[0]));
    }
  }

  lemma {:induction false} CountIgnoresRemaining(s: seq<Order>, a: Order, b: Order)
    requires a.side == b.side && a.price == b.price
    ensures CrossingCount(s, a) == CrossingCount(s, b)
    decreases |s|
  {
    if s != [] {
      CountIgnoresRemaining(s[1..], a, b);
    }
  }
}
