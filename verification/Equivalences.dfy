/** Different ways of sending the same interest to the market. */
module Equivalences {
  import opened Types
  import opened FlatBook
  import opened Sweeping
  import opened Market

  // ---- What a sweep depends on ----

  /** Only side, price and remaining quantity steer a sweep; the taker's id is merely recorded. */
  ghost predicate SameInterest(a: Order, b: Order) {
    a.side == b.side && a.price == b.price && a.remaining == b.remaining
  }

  /** Shares taken from one resting order. */
  function TakenFrom(trades: seq<Trade>, taker: Side, id: OrderId): nat {
    if trades == [] then 0
    else (if RestingId(taker, trades[0]) == id then trades[0].quantity else 0) + TakenFrom(trades[1..], taker, id)
  }

  lemma {:induction false} SweepSteeredByInterest(opp: seq<Order>, a: Order, b: Order, id: OrderId)
    requires SameInterest(a, b)
    ensures var r, q := Sweep(opp, a), Sweep(opp, b);
            && r.rest == q.rest && r.taker.remaining == q.taker.remaining
            && Notional(r.trades) == Notional(q.trades)
            && TakenFrom(r.trades, a.side, id) == TakenFrom(q.trades, b.side, id)
            && (a.id == b.id ==> r.trades == q.trades)
    decreases |opp|
  {
    if !Stops(opp, a) && opp[0].remaining <= a.remaining {
      SweepSteeredByInterest(opp[1..], After(a, opp[0]), After(b, opp[0]), id);
    }
  }

  /** One turn of the matching loop, seen through the totals. */
  lemma {:induction false} SweepOnce(opp: seq<Order>, t: Order, id: OrderId)
    requires !Stops(opp, t)
    ensures var r, fill := Sweep(opp, t), Min(t.remaining, opp[0].remaining);
            var share := if opp[0].id == id then fill else 0;
            if opp[0].remaining <= t.remaining then
              var more := Sweep(opp[1..], After(t, opp[0]));
              && r.rest == more.rest
              && Notional(r.trades) == opp[0].price * fill + Notional(more.trades)
              && TakenFrom(r.trades, t.side, id) == share + TakenFrom(more.trades, t.side, id)
            else
              && r.rest == [opp[0].(remaining := opp[0].remaining - fill)] + opp[1..]
              && Notional(r.trades) == opp[0].price * fill
              && TakenFrom(r.trades, t.side, id) == share
  {
    var trades := Sweep(opp, t).trades;
    if opp[0].remaining <= t.remaining {
      assert trades[1..] == Sweep(opp[1..], After(t, opp[0])).trades;
    } else {
      assert trades[1..] == [];
    }
  }

  // ---- Splitting an order ----

  /** Sweeping q1 + q2 leaves what sweeping q1 and then q2 leaves, taking the same shares from
      every resting order for the same money. */
  lemma {:induction false} SweepSplits(opp: seq<Order>, t: Order, t1: Order, t2: Order, id: OrderId)
    requires t.side == t1.side == t2.side && t.price == t1.price == t2.price
    requires t.remaining == t1.remaining + t2.remaining
    ensures var r, r1 := Sweep(opp, t), Sweep(opp, t1);
            var r2 := Sweep(r1.rest, t2);
            && r.rest == r2.rest
            && Notional(r.trades) == Notional(r1.trades) + Notional(r2.trades)
            && TakenFrom(r.trades, t.side, id) == TakenFrom(r1.trades, t.side, id) + TakenFrom(r2.trades, t.side, id)
    decreases |opp|
  {
    if t1.remaining == 0 {
      SweepSteeredByInterest(opp, t, t2, id);
    } else if Stops(opp, t) {
    } else if opp[0].remaining <= t1.remaining {
      SweepOnce(opp, t, id);
      SweepOnce(opp, t1, id);
      SweepSplits(opp[1..], After(t, opp[0]), After(t1, opp[0]), t2, id);
    } else {
      SplitInsideHead(opp, t, t1, t2, id);
    }
  }

  /** The first part ends inside the head order; the second part continues with it. */
  lemma {:induction false} SplitInsideHead(opp: seq<Order>, t: Order, t1: Order, t2: Order, id: OrderId)
    requires t.side == t1.side == t2.side && t.price == t1.price == t2.price
    requires t.remaining == t1.remaining + t2.remaining
    requires !Stops(opp, t) && 0 < t1.remaining < opp[0].remaining
    ensures var r, r1 := Sweep(opp, t), Sweep(opp, t1);
            var r2 := Sweep(r1.rest, t2);
            && r.rest == r2.rest
            && Notional(r.trades) == Notional(r1.trades) + Notional(r2.trades)
            && TakenFrom(r.trades, t.side, id) == TakenFrom(r1.trades, t.side, id) + TakenFrom(r2.trades, t.side, id)
  {
    var mid := Sweep(opp, t1).rest;
    SweepOnce(opp, t1, id);
    assert mid[0] == opp[0].(remaining := opp[0].remaining - t1.remaining) && mid[1..] == opp[1..];
    if t2.remaining == 0 {
      SweepSteeredByInterest(opp, t, t1, id);
      assert Sweep(mid, t2).trades == [];
    } else if opp[0].remaining <= t.remaining {
      SplitThroughHead(opp, t, t1, t2, id, mid);
    } else {
      SweepOnce(opp, t, id);
      SweepOnce(mid, t2, id);
      SplitPrice(opp[0].price, t.remaining, t1.remaining, t2.remaining);
    }
  }

  lemma {:induction false} SplitThroughHead(opp: seq<Order>, t: Order, t1: Order, t2: Order, id: OrderId, mid: seq<Order>)
    requires t.side == t1.side == t2.side && t.price == t1.price == t2.price
    requires t.remaining == t1.remaining + t2.remaining
    requires !Stops(opp, t) && 0 < t1.remaining < opp[0].remaining <= t.remaining
    requires mid == [opp[0].(remaining := opp[0].remaining - t1.remaining)] + opp[1..]
    ensures var r, r2 := Sweep(opp, t), Sweep(mid, t2);
            && r.rest == r2.rest
            && Notional(r.trades) == opp[0].price * t1.remaining + Notional(r2.trades)
            && TakenFrom(r.trades, t.side, id) ==
               (if opp[0].id == id then t1.remaining else 0) + TakenFrom(r2.trades, t.side, id)
  {
    SweepOnce(opp, t, id);
    SweepOnce(mid, t2, id);
    assert mid[1..] == opp[1..];
    SplitPrice(opp[0].price, opp[0].remaining, t1.remaining, mid[0].remaining);
    SweepSteeredByInterest(opp[1..], After(t, opp[0]), After(t2, mid[0]), id);
  }

  lemma {:induction false} SplitPrice(p: int, n: nat, a: nat, b: nat)
    requires n == a + b
    ensures p * n == p * a + p * b
  {
  }

  /** One IOC of q1 + q2 is worth two, of q1 and of q2: the same resting book, the same shares from
      every order and the same money. Only the id counter differs. */
  lemma {:induction false} IocSplits(b: Book, side: Side, price: Price, q1: Quantity, q2: Quantity, id: OrderId)
    requires q1 > 0 && q2 > 0 && q1 + q2 <= 0xFFFF_FFFF
    ensures var whole := Step(b, Submit(side, IOC, price, q1 + q2));
            var first := Step(b, Submit(side, IOC, price, q1));
            var second := Step(first.book, Submit(side, IOC, price, q2));
            && second.book == whole.book.(nextId := whole.book.nextId + 1)
            && Notional(whole.reply.trades) == Notional(first.reply.trades) + Notional(second.reply.trades)
            && TakenFrom(whole.reply.trades, side, id) ==
               TakenFrom(first.reply.trades, side, id) + TakenFrom(second.reply.trades, side, id)
  {
    hide Sweep, Step, Notional, TakenFrom;
    var opp := b.Of(side.Opposite());
    var t, t1, t2 := NewOrder(b.nextId, side, IOC, price, q1 + q2), NewOrder(b.nextId, side, IOC, price, q1),
                     NewOrder(b.nextId + 1, side, IOC, price, q2);
    SweepSplits(opp, t, t1, t2, id);
    IocOutcome(b, side, price, q1 + q2);
    IocOutcome(b, side, price, q1);
    var first := Step(b, Submit(side, IOC, price, q1)).book;
    assert first.Of(side.Opposite()) == Sweep(opp, t1).rest;
    IocOutcome(first, side, price, q2);
  }

  /** An IOC only eats into the opposite side. */
  lemma {:induction false} IocOutcome(b: Book, side: Side, price: Price, quantity: Quantity)
    requires quantity > 0
    ensures var r := Sweep(b.Of(side.Opposite()), NewOrder(b.nextId, side, IOC, price, quantity));
            Step(b, Submit(side, IOC, price, quantity)) ==
            Outcome(b.With(side.Opposite(), r.rest).(nextId := b.nextId + 1), Submitted(b.nextId, r.trades))
  {
  }

  // ---- IOC and market orders in terms of limit orders ----

  lemma {:induction false} RemoveInserted(s: seq<Order>, o: Order)
    requires !HasId(s, o.id)
    ensures Remove(Insert(s, o), o.id) == s
    decreases |s|
  {
    if s != [] {
      assert s[0].id != o.id;
      assert forall k :: 0 <= k < |s[1..]| ==> s[1..][k] == s[k + 1];
      if Rank(s[0].side, s[0].price) <= Rank(o.side, o.price) {
        RemoveInserted(s[1..], o);
      }
    }
  }

  /** An IOC order is a limit order cancelled the moment the call returns. */
  lemma {:induction false} IocIsLimitThenCancel(b: Book, side: Side, price: Price, quantity: Quantity)
    requires MarketOk(b) && price > 0 && quantity > 0
    ensures var ioc := Step(b, Submit(side, IOC, price, quantity));
            var limit := Step(b, Submit(side, Limit, price, quantity));
            && ioc.reply == limit.reply
            && ioc.book == Step(limit.book, Cancel(limit.reply.id)).book
  {
    var opp, n := b.Of(side.Opposite()), b.nextId;
    var ioc, limit := NewOrder(n, side, IOC, price, quantity), NewOrder(n, side, Limit, price, quantity);
    SweepSteeredByInterest(opp, ioc, limit, 0);
    SweptKeepsSide(opp, limit, side.Opposite(), n);
    SweepVolume(opp, limit);
    var r := Sweep(opp, limit);
    assert !HasId(r.rest, n) && !HasId(b.Of(side), n);
    RemoveShape(r.rest, n);
    RemoveShape(b.Of(side), n);
    RemoveInserted(b.Of(side), Settle(r.taker));
  }

  /** A market order is an IOC order at the most aggressive price, and fills against everything. */
  lemma {:induction false} MarketIsIocAtExtreme(b: Book, side: Side, price: Price, quantity: Quantity)
    requires MarketOk(b)
    ensures var market := Submit(side, Market, price, quantity);
            && Step(b, market) == Step(b, Submit(side, IOC, if side.Buy? then MAX_PRICE else 0, quantity))
            && forall k :: 0 <= k < |b.Of(side.Opposite())| ==> Crosses(Taker(b, market), b.Of(side.Opposite())[k])
  {
    SweepSteeredByInterest(b.Of(side.Opposite()), NewOrder(b.nextId, side, Market, price, quantity),
      NewOrder(b.nextId, side, IOC, if side.Buy? then MAX_PRICE else 0, quantity), 0);
  }
}
