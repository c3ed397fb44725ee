/** Price-time priority over whole runs, stated at the instant of each single trade. */
module Priority {
  import opened Types
  import opened FlatBook
  import opened Sweeping
  import opened Market

  /** A fill as seen by a side: the named order shrinks, and leaves when exhausted. */
  function Hit(s: seq<Order>, id: OrderId, q: Quantity): seq<Order> {
    if s == [] then []
    else if s[0].id == id then
      if s[0].remaining <= q then s[1..] else [s[0].(remaining := s[0].remaining - q)] + s[1..]
    else [s[0]] + Hit(s[1..], id, q)
  }

  /** A side after the given trades of one taker, one after the other. */
  function Hits(s: seq<Order>, taker: Side, trades: seq<Trade>): seq<Order>
    decreases trades
  {
    if trades == [] then s
    else Hits(Hit(s, RestingId(taker, trades[0]), trades[0].quantity), taker, trades[1..])
  }

  /** The first trade hits the head. */
  lemma {:induction false} FirstHitsHead(opp: seq<Order>, taker: Order, k: nat)
    requires 0 < k <= |Sweep(opp, taker).trades|
    ensures !Stops(opp, taker)
    ensures var t := Sweep(opp, taker).trades;
            Hits(opp, taker.side, t[..k]) ==
            Hits(if opp[0].remaining <= taker.remaining then opp[1..]
                 else [opp[0].(remaining := opp[0].remaining - taker.remaining)] + opp[1..], taker.side, t[1..][..k - 1])
  {
    var t := Sweep(opp, taker).trades;
    assert t[..k][0] == t[0] && t[..k][1..] == t[1..][..k - 1];
  }

  /** Replaying the tape of a sweep trade by trade: each trade hits the head of what is left, and
      the whole tape rebuilds exactly the side the sweep leaves behind. */
  lemma {:induction false} TapeRebuildsSide(opp: seq<Order>, taker: Order, k: nat)
    requires k <= |Sweep(opp, taker).trades|
    ensures var r := Sweep(opp, taker);
            var mid := Hits(opp, taker.side, r.trades[..k]);
            if k < |r.trades| then k < |opp| && mid == opp[k..] && r.trades[k] == Execution(taker, mid[0], r.trades[k].quantity)
            else mid == r.rest
    decreases |opp|
  {
    hide Hit;
    var t := Sweep(opp, taker).trades;
    if k == 0 {
      SweepTrades(opp, taker);
    } else {
      FirstHitsHead(opp, taker, k);
      if opp[0].remaining <= taker.remaining {
        assert t[1..] == Sweep(opp[1..], After(taker, opp[0])).trades;
        TapeRebuildsSide(opp[1..], After(taker, opp[0]), k - 1);
        assert k < |t| ==> opp[1..][k - 1..] == opp[k..];
      } else {
        assert t[1..][..k - 1] == [];
      }
    }
  }

  /** The book at the instant before trade k of a submission. */
  function BookBefore(b: Book, op: Op, k: nat): Book
    requires op.Submit? && k <= |SubmitTo(b, op).reply.trades|
  {
    var opp := op.side.Opposite();
    b.With(opp, Hits(b.Of(opp), op.side, SubmitTo(b, op).reply.trades[..k]))
  }

  /** An order is a party to a trade: the incoming order, or the resting order it names. */
  ghost predicate PartyTo(p: Order, b: Book, op: Op, k: nat)
    requires op.Submit? && k < |SubmitTo(b, op).reply.trades|
  {
    var t := SubmitTo(b, op).reply.trades[k];
    || p == Taker(b, op)
    || (p in BookBefore(b, op, k).Of(op.side.Opposite()) && p.id == RestingId(op.side, t))
  }

  /** Before trade k exactly k orders are gone, and the head of the rest is the resting party. */
  lemma {:induction false} BeforeTrade(b: Book, op: Op, k: nat)
    requires op.Submit? && k < |SubmitTo(b, op).reply.trades|
    ensures var opp, mid := b.Of(op.side.Opposite()), BookBefore(b, op, k);
            && k < |opp| && mid.Of(op.side.Opposite()) == opp[k..] && mid.Of(op.side) == b.Of(op.side)
            && Crosses(Taker(b, op), opp[k])
            && RestingId(op.side, SubmitTo(b, op).reply.trades[k]) == opp[k].id
  {
    TapeRebuildsSide(b.Of(op.side.Opposite()), Taker(b, op), k);
    SweepTrades(b.Of(op.side.Opposite()), Taker(b, op));
  }

  lemma {:induction false} HeadIsFirst(opp: seq<Order>, k: nat, a: Order, p: Order)
    requires Sorted(opp) && UniqueIds(opp) && k < |opp|
    requires a in opp[k..] && p in opp[k..] && p.id == opp[k].id
    ensures !Ahead(a, p)
  {
    var i :| 0 <= i < |opp| - k && opp[k..][i] == a;
    var j :| 0 <= j < |opp| - k && opp[k..][j] == p;
    assert opp[k + i] == a && opp[k + j] == p;
    assert j == 0;
    assert i > 0 ==> Ahead(opp[k], opp[k + i]);
  }

  /** On arrival an order that trades is strictly better priced than everything on its own side. */
  lemma {:induction false} ArrivalIsFirst(b: Book, taker: Order, a: Order, k: nat)
    requires MarketOk(b) && a in b.Of(taker.side)
    requires k < |b.Of(taker.side.Opposite())| && Crosses(taker, b.Of(taker.side.Opposite())[k])
    ensures a.side == taker.side && Rank(taker.side, taker.price) < Rank(a.side, a.price)
  {
    var i :| 0 <= i < |b.Of(taker.side)| && b.Of(taker.side)[i] == a;
    if taker.side.Buy? {
      assert b.bids[i].price < b.asks[k].price;
    } else {
      assert b.bids[k].price < b.asks[i].price;
    }
  }

  /** No trade passes over an order: when a trade happens, nobody resting on the side of either
      party has a better price, or the same price and an earlier arrival. */
  lemma {:induction false} NobodyIsPassedOver(b: Book, op: Op, k: nat, a: Order, p: Order)
    requires MarketOk(b) && op.Submit? && k < |SubmitTo(b, op).reply.trades|
    requires a in BookBefore(b, op, k).bids || a in BookBefore(b, op, k).asks
    requires PartyTo(p, b, op, k)
    ensures !(a.side == p.side && Ahead(a, p))
  {
    BeforeTrade(b, op, k);
    var opp := b.Of(op.side.Opposite());
    OneSideOf(b, op.side.Opposite());
    if a in opp[k..] {
      if p in opp[k..] && p.id == opp[k].id {
        HeadIsFirst(opp, k, a, p);
      }
    } else {
      ArrivalIsFirst(b, Taker(b, op), a, k);
    }
  }

  lemma {:induction false} OneSideOf(b: Book, side: Side)
    requires MarketOk(b)
    ensures Sorted(b.Of(side)) && UniqueIds(b.Of(side))
    ensures forall a :: a in b.Of(side) ==> a.side == side
  {
  }

  /** Price-time priority at every trade of every run. */
  lemma {:induction false} PriorityOnEveryRun(ops: seq<Op>, i: nat, k: nat, a: Order, p: Order)
    requires i < |ops| && ops[i].Submit?
    requires k < |SubmitTo(Run(EMPTY, ops[..i]), ops[i]).reply.trades|
    requires var mid := BookBefore(Run(EMPTY, ops[..i]), ops[i], k); a in mid.bids || a in mid.asks
    requires PartyTo(p, Run(EMPTY, ops[..i]), ops[i], k)
    ensures !(a.side == p.side && Ahead(a, p))
  {
    RunKeepsMarket(EMPTY, ops[..i]);
    NobodyIsPassedOver(Run(EMPTY, ops[..i]), ops[i], k, a, p);
  }
}
