/** A sweep is the best possible execution of its quantity. */
module Optimality {
  import opened Types
  import opened FlatBook
  import opened Sweeping
  import opened Market

  function Sum(x: seq<nat>): nat {
    if x == [] then 0 else x[0] + Sum(x[1..])
  }

  /** A way of taking shares: x[i] shares from order i, never more than it has. */
  ghost predicate Allocation(s: seq<Order>, x: seq<nat>) {
    |x| == |s| && forall i :: 0 <= i < |s| ==> x[i] <= s[i].remaining
  }

  /** The money an allocation moves. */
  function Cost(s: seq<Order>, x: seq<nat>): int
    requires |x| == |s|
  {
    if s == [] then 0 else s[0].price * x[0] + Cost(s[1..], x[1..])
  }

  /** The cost with each order at its rank: what the taker loses by the allocation. */
  function Loss(s: seq<Order>, x: seq<nat>): int
    requires |x| == |s|
  {
    if s == [] then 0 else Rank(s[0].side, s[0].price) * x[0] + Loss(s[1..], x[1..])
  }

  lemma {:induction false} LossIsSignedCost(s: seq<Order>, x: seq<nat>, side: Side)
    requires |x| == |s| && OneSide(s, side)
    ensures Loss(s, x) == if side.Sell? then Cost(s, x) else -Cost(s, x)
    decreases |s|
  {
    if s != [] {
      LossIsSignedCost(s[1..], x[1..], side);
      var p, n := s[0].price as int, x[0];
      assert (-p) * n == -(p * n);
    }
  }

  // ---- Taking from the front ----

  /** The loss of taking n shares head first. */
  function FrontLoss(s: seq<Order>, n: nat): int {
    if s == [] then 0
    else
      var g := if n <= s[0].remaining then n else s[0].remaining;
      Rank(s[0].side, s[0].price) * g + FrontLoss(s[1..], n - g)
  }

  lemma {:induction false} FrontLossZero(s: seq<Order>)
    ensures FrontLoss(s, 0) == 0
    decreases |s|
  {
    if s != [] {
      FrontLossZero(s[1..]);
    }
  }

  lemma {:induction false} Distribute(p: int, a: int, b: int)
    ensures p * (a + b) == p * a + p * b
  {
  }

  lemma {:induction false} MulMonotone(a: int, b: int, n: nat)
    requires a <= b
    ensures a * n <= b * n
  {
    assert (b - a) * n >= 0;
  }

  /** Every one of the last d shares taken costs at least the best rank available. */
  lemma {:induction false} LastSharesCost(s: seq<Order>, n: nat, d: nat, p: int)
    requires d <= n <= Total(s)
    requires forall k :: 0 <= k < |s| ==> p <= Rank(s[k].side, s[k].price)
    ensures FrontLoss(s, n) >= FrontLoss(s, n - d) + p * d
    decreases |s|
  {
    if s != [] {
      var r, rank, tail := s[0].remaining, Rank(s[0].side, s[0].price), s[1..];
      assert p <= rank;
      FrontLossZero(tail);
      if n <= r {
        FewShares(rank, n, d, p);
      } else if n - d >= r {
        LastSharesCost(tail, n - r, d, p);
        assert n - d - r == n - r - d;
      } else {
        LastSharesCost(tail, n - r, n - r, p);
        ManyShares(rank, n, d, p, r);
      }
    }
  }

  lemma {:induction false} FewShares(rank: int, n: nat, d: nat, p: int)
    requires p <= rank && d <= n
    ensures rank * n >= rank * (n - d) + p * d
  {
    Distribute(rank, n - d, d);
    MulMonotone(p, rank, d);
  }

  lemma {:induction false} ManyShares(rank: int, n: nat, d: nat, p: int, r: nat)
    requires p <= rank && n - d < r < n && d <= n
    ensures rank * r + p * (n - r) >= rank * (n - d) + p * d
  {
    var e := r - (n - d);
    Distribute(rank, n - d, e);
    MulMonotone(p, rank, e);
    Distribute(p, e, n - r);
  }

  lemma {:induction false} SumWithin(s: seq<Order>, x: seq<nat>)
    requires Allocation(s, x)
    ensures Sum(x) <= Total(s)
    decreases |s|
  {
    if s != [] {
      SumWithin(s[1..], x[1..]);
    }
  }

  /** Exchange argument: moving shares to the front never costs more. */
  lemma {:induction false} FrontIsOptimal(s: seq<Order>, x: seq<nat>)
    requires Sorted(s) && Allocation(s, x)
    ensures FrontLoss(s, Sum(x)) <= Loss(s, x)
    decreases |s|
  {
    if s != [] {
      var tail, m, rank := s[1..], Sum(x[1..]), Rank(s[0].side, s[0].price);
      var g := if Sum(x) <= s[0].remaining then Sum(x) else s[0].remaining;
      FrontIsOptimal(tail, x[1..]);
      SumWithin(tail, x[1..]);
      forall k | 0 <= k < |tail| ensures rank <= Rank(tail[k].side, tail[k].price) {
        assert Ahead(s[0], s[k + 1]);
      }
      LastSharesCost(tail, m, g - x[0], rank);
      assert m - (g - x[0]) == Sum(x) - g;
      Distribute(rank, x[0], g - x[0]);
    }
  }

  // ---- A sweep takes from the front ----

  /** The allocation a sweep makes. */
  function Taken(opp: seq<Order>, trades: seq<Trade>): (x: seq<nat>)
    requires |trades| <= |opp|
    ensures |x| == |opp|
  {
    seq(|opp|, i requires 0 <= i < |opp| => if i < |trades| then trades[i].quantity as nat else 0)
  }

  lemma {:induction false} TakenNothing(opp: seq<Order>)
    ensures Sum(Taken(opp, [])) == 0 && Cost(opp, Taken(opp, [])) == 0 && Loss(opp, Taken(opp, [])) == 0
    decreases |opp|
  {
    if opp != [] {
      assert Taken(opp, [])[1..] == Taken(opp[1..], []);
      TakenNothing(opp[1..]);
    }
  }

  lemma {:induction false} TakenStep(opp: seq<Order>, taker: Order)
    requires !Stops(opp, taker)
    ensures var t := Sweep(opp, taker).trades;
            && t != [] && t[0].price == opp[0].price
            && t[0].quantity == Min(taker.remaining, opp[0].remaining)
            && t[1..] == (if opp[0].remaining <= taker.remaining
                          then Sweep(opp[1..], After(taker, opp[0])).trades else [])
            && (|t| <= |opp| ==> Taken(opp, t)[0] == t[0].quantity && Taken(opp, t)[1..] == Taken(opp[1..], t[1..]))
  {
  }

  lemma {:induction false} TakenAddsUp(opp: seq<Order>, taker: Order)
    ensures var r := Sweep(opp, taker);
            && |r.trades| <= |opp|
            && Sum(Taken(opp, r.trades)) == Volume(r.trades)
            && Cost(opp, Taken(opp, r.trades)) == Notional(r.trades)
    decreases |opp|
  {
    SweepTrades(opp, taker);
    TakenNothing(opp);
    if !Stops(opp, taker) {
      TakenStep(opp, taker);
      TakenNothing(opp[1..]);
      TakenAddsUp(opp[1..], After(taker, opp[0]));
    }
  }

  lemma {:induction false} TakenIsFront(opp: seq<Order>, taker: Order)
    ensures var t := Sweep(opp, taker).trades;
            |t| <= |opp| && FrontLoss(opp, Volume(t)) == Loss(opp, Taken(opp, t))
    decreases |opp|
  {
    SweepTrades(opp, taker);
    TakenNothing(opp);
    FrontLossZero(opp);
    if !Stops(opp, taker) {
      TakenStep(opp, taker);
      var t := Sweep(opp, taker).trades;
      assert Volume(t) == t[0].quantity + Volume(t[1..]);
      if opp[0].remaining <= taker.remaining {
        TakenIsFront(opp[1..], After(taker, opp[0]));
      } else {
        TakenNothing(opp[1..]);
        FrontLossZero(opp[1..]);
      }
    }
  }

  lemma {:induction false} TakenIsAllocation(opp: seq<Order>, taker: Order)
    ensures |Sweep(opp, taker).trades| <= |opp| && Allocation(opp, Taken(opp, Sweep(opp, taker).trades))
  {
    SweepTrades(opp, taker);
  }

  /** A buy pays the least, and a sell receives the most, among all ways of taking the same
      quantity from the opposite side; the sweep's own fills are one of those ways. */
  lemma {:induction false} SweepIsOptimal(opp: seq<Order>, taker: Order, x: seq<nat>)
    requires Sorted(opp) && OneSide(opp, taker.side.Opposite())
    requires Allocation(opp, x) && Sum(x) == Volume(Sweep(opp, taker).trades)
    ensures var t := Sweep(opp, taker).trades;
            && (taker.side.Buy? ==> Notional(t) <= Cost(opp, x))
            && (taker.side.Sell? ==> Notional(t) >= Cost(opp, x))
            && |t| <= |opp| && Allocation(opp, Taken(opp, t))
            && Sum(Taken(opp, t)) == Sum(x) && Cost(opp, Taken(opp, t)) == Notional(t)
  {
    TakenAddsUp(opp, taker);
    TakenIsFront(opp, taker);
    TakenIsAllocation(opp, taker);
    FrontIsOptimal(opp, x);
    LossIsSignedCost(opp, x, taker.side.Opposite());
    LossIsSignedCost(opp, Taken(opp, Sweep(opp, taker).trades), taker.side.Opposite());
  }

  /** The same, for every submission of every run. */
  lemma {:induction false} BestExecutionOnEveryRun(ops: seq<Op>, op: Op, x: seq<nat>)
    requires op.Submit?
    requires var b := Run(EMPTY, ops);
             && Allocation(b.Of(op.side.Opposite()), x)
             && Sum(x) == Volume(SubmitTo(b, op).reply.trades)
             && Acceptable(op.kind, op.price, op.quantity)
    ensures var b := Run(EMPTY, ops);
            var t, cost := SubmitTo(b, op).reply.trades, Cost(b.Of(op.side.Opposite()), x);
            if op.side.Buy? then Notional(t) <= cost else Notional(t) >= cost
  {
    RunKeepsMarket(EMPTY, ops);
    var b := Run(EMPTY, ops);
    SweepIsOptimal(b.Of(op.side.Opposite()), Taker(b, op), x);
  }
}
