/** What the status of a resting order tells: how it entered the book, not how it fared since. */
module Statuses {
  import opened Types
  import opened FlatBook
  import opened Sweeping
  import opened Market
  import opened Lifecycle
  import opened Ledger

  /** Reply j is the one that issued the id. */
  ghost predicate Issued(replies: seq<Reply>, j: nat, id: OrderId) {
    j < |replies| && replies[j].Submitted? && replies[j].id == id
  }

  /** On a side of live orders every trade moves at least one share. */
  lemma {:induction false} TradeHasVolume(opp: seq<Order>, taker: Order)
    requires forall k :: 0 <= k < |opp| ==> opp[k].remaining > 0
    ensures Sweep(opp, taker).trades == [] <==> Volume(Sweep(opp, taker).trades) == 0
  {
    if !Stops(opp, taker) {
      assert Sweep(opp, taker).trades[0].quantity == Min(taker.remaining, opp[0].remaining) > 0;
    }
  }

  /** A remainder enters the book as partly filled exactly if it traded on arrival. */
  lemma {:induction false} EntryStatus(b: Book, op: Op)
    requires MarketOk(b) && Accepts(op) && SweepOf(b, op).taker.remaining > 0
    ensures var r := SweepOf(b, op);
            Settle(r.taker).status == if r.trades == [] then Accepted else PartiallyFilled
  {
    hide Sweep;
    var opp := b.Of(op.side.Opposite());
    assert forall k :: 0 <= k < |opp| ==> Live(opp[k], op.side.Opposite(), b.nextId);
    TradeHasVolume(opp, Taker(b, op));
    SweepVolume(opp, Taker(b, op));
  }

  /** The status of a resting order after a call, from the one before or from its arrival. */
  lemma {:induction false} StatusStep(b: Book, op: Op, o: Order)
    requires MarketOk(b) && Rests(Step(b, op).book, o)
    ensures if b.Has(o.id) then Rests(b, Find(b, o.id)) && o.status == Find(b, o.id).status
            else && Accepts(op) && Step(b, op).reply == Submitted(o.id, SweepOf(b, op).trades)
                 && o.status == if SweepOf(b, op).trades == [] then Accepted else PartiallyFilled
  {
    hide MarketOk, SweepOf, Step, Settle;
    SizeOfRested(b, op, o);
    NextIdSteps(b, op);
    StepKeepsMarket(b, op);
    RestsIsFound(Step(b, op).book, o);
    if !b.Has(o.id) {
      SettleKeepsRemaining(SweepOf(b, op).taker);
      EntryStatus(b, op);
    }
  }

  lemma {:induction false} SettleKeepsRemaining(t: Order)
    ensures Settle(t).remaining == t.remaining
  {
  }

  /** On every run a resting order is marked partly filled if and only if it traded in the call that
      issued its id; otherwise it is marked accepted, whatever traded against it since. */
  lemma {:induction false} StatusTellsArrival(ops: seq<Op>, o: Order) returns (j: nat)
    requires Rests(Run(EMPTY, ops), o)
    ensures |Replies(EMPTY, ops)| == |ops|
    ensures j < |ops| && Accepts(ops[j]) && Issued(Replies(EMPTY, ops), j, o.id)
    ensures o.status == if Replies(EMPTY, ops)[j].trades == [] then Accepted else PartiallyFilled
    decreases |ops|
  {
    hide Step, MarketOk, Accepts;
    RepliesLength(EMPTY, ops);
    assert ops != [];
    var n := |ops| - 1;
    var init, op := ops[..n], ops[n];
    assert ops == init + [op];
    RunSnoc(EMPTY, init, op);
    EmptyIsMarket();
    RunKeepsMarket(EMPTY, init);
    RepliesLength(EMPTY, init);
    var b := Run(EMPTY, init);
    StatusStep(b, op, o);
    if b.Has(o.id) {
      j := StatusTellsArrival(init, Find(b, o.id));
    } else {
      j := n;
    }
  }

  /** Only one reply issues an id. */
  lemma {:induction false} IssuedOnce(ops: seq<Op>, i: nat, j: nat)
    requires i < |ops| && j < |ops| && Accepts(ops[i]) && Accepts(ops[j])
    requires var r := Replies(EMPTY, ops); |r| == |ops| && r[i].Submitted? && r[j].Submitted? && r[i].id == r[j].id
    ensures i == j
  {
    hide Accepts, Replies;
    if i < j {
      IdsIncrease(EMPTY, ops, i, j);
    } else if j < i {
      IdsIncrease(EMPTY, ops, j, i);
    }
  }

  // ---- When the status agrees with the fill ----

  lemma {:induction false} ReplyAt(b: Book, ops: seq<Op>, j: nat)
    requires j < |ops|
    ensures |Replies(b, ops)| == |ops| && Replies(b, ops)[j] == Step(Run(b, ops[..j]), ops[j]).reply
    decreases ops
  {
    hide Step;
    RepliesLength(b, ops);
    if j > 0 {
      ReplyAt(Step(b, ops[0]).book, ops[1..], j - 1);
      assert ops[..j][1..] == ops[1..][..j - 1];
    }
  }

  lemma {:induction false} TapeHolds(replies: seq<Reply>, j: nat, id: OrderId)
    requires j < |replies|
    ensures TradedBy(TradesOf(replies), id) >= TradedBy(replies[j].Trades(), id)
    decreases |replies|
  {
    TradedConcat(replies[0].Trades(), TradesOf(replies[1..]), id);
    if j > 0 {
      TapeHolds(replies[1..], j - 1, id);
    }
  }

  /** An order that traded on arrival is on the tape. */
  lemma {:induction false} ArrivalOnTape(ops: seq<Op>, j: nat, id: OrderId)
    requires j < |ops| && Accepts(ops[j]) && Issued(Replies(EMPTY, ops), j, id) && Replies(EMPTY, ops)[j].trades != []
    ensures TradedIn(EMPTY, ops, id) > 0
  {
    hide Step, MarketOk, Sweep;
    var b, op := Run(EMPTY, ops[..j]), ops[j];
    ReplyAt(EMPTY, ops, j);
    EmptyIsMarket();
    RunKeepsMarket(EMPTY, ops[..j]);
    NextIdSteps(b, op);
    ArrivalTrades(b, op);
    TapeHolds(Replies(EMPTY, ops), j, id);
  }

  lemma {:induction false} ArrivalTrades(b: Book, op: Op)
    requires MarketOk(b) && Accepts(op) && SweepOf(b, op).trades != []
    ensures TradedBy(SweepOf(b, op).trades, b.nextId) > 0
  {
    var opp := b.Of(op.side.Opposite());
    assert forall k :: 0 <= k < |opp| ==> Live(opp[k], op.side.Opposite(), b.nextId);
    TradeHasVolume(opp, Taker(b, op));
    TakerTape(opp, Taker(b, op));
  }

  /** The status of a resting order agrees with its fill, partly filled exactly if some but not all of
      it is filled, if and only if it traded on arrival or has neither traded nor been reduced since. */
  lemma {:induction false} StatusAgreesIff(ops: seq<Op>, o: Order, j: nat)
    requires Rests(Run(EMPTY, ops), o)
    requires j < |ops| && Accepts(ops[j]) && Issued(Replies(EMPTY, ops), j, o.id)
    ensures (o.status == PartiallyFilled <==> 0 < o.FilledQty() < o.quantity) <==>
            (Replies(EMPTY, ops)[j].trades != [] || (TradedIn(EMPTY, ops, o.id) == 0 && ShedIn(EMPTY, ops, o.id) == 0))
  {
    hide MarketOk, Step, Run, Replies, TradedIn, ShedIn, Accepts;
    EmptyIsMarket();
    RunKeepsMarket(EMPTY, ops);
    RestsIsFound(Run(EMPTY, ops), o);
    var i := StatusTellsArrival(ops, o);
    IssuedOnce(ops, i, j);
    FilledQtyCountsReductions(ops, o);
    if Replies(EMPTY, ops)[j].trades != [] {
      ArrivalOnTape(ops, j, o.id);
    }
  }

  /** A sell of 10 rests and a buy of 4 trades with it: it is partly filled and still marked accepted. */
  lemma {:induction false} PartlyFilledYetAccepted()
    ensures var ops := [Submit(Sell, Limit, 1, 10), Submit(Buy, Limit, 1, 4)];
            var o := Order(1, Sell, Limit, 1, 10, 6, Accepted);
            Run(EMPTY, ops) == Book([], [o], 3) && 0 < o.FilledQty() < o.quantity
  {
    var sell, buy := Submit(Sell, Limit, 1, 10), Submit(Buy, Limit, 1, 4);
    var o := Order(1, Sell, Limit, 1, 10, 10, Accepted);
    var b := Book([], [o], 2);
    assert Insert([], o) == [o];
    assert Step(EMPTY, sell).book == b;
    assert Sweep([o], Taker(b, buy)).rest == [o.(remaining := 6)] + [];
    assert Step(b, buy).book == Book([], [o.(remaining := 6)], 3);
    assert [sell, buy][1..] == [buy] && [buy][1..] == [];
    assert Run(b, [buy]) == Run(Step(b, buy).book, []);
  }
}
