/** Conservation: every share of every accepted order is traded, still resting, or shed. */
module Ledger {
  import opened Types
  import opened FlatBook
  import opened Sweeping
  import opened Market
  import opened Lifecycle
  import opened Exchange

  /** Shares of one order on a tape, on either leg. */
  function TradedBy(trades: seq<Trade>, id: OrderId): nat {
    if trades == [] then 0
    else
      (if trades[0].buyId == id then trades[0].quantity else 0) +
      (if trades[0].sellId == id then trades[0].quantity else 0) + TradedBy(trades[1..], id)
  }

  /** Shares of one order still resting on a side. */
  function RestingOn(s: seq<Order>, id: OrderId): nat {
    if s == [] then 0 else (if s[0].id == id then s[0].remaining else 0) + RestingOn(s[1..], id)
  }

  function Resting(b: Book, id: OrderId): nat {
    RestingOn(b.bids, id) + RestingOn(b.asks, id)
  }

  /** Shares an operation brings in for an order. */
  function Entered(b: Book, op: Op, id: OrderId): nat {
    if op.Submit? && Acceptable(op.kind, op.price, op.quantity) && id == b.nextId then op.quantity else 0
  }

  /** Shares an operation withdraws from an order unfilled: a cancel, a reduction, or the remainder
      of a market or IOC order. */
  function Shed(b: Book, op: Op, id: OrderId): nat {
    match op
    case Submit(_, kind, price, quantity) =>
      if Acceptable(kind, price, quantity) && id == b.nextId && !kind.Limit? then SweepOf(b, op).taker.remaining else 0
    case Cancel(target) =>
      if b.Has(target) && target == id then Find(b, target).remaining else 0
    case Reduce(target, n) =>
      if b.Has(target) && target == id && n < Find(b, target).remaining then Find(b, target).remaining - n else 0
  }

  // ---- Totals over a run ----

  function EnteredIn(b: Book, ops: seq<Op>, id: OrderId): nat
    decreases ops
  {
    if ops == [] then 0 else Entered(b, ops[0], id) + EnteredIn(Step(b, ops[0]).book, ops[1..], id)
  }

  function ShedIn(b: Book, ops: seq<Op>, id: OrderId): nat
    decreases ops
  {
    if ops == [] then 0 else Shed(b, ops[0], id) + ShedIn(Step(b, ops[0]).book, ops[1..], id)
  }

  function TradedIn(b: Book, ops: seq<Op>, id: OrderId): nat {
    TradedBy(TradesOf(Replies(b, ops)), id)
  }

  lemma {:induction false} TradedConcat(a: seq<Trade>, b: seq<Trade>, id: OrderId)
    ensures TradedBy(a + b, id) == TradedBy(a, id) + TradedBy(b, id)
    decreases |a|
  {
    if a == [] {
      assert a + b == b;
    } else {
      assert (a + b)[1..] == a[1..] + b;
      TradedConcat(a[1..], b, id);
    }
  }

  // ---- Each list operation moves shares one for one ----

  lemma {:induction false} AbsentRestsNothing(s: seq<Order>, id: OrderId)
    requires !HasId(s, id)
    ensures RestingOn(s, id) == 0
    decreases |s|
  {
    if s != [] {
      assert s[0].id != id;
      assert forall k :: 0 <= k < |s[1..]| ==> s[1..][k] == s[k + 1];
      AbsentRestsNothing(s[1..], id);
    }
  }

  lemma {:induction false} PresentRestsItsRemaining(s: seq<Order>, id: OrderId)
    requires UniqueIds(s) && HasId(s, id)
    ensures RestingOn(s, id) == s[IndexOf(s, id)].remaining
    decreases |s|
  {
    assert forall k :: 0 <= k < |s[1..]| ==> s[1..][k] == s[k + 1];
    if s[0].id == id {
      AbsentRestsNothing(s[1..], id);
    } else {
      PresentRestsItsRemaining(s[1..], id);
    }
  }

  lemma {:induction false} InsertRests(s: seq<Order>, o: Order, id: OrderId)
    ensures RestingOn(Insert(s, o), id) == RestingOn(s, id) + if o.id == id then o.remaining else 0
    decreases |s|
  {
    if s == [] || Rank(o.side, o.price) < Rank(s[0].side, s[0].price) {
      assert ([o] + s)[1..] == s;
    } else {
      InsertRests(s[1..], o, id);
      assert Insert(s, o)[1..] == Insert(s[1..], o);
    }
  }

  lemma {:induction false} RemoveRests(s: seq<Order>, target: OrderId, id: OrderId)
    requires UniqueIds(s)
    ensures RestingOn(Remove(s, target), id) == if target == id then 0 else RestingOn(s, id)
    decreases |s|
  {
    if s != [] {
      if s[0].id == target {
        if target == id {
          AbsentRestsNothing(s[1..], id);
        }
      } else {
        RemoveRests(s[1..], target, id);
        assert Remove(s, target)[1..] == Remove(s[1..], target);
      }
    }
  }

  lemma {:induction false} SetRemainingRests(s: seq<Order>, target: OrderId, n: Quantity, id: OrderId)
    requires UniqueIds(s)
    ensures RestingOn(SetRemaining(s, target, n), id) ==
            if target == id && HasId(s, id) then n else RestingOn(s, id)
    decreases |s|
  {
    if s != [] {
      var r := SetRemaining(s, target, n);
      assert forall k :: 0 <= k < |s[1..]| ==> s[1..][k] == s[k + 1];
      assert HasId(s, id) <==> s[0].id == id || HasId(s[1..], id) by {
        if HasId(s, id) {
          var k :| 0 <= k < |s| && s[k].id == id;
          assert k > 0 ==> s[1..][k - 1].id == id;
        }
      }
      if s[0].id == target {
        assert r[1..] == s[1..];
        if target == id {
          AbsentRestsNothing(s[1..], id);
        }
      } else {
        SetRemainingRests(s[1..], target, n, id);
        assert r[1..] == SetRemaining(s[1..], target, n);
      }
    }
  }

  /** A sweep moves shares off the opposite side exactly as its tape says. */
  lemma {:induction false} SweepMovesShares(opp: seq<Order>, taker: Order, id: OrderId)
    ensures var r := Sweep(opp, taker);
            && (id != taker.id ==> RestingOn(opp, id) == RestingOn(r.rest, id) + TradedBy(r.trades, id))
    decreases |opp|
  {
    if !Stops(opp, taker) {
      var t := Sweep(opp, taker).trades;
      if opp[0].remaining <= taker.remaining {
        SweepMovesShares(opp[1..], After(taker, opp[0]), id);
        assert t[1..] == Sweep(opp[1..], After(taker, opp[0])).trades;
      } else {
        assert t[1..] == [];
        assert Sweep(opp, taker).rest[1..] == opp[1..];
      }
    }
  }

  /** The taker's own tape is the volume it filled. */
  lemma {:induction false} TakerTape(opp: seq<Order>, taker: Order)
    requires !HasId(opp, taker.id)
    ensures TradedBy(Sweep(opp, taker).trades, taker.id) == Volume(Sweep(opp, taker).trades)
    decreases |opp|
  {
    if !Stops(opp, taker) {
      assert opp[0].id != taker.id;
      assert forall k :: 0 <= k < |opp[1..]| ==> opp[1..][k] == opp[k + 1];
      var t := Sweep(opp, taker).trades;
      if opp[0].remaining <= taker.remaining {
        TakerTape(opp[1..], After(taker, opp[0]));
        assert t[1..] == Sweep(opp[1..], After(taker, opp[0])).trades;
      } else {
        assert t[1..] == [];
      }
    }
  }

  // ---- One operation ----

  lemma {:induction false} SubmitConserves(b: Book, op: Op, id: OrderId)
    requires MarketOk(b) && op.Submit? && Acceptable(op.kind, op.price, op.quantity)
    ensures var s := SubmitTo(b, op);
            Resting(b, id) + Entered(b, op, id) ==
            Resting(s.book, id) + TradedBy(s.reply.trades, id) + Shed(b, op, id)
  {
    var opp, taker, r := b.Of(op.side.Opposite()), Taker(b, op), SweepOf(b, op);
    var own := b.Of(op.side);
    SweepVolume(opp, taker);
    InsertRests(own, Settle(r.taker), id);
    if id == b.nextId {
      TakerTape(opp, taker);
      SweptKeepsSide(opp, taker, op.side.Opposite(), b.nextId);
      AbsentRestsNothing(r.rest, id);
      AbsentRestsNothing(opp, id);
      AbsentRestsNothing(own, id);
    } else {
      SweepMovesShares(opp, taker, id);
    }
  }

  lemma {:induction false} FoundRests(b: Book, id: OrderId)
    requires MarketOk(b)
    ensures Resting(b, id) == if b.Has(id) then Find(b, id).remaining else 0
  {
    if HasId(b.bids, id) {
      PresentRestsItsRemaining(b.bids, id);
      AbsentRestsNothing(b.asks, id);
    } else {
      AbsentRestsNothing(b.bids, id);
      if HasId(b.asks, id) {
        PresentRestsItsRemaining(b.asks, id);
      } else {
        AbsentRestsNothing(b.asks, id);
      }
    }
  }

  lemma {:induction false} WithdrawConserves(b: Book, op: Op, id: OrderId)
    requires MarketOk(b) && !op.Submit?
    ensures Resting(b, id) == Resting(Step(b, op).book, id) + Shed(b, op, id)
  {
    FoundRests(b, id);
    RemoveRests(b.bids, op.id, id);
    RemoveRests(b.asks, op.id, id);
    if !HasId(b.bids, id) {
      AbsentRestsNothing(b.bids, id);
    }
    if !HasId(b.asks, id) {
      AbsentRestsNothing(b.asks, id);
    }
    if op.Reduce? {
      SetRemainingRests(b.bids, op.id, op.newQuantity, id);
      SetRemainingRests(b.asks, op.id, op.newQuantity, id);
    }
  }

  lemma {:induction false} StepConserves(b: Book, op: Op, id: OrderId)
    requires MarketOk(b)
    ensures Resting(b, id) + Entered(b, op, id) ==
            Resting(Step(b, op).book, id) + TradedBy(Step(b, op).reply.Trades(), id) + Shed(b, op, id)
  {
    if !op.Submit? {
      WithdrawConserves(b, op, id);
    } else if Acceptable(op.kind, op.price, op.quantity) {
      SubmitConserves(b, op, id);
    }
  }

  lemma {:induction false} RunConserves(b: Book, ops: seq<Op>, id: OrderId)
    requires MarketOk(b)
    ensures Resting(b, id) + EnteredIn(b, ops, id) ==
            Resting(Run(b, ops), id) + TradedIn(b, ops, id) + ShedIn(b, ops, id)
    decreases ops
  {
    if ops != [] {
      var next := Step(b, ops[0]);
      StepKeepsMarket(b, ops[0]);
      StepConserves(b, ops[0], id);
      RunConserves(next.book, ops[1..], id);
      TradedConcat(next.reply.Trades(), TradesOf(Replies(next.book, ops[1..])), id);
      assert Replies(b, ops)[1..] == Replies(next.book, ops[1..]);
    }
  }

  /** Once issued, an id brings in nothing more. */
  lemma {:induction false} NothingEntersAgain(b: Book, ops: seq<Op>, id: OrderId)
    requires id < b.nextId
    ensures EnteredIn(b, ops, id) == 0
    decreases ops
  {
    hide Step;
    if ops != [] {
      NextIdSteps(b, ops[0]);
      NothingEntersAgain(Step(b, ops[0]).book, ops[1..], id);
    }
  }

  /** What ever enters for an order is the quantity it was submitted with. */
  lemma {:induction false} EntersOnce(b: Book, ops: seq<Op>, j: nat)
    requires b.nextId > 0 && j < |ops| && Accepts(ops[j])
    ensures var r := Replies(b, ops);
            |r| == |ops| && r[j].Submitted? && EnteredIn(b, ops, r[j].id) == ops[j].quantity
    decreases ops
  {
    hide Step;
    RepliesLength(b, ops);
    NextIdSteps(b, ops[0]);
    var b' := Step(b, ops[0]).book;
    if j == 0 {
      NothingEntersAgain(b', ops[1..], b.nextId);
    } else {
      EntersOnce(b', ops[1..], j - 1);
      IdsFromNext(b', ops[1..], j - 1);
      assert Replies(b, ops)[j] == Replies(b', ops[1..])[j - 1];
    }
  }

  /** The ledger: on every run, the quantity of every accepted order is what it traded, what still
      rests and what it shed. */
  lemma {:induction false} EveryShareAccountedFor(ops: seq<Op>, j: nat)
    requires j < |ops| && Accepts(ops[j])
    ensures var r := Replies(EMPTY, ops);
            && |r| == |ops| && r[j].Submitted? && r[j].id > 0
            && var id := r[j].id;
               ops[j].quantity == TradedIn(EMPTY, ops, id) + Resting(Run(EMPTY, ops), id) + ShedIn(EMPTY, ops, id)
  {
    EntersOnce(EMPTY, ops, j);
    IdsFromNext(EMPTY, ops, j);
    RunConserves(EMPTY, ops, Replies(EMPTY, ops)[j].id);
  }

  // ---- What `filled_qty` counts ----

  /** A resting order was there before, with the same size and status, or has just entered. */
  lemma {:induction false} SizeOfRested(b: Book, op: Op, o: Order)
    requires MarketOk(b)
    requires var b' := Step(b, op).book; o in b'.bids || o in b'.asks
    ensures if b.Has(o.id) then o.id < b.nextId && SameOrder(Find(b, o.id), o)
            else Accepts(op) && o.id == b.nextId && Entered(b, op, o.id) == o.quantity && o == Settle(SweepOf(b, op).taker)
  {
    var b' := Step(b, op).book;
    if !op.Submit? {
      WithdrawShrinks(b, op);
      SizeWithin(b, b'.bids, b.bids, o);
      SizeWithin(b, b'.asks, b.asks, o);
    } else if !Acceptable(op.kind, op.price, op.quantity) {
      SelfWithin(b.bids);
      SelfWithin(b.asks);
      SizeWithin(b, b.bids, b.bids, o);
      SizeWithin(b, b.asks, b.asks, o);
    } else {
      SizeOfSubmitted(b, op, o);
    }
  }

  lemma {:induction false} SizeOfSubmitted(b: Book, op: Op, o: Order)
    requires MarketOk(b) && op.Submit? && Acceptable(op.kind, op.price, op.quantity)
    requires var b' := SubmitTo(b, op).book; o in b'.bids || o in b'.asks
    ensures if b.Has(o.id) then o.id < b.nextId && SameOrder(Find(b, o.id), o)
            else o.id == b.nextId && o.quantity == op.quantity && o == Settle(SweepOf(b, op).taker)
  {
    hide MarketOk, Insert, Within, Sweep;
    var opp, own, taker, r := b.Of(op.side.Opposite()), b.Of(op.side), Taker(b, op), SweepOf(b, op);
    SweptWithin(b, op);
    SweepVolume(opp, taker);
    SelfWithin(own);
    SizeWithin(b, r.rest, opp, o);
    SizeWithin(b, own, own, o);
    NewestIsNew(b);
    InsertedIs(own, Settle(r.taker), o);
  }

  lemma {:induction false} InsertedIs(s: seq<Order>, newcomer: Order, o: Order)
    ensures o in Insert(s, newcomer) ==> o == newcomer || o in s
  {
    var k := InsertShape(s, newcomer);
  }

  lemma {:induction false} NewestIsNew(b: Book)
    requires MarketOk(b)
    ensures !b.Has(b.nextId)
  {
  }

  lemma {:induction false} SizeWithin(b: Book, s': seq<Order>, s: seq<Order>, o: Order)
    requires MarketOk(b) && (s == b.bids || s == b.asks) && Within(s', s)
    ensures o in s' ==> b.Has(o.id) && o.id < b.nextId && SameOrder(Find(b, o.id), o)
  {
    if o in s' {
      var i :| 0 <= i < |s'| && s'[i] == o;
      assert NamedIn(s'[i], s);
      var k :| 0 <= k < |s| && SameOrder(s[k], o);
      FoundIs(b, s, k);
    }
  }

  lemma {:induction false} FoundIs(b: Book, s: seq<Order>, k: nat)
    requires MarketOk(b) && (s == b.bids || s == b.asks) && k < |s|
    ensures b.Has(s[k].id) && s[k].id < b.nextId && Find(b, s[k].id) == s[k]
  {
    assert HasId(s, s[k].id);
  }

  lemma {:induction false} SizeIsEntered(b: Book, ops: seq<Op>, o: Order)
    requires MarketOk(b)
    requires var b' := Run(b, ops); o in b'.bids || o in b'.asks
    ensures if b.Has(o.id) then o.quantity == Find(b, o.id).quantity && EnteredIn(b, ops, o.id) == 0
            else o.quantity == EnteredIn(b, ops, o.id)
    decreases ops
  {
    hide Step, MarketOk;
    if ops == [] {
      var s := if o in b.bids then b.bids else b.asks;
      var k :| 0 <= k < |s| && s[k] == o;
      FoundIs(b, s, k);
    } else {
      var b1 := Step(b, ops[0]).book;
      StepKeepsMarket(b, ops[0]);
      SizeIsEntered(b1, ops[1..], o);
      if b1.Has(o.id) {
        var o1 := Find(b1, o.id);
        assert o1 in b1.bids || o1 in b1.asks;
        SizeOfRested(b, ops[0], o1);
      } else {
        DepartedOrNew(b, ops, o);
      }
      if b.Has(o.id) {
        NewestIsNew(b);
      }
    }
  }

  /** An order that was not on the book after the first call entered later. */
  lemma {:induction false} DepartedOrNew(b: Book, ops: seq<Op>, o: Order)
    requires MarketOk(b) && ops != [] && !Step(b, ops[0]).book.Has(o.id)
    requires var b' := Run(b, ops); o in b'.bids || o in b'.asks
    ensures !b.Has(o.id) && Entered(b, ops[0], o.id) == 0
  {
    var b1 := Step(b, ops[0]).book;
    StepKeepsMarket(b, ops[0]);
    NextIdSteps(b, ops[0]);
    var s := if o in Run(b, ops).bids then Run(b, ops).bids else Run(b, ops).asks;
    var k :| 0 <= k < |s| && s[k] == o;
    assert HasId(s, o.id);
    if o.id < b1.nextId {
      DepartedStaysGone(b1, ops[1..], o.id);
      assert false;
    }
    if b.Has(o.id) {
      KnownIdsAreOld(b, o.id);
    }
  }

  lemma {:induction false} KnownIdsAreOld(b: Book, id: OrderId)
    requires MarketOk(b) && b.Has(id)
    ensures id < b.nextId
  {
    var s := if HasId(b.bids, id) then b.bids else b.asks;
    var k :| 0 <= k < |s| && s[k].id == id;
    FoundIs(b, s, k);
  }

  ghost predicate Rests(b: Book, o: Order) {
    o in b.bids || o in b.asks
  }

  lemma {:induction false} RestsIsFound(b: Book, o: Order)
    requires MarketOk(b) && Rests(b, o)
    ensures b.Has(o.id) && Find(b, o.id) == o && 0 < o.id < b.nextId && 0 < o.remaining <= o.quantity
  {
    var s := if o in b.bids then b.bids else b.asks;
    var k :| 0 <= k < |s| && s[k] == o;
    FoundIs(b, s, k);
    assert Live(s[k], if o in b.bids then Buy else Sell, b.nextId);
  }

  /** `filled_qty` of a resting order is what it traded plus what reductions took off it; so it is the
      traded quantity exactly if the order was never reduced. */
  lemma {:induction false} FilledQtyCountsReductions(ops: seq<Op>, o: Order)
    requires Rests(Run(EMPTY, ops), o)
    ensures o.FilledQty() == TradedIn(EMPTY, ops, o.id) + ShedIn(EMPTY, ops, o.id)
    ensures o.FilledQty() == TradedIn(EMPTY, ops, o.id) <==> ShedIn(EMPTY, ops, o.id) == 0
  {
    hide MarketOk, Run, TradedIn, ShedIn, EnteredIn, Find;
    EmptyIsMarket();
    RunKeepsMarket(EMPTY, ops);
    RunConserves(EMPTY, ops, o.id);
    SizeIsEntered(EMPTY, ops, o);
    FoundRests(Run(EMPTY, ops), o.id);
    RestsIsFound(Run(EMPTY, ops), o);
  }

  /** An order of 10, reduced to 4: six shares count as filled, none has traded. */
  lemma {:induction false} ReducedCountsAsFilled()
    ensures var ops, o := [Submit(Sell, Limit, 1, 10), Reduce(1, 4)], Order(1, Sell, Limit, 1, 10, 4, Accepted);
            && Run(EMPTY, ops) == Book([], [o], 2)
            && o.FilledQty() == 6 && TradedIn(EMPTY, ops, 1) == 0
  {
    var sell, cut := Submit(Sell, Limit, 1, 10), Reduce(1, 4);
    var ops, o := [sell, cut], Order(1, Sell, Limit, 1, 10, 10, Accepted);
    var b := Book([], [o], 2);
    assert Insert([], o) == [o];
    assert Step(EMPTY, sell) == Outcome(b, Submitted(1, []));
    assert b.asks[0].id == 1 && HasId(b.asks, 1) && Find(b, 1) == o;
    assert SetRemaining(b.asks, 1, 4) == [o.(remaining := 4)];
    assert Step(b, cut) == Outcome(Book([], [o.(remaining := 4)], 2), Done(true));
    assert ops[1..] == [cut] && ops[1..][1..] == [];
    assert Replies(b, [cut]) == [Done(true)] + Replies(Step(b, cut).book, []);
    assert Replies(EMPTY, ops) == [Submitted(1, []), Done(true)];
    assert TradesOf([Submitted(1, []), Done(true)]) == [];
  }

  // ---- Buys equal sells ----

  /** The side of every order accepted so far. */
  type Registry = map<OrderId, Side>

  function Registered(b: Book, reg: Registry, op: Op): Registry {
    if op.Submit? && Acceptable(op.kind, op.price, op.quantity) then reg[b.nextId := op.side] else reg
  }

  function RegistryAfter(b: Book, reg: Registry, ops: seq<Op>): Registry
    decreases ops
  {
    if ops == [] then reg
    else RegistryAfter(Step(b, ops[0]).book, Registered(b, reg, ops[0]), ops[1..])
  }

  ghost predicate AllOn(s: seq<Order>, reg: Registry, side: Side) {
    forall k :: 0 <= k < |s| ==> s[k].id in reg && reg[s[k].id] == side
  }

  ghost predicate Recorded(b: Book, reg: Registry) {
    && AllOn(b.bids, reg, Buy) && AllOn(b.asks, reg, Sell)
    && forall id :: id in reg ==> id < b.nextId
  }

  /** The buy leg of each trade is a buy order and the sell leg a sell order. */
  ghost predicate LegsOn(trades: seq<Trade>, reg: Registry) {
    forall k :: 0 <= k < |trades| ==>
      && trades[k].buyId in reg && reg[trades[k].buyId] == Buy
      && trades[k].sellId in reg && reg[trades[k].sellId] == Sell
  }

  lemma {:induction false} WithinAllOn(s': seq<Order>, s: seq<Order>, reg: Registry, side: Side)
    requires AllOn(s, reg, side) && Within(s', s)
    ensures AllOn(s', reg, side)
  {
    forall k | 0 <= k < |s'| ensures s'[k].id in reg && reg[s'[k].id] == side {
      assert NamedIn(s'[k], s);
    }
  }

  lemma {:induction false} SubmitRecords(b: Book, reg: Registry, op: Op)
    requires MarketOk(b) && Recorded(b, reg) && op.Submit? && Acceptable(op.kind, op.price, op.quantity)
    ensures var reg' := Registered(b, reg, op);
            Recorded(SubmitTo(b, op).book, reg') && LegsOn(SubmitTo(b, op).reply.trades, reg')
  {
    var reg', opp, own := Registered(b, reg, op), b.Of(op.side.Opposite()), b.Of(op.side);
    var taker, r := Taker(b, op), SweepOf(b, op);
    SweepLegs(opp, taker, reg');
    SweepVolume(opp, taker);
    SweptKeepsSide(opp, taker, op.side.Opposite(), b.nextId);
    WithinAllOn(r.rest, opp, reg', op.side.Opposite());
    InsertAllOn(own, Settle(r.taker), reg', op.side);
  }

  lemma {:induction false} SweepLegs(opp: seq<Order>, taker: Order, reg: Registry)
    requires AllOn(opp, reg, taker.side.Opposite()) && taker.id in reg && reg[taker.id] == taker.side
    ensures LegsOn(Sweep(opp, taker).trades, reg)
  {
    SweepTrades(opp, taker);
  }

  lemma {:induction false} InsertAllOn(s: seq<Order>, o: Order, reg: Registry, side: Side)
    requires AllOn(s, reg, side) && o.id in reg && reg[o.id] == side
    ensures AllOn(Insert(s, o), reg, side)
  {
    var k := InsertShape(s, o);
  }

  lemma {:induction false} StepRecords(b: Book, reg: Registry, op: Op)
    requires MarketOk(b) && Recorded(b, reg)
    ensures var reg' := Registered(b, reg, op);
            Recorded(Step(b, op).book, reg') && LegsOn(Step(b, op).reply.Trades(), reg')
  {
    if op.Submit? {
      if Acceptable(op.kind, op.price, op.quantity) {
        SubmitRecords(b, reg, op);
      }
    } else {
      var b' := Step(b, op).book;
      WithdrawShrinks(b, op);
      WithinAllOn(b'.bids, b.bids, reg, Buy);
      WithinAllOn(b'.asks, b.asks, reg, Sell);
    }
  }

  lemma {:induction false} RunRecords(b: Book, reg: Registry, ops: seq<Op>)
    requires MarketOk(b) && Recorded(b, reg)
    ensures LegsOn(TradesOf(Replies(b, ops)), RegistryAfter(b, reg, ops))
    ensures forall id :: id in reg ==> id in RegistryAfter(b, reg, ops) && RegistryAfter(b, reg, ops)[id] == reg[id]
    ensures forall id :: id in RegistryAfter(b, reg, ops) ==> id < Run(b, ops).nextId
    decreases ops
  {
    if ops != [] {
      var next, reg' := Step(b, ops[0]), Registered(b, reg, ops[0]);
      StepKeepsMarket(b, ops[0]);
      StepRecords(b, reg, ops[0]);
      RunRecords(next.book, reg', ops[1..]);
      assert Replies(b, ops)[1..] == Replies(next.book, ops[1..]);
    }
  }

  /** Everything traded by the orders of one side numbered below n. */
  function TradedOnSide(trades: seq<Trade>, reg: Registry, side: Side, n: nat): nat {
    if n == 0 then 0
    else TradedOnSide(trades, reg, side, n - 1) +
         if n - 1 in reg && reg[n - 1] == side then TradedBy(trades, n - 1) else 0
  }

  lemma {:induction false} OneTradeOnSide(trades: seq<Trade>, reg: Registry, side: Side, n: nat)
    requires trades != [] && LegsOn(trades, reg)
    ensures var leg := if side.Buy? then trades[0].buyId else trades[0].sellId;
            TradedOnSide(trades, reg, side, n) ==
            TradedOnSide(trades[1..], reg, side, n) + if leg < n then trades[0].quantity else 0
    decreases n
  {
    if n > 0 {
      OneTradeOnSide(trades, reg, side, n - 1);
    }
  }

  lemma {:induction false} SideTradesTheVolume(trades: seq<Trade>, reg: Registry, side: Side, n: nat)
    requires LegsOn(trades, reg) && forall id :: id in reg ==> id < n
    ensures TradedOnSide(trades, reg, side, n) == Volume(trades)
    decreases |trades|
  {
    if trades == [] {
      NothingTraded(reg, side, n);
    } else {
      OneTradeOnSide(trades, reg, side, n);
      SideTradesTheVolume(trades[1..], reg, side, n);
    }
  }

  lemma {:induction false} NothingTraded(reg: Registry, side: Side, n: nat)
    ensures TradedOnSide([], reg, side, n) == 0
    decreases n
  {
    if n > 0 {
      NothingTraded(reg, side, n - 1);
    }
  }

  /** Everything the orders of one side fill on a run of one book. */
  function SideFills(ops: seq<Op>, side: Side): nat {
    TradedOnSide(TradesOf(Replies(EMPTY, ops)), RegistryAfter(EMPTY, map[], ops), side, Run(EMPTY, ops).nextId)
  }

  lemma {:induction false} SideFillsTheVolume(ops: seq<Op>, side: Side)
    ensures SideFills(ops, side) == Volume(TradesOf(Replies(EMPTY, ops)))
  {
    RunRecords(EMPTY, map[], ops);
    SideTradesTheVolume(TradesOf(Replies(EMPTY, ops)), RegistryAfter(EMPTY, map[], ops), side, Run(EMPTY, ops).nextId);
  }

  /** The symbols of a run, each once. */
  function Mentioned(calls: seq<Call>): seq<Symbol> {
    if calls == [] then []
    else
      var later := Mentioned(calls[1..]);
      if calls[0].symbol in later then later else [calls[0].symbol] + later
  }

  ghost predicate EachOnce(symbols: seq<Symbol>) {
    forall i, j :: 0 <= i < j < |symbols| ==> symbols[i] != symbols[j]
  }

  lemma {:induction false} MentionsAll(calls: seq<Call>)
    ensures EachOnce(Mentioned(calls))
    ensures forall k :: 0 <= k < |calls| ==> calls[k].symbol in Mentioned(calls)
    decreases |calls|
  {
    if calls != [] {
      MentionsAll(calls[1..]);
      forall k | 0 <= k < |calls| ensures calls[k].symbol in Mentioned(calls) {
        assert k > 0 ==> calls[k] == calls[1..][k - 1];
      }
    }
  }

  /** The volume of the replies to one symbol's calls, added up over symbols. */
  function VolumeOver(symbols: seq<Symbol>, calls: seq<Call>, replies: seq<Reply>): nat
    requires |calls| == |replies|
  {
    if symbols == [] then 0
    else Volume(TradesOf(RepliesOn(calls, replies, symbols[0]))) + VolumeOver(symbols[1..], calls, replies)
  }

  lemma {:induction false} OneCallOver(symbols: seq<Symbol>, calls: seq<Call>, replies: seq<Reply>)
    requires |calls| == |replies| && calls != [] && EachOnce(symbols)
    ensures VolumeOver(symbols, calls, replies) ==
            VolumeOver(symbols, calls[1..], replies[1..]) + if calls[0].symbol in symbols then Volume(replies[0].Trades()) else 0
    decreases |symbols|
  {
    if symbols != [] {
      OneCallOver(symbols[1..], calls, replies);
      var own, later := RepliesOn(calls, replies, symbols[0]), RepliesOn(calls[1..], replies[1..], symbols[0]);
      if calls[0].symbol == symbols[0] {
        assert own[1..] == later;
        VolumeConcat(replies[0].Trades(), TradesOf(later));
      } else {
        assert own == later;
      }
    }
  }

  lemma {:induction false} VolumeBySymbol(symbols: seq<Symbol>, calls: seq<Call>, replies: seq<Reply>)
    requires |calls| == |replies| && EachOnce(symbols)
    requires forall k :: 0 <= k < |calls| ==> calls[k].symbol in symbols
    ensures VolumeOver(symbols, calls, replies) == Volume(TradesOf(replies))
    decreases |calls|
  {
    if calls == [] {
      NoVolumeOver(symbols);
    } else {
      OneCallOver(symbols, calls, replies);
      VolumeBySymbol(symbols, calls[1..], replies[1..]);
      VolumeConcat(replies[0].Trades(), TradesOf(replies[1..]));
    }
  }

  lemma {:induction false} NoVolumeOver(symbols: seq<Symbol>)
    ensures VolumeOver(symbols, [], []) == 0
    decreases |symbols|
  {
    if symbols != [] {
      NoVolumeOver(symbols[1..]);
    }
  }

  /** All fills of one side, over all symbols of an engine run. */
  function SideFillsOver(symbols: seq<Symbol>, calls: seq<Call>, side: Side): nat {
    if symbols == [] then 0
    else SideFills(OpsOn(calls, symbols[0]), side) + SideFillsOver(symbols[1..], calls, side)
  }

  lemma {:induction false} FillsAreVolume(symbols: seq<Symbol>, calls: seq<Call>, side: Side)
    ensures |AllReplies(NEW_VENUE, calls)| == |calls|
    ensures SideFillsOver(symbols, calls, side) == VolumeOver(symbols, calls, AllReplies(NEW_VENUE, calls))
    decreases |symbols|
  {
    ReplyPerCall(NEW_VENUE, calls);
    if symbols != [] {
      SymbolsAreIndependent(NEW_VENUE, calls, symbols[0]);
      SideFillsTheVolume(OpsOn(calls, symbols[0]), side);
      FillsAreVolume(symbols[1..], calls, side);
    }
  }

  /** On every engine run the fills of all buy orders of all symbols, and those of all sell orders,
      both add up to the engine's total volume. */
  lemma {:induction false} BuysEqualSellsEqualVolume(calls: seq<Call>, side: Side)
    ensures SideFillsOver(Mentioned(calls), calls, side) == RunAll(NEW_VENUE, calls).stats.volume
  {
    var symbols, replies := Mentioned(calls), AllReplies(NEW_VENUE, calls);
    MentionsAll(calls);
    FillsAreVolume(symbols, calls, side);
    VolumeBySymbol(symbols, calls, replies);
    StatsDescribeRun(NEW_VENUE, calls);
    assert [] + TradesOf(replies) == TradesOf(replies);
  }
}
