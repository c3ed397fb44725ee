/** The invariant every engine call keeps: an uncrossed book of live limit orders in strict
    price-time order. */
module Market {
  import opened Types
  import opened FlatBook
  import opened Sweeping

  predicate Live(o: Order, side: Side, nextId: OrderId) {
    && o.side == side && o.kind.Limit? && o.price > 0
    && 0 < o.remaining <= o.quantity && 0 < o.id < nextId
  }

  ghost predicate SideOk(s: seq<Order>, side: Side, nextId: OrderId) {
    && Sorted(s)
    && forall k :: 0 <= k < |s| ==> Live(s[k], side, nextId)
  }

  ghost predicate Uncrossed(bids: seq<Order>, asks: seq<Order>) {
    forall i, j :: 0 <= i < |bids| && 0 <= j < |asks| ==> bids[i].price < asks[j].price
  }

  ghost predicate DistinctIds(bids: seq<Order>, asks: seq<Order>) {
    forall i, j :: 0 <= i < |bids| && 0 <= j < |asks| ==> bids[i].id != asks[j].id
  }

  ghost predicate MarketOk(b: Book) {
    && b.nextId > 0
    && SideOk(b.bids, Buy, b.nextId) && SideOk(b.asks, Sell, b.nextId)
    && UniqueIds(b.bids) && UniqueIds(b.asks)
    && DistinctIds(b.bids, b.asks)
    && Uncrossed(b.bids, b.asks)
  }

  // ---- The list operations keep a side in order ----

  /** An order goes behind everything at least as good and in front of everything worse. */
  lemma {:induction false} InsertShape(s: seq<Order>, o: Order) returns (k: nat)
    ensures k <= |s| && Insert(s, o) == s[..k] + [o] + s[k..]
    ensures forall i :: 0 <= i < k ==> Rank(s[i].side, s[i].price) <= Rank(o.side, o.price)
    ensures k < |s| ==> Rank(o.side, o.price) < Rank(s[k].side, s[k].price)
    decreases |s|
  {
    if s == [] || Rank(o.side, o.price) < Rank(s[0].side, s[0].price) {
      k := 0;
    } else {
      k := InsertShape(s[1..], o);
      k := k + 1;
      assert s[..k] == [s[0]] + s[1..][..k - 1] && s[k..] == s[1..][k - 1..];
    }
  }

  /** A newcomer has the largest id, so it goes last among equals and the side stays sorted. */
  lemma {:induction false} InsertKeepsSide(s: seq<Order>, o: Order, side: Side, nextId: OrderId) returns (k: nat)
    requires SideOk(s, side, nextId) && UniqueIds(s)
    requires Live(o, side, nextId + 1) && o.id == nextId
    ensures k <= |s| && Insert(s, o) == s[..k] + [o] + s[k..]
    ensures SideOk(Insert(s, o), side, nextId + 1) && UniqueIds(Insert(s, o))
  {
    k := InsertShape(s, o);
    SplicedKeepsSide(s, k, o, side, nextId);
  }

  lemma {:induction false} SplicedKeepsSide(s: seq<Order>, k: nat, o: Order, side: Side, nextId: OrderId)
    requires SideOk(s, side, nextId) && UniqueIds(s) && k <= |s|
    requires Live(o, side, nextId + 1) && o.id == nextId
    requires forall i :: 0 <= i < k ==> Rank(s[i].side, s[i].price) <= Rank(o.side, o.price)
    requires k < |s| ==> Rank(o.side, o.price) < Rank(s[k].side, s[k].price)
    ensures SideOk(s[..k] + [o] + s[k..], side, nextId + 1) && UniqueIds(s[..k] + [o] + s[k..])
  {
    var r := s[..k] + [o] + s[k..];
    forall i | 0 <= i < |s| ensures Live(s[i], side, nextId + 1) && s[i].id != o.id
      ensures if i < k then Ahead(s[i], o) else Ahead(o, s[i])
    {
      assert Live(s[i], side, nextId);
      assert k < i ==> Ahead(s[k], s[i]);
    }
    forall i, j | 0 <= i < j < |r| ensures Ahead(r[i], r[j]) && r[i].id != r[j].id {
      var i', j' := if i < k then i else i - 1, if j < k then j else j - 1;
      assert i != k ==> r[i] == s[i'];
      assert j != k ==> r[j] == s[j'];
    }
  }

  lemma {:induction false} RemoveShape(s: seq<Order>, id: OrderId)
    requires UniqueIds(s)
    ensures !HasId(s, id) ==> Remove(s, id) == s
    ensures HasId(s, id) ==>
              var k := IndexOf(s, id); Remove(s, id) == s[..k] + s[k + 1..]
    ensures !HasId(Remove(s, id), id)
    decreases |s|
  {
    if s != [] && s[0].id != id {
      RemoveShape(s[1..], id);
      assert HasId(s[1..], id) <==> HasId(s, id) by {
        if HasId(s, id) {
          var k :| 0 <= k < |s| && s[k].id == id;
          assert s[1..][k - 1].id == id;
        }
      }
    }
  }

  lemma {:induction false} SetRemainingShape(s: seq<Order>, id: OrderId, n: Quantity)
    ensures !HasId(s, id) ==> SetRemaining(s, id, n) == s
    ensures HasId(s, id) ==>
              var k := IndexOf(s, id); SetRemaining(s, id, n) == s[k := s[k].(remaining := n)]
    decreases |s|
  {
    if s != [] && s[0].id != id {
      SetRemainingShape(s[1..], id, n);
      assert HasId(s[1..], id) <==> HasId(s, id) by {
        if HasId(s, id) {
          var k :| 0 <= k < |s| && s[k].id == id;
          assert s[1..][k - 1].id == id;
        }
      }
    }
  }

  // ---- Every operation keeps the invariant ----

  /** The same order, whatever remains of it. */
  ghost predicate SameOrder(a: Order, b: Order) {
    a.id == b.id && a.price == b.price && a.quantity == b.quantity && a.status == b.status
  }

  /** Some order of `s` is the same order. */
  ghost predicate NamedIn(o: Order, s: seq<Order>) {
    exists k :: 0 <= k < |s| && SameOrder(s[k], o)
  }

  /** Nothing new rests: `s'` holds only orders of `s`, perhaps with less remaining. */
  ghost predicate Within(s': seq<Order>, s: seq<Order>) {
    forall k :: 0 <= k < |s'| ==> NamedIn(s'[k], s)
  }

  /** A side that only lost orders, or quantity, and is still in order. */
  ghost predicate Shrunk(s': seq<Order>, s: seq<Order>, side: Side, nextId: OrderId) {
    SideOk(s', side, nextId) && UniqueIds(s') && Within(s', s)
  }

  lemma {:induction false} ShrinkingKeepsApart(bids': seq<Order>, bids: seq<Order>, asks': seq<Order>, asks: seq<Order>)
    requires Within(bids', bids) && Within(asks', asks)
    requires Uncrossed(bids, asks) && DistinctIds(bids, asks)
    ensures Uncrossed(bids', asks') && DistinctIds(bids', asks')
  {
    forall i, j | 0 <= i < |bids'| && 0 <= j < |asks'|
      ensures bids'[i].price < asks'[j].price && bids'[i].id != asks'[j].id
    {
      assert NamedIn(bids'[i], bids) && NamedIn(asks'[j], asks);
    }
  }

  lemma {:induction false} LoosenBound(s: seq<Order>, side: Side, n: OrderId, m: OrderId)
    requires SideOk(s, side, n) && n <= m
    ensures SideOk(s, side, m)
  {
    forall k | 0 <= k < |s| ensures Live(s[k], side, m) {
      assert Live(s[k], side, n);
    }
  }

  lemma {:induction false} ShrinkingKeepsMarket(b: Book, bids: seq<Order>, asks: seq<Order>, n: OrderId)
    requires MarketOk(b) && n >= b.nextId
    requires Shrunk(bids, b.bids, Buy, b.nextId) && Shrunk(asks, b.asks, Sell, b.nextId)
    ensures MarketOk(Book(bids, asks, n))
  {
    ShrinkingKeepsApart(bids, b.bids, asks, b.asks);
    LoosenBound(bids, Buy, b.nextId, n);
    LoosenBound(asks, Sell, b.nextId, n);
  }

  lemma {:induction false} RemoveKeepsSide(s: seq<Order>, id: OrderId, side: Side, nextId: OrderId)
    requires SideOk(s, side, nextId) && UniqueIds(s)
    ensures Shrunk(Remove(s, id), s, side, nextId)
  {
    RemoveShape(s, id);
    if HasId(s, id) {
      var i, r := IndexOf(s, id), Remove(s, id);
      forall k | 0 <= k < |r| ensures NamedIn(r[k], s) {
        assert SameOrder(s[if k < i then k else k + 1], r[k]);
      }
    } else {
      SelfWithin(s);
    }
  }

  lemma {:induction false} ReduceKeepsSide(s: seq<Order>, id: OrderId, n: Quantity, side: Side, nextId: OrderId)
    requires SideOk(s, side, nextId) && UniqueIds(s)
    requires n > 0 && (HasId(s, id) ==> n <= s[IndexOf(s, id)].remaining)
    ensures Shrunk(SetRemaining(s, id, n), s, side, nextId)
  {
    SetRemainingShape(s, id, n);
    var r := SetRemaining(s, id, n);
    forall k | 0 <= k < |r| ensures NamedIn(r[k], s) {
      assert SameOrder(s[k], r[k]);
    }
    forall i, j | 0 <= i < j < |r| ensures Ahead(r[i], r[j]) && r[i].id != r[j].id {
      assert Ahead(s[i], s[j]);
    }
  }

  /** What a sweep leaves is still in order. */
  lemma {:induction false} SweptKeepsSide(opp: seq<Order>, taker: Order, side: Side, nextId: OrderId)
    requires SideOk(opp, side, nextId) && UniqueIds(opp)
    ensures Shrunk(Sweep(opp, taker).rest, opp, side, nextId)
    decreases |opp|
  {
    if Stops(opp, taker) {
      SelfWithin(opp);
    } else if opp[0].remaining <= taker.remaining {
      SweptKeepsSide(opp[1..], After(taker, opp[0]), side, nextId);
      TailWithin(Sweep(opp, taker).rest, opp);
    } else {
      HeadKeepsSide(opp, opp[0].remaining - taker.remaining, side, nextId);
    }
  }

  lemma {:induction false} TailWithin(s': seq<Order>, s: seq<Order>)
    requires s != [] && Within(s', s[1..])
    ensures Within(s', s)
  {
    forall k | 0 <= k < |s'| ensures NamedIn(s'[k], s) {
      assert NamedIn(s'[k], s[1..]);
      var j :| 0 <= j < |s[1..]| && SameOrder(s[1..][j], s'[k]);
      assert s[j + 1] == s[1..][j];
    }
  }

  lemma {:induction false} HeadKeepsSide(s: seq<Order>, n: Quantity, side: Side, nextId: OrderId)
    requires SideOk(s, side, nextId) && UniqueIds(s)
    requires s != [] && 0 < n <= s[0].remaining
    ensures Shrunk([s[0].(remaining := n)] + s[1..], s, side, nextId)
  {
    var r := [s[0].(remaining := n)] + s[1..];
    forall k | 0 <= k < |r| ensures NamedIn(r[k], s) {
      assert SameOrder(s[k], r[k]);
    }
    forall i, j | 0 <= i < j < |r| ensures Ahead(r[i], r[j]) && r[i].id != r[j].id {
      assert Ahead(s[i], s[j]);
    }
  }

  /** A remainder that rests does not cross what is left. */
  lemma {:induction false} RemainderUncrossed(opp: seq<Order>, taker: Order, nextId: OrderId, k: nat)
    requires SideOk(opp, taker.side.Opposite(), nextId) && UniqueIds(opp)
    requires Sweep(opp, taker).taker.remaining > 0 && k < |Sweep(opp, taker).rest|
    ensures !Crosses(taker, Sweep(opp, taker).rest[k])
  {
    SweepRest(opp, taker);
    SweptKeepsSide(opp, taker, taker.side.Opposite(), nextId);
    var rest := Sweep(opp, taker).rest;
    assert k > 0 ==> Ahead(rest[0], rest[k]);
  }

  lemma {:induction false} SelfWithin(s: seq<Order>)
    ensures Within(s, s)
  {
    forall k | 0 <= k < |s| ensures NamedIn(s[k], s) {
      assert SameOrder(s[k], s[k]);
    }
  }

  /** Matching alone keeps the invariant; the taker is on neither side yet. */
  lemma {:induction false} MatchKeepsMarket(b: Book, taker: Order)
    requires MarketOk(b)
    ensures var opp := taker.side.Opposite();
            MarketOk(b.With(opp, Sweep(b.Of(opp), taker).rest).(nextId := b.nextId + 1))
  {
    var opp := taker.side.Opposite();
    var rest := Sweep(b.Of(opp), taker).rest;
    SweptKeepsSide(b.Of(opp), taker, opp, b.nextId);
    if opp.Buy? {
      SelfWithin(b.asks);
      ShrinkingKeepsMarket(b, rest, b.asks, b.nextId + 1);
    } else {
      SelfWithin(b.bids);
      ShrinkingKeepsMarket(b, b.bids, rest, b.nextId + 1);
    }
  }

  /** Resting an order that crosses nothing keeps the invariant. */
  lemma {:induction false} RestKeepsMarket(b: Book, n: OrderId, o: Order)
    requires MarketOk(b) && b.nextId == n + 1 && o.id == n
    requires SideOk(b.bids, Buy, n) && SideOk(b.asks, Sell, n)
    requires Live(o, o.side, n + 1)
    requires forall k :: 0 <= k < |b.Of(o.side.Opposite())| ==> !Crosses(o, b.Of(o.side.Opposite())[k])
    ensures MarketOk(b.With(o.side, Insert(b.Of(o.side), o)))
  {
    var k := InsertKeepsSide(b.Of(o.side), o, o.side, n);
    var opp := b.Of(o.side.Opposite());
    var b' := b.With(o.side, Insert(b.Of(o.side), o));
    forall i, j | 0 <= i < |b'.bids| && 0 <= j < |b'.asks|
      ensures b'.bids[i].price < b'.asks[j].price && b'.bids[i].id != b'.asks[j].id
    {
      if o.side.Buy? {
        assert !Crosses(o, opp[j]);
        assert i != k ==> b'.bids[i] == b.bids[if i < k then i else i - 1];
      } else {
        assert !Crosses(o, opp[i]);
        assert j != k ==> b'.asks[j] == b.asks[if j < k then j else j - 1];
      }
    }
  }

  /** The book once matching stops, before a remainder rests. */
  ghost function Matched(b: Book, op: Op): Book
    requires op.Submit?
  {
    b.With(op.side.Opposite(), SweepOf(b, op).rest).(nextId := b.nextId + 1)
  }

  lemma {:induction false} RemainderRests(b: Book, op: Op)
    requires MarketOk(b) && op.Submit? && op.kind.Limit? && Acceptable(op.kind, op.price, op.quantity)
    requires MarketOk(Matched(b, op)) && SweepOf(b, op).taker.remaining > 0
    ensures MarketOk(Matched(b, op).With(op.side, Insert(b.Of(op.side), Settle(SweepOf(b, op).taker))))
  {
    hide Sweep, Insert, Sorted;
    var opp, taker, r := op.side.Opposite(), Taker(b, op), SweepOf(b, op);
    SweepVolume(b.Of(opp), taker);
    SweptKeepsSide(b.Of(opp), taker, opp, b.nextId);
    forall k | 0 <= k < |r.rest| ensures !Crosses(Settle(r.taker), r.rest[k]) {
      RemainderUncrossed(b.Of(opp), taker, b.nextId, k);
    }
    RestKeepsMarket(Matched(b, op), b.nextId, Settle(r.taker));
  }

  lemma {:induction false} SubmitKeepsMarket(b: Book, op: Op)
    requires MarketOk(b) && op.Submit?
    ensures MarketOk(SubmitTo(b, op).book)
  {
    hide MarketOk, Sweep, Insert, Settle;
    if Acceptable(op.kind, op.price, op.quantity) {
      MatchKeepsMarket(b, Taker(b, op));
      if SweepOf(b, op).taker.remaining > 0 && op.kind.Limit? {
        RemainderRests(b, op);
      }
    }
  }

  lemma {:induction false} CancelKeepsMarket(b: Book, id: OrderId)
    requires MarketOk(b)
    ensures MarketOk(CancelIn(b, id).book)
  {
    RemoveKeepsSide(b.bids, id, Buy, b.nextId);
    RemoveKeepsSide(b.asks, id, Sell, b.nextId);
    ShrinkingKeepsMarket(b, Remove(b.bids, id), Remove(b.asks, id), b.nextId);
  }

  lemma {:induction false} ReduceKeepsMarket(b: Book, id: OrderId, n: Quantity)
    requires MarketOk(b)
    ensures MarketOk(ReduceIn(b, id, n).book)
  {
    if b.Has(id) && 0 < n < Find(b, id).remaining {
      ReduceKeepsSide(b.bids, id, n, Buy, b.nextId);
      ReduceKeepsSide(b.asks, id, n, Sell, b.nextId);
      ShrinkingKeepsMarket(b, SetRemaining(b.bids, id, n), SetRemaining(b.asks, id, n), b.nextId);
    } else {
      CancelKeepsMarket(b, id);
    }
  }

  /** What a sweep leaves rested before. */
  lemma {:induction false} SweptWithin(b: Book, op: Op)
    requires MarketOk(b) && op.Submit?
    ensures Within(SweepOf(b, op).rest, b.Of(op.side.Opposite()))
  {
    SweptKeepsSide(b.Of(op.side.Opposite()), Taker(b, op), op.side.Opposite(), b.nextId);
  }

  /** A cancel or a reduction only takes away. */
  lemma {:induction false} WithdrawShrinks(b: Book, op: Op)
    requires MarketOk(b) && !op.Submit?
    ensures var b' := Step(b, op).book;
            b'.nextId == b.nextId && Within(b'.bids, b.bids) && Within(b'.asks, b.asks)
  {
    hide MarketOk, Within, Remove, SetRemaining, Find;
    CancelShrinks(b, op.id);
    SelfWithin(b.bids);
    SelfWithin(b.asks);
    if op.Reduce? && b.Has(op.id) && 0 < op.newQuantity < Find(b, op.id).remaining {
      CutShrinks(b, op.id, op.newQuantity);
    }
  }

  lemma {:induction false} CancelShrinks(b: Book, id: OrderId)
    requires MarketOk(b)
    ensures Within(Remove(b.bids, id), b.bids) && Within(Remove(b.asks, id), b.asks)
  {
    hide Remove, Within, Sorted;
    RemoveKeepsSide(b.bids, id, Buy, b.nextId);
    RemoveKeepsSide(b.asks, id, Sell, b.nextId);
  }

  lemma {:induction false} CutShrinks(b: Book, id: OrderId, n: Quantity)
    requires MarketOk(b) && b.Has(id) && 0 < n < Find(b, id).remaining
    ensures Within(SetRemaining(b.bids, id, n), b.bids) && Within(SetRemaining(b.asks, id, n), b.asks)
  {
    hide SetRemaining, Within, Sorted;
    ReduceKeepsSide(b.bids, id, n, Buy, b.nextId);
    ReduceKeepsSide(b.asks, id, n, Sell, b.nextId);
  }

  lemma {:induction false} StepKeepsMarket(b: Book, op: Op)
    requires MarketOk(b)
    ensures MarketOk(Step(b, op).book)
  {
    match op
    case Submit(_, _, _, _) => SubmitKeepsMarket(b, op);
    case Cancel(id) => CancelKeepsMarket(b, id);
    case Reduce(id, n) => ReduceKeepsMarket(b, id, n);
  }

  lemma {:induction false} EmptyIsMarket()
    ensures MarketOk(EMPTY)
  {
  }

  /** Between calls, on every run, the book is uncrossed and in price-time order. */
  lemma {:induction false} RunKeepsMarket(b: Book, ops: seq<Op>)
    requires MarketOk(b)
    ensures MarketOk(Run(b, ops))
    decreases ops
  {
    if ops != [] {
      StepKeepsMarket(b, ops[0]);
      RunKeepsMarket(Step(b, ops[0]).book, ops[1..]);
    }
  }

  /** On every run, an accepted order fills exactly the smaller of its size and everything the
      other side offers at an acceptable price. */
  lemma {:induction false} EverySubmitFillsMaximally(ops: seq<Op>, op: Op)
    requires op.Submit? && Acceptable(op.kind, op.price, op.quantity)
    ensures var b := Run(EMPTY, ops);
            var depth := CrossingDepth(b.Of(op.side.Opposite()), Taker(b, op));
            && Step(b, op).reply.id == b.nextId
            && Volume(Step(b, op).reply.trades) == if op.quantity <= depth then op.quantity else depth
  {
    RunKeepsMarket(EMPTY, ops);
    var b := Run(EMPTY, ops);
    SweepFillsMaximally(b.Of(op.side.Opposite()), Taker(b, op));
  }
}
