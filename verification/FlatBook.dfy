/** The reference book: each side is one plain list of resting orders, best first.
    The operations are stated on these lists, with no price levels, index or pool. */
module FlatBook {
  import opened Types

  /** Position of a price in a side's preference order; lower is better for the taker. */
  function Rank(side: Side, price: Price): int {
    if side.Buy? then -price else price
  }

  /** Price-time priority between two orders of one side. */
  predicate Ahead(a: Order, b: Order) {
    var ra, rb := Rank(a.side, a.price), Rank(b.side, b.price);
    ra < rb || (ra == rb && a.id < b.id)
  }

  predicate Crosses(taker: Order, resting: Order) {
    if taker.side.Buy? then taker.price >= resting.price else taker.price <= resting.price
  }

  datatype Book = Book(bids: seq<Order>, asks: seq<Order>, nextId: OrderId) {
    function Of(side: Side): seq<Order> {
      if side.Buy? then bids else asks
    }

    function With(side: Side, orders: seq<Order>): Book {
      if side.Buy? then this.(bids := orders) else this.(asks := orders)
    }

    predicate Has(id: OrderId) {
      HasId(bids, id) || HasId(asks, id)
    }
  }

  const EMPTY := Book([], [], 1)

  predicate HasId(s: seq<Order>, id: OrderId) {
    exists k :: 0 <= k < |s| && s[k].id == id
  }

  function IndexOf(s: seq<Order>, id: OrderId): (k: nat)
    requires HasId(s, id)
    ensures k < |s| && s[k].id == id
  {
    if s[0].id == id then 0 else 1 + IndexOf(s[1..], id)
  }

  /** Places an order behind every order of the same or a better price. */
  function Insert(s: seq<Order>, o: Order): seq<Order> {
    if s == [] || Rank(o.side, o.price) < Rank(s[0].side, s[0].price) then [o] + s
    else [s[0]] + Insert(s[1..], o)
  }

  function Remove(s: seq<Order>, id: OrderId): seq<Order> {
    if s == [] then []
    else if s[0].id == id then s[1..]
    else [s[0]] + Remove(s[1..], id)
  }

  /** Sets the remaining quantity of the order called `id`. */
  function SetRemaining(s: seq<Order>, id: OrderId, n: Quantity): seq<Order> {
    if s == [] then []
    else if s[0].id == id then [s[0].(remaining := n)] + s[1..]
    else [s[0]] + SetRemaining(s[1..], id, n)
  }

  /** Shares resting on a side. */
  function Total(s: seq<Order>): nat {
    if s == [] then 0 else s[0].remaining + Total(s[1..])
  }

  // ---- Matching ----

  /** The record of a fill; the price is always the resting order's. */
  function Execution(taker: Order, resting: Order, fill: Quantity): Trade {
    if taker.side.Buy? then Trade(taker.id, resting.id, resting.price, fill)
    else Trade(resting.id, taker.id, resting.price, fill)
  }

  datatype Swept = Swept(trades: seq<Trade>, rest: seq<Order>, taker: Order)

  /** Matches a taker against the opposite side, head first. */
  function Sweep(opp: seq<Order>, taker: Order): Swept {
    if taker.remaining == 0 || opp == [] || !Crosses(taker, opp[0]) then Swept([], opp, taker)
    else
      var fill := Min(taker.remaining, opp[0].remaining);
      var taker' := taker.(remaining := taker.remaining - fill);
      var trade := Execution(taker, opp[0], fill);
      if fill == opp[0].remaining then
        var more := Sweep(opp[1..], taker');
        Swept([trade] + more.trades, more.rest, more.taker)
      else
        Swept([trade], [opp[0].(remaining := opp[0].remaining - fill)] + opp[1..], taker')
  }

  /** The taker's status once matching stops. */
  function Settle(taker: Order): Order {
    if taker.IsFilled() then taker.(status := Filled)
    else if taker.FilledQty() > 0 then taker.(status := PartiallyFilled)
    else taker
  }

  // ---- Operations ----

  /** A market order is priced to cross everything on the other side. */
  function EffectivePrice(side: Side, kind: OrderType, price: Price): Price {
    if kind.Market? then (if side.Buy? then MAX_PRICE else 0) else price
  }

  predicate Acceptable(kind: OrderType, price: Price, quantity: Quantity) {
    quantity != 0 && !(kind.Limit? && price <= 0)
  }

  function NewOrder(id: OrderId, side: Side, kind: OrderType, price: Price, quantity: Quantity): Order {
    Order(id, side, kind, EffectivePrice(side, kind, price), quantity, quantity, Accepted)
  }

  datatype Op =
    | Submit(side: Side, kind: OrderType, price: Price, quantity: Quantity)
    | Cancel(id: OrderId)
    | Reduce(id: OrderId, newQuantity: Quantity)

  /** What a call returns: the assigned id (0 if rejected) and the trades, or a success flag. */
  datatype Reply = Submitted(id: OrderId, trades: seq<Trade>) | Done(ok: bool) {
    function Trades(): seq<Trade> {
      if Submitted? then trades else []
    }
  }

  datatype Outcome = Outcome(book: Book, reply: Reply)

  /** The order a submission puts up for matching, and how its sweep ends. */
  function Taker(b: Book, op: Op): Order
    requires op.Submit?
  {
    NewOrder(b.nextId, op.side, op.kind, op.price, op.quantity)
  }

  function SweepOf(b: Book, op: Op): Swept
    requires op.Submit?
  {
    Sweep(b.Of(op.side.Opposite()), Taker(b, op))
  }

  /** Match first, then rest the remainder of a limit order. */
  function SubmitTo(b: Book, op: Op): Outcome
    requires op.Submit?
  {
    if !Acceptable(op.kind, op.price, op.quantity) then Outcome(b, Submitted(0, []))
    else
      var r := SweepOf(b, op);
      var b' := b.With(op.side.Opposite(), r.rest).(nextId := b.nextId + 1);
      var own := b.Of(op.side);
      var rests := r.taker.remaining > 0 && op.kind.Limit?;
      Outcome(b'.With(op.side, if rests then Insert(own, Settle(r.taker)) else own),
              Submitted(b.nextId, r.trades))
  }

  function CancelIn(b: Book, id: OrderId): Outcome {
    Outcome(Book(Remove(b.bids, id), Remove(b.asks, id), b.nextId), Done(b.Has(id)))
  }

  function Find(b: Book, id: OrderId): (o: Order)
    requires b.Has(id)
    ensures o.id == id
  {
    if HasId(b.bids, id) then b.bids[IndexOf(b.bids, id)] else b.asks[IndexOf(b.asks, id)]
  }

  function ReduceIn(b: Book, id: OrderId, n: Quantity): Outcome {
    if !b.Has(id) || n >= Find(b, id).remaining then Outcome(b, Done(false))
    else if n == 0 then CancelIn(b, id)
    else Outcome(Book(SetRemaining(b.bids, id, n), SetRemaining(b.asks, id, n), b.nextId), Done(true))
  }

  function Step(b: Book, op: Op): Outcome {
    match op
    case Submit(_, _, _, _) => SubmitTo(b, op)
    case Cancel(id) => CancelIn(b, id)
    case Reduce(id, n) => ReduceIn(b, id, n)
  }

  // ---- Whole runs ----

  function Run(b: Book, ops: seq<Op>): Book
    decreases ops
  {
    if ops == [] then b else Run(Step(b, ops[0]).book, ops[1..])
  }

  /** The replies of a run, one per operation. */
  function Replies(b: Book, ops: seq<Op>): seq<Reply>
    decreases ops
  {
    if ops == [] then []
    else [Step(b, ops[0]).reply] + Replies(Step(b, ops[0]).book, ops[1..])
  }

  function TradesOf(replies: seq<Reply>): seq<Trade> {
    if replies == [] then [] else replies[0].Trades() + TradesOf(replies[1..])
  }

  lemma {:induction false} RunSnoc(b: Book, ops: seq<Op>, op: Op)
    ensures Run(b, ops + [op]) == Step(Run(b, ops), op).book
    ensures Replies(b, ops + [op]) == Replies(b, ops) + [Step(Run(b, ops), op).reply]
    decreases ops
  {
    if ops == [] {
      assert ops + [op] == [op];
    } else {
      assert (ops + [op])[1..] == ops[1..] + [op];
      RunSnoc(Step(b, ops[0]).book, ops[1..], op);
    }
  }
}
