/** The engine object: one book per symbol, the matching loop, the statistics and the trade callback.
    Each call is proved to be one step of the venue over flat books. */
module MatchingEngines {
  import opened Types
  import opened FlatBook
  import opened Levels
  import opened BookState
  import opened OrderBooks
  import opened Exchange
  import opened ObjectPools
  import opened Submissions
  import opened Sweeping
  import opened Equivalences

  const DEFAULT_POOL_SIZE: nat := 100000

  class MatchingEngine {
    var books: map<Symbol, OrderBook>
    var stats: Stats
    /** The trades handed to the callback so far. */
    var tape: seq<Trade>

    /** The flat book of each symbol. */
    ghost var flat: map<Symbol, Book>

    /** Everything the engine owns. */
    ghost var repr: set<object>

    /** Each symbol has a book and a pool of its own. */
    static ghost predicate Separate(books: map<Symbol, OrderBook>, repr: set<object>) {
      && (forall s :: s in books ==> books[s] in repr && books[s].pool in repr && books[s].symbol == s)
      && forall s, t :: s in books && t in books && s != t ==> books[s].pool != books[t].pool
    }

    /** Every book is in the state its flat book describes. */
    static ghost predicate AllValid(books: map<Symbol, OrderBook>, flat: map<Symbol, Book>, repr: set<object>)
      reads repr
    {
      && Separate(books, repr) && flat.Keys == books.Keys
      && forall s :: s in books ==> books[s].Valid() && books[s].Contents() == flat[s]
    }

    ghost predicate Valid()
      reads this, repr
    {
      this in repr && AllValid(books, flat, repr - {this})
    }

    ghost function Now(): Venue
      reads this
    {
      Venue(flat, stats, tape)
    }

    constructor ()
      ensures Valid() && fresh(repr) && Now() == NEW_VENUE
    {
      books, flat, stats, tape, repr := map[], map[], Stats(0, 0, 0, 0, 0, 0), [], {this};
    }

    /** Finds a symbol's book, creating an empty one on first mention. */
    method GetOrderBook(symbol: Symbol) returns (book: OrderBook)
      requires Valid()
      modifies this`books, this`flat, this`repr
      ensures Valid() && fresh(repr - old(repr))
      ensures symbol in books && books[symbol] == book && book in repr && book.pool in repr
      ensures Now() == old(Now()).(books := old(flat)[symbol := old(Now()).Book(symbol)])
    {
      hide OrderBook.Valid, OrderBook.Contents;
      if symbol !in books {
        book := CreateBook(symbol);
      } else {
        book := books[symbol];
        assert flat[symbol := flat[symbol]] == flat;
      }
    }

    method CreateBook(symbol: Symbol) returns (book: OrderBook)
      requires Valid() && symbol !in books
      modifies this`books, this`flat, this`repr
      ensures Valid() && fresh(repr - old(repr))
      ensures books == old(books)[symbol := book] && flat == old(flat)[symbol := EMPTY]
      ensures book in repr && book.pool in repr
    {
      hide OrderBook.Valid, OrderBook.Contents, OrderBook.Now;
      book := new OrderBook(symbol, DEFAULT_POOL_SIZE);
      ghost var books', flat', repr' := books[symbol := book], flat[symbol := EMPTY], repr + {book, book.pool};
      assert AllValid(books', flat', repr' - {this});
      books := books[symbol := book];
      flat, repr := flat', repr';
    }

    /** One fill between the incoming order and the best resting one. */
    method ExecuteMatch(book: OrderBook, side: Side, incoming: Slot, resting: Slot) returns (trade: Trade)
      requires book.Valid()
      requires incoming in Members(book.Levels(side)) && incoming < |book.pool.storage|
      requires resting in Members(book.Levels(side.Opposite())) && resting < |book.pool.storage|
      requires book.pool.storage[incoming].side == side
      modifies book.pool`storage
      ensures book.Valid() && |book.pool.storage| == |old(book.pool.storage)|
      ensures var t, r := old(book.pool.storage[incoming]), old(book.pool.storage[resting]);
              var fill := Min(t.remaining, r.remaining);
              var t', r' := t.(remaining := t.remaining - fill), r.(remaining := r.remaining - fill);
              && trade == Execution(t, r, fill)
              && incoming != resting && book.Now() == Traded(old(book.Now()), incoming, resting)
              && book.pool.storage[incoming] == t' && book.pool.storage[resting] == r'
              && SideView(book.Now(), side) == Put(old(SideView(book.Now(), side)), t')
              && SideView(book.Now(), side.Opposite()) == Put(old(SideView(book.Now(), side.Opposite())), r')
    {
      hide Wf, SideView, Put, Members;
      SideFacts(book.Now(), side);
      assert incoming != resting;
      var t, r := book.pool.storage[incoming], book.pool.storage[resting];
      var fill := Min(t.remaining, r.remaining);
      book.Write(side, incoming, t.(remaining := t.remaining - fill));
      book.Write(side.Opposite(), resting, r.(remaining := r.remaining - fill));
      trade := if side.Buy? then Trade(t.id, r.id, r.price, fill) else Trade(r.id, t.id, r.price, fill);
    }

    /** An exhausted resting order is marked filled and leaves all four structures. */
    method RetireIfFilled(book: OrderBook, side: Side, slot: Slot)
      requires book.Valid() && slot < |book.pool.storage| && slot in Members(book.Levels(side))
      requires var s := SideView(book.Now(), side); s != [] && s[0] == book.pool.storage[slot]
      modifies book, book.pool
      ensures book.Valid()
      ensures old(book.pool.storage[slot].id) in old(book.orderLookup) && book.Now() == Retired(old(book.Now()), slot)
      ensures SideView(book.Now(), side) ==
              (if old(book.pool.storage[slot]).IsFilled() then old(SideView(book.Now(), side))[1..] else old(SideView(book.Now(), side)))
      ensures SideView(book.Now(), side.Opposite()) == old(SideView(book.Now(), side.Opposite()))
    {
      hide Wf, SideView, Members, Put, Remove, HasId, Removed;
      ghost var before := book.Now();
      SideFacts(before, side);
      if book.pool.storage[slot].IsFilled() {
        book.Write(side, slot, book.pool.storage[slot].(status := Filled));
        ghost var st, gone := book.Now(), book.pool.storage[slot];
        PutHead(SideView(before, side), gone);
        SideFacts(st, side);
        IndexIsView(st, side.Opposite(), gone.id);
        RemoveAbsent(SideView(st, side.Opposite()), gone.id);
        RemoveHead(SideView(st, side));
        book.RemoveOrder(slot);
      }
    }

    /** One turn of the matching loop: a fill, and the resting order leaves if it is exhausted. */
    method MatchOnce(book: OrderBook, side: Side, incoming: Slot, resting: Slot) returns (trade: Trade)
      requires book.Valid()
      requires incoming in Members(book.Levels(side)) && incoming < |book.pool.storage|
      requires Slots(book.Levels(side.Opposite())) != [] && Slots(book.Levels(side.Opposite()))[0] == resting
      requires book.pool.storage[incoming].side == side
      modifies book, book.pool
      ensures book.Valid() && incoming in Members(book.Levels(side)) && incoming < |book.pool.storage|
      ensures book.Now() == Turn(old(book.Now()), side, incoming)
      ensures var t, opp := old(book.pool.storage[incoming]), old(SideView(book.Now(), side.Opposite()));
              && opp != []
              && var fill := Min(t.remaining, opp[0].remaining);
              && trade == Execution(t, opp[0], fill)
              && book.pool.storage[incoming] == t.(remaining := t.remaining - fill)
              && SideView(book.Now(), side) == Put(old(SideView(book.Now(), side)), book.pool.storage[incoming])
              && SideView(book.Now(), side.Opposite()) ==
                 (if fill == opp[0].remaining then [] else [opp[0].(remaining := opp[0].remaining - fill)]) + opp[1..]
      ensures book.nextOrderId == old(book.nextOrderId)
    {
      hide Wf, SideView, Members, Put, Remove, HasId, Faces, Traded, Retired, Removed;
      ghost var st := book.Now();
      FacesHead(st, side, incoming);
      ghost var opp := SideView(st, side.Opposite());
      trade := ExecuteMatch(book, side, incoming, resting);
      ghost var mid := book.Now();
      PutHead(opp, book.pool.storage[resting]);
      RetireIfFilled(book, side.Opposite(), resting);
      StillThere(mid, book.Now(), side, incoming, resting);
    }

    /** The matching loop: trades with the front of the best opposite level while prices cross. */
    method MatchOrder(book: OrderBook, side: Side, incoming: Slot) returns (trades: seq<Trade>)
      requires book.Valid()
      requires incoming in Members(book.Levels(side)) && incoming < |book.pool.storage|
      requires book.pool.storage[incoming].side == side
      modifies book, book.pool
      ensures book.Valid() && incoming in Members(book.Levels(side)) && incoming < |book.pool.storage|
      ensures var r := Sweep(old(SideView(book.Now(), side.Opposite())), old(book.pool.storage[incoming]));
              && trades == r.trades
              && book.pool.storage[incoming] == Settle(r.taker)
              && SideView(book.Now(), side) == Put(old(SideView(book.Now(), side)), Settle(r.taker))
              && SideView(book.Now(), side.Opposite()) == r.rest
      ensures book.Now() == Settled(Turns(old(book.Now()), side, incoming, |trades|), incoming)
      ensures book.nextOrderId == old(book.nextOrderId)
    {
      hide Wf, SideView, Members, Put, Sweep, Turn, Slots;
      trades := [];
      ghost var own, taker := SideView(book.Now(), side), book.pool.storage[incoming];
      ghost var all := Sweep(SideView(book.Now(), side.Opposite()), taker);
      TakerInPlace(book.Now(), side, incoming);
      while book.pool.storage[incoming].remaining > 0
        invariant book.Valid() && incoming in Members(book.Levels(side)) && incoming < |book.pool.storage|
        invariant book.pool.storage[incoming].side == side && book.pool.storage[incoming].id == taker.id
        invariant SideView(book.Now(), side) == Put(own, book.pool.storage[incoming])
        invariant var more := Sweep(SideView(book.Now(), side.Opposite()), book.pool.storage[incoming]);
                  trades + more.trades == all.trades && more.rest == all.rest && more.taker == all.taker
        invariant book.Now() == Turns(old(book.Now()), side, incoming, |trades|)
        invariant book.nextOrderId == old(book.nextOrderId)
        decreases |SideView(book.Now(), side.Opposite())| + book.pool.storage[incoming].remaining
      {
        var best := book.BestLevel(side.Opposite());
        if best.NoLevel? || best.level.slots == [] {
          break;
        }
        var resting := best.level.slots[0];
        if !Crosses(book.pool.storage[incoming], book.pool.storage[resting]) {
          break;
        }
        ghost var t, opp, done := book.pool.storage[incoming], SideView(book.Now(), side.Opposite()), trades;
        var trade := MatchOnce(book, side, incoming, resting);
        trades := trades + [trade];
        PutTwice(own, t, book.pool.storage[incoming]);
        SweepTurn(opp, t, done, trade, SideView(book.Now(), side.Opposite()), book.pool.storage[incoming]);
      }
      SweepStops(SideView(book.Now(), side.Opposite()), book.pool.storage[incoming]);
      var t := book.pool.storage[incoming];
      if t.IsFilled() {
        book.Write(side, incoming, t.(status := Filled));
      } else if t.FilledQty() > 0 {
        book.Write(side, incoming, t.(status := PartiallyFilled));
      }
      PutTwice(own, t, Settle(t));
    }

    /** Puts an order on its own side of the book first, then matches it. */
    method PlaceAndMatch(book: OrderBook, side: Side, kind: OrderType, price: Price, quantity: Quantity)
      returns (slot: Slot, trades: seq<Trade>)
      requires book.Valid()
      modifies book, book.pool
      ensures book.Valid() && slot in Members(book.Levels(side)) && slot < |book.pool.storage|
      ensures var b, id := old(book.Contents()), old(book.nextOrderId);
              var r := Sweep(b.Of(side.Opposite()), Order(id, side, kind, price, quantity, quantity, Accepted));
              && trades == r.trades
              && book.pool.storage[slot] == Settle(r.taker)
              && SideView(book.Now(), side) == Insert(b.Of(side), Settle(r.taker))
              && SideView(book.Now(), side.Opposite()) == r.rest
      ensures book.nextOrderId == old(book.nextOrderId) + 1
      ensures slot == NextSlot(old(book.Now()))
      ensures book.Now() == Settled(Turns(Placed(old(book.Now()), Order(old(book.nextOrderId), side, kind, price, quantity, quantity, Accepted)),
                                          side, slot, |trades|), slot)
    {
      hide Wf, Members, Put, Insert, Sweep, Turns, Settled, Placed, NextSlot;
      ghost var b := book.Contents();
      NoSuchIdYet(book.Now(), side);
      slot := book.AddOrder(side, kind, price, quantity);
      ghost var o := book.pool.storage[slot];
      trades := MatchOrder(book, side, slot);
      ghost var r := Sweep(b.Of(side.Opposite()), o);
      TakerKeepsIdentity(b.Of(side.Opposite()), o);
      PutInserted(b.Of(side), o, Settle(r.taker));
    }

    /** After matching: a filled order leaves, and so does the remainder of a market or IOC order. */
    method FinishOrder(book: OrderBook, side: Side, slot: Slot, ghost own: seq<Order>)
      requires book.Valid() && slot in Members(book.Levels(side)) && slot < |book.pool.storage|
      requires book.pool.storage[slot].side == side && !HasId(own, book.pool.storage[slot].id)
      requires SideView(book.Now(), side) == Insert(own, book.pool.storage[slot])
      modifies book, book.pool
      ensures book.Valid() && book.nextOrderId == old(book.nextOrderId)
      ensures var o := old(book.pool.storage[slot]);
              SideView(book.Now(), side) == if o.remaining > 0 && o.kind.Limit? then Insert(own, o) else own
      ensures SideView(book.Now(), side.Opposite()) == old(SideView(book.Now(), side.Opposite()))
      ensures book.Now() == Finished(old(book.Now()), slot)
    {
      hide Wf, SideView, Members, Put, Insert, Remove, HasId, Removed;
      SideFacts(book.Now(), side);
      SlotIndexed(book.Now(), side, slot);
      var o := book.pool.storage[slot];
      if o.IsFilled() {
        TakeOut(book, side, slot);
        RemoveInserted(own, o);
      } else if !o.kind.Limit? {
        var o' := o.(status := if o.FilledQty() > 0 then PartiallyFilled else Cancelled);
        book.Write(side, slot, o');
        PutInserted(own, o, o');
        TakeOut(book, side, slot);
        RemoveInserted(own, o');
      }
    }

    /** Counts each trade and hands it to the callback, in order. */
    method DeliverTrades(trades: seq<Trade>)
      modifies this`stats, this`tape
      ensures stats == CountTrades(old(stats), trades) && tape == old(tape) + trades
    {
      for i := 0 to |trades|
        invariant stats == CountTrades(old(stats), trades[..i]) && tape == old(tape) + trades[..i]
      {
        var t := trades[i];
        stats := stats.(trades := stats.trades + 1, volume := stats.volume + t.quantity,
                        notional := stats.notional + t.price * t.quantity);
        tape := tape + [t];
        OneMore(trades, i);
      }
      assert trades[..|trades|] == trades;
    }

    /** Matches an order against a symbol's book and rests or drops what is left of it. */
    method SubmitOrder(symbol: Symbol, side: Side, kind: OrderType, price: Price, quantity: Quantity) returns (id: OrderId)
      requires Valid()
      modifies repr
      ensures Valid() && fresh(repr - old(repr))
      ensures |old(tape)| <= |tape|
      ensures (Now(), Submitted(id, tape[|old(tape)|..])) ==
              Apply(old(Now()), Call(symbol, Submit(side, kind, price, quantity)))
      ensures id > 0 <==> quantity > 0 && (kind.Limit? ==> price > 0)
    {
      hide AllValid, OrderBook.Valid, OrderBook.Contents, OrderBook.Now, SubmitTo, Apply, CountTrades;
      ghost var v, op := Now(), Submit(side, kind, price, quantity);
      var book := GetOrderBook(symbol);
      stats := stats.(orders := stats.orders + 1);
      if quantity == 0 {
        stats := stats.(rejects := stats.rejects + 1);
        RejectApplied(v, symbol, op);
        return 0;
      }
      if kind.Limit? && price <= 0 {
        stats := stats.(rejects := stats.rejects + 1);
        RejectApplied(v, symbol, op);
        return 0;
      }
      var effective: Price := price;
      if kind.Market? {
        effective := if side.Buy? then MAX_PRICE else 0;
      }
      ghost var trades;
      id, trades := SubmitToBook(symbol, side, kind, price, effective, quantity);
      AcceptApplied(v, symbol, op, id, trades);
    }

    /** The part of a submission that concerns one book: place and match, deliver the trades, then rest
        or remove the order. */
    method SubmitInto(book: OrderBook, side: Side, kind: OrderType, ghost price: Price, effective: Price, quantity: Quantity)
      returns (id: OrderId, ghost trades: seq<Trade>)
      requires book.Valid()
      requires Acceptable(kind, price, quantity) && effective == EffectivePrice(side, kind, price)
      modifies book, book.pool, this`stats, this`tape
      ensures book.Valid()
      ensures Outcome(book.Contents(), Submitted(id, trades)) == SubmitTo(old(book.Contents()), Submit(side, kind, price, quantity))
      ensures book.Now() == AfterSubmit(old(book.Now()), Submit(side, kind, price, quantity))
      ensures stats == CountTrades(old(stats), trades) && tape == old(tape) + trades
      ensures id > 0
    {
      hide Wf, SideView, Members, Insert, Sweep, Settle, HasId, CountTrades, Turns, Settled, Placed, NextSlot, Finished;
      ghost var b, op := book.Contents(), Submit(side, kind, price, quantity);
      NoSuchIdYet(book.Now(), side);
      TakerKeepsIdentity(b.Of(side.Opposite()), Taker(b, op));
      var slot, fills := PlaceAndMatch(book, side, kind, effective, quantity);
      id, trades := book.pool.storage[slot].id, fills;
      DeliverTrades(fills);
      FinishOrder(book, side, slot, b.Of(side));
      PlacedIsSubmitted(b, op, SideView(book.Now(), side), SideView(book.Now(), side.Opposite()), book.nextOrderId);
    }

    method SubmitToBook(symbol: Symbol, side: Side, kind: OrderType, ghost price: Price, effective: Price, quantity: Quantity)
      returns (id: OrderId, ghost trades: seq<Trade>)
      requires Valid() && symbol in books
      requires Acceptable(kind, price, quantity) && effective == EffectivePrice(side, kind, price)
      modifies books[symbol], books[symbol].pool, this`flat, this`stats, this`tape
      ensures Valid()
      ensures var r := SubmitTo(old(flat[symbol]), Submit(side, kind, price, quantity));
              && flat == old(flat)[symbol := r.book] && r.reply == Submitted(id, trades)
              && stats == CountTrades(old(stats), trades) && tape == old(tape) + trades && id > 0
    {
      hide OrderBook.Valid, OrderBook.Contents, OrderBook.Now, Separate, SubmitTo, CountTrades, AfterSubmit;
      var book := books[symbol];
      id, trades := SubmitInto(book, side, kind, price, effective, quantity);
      assert AllValid(books, flat[symbol := book.Contents()], repr - {this}) by {
        OthersApart(books, repr - {this}, symbol);
      }
      flat := flat[symbol := book.Contents()];
    }

    method CancelOrder(symbol: Symbol, id: OrderId) returns (ok: bool)
      requires Valid()
      modifies repr
      ensures Valid() && fresh(repr - old(repr))
      ensures (Now(), Done(ok)) == Apply(old(Now()), Call(symbol, Cancel(id)))
      ensures ok <==> old(Now()).Book(symbol).Has(id)
    {
      hide OrderBook.Valid, OrderBook.Contents, OrderBook.Now, CancelIn;
      if symbol !in books {
        return false;
      }
      ok := CancelInBook(symbol, id);
      if ok {
        stats := stats.(cancels := stats.cancels + 1);
      }
    }

    method CancelInBook(symbol: Symbol, id: OrderId) returns (ok: bool)
      requires Valid() && symbol in books
      modifies books[symbol], books[symbol].pool, this`flat
      ensures Valid()
      ensures var r := CancelIn(old(flat[symbol]), id); flat == old(flat)[symbol := r.book] && r.reply == Done(ok)
      ensures ok <==> old(flat[symbol]).Has(id)
    {
      hide OrderBook.Valid, OrderBook.Contents, OrderBook.Now, Separate, CancelIn;
      var book := books[symbol];
      book.IndexedRests(id);
      ok := book.CancelOrder(id);
      assert AllValid(books, flat[symbol := book.Contents()], repr - {this}) by {
        OthersApart(books, repr - {this}, symbol);
      }
      flat := flat[symbol := book.Contents()];
    }

    /** Reduces an order through the book that `get_order_book` returns. */
    method ReduceOrder(symbol: Symbol, id: OrderId, newQuantity: Quantity) returns (ok: bool)
      requires Valid()
      modifies repr
      ensures Valid() && fresh(repr - old(repr))
      ensures (Now(), Done(ok)) == Apply(old(Now()), Call(symbol, Reduce(id, newQuantity)))
      ensures ok <==> old(Now()).Book(symbol).Has(id) && newQuantity < Find(old(Now()).Book(symbol), id).remaining
    {
      hide AllValid, OrderBook.Valid, OrderBook.Contents, OrderBook.Now, ReduceIn;
      ghost var b := Now().Book(symbol);
      var book := GetOrderBook(symbol);
      ok := ReduceInBook(symbol, id, newQuantity);
      assert old(flat)[symbol := b][symbol := flat[symbol]] == old(flat)[symbol := flat[symbol]];
    }

    method ReduceInBook(symbol: Symbol, id: OrderId, newQuantity: Quantity) returns (ok: bool)
      requires Valid() && symbol in books
      modifies books[symbol], books[symbol].pool, this`flat
      ensures Valid()
      ensures var r := ReduceIn(old(flat[symbol]), id, newQuantity); flat == old(flat)[symbol := r.book] && r.reply == Done(ok)
      ensures ok <==> old(flat[symbol]).Has(id) && newQuantity < Find(old(flat[symbol]), id).remaining
    {
      hide OrderBook.Valid, OrderBook.Contents, OrderBook.Now, Separate, ReduceIn;
      var book := books[symbol];
      book.IndexedRests(id);
      ok := book.ReduceOrder(id, newQuantity);
      assert AllValid(books, flat[symbol := book.Contents()], repr - {this}) by {
        OthersApart(books, repr - {this}, symbol);
      }
      flat := flat[symbol := book.Contents()];
    }

    /** Removes a resting order and leaves the other side alone. */
    method TakeOut(book: OrderBook, side: Side, slot: Slot)
      requires book.Valid() && slot in Members(book.Levels(side)) && slot < |book.pool.storage|
      modifies book, book.pool`freeList
      ensures book.Valid() && book.nextOrderId == old(book.nextOrderId)
      ensures old(book.pool.storage[slot].id) in old(book.orderLookup)
      ensures book.Now() == Removed(old(book.Now()), old(book.pool.storage[slot].id))
      ensures SideView(book.Now(), side) == Remove(old(SideView(book.Now(), side)), old(book.pool.storage[slot].id))
      ensures SideView(book.Now(), side.Opposite()) == old(SideView(book.Now(), side.Opposite()))
    {
      hide Wf, SideView, Members, Remove, HasId, Removed;
      ghost var st, id := book.Now(), book.pool.storage[slot].id;
      SideFacts(st, side);
      IndexIsView(st, side.Opposite(), id);
      RemoveAbsent(SideView(st, side.Opposite()), id);
      book.RemoveOrder(slot);
    }
  }

  /** Working on one symbol's book touches no other book and no other pool. */
  lemma {:induction false} OthersApart(books: map<Symbol, OrderBook>, repr: set<object>, symbol: Symbol)
    requires MatchingEngine.Separate(books, repr) && symbol in books
    ensures forall s :: s in books && s != symbol ==> books[s] != books[symbol] && books[s].pool != books[symbol].pool
  {
  }

  // ---- Glue between the loop and the flat sweep ----

  lemma {:induction false} RejectApplied(v: Venue, symbol: Symbol, op: Op)
    requires op.Submit? && !Acceptable(op.kind, op.price, op.quantity)
    ensures Apply(v, Call(symbol, op)) ==
            (Venue(v.books[symbol := v.Book(symbol)],
                   v.stats.(orders := v.stats.orders + 1, rejects := v.stats.rejects + 1), v.tape),
             Submitted(0, []))
    ensures v.tape[|v.tape|..] == []
  {
    assert v.tape + [] == v.tape;
  }

  lemma {:induction false} AcceptApplied(v: Venue, symbol: Symbol, op: Op, id: OrderId, trades: seq<Trade>)
    requires op.Submit? && Acceptable(op.kind, op.price, op.quantity) && id > 0
    requires SubmitTo(v.Book(symbol), op).reply == Submitted(id, trades)
    ensures var b := SubmitTo(v.Book(symbol), op).book;
            && Apply(v, Call(symbol, op)) ==
               (Venue(v.books[symbol := v.Book(symbol)][symbol := b],
                      CountTrades(v.stats.(orders := v.stats.orders + 1), trades), v.tape + trades),
                Submitted(id, trades))
    ensures (v.tape + trades)[|v.tape|..] == trades
  {
    var b := SubmitTo(v.Book(symbol), op).book;
    assert v.books[symbol := v.Book(symbol)][symbol := b] == v.books[symbol := b];
  }

  /** Placing, matching and finishing an order is submitting it to the flat book. */
  lemma {:induction false} PlacedIsSubmitted(b: Book, op: Op, own: seq<Order>, opp: seq<Order>, next: OrderId)
    requires op.Submit? && Acceptable(op.kind, op.price, op.quantity) && next == b.nextId + 1
    requires var r := SweepOf(b, op);
             var o := Settle(r.taker);
             && opp == r.rest
             && own == if o.remaining > 0 && o.kind.Limit? then Insert(b.Of(op.side), o) else b.Of(op.side)
    ensures SubmitTo(b, op) ==
            Outcome(if op.side.Buy? then Book(own, opp, next) else Book(opp, own, next), Submitted(b.nextId, SweepOf(b, op).trades))
  {
    TakerKeepsIdentity(b.Of(op.side.Opposite()), Taker(b, op));
  }

  /** The head of the opposite levels is the best opposite order, and another one than the taker. */
  lemma {:induction false} FacesHead(st: State, side: Side, slot: Slot)
    requires Wf(st) && slot in Members(st.Of(side)) && slot < |st.storage|
    requires Slots(st.Of(side.Opposite())) != []
    ensures Faces(st, side, slot)
    ensures var resting, opp := Slots(st.Of(side.Opposite()))[0], SideView(st, side.Opposite());
            && resting in Members(st.Of(side.Opposite())) && resting < |st.storage|
            && opp != [] && opp[0] == st.storage[resting]
  {
    hide Wf;
    SideFacts(st, side);
    SideFacts(st, side.Opposite());
    assert Slots(st.Of(side.Opposite()))[0] in Members(st.Of(side.Opposite()));
  }

  lemma {:induction false} SlotIndexed(st: State, side: Side, slot: Slot)
    requires Wf(st) && slot in Members(st.Of(side)) && slot < |st.storage|
    ensures st.storage[slot].id in st.lookup && st.lookup[st.storage[slot].id].slot == slot
  {
    hide Wf;
    SideFacts(st, side);
  }

  /** Retiring an order of one side leaves the other side's nodes and orders alone. */
  lemma {:induction false} StillThere(st: State, st': State, side: Side, slot: Slot, resting: Slot)
    requires Wf(st) && slot in Members(st.Of(side)) && slot < |st.storage|
    requires resting in Members(st.Of(side.Opposite())) && resting < |st.storage| && resting != slot
    requires st.storage[resting].id in st.lookup && st' == Retired(st, resting)
    ensures slot in Members(st'.Of(side)) && slot < |st'.storage| && st'.storage[slot] == st.storage[slot]
    ensures st'.nextId == st.nextId
  {
    hide Wf;
    SideFacts(st, side.Opposite());
  }

  lemma {:induction false} TakerInPlace(st: State, side: Side, slot: Slot)
    requires Wf(st) && slot in Members(st.Of(side)) && slot < |st.storage|
    ensures Put(SideView(st, side), st.storage[slot]) == SideView(st, side)
  {
    hide Wf, SideView, Put, Members;
    WriteRefinesPut(st, slot, st.storage[slot], side);
    assert st.(storage := st.storage[slot := st.storage[slot]]) == st;
  }

  lemma {:induction false} NoSuchIdYet(st: State, side: Side)
    requires Wf(st)
    ensures !HasId(SideView(st, side), st.nextId) && st.nextId > 0
  {
    IndexIsView(st, side, st.nextId);
  }

  lemma {:induction false} TakerKeepsIdentity(opp: seq<Order>, t: Order)
    ensures var t' := Settle(Sweep(opp, t).taker);
            t'.id == t.id && t'.side == t.side && t'.kind == t.kind && t'.price == t.price
  {
    SweepVolume(opp, t);
  }

  /** Updating an order in place is inserting the updated order: its place does not depend on the rest. */
  lemma {:induction false} PutInserted(s: seq<Order>, o: Order, o': Order)
    requires !HasId(s, o.id) && o'.id == o.id && o'.side == o.side && o'.price == o.price
    ensures Put(Insert(s, o), o') == Insert(s, o')
    decreases |s|
  {
    if s != [] && Rank(s[0].side, s[0].price) <= Rank(o.side, o.price) {
      assert s[0].id != o.id;
      assert forall k :: 0 <= k < |s[1..]| ==> s[1..][k] == s[k + 1];
      PutInserted(s[1..], o, o');
      assert Insert(s, o)[1..] == Insert(s[1..], o);
    } else {
      assert ([o] + s)[1..] == s;
    }
  }

  lemma {:induction false} OneMore(trades: seq<Trade>, i: nat)
    requires i < |trades|
    ensures trades[..i + 1] == trades[..i] + [trades[i]]
    ensures Volume(trades[..i + 1]) == Volume(trades[..i]) + trades[i].quantity
    ensures Notional(trades[..i + 1]) == Notional(trades[..i]) + trades[i].price * trades[i].quantity
  {
    assert trades[..i + 1] == trades[..i] + [trades[i]];
    VolumeConcat(trades[..i], [trades[i]]);
    NotionalConcat(trades[..i], [trades[i]]);
  }

  lemma {:induction false} PutHead(s: seq<Order>, o: Order)
    requires s != [] && s[0].id == o.id
    ensures Put(s, o) == [o] + s[1..]
  {
  }

  lemma {:induction false} RemoveHead(s: seq<Order>)
    requires s != []
    ensures Remove(s, s[0].id) == s[1..]
  {
  }

  lemma {:induction false} SweepStops(opp: seq<Order>, t: Order)
    requires Stops(opp, t)
    ensures Sweep(opp, t) == Swept([], opp, t)
  {
  }

  lemma {:induction false} PutTwice(s: seq<Order>, a: Order, b: Order)
    requires a.id == b.id
    ensures Put(Put(s, a), b) == Put(s, b)
    decreases |s|
  {
    if s != [] && s[0].id != a.id {
      PutTwice(s[1..], a, b);
    }
  }

  /** One turn of the loop takes the first trade off the sweep still to come. */
  lemma {:induction false} SweepTurn(opp: seq<Order>, t: Order, done: seq<Trade>, trade: Trade, opp': seq<Order>, t': Order)
    requires t.remaining > 0 && opp != [] && Crosses(t, opp[0])
    requires var fill := Min(t.remaining, opp[0].remaining);
             && trade == Execution(t, opp[0], fill) && t' == t.(remaining := t.remaining - fill)
             && opp' == (if fill == opp[0].remaining then [] else [opp[0].(remaining := opp[0].remaining - fill)]) + opp[1..]
    ensures var r, more := Sweep(opp, t), Sweep(opp', t');
            && done + r.trades == done + [trade] + more.trades && r.rest == more.rest && r.taker == more.taker
            && |opp'| + t'.remaining < |opp| + t.remaining
  {
    if opp[0].remaining <= t.remaining {
      assert opp' == opp[1..];
      assert done + ([trade] + Sweep(opp', t').trades) == done + [trade] + Sweep(opp', t').trades;
    } else {
      assert Sweep(opp', t').trades == [];
    }
  }
}
