/** What the answer to each call means, in terms of what was asked and of what rests. */
module Answers {
  import opened Types
  import opened FlatBook
  import opened Sweeping
  import opened Market
  import opened Lifecycle
  import opened Exchange
  import opened Ledger

  /** A submission gets an id if and only if it has a quantity and, if it is a limit order, a positive
      price; otherwise nothing trades and the book stays as it is. */
  lemma {:induction false} SubmitAnswers(b: Book, side: Side, kind: OrderType, price: Price, quantity: Quantity)
    requires b.nextId > 0
    ensures var r := Step(b, Submit(side, kind, price, quantity));
            && r.reply.Submitted?
            && (r.reply.id > 0 <==> quantity > 0 && (kind.Limit? ==> price > 0))
            && (r.reply.id > 0 ==> r.reply.id == b.nextId && r.book.nextId == b.nextId + 1)
            && (r.reply.id == 0 ==> r.reply.trades == [] && r.book == b)
  {
    hide Sweep, Insert;
  }

  /** Shares of an order rest exactly if the order does. */
  lemma {:induction false} RestsIfShares(b: Book, id: OrderId)
    requires MarketOk(b)
    ensures Resting(b, id) > 0 <==> b.Has(id)
    ensures b.Has(id) ==> Resting(b, id) == Find(b, id).remaining
  {
    FoundRests(b, id);
    if b.Has(id) {
      var s, side := if HasId(b.bids, id) then b.bids else b.asks, if HasId(b.bids, id) then Buy else Sell;
      assert Live(s[IndexOf(s, id)], side, b.nextId);
    }
  }

  /** A side without the orders of one id, in the same order. */
  function Without(s: seq<Order>, id: OrderId): seq<Order> {
    if s == [] then [] else (if s[0].id == id then [] else [s[0]]) + Without(s[1..], id)
  }

  lemma {:induction false} WithoutAbsent(s: seq<Order>, id: OrderId)
    requires !HasId(s, id)
    ensures Without(s, id) == s
    decreases |s|
  {
    if s != [] {
      assert s[0].id != id;
      assert forall k :: 0 <= k < |s[1..]| ==> s[1..][k] == s[k + 1];
      WithoutAbsent(s[1..], id);
    }
  }

  lemma {:induction false} RemoveIsWithout(s: seq<Order>, id: OrderId)
    requires UniqueIds(s)
    ensures Remove(s, id) == Without(s, id)
    decreases |s|
  {
    if s != [] {
      assert forall k :: 0 <= k < |s[1..]| ==> s[1..][k] == s[k + 1];
      if s[0].id == id {
        WithoutAbsent(s[1..], id);
      } else {
        RemoveIsWithout(s[1..], id);
      }
    }
  }

  lemma {:induction false} NothingToRemove(b: Book, id: OrderId)
    requires !b.Has(id)
    ensures Without(b.bids, id) == b.bids && Without(b.asks, id) == b.asks
  {
    WithoutAbsent(b.bids, id);
    WithoutAbsent(b.asks, id);
  }

  /** A cancel succeeds if and only if shares of the order rest. It takes the order out and leaves
      everything else as it is. */
  lemma {:induction false} CancelAnswers(b: Book, id: OrderId)
    requires MarketOk(b)
    ensures var r := Step(b, Cancel(id));
            && r.reply == Done(Resting(b, id) > 0)
            && r.book == Book(Without(b.bids, id), Without(b.asks, id), b.nextId)
            && Resting(r.book, id) == 0
            && (r.reply == Done(false) ==> r.book == b)
  {
    RestsIfShares(b, id);
    RemoveIsWithout(b.bids, id);
    RemoveIsWithout(b.asks, id);
    RemoveRests(b.bids, id, id);
    RemoveRests(b.asks, id, id);
    if !b.Has(id) {
      NothingToRemove(b, id);
    }
  }

  /** A side whose order of one id has another quantity left; every order keeps its place. */
  ghost predicate CutTo(s': seq<Order>, s: seq<Order>, id: OrderId, n: Quantity) {
    |s'| == |s| && forall k :: 0 <= k < |s| ==> s'[k] == if s[k].id == id then s[k].(remaining := n) else s[k]
  }

  lemma {:induction false} SetRemainingCuts(s: seq<Order>, id: OrderId, n: Quantity)
    requires UniqueIds(s)
    ensures CutTo(SetRemaining(s, id, n), s, id, n)
  {
    SetRemainingShape(s, id, n);
  }

  /** A reduction succeeds if and only if it asks for less than what rests. Then the order has that
      quantity left and its place in the queue, or is gone if nothing is left; otherwise nothing changes. */
  lemma {:induction false} ReduceAnswers(b: Book, id: OrderId, n: Quantity)
    requires MarketOk(b)
    ensures var r := Step(b, Reduce(id, n));
            && r.reply == Done(n < Resting(b, id))
            && (r.reply == Done(false) ==> r.book == b)
            && (r.reply == Done(true) ==> Resting(r.book, id) == n && r.book.nextId == b.nextId)
            && (r.reply == Done(true) && n > 0 ==> CutTo(r.book.bids, b.bids, id, n) && CutTo(r.book.asks, b.asks, id, n))
            && (r.reply == Done(true) && n == 0 ==> r.book.bids == Without(b.bids, id) && r.book.asks == Without(b.asks, id))
  {
    RestsIfShares(b, id);
    if b.Has(id) && n < Find(b, id).remaining {
      if n == 0 {
        CancelAnswers(b, id);
      } else {
        CutRests(b, id, n);
      }
    }
  }

  lemma {:induction false} CutRests(b: Book, id: OrderId, n: Quantity)
    requires MarketOk(b) && b.Has(id)
    ensures var bids, asks := SetRemaining(b.bids, id, n), SetRemaining(b.asks, id, n);
            && RestingOn(bids, id) + RestingOn(asks, id) == n
            && CutTo(bids, b.bids, id, n) && CutTo(asks, b.asks, id, n)
  {
    SetRemainingCuts(b.bids, id, n);
    SetRemainingCuts(b.asks, id, n);
    SetRemainingRests(b.bids, id, n, id);
    SetRemainingRests(b.asks, id, n, id);
    if HasId(b.bids, id) {
      assert !HasId(b.asks, id);
      AbsentRestsNothing(b.asks, id);
    } else {
      AbsentRestsNothing(b.bids, id);
    }
  }

  // ---- On every engine run ----

  /** Once an issued order has left a book, every later cancel of it fails and changes nothing. */
  lemma {:induction false} DepartedCancelFails(calls: seq<Call>, more: seq<Call>, symbol: Symbol, id: OrderId)
    requires var b := RunAll(NEW_VENUE, calls).Book(symbol); id < b.nextId && Resting(b, id) == 0
    ensures var v := RunAll(RunAll(NEW_VENUE, calls), more);
            && Apply(v, Call(symbol, Cancel(id))).1 == Done(false)
            && Apply(v, Call(symbol, Cancel(id))).0.Book(symbol) == v.Book(symbol)
            && Apply(v, Call(symbol, Cancel(id))).0.stats == v.stats
  {
    hide Apply, Step, MarketOk, Resting;
    var v0 := RunAll(NEW_VENUE, calls);
    EveryBookKeepsMarket(calls, symbol);
    RestsIfShares(v0.Book(symbol), id);
    SymbolsAreIndependent(v0, more, symbol);
    DepartedStaysGone(v0.Book(symbol), OpsOn(more, symbol), id);
    RunKeepsMarket(v0.Book(symbol), OpsOn(more, symbol));
    FailedCancel(RunAll(v0, more), symbol, id);
  }

  lemma {:induction false} FailedCancel(v: Venue, symbol: Symbol, id: OrderId)
    requires MarketOk(v.Book(symbol)) && !v.Book(symbol).Has(id)
    ensures var (v', reply) := Apply(v, Call(symbol, Cancel(id)));
            reply == Done(false) && v'.Book(symbol) == v.Book(symbol) && v'.stats == v.stats
  {
    hide MarketOk, Step, Resting;
    RestsIfShares(v.Book(symbol), id);
    CancelAnswers(v.Book(symbol), id);
  }

  /** A cancel that succeeds does so once. */
  lemma {:induction false} CancelSucceedsOnce(calls: seq<Call>, more: seq<Call>, symbol: Symbol, id: OrderId)
    requires Apply(RunAll(NEW_VENUE, calls), Call(symbol, Cancel(id))).1 == Done(true)
    ensures var v := RunAll(RunAll(NEW_VENUE, calls + [Call(symbol, Cancel(id))]), more);
            Apply(v, Call(symbol, Cancel(id))).1 == Done(false)
  {
    hide Apply, Step, MarketOk, Resting;
    var v, c := RunAll(NEW_VENUE, calls), Call(symbol, Cancel(id));
    EveryBookKeepsMarket(calls, symbol);
    RunAllSnoc(NEW_VENUE, calls, c);
    CallOnSymbol(v, c, symbol);
    CancelAnswers(v.Book(symbol), id);
    RestsIfShares(v.Book(symbol), id);
    KnownIdsAreOld(v.Book(symbol), id);
    DepartedCancelFails(calls + [c], more, symbol, id);
  }

  lemma {:induction false} RunAllSnoc(v: Venue, calls: seq<Call>, c: Call)
    ensures RunAll(v, calls + [c]) == Apply(RunAll(v, calls), c).0
    decreases calls
  {
    hide Apply;
    if calls == [] {
      assert calls + [c] == [c];
      assert [c][1..] == [];
      assert RunAll(Apply(v, c).0, []) == Apply(v, c).0;
    } else {
      assert (calls + [c])[1..] == calls[1..] + [c];
      RunAllSnoc(Apply(v, calls[0]).0, calls[1..], c);
    }
  }
}
