/** The life of an order id: issued once, in increasing order, and gone for good once it departs. */
module Lifecycle {
  import opened Types
  import opened FlatBook
  import opened Sweeping
  import opened Market

  ghost predicate Accepts(op: Op) {
    op.Submit? && Acceptable(op.kind, op.price, op.quantity)
  }

  lemma {:induction false} SubmittedIds(b: Book, op: Op, id: OrderId)
    requires MarketOk(b) && Accepts(op) && Step(b, op).book.Has(id)
    ensures b.Has(id) || id == b.nextId
  {
    var opp, taker, r := b.Of(op.side.Opposite()), Taker(b, op), SweepOf(b, op);
    SweptWithin(b, op);
    SweepVolume(opp, taker);
    NoNewIds(r.rest, opp, id);
    InsertedIds(b.Of(op.side), Settle(r.taker), id);
  }

  lemma {:induction false} InsertedIds(s: seq<Order>, o: Order, id: OrderId)
    ensures HasId(Insert(s, o), id) ==> id == o.id || HasId(s, id)
  {
    var k := InsertShape(s, o);
    if HasId(Insert(s, o), id) {
      var i :| 0 <= i < |Insert(s, o)| && Insert(s, o)[i].id == id;
      assert i != k ==> s[if i < k then i else i - 1].id == id;
    }
  }

  lemma {:induction false} WithdrawnIds(b: Book, op: Op, id: OrderId)
    requires MarketOk(b) && !op.Submit? && Step(b, op).book.Has(id)
    ensures b.Has(id)
  {
    var b' := Step(b, op).book;
    WithdrawShrinks(b, op);
    NoNewIds(b'.bids, b.bids, id);
    NoNewIds(b'.asks, b.asks, id);
  }

  /** An id that rests after a call rested before it, or was issued by it. */
  lemma {:induction false} OnlyIssuedIdsAppear(b: Book, op: Op, id: OrderId)
    requires MarketOk(b) && Step(b, op).book.Has(id)
    ensures b.Has(id) || (Accepts(op) && id == b.nextId)
  {
    if Accepts(op) {
      SubmittedIds(b, op, id);
    } else if !op.Submit? {
      WithdrawnIds(b, op, id);
    }
  }

  lemma {:induction false} NoNewIds(s': seq<Order>, s: seq<Order>, id: OrderId)
    requires Within(s', s)
    ensures HasId(s', id) ==> HasId(s, id)
  {
    if HasId(s', id) {
      var k :| 0 <= k < |s'| && s'[k].id == id;
      assert NamedIn(s'[k], s);
    }
  }

  lemma {:induction false} NextIdSteps(b: Book, op: Op)
    ensures Step(b, op).book.nextId == b.nextId + if Accepts(op) then 1 else 0
    ensures Accepts(op) ==> Step(b, op).reply == Submitted(b.nextId, SweepOf(b, op).trades)
  {
  }

  /** Once issued and gone, an id never rests again, whatever is sent to the book. */
  lemma {:induction false} DepartedStaysGone(b: Book, ops: seq<Op>, id: OrderId)
    requires MarketOk(b) && id < b.nextId && !b.Has(id)
    ensures !Run(b, ops).Has(id)
    decreases ops
  {
    if ops != [] {
      var b' := Step(b, ops[0]).book;
      if b'.Has(id) {
        OnlyIssuedIdsAppear(b, ops[0], id);
      }
      NextIdSteps(b, ops[0]);
      StepKeepsMarket(b, ops[0]);
      DepartedStaysGone(b', ops[1..], id);
    }
  }

  lemma {:induction false} IdsFromNext(b: Book, ops: seq<Op>, j: nat)
    requires b.nextId > 0 && j < |ops|
    ensures var r := Replies(b, ops); |r| == |ops| && (Accepts(ops[j]) ==> r[j].Submitted? && r[j].id >= b.nextId)
    decreases ops
  {
    hide Step;
    RepliesLength(b, ops);
    NextIdSteps(b, ops[0]);
    if j > 0 {
      IdsFromNext(Step(b, ops[0]).book, ops[1..], j - 1);
    }
  }

  lemma {:induction false} RepliesLength(b: Book, ops: seq<Op>)
    ensures |Replies(b, ops)| == |ops|
    decreases ops
  {
    if ops != [] {
      RepliesLength(Step(b, ops[0]).book, ops[1..]);
    }
  }

  /** Ids are handed out in strictly increasing order over a run. */
  lemma {:induction false} IdsIncrease(b: Book, ops: seq<Op>, i: nat, j: nat)
    requires b.nextId > 0 && i < j < |ops| && Accepts(ops[i]) && Accepts(ops[j])
    ensures var r := Replies(b, ops);
            |r| == |ops| && r[i].Submitted? && r[j].Submitted? && 0 < r[i].id < r[j].id
    decreases ops
  {
    hide Step;
    RepliesLength(b, ops);
    NextIdSteps(b, ops[0]);
    var b' := Step(b, ops[0]).book;
    RepliesLength(b', ops[1..]);
    assert Replies(b, ops)[j] == Replies(b', ops[1..])[j - 1];
    if i == 0 {
      IdsFromNext(b', ops[1..], j - 1);
    } else {
      IdsIncrease(b', ops[1..], i - 1, j - 1);
    }
  }
}
