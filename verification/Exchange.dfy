/** Many books behind one engine: what a call on a symbol does to the books, the statistics and the
    tape of trades handed to the callback. */
module Exchange {
  import opened Types
  import opened FlatBook
  import opened Market

  datatype Stats = Stats(orders: nat, trades: nat, cancels: nat, rejects: nat, volume: nat, notional: int)

  datatype Venue = Venue(books: map<Symbol, Book>, stats: Stats, tape: seq<Trade>) {
    /** A symbol nobody has mentioned yet has an empty book. */
    function Book(symbol: Symbol): Book {
      if symbol in books then books[symbol] else EMPTY
    }
  }

  const NEW_VENUE := Venue(map[], Stats(0, 0, 0, 0, 0, 0), [])

  datatype Call = Call(symbol: Symbol, op: Op)

  function CountTrades(s: Stats, trades: seq<Trade>): Stats {
    s.(trades := s.trades + |trades|, volume := s.volume + Volume(trades), notional := s.notional + Notional(trades))
  }

  function CountSubmit(s: Stats, reply: Reply): Stats
    requires reply.Submitted?
  {
    var counted := s.(orders := s.orders + 1, rejects := s.rejects + if reply.id == 0 then 1 else 0);
    CountTrades(counted, reply.trades)
  }

  /** One engine call. A cancel for an unknown symbol fails without creating a book. */
  function Apply(v: Venue, c: Call): (Venue, Reply) {
    if c.op.Cancel? && c.symbol !in v.books then (v, Done(false))
    else
      var r := Step(v.Book(c.symbol), c.op);
      var books := v.books[c.symbol := r.book];
      match c.op
      case Submit(_, _, _, _) => (Venue(books, CountSubmit(v.stats, r.reply), v.tape + r.reply.trades), r.reply)
      case Cancel(_) => (v.(books := books, stats := v.stats.(cancels := v.stats.cancels + if r.reply.ok then 1 else 0)), r.reply)
      case Reduce(_, _) => (v.(books := books), r.reply)
  }

  lemma {:induction false} SubmitIsAnswered(v: Venue, c: Call)
    requires c.op.Submit?
    ensures Apply(v, c).1.Submitted?
  {
  }

  function RunAll(v: Venue, calls: seq<Call>): Venue
    decreases calls
  {
    if calls == [] then v else RunAll(Apply(v, calls[0]).0, calls[1..])
  }

  function AllReplies(v: Venue, calls: seq<Call>): seq<Reply>
    decreases calls
  {
    if calls == [] then [] else [Apply(v, calls[0]).1] + AllReplies(Apply(v, calls[0]).0, calls[1..])
  }

  // ---- Symbols do not interfere ----

  function OpsOn(calls: seq<Call>, symbol: Symbol): seq<Op> {
    if calls == [] then []
    else (if calls[0].symbol == symbol then [calls[0].op] else []) + OpsOn(calls[1..], symbol)
  }

  /** The replies that went to calls on one symbol. */
  function RepliesOn(calls: seq<Call>, replies: seq<Reply>, symbol: Symbol): seq<Reply>
    requires |calls| == |replies|
  {
    if calls == [] then []
    else (if calls[0].symbol == symbol then [replies[0]] else []) + RepliesOn(calls[1..], replies[1..], symbol)
  }

  lemma {:induction false} ReplyPerCall(v: Venue, calls: seq<Call>)
    ensures |AllReplies(v, calls)| == |calls|
    decreases calls
  {
    if calls != [] {
      ReplyPerCall(Apply(v, calls[0]).0, calls[1..]);
    }
  }

  lemma {:induction false} CallOnSymbol(v: Venue, c: Call, symbol: Symbol)
    ensures var (v', reply) := Apply(v, c);
            if c.symbol == symbol then Outcome(v'.Book(symbol), reply) == Step(v.Book(symbol), c.op)
            else v'.Book(symbol) == v.Book(symbol)
  {
  }

  /** Whatever happens on other symbols, one symbol's ids, trades, answers and final book are those
      of the run made of its own calls alone. */
  lemma {:induction false} SymbolsAreIndependent(v: Venue, calls: seq<Call>, symbol: Symbol)
    ensures RunAll(v, calls).Book(symbol) == Run(v.Book(symbol), OpsOn(calls, symbol))
    ensures |AllReplies(v, calls)| == |calls|
    ensures RepliesOn(calls, AllReplies(v, calls), symbol) == Replies(v.Book(symbol), OpsOn(calls, symbol))
    decreases calls
  {
    ReplyPerCall(v, calls);
    if calls != [] {
      var v' := Apply(v, calls[0]).0;
      CallOnSymbol(v, calls[0], symbol);
      SymbolsAreIndependent(v', calls[1..], symbol);
      assert AllReplies(v, calls)[1..] == AllReplies(v', calls[1..]);
      var ops := OpsOn(calls, symbol);
      if calls[0].symbol == symbol {
        assert ops[0] == calls[0].op && ops[1..] == OpsOn(calls[1..], symbol);
      } else {
        assert ops == OpsOn(calls[1..], symbol);
      }
    }
  }

  /** Every book of every engine run satisfies the market invariant. */
  lemma {:induction false} EveryBookKeepsMarket(calls: seq<Call>, symbol: Symbol)
    ensures MarketOk(RunAll(NEW_VENUE, calls).Book(symbol))
  {
    SymbolsAreIndependent(NEW_VENUE, calls, symbol);
    RunKeepsMarket(EMPTY, OpsOn(calls, symbol));
  }

  // ---- The statistics describe the tape ----

  ghost predicate StatsMatch(v: Venue) {
    v.stats.trades == |v.tape| && v.stats.volume == Volume(v.tape) && v.stats.notional == Notional(v.tape)
  }

  lemma {:induction false} ApplyCounts(v: Venue, c: Call)
    ensures var (v', reply) := Apply(v, c);
            && v'.tape == v.tape + reply.Trades()
            && v'.stats.trades == v.stats.trades + |reply.Trades()|
            && v'.stats.volume == v.stats.volume + Volume(reply.Trades())
            && v'.stats.notional == v.stats.notional + Notional(reply.Trades())
            && v'.stats.orders == v.stats.orders + (if c.op.Submit? then 1 else 0)
            && v'.stats.rejects == v.stats.rejects + (if reply.Submitted? && reply.id == 0 then 1 else 0)
            && v'.stats.cancels == v.stats.cancels + (if c.op.Cancel? && reply == Done(true) then 1 else 0)
  {
    hide SubmitTo, CancelIn, ReduceIn;
    ReplyKind(v.Book(c.symbol), c.op);
  }

  lemma {:induction false} ReplyKind(b: Book, op: Op)
    ensures Step(b, op).reply.Submitted? <==> op.Submit?
  {
    hide Sweep, Insert, Remove, SetRemaining;
  }

  lemma {:induction false} ApplyKeepsStats(v: Venue, c: Call)
    requires StatsMatch(v)
    ensures StatsMatch(Apply(v, c).0)
  {
    hide Apply;
    ApplyCounts(v, c);
    VolumeConcat(v.tape, Apply(v, c).1.Trades());
    NotionalConcat(v.tape, Apply(v, c).1.Trades());
  }

  function Submits(calls: seq<Call>): nat {
    if calls == [] then 0 else (if calls[0].op.Submit? then 1 else 0) + Submits(calls[1..])
  }

  function RejectedIn(replies: seq<Reply>): nat {
    if replies == [] then 0
    else (if replies[0].Submitted? && replies[0].id == 0 then 1 else 0) + RejectedIn(replies[1..])
  }

  /** Cancels answered with success. */
  function CancelledIn(calls: seq<Call>, replies: seq<Reply>): nat
    requires |calls| == |replies|
  {
    if calls == [] then 0
    else (if calls[0].op.Cancel? && replies[0] == Done(true) then 1 else 0) + CancelledIn(calls[1..], replies[1..])
  }

  /** On every run the counters are what the calls and the tape say they are. */
  lemma {:induction false} StatsDescribeRun(v: Venue, calls: seq<Call>)
    requires StatsMatch(v)
    ensures |AllReplies(v, calls)| == |calls|
    ensures var v', replies := RunAll(v, calls), AllReplies(v, calls);
            && StatsMatch(v')
            && v'.tape == v.tape + TradesOf(replies)
            && v'.stats.orders == v.stats.orders + Submits(calls)
            && v'.stats.rejects == v.stats.rejects + RejectedIn(replies)
            && v'.stats.cancels == v.stats.cancels + CancelledIn(calls, replies)
    decreases calls
  {
    hide Apply, StatsMatch;
    ReplyPerCall(v, calls);
    if calls != [] {
      var (v', reply) := Apply(v, calls[0]);
      ApplyCounts(v, calls[0]);
      ApplyKeepsStats(v, calls[0]);
      StatsDescribeRun(v', calls[1..]);
      var replies := AllReplies(v, calls);
      assert replies[0] == reply && replies[1..] == AllReplies(v', calls[1..]);
      assert v.tape + TradesOf(replies) == v.tape + reply.Trades() + TradesOf(replies[1..]);
    }
  }
}
