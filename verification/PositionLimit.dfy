/** The market maker's documented position limit: exactly when it is kept, and runs of the simulation
    that pass it as far as any run can. */
module PositionLimit {
  import opened Types
  import opened FlatBook
  import opened Sweeping
  import opened Market
  import opened Agents
  import opened Maker
  import opened TickModel

  /** The direction in which fills of a resting order on this side move the position. */
  function Sign(side: Side): int {
    if side.Buy? then 1 else -1
  }

  /** The maker's position in the direction of a side, together with its quote resting there. */
  ghost function Reach(s: Sim, side: Side): int
    requires |s.agents| > 0
  {
    Sign(side) * s.agents[MAKER].position + Owned(s.book.Of(side), s.owner, MAKER)
  }

  ghost predicate OthersOnly(moves: seq<Move>, n: nat) {
    forall k :: 0 <= k < |moves| ==> moves[k].agent != MAKER && moves[k].agent < n
  }

  // ---- The others cannot lengthen the reach ----

  lemma {:induction false} OtherKeepsReach(s: Sim, m: Move, side: Side)
    requires SimOk(s) && MAKER < m.agent < |s.agents|
    ensures SimOk(Act(s, m)) && |Act(s, m).agents| == |s.agents| && Reach(Act(s, m), side) <= Reach(s, side)
  {
    hide Send, RouteAll, MarketOk, Owned, OwnedTaken, Step;
    ActKeepsOk(s, m);
    if !m.op.Submit? {
      WithdrawKeepsStakes(s.book, m.op, s.owner);
    } else if Acceptable(m.op.kind, m.op.price, m.op.quantity) {
      SubmitReplies(s.book, m.op);
      SendMovesStakes(s, m.agent, m.op);
    } else {
      RejectedSend(s, m.agent, m.op);
    }
  }

  lemma {:induction false} OthersKeepReach(s: Sim, moves: seq<Move>, side: Side)
    requires SimOk(s) && OthersOnly(moves, |s.agents|) && |s.agents| > 0
    ensures Reach(Play(s, moves), side) <= Reach(s, side)
    decreases moves
  {
    hide SimOk, Act, Reach;
    if moves != [] {
      OtherKeepsReach(s, moves[0], side);
      OthersKeepReach(Act(s, moves[0]), moves[1..], side);
    }
  }

  // ---- The others can use all of it ----

  /** A market order of the size of the best order on a side. */
  function TakeHead(s: Sim, side: Side): Op
    requires s.book.Of(side) != []
  {
    Submit(side.Opposite(), OrderType.Market, 0, s.book.Of(side)[0].remaining)
  }

  lemma {:induction false} HeadIsTaken(b: Book, side: Side, op: Op)
    requires MarketOk(b) && b.Of(side) != []
    requires op == Submit(side.Opposite(), OrderType.Market, 0, b.Of(side)[0].remaining)
    ensures Acceptable(op.kind, op.price, op.quantity) && Step(b, op).book.Of(side) == b.Of(side)[1..]
  {
    var s, taker := b.Of(side), Taker(b, op);
    assert Live(s[0], side, b.nextId);
    assert Crosses(taker, s[0]);
    assert Sweep(s[1..], After(taker, s[0])).rest == s[1..];
  }

  /** Orders a noise trader may draw. */
  ghost predicate NoiseOnly(moves: seq<Move>) {
    forall k :: 0 <= k < |moves| ==>
      && FIRST_NOISE <= moves[k].agent < AGENTS && moves[k].op.Submit?
      && DrawOk(Place(moves[k].op.side, moves[k].op.kind, moves[k].op.price, moves[k].op.quantity))
  }

  /** Market orders of another agent, one for each resting order, turn the maker's resting quote into
      position. In a book of round lots they are orders a noise trader may draw. */
  lemma {:induction false} Drain(s: Sim, side: Side, a: Agent) returns (moves: seq<Move>)
    requires SimOk(s) && MAKER < a < |s.agents|
    ensures OthersOnly(moves, |s.agents|)
    ensures Sign(side) * Play(s, moves).agents[MAKER].position == Reach(s, side)
    ensures LotSide(s.book.Of(side)) && FIRST_NOISE <= a < AGENTS ==> NoiseOnly(moves)
    decreases |s.book.Of(side)|
  {
    hide Send, RouteAll, Owned, OwnedTaken, MarketOk, Step;
    if s.book.Of(side) == [] {
      moves := [];
      NothingOwned(s.book.Of(side), s.owner, MAKER);
    } else {
      var op := TakeHead(s, side);
      var s1 := Send(s, a, op);
      HeadIsTaken(s.book, side, op);
      SendFrame(s, a, op);
      SendKeepsOk(s, a, op);
      SendMovesStakes(s, a, op);
      var more := Drain(s1, side, a);
      moves := [Move(a, op)] + more;
      assert moves[1..] == more;
      assert Play(s, moves) == Play(s1, more);
      if LotSide(s.book.Of(side)) && FIRST_NOISE <= a < AGENTS {
        TakeHeadIsDraw(s, side);
      }
    }
  }

  lemma {:induction false} TakeHeadIsDraw(s: Sim, side: Side)
    requires SimOk(s) && s.book.Of(side) != [] && LotSide(s.book.Of(side))
    ensures var op := TakeHead(s, side); DrawOk(Place(op.side, op.kind, op.price, op.quantity))
    ensures LotSide(s.book.Of(side)[1..])
  {
    assert Live(s.book.Of(side)[0], side, s.book.nextId);
  }

  // ---- The limit ----

  /** Whatever the other agents do before the maker's next tick, its position does not pass the limit. */
  ghost predicate SafeAmong(s: Sim, side: Side)
    requires |s.agents| > 0
  {
    forall moves :: OthersOnly(moves, |s.agents|) ==> Sign(side) * Play(s, moves).agents[MAKER].position <= MAX_POSITION
  }

  /** The same for others that send only what noise traders draw. */
  ghost predicate SafeAmongNoise(s: Sim, side: Side)
    requires |s.agents| == AGENTS
  {
    forall moves :: NoiseOnly(moves) ==> Sign(side) * Play(s, moves).agents[MAKER].position <= MAX_POSITION
  }

  /** The exact condition at the gate: the others cannot take the position past the limit if and only
      if position plus resting quote is within it, on the long and on the short side. */
  lemma {:induction false} LimitKeptIff(s: Sim, side: Side)
    requires SimOk(s) && |s.agents| > 1
    ensures SafeAmong(s, side) <==> Reach(s, side) <= MAX_POSITION
  {
    hide SimOk, Owned;
    if Reach(s, side) <= MAX_POSITION {
      forall moves | OthersOnly(moves, |s.agents|)
        ensures Sign(side) * Play(s, moves).agents[MAKER].position <= MAX_POSITION
      {
        OthersKeepReach(s, moves, side);
      }
    } else {
      var moves := Drain(s, side, 1);
    }
  }

  /** After the maker's tick on any run of the simulation, orders that noise traders draw can take the
      position past the limit if and only if position plus resting quote passes it. */
  lemma {:induction false} LimitKeptIffOnEveryRun(cs: seq<Choice>, bid: Price, ask: Price, side: Side)
    requires AllChoices(cs)
    ensures |START.sim.agents| == AGENTS
    ensures var s := Tick(Ticks(START, cs), bid, ask).sim;
            |s.agents| == AGENTS && (SafeAmongNoise(s, side) <==> Reach(s, side) <= MAX_POSITION)
  {
    hide SimOk, Owned, Ticks, Tick, DeskOk, LotSide, DrawOk;
    EveryRunOfTheSimulation(cs);
    var d := Ticks(START, cs);
    TickKeepsDesk(d, bid, ask);
    TickLots(d, bid, ask);
    var s := Tick(d, bid, ask).sim;
    DeskIsSim(Tick(d, bid, ask));
    if Reach(s, side) <= MAX_POSITION {
      forall moves | NoiseOnly(moves)
        ensures Sign(side) * Play(s, moves).agents[MAKER].position <= MAX_POSITION
      {
        OthersKeepReach(s, moves, side);
      }
    } else {
      var moves := Drain(s, side, FIRST_NOISE);
    }
  }

  // ---- Runs that pass the limit ----

  /** Only the maker's quotes rest. */
  ghost predicate OnlyMaker(s: Sim) {
    && (forall k :: 0 <= k < |s.book.bids| ==> s.book.bids[k].id in s.owner && s.owner[s.book.bids[k].id] == MAKER)
    && (forall k :: 0 <= k < |s.book.asks| ==> s.book.asks[k].id in s.owner && s.owner[s.book.asks[k].id] == MAKER)
  }

  lemma {:induction false} NothingLeft(s: Sim, s': Sim)
    requires OnlyMaker(s) && s'.owner == s.owner && Within(s'.book.bids, s.book.bids) && Within(s'.book.asks, s.book.asks)
    requires Cleared(s', Buy) && Cleared(s', Sell)
    ensures s'.book.bids == [] && s'.book.asks == []
  {
    NoneWithinAll(s'.book.Of(Buy), s.book.bids, s.owner);
    NoneWithinAll(s'.book.Of(Sell), s.book.asks, s.owner);
  }

  lemma {:induction false} NoneWithinAll(t': seq<Order>, t: seq<Order>, owner: map<OrderId, Agent>)
    requires Within(t', t) && forall k :: 0 <= k < |t| ==> t[k].id in owner && owner[t[k].id] == MAKER
    requires forall k :: 0 <= k < |t'| ==> !(t'[k].id in owner && owner[t'[k].id] == MAKER)
    ensures t' == []
  {
    assert t' != [] ==> NamedIn(t'[0], t);
  }

  lemma {:induction false} WithinChain(a: seq<Order>, b: seq<Order>, c: seq<Order>)
    requires Within(a, b) && Within(b, c)
    ensures Within(a, c)
  {
    forall k | 0 <= k < |a| ensures NamedIn(a[k], c) {
      assert NamedIn(a[k], b);
      var j :| 0 <= j < |b| && SameOrder(b[j], a[k]);
      assert NamedIn(b[j], c);
      var i :| 0 <= i < |c| && SameOrder(c[i], b[j]);
      assert SameOrder(c[i], a[k]);
    }
  }

  lemma {:induction false} PullEmpties(d: Desk)
    requires DeskOk(d) && OnlyMaker(d.sim)
    ensures var s := Pull(d).sim; s.book.bids == [] && s.book.asks == [] && s.owner == d.sim.owner
  {
    hide OnlyQuote, Owned, Cleared, PullQuote, MarketOk, OnlyMaker, Within;
    PullKeepsDesk(d);
    var s1 := PullQuote(d.sim, d.bidId);
    PullClears(d.sim, Buy, d.bidId);
    OnlyWithin(s1.book.asks, d.sim.book.asks, d.sim.owner, MAKER, d.askId);
    PullClears(s1, Sell, d.askId);
    var s2 := Pull(d).sim;
    WithinChain(s2.book.bids, s1.book.bids, d.sim.book.bids);
    WithinChain(s2.book.asks, s1.book.asks, d.sim.book.asks);
    NothingLeft(d.sim, s2);
  }

  function QuoteOrder(id: OrderId, side: Side, price: Price): Order {
    Order(id, side, Limit, price, QUOTE_SIZE, QUOTE_SIZE, Accepted)
  }

  /** The maker's two quotes on an empty book. */
  lemma {:induction false} QuotesRest(n: OrderId, bid: Price, ask: Price)
    requires n > 0 && 0 < bid < ask
    ensures var b, a := QuoteOrder(n, Buy, bid), QuoteOrder(n + 1, Sell, ask);
            && Step(Book([], [], n), Submit(Buy, Limit, bid, QUOTE_SIZE)) == Outcome(Book([b], [], n + 1), Submitted(n, []))
            && Step(Book([b], [], n + 1), Submit(Sell, Limit, ask, QUOTE_SIZE)) == Outcome(Book([b], [a], n + 2), Submitted(n + 1, []))
  {
    var b, a := QuoteOrder(n, Buy, bid), QuoteOrder(n + 1, Sell, ask);
    assert Insert([], b) == [b] && Insert([], a) == [a];
  }

  /** A market order of at most a quote's size trades with the quote it meets. */
  lemma {:induction false} QuoteIsHit(book: Book, side: Side, quote: Order, q: Quantity)
    requires 0 < q <= QUOTE_SIZE && quote.remaining == QUOTE_SIZE && quote.price > 0 && book.Of(side) == [quote]
    ensures var hit := Step(book, Submit(side.Opposite(), OrderType.Market, 0, q));
            && hit.reply == Submitted(book.nextId, [Execution(NewOrder(book.nextId, side.Opposite(), OrderType.Market, 0, q), quote, q)])
            && hit.book == book.With(side, if q == QUOTE_SIZE then [] else [quote.(remaining := QUOTE_SIZE - q)]).(nextId := book.nextId + 1)
  {
    var taker := NewOrder(book.nextId, side.Opposite(), OrderType.Market, 0, q);
    assert [quote][1..] == [];
    assert Sweep([], After(taker, quote)) == Swept([], [], After(taker, quote));
    if q == QUOTE_SIZE {
      assert Sweep([quote], taker).trades == [Execution(taker, quote, q)] + [];
    } else {
      assert Sweep([quote], taker).rest == [quote.(remaining := QUOTE_SIZE - q)] + [];
    }
  }

  lemma {:induction false} QuietSend(s: Sim, a: Agent, op: Op, x: Agent)
    requires SimOk(s) && op.Submit? && a < |s.agents| && x < |s.agents| && Step(s.book, op).reply.trades == []
    ensures |Send(s, a, op).agents| == |s.agents| && Send(s, a, op).agents[x].position == s.agents[x].position
  {
    SendMovesRestingOwners(s, a, op, x);
  }

  lemma {:induction false} TickQuotes(d: Desk, bid: Price, ask: Price)
    requires DeskOk(d) && OnlyMaker(d.sim) && -MAX_POSITION < d.Position() < MAX_POSITION && 0 < bid < ask
    ensures var d', n := Tick(d, bid, ask), Pull(d).sim.book.nextId;
            && d'.sim.book == Book([QuoteOrder(n, Buy, bid)], [QuoteOrder(n + 1, Sell, ask)], n + 2)
            && d'.Position() == d.Position()
            && n > 0 && d'.sim.owner == d.sim.owner[n := MAKER][n + 1 := MAKER]
  {
    hide OnlyQuote, Owned, Cleared, RouteAll, Send, Step, OnlyMaker;
    PullKeepsDesk(d);
    PullEmpties(d);
    var d1 := Pull(d);
    var n, buy, sell := d1.sim.book.nextId, Submit(Buy, Limit, bid, QUOTE_SIZE), Submit(Sell, Limit, ask, QUOTE_SIZE);
    QuotesRest(n, bid, ask);
    SendFrame(d1.sim, MAKER, buy);
    QuietSend(d1.sim, MAKER, buy, MAKER);
    SendKeepsOk(d1.sim, MAKER, buy);
    var d2 := QuoteBid(d1, bid);
    SendFrame(d2.sim, MAKER, sell);
    QuietSend(d2.sim, MAKER, sell, MAKER);
  }

  /** From a position at or past the limit, on a book with only the maker's quotes, a tick leaves one
      quote of 100 shares on the side that unwinds the position, and nothing else. */
  lemma {:induction false} TickUnwinds(d: Desk, bid: Price, ask: Price)
    requires DeskOk(d) && OnlyMaker(d.sim) && 0 < bid < ask && !(-1000 < d.Position() < 1000)
    ensures var d', n := Tick(d, bid, ask), d.sim.book.nextId;
            if d.Position() >= 1000 then
              d'.sim.book == Book([], [Order(n, Sell, Limit, ask, 100, 100, Accepted)], n + 1) && d'.bidId == 0 && d'.askId == n
            else
              d'.sim.book == Book([Order(n, Buy, Limit, bid, 100, 100, Accepted)], [], n + 1) && d'.bidId == n && d'.askId == 0
  {
    hide OnlyQuote, Owned, Cleared, RouteAll, Send, Step, OnlyMaker, Pull;
    PullCounts(d);
    PullKeepsDesk(d);
    PullEmpties(d);
    var d1, n := Pull(d), d.sim.book.nextId;
    LoneQuote(n, Buy, bid);
    LoneQuote(n, Sell, ask);
    var buy, sell := Submit(Buy, Limit, bid, QUOTE_SIZE), Submit(Sell, Limit, ask, QUOTE_SIZE);
    SendFrame(d1.sim, MAKER, buy);
    SendFrame(d1.sim, MAKER, sell);
    QuietSend(d1.sim, MAKER, buy, MAKER);
  }

  lemma {:induction false} LoneQuote(n: OrderId, side: Side, price: Price)
    requires n > 0 && price > 0
    ensures Step(Book([], [], n), Submit(side, Limit, price, QUOTE_SIZE)) ==
            Outcome(Book([], [], n + 1).With(side, [QuoteOrder(n, side, price)]), Submitted(n, []))
  {
    assert Insert([], QuoteOrder(n, side, price)) == [QuoteOrder(n, side, price)];
  }

  lemma {:induction false} OneFill(t: Trade, side: Side, owner: map<OrderId, Agent>)
    requires var id := RestingId(side.Opposite(), t); id in owner && owner[id] == MAKER
    ensures PassiveNet([t], side.Opposite(), owner, MAKER) == Sign(side) * t.quantity
  {
    assert [t][1..] == [];
  }

  /** Right after the quotes, a market order by another agent moves the maker's position by its size. */
  lemma {:induction false} HitMovesMaker(s: Sim, n: OrderId, bid: Price, ask: Price, side: Side, q: Quantity)
    requires SimOk(s) && |s.agents| == AGENTS && n > 0 && 0 < bid < ask && 0 < q <= QUOTE_SIZE
    requires s.book == Book([QuoteOrder(n, Buy, bid)], [QuoteOrder(n + 1, Sell, ask)], n + 2)
    requires n in s.owner && n + 1 in s.owner && s.owner[n] == s.owner[n + 1] == MAKER
    ensures var s' := Send(s, FIRST_NOISE, Submit(side.Opposite(), OrderType.Market, 0, q));
            && |s'.agents| == AGENTS && OnlyMaker(s')
            && s'.agents[MAKER].position == s.agents[MAKER].position + Sign(side) * q
  {
    hide Step, RouteAll, Send, SimOk, PassiveNet;
    var op := Submit(side.Opposite(), OrderType.Market, 0, q);
    var quote := s.book.Of(side)[0];
    QuoteIsHit(s.book, side, quote, q);
    SendFrame(s, FIRST_NOISE, op);
    SendMovesRestingOwners(s, FIRST_NOISE, op, MAKER);
    OneFill(Step(s.book, op).reply.trades[0], side, s.owner);
  }

  /** A tick in which the first noise trader sends a market order into the maker's quote on a side. */
  function Round(side: Side, bid: Price, ask: Price, q: Quantity): Choice {
    Choice(bid, ask, NoSignal, [Place(side.Opposite(), OrderType.Market, 0, q), Quiet, Quiet])
  }

  lemma {:induction false} RoundMoves(d: Desk, side: Side, bid: Price, ask: Price, q: Quantity)
    requires DeskOk(d) && OnlyMaker(d.sim) && |d.sim.agents| == AGENTS && 0 < bid < ask
    requires LOT <= q <= QUOTE_SIZE && WholeLots(q) && -MAX_POSITION < d.Position() < MAX_POSITION
    ensures ChoiceOk(Round(side, bid, ask, q))
    ensures var d' := TickAll(d, Round(side, bid, ask, q));
            DeskOk(d') && OnlyMaker(d'.sim) && d'.Position() == d.Position() + Sign(side) * q
  {
    hide DeskOk, SimOk, Send, Step, Tick, OnlyMaker;
    var c := Round(side, bid, ask, q);
    TickAllKeepsDesk(d, c);
    TickQuotes(d, bid, ask);
    TickKeepsDesk(d, bid, ask);
    var d1 := Tick(d, bid, ask);
    DeskIsSim(d1);
    HitMovesMaker(d1.sim, Pull(d).sim.book.nextId, bid, ask, side, q);
    ThenQuiet(d1.sim, c.noise);
  }

  lemma {:induction false} ThenQuiet(s: Sim, noise: seq<Draw>)
    requires |s.agents| == AGENTS && |noise| == AGENTS - FIRST_NOISE && noise[1] == noise[2] == Quiet
    ensures NoiseFrom(s, noise, 0) == Follow(s, FIRST_NOISE, noise[0])
  {
    hide Send;
    var s1 := Follow(s, FIRST_NOISE, noise[0]);
    assert NoiseFrom(s1, noise, 3) == s1;
    assert NoiseFrom(s1, noise, 2) == NoiseFrom(Follow(s1, 4, Quiet), noise, 3);
    assert NoiseFrom(s1, noise, 1) == NoiseFrom(Follow(s1, 3, Quiet), noise, 2);
  }

  datatype Quotes = Quotes(bid: Price, ask: Price)

  ghost predicate QuotesOk(quotes: seq<Quotes>) {
    forall k :: 0 <= k < |quotes| ==> 0 < quotes[k].bid < quotes[k].ask
  }

  /** The run quotes these prices, tick by tick. */
  ghost predicate QuotedAs(cs: seq<Choice>, quotes: seq<Quotes>) {
    |cs| == |quotes| && forall k :: 0 <= k < |cs| ==> cs[k].bid == quotes[k].bid && cs[k].ask == quotes[k].ask
  }

  /** A hundred shares a tick, as long as the gate lets the maker quote. */
  lemma {:induction false} Climb(d: Desk, side: Side, quotes: seq<Quotes>) returns (cs: seq<Choice>)
    requires DeskOk(d) && OnlyMaker(d.sim) && |d.sim.agents| == AGENTS && QuotesOk(quotes)
    requires 0 <= Sign(side) * d.Position() && (quotes != [] ==> Sign(side) * d.Position() + QUOTE_SIZE * (|quotes| - 1) < MAX_POSITION)
    ensures AllChoices(cs) && QuotedAs(cs, quotes)
    ensures Sign(side) * Ticks(d, cs).Position() == Sign(side) * d.Position() + QUOTE_SIZE * |quotes|
    decreases |quotes|
  {
    hide DeskOk, TickAll, OnlyMaker, ChoiceOk;
    if quotes == [] {
      cs := [];
    } else {
      var c := Round(side, quotes[0].bid, quotes[0].ask, QUOTE_SIZE);
      RoundMoves(d, side, quotes[0].bid, quotes[0].ask, QUOTE_SIZE);
      ChoiceHasNoise(c);
      var more := Climb(TickAll(d, c), side, quotes[1..]);
      cs := [c] + more;
      assert cs[1..] == more;
    }
  }

  const TICKS_TO_EXTREME: nat := 11

  /** Whatever positive prices the maker quotes, with its bid below its ask, there are draws of the
      noise traders that take its recorded position to 1090, and others that take it to -1090. */
  lemma {:induction false} ExtremeIsReached(side: Side, quotes: seq<Quotes>) returns (cs: seq<Choice>)
    requires |quotes| == TICKS_TO_EXTREME && QuotesOk(quotes)
    ensures AllChoices(cs) && QuotedAs(cs, quotes) && |START.sim.agents| == AGENTS
    ensures Ticks(START, cs).Position() == Sign(side) * EXTREME
    ensures EXTREME == 1090 > MAX_POSITION
  {
    hide DeskOk, TickAll, OnlyMaker, ChoiceOk, Sim0;
    StartOk();
    NobodyRests();
    var c := Round(side, quotes[0].bid, quotes[0].ask, QUOTE_SIZE - LOT);
    RoundMoves(START, side, quotes[0].bid, quotes[0].ask, QUOTE_SIZE - LOT);
    ChoiceHasNoise(c);
    var more := Climb(TickAll(START, c), side, quotes[1..]);
    cs := [c] + more;
    assert cs[1..] == more;
  }

  lemma {:induction false} NobodyRests()
    ensures OnlyMaker(START.sim)
  {
  }
}
