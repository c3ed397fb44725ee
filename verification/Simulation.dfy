/** The simulation object: one engine, the order-owner map and five agents, driven tick by tick. */
module Simulation {
  import opened Types
  import opened FlatBook
  import opened Exchange
  import opened MatchingEngines
  import opened Agents
  import opened Maker
  import opened TickModel

  class Simulator {
    const engine: MatchingEngine
    const symbol: Symbol
    var orderOwner: map<OrderId, Agent>
    var agents: seq<TraderStats>
    var tradeLog: seq<Trade>
    var activeBidId: OrderId
    var activeAskId: OrderId

    ghost predicate Valid()
      reads this, engine, engine.repr
    {
      engine.Valid() && this !in engine.repr && |agents| == AGENTS
    }

    ghost function Now(): Sim
      reads this, engine
    {
      Sim(engine.Now().Book(symbol), orderOwner, agents, tradeLog)
    }

    ghost function TheDesk(): Desk
      reads this, engine
    {
      Desk(Now(), activeBidId, activeAskId)
    }

    constructor (symbol: Symbol)
      ensures Valid() && fresh(engine.repr) && TheDesk() == START
    {
      engine := new MatchingEngine();
      this.symbol := symbol;
      orderOwner, tradeLog, activeBidId, activeAskId := map[], [], 0, 0;
      agents := seq(AGENTS, _ => TraderStats(0, 0, 0, 0, 0));
    }

    /** The trade callback. */
    method RouteTrade(t: Trade)
      modifies this`agents, this`tradeLog
      ensures Now() == Route(old(Now()), t)
    {
      tradeLog := tradeLog + [t];
      if t.buyId in orderOwner && orderOwner[t.buyId] < |agents| {
        var a := orderOwner[t.buyId];
        agents := agents[a := agents[a].OnFill(Buy, t.price, t.quantity)];
      }
      if t.sellId in orderOwner && orderOwner[t.sellId] < |agents| {
        var a := orderOwner[t.sellId];
        agents := agents[a := agents[a].OnFill(Sell, t.price, t.quantity)];
      }
    }

    method RouteTrades(trades: seq<Trade>)
      modifies this`agents, this`tradeLog
      ensures Now() == RouteAll(old(Now()), trades)
    {
      hide Route;
      for i := 0 to |trades|
        invariant RouteAll(Now(), trades[i..]) == RouteAll(old(Now()), trades)
      {
        assert trades[i..][1..] == trades[i + 1..];
        RouteTrade(trades[i]);
      }
      assert trades[|trades|..] == [];
    }

    /** Submits an order for an agent: the engine delivers the fills, then the owner is registered. */
    method SendOrder(a: Agent, side: Side, kind: OrderType, price: Price, quantity: Quantity) returns (id: OrderId)
      requires Valid() && a < AGENTS
      modifies this`agents, this`tradeLog, this`orderOwner, engine.repr
      ensures Valid() && fresh(engine.repr - old(engine.repr))
      ensures Now() == Send(old(Now()), a, Submit(side, kind, price, quantity))
      ensures id == Step(old(Now()).book, Submit(side, kind, price, quantity)).reply.id
    {
      hide MatchingEngine.Valid, Apply, RouteAll, Step;
      ghost var s, op := Now(), Submit(side, kind, price, quantity);
      CallOnSymbol(engine.Now(), Call(symbol, op), symbol);
      agents := agents[a := agents[a].(ordersSent := agents[a].ordersSent + 1)];
      var seen := |engine.tape|;
      id := engine.SubmitOrder(symbol, side, kind, price, quantity);
      SendFrame(s, a, op);
      RouteAllFrame(Now(), engine.tape[seen..]);
      RouteTrades(engine.tape[seen..]);
      if id > 0 {
        orderOwner := orderOwner[id := a];
      }
    }

    method SendCancel(a: Agent, id: OrderId) returns (ok: bool)
      requires Valid() && a < AGENTS
      modifies this`agents, engine.repr
      ensures Valid() && fresh(engine.repr - old(engine.repr))
      ensures Now() == Withdraw(old(Now()), a, Cancel(id))
      ensures Done(ok) == Step(old(Now()).book, Cancel(id)).reply
      ensures ok <==> old(Now()).book.Has(id)
    {
      hide MatchingEngine.Valid, Apply, Step;
      CallOnSymbol(engine.Now(), Call(symbol, Cancel(id)), symbol);
      agents := agents[a := agents[a].(cancelsSent := agents[a].cancelsSent + 1)];
      ok := engine.CancelOrder(symbol, id);
    }

    /** The market maker cancels the quotes it knows of. */
    method PullQuotes()
      requires Valid()
      modifies this`agents, this`activeBidId, this`activeAskId, engine.repr
      ensures Valid() && fresh(engine.repr - old(engine.repr))
      ensures TheDesk() == Pull(old(TheDesk()))
    {
      hide MatchingEngine.Valid, Step;
      if activeBidId > 0 {
        var _ := SendCancel(MAKER, activeBidId);
        activeBidId := 0;
      }
      if activeAskId > 0 {
        var _ := SendCancel(MAKER, activeAskId);
        activeAskId := 0;
      }
    }

    /** The market maker's tick. */
    method MakerOnTick(bid: Price, ask: Price)
      requires Valid()
      modifies this, engine.repr
      ensures Valid() && fresh(engine.repr - old(engine.repr))
      ensures TheDesk() == Tick(old(TheDesk()), bid, ask)
      ensures old(DeskOk(TheDesk())) && 0 < bid < ask ==>
                && (activeBidId != 0 <==> old(agents[MAKER].position) < 1000)
                && (activeAskId != 0 <==> old(agents[MAKER].position) > -1000)
                && agents[MAKER].position == old(agents[MAKER].position)
    {
      hide MatchingEngine.Valid, Send, Step, Pull, DeskOk;
      ghost var d := TheDesk();
      if DeskOk(d) && 0 < bid < ask {
        TickSends(d, bid, ask);
      }
      PullQuotes();
      if agents[MAKER].position < MAX_POSITION {
        activeBidId := SendOrder(MAKER, Buy, Limit, bid, QUOTE_SIZE);
      }
      assert TheDesk() == QuoteBid(Pull(d), bid);
      if agents[MAKER].position > -MAX_POSITION {
        activeAskId := SendOrder(MAKER, Sell, Limit, ask, QUOTE_SIZE);
      }
    }

    method Perform(a: Agent, w: Draw)
      requires Valid() && a < AGENTS
      modifies this`agents, this`tradeLog, this`orderOwner, engine.repr
      ensures Valid() && fresh(engine.repr - old(engine.repr))
      ensures Now() == Follow(old(Now()), a, w)
    {
      hide MatchingEngine.Valid, Send, Step;
      match w
      case Quiet =>
      case Place(side, kind, price, quantity) =>
        var _ := SendOrder(a, side, kind, price, quantity);
    }

    /** Follows the signal with a market order while its own position gate allows it. */
    method MomentumOnTick(signal: Signal)
      requires Valid()
      modifies this`agents, this`tradeLog, this`orderOwner, engine.repr
      ensures Valid() && fresh(engine.repr - old(engine.repr))
      ensures Now() == Follow(old(Now()), MOMENTUM, MomentumMove(old(Now()), signal))
      ensures old(agents[MOMENTUM].position) == 0 ==> Now() == Play(old(Now()), MomentumMoves(signal))
    {
      hide MatchingEngine.Valid, Send, Play;
      if agents[MOMENTUM].position == 0 {
        MomentumFollows(Now(), signal);
      }
      if signal.Up? && agents[MOMENTUM].position < MOMENTUM_MAX {
        var _ := SendOrder(MOMENTUM, Buy, Market, 0, TRADE_SIZE);
      } else if signal.Down? && agents[MOMENTUM].position > -MOMENTUM_MAX {
        var _ := SendOrder(MOMENTUM, Sell, Market, 0, TRADE_SIZE);
      }
    }

    /** The tick loop. From a fresh start the market maker stays within plus or minus 1090. */
    method RunTicks(cs: seq<Choice>)
      requires Valid() && AllChoices(cs)
      modifies this, engine.repr
      ensures Valid() && TheDesk() == Ticks(old(TheDesk()), cs)
      ensures old(TheDesk()) == START ==> -EXTREME <= agents[MAKER].position <= EXTREME
    {
      hide MatchingEngine.Valid, TickAll, ChoiceOk;
      ghost var start := TheDesk();
      assert cs[0..] == cs;
      for i := 0 to |cs|
        invariant Valid() && fresh(engine.repr - old(engine.repr))
        invariant Ticks(TheDesk(), cs[i..]) == Ticks(start, cs)
      {
        assert cs[i..][1..] == cs[i + 1..];
        ChoiceHasNoise(cs[i]);
        OneTick(cs[i]);
      }
      assert cs[|cs|..] == [];
      EveryRunOfTheSimulation(cs);
    }

    method OneTick(c: Choice)
      requires Valid() && ChoiceOk(c)
      modifies this, engine.repr
      ensures Valid() && fresh(engine.repr - old(engine.repr))
      ensures TheDesk() == TickAll(old(TheDesk()), c)
    {
      hide MatchingEngine.Valid, Follow, Tick;
      MakerOnTick(c.bid, c.ask);
      MomentumOnTick(c.signal);
      ghost var s := Now();
      ghost var bidId, askId := activeBidId, activeAskId;
      for k := 0 to |c.noise|
        invariant Valid() && fresh(engine.repr - old(engine.repr)) && activeBidId == bidId && activeAskId == askId
        invariant NoiseFrom(Now(), c.noise, k) == NoiseFrom(s, c.noise, 0)
      {
        Perform(FIRST_NOISE + k, c.noise[k]);
      }
    }
  }
}
