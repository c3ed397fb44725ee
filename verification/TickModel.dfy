/** The simulation tick by tick: the market maker, the momentum trader and three noise traders on one
    book. The prices, sides and sizes the agents draw are inputs. */
module TickModel {
  import opened Types
  import opened FlatBook
  import opened Sweeping
  import opened Market
  import opened Agents
  import opened Maker

  const MOMENTUM: Agent := 1
  const FIRST_NOISE: Agent := 2
  const AGENTS: nat := 5
  const TRADE_SIZE: Quantity := 50
  const MOMENTUM_MAX := 500

  /** What the momentum trader reads off its price window. */
  datatype Signal = Up | Down | NoSignal

  /** What a noise trader draws. */
  datatype Draw = Quiet | Place(side: Side, kind: OrderType, price: Price, quantity: Quantity)

  /** Noise traders deal in round lots. */
  const LOT: Quantity := 10
  const MAX_SIZE: Quantity := 200

  predicate WholeLots(n: int) {
    n % 10 == 0
  }

  lemma {:induction false} LotsAdd(a: int, b: int)
    requires WholeLots(a) && WholeLots(b)
    ensures WholeLots(a + b) && WholeLots(a - b)
  {
    assert a == 10 * (a / 10) && b == 10 * (b / 10);
    assert a + b == 10 * (a / 10 + b / 10) && a - b == 10 * (a / 10 - b / 10);
  }

  /** The draws of a noise trader: a limit order at a positive price or a market order, of 10 to 200
      shares in multiples of 10. */
  predicate DrawOk(w: Draw) {
    w.Place? ==>
      && (if w.kind.Limit? then w.price > 0 else w.kind.Market? && w.price == 0)
      && LOT <= w.quantity <= MAX_SIZE && WholeLots(w.quantity)
  }

  datatype Choice = Choice(bid: Price, ask: Price, signal: Signal, noise: seq<Draw>)

  // ---- One tick of all agents ----

  function MomentumMove(s: Sim, signal: Signal): Draw
    requires |s.agents| == AGENTS
  {
    if signal.Up? && s.agents[MOMENTUM].position < MOMENTUM_MAX then Place(Buy, Market, 0, TRADE_SIZE)
    else if signal.Down? && s.agents[MOMENTUM].position > -MOMENTUM_MAX then Place(Sell, Market, 0, TRADE_SIZE)
    else Quiet
  }

  function Follow(s: Sim, a: Agent, d: Draw): (s': Sim)
    requires |s.agents| == AGENTS && a < AGENTS
    ensures |s'.agents| == AGENTS
  {
    match d
    case Quiet => s
    case Place(side, kind, price, quantity) =>
      SendFrame(s, a, Submit(side, kind, price, quantity));
      Send(s, a, Submit(side, kind, price, quantity))
  }

  function NoiseFrom(s: Sim, noise: seq<Draw>, k: nat): (s': Sim)
    requires |s.agents| == AGENTS && k <= |noise| == AGENTS - FIRST_NOISE
    ensures |s'.agents| == AGENTS
    decreases |noise| - k
  {
    if k == |noise| then s else NoiseFrom(Follow(s, FIRST_NOISE + k, noise[k]), noise, k + 1)
  }

  /** Market maker, momentum trader, then the noise traders. */
  function TickAll(d: Desk, c: Choice): (d': Desk)
    requires |d.sim.agents| == AGENTS && |c.noise| == AGENTS - FIRST_NOISE
    ensures |d'.sim.agents| == AGENTS
  {
    var d1 := Tick(d, c.bid, c.ask);
    var s2 := Follow(d1.sim, MOMENTUM, MomentumMove(d1.sim, c.signal));
    d1.(sim := NoiseFrom(s2, c.noise, 0))
  }

  ghost predicate ChoiceOk(c: Choice) {
    |c.noise| == AGENTS - FIRST_NOISE && forall k :: 0 <= k < |c.noise| ==> DrawOk(c.noise[k])
  }

  ghost predicate AllChoices(cs: seq<Choice>) {
    forall k :: 0 <= k < |cs| ==> ChoiceOk(cs[k])
  }

  function Ticks(d: Desk, cs: seq<Choice>): (d': Desk)
    requires |d.sim.agents| == AGENTS && AllChoices(cs)
    ensures |d'.sim.agents| == AGENTS
    decreases cs
  {
    if cs == [] then d else Ticks(TickAll(d, cs[0]), cs[1..])
  }

  // ---- The bound and the routing hold for the simulation's own runs ----

  lemma {:induction false} FollowKeepsDesk(d: Desk, a: Agent, w: Draw)
    requires DeskOk(d) && |d.sim.agents| == AGENTS && MAKER < a < AGENTS
    ensures DeskOk(d.(sim := Follow(d.sim, a, w)))
  {
    hide DeskOk, Send;
    if w.Place? {
      OtherSendKeepsDesk(d, a, Submit(w.side, w.kind, w.price, w.quantity));
    }
  }

  lemma {:induction false} NoiseKeepsDesk(d: Desk, noise: seq<Draw>, k: nat)
    requires DeskOk(d) && |d.sim.agents| == AGENTS && k <= |noise| == AGENTS - FIRST_NOISE
    ensures DeskOk(d.(sim := NoiseFrom(d.sim, noise, k)))
    decreases |noise| - k
  {
    hide DeskOk, Follow;
    if k < |noise| {
      FollowKeepsDesk(d, FIRST_NOISE + k, noise[k]);
      NoiseKeepsDesk(d.(sim := Follow(d.sim, FIRST_NOISE + k, noise[k])), noise, k + 1);
    }
  }

  lemma {:induction false} TickAllKeepsDesk(d: Desk, c: Choice)
    requires DeskOk(d) && |d.sim.agents| == AGENTS && |c.noise| == AGENTS - FIRST_NOISE
    ensures DeskOk(TickAll(d, c))
  {
    hide DeskOk, Follow, Tick, NoiseFrom;
    var d1 := Tick(d, c.bid, c.ask);
    TickKeepsDesk(d, c.bid, c.ask);
    var move := MomentumMove(d1.sim, c.signal);
    FollowKeepsDesk(d1, MOMENTUM, move);
    NoiseKeepsDesk(d1.(sim := Follow(d1.sim, MOMENTUM, move)), c.noise, 0);
  }

  lemma {:induction false} TicksKeepDesk(d: Desk, cs: seq<Choice>)
    requires DeskOk(d) && |d.sim.agents| == AGENTS && AllChoices(cs)
    ensures DeskOk(Ticks(d, cs))
    decreases cs
  {
    hide DeskOk, TickAll;
    if cs != [] {
      TickAllKeepsDesk(d, cs[0]);
      TicksKeepDesk(TickAll(d, cs[0]), cs[1..]);
    }
  }

  lemma {:induction false} FollowKeepsAbsent(s: Sim, a: Agent, w: Draw)
    requires Absent(s, MOMENTUM) && |s.agents| == AGENTS && a < AGENTS
    requires a == MOMENTUM && w.Place? ==> !w.kind.Limit?
    ensures var s' := Follow(s, a, w);
            Absent(s', MOMENTUM) && s'.agents[MOMENTUM].position == s.agents[MOMENTUM].position
  {
    hide Absent, Send;
    if w.Place? {
      SendKeepsAbsent(s, a, Submit(w.side, w.kind, w.price, w.quantity), MOMENTUM);
    }
  }

  lemma {:induction false} NoiseKeepsAbsent(s: Sim, noise: seq<Draw>, k: nat)
    requires Absent(s, MOMENTUM) && |s.agents| == AGENTS && k <= |noise| == AGENTS - FIRST_NOISE
    ensures var s' := NoiseFrom(s, noise, k);
            Absent(s', MOMENTUM) && s'.agents[MOMENTUM].position == s.agents[MOMENTUM].position
    decreases |noise| - k
  {
    hide Absent, Follow;
    if k < |noise| {
      FollowKeepsAbsent(s, FIRST_NOISE + k, noise[k]);
      NoiseKeepsAbsent(Follow(s, FIRST_NOISE + k, noise[k]), noise, k + 1);
    }
  }

  lemma {:induction false} PullKeepsAbsent(s: Sim, id: OrderId)
    requires Absent(s, MOMENTUM) && |s.agents| == AGENTS
    ensures var s' := PullQuote(s, id);
            Absent(s', MOMENTUM) && |s'.agents| == AGENTS && s'.agents[MOMENTUM].position == s.agents[MOMENTUM].position
  {
    hide Absent, Withdraw;
    if id > 0 {
      WithdrawKeepsAbsent(s, MAKER, Cancel(id), MOMENTUM);
    }
  }

  lemma {:induction false} TickKeepsAbsent(d: Desk, bid: Price, ask: Price)
    requires Absent(d.sim, MOMENTUM) && |d.sim.agents| == AGENTS
    ensures var s' := Tick(d, bid, ask).sim;
            Absent(s', MOMENTUM) && |s'.agents| == AGENTS && s'.agents[MOMENTUM].position == d.sim.agents[MOMENTUM].position
  {
    hide Absent, Send, PullQuote;
    var s1 := PullQuote(d.sim, d.bidId);
    PullKeepsAbsent(d.sim, d.bidId);
    PullKeepsAbsent(s1, d.askId);
    var d2 := Pull(d);
    SendKeepsAbsent(d2.sim, MAKER, Submit(Buy, Limit, bid, QUOTE_SIZE), MOMENTUM);
    var d3 := QuoteBid(d2, bid);
    SendKeepsAbsent(d3.sim, MAKER, Submit(Sell, Limit, ask, QUOTE_SIZE), MOMENTUM);
  }

  lemma {:induction false} TickAllKeepsAbsent(d: Desk, c: Choice)
    requires Absent(d.sim, MOMENTUM) && |d.sim.agents| == AGENTS && |c.noise| == AGENTS - FIRST_NOISE
    ensures var s' := TickAll(d, c).sim;
            Absent(s', MOMENTUM) && s'.agents[MOMENTUM].position == d.sim.agents[MOMENTUM].position
  {
    hide Absent, Follow, Tick, NoiseFrom;
    TickKeepsAbsent(d, c.bid, c.ask);
    var s1 := Tick(d, c.bid, c.ask).sim;
    FollowKeepsAbsent(s1, MOMENTUM, MomentumMove(s1, c.signal));
    NoiseKeepsAbsent(Follow(s1, MOMENTUM, MomentumMove(s1, c.signal)), c.noise, 0);
  }

  lemma {:induction false} TicksKeepAbsent(d: Desk, cs: seq<Choice>)
    requires Absent(d.sim, MOMENTUM) && |d.sim.agents| == AGENTS && AllChoices(cs)
    ensures Ticks(d, cs).sim.agents[MOMENTUM].position == d.sim.agents[MOMENTUM].position
    decreases cs
  {
    hide Absent, TickAll;
    if cs != [] {
      TickAllKeepsAbsent(d, cs[0]);
      TicksKeepAbsent(TickAll(d, cs[0]), cs[1..]);
    }
  }

  // ---- Round lots ----

  /** Every order of a side has whole lots left, at most the largest size. */
  ghost predicate LotSide(s: seq<Order>) {
    forall k :: 0 <= k < |s| ==> WholeLots(s[k].remaining) && s[k].remaining <= MAX_SIZE
  }

  ghost predicate LotTape(trades: seq<Trade>) {
    forall k :: 0 <= k < |trades| ==> WholeLots(trades[k].quantity)
  }

  /** Everything resting and every recorded position is in whole lots. */
  ghost predicate LotsOk(s: Sim) {
    && LotSide(s.book.bids) && LotSide(s.book.asks)
    && forall x :: 0 <= x < |s.agents| ==> WholeLots(s.agents[x].position)
  }

  lemma {:induction false} SweepLots(opp: seq<Order>, taker: Order)
    requires LotSide(opp) && WholeLots(taker.remaining)
    ensures var r := Sweep(opp, taker);
            && LotSide(r.rest) && LotTape(r.trades)
            && WholeLots(r.taker.remaining) && r.taker.remaining <= taker.remaining
    decreases |opp|
  {
    hide WholeLots;
    if !Stops(opp, taker) {
      if opp[0].remaining <= taker.remaining {
        LotsAdd(taker.remaining, opp[0].remaining);
        SweepLots(opp[1..], After(taker, opp[0]));
      } else {
        LotsAdd(opp[0].remaining, taker.remaining);
      }
    }
    LotsAdd(taker.remaining, taker.remaining);
  }

  lemma {:induction false} NetLots(trades: seq<Trade>, taker: Side, owner: map<OrderId, Agent>, x: Agent)
    requires LotTape(trades)
    ensures WholeLots(PassiveNet(trades, taker, owner, x))
    decreases |trades|
  {
    if trades != [] {
      NetLots(trades[1..], taker, owner, x);
      LotsAdd(PassiveNet(trades[1..], taker, owner, x), trades[0].quantity);
    }
  }

  lemma {:induction false} InsertLots(s: seq<Order>, o: Order)
    requires LotSide(s) && WholeLots(o.remaining) && o.remaining <= MAX_SIZE
    ensures LotSide(Insert(s, o))
  {
    var k := InsertShape(s, o);
  }

  lemma {:induction false} RemoveLots(s: seq<Order>, id: OrderId)
    requires LotSide(s)
    ensures LotSide(Remove(s, id))
    decreases |s|
  {
    if s != [] && s[0].id != id {
      RemoveLots(s[1..], id);
    }
  }

  /** A submission in whole lots leaves the book in whole lots and trades in whole lots. */
  lemma {:induction false} StepLots(b: Book, op: Op)
    requires LotSide(b.bids) && LotSide(b.asks)
    requires op.Submit? && WholeLots(op.quantity) && op.quantity <= MAX_SIZE
    ensures var r := Step(b, op); LotSide(r.book.bids) && LotSide(r.book.asks) && LotTape(r.reply.trades)
  {
    hide Sweep, Insert;
    var opp, own, taker := b.Of(op.side.Opposite()), b.Of(op.side), Taker(b, op);
    SweepLots(opp, taker);
    InsertLots(own, Settle(SweepOf(b, op).taker));
  }

  lemma {:induction false} SendLots(s: Sim, a: Agent, op: Op)
    requires SimOk(s) && LotsOk(s) && a < |s.agents|
    requires op.Submit? && WholeLots(op.quantity) && op.quantity <= MAX_SIZE
    ensures LotsOk(Send(s, a, op))
  {
    hide Send, Step, SimOk, LotSide;
    var s' := Send(s, a, op);
    SubmitReplies(s.book, op);
    SendFrame(s, a, op);
    StepLots(s.book, op);
    forall x | 0 <= x < |s'.agents| ensures WholeLots(s'.agents[x].position) {
      SendMovesRestingOwners(s, a, op, x);
      NetLots(Step(s.book, op).reply.trades, op.side, s.owner, x);
      LotsAdd(s.agents[x].position, PassiveNet(Step(s.book, op).reply.trades, op.side, s.owner, x));
    }
  }

  lemma {:induction false} PullLots(s: Sim, id: OrderId)
    requires LotsOk(s) && |s.agents| > 0
    ensures LotsOk(PullQuote(s, id)) && |PullQuote(s, id).agents| == |s.agents|
  {
    RemoveLots(s.book.bids, id);
    RemoveLots(s.book.asks, id);
  }

  lemma {:induction false} TickLots(d: Desk, bid: Price, ask: Price)
    requires DeskOk(d) && LotsOk(d.sim)
    ensures LotsOk(Tick(d, bid, ask).sim)
  {
    hide LotsOk, SimOk, Send, OnlyQuote, Owned, PullQuote, Cleared;
    PullLots(d.sim, d.bidId);
    PullLots(PullQuote(d.sim, d.bidId), d.askId);
    PullKeepsDesk(d);
    QuoteBidKeepsDesk(Pull(d), bid);
    SendLots(Pull(d).sim, MAKER, Submit(Buy, Limit, bid, QUOTE_SIZE));
    SendLots(QuoteBid(Pull(d), bid).sim, MAKER, Submit(Sell, Limit, ask, QUOTE_SIZE));
  }

  lemma {:induction false} FollowLots(d: Desk, a: Agent, w: Draw)
    requires DeskOk(d) && LotsOk(d.sim) && |d.sim.agents| == AGENTS && MAKER < a < AGENTS
    requires w.Place? ==> WholeLots(w.quantity) && w.quantity <= MAX_SIZE
    ensures LotsOk(Follow(d.sim, a, w))
  {
    hide DeskOk, LotsOk, SimOk, Send;
    DeskIsSim(d);
    if w.Place? {
      SendLots(d.sim, a, Submit(w.side, w.kind, w.price, w.quantity));
    }
  }

  lemma {:induction false} DeskIsSim(d: Desk)
    requires DeskOk(d)
    ensures SimOk(d.sim) && |d.sim.agents| > 0
  {
  }

  lemma {:induction false} NoiseLots(d: Desk, noise: seq<Draw>, k: nat)
    requires DeskOk(d) && LotsOk(d.sim) && |d.sim.agents| == AGENTS && k <= |noise| == AGENTS - FIRST_NOISE
    requires forall i :: 0 <= i < |noise| ==> DrawOk(noise[i])
    ensures LotsOk(NoiseFrom(d.sim, noise, k))
    decreases |noise| - k
  {
    hide DeskOk, LotsOk, Follow;
    if k < |noise| {
      assert DrawOk(noise[k]);
      FollowLots(d, FIRST_NOISE + k, noise[k]);
      FollowKeepsDesk(d, FIRST_NOISE + k, noise[k]);
      NoiseLots(d.(sim := Follow(d.sim, FIRST_NOISE + k, noise[k])), noise, k + 1);
    }
  }

  lemma {:induction false} TickAllLots(d: Desk, c: Choice)
    requires DeskOk(d) && LotsOk(d.sim) && |d.sim.agents| == AGENTS && ChoiceOk(c)
    ensures LotsOk(TickAll(d, c).sim)
  {
    hide DeskOk, LotsOk, Follow, Tick, NoiseFrom;
    var d1 := Tick(d, c.bid, c.ask);
    TickKeepsDesk(d, c.bid, c.ask);
    TickLots(d, c.bid, c.ask);
    var move := MomentumMove(d1.sim, c.signal);
    FollowLots(d1, MOMENTUM, move);
    FollowKeepsDesk(d1, MOMENTUM, move);
    NoiseLots(d1.(sim := Follow(d1.sim, MOMENTUM, move)), c.noise, 0);
  }

  lemma {:induction false} TicksLots(d: Desk, cs: seq<Choice>)
    requires DeskOk(d) && LotsOk(d.sim) && |d.sim.agents| == AGENTS && AllChoices(cs)
    ensures LotsOk(Ticks(d, cs).sim)
    decreases cs
  {
    hide DeskOk, LotsOk, TickAll, ChoiceOk;
    if cs != [] {
      ChoiceHasNoise(cs[0]);
      TickAllKeepsDesk(d, cs[0]);
      TickAllLots(d, cs[0]);
      TicksLots(TickAll(d, cs[0]), cs[1..]);
    }
  }

  lemma {:induction false} ChoiceHasNoise(c: Choice)
    requires ChoiceOk(c)
    ensures |c.noise| == AGENTS - FIRST_NOISE
  {
  }

  /** How far the recorded position can get among the simulation's own agents. */
  const EXTREME := MAX_POSITION + QUOTE_SIZE - LOT

  const START := Desk(Sim0(AGENTS), 0, 0)

  lemma {:induction false} StartOk()
    ensures |START.sim.agents| == AGENTS && START.Position() == 0
    ensures DeskOk(START) && LotsOk(START.sim) && Absent(START.sim, MOMENTUM)
  {
  }

  /** On every run of the simulation all resting quantities and recorded positions are in whole lots,
      the market maker stays within plus or minus 1090, and the momentum trader's recorded position
      is 0. */
  lemma {:induction false} EveryRunOfTheSimulation(cs: seq<Choice>)
    requires AllChoices(cs)
    ensures |START.sim.agents| == AGENTS
    ensures var d := Ticks(START, cs);
            DeskOk(d) && LotsOk(d.sim) && -EXTREME <= d.Position() <= EXTREME && d.sim.agents[MOMENTUM].position == 0
  {
    hide Ticks, LotSide, SimOk, Owned, Absent;
    StartOk();
    TicksKeepDesk(START, cs);
    TicksLots(START, cs);
    TicksKeepAbsent(START, cs);
    assert WholeLots(Ticks(START, cs).sim.agents[MAKER].position);
  }

  // ---- A run of the simulation is a run of moves ----

  /** The market maker's moves: cancel the live quotes, then a bid and an ask as its position allows. */
  function MakerMoves(d: Desk, bid: Price, ask: Price): seq<Move>
    requires |d.sim.agents| > 0
  {
    (if d.bidId > 0 then [Move(0, Cancel(d.bidId))] else []) + (if d.askId > 0 then [Move(0, Cancel(d.askId))] else [])
    + (if d.Position() < 1000 then [Move(0, Submit(Buy, Limit, bid, 100))] else [])
    + (if d.Position() > -1000 then [Move(0, Submit(Sell, Limit, ask, 100))] else [])
  }

  /** The momentum trader buys 50 at market when prices rise and sells 50 when they fall. */
  function MomentumMoves(signal: Signal): seq<Move> {
    match signal
    case Up => [Move(1, Submit(Buy, OrderType.Market, 0, 50))]
    case Down => [Move(1, Submit(Sell, OrderType.Market, 0, 50))]
    case NoSignal => []
  }

  function DrawMoves(a: Agent, w: Draw): seq<Move> {
    match w
    case Quiet => []
    case Place(side, kind, price, quantity) => [Move(a, Submit(side, kind, price, quantity))]
  }

  /** All moves of a tick, in the order in which the agents act. */
  function TickMoves(d: Desk, c: Choice): seq<Move>
    requires |d.sim.agents| > 0 && |c.noise| == 3
  {
    MakerMoves(d, c.bid, c.ask) + (MomentumMoves(c.signal)
    + (DrawMoves(2, c.noise[0]) + (DrawMoves(3, c.noise[1]) + DrawMoves(4, c.noise[2]))))
  }

  lemma {:induction false} OneMove(s: Sim, m: Move)
    requires m.agent < |s.agents|
    ensures Roster([m], |s.agents|) && Play(s, [m]) == Act(s, m)
  {
    hide Act;
    ActSize(s, m);
    assert [m][1..] == [];
    assert Play(Act(s, m), []) == Act(s, m);
  }

  lemma {:induction false} PullIsMoves(s: Sim, id: OrderId)
    requires |s.agents| == AGENTS
    ensures var moves := if id > 0 then [Move(0, Cancel(id))] else [];
            Roster(moves, AGENTS) && Play(s, moves) == PullQuote(s, id)
  {
    hide Withdraw, Play;
    if id > 0 {
      OneMove(s, Move(0, Cancel(id)));
    } else {
      NoMoves(s);
    }
  }

  lemma {:induction false} NoMoves(s: Sim)
    ensures Roster([], |s.agents|) && Play(s, []) == s
  {
  }

  lemma {:induction false} QuoteIsMoves(s: Sim, side: Side, price: Price, sends: bool)
    requires |s.agents| == AGENTS
    ensures var moves := if sends then [Move(0, Submit(side, Limit, price, 100))] else [];
            Roster(moves, AGENTS) && Play(s, moves) == if sends then Quote(s, side, price).0 else s
  {
    hide Send, Play;
    if sends {
      OneMove(s, Move(0, Submit(side, Limit, price, 100)));
    } else {
      NoMoves(s);
    }
  }

  lemma {:induction false} MakerIsMoves(d: Desk, bid: Price, ask: Price)
    requires DeskOk(d) && |d.sim.agents| == AGENTS
    ensures var moves := MakerMoves(d, bid, ask); Roster(moves, AGENTS) && Play(d.sim, moves) == Tick(d, bid, ask).sim
  {
    hide DeskOk, Play, Roster, PullQuote, Send;
    var p := d.Position();
    BidLeavesPosition(d, bid);
    var a := if d.bidId > 0 then [Move(0, Cancel(d.bidId))] else [];
    var b := if d.askId > 0 then [Move(0, Cancel(d.askId))] else [];
    var e := if p < 1000 then [Move(0, Submit(Buy, Limit, bid, 100))] else [];
    var f := if p > -1000 then [Move(0, Submit(Sell, Limit, ask, 100))] else [];
    var s0 := d.sim;
    PullIsMoves(s0, d.bidId);
    var s1 := Play(s0, a);
    PullIsMoves(s1, d.askId);
    var s2 := Play(s1, b);
    assert s2 == Pull(d).sim;
    QuoteIsMoves(s2, Buy, bid, p < 1000);
    var s3 := Play(s2, e);
    assert s3 == QuoteBid(Pull(d), bid).sim;
    QuoteIsMoves(s3, Sell, ask, p > -1000);
    PlayConcat(s0, a, b);
    PlayConcat(s0, a + b, e);
    PlayConcat(s0, a + b + e, f);
  }

  lemma {:induction false} DrawIsMoves(s: Sim, a: Agent, w: Draw)
    requires |s.agents| == AGENTS && a < AGENTS
    ensures Roster(DrawMoves(a, w), AGENTS) && Play(s, DrawMoves(a, w)) == Follow(s, a, w)
  {
    hide Send, Play;
    if w.Place? {
      OneMove(s, Move(a, Submit(w.side, w.kind, w.price, w.quantity)));
    } else {
      NoMoves(s);
    }
  }

  lemma {:induction false} NoiseIsMoves(s: Sim, noise: seq<Draw>)
    requires |s.agents| == AGENTS && |noise| == 3
    ensures var moves := DrawMoves(2, noise[0]) + (DrawMoves(3, noise[1]) + DrawMoves(4, noise[2]));
            Roster(moves, AGENTS) && Play(s, moves) == NoiseFrom(s, noise, 0)
  {
    hide Follow, Play, Roster, DrawMoves;
    var a, b, c := DrawMoves(2, noise[0]), DrawMoves(3, noise[1]), DrawMoves(4, noise[2]);
    DrawIsMoves(s, 2, noise[0]);
    var s1 := Play(s, a);
    DrawIsMoves(s1, 3, noise[1]);
    var s2 := Play(s1, b);
    DrawIsMoves(s2, 4, noise[2]);
    PlayConcat(s1, b, c);
    PlayConcat(s, a, b + c);
    assert NoiseFrom(s2, noise, 2) == NoiseFrom(Follow(s2, 4, noise[2]), noise, 3) == Follow(s2, 4, noise[2]);
    assert NoiseFrom(s1, noise, 1) == NoiseFrom(Follow(s1, 3, noise[1]), noise, 2);
  }

  /** A trader without a recorded position follows every signal: its gate of 500 never closes. */
  lemma {:induction false} MomentumFollows(s: Sim, signal: Signal)
    requires |s.agents| == AGENTS && s.agents[MOMENTUM].position == 0
    ensures Roster(MomentumMoves(signal), AGENTS)
    ensures Play(s, MomentumMoves(signal)) == Follow(s, MOMENTUM, MomentumMove(s, signal))
  {
    hide Follow, Play, Roster;
    DrawIsMoves(s, MOMENTUM, MomentumMove(s, signal));
    assert MomentumMoves(signal) == DrawMoves(MOMENTUM, MomentumMove(s, signal));
  }

  /** The momentum trader's order for any position: which way, how much, and when it holds back. */
  lemma {:induction false} MomentumGate(s: Sim, signal: Signal)
    requires |s.agents| == AGENTS
    ensures var p, w := s.agents[1].position, MomentumMove(s, signal);
            && (w == Place(Buy, OrderType.Market, 0, 50) <==> signal == Up && p < 500)
            && (w == Place(Sell, OrderType.Market, 0, 50) <==> signal == Down && p > -500)
            && (w == Quiet <==> signal == NoSignal || (signal == Up && p >= 500) || (signal == Down && p <= -500))
  {
  }

  lemma {:induction false} TickIsMoves(d: Desk, c: Choice)
    requires DeskOk(d) && Absent(d.sim, MOMENTUM) && |d.sim.agents| == AGENTS && |c.noise| == 3
    requires d.sim.agents[MOMENTUM].position == 0
    ensures Roster(TickMoves(d, c), AGENTS) && Play(d.sim, TickMoves(d, c)) == TickAll(d, c).sim
  {
    hide DeskOk, Absent, Play, Roster, Tick, Follow, MakerMoves, MomentumMoves, DrawMoves, NoiseFrom, MomentumMove;
    MakerIsMoves(d, c.bid, c.ask);
    TickKeepsAbsent(d, c.bid, c.ask);
    var s1 := Tick(d, c.bid, c.ask).sim;
    MomentumFollows(s1, c.signal);
    var s2 := Play(s1, MomentumMoves(c.signal));
    NoiseIsMoves(s2, c.noise);
    var noise := DrawMoves(2, c.noise[0]) + (DrawMoves(3, c.noise[1]) + DrawMoves(4, c.noise[2]));
    PlayConcat(s1, MomentumMoves(c.signal), noise);
    PlayConcat(d.sim, MakerMoves(d, c.bid, c.ask), MomentumMoves(c.signal) + noise);
  }

  /** All moves of a run, tick after tick. */
  function RunMoves(d: Desk, cs: seq<Choice>): seq<Move>
    requires |d.sim.agents| == AGENTS && AllChoices(cs)
    decreases cs
  {
    if cs == [] then [] else TickMoves(d, cs[0]) + RunMoves(TickAll(d, cs[0]), cs[1..])
  }

  lemma {:induction false} TicksAreMoves(d: Desk, cs: seq<Choice>)
    requires DeskOk(d) && Absent(d.sim, MOMENTUM) && |d.sim.agents| == AGENTS && AllChoices(cs)
    requires d.sim.agents[MOMENTUM].position == 0
    ensures Roster(RunMoves(d, cs), AGENTS) && Play(d.sim, RunMoves(d, cs)) == Ticks(d, cs).sim
    decreases cs
  {
    hide DeskOk, Absent, TickAll, TickMoves, Play, Roster, ChoiceOk;
    if cs == [] {
      NoMoves(d.sim);
    } else {
      ChoiceHasNoise(cs[0]);
      TickIsMoves(d, cs[0]);
      TickAllKeepsDesk(d, cs[0]);
      TickAllKeepsAbsent(d, cs[0]);
      var d1 := TickAll(d, cs[0]);
      TicksAreMoves(d1, cs[1..]);
      PlayConcat(d.sim, TickMoves(d, cs[0]), RunMoves(d1, cs[1..]));
    }
  }

  /** Every run of the simulation is the run of its moves: each tick the market maker, the momentum
      trader and the noise traders act in this order, and every signal is followed. So what holds of all
      runs of agents holds of the simulation: fills are counted once per logged trade, and recorded
      positions add up to the shares sold minus bought by incoming orders. */
  lemma {:induction false} SimulationIsMoves(cs: seq<Choice>)
    requires AllChoices(cs)
    ensures |START.sim.agents| == AGENTS
    ensures var moves, s := RunMoves(START, cs), Ticks(START, cs).sim;
            && Roster(moves, AGENTS) && s == Play(START.sim, moves)
            && SumFills(s.agents) == |s.log|
            && SumPositions(s.agents) == Incoming(START.sim, moves, Sell) - Incoming(START.sim, moves, Buy)
  {
    hide Play, Roster, Ticks, RunMoves, DeskOk, Absent, Incoming;
    StartOk();
    DeskIsSim(START);
    TicksAreMoves(START, cs);
    EachTradeCreditedOnce(START.sim, RunMoves(START, cs));
    PositionsSumOnEveryRun(START.sim, RunMoves(START, cs));
    NothingYet();
  }

  lemma {:induction false} NothingYet()
    ensures SumFills(START.sim.agents) == 0 && SumPositions(START.sim.agents) == 0 && START.sim.log == []
    ensures START.sim.agents[MOMENTUM].position == 0
  {
    ZeroSums(START.sim.agents);
  }

  lemma {:induction false} ZeroSums(agents: seq<TraderStats>)
    requires forall k :: 0 <= k < |agents| ==> agents[k].position == 0 && agents[k].fillsReceived == 0
    ensures SumFills(agents) == 0 && SumPositions(agents) == 0
    decreases |agents|
  {
    if agents != [] {
      assert forall k :: 0 <= k < |agents[1..]| ==> agents[1..][k] == agents[k + 1];
      ZeroSums(agents[1..]);
    }
  }
}
