/** The simulation's traders on one shared book: who owns which order, and where fills are credited. */
module Agents {
  import opened Types
  import opened FlatBook
  import opened Sweeping
  import opened Market
  import opened Lifecycle

  type Agent = nat

  /** An agent's running totals; the cash is relative to its starting cash. */
  datatype TraderStats = TraderStats(position: int, cash: int, ordersSent: nat, fillsReceived: nat, cancelsSent: nat)
  {
    function OnFill(side: Side, price: Price, quantity: Quantity): TraderStats {
      var filled := this.(fillsReceived := fillsReceived + 1);
      if side.Buy? then filled.(position := position + quantity, cash := cash - price * quantity)
      else filled.(position := position - quantity, cash := cash + price * quantity)
    }
  }

  datatype Sim = Sim(book: Book, owner: map<OrderId, Agent>, agents: seq<TraderStats>, log: seq<Trade>)

  // ---- Routing fills ----

  function Credit(s: Sim, id: OrderId, side: Side, t: Trade): Sim {
    if id in s.owner && s.owner[id] < |s.agents| then
      s.(agents := s.agents[s.owner[id] := s.agents[s.owner[id]].OnFill(side, t.price, t.quantity)])
    else s
  }

  /** The trade callback: logs the trade and credits each leg whose owner is registered. */
  function Route(s: Sim, t: Trade): Sim {
    Credit(Credit(s.(log := s.log + [t]), t.buyId, Buy, t), t.sellId, Sell, t)
  }

  function RouteAll(s: Sim, trades: seq<Trade>): Sim
    decreases trades
  {
    if trades == [] then s else RouteAll(Route(s, trades[0]), trades[1..])
  }

  // ---- Moves ----

  function Sent(s: Sim, a: Agent, b: Book): Sim
    requires a < |s.agents|
  {
    s.(book := b, agents := s.agents[a := s.agents[a].(ordersSent := s.agents[a].ordersSent + 1)])
  }

  /** An agent submits an order. Its fills are routed before its ownership is registered. */
  function Send(s: Sim, a: Agent, op: Op): Sim
    requires op.Submit? && a < |s.agents|
  {
    var r := Step(s.book, op);
    var routed := RouteAll(Sent(s, a, r.book), r.reply.trades);
    if r.reply.id > 0 then routed.(owner := routed.owner[r.reply.id := a]) else routed
  }

  /** An agent cancels or reduces an order. */
  function Withdraw(s: Sim, a: Agent, op: Op): Sim
    requires !op.Submit? && a < |s.agents|
  {
    var counted := if op.Cancel? then s.agents[a].(cancelsSent := s.agents[a].cancelsSent + 1) else s.agents[a];
    s.(book := Step(s.book, op).book, agents := s.agents[a := counted])
  }

  datatype Move = Move(agent: Agent, op: Op)

  function Act(s: Sim, m: Move): Sim
    requires m.agent < |s.agents|
  {
    if m.op.Submit? then Send(s, m.agent, m.op) else Withdraw(s, m.agent, m.op)
  }

  // ---- The invariant of a simulation ----

  ghost predicate AllOwned(s: seq<Order>, owner: map<OrderId, Agent>) {
    forall k :: 0 <= k < |s| ==> s[k].id in owner
  }

  ghost predicate OwnersOk(owner: map<OrderId, Agent>, nextId: OrderId, n: nat) {
    forall id :: id in owner ==> 0 < id < nextId && owner[id] < n
  }

  ghost predicate SimOk(s: Sim) {
    && MarketOk(s.book) && OwnersOk(s.owner, s.book.nextId, |s.agents|)
    && AllOwned(s.book.bids, s.owner) && AllOwned(s.book.asks, s.owner)
  }

  lemma {:induction false} RouteAllFrame(s: Sim, trades: seq<Trade>)
    ensures var s' := RouteAll(s, trades);
            s'.book == s.book && s'.owner == s.owner && |s'.agents| == |s.agents| && s'.log == s.log + trades
    decreases trades
  {
    if trades != [] {
      RouteAllFrame(Route(s, trades[0]), trades[1..]);
    }
  }

  lemma {:induction false} SubmitReplies(b: Book, op: Op)
    requires op.Submit?
    ensures Step(b, op).reply.Submitted?
    ensures Step(b, op).reply.id == if Acceptable(op.kind, op.price, op.quantity) then b.nextId else 0
  {
  }

  lemma {:induction false} SendFrame(s: Sim, a: Agent, op: Op)
    requires op.Submit? && a < |s.agents|
    ensures var s', r := Send(s, a, op), Step(s.book, op);
            && s'.book == r.book && |s'.agents| == |s.agents| && s'.log == s.log + r.reply.trades
            && s'.owner == if r.reply.id > 0 then s.owner[r.reply.id := a] else s.owner
  {
    RouteAllFrame(Sent(s, a, Step(s.book, op).book), Step(s.book, op).reply.trades);
  }

  lemma {:induction false} OwnedWithin(s': seq<Order>, s: seq<Order>, owner: map<OrderId, Agent>)
    requires AllOwned(s, owner) && Within(s', s)
    ensures AllOwned(s', owner)
  {
    forall k | 0 <= k < |s'| ensures s'[k].id in owner {
      assert NamedIn(s'[k], s);
    }
  }

  lemma {:induction false} OwnedInserted(s: seq<Order>, o: Order, owner: map<OrderId, Agent>)
    requires AllOwned(s, owner) && o.id in owner
    ensures AllOwned(Insert(s, o), owner)
  {
    var k := InsertShape(s, o);
  }

  lemma {:induction false} SendKeepsOk(s: Sim, a: Agent, op: Op)
    requires SimOk(s) && op.Submit? && a < |s.agents|
    ensures SimOk(Send(s, a, op)) && |Send(s, a, op).agents| == |s.agents|
  {
    hide RouteAll;
    var b := s.book;
    SendFrame(s, a, op);
    SubmitKeepsMarket(b, op);
    if Acceptable(op.kind, op.price, op.quantity) {
      var opp, own, taker, owner := b.Of(op.side.Opposite()), b.Of(op.side), Taker(b, op), s.owner[b.nextId := a];
      SweptKeepsSide(opp, taker, op.side.Opposite(), b.nextId);
      SweepVolume(opp, taker);
      OwnedWithin(SweepOf(b, op).rest, opp, owner);
      OwnedInserted(own, Settle(SweepOf(b, op).taker), owner);
    }
  }

  lemma {:induction false} ActKeepsOk(s: Sim, m: Move)
    requires SimOk(s) && m.agent < |s.agents|
    ensures SimOk(Act(s, m)) && |Act(s, m).agents| == |s.agents|
  {
    if m.op.Submit? {
      SendKeepsOk(s, m.agent, m.op);
    } else {
      StepKeepsMarket(s.book, m.op);
      WithdrawShrinks(s.book, m.op);
      var b' := Step(s.book, m.op).book;
      OwnedWithin(b'.bids, s.book.bids, s.owner);
      OwnedWithin(b'.asks, s.book.asks, s.owner);
    }
  }

  // ---- Where fills go ----

  /** What one agent gains from a taker's trades through its own resting orders. */
  function PassiveNet(trades: seq<Trade>, taker: Side, owner: map<OrderId, Agent>, x: Agent): int {
    if trades == [] then 0
    else
      var id := RestingId(taker, trades[0]);
      (if id in owner && owner[id] == x then (if taker.Buy? then -(trades[0].quantity as int) else trades[0].quantity as int) else 0)
      + PassiveNet(trades[1..], taker, owner, x)
  }

  /** The trades of one taker: its own leg is not registered, the other one is. */
  ghost predicate OneTaker(trades: seq<Trade>, taker: Side, id: OrderId, owner: map<OrderId, Agent>) {
    && id !in owner
    && forall k :: 0 <= k < |trades| ==> IncomingId(taker, trades[k]) == id && RestingId(taker, trades[k]) in owner
  }

  lemma {:induction false} RouteCreditsResting(s: Sim, t: Trade, taker: Side, x: Agent)
    requires IncomingId(taker, t) !in s.owner && RestingId(taker, t) in s.owner && s.owner[RestingId(taker, t)] < |s.agents|
    requires x < |s.agents|
    ensures var s' := Route(s, t);
            && s'.owner == s.owner && |s'.agents| == |s.agents|
            && (if s.owner[RestingId(taker, t)] == x
                then s'.agents[x] == s.agents[x].OnFill(taker.Opposite(), t.price, t.quantity)
                else s'.agents[x] == s.agents[x])
  {
  }

  /** Every trade is credited to the owner of the resting order and to nobody else. */
  lemma {:induction false} FillsGoToResting(s: Sim, trades: seq<Trade>, taker: Side, id: OrderId, x: Agent)
    requires OneTaker(trades, taker, id, s.owner) && x < |s.agents|
    requires forall k :: k in s.owner ==> s.owner[k] < |s.agents|
    ensures var s' := RouteAll(s, trades);
            |s'.agents| == |s.agents| && s'.agents[x].position == s.agents[x].position + PassiveNet(trades, taker, s.owner, x)
    decreases trades
  {
    if trades != [] {
      RouteCreditsResting(s, trades[0], taker, x);
      FillsGoToResting(Route(s, trades[0]), trades[1..], taker, id, x);
    }
  }

  lemma {:induction false} SubmissionIsOneTaker(s: Sim, op: Op)
    requires SimOk(s) && op.Submit?
    ensures OneTaker(Step(s.book, op).reply.trades, op.side, s.book.nextId, s.owner)
  {
    if Acceptable(op.kind, op.price, op.quantity) {
      SweepTrades(s.book.Of(op.side.Opposite()), Taker(s.book, op));
    }
  }

  /** A submission moves an agent's recorded position by its resting fills only: the submitter's own
      leg is credited to nobody. */
  lemma {:induction false} SendMovesRestingOwners(s: Sim, a: Agent, op: Op, x: Agent)
    requires SimOk(s) && op.Submit? && a < |s.agents| && x < |s.agents|
    ensures |Send(s, a, op).agents| == |s.agents|
    ensures Send(s, a, op).agents[x].position ==
            s.agents[x].position + PassiveNet(Step(s.book, op).reply.trades, op.side, s.owner, x)
  {
    var r := Step(s.book, op);
    SubmissionIsOneTaker(s, op);
    FillsGoToResting(Sent(s, a, r.book), r.reply.trades, op.side, s.book.nextId, x);
  }

  // ---- Whole runs ----

  function Sim0(n: nat): Sim {
    Sim(EMPTY, map[], seq(n, _ => TraderStats(0, 0, 0, 0, 0)), [])
  }

  ghost predicate Roster(moves: seq<Move>, n: nat) {
    forall k :: 0 <= k < |moves| ==> moves[k].agent < n
  }

  function Play(s: Sim, moves: seq<Move>): (s': Sim)
    requires Roster(moves, |s.agents|)
    ensures |s'.agents| == |s.agents|
    decreases moves
  {
    if moves == [] then s
    else
      ActSize(s, moves[0]);
      Play(Act(s, moves[0]), moves[1..])
  }

  lemma {:induction false} ActSize(s: Sim, m: Move)
    requires m.agent < |s.agents|
    ensures |Act(s, m).agents| == |s.agents|
  {
    if m.op.Submit? {
      SendFrame(s, m.agent, m.op);
    }
  }

  /** An agent's resting fills over a whole run. */
  function PassiveNetOver(s: Sim, moves: seq<Move>, x: Agent): int
    requires Roster(moves, |s.agents|)
    decreases moves
  {
    if moves == [] then 0
    else
      ActSize(s, moves[0]);
      (if moves[0].op.Submit? then PassiveNet(Step(s.book, moves[0].op).reply.trades, moves[0].op.side, s.owner, x) else 0)
      + PassiveNetOver(Act(s, moves[0]), moves[1..], x)
  }

  /** On every run an agent's recorded position is the net of its resting fills. */
  lemma {:induction false} PositionIsPassiveNet(s: Sim, moves: seq<Move>, x: Agent)
    requires SimOk(s) && Roster(moves, |s.agents|) && x < |s.agents|
    ensures SimOk(Play(s, moves)) && |Play(s, moves).agents| == |s.agents|
    ensures Play(s, moves).agents[x].position == s.agents[x].position + PassiveNetOver(s, moves, x)
    decreases moves
  {
    if moves != [] {
      ActKeepsOk(s, moves[0]);
      if moves[0].op.Submit? {
        SendMovesRestingOwners(s, moves[0].agent, moves[0].op, x);
      }
      PositionIsPassiveNet(Act(s, moves[0]), moves[1..], x);
    }
  }

  // ---- An agent that never rests ----

  ghost predicate NoneOf(s: seq<Order>, owner: map<OrderId, Agent>, x: Agent) {
    forall k :: 0 <= k < |s| ==> s[k].id in owner && owner[s[k].id] != x
  }

  ghost predicate NeverRests(moves: seq<Move>, x: Agent) {
    forall k :: 0 <= k < |moves| && moves[k].agent == x && moves[k].op.Submit? ==> !moves[k].op.kind.Limit?
  }

  lemma {:induction false} NoneWithin(s': seq<Order>, s: seq<Order>, owner: map<OrderId, Agent>, x: Agent)
    requires NoneOf(s, owner, x) && Within(s', s)
    ensures NoneOf(s', owner, x)
  {
    forall k | 0 <= k < |s'| ensures s'[k].id in owner && owner[s'[k].id] != x {
      assert NamedIn(s'[k], s);
    }
  }

  lemma {:induction false} SendLeavesNone(s: Sim, a: Agent, op: Op, x: Agent)
    requires SimOk(s) && op.Submit? && a < |s.agents| && (a == x ==> !op.kind.Limit?)
    requires NoneOf(s.book.bids, s.owner, x) && NoneOf(s.book.asks, s.owner, x)
    ensures var s' := Send(s, a, op); NoneOf(s'.book.bids, s'.owner, x) && NoneOf(s'.book.asks, s'.owner, x)
  {
    hide RouteAll;
    var b := s.book;
    SendFrame(s, a, op);
    if Acceptable(op.kind, op.price, op.quantity) {
      var opp, own, taker, owner := b.Of(op.side.Opposite()), b.Of(op.side), Taker(b, op), s.owner[b.nextId := a];
      NoneRegistered(opp, s.owner, b.nextId, a, x);
      NoneRegistered(own, s.owner, b.nextId, a, x);
      SweptKeepsSide(opp, taker, op.side.Opposite(), b.nextId);
      SweepVolume(opp, taker);
      NoneWithin(SweepOf(b, op).rest, opp, owner, x);
      if a != x {
        NoneInserted(own, Settle(SweepOf(b, op).taker), owner, x);
      }
    }
  }

  lemma {:induction false} NoneRegistered(s: seq<Order>, owner: map<OrderId, Agent>, id: OrderId, a: Agent, x: Agent)
    requires NoneOf(s, owner, x) && forall k :: 0 <= k < |s| ==> s[k].id != id
    ensures NoneOf(s, owner[id := a], x)
  {
  }

  lemma {:induction false} NoneInserted(s: seq<Order>, o: Order, owner: map<OrderId, Agent>, x: Agent)
    requires NoneOf(s, owner, x) && o.id in owner && owner[o.id] != x
    ensures NoneOf(Insert(s, o), owner, x)
  {
    var k := InsertShape(s, o);
  }

  lemma {:induction false} NothingPassive(trades: seq<Trade>, opp: seq<Order>, taker: Order, owner: map<OrderId, Agent>, x: Agent)
    requires NoneOf(opp, owner, x) && |trades| <= |opp|
    requires forall k :: 0 <= k < |trades| ==> RestingId(taker.side, trades[k]) == opp[k].id
    ensures PassiveNet(trades, taker.side, owner, x) == 0
    decreases |trades|
  {
    if trades != [] {
      assert forall k :: 0 <= k < |opp[1..]| ==> opp[1..][k] == opp[k + 1];
      NothingPassive(trades[1..], opp[1..], taker, owner, x);
    }
  }

  /** Nothing of the agent rests, so nobody can fill it. */
  ghost predicate Absent(s: Sim, x: Agent) {
    SimOk(s) && x < |s.agents| && NoneOf(s.book.bids, s.owner, x) && NoneOf(s.book.asks, s.owner, x)
  }

  lemma {:induction false} SendKeepsAbsent(s: Sim, a: Agent, op: Op, x: Agent)
    requires Absent(s, x) && op.Submit? && a < |s.agents| && (a == x ==> !op.kind.Limit?)
    ensures var s' := Send(s, a, op);
            Absent(s', x) && |s'.agents| == |s.agents| && s'.agents[x].position == s.agents[x].position
  {
    hide Send, RouteAll, MarketOk, NoneOf;
    SendKeepsOk(s, a, op);
    SendLeavesNone(s, a, op, x);
    SendMovesRestingOwners(s, a, op, x);
    if Acceptable(op.kind, op.price, op.quantity) {
      SweepTrades(s.book.Of(op.side.Opposite()), Taker(s.book, op));
      NothingPassive(Step(s.book, op).reply.trades, s.book.Of(op.side.Opposite()), Taker(s.book, op), s.owner, x);
    }
  }

  lemma {:induction false} WithdrawKeepsAbsent(s: Sim, a: Agent, op: Op, x: Agent)
    requires Absent(s, x) && !op.Submit? && a < |s.agents|
    ensures var s' := Withdraw(s, a, op);
            Absent(s', x) && |s'.agents| == |s.agents| && s'.agents[x].position == s.agents[x].position
  {
    hide Step, MarketOk, NoneOf;
    var b' := Step(s.book, op).book;
    ActKeepsOk(s, Move(a, op));
    WithdrawShrinks(s.book, op);
    NoneWithin(b'.bids, s.book.bids, s.owner, x);
    NoneWithin(b'.asks, s.book.asks, s.owner, x);
  }

  /** An agent that sends only market or IOC orders never has a recorded position, however much it
      trades. */
  lemma {:induction false} AggressorHasNoPosition(s: Sim, moves: seq<Move>, x: Agent)
    requires Absent(s, x) && Roster(moves, |s.agents|) && NeverRests(moves, x)
    ensures |Play(s, moves).agents| == |s.agents| && Play(s, moves).agents[x].position == s.agents[x].position
    decreases moves
  {
    if moves != [] {
      var m := moves[0];
      if m.op.Submit? {
        SendKeepsAbsent(s, m.agent, m.op, x);
      } else {
        WithdrawKeepsAbsent(s, m.agent, m.op, x);
      }
      AggressorHasNoPosition(Act(s, m), moves[1..], x);
    }
  }

  // ---- Positions do not balance ----

  function SumPositions(agents: seq<TraderStats>): int {
    if agents == [] then 0 else agents[0].position + SumPositions(agents[1..])
  }

  lemma {:induction false} SumUpdate(agents: seq<TraderStats>, x: nat, t: TraderStats)
    requires x < |agents|
    ensures SumPositions(agents[x := t]) == SumPositions(agents) - agents[x].position + t.position
    decreases |agents|
  {
    if x == 0 {
      assert agents[0 := t][1..] == agents[1..];
    } else {
      assert agents[x := t][1..] == agents[1..][x - 1 := t];
      SumUpdate(agents[1..], x - 1, t);
    }
  }

  lemma {:induction false} RouteSum(s: Sim, t: Trade, taker: Side)
    requires IncomingId(taker, t) !in s.owner && RestingId(taker, t) in s.owner && s.owner[RestingId(taker, t)] < |s.agents|
    ensures SumPositions(Route(s, t).agents) == SumPositions(s.agents) + if taker.Buy? then -(t.quantity as int) else t.quantity
  {
    var x := s.owner[RestingId(taker, t)];
    SumUpdate(s.agents, x, s.agents[x].OnFill(taker.Opposite(), t.price, t.quantity));
  }

  lemma {:induction false} RouteAllSum(s: Sim, trades: seq<Trade>, taker: Side, id: OrderId)
    requires OneTaker(trades, taker, id, s.owner)
    requires forall k :: k in s.owner ==> s.owner[k] < |s.agents|
    ensures SumPositions(RouteAll(s, trades).agents) ==
            SumPositions(s.agents) + if taker.Buy? then -(Volume(trades) as int) else Volume(trades)
    decreases trades
  {
    if trades != [] {
      RouteSum(s, trades[0], taker);
      RouteAllFrame(s, [trades[0]]);
      assert RouteAll(s, [trades[0]]) == Route(s, trades[0]);
      RouteAllSum(Route(s, trades[0]), trades[1..], taker, id);
    }
  }

  function SumFills(agents: seq<TraderStats>): nat {
    if agents == [] then 0 else agents[0].fillsReceived + SumFills(agents[1..])
  }

  lemma {:induction false} SumFillsUpdate(agents: seq<TraderStats>, x: nat, t: TraderStats)
    requires x < |agents|
    ensures SumFills(agents[x := t]) == SumFills(agents) - agents[x].fillsReceived + t.fillsReceived
    decreases |agents|
  {
    if x == 0 {
      assert agents[0 := t][1..] == agents[1..];
    } else {
      assert agents[x := t][1..] == agents[1..][x - 1 := t];
      SumFillsUpdate(agents[1..], x - 1, t);
    }
  }

  lemma {:induction false} BatchCreditedOnce(s: Sim, trades: seq<Trade>, taker: Side, id: OrderId)
    requires OneTaker(trades, taker, id, s.owner)
    requires forall k :: k in s.owner ==> s.owner[k] < |s.agents|
    ensures SumFills(RouteAll(s, trades).agents) == SumFills(s.agents) + |trades|
    decreases trades
  {
    if trades != [] {
      var t := trades[0];
      var x := s.owner[RestingId(taker, t)];
      SumFillsUpdate(s.agents, x, s.agents[x].OnFill(taker.Opposite(), t.price, t.quantity));
      assert Route(s, t).agents == s.agents[x := s.agents[x].OnFill(taker.Opposite(), t.price, t.quantity)];
      BatchCreditedOnce(Route(s, t), trades[1..], taker, id);
    }
  }

  lemma {:induction false} ActCredits(s: Sim, m: Move)
    requires SimOk(s) && m.agent < |s.agents|
    ensures |Act(s, m).log| >= |s.log| && SumFills(Act(s, m).agents) == SumFills(s.agents) + |Act(s, m).log| - |s.log|
  {
    hide Step, RouteAll, MarketOk;
    var a, op := m.agent, m.op;
    if op.Submit? {
      var r := Step(s.book, op);
      SubmitReplies(s.book, op);
      SubmissionIsOneTaker(s, op);
      SendFrame(s, a, op);
      SumFillsUpdate(s.agents, a, s.agents[a].(ordersSent := s.agents[a].ordersSent + 1));
      BatchCreditedOnce(Sent(s, a, r.book), r.reply.trades, op.side, s.book.nextId);
    } else {
      SumFillsUpdate(s.agents, a, s.agents[a].(cancelsSent := s.agents[a].cancelsSent + 1));
      SumFillsUpdate(s.agents, a, s.agents[a]);
    }
  }

  /** On every run the fills received by all agents grow by exactly one per logged trade. */
  lemma {:induction false} EachTradeCreditedOnce(s: Sim, moves: seq<Move>)
    requires SimOk(s) && Roster(moves, |s.agents|)
    ensures var s' := Play(s, moves);
            |s'.log| >= |s.log| && SumFills(s'.agents) == SumFills(s.agents) + |s'.log| - |s.log|
    decreases moves
  {
    hide Act, SimOk;
    if moves != [] {
      ActSize(s, moves[0]);
      ActKeepsOk(s, moves[0]);
      ActCredits(s, moves[0]);
      EachTradeCreditedOnce(Act(s, moves[0]), moves[1..]);
    }
  }

  /** An order trades exactly if it is accepted and crosses the best order opposite. */
  ghost predicate Trades(b: Book, op: Op)
    requires op.Submit?
  {
    var opp := b.Of(op.side.Opposite());
    Acceptable(op.kind, op.price, op.quantity) && opp != [] && Crosses(Taker(b, op), opp[0])
  }

  lemma {:induction false} TradesMeansVolume(b: Book, op: Op)
    requires MarketOk(b) && op.Submit?
    ensures Trades(b, op) <==> Volume(Step(b, op).reply.trades) > 0
  {
    var opp := b.Of(op.side.Opposite());
    if Trades(b, op) {
      assert Live(opp[0], op.side.Opposite(), b.nextId);
      assert Sweep(opp, Taker(b, op)).trades[0].quantity == Min(op.quantity, opp[0].remaining);
    }
  }

  /** The sum of all recorded positions is kept by a submission exactly when the order does not
      trade, which its sender can see beforehand. */
  lemma {:induction false} BalanceKeptIff(s: Sim, a: Agent, op: Op)
    requires SimOk(s) && op.Submit? && a < |s.agents|
    ensures SumPositions(Send(s, a, op).agents) == SumPositions(s.agents) <==> !Trades(s.book, op)
  {
    SumAfter(s, a, op);
    TradesMeansVolume(s.book, op);
  }

  lemma {:induction false} DemoSell(o: Order)
    requires o == Order(1, Sell, Limit, 1, 1, 1, Accepted)
    ensures Step(EMPTY, Submit(Sell, Limit, 1, 1)) == Outcome(Book([], [o], 2), Submitted(1, []))
  {
    assert Insert([], o) == [o];
  }

  lemma {:induction false} DemoBuy(o: Order)
    requires o == Order(1, Sell, Limit, 1, 1, 1, Accepted)
    ensures Volume(Step(Book([], [o], 2), Submit(Buy, Limit, 1, 1)).reply.trades) == 1
  {
    var b, buy := Book([], [o], 2), Submit(Buy, Limit, 1, 1);
    var t := Step(b, buy).reply.trades;
    assert b.asks[1..] == [];
    assert t == [Execution(Taker(b, buy), o, 1)] + Sweep([], After(Taker(b, buy), o)).trades;
    assert t[1..] == [];
  }

  /** Two agents, one trade: the seller's fill is recorded, the buyer's is not. */
  lemma {:induction false} PositionsNeedNotBalance()
    ensures var s1 := Send(Sim0(2), 0, Submit(Sell, Limit, 1, 1));
            |s1.agents| == 2 && SumPositions(Send(s1, 1, Submit(Buy, Limit, 1, 1)).agents) == -1
  {
    hide RouteAll, Step, MarketOk;
    var s0, sell, buy := Sim0(2), Submit(Sell, Limit, 1, 1), Submit(Buy, Limit, 1, 1);
    var s1, o := Send(s0, 0, sell), Order(1, Sell, Limit, 1, 1, 1, Accepted);
    EmptyIsMarket();
    SendKeepsOk(s0, 0, sell);
    SendFrame(s0, 0, sell);
    DemoSell(o);
    DemoBuy(o);
    SumAfter(s0, 0, sell);
    SumAfter(s1, 1, buy);
    assert s0.agents[1..][1..] == [];
  }

  lemma {:induction false} SumAfter(s: Sim, a: Agent, op: Op)
    requires SimOk(s) && op.Submit? && a < |s.agents|
    ensures var v: int := Volume(Step(s.book, op).reply.trades);
            SumPositions(Send(s, a, op).agents) == SumPositions(s.agents) + if op.side.Buy? then -v else v
  {
    var r := Step(s.book, op);
    SubmissionIsOneTaker(s, op);
    SumUpdate(s.agents, a, s.agents[a].(ordersSent := s.agents[a].ordersSent + 1));
    RouteAllSum(Sent(s, a, r.book), r.reply.trades, op.side, s.book.nextId);
  }

  /** Shares that incoming orders of one side fill over a run. */
  function Incoming(s: Sim, moves: seq<Move>, side: Side): nat
    requires Roster(moves, |s.agents|)
    decreases moves
  {
    if moves == [] then 0
    else
      var op := moves[0].op;
      ActSize(s, moves[0]);
      (if op.Submit? && op.side == side then Volume(Step(s.book, op).reply.Trades()) else 0)
      + Incoming(Act(s, moves[0]), moves[1..], side)
  }

  lemma {:induction false} ActSum(s: Sim, m: Move)
    requires SimOk(s) && m.agent < |s.agents|
    ensures var v: int := Volume(Step(s.book, m.op).reply.Trades());
            SumPositions(Act(s, m).agents) == SumPositions(s.agents) +
              if !m.op.Submit? then 0 else if m.op.side.Buy? then -v else v
  {
    hide Step, RouteAll, SimOk, Send;
    if m.op.Submit? {
      SumAfter(s, m.agent, m.op);
      SubmitReplies(s.book, m.op);
    } else {
      SumUpdate(s.agents, m.agent, s.agents[m.agent].(cancelsSent := s.agents[m.agent].cancelsSent + 1));
      SumUpdate(s.agents, m.agent, s.agents[m.agent]);
    }
  }

  /** On every run the sum of recorded positions moves by the shares incoming orders sell minus those
      they buy; so it is kept if and only if these are equal. */
  lemma {:induction false} PositionsSumOnEveryRun(s: Sim, moves: seq<Move>)
    requires SimOk(s) && Roster(moves, |s.agents|)
    ensures SumPositions(Play(s, moves).agents) == SumPositions(s.agents) + Incoming(s, moves, Sell) - Incoming(s, moves, Buy)
    ensures SumPositions(Play(s, moves).agents) == SumPositions(s.agents) <==> Incoming(s, moves, Sell) == Incoming(s, moves, Buy)
    decreases moves
  {
    hide Act, SimOk, Step;
    if moves != [] {
      ActSize(s, moves[0]);
      ActKeepsOk(s, moves[0]);
      ActSum(s, moves[0]);
      PositionsSumOnEveryRun(Act(s, moves[0]), moves[1..]);
    }
  }

  // ---- Each agent's own totals ----

  /** What one agent is paid for a taker's trades through its own resting orders. */
  function PassiveCash(trades: seq<Trade>, taker: Side, owner: map<OrderId, Agent>, x: Agent): int {
    if trades == [] then 0
    else
      var id, money := RestingId(taker, trades[0]), trades[0].price * trades[0].quantity;
      (if id in owner && owner[id] == x then (if taker.Buy? then money else -money) else 0)
      + PassiveCash(trades[1..], taker, owner, x)
  }

  /** How many of a taker's trades are with an agent's resting orders. */
  function PassiveFills(trades: seq<Trade>, owner: map<OrderId, Agent>, taker: Side, x: Agent): nat {
    if trades == [] then 0
    else
      var id := RestingId(taker, trades[0]);
      (if id in owner && owner[id] == x then 1 else 0) + PassiveFills(trades[1..], owner, taker, x)
  }

  lemma {:induction false} RouteAllTotals(s: Sim, trades: seq<Trade>, taker: Side, id: OrderId, x: Agent)
    requires OneTaker(trades, taker, id, s.owner) && x < |s.agents|
    requires forall k :: k in s.owner ==> s.owner[k] < |s.agents|
    ensures var s' := RouteAll(s, trades);
            && |s'.agents| == |s.agents|
            && s'.agents[x].cash == s.agents[x].cash + PassiveCash(trades, taker, s.owner, x)
            && s'.agents[x].fillsReceived == s.agents[x].fillsReceived + PassiveFills(trades, s.owner, taker, x)
            && s'.agents[x].ordersSent == s.agents[x].ordersSent && s'.agents[x].cancelsSent == s.agents[x].cancelsSent
    decreases trades
  {
    if trades != [] {
      RouteCreditsResting(s, trades[0], taker, x);
      RouteAllTotals(Route(s, trades[0]), trades[1..], taker, id, x);
    }
  }

  /** What one move adds to an agent's totals. */
  datatype Totals = Totals(cash: int, fills: nat, orders: nat, cancels: nat) {
    function Plus(t: Totals): Totals {
      Totals(cash + t.cash, fills + t.fills, orders + t.orders, cancels + t.cancels)
    }
  }

  function TotalsOf(t: TraderStats): Totals {
    Totals(t.cash, t.fillsReceived, t.ordersSent, t.cancelsSent)
  }

  function MoveTotals(s: Sim, m: Move, x: Agent): Totals {
    var trades := Step(s.book, m.op).reply.Trades();
    Totals(if m.op.Submit? then PassiveCash(trades, m.op.side, s.owner, x) else 0,
           if m.op.Submit? then PassiveFills(trades, s.owner, m.op.side, x) else 0,
           if m.op.Submit? && m.agent == x then 1 else 0,
           if m.op.Cancel? && m.agent == x then 1 else 0)
  }

  lemma {:induction false} ActTotals(s: Sim, m: Move, x: Agent)
    requires SimOk(s) && m.agent < |s.agents| && x < |s.agents|
    ensures |Act(s, m).agents| == |s.agents|
    ensures TotalsOf(Act(s, m).agents[x]) == TotalsOf(s.agents[x]).Plus(MoveTotals(s, m, x))
  {
    hide Step, RouteAll, MarketOk;
    if m.op.Submit? {
      var r := Step(s.book, m.op);
      SubmitReplies(s.book, m.op);
      SubmissionIsOneTaker(s, m.op);
      RouteAllTotals(Sent(s, m.agent, r.book), r.reply.trades, m.op.side, s.book.nextId, x);
    }
  }

  function TotalsOver(s: Sim, moves: seq<Move>, x: Agent): Totals
    requires Roster(moves, |s.agents|)
    decreases moves
  {
    if moves == [] then Totals(0, 0, 0, 0)
    else
      ActSize(s, moves[0]);
      MoveTotals(s, moves[0], x).Plus(TotalsOver(Act(s, moves[0]), moves[1..], x))
  }

  /** On every run an agent's cash moves by the money of its resting fills, in for sales and out for
      purchases; it receives one fill per such trade and has sent one order or cancel per move. */
  lemma {:induction false} TotalsOnEveryRun(s: Sim, moves: seq<Move>, x: Agent)
    requires SimOk(s) && Roster(moves, |s.agents|) && x < |s.agents|
    ensures TotalsOf(Play(s, moves).agents[x]) == TotalsOf(s.agents[x]).Plus(TotalsOver(s, moves, x))
    decreases moves
  {
    hide Act, SimOk, MoveTotals, TotalsOf;
    if moves != [] {
      ActSize(s, moves[0]);
      ActKeepsOk(s, moves[0]);
      ActTotals(s, moves[0], x);
      TotalsOnEveryRun(Act(s, moves[0]), moves[1..], x);
    }
  }

  // ---- Who owns what ----

  lemma {:induction false} ActOwners(s: Sim, m: Move, id: OrderId)
    requires SimOk(s) && m.agent < |s.agents|
    ensures id in s.owner ==> id in Act(s, m).owner && Act(s, m).owner[id] == s.owner[id]
    ensures Accepts(m.op) ==> s.book.nextId in Act(s, m).owner && Act(s, m).owner[s.book.nextId] == m.agent
  {
    hide Step, RouteAll;
    if m.op.Submit? {
      SendFrame(s, m.agent, m.op);
      SubmitReplies(s.book, m.op);
    }
  }

  lemma {:induction false} OwnersKept(s: Sim, moves: seq<Move>, id: OrderId)
    requires SimOk(s) && Roster(moves, |s.agents|) && id in s.owner
    ensures id in Play(s, moves).owner && Play(s, moves).owner[id] == s.owner[id]
    decreases moves
  {
    hide Act, SimOk;
    if moves != [] {
      ActSize(s, moves[0]);
      ActKeepsOk(s, moves[0]);
      ActOwners(s, moves[0], id);
      OwnersKept(Act(s, moves[0]), moves[1..], id);
    }
  }

  /** On every run the order issued to a move belongs to the agent that made it, for good. */
  lemma {:induction false} OwnerIsSender(s: Sim, moves: seq<Move>, j: nat)
    requires SimOk(s) && Roster(moves, |s.agents|) && j < |moves| && Accepts(moves[j].op)
    ensures Roster(moves[..j], |s.agents|)
    ensures var id := Play(s, moves[..j]).book.nextId;
            id in Play(s, moves).owner && Play(s, moves).owner[id] == moves[j].agent
    decreases moves
  {
    hide Act, SimOk, Accepts;
    ActSize(s, moves[0]);
    ActKeepsOk(s, moves[0]);
    var s1 := Act(s, moves[0]);
    if j == 0 {
      assert moves[..0] == [];
      ActOwners(s, moves[0], s.book.nextId);
      OwnersKept(s1, moves[1..], s.book.nextId);
    } else {
      assert moves[..j][0] == moves[0] && moves[..j][1..] == moves[1..][..j - 1];
      OwnerIsSender(s1, moves[1..], j - 1);
    }
  }

  lemma {:induction false} PlayConcat(s: Sim, a: seq<Move>, b: seq<Move>)
    requires Roster(a, |s.agents|) && Roster(b, |s.agents|)
    ensures Roster(a + b, |s.agents|) && Play(s, a + b) == Play(Play(s, a), b)
    decreases |a|
  {
    hide Act;
    if a == [] {
      assert a + b == b;
    } else {
      ActSize(s, a[0]);
      assert (a + b)[0] == a[0] && (a + b)[1..] == a[1..] + b;
      PlayConcat(Act(s, a[0]), a[1..], b);
    }
  }

  // ---- A run of agents is a run of the market ----

  function OpsIn(moves: seq<Move>): seq<Op> {
    if moves == [] then [] else [moves[0].op] + OpsIn(moves[1..])
  }

  lemma {:induction false} ActOnMarket(s: Sim, m: Move)
    requires m.agent < |s.agents|
    ensures Act(s, m).book == Step(s.book, m.op).book && Act(s, m).log == s.log + Step(s.book, m.op).reply.Trades()
  {
    hide Step, RouteAll;
    if m.op.Submit? {
      SubmitReplies(s.book, m.op);
      SendFrame(s, m.agent, m.op);
    } else {
      WithdrawReplies(s.book, m.op);
    }
  }

  lemma {:induction false} WithdrawReplies(b: Book, op: Op)
    requires !op.Submit?
    ensures Step(b, op).reply.Done?
  {
  }

  /** Whoever sends what, the book is that of the operations alone, and the log is their trades in
      order; so everything proved of runs of a book holds while agents trade on it. */
  lemma {:induction false} AgentsRunTheMarket(s: Sim, moves: seq<Move>)
    requires Roster(moves, |s.agents|)
    ensures Play(s, moves).book == Run(s.book, OpsIn(moves))
    ensures Play(s, moves).log == s.log + TradesOf(Replies(s.book, OpsIn(moves)))
    decreases moves
  {
    hide Act, Step;
    if moves != [] {
      var ops, r := OpsIn(moves), Step(s.book, moves[0].op);
      ActSize(s, moves[0]);
      ActOnMarket(s, moves[0]);
      AgentsRunTheMarket(Act(s, moves[0]), moves[1..]);
      assert ops[0] == moves[0].op && ops[1..] == OpsIn(moves[1..]);
      var replies := Replies(s.book, ops);
      assert replies[0] == r.reply && replies[1..] == Replies(r.book, ops[1..]);
      assert s.log + r.reply.Trades() + TradesOf(replies[1..]) == s.log + (r.reply.Trades() + TradesOf(replies[1..]));
    }
  }
}
