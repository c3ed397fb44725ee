/** The market maker: cancel both quotes, then requote each side while the position gate allows it. */
module Maker {
  import opened Types
  import opened FlatBook
  import opened Sweeping
  import opened Market
  import opened Agents

  const MAKER: Agent := 0
  const QUOTE_SIZE: Quantity := 100
  const MAX_POSITION := 1000

  /** A bound on the recorded position, whoever the other agents are. */
  const CAP := MAX_POSITION + QUOTE_SIZE - 1

  datatype Desk = Desk(sim: Sim, bidId: OrderId, askId: OrderId) {
    function Position(): int
      requires |sim.agents| > 0
    {
      sim.agents[MAKER].position
    }
  }

  // ---- One tick ----

  function PullQuote(s: Sim, id: OrderId): Sim
    requires |s.agents| > 0
  {
    if id > 0 then Withdraw(s, MAKER, Cancel(id)) else s
  }

  /** Sends a quote of the fixed size; the id is 0 if the engine rejects it. */
  function Quote(s: Sim, side: Side, price: Price): (Sim, OrderId)
    requires |s.agents| > 0
  {
    var op := Submit(side, Limit, price, QUOTE_SIZE);
    (Send(s, MAKER, op), Step(s.book, op).reply.id)
  }

  function Pull(d: Desk): Desk
    requires |d.sim.agents| > 0
  {
    Desk(PullQuote(PullQuote(d.sim, d.bidId), d.askId), 0, 0)
  }

  function QuoteBid(d: Desk, price: Price): (d': Desk)
    requires |d.sim.agents| > 0
    ensures |d'.sim.agents| == |d.sim.agents|
  {
    if d.Position() < MAX_POSITION then
      var (sim, id) := Quote(d.sim, Buy, price);
      SendFrame(d.sim, MAKER, Submit(Buy, Limit, price, QUOTE_SIZE));
      d.(sim := sim, bidId := id)
    else d
  }

  function QuoteAsk(d: Desk, price: Price): (d': Desk)
    requires |d.sim.agents| > 0
    ensures |d'.sim.agents| == |d.sim.agents|
  {
    if d.Position() > -MAX_POSITION then
      var (sim, id) := Quote(d.sim, Sell, price);
      SendFrame(d.sim, MAKER, Submit(Sell, Limit, price, QUOTE_SIZE));
      d.(sim := sim, askId := id)
    else d
  }

  /** The tick, for any prices the maker may compute. */
  function Tick(d: Desk, bid: Price, ask: Price): (d': Desk)
    requires |d.sim.agents| > 0
    ensures |d'.sim.agents| == |d.sim.agents|
  {
    QuoteAsk(QuoteBid(Pull(d), bid), ask)
  }

  // ---- What the maker has at stake ----

  /** Shares of an agent resting on a side. */
  function Owned(s: seq<Order>, owner: map<OrderId, Agent>, x: Agent): nat {
    if s == [] then 0
    else (if s[0].id in owner && owner[s[0].id] == x then s[0].remaining else 0) + Owned(s[1..], owner, x)
  }

  /** Shares taken from an agent's resting orders. */
  function OwnedTaken(trades: seq<Trade>, taker: Side, owner: map<OrderId, Agent>, x: Agent): nat {
    if trades == [] then 0
    else
      var id := RestingId(taker, trades[0]);
      (if id in owner && owner[id] == x then trades[0].quantity else 0) + OwnedTaken(trades[1..], taker, owner, x)
  }

  /** The only order of the agent on a side is the one called `id`; with id 0 there is none. */
  ghost predicate OnlyQuote(s: seq<Order>, owner: map<OrderId, Agent>, x: Agent, id: OrderId) {
    forall k :: 0 <= k < |s| && s[k].id in owner && owner[s[k].id] == x ==> s[k].id == id
  }

  ghost predicate DeskOk(d: Desk) {
    var b, owner := d.sim.book, d.sim.owner;
    && SimOk(d.sim) && |d.sim.agents| > 0
    && OnlyQuote(b.bids, owner, MAKER, d.bidId) && OnlyQuote(b.asks, owner, MAKER, d.askId)
    && d.Position() + Owned(b.bids, owner, MAKER) <= CAP
    && d.Position() - Owned(b.asks, owner, MAKER) >= -CAP
  }

  lemma {:induction false} SweepMovesOwned(opp: seq<Order>, taker: Order, owner: map<OrderId, Agent>, x: Agent)
    ensures var r := Sweep(opp, taker);
            Owned(opp, owner, x) == Owned(r.rest, owner, x) + OwnedTaken(r.trades, taker.side, owner, x)
    decreases |opp|
  {
    if !Stops(opp, taker) {
      var t := Sweep(opp, taker).trades;
      if opp[0].remaining <= taker.remaining {
        SweepMovesOwned(opp[1..], After(taker, opp[0]), owner, x);
        assert t[1..] == Sweep(opp[1..], After(taker, opp[0])).trades;
      } else {
        assert t[1..] == [];
        assert Sweep(opp, taker).rest[1..] == opp[1..];
      }
    }
  }

  lemma {:induction false} NetIsTaken(trades: seq<Trade>, taker: Side, owner: map<OrderId, Agent>, x: Agent)
    ensures PassiveNet(trades, taker, owner, x) ==
            if taker.Buy? then -(OwnedTaken(trades, taker, owner, x) as int) else OwnedTaken(trades, taker, owner, x)
    decreases |trades|
  {
    if trades != [] {
      NetIsTaken(trades[1..], taker, owner, x);
    }
  }

  lemma {:induction false} InsertOwned(s: seq<Order>, o: Order, owner: map<OrderId, Agent>, x: Agent)
    ensures Owned(Insert(s, o), owner, x) ==
            Owned(s, owner, x) + if o.id in owner && owner[o.id] == x then o.remaining else 0
    decreases |s|
  {
    if s == [] || Rank(o.side, o.price) < Rank(s[0].side, s[0].price) {
      assert ([o] + s)[1..] == s;
    } else {
      InsertOwned(s[1..], o, owner, x);
      assert Insert(s, o)[1..] == Insert(s[1..], o);
    }
  }

  lemma {:induction false} RegisterKeepsOwned(s: seq<Order>, owner: map<OrderId, Agent>, id: OrderId, a: Agent, x: Agent)
    requires forall k :: 0 <= k < |s| ==> s[k].id != id
    ensures Owned(s, owner[id := a], x) == Owned(s, owner, x)
    decreases |s|
  {
    if s != [] {
      assert s[0].id != id;
      assert forall k :: 0 <= k < |s[1..]| ==> s[1..][k] == s[k + 1];
      RegisterKeepsOwned(s[1..], owner, id, a, x);
    }
  }

  lemma {:induction false} RemoveOwned(s: seq<Order>, id: OrderId, owner: map<OrderId, Agent>, x: Agent)
    ensures Owned(Remove(s, id), owner, x) <= Owned(s, owner, x)
    decreases |s|
  {
    if s != [] && s[0].id != id {
      RemoveOwned(s[1..], id, owner, x);
      assert Remove(s, id)[1..] == Remove(s[1..], id);
    }
  }

  lemma {:induction false} SetRemainingOwned(s: seq<Order>, id: OrderId, n: Quantity, owner: map<OrderId, Agent>, x: Agent)
    requires HasId(s, id) ==> n <= s[IndexOf(s, id)].remaining
    ensures Owned(SetRemaining(s, id, n), owner, x) <= Owned(s, owner, x)
    decreases |s|
  {
    if s != [] {
      var r := SetRemaining(s, id, n);
      if s[0].id == id {
        assert HasId(s, id);
        assert r[1..] == s[1..];
      } else {
        assert forall k :: 0 <= k < |s[1..]| ==> s[1..][k] == s[k + 1];
        SetRemainingOwned(s[1..], id, n, owner, x);
        assert r[1..] == SetRemaining(s[1..], id, n);
      }
    }
  }

  lemma {:induction false} NothingOwned(s: seq<Order>, owner: map<OrderId, Agent>, x: Agent)
    requires forall k :: 0 <= k < |s| ==> !(s[k].id in owner && owner[s[k].id] == x)
    ensures Owned(s, owner, x) == 0
    decreases |s|
  {
    if s != [] {
      assert forall k :: 0 <= k < |s[1..]| ==> s[1..][k] == s[k + 1];
      NothingOwned(s[1..], owner, x);
    }
  }

  lemma {:induction false} OnlyWithin(s': seq<Order>, s: seq<Order>, owner: map<OrderId, Agent>, x: Agent, id: OrderId)
    requires OnlyQuote(s, owner, x, id) && Within(s', s)
    ensures OnlyQuote(s', owner, x, id)
  {
    forall k | 0 <= k < |s'| && s'[k].id in owner && owner[s'[k].id] == x ensures s'[k].id == id {
      assert NamedIn(s'[k], s);
    }
  }

  // ---- A submission by anybody ----

  /** What a submission does to the maker's stakes: fills move shares between its resting quote and
      its position, one for one; only its own order adds to them. */
  lemma {:induction false} SendMovesStakes(s: Sim, a: Agent, op: Op)
    requires SimOk(s) && op.Submit? && a < |s.agents| && Acceptable(op.kind, op.price, op.quantity)
    ensures var s', opp := Send(s, a, op), op.side.Opposite();
            var taken := OwnedTaken(Step(s.book, op).reply.trades, op.side, s.owner, MAKER);
            && |s'.agents| == |s.agents|
            && s'.agents[MAKER].position == s.agents[MAKER].position + (if op.side.Buy? then -(taken as int) else taken)
            && Owned(s'.book.Of(opp), s'.owner, MAKER) + taken == Owned(s.book.Of(opp), s.owner, MAKER)
            && Owned(s'.book.Of(op.side), s'.owner, MAKER) <=
               Owned(s.book.Of(op.side), s.owner, MAKER) + (if a == MAKER && op.kind.Limit? then op.quantity else 0)
  {
    hide RouteAll, Send, MarketOk;
    var b, r, opp := s.book, SweepOf(s.book, op), op.side.Opposite();
    SendFrame(s, a, op);
    SendMovesRestingOwners(s, a, op, MAKER);
    NetIsTaken(r.trades, op.side, s.owner, MAKER);
    SweepMovesOwned(b.Of(opp), Taker(b, op), s.owner, MAKER);
    SweepVolume(b.Of(opp), Taker(b, op));
    FreshId(b, opp, Taker(b, op));
    FreshId(b, op.side, Taker(b, op));
    RegisterKeepsOwned(r.rest, s.owner, b.nextId, a, MAKER);
    RegisterKeepsOwned(b.Of(op.side), s.owner, b.nextId, a, MAKER);
    InsertOwned(b.Of(op.side), Settle(r.taker), s.owner[b.nextId := a], MAKER);
  }

  lemma {:induction false} FreshId(b: Book, side: Side, taker: Order)
    requires MarketOk(b)
    ensures b.nextId > 0
    ensures forall k :: 0 <= k < |b.Of(side)| ==> b.Of(side)[k].id != b.nextId
    ensures var rest := Sweep(b.Of(side), taker).rest; forall k :: 0 <= k < |rest| ==> rest[k].id != b.nextId
  {
    SweptKeepsSide(b.Of(side), taker, side, b.nextId);
  }

  lemma {:induction false} OnlyRegistered(s: seq<Order>, owner: map<OrderId, Agent>, issued: OrderId, a: Agent, id: OrderId)
    requires OnlyQuote(s, owner, MAKER, id) && forall k :: 0 <= k < |s| ==> s[k].id != issued
    ensures OnlyQuote(s, owner[issued := a], MAKER, id)
  {
  }

  lemma {:induction false} OnlyInserted(s: seq<Order>, o: Order, owner: map<OrderId, Agent>, id: OrderId)
    requires OnlyQuote(s, owner, MAKER, id) && o.id in owner && (owner[o.id] == MAKER ==> o.id == id)
    ensures OnlyQuote(Insert(s, o), owner, MAKER, id)
  {
    var k := InsertShape(s, o);
    var r := Insert(s, o);
    forall i | 0 <= i < |r| && r[i].id in owner && owner[r[i].id] == MAKER ensures r[i].id == id {
      assert i != k ==> r[i] == s[if i < k then i else i - 1];
    }
  }

  /** A submission leaves the maker at most its one quote on each side. */
  lemma {:induction false} SendKeepsOnly(s: Sim, a: Agent, op: Op, side: Side, id: OrderId)
    requires SimOk(s) && op.Submit? && a < |s.agents| && Acceptable(op.kind, op.price, op.quantity)
    requires OnlyQuote(s.book.Of(side), s.owner, MAKER, id) && (a == MAKER && side == op.side ==> id == s.book.nextId)
    ensures OnlyQuote(Send(s, a, op).book.Of(side), Send(s, a, op).owner, MAKER, id)
  {
    hide RouteAll, Send, MarketOk, OnlyQuote, Insert;
    var b, r, owner := s.book, SweepOf(s.book, op), s.owner[s.book.nextId := a];
    SendFrame(s, a, op);
    FreshId(b, op.side, Taker(b, op));
    FreshId(b, op.side.Opposite(), Taker(b, op));
    OnlyRegistered(b.Of(side), s.owner, b.nextId, a, id);
    if side != op.side {
      SweptWithin(b, op);
      OnlyWithin(r.rest, b.Of(side), owner, MAKER, id);
    } else {
      SweepVolume(b.Of(op.side.Opposite()), Taker(b, op));
      OnlyInserted(b.Of(side), Settle(r.taker), owner, id);
    }
  }

  // ---- Everybody else ----

  lemma {:induction false} OtherSendKeepsDesk(d: Desk, a: Agent, op: Op)
    requires DeskOk(d) && a != MAKER && a < |d.sim.agents| && op.Submit?
    ensures DeskOk(d.(sim := Send(d.sim, a, op)))
  {
    hide RouteAll, Send, OnlyQuote, Owned, OwnedTaken, MarketOk, SubmitTo;
    var s := d.sim;
    SendKeepsOk(s, a, op);
    if Acceptable(op.kind, op.price, op.quantity) {
      SendMovesStakes(s, a, op);
      SendKeepsOnly(s, a, op, Buy, d.bidId);
      SendKeepsOnly(s, a, op, Sell, d.askId);
    } else {
      RejectedSend(s, a, op);
    }
  }

  lemma {:induction false} RejectedSend(s: Sim, a: Agent, op: Op)
    requires op.Submit? && a < |s.agents| && !Acceptable(op.kind, op.price, op.quantity)
    ensures Send(s, a, op) == Sent(s, a, s.book) && Send(s, a, op).agents[MAKER].position == s.agents[MAKER].position
  {
  }

  lemma {:induction false} WithdrawKeepsStakes(b: Book, op: Op, owner: map<OrderId, Agent>)
    requires MarketOk(b) && !op.Submit?
    ensures var b' := Step(b, op).book;
            Owned(b'.bids, owner, MAKER) <= Owned(b.bids, owner, MAKER) && Owned(b'.asks, owner, MAKER) <= Owned(b.asks, owner, MAKER)
  {
    RemoveOwned(b.bids, op.id, owner, MAKER);
    RemoveOwned(b.asks, op.id, owner, MAKER);
    if op.Reduce? && b.Has(op.id) && 0 < op.newQuantity < Find(b, op.id).remaining {
      SetRemainingOwned(b.bids, op.id, op.newQuantity, owner, MAKER);
      SetRemainingOwned(b.asks, op.id, op.newQuantity, owner, MAKER);
    }
  }

  lemma {:induction false} WithdrawKeepsDesk(d: Desk, a: Agent, op: Op)
    requires DeskOk(d) && a < |d.sim.agents| && !op.Submit?
    ensures DeskOk(d.(sim := Withdraw(d.sim, a, op)))
  {
    hide OnlyQuote, Owned, MarketOk, Step;
    var s, b' := d.sim, Step(d.sim.book, op).book;
    ActKeepsOk(s, Move(a, op));
    WithdrawKeepsStakes(s.book, op, s.owner);
    WithdrawShrinks(s.book, op);
    OnlyWithin(b'.bids, s.book.bids, s.owner, MAKER, d.bidId);
    OnlyWithin(b'.asks, s.book.asks, s.owner, MAKER, d.askId);
  }

  // ---- The tick keeps the bound ----

  /** The maker has nothing on a side. */
  ghost predicate Cleared(s: Sim, side: Side) {
    forall k :: 0 <= k < |s.book.Of(side)| ==>
      !(s.book.Of(side)[k].id in s.owner && s.owner[s.book.Of(side)[k].id] == MAKER)
  }

  lemma {:induction false} ClearedMeans(s: Sim, side: Side, id: OrderId)
    requires Cleared(s, side)
    ensures OnlyQuote(s.book.Of(side), s.owner, MAKER, id) && Owned(s.book.Of(side), s.owner, MAKER) == 0
  {
    NothingOwned(s.book.Of(side), s.owner, MAKER);
  }

  lemma {:induction false} ClearedWithin(s': Sim, s: Sim, side: Side)
    requires Cleared(s, side) && s'.owner == s.owner && Within(s'.book.Of(side), s.book.Of(side))
    ensures Cleared(s', side)
  {
    var t := s'.book.Of(side);
    forall k | 0 <= k < |t| ensures !(t[k].id in s'.owner && s'.owner[t[k].id] == MAKER) {
      assert NamedIn(t[k], s.book.Of(side));
    }
  }

  /** Cancelling the only quote of a side leaves none. */
  lemma {:induction false} RemoveLeavesNone(s: seq<Order>, owner: map<OrderId, Agent>, id: OrderId, k: nat)
    requires UniqueIds(s) && OnlyQuote(s, owner, MAKER, id) && k < |Remove(s, id)|
    ensures var r := Remove(s, id); !(r[k].id in owner && owner[r[k].id] == MAKER)
  {
    RemoveShape(s, id);
    var r := Remove(s, id);
    if HasId(s, id) {
      var i := IndexOf(s, id);
      assert r[k] == s[if k < i then k else k + 1];
    }
    assert r[k].id != id;
  }

  lemma {:induction false} PullClears(s: Sim, side: Side, id: OrderId)
    requires SimOk(s) && |s.agents| > 0 && OnlyQuote(s.book.Of(side), s.owner, MAKER, id)
    ensures var s' := PullQuote(s, id);
            && SimOk(s') && |s'.agents| == |s.agents| && s'.owner == s.owner
            && s'.agents[MAKER].position == s.agents[MAKER].position
            && Cleared(s', side)
            && Within(s'.book.bids, s.book.bids) && Within(s'.book.asks, s.book.asks)
  {
    var s', t := PullQuote(s, id), s.book.Of(side);
    if id > 0 {
      ActKeepsOk(s, Move(MAKER, Cancel(id)));
      WithdrawShrinks(s.book, Cancel(id));
      forall k | 0 <= k < |Remove(t, id)|
        ensures !(Remove(t, id)[k].id in s.owner && s.owner[Remove(t, id)[k].id] == MAKER)
      {
        RemoveLeavesNone(t, s.owner, id, k);
      }
    } else {
      SelfWithin(s.book.bids);
      SelfWithin(s.book.asks);
      assert forall k :: 0 <= k < |t| ==> t[k].id > 0;
    }
  }

  /** After both cancels the maker has no quote left and the position it had. */
  lemma {:induction false} PullKeepsDesk(d: Desk)
    requires DeskOk(d)
    ensures var d' := Pull(d);
            DeskOk(d') && d'.Position() == d.Position() && Cleared(d'.sim, Buy) && Cleared(d'.sim, Sell)
  {
    hide OnlyQuote, Owned, Cleared, PullQuote, MarketOk;
    var s1 := PullQuote(d.sim, d.bidId);
    PullClears(d.sim, Buy, d.bidId);
    OnlyWithin(s1.book.asks, d.sim.book.asks, d.sim.owner, MAKER, d.askId);
    var s2 := PullQuote(s1, d.askId);
    PullClears(s1, Sell, d.askId);
    ClearedWithin(s2, s1, Buy);
    ClearedMeans(s2, Buy, 0);
    ClearedMeans(s2, Sell, 0);
  }

  lemma {:induction false} QuoteFacts(s: Sim, side: Side, price: Price, id: OrderId)
    requires SimOk(s) && |s.agents| > 0
    requires OnlyQuote(s.book.Of(side.Opposite()), s.owner, MAKER, id) && Cleared(s, side)
    ensures var (s', issued) := Quote(s, side, price);
            var own, opp := s.book.Of(side), s.book.Of(side.Opposite());
            var own', opp' := s'.book.Of(side), s'.book.Of(side.Opposite());
            && SimOk(s') && |s'.agents| == |s.agents|
            && OnlyQuote(own', s'.owner, MAKER, issued) && OnlyQuote(opp', s'.owner, MAKER, id)
            && Owned(own', s'.owner, MAKER) <= QUOTE_SIZE
            && Owned(opp', s'.owner, MAKER) <= Owned(opp, s.owner, MAKER)
            && s'.agents[MAKER].position == s.agents[MAKER].position +
                 (if side.Buy? then -1 else 1) * (Owned(opp, s.owner, MAKER) - Owned(opp', s'.owner, MAKER))
  {
    hide OnlyQuote, Owned, OwnedTaken, Cleared, MarketOk, RouteAll, Send, SubmitTo;
    var op := Submit(side, Limit, price, QUOTE_SIZE);
    SendKeepsOk(s, MAKER, op);
    ClearedMeans(s, side, s.book.nextId);
    ClearedMeans(s, side, 0);
    if Acceptable(Limit, price, QUOTE_SIZE) {
      SendMovesStakes(s, MAKER, op);
      SendKeepsOnly(s, MAKER, op, side, s.book.nextId);
      SendKeepsOnly(s, MAKER, op, side.Opposite(), id);
      SubmitReplies(s.book, op);
    } else {
      RejectedSend(s, MAKER, op);
      SubmitReplies(s.book, op);
    }
  }

  lemma {:induction false} QuoteBidKeepsDesk(d: Desk, price: Price)
    requires DeskOk(d) && Cleared(d.sim, Buy) && Cleared(d.sim, Sell)
    ensures DeskOk(QuoteBid(d, price)) && Cleared(QuoteBid(d, price).sim, Sell)
  {
    hide OnlyQuote, Owned, MarketOk, Quote;
    if d.Position() < MAX_POSITION {
      ClearedMeans(d.sim, Sell, 0);
      ClearedMeans(d.sim, Sell, d.askId);
      QuoteFacts(d.sim, Buy, price, d.askId);
      QuoteFacts(d.sim, Buy, price, 0);
      NobodyWithZero(Quote(d.sim, Buy, price).0, Sell);
    }
  }

  /** Order ids are positive, so "only order 0" means none. */
  lemma {:induction false} NobodyWithZero(s: Sim, side: Side)
    requires SimOk(s) && OnlyQuote(s.book.Of(side), s.owner, MAKER, 0)
    ensures Cleared(s, side)
  {
    var t := s.book.Of(side);
    forall k | 0 <= k < |t| ensures !(t[k].id in s.owner && s.owner[t[k].id] == MAKER) {
      assert Live(t[k], side, s.book.nextId);
    }
  }

  lemma {:induction false} QuoteAskKeepsDesk(d: Desk, price: Price)
    requires DeskOk(d) && Cleared(d.sim, Sell)
    ensures DeskOk(QuoteAsk(d, price))
  {
    hide OnlyQuote, Owned, Cleared, MarketOk, Quote;
    if d.Position() > -MAX_POSITION {
      QuoteFacts(d.sim, Sell, price, d.bidId);
    }
  }

  lemma {:induction false} PullSize(d: Desk)
    requires |d.sim.agents| > 0
    ensures |Pull(d).sim.agents| == |d.sim.agents|
  {
  }

  lemma {:induction false} TickKeepsDesk(d: Desk, bid: Price, ask: Price)
    requires DeskOk(d)
    ensures DeskOk(Tick(d, bid, ask))
  {
    hide DeskOk, Cleared;
    DeskHasAgents(d);
    PullKeepsDesk(d);
    PullSize(d);
    QuoteBidKeepsDesk(Pull(d), bid);
    QuoteAskKeepsDesk(QuoteBid(Pull(d), bid), ask);
  }

  // ---- Whole runs ----

  datatype Event = MakerTick(bid: Price, ask: Price) | Others(move: Move)

  ghost predicate Legal(e: Event, n: nat) {
    e.Others? ==> e.move.agent != MAKER && e.move.agent < n
  }

  ghost predicate AllLegal(events: seq<Event>, n: nat) {
    forall k :: 0 <= k < |events| ==> Legal(events[k], n)
  }

  function React(d: Desk, e: Event): (d': Desk)
    requires |d.sim.agents| > 0 && (e.Others? ==> e.move.agent < |d.sim.agents|)
    ensures |d'.sim.agents| == |d.sim.agents|
  {
    match e
    case MakerTick(bid, ask) => Tick(d, bid, ask)
    case Others(m) => ActSize(d.sim, m); d.(sim := Act(d.sim, m))
  }

  function Unfold(d: Desk, events: seq<Event>): (d': Desk)
    requires |d.sim.agents| > 0 && AllLegal(events, |d.sim.agents|)
    ensures |d'.sim.agents| == |d.sim.agents|
    decreases events
  {
    if events == [] then d else
      assert Legal(events[0], |d.sim.agents|);
      Unfold(React(d, events[0]), events[1..])
  }

  lemma {:induction false} ReactKeepsDesk(d: Desk, e: Event)
    requires DeskOk(d) && Legal(e, |d.sim.agents|)
    ensures DeskOk(React(d, e))
  {
    hide DeskOk;
    match e
    case MakerTick(bid, ask) => TickKeepsDesk(d, bid, ask);
    case Others(m) =>
      if m.op.Submit? {
        OtherSendKeepsDesk(d, m.agent, m.op);
      } else {
        WithdrawKeepsDesk(d, m.agent, m.op);
      }
  }

  lemma {:induction false} UnfoldKeepsDesk(d: Desk, events: seq<Event>)
    requires DeskOk(d) && AllLegal(events, |d.sim.agents|)
    ensures DeskOk(Unfold(d, events))
    decreases events
  {
    hide DeskOk;
    if events != [] {
      assert Legal(events[0], |d.sim.agents|);
      DeskHasAgents(d);
      ReactKeepsDesk(d, events[0]);
      UnfoldKeepsDesk(React(d, events[0]), events[1..]);
    }
  }

  lemma {:induction false} DeskHasAgents(d: Desk)
    requires DeskOk(d)
    ensures |d.sim.agents| > 0
  {
  }

  /** Whatever the other agents submit, cancel or reduce, and whatever prices the maker picks, it has
      at most one live bid and one live ask, and its recorded position stays within the cap. */
  lemma {:induction false} MakerStaysWithinCap(n: nat, events: seq<Event>)
    requires n > 0 && AllLegal(events, n)
    ensures var d0 := Desk(Sim0(n), 0, 0);
            && |d0.sim.agents| == n
            && var d := Unfold(d0, events);
               && -CAP <= d.Position() <= CAP
               && OnlyQuote(d.sim.book.bids, d.sim.owner, MAKER, d.bidId)
               && OnlyQuote(d.sim.book.asks, d.sim.owner, MAKER, d.askId)
  {
    UnfoldKeepsDesk(Desk(Sim0(n), 0, 0), events);
  }

  // ---- What a tick sends ----

  /** Every order of the maker on a side has this price. */
  ghost predicate PricedAt(s: seq<Order>, owner: map<OrderId, Agent>, price: Price) {
    forall k :: 0 <= k < |s| && s[k].id in owner && owner[s[k].id] == MAKER ==> s[k].price == price
  }

  lemma {:induction false} QuotePriced(s: Sim, side: Side, price: Price)
    requires SimOk(s) && |s.agents| > 0 && Cleared(s, side)
    ensures var s' := Quote(s, side, price).0; PricedAt(s'.book.Of(side), s'.owner, price)
  {
    hide RouteAll, Send, MarketOk, Sweep, Insert;
    var op := Submit(side, Limit, price, QUOTE_SIZE);
    SendFrame(s, MAKER, op);
    if Acceptable(Limit, price, QUOTE_SIZE) {
      FreshId(s.book, side, Taker(s.book, op));
      SweepVolume(s.book.Of(side.Opposite()), Taker(s.book, op));
      var k := InsertShape(s.book.Of(side), Settle(SweepOf(s.book, op).taker));
    }
  }

  /** An ask above the maker's own bid trades with others only. */
  lemma {:induction false} AskSparesOwnBid(s: Sim, bid: Price, ask: Price)
    requires SimOk(s) && |s.agents| > 0 && PricedAt(s.book.bids, s.owner, bid) && bid < ask
    ensures var s' := Quote(s, Sell, ask).0; |s'.agents| == |s.agents| && s'.agents[MAKER].position == s.agents[MAKER].position
  {
    hide RouteAll, Send, MarketOk, Sweep, Insert, PassiveNet;
    var op := Submit(Sell, Limit, ask, QUOTE_SIZE);
    SendMovesRestingOwners(s, MAKER, op, MAKER);
    if Acceptable(Limit, ask, QUOTE_SIZE) {
      var taker, trades := Taker(s.book, op), SweepOf(s.book, op).trades;
      SweepTrades(s.book.bids, taker);
      var met := s.book.bids[..|trades|];
      forall k | 0 <= k < |met| ensures met[k].id in s.owner && s.owner[met[k].id] != MAKER {
        assert Crosses(taker, s.book.bids[k]);
      }
      NothingPassive(trades, met, taker, s.owner, MAKER);
    } else {
      RejectedSend(s, MAKER, op);
    }
  }

  /** What one order adds to its sender's counters. */
  lemma {:induction false} QuoteCounts(s: Sim, side: Side, price: Price)
    requires SimOk(s) && |s.agents| > 0 && price > 0
    ensures var (s', id) := Quote(s, side, price);
            && |s'.agents| == |s.agents| && id == s.book.nextId && s'.book.nextId == id + 1
            && s'.agents[MAKER].ordersSent == s.agents[MAKER].ordersSent + 1
            && s'.agents[MAKER].cancelsSent == s.agents[MAKER].cancelsSent
  {
    hide RouteAll, Send, SimOk, Sweep, Insert;
    var op := Submit(side, Limit, price, QUOTE_SIZE);
    SendFrame(s, MAKER, op);
    SubmitReplies(s.book, op);
    ActTotals(s, Move(MAKER, op), MAKER);
    HasNext(s);
  }

  lemma {:induction false} HasNext(s: Sim)
    requires SimOk(s)
    ensures s.book.nextId > 0
  {
  }

  lemma {:induction false} PullCounts(d: Desk)
    requires |d.sim.agents| > 0
    ensures var d', n := Pull(d), (if d.bidId > 0 then 1 else 0) + (if d.askId > 0 then 1 else 0);
            && |d'.sim.agents| == |d.sim.agents| && d'.sim.book.nextId == d.sim.book.nextId && d'.bidId == d'.askId == 0
            && d'.sim.agents[MAKER].ordersSent == d.sim.agents[MAKER].ordersSent
            && d'.sim.agents[MAKER].cancelsSent == d.sim.agents[MAKER].cancelsSent + n
  {
    hide Remove;
  }

  /** After the cancels a bid cannot meet an own ask: it leaves the position as it is. */
  lemma {:induction false} BidLeavesPosition(d: Desk, bid: Price)
    requires DeskOk(d)
    ensures var d1 := Pull(d);
            |d1.sim.agents| == |d.sim.agents| && d1.Position() == d.Position() && QuoteBid(d1, bid).Position() == d.Position()
  {
    hide OnlyQuote, Owned, Cleared, MarketOk, Quote, Pull;
    PullCounts(d);
    PullKeepsDesk(d);
    var d1 := Pull(d);
    ClearedMeans(d1.sim, Sell, 0);
    if d1.Position() < MAX_POSITION {
      QuoteFacts(d1.sim, Buy, bid, 0);
    }
  }

  /** A tick with positive prices, bid below ask: a bid is sent if and only if the position is below
      1000, an ask if and only if it is above -1000, each under the next free id; every live quote id is
      cancelled first; and the tick itself does not move the position. */
  lemma {:induction false} TickSends(d: Desk, bid: Price, ask: Price)
    requires DeskOk(d) && 0 < bid < ask
    ensures var d', p, n := Tick(d, bid, ask), d.Position(), d.sim.book.nextId;
            var bids, asks := if p < 1000 then 1 else 0, if p > -1000 then 1 else 0;
            && d'.Position() == p && n > 0
            && d'.bidId == (if p < 1000 then n else 0) && d'.askId == (if p > -1000 then n + bids else 0)
            && d'.sim.book.nextId == n + bids + asks
            && d'.sim.agents[MAKER].ordersSent == d.sim.agents[MAKER].ordersSent + bids + asks
            && d'.sim.agents[MAKER].cancelsSent ==
               d.sim.agents[MAKER].cancelsSent + (if d.bidId > 0 then 1 else 0) + (if d.askId > 0 then 1 else 0)
  {
    hide OnlyQuote, Owned, Cleared, Quote, Pull, SimOk, PricedAt;
    BidLeavesPosition(d, bid);
    PullCounts(d);
    PullKeepsDesk(d);
    var d1 := Pull(d);
    HasNext(d1.sim);
    QuoteCounts(d1.sim, Buy, bid);
    QuoteBidKeepsDesk(d1, bid);
    var d2 := QuoteBid(d1, bid);
    QuoteCounts(d2.sim, Sell, ask);
    BidsPriced(d1, bid);
    AskSparesOwnBid(d2.sim, bid, ask);
  }

  lemma {:induction false} BidsPriced(d: Desk, bid: Price)
    requires DeskOk(d) && Cleared(d.sim, Buy)
    ensures var s := QuoteBid(d, bid).sim; PricedAt(s.book.bids, s.owner, bid)
  {
    hide Quote, OnlyQuote, Owned, MarketOk;
    if d.Position() < MAX_POSITION {
      QuotePriced(d.sim, Buy, bid);
    } else {
      assert d.sim.book.Of(Buy) == d.sim.book.bids;
    }
  }
}
