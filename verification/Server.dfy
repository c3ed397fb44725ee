/** The server: the risk gate in front of the engine, and the trade callback that feeds both legs of
    every execution back into the risk ledger. */
module Server {
  import opened Types
  import opened FlatBook
  import opened Sweeping
  import opened Market
  import opened Exchange
  import opened Risk

  /** The callback books every fill under this symbol, whatever was traded. */
  const AAPL := Symbol("AAPL")

  datatype Server = Server(venue: Venue, risk: RiskState)

  datatype Message =
    | NewOrder(ticket: Ticket)
    | CancelOrder(symbol: Symbol, id: OrderId)
    | KillSwitch(on: bool)

  /** Both legs of one execution. */
  function BothLegs(l: RiskState, t: Trade): RiskState {
    BookFill(BookFill(l, AAPL, Buy, t.price, t.quantity), AAPL, Sell, t.price, t.quantity)
  }

  function Feed(l: RiskState, trades: seq<Trade>): RiskState
    decreases trades
  {
    if trades == [] then l else Feed(BothLegs(l, trades[0]), trades[1..])
  }

  function OrderCall(t: Ticket): Call {
    Call(t.symbol, Submit(t.side, t.kind, t.price, t.quantity))
  }

  function Handle(s: Server, m: Message): Server {
    match m
    case NewOrder(t) =>
      if Verdict(s.risk, t) != NoReason then s
      else
        var (venue, reply) := Apply(s.venue, OrderCall(t));
        Server(venue, Feed(s.risk, reply.Trades()))
    case CancelOrder(symbol, id) => s.(venue := Apply(s.venue, Call(symbol, Cancel(id))).0)
    case KillSwitch(on) => s.(risk := s.risk.(killed := on))
  }

  function Serve(s: Server, ms: seq<Message>): Server
    decreases ms
  {
    if ms == [] then s else Serve(Handle(s, ms[0]), ms[1..])
  }

  function Fresh(limits: RiskLimits): Server {
    Server(NEW_VENUE, RiskState(limits, false, map[], 0))
  }

  // ---- The ledger ----

  ghost predicate Flat(l: RiskState) {
    forall s :: s in l.positions ==> l.positions[s] == 0
  }

  ghost predicate AllMarketsOk(v: Venue) {
    forall s :: s in v.books ==> MarketOk(v.books[s])
  }

  ghost predicate PositivePrices(trades: seq<Trade>) {
    forall k :: 0 <= k < |trades| ==> trades[k].price > 0
  }

  /** The two legs cancel in the position and add up in the exposure. */
  lemma {:induction false} FeedDoubles(l: RiskState, trades: seq<Trade>)
    requires Flat(l)
    ensures var l' := Feed(l, trades);
            && Flat(l') && l'.limits == l.limits && l'.killed == l.killed
            && l'.exposure == l.exposure + 2 * Notional(trades)
    decreases trades
  {
    if trades != [] {
      FeedDoubles(BothLegs(l, trades[0]), trades[1..]);
    }
  }

  lemma {:induction false} PositiveNotional(trades: seq<Trade>)
    requires PositivePrices(trades)
    ensures Notional(trades) >= 0
    decreases |trades|
  {
    if trades != [] {
      PositiveNotional(trades[1..]);
    }
  }

  /** Trades happen at resting limit prices, which are positive. */
  lemma {:induction false} CallPricesPositive(v: Venue, c: Call)
    requires AllMarketsOk(v)
    ensures AllMarketsOk(Apply(v, c).0) && PositivePrices(Apply(v, c).1.Trades())
  {
    var b := v.Book(c.symbol);
    assert MarketOk(b);
    StepKeepsMarket(b, c.op);
    if c.op.Submit? && Acceptable(c.op.kind, c.op.price, c.op.quantity) {
      SweepTrades(b.Of(c.op.side.Opposite()), Taker(b, c.op));
    }
  }

  ghost predicate LedgerOk(s: Server) {
    && AllMarketsOk(s.venue) && Flat(s.risk)
    && s.risk.exposure == 2 * s.venue.stats.notional
  }

  lemma {:induction false} HandleKeepsLedger(s: Server, m: Message)
    requires LedgerOk(s)
    ensures var s' := Handle(s, m);
            LedgerOk(s') && s'.risk.limits == s.risk.limits && s'.risk.exposure >= s.risk.exposure
  {
    match m
    case NewOrder(t) =>
      var trades := Apply(s.venue, OrderCall(t)).1.Trades();
      CallPricesPositive(s.venue, OrderCall(t));
      FeedDoubles(s.risk, trades);
      PositiveNotional(trades);
    case CancelOrder(symbol, id) =>
      CallPricesPositive(s.venue, Call(symbol, Cancel(id)));
    case KillSwitch(on) =>
  }

  lemma {:induction false} ServeKeepsLedger(s: Server, ms: seq<Message>)
    requires LedgerOk(s)
    ensures var s' := Serve(s, ms);
            LedgerOk(s') && s'.risk.limits == s.risk.limits && s'.risk.exposure >= s.risk.exposure
    decreases ms
  {
    if ms != [] {
      HandleKeepsLedger(s, ms[0]);
      ServeKeepsLedger(Handle(s, ms[0]), ms[1..]);
    }
  }

  /** On every server run all recorded positions are zero and the exposure is exactly twice the money
      traded. */
  lemma {:induction false} ServerLedger(limits: RiskLimits, ms: seq<Message>, symbol: Symbol)
    ensures var s := Serve(Fresh(limits), ms);
            s.risk.Position(symbol) == 0 && s.risk.exposure == 2 * s.venue.stats.notional >= 0
  {
    ServeKeepsLedger(Fresh(limits), ms);
  }

  /** So the position rule never sees a position: it is a second limit on the order size. */
  lemma {:induction false} PositionRuleIsSizeRule(limits: RiskLimits, ms: seq<Message>, t: Ticket)
    ensures Breaks(Serve(Fresh(limits), ms).risk, t, MaxPositionExceeded) <==> t.quantity > limits.maxPositionAbs
  {
    ServeKeepsLedger(Fresh(limits), ms);
  }

  /** Exposure never falls, so an order turned away for exposure stays turned away, together with
      everything at least as large, for the rest of the run. */
  lemma {:induction false} ExposureRejectionIsFinal(limits: RiskLimits, before: seq<Message>, after: seq<Message>, t: Ticket, u: Ticket)
    requires Verdict(Serve(Fresh(limits), before).risk, t) == MaxNotionalExposureExceeded
    requires !u.kind.Market? && u.Notional() >= t.Notional()
    ensures Verdict(Serve(Serve(Fresh(limits), before), after).risk, u) != NoReason
  {
    var s := Serve(Fresh(limits), before);
    ServeKeepsLedger(Fresh(limits), before);
    ServeKeepsLedger(s, after);
    RulesInOrder(s.risk, t);
    RulesInOrder(Serve(s, after).risk, u);
  }

  // ---- What reaches the engine ----

  /** The tickets that pass, given the limits, the switch and the money traded so far. */
  predicate LetThrough(limits: RiskLimits, killed: bool, money: int, t: Ticket) {
    && !killed && 0 < t.quantity <= limits.maxOrderQuantity && t.quantity <= limits.maxPositionAbs
    && (t.kind.Limit? ==> t.price > 0)
    && (!t.kind.Market? ==> t.price * t.quantity <= limits.maxOrderNotional
                            && 2 * money + t.price * t.quantity <= limits.maxNotionalExposure)
  }

  /** The engine calls a run of messages amounts to: every cancel, and the tickets let through. */
  function CallsOf(limits: RiskLimits, killed: bool, v: Venue, ms: seq<Message>): seq<Call>
    decreases ms
  {
    if ms == [] then []
    else
      match ms[0]
      case NewOrder(t) =>
        var c := Call(t.symbol, Submit(t.side, t.kind, t.price, t.quantity));
        if LetThrough(limits, killed, v.stats.notional, t) then [c] + CallsOf(limits, killed, Apply(v, c).0, ms[1..])
        else CallsOf(limits, killed, v, ms[1..])
      case CancelOrder(symbol, id) =>
        var c := Call(symbol, Cancel(id));
        [c] + CallsOf(limits, killed, Apply(v, c).0, ms[1..])
      case KillSwitch(on) => CallsOf(limits, on, v, ms[1..])
  }

  /** With the ledger in order, the rules come down to the limits. */
  lemma {:induction false} GateIsLetThrough(s: Server, t: Ticket)
    requires LedgerOk(s)
    ensures Verdict(s.risk, t) == NoReason <==> LetThrough(s.risk.limits, s.risk.killed, s.venue.stats.notional, t)
  {
    hide Verdict, AllMarketsOk;
    PassesIff(s.risk, t);
    assert s.risk.Position(t.symbol) == 0;
  }

  /** One message: a refused ticket changes nothing, anything else is one engine call or a flip of the
      switch. */
  lemma {:induction false} MessageEffects(s: Server, m: Message)
    requires LedgerOk(s)
    ensures var s' := Handle(s, m);
            match m
            case NewOrder(t) =>
              if LetThrough(s.risk.limits, s.risk.killed, s.venue.stats.notional, t)
              then s'.venue == Apply(s.venue, Call(t.symbol, Submit(t.side, t.kind, t.price, t.quantity))).0 && s'.risk.killed == s.risk.killed
              else s' == s
            case CancelOrder(symbol, id) => s'.venue == Apply(s.venue, Call(symbol, Cancel(id))).0 && s'.risk == s.risk
            case KillSwitch(on) => s'.venue == s.venue && s'.risk == s.risk.(killed := on)
  {
    hide Apply, Verdict, LetThrough;
    if m.NewOrder? {
      GateIsLetThrough(s, m.ticket);
      FeedDoubles(s.risk, Apply(s.venue, OrderCall(m.ticket)).1.Trades());
    }
  }

  lemma {:induction false} ServeIsFiltered(s: Server, ms: seq<Message>)
    requires LedgerOk(s)
    ensures Serve(s, ms).venue == RunAll(s.venue, CallsOf(s.risk.limits, s.risk.killed, s.venue, ms))
    decreases ms
  {
    hide Apply, LedgerOk, LetThrough, Handle;
    if ms != [] {
      MessageEffects(s, ms[0]);
      HandleKeepsLedger(s, ms[0]);
      ServeIsFiltered(Handle(s, ms[0]), ms[1..]);
      var calls := CallsOf(s.risk.limits, s.risk.killed, s.venue, ms);
      assert calls != [] ==> RunAll(s.venue, calls) == RunAll(Apply(s.venue, calls[0]).0, calls[1..]);
    }
  }

  /** Tickets let through satisfy the engine's own checks. */
  lemma {:induction false} NoneRejected(limits: RiskLimits, killed: bool, v: Venue, ms: seq<Message>)
    requires AllMarketsOk(v)
    ensures RunAll(v, CallsOf(limits, killed, v, ms)).stats.rejects == v.stats.rejects
    decreases ms
  {
    hide Apply, Step, AllMarketsOk;
    if ms != [] {
      var calls := CallsOf(limits, killed, v, ms);
      assert calls != [] ==> RunAll(v, calls) == RunAll(Apply(v, calls[0]).0, calls[1..]);
      match ms[0]
      case NewOrder(t) =>
        var c := Call(t.symbol, Submit(t.side, t.kind, t.price, t.quantity));
        if LetThrough(limits, killed, v.stats.notional, t) {
          AcceptedNotRejected(v, c);
          assert calls[1..] == CallsOf(limits, killed, Apply(v, c).0, ms[1..]);
          NoneRejected(limits, killed, Apply(v, c).0, ms[1..]);
        } else {
          NoneRejected(limits, killed, v, ms[1..]);
        }
      case CancelOrder(symbol, id) =>
        var c := Call(symbol, Cancel(id));
        AcceptedNotRejected(v, c);
        assert calls[1..] == CallsOf(limits, killed, Apply(v, c).0, ms[1..]);
        NoneRejected(limits, killed, Apply(v, c).0, ms[1..]);
      case KillSwitch(on) =>
        NoneRejected(limits, on, v, ms[1..]);
    }
  }

  lemma {:induction false} AcceptedNotRejected(v: Venue, c: Call)
    requires c.op.Cancel? || (c.op.Submit? && Acceptable(c.op.kind, c.op.price, c.op.quantity))
    requires AllMarketsOk(v)
    ensures Apply(v, c).0.stats.rejects == v.stats.rejects && AllMarketsOk(Apply(v, c).0)
  {
    hide Sweep, Insert;
    CallPricesPositive(v, c);
    assert MarketOk(v.Book(c.symbol));
  }

  /** On every server run the engine sees exactly the cancels and the tickets within the limits, in
      order: its books, tape and counters are those of these calls alone. It counts one order for each
      ticket let through and rejects none. */
  lemma {:induction false} EngineSeesOnlyWhatPasses(limits: RiskLimits, ms: seq<Message>)
    ensures var v, calls := Serve(Fresh(limits), ms).venue, CallsOf(limits, false, NEW_VENUE, ms);
            v == RunAll(NEW_VENUE, calls) && v.stats.orders == Submits(calls) && v.stats.rejects == 0
  {
    hide Serve, RunAll, CallsOf;
    ServeIsFiltered(Fresh(limits), ms);
    StatsDescribeRun(NEW_VENUE, CallsOf(limits, false, NEW_VENUE, ms));
    NoneRejected(limits, false, NEW_VENUE, ms);
  }

  // ---- The kill switch ----

  ghost predicate NeverReleased(ms: seq<Message>) {
    forall k :: 0 <= k < |ms| ==> ms[k] != KillSwitch(false)
  }

  lemma {:induction false} KilledStaysQuiet(s: Server, ms: seq<Message>)
    requires s.risk.killed && NeverReleased(ms)
    ensures var s' := Serve(s, ms);
            s'.risk.killed && s'.venue.stats.orders == s.venue.stats.orders && s'.venue.tape == s.venue.tape
    decreases ms
  {
    hide Verdict, Apply;
    if ms != [] {
      if ms[0].NewOrder? {
        PassesIff(s.risk, ms[0].ticket);
      } else if ms[0].CancelOrder? {
        ApplyCounts(s.venue, Call(ms[0].symbol, Cancel(ms[0].id)));
        CancelTradesNothing(s.venue, Call(ms[0].symbol, Cancel(ms[0].id)));
      }
      KilledStaysQuiet(Handle(s, ms[0]), ms[1..]);
    }
  }

  lemma {:induction false} CancelTradesNothing(v: Venue, c: Call)
    requires c.op.Cancel?
    ensures Apply(v, c).1.Trades() == []
  {
  }

  /** From the moment the kill switch is engaged until it is released, no order reaches the engine and
      nothing trades, whatever happened before. */
  lemma {:induction false} KillSwitchHalts(limits: RiskLimits, before: seq<Message>, after: seq<Message>)
    requires NeverReleased(after)
    ensures var s := Handle(Serve(Fresh(limits), before), KillSwitch(true));
            var s' := Serve(s, after);
            s'.venue.stats.orders == s.venue.stats.orders && s'.venue.tape == s.venue.tape
  {
    KilledStaysQuiet(Handle(Serve(Fresh(limits), before), KillSwitch(true)), after);
  }
}
