/** The objects in front of the engine: the replay harness and the server's message handlers. */
module Harness {
  import opened Types
  import opened FlatBook
  import opened Exchange
  import opened MatchingEngines
  import opened Risk
  import opened Replay
  import S = Server

  class ReplayHarness {
    const engine: MatchingEngine
    const risk: RiskChecker?

    ghost function Checker(): set<object>
    {
      if risk == null then {} else {risk}
    }

    ghost predicate Valid()
      reads engine, engine.repr, Checker()
    {
      engine.Valid() && (risk != null ==> risk.Valid() && risk !in engine.repr)
    }

    /** The gate, in its present state. */
    ghost function TheGate(): Gate
      reads Checker()
    {
      if risk == null then Open else Guarded(risk.Now())
    }

    constructor (engine: MatchingEngine, risk: RiskChecker?)
      requires engine.Valid() && (risk != null ==> risk.Valid() && risk !in engine.repr)
      ensures this.engine == engine && this.risk == risk && Valid()
    {
      this.engine, this.risk := engine, risk;
    }

    /** The trade callback, run over the trades of one submission. */
    method CountTrades(c: Counts, trades: seq<Trade>) returns (c': Counts)
      ensures c' == Tally(c, trades)
    {
      c' := c;
      for i := 0 to |trades|
        invariant Tally(c', trades[i..]) == Tally(c, trades)
      {
        assert trades[i..][1..] == trades[i + 1..];
        c' := TallyOne(c', trades[i]);
      }
      assert trades[|trades|..] == [];
    }

    /** A new-order row: the risk gate, then the engine. */
    method NewRow(e: Event, idMap: map<OrderId, OrderId>, c: Counts) returns (idMap': map<OrderId, OrderId>, c': Counts)
      requires Valid() && e.IsNew()
      modifies engine.repr, Checker()
      ensures Valid() && TheGate() == old(TheGate()) && fresh(engine.repr - old(engine.repr))
      ensures Session(engine.Now(), idMap', c') == Row(TheGate(), Session(old(engine.Now()), idMap, c), e)
    {
      hide Apply, Verdict, MatchingEngine.Valid, Balanced;
      idMap', c' := idMap, c.(events := c.events + 1, newOrders := c.newOrders + 1);
      var t := e.ticket;
      if risk != null {
        var reason := risk.Check(t.symbol, t.side, t.kind, t.price, t.quantity);
        if reason != NoReason {
          c' := c'.(riskRejections := c'.riskRejections + 1);
          return;
        }
      }
      var seen := |engine.tape|;
      var id := engine.SubmitOrder(t.symbol, t.side, t.kind, t.price, t.quantity);
      c' := CountTrades(c', engine.tape[seen..]);
      if e.orderId != 0 {
        idMap' := idMap[e.orderId := id];
      }
    }

    /** A cancel row: the mapped id, or the raw one. */
    method CancelRow(e: Event, idMap: map<OrderId, OrderId>, c: Counts) returns (c': Counts)
      requires Valid() && e.IsCancel()
      modifies engine.repr
      ensures Valid() && TheGate() == old(TheGate()) && fresh(engine.repr - old(engine.repr))
      ensures Session(engine.Now(), idMap, c') == Row(TheGate(), Session(old(engine.Now()), idMap, c), e)
    {
      hide Apply, Verdict, MatchingEngine.Valid, Balanced;
      c' := c.(events := c.events + 1, cancels := c.cancels + 1);
      var target := e.orderId;
      if e.orderId in idMap {
        target := idMap[e.orderId];
      }
      var ok := engine.CancelOrder(e.ticket.symbol, target);
    }

    /** Replays a tape. The engine ends where the row-by-row definition ends, and the risk checker's
        limits, positions and exposure are untouched. */
    method ReplayTape(tape: seq<Event>) returns (result: Counts)
      requires Valid()
      modifies engine.repr, Checker()
      ensures Valid() && TheGate() == old(TheGate())
      ensures var s := Play(old(TheGate()), Session(old(engine.Now()), map[], ZERO), tape);
              engine.Now() == s.venue && result == s.counts
    {
      hide Row, MatchingEngine.Valid, Balanced;
      result := ZERO;
      var idMap: map<OrderId, OrderId> := map[];
      ghost var g, start := TheGate(), Session(engine.Now(), map[], ZERO);
      assert tape[0..] == tape;
      for i := 0 to |tape|
        invariant Valid() && TheGate() == g && fresh(engine.repr - old(engine.repr))
        invariant Play(g, Session(engine.Now(), idMap, result), tape[i..]) == Play(g, start, tape)
      {
        var e := tape[i];
        ghost var s := Session(engine.Now(), idMap, result);
        assert tape[i..][0] == e && tape[i..][1..] == tape[i + 1..];
        if e.IsNew() {
          idMap, result := NewRow(e, idMap, result);
        } else if e.IsCancel() {
          result := CancelRow(e, idMap, result);
        } else {
          OtherRow(g, s, e);
          result := result.(events := result.events + 1);
        }
        assert Session(engine.Now(), idMap, result) == Row(g, s, e);
      }
      assert tape[|tape|..] == [];
    }
  }

  lemma {:induction false} OtherRow(g: Gate, s: Session, e: Event)
    requires !e.IsNew() && !e.IsCancel()
    ensures Row(g, s, e) == s.(counts := s.counts.(events := s.counts.events + 1))
  {
  }

  /** The message handlers of the server, and its trade callback. */
  class ServerFront {
    const engine: MatchingEngine
    const risk: RiskChecker

    ghost predicate Valid()
      reads engine, engine.repr, risk
    {
      engine.Valid() && risk.Valid() && risk !in engine.repr
    }

    ghost function Now(): S.Server
      reads engine, risk
    {
      S.Server(engine.Now(), risk.Now())
    }

    constructor (limits: RiskLimits)
      ensures Valid() && Now() == S.Fresh(limits)
    {
      engine := new MatchingEngine();
      risk := new RiskChecker(limits);
    }

    /** Feeds both legs of every execution to the risk checker. */
    method FeedRisk(trades: seq<Trade>)
      requires risk.Valid()
      modifies risk`positions, risk`exposure
      ensures risk.Valid() && risk.Now() == S.Feed(old(risk.Now()), trades)
    {
      hide Balanced;
      for i := 0 to |trades|
        invariant risk.Valid() && S.Feed(risk.Now(), trades[i..]) == S.Feed(old(risk.Now()), trades)
      {
        assert trades[i..][1..] == trades[i + 1..];
        risk.OnFill(S.AAPL, Buy, trades[i].price, trades[i].quantity);
        risk.OnFill(S.AAPL, Sell, trades[i].price, trades[i].quantity);
      }
      assert trades[|trades|..] == [];
    }

    /** A NewOrder message; the answer carries the order id, or 0 for a rejection. */
    method HandleNewOrder(t: Ticket) returns (id: OrderId)
      requires Valid()
      modifies engine.repr, risk
      ensures Valid() && fresh(engine.repr - old(engine.repr))
      ensures Now() == S.Handle(old(Now()), S.NewOrder(t))
      ensures if Verdict(old(Now()).risk, t) != NoReason then id == 0 && engine.Now() == old(engine.Now()) && risk.Now() == old(risk.Now())
              else
                var (venue, reply) := Apply(old(engine.Now()), Call(t.symbol, Submit(t.side, t.kind, t.price, t.quantity)));
                engine.Now() == venue && reply.Submitted? && reply.id == id && risk.Now() == S.Feed(old(risk.Now()), reply.trades)
    {
      hide Apply, Verdict, MatchingEngine.Valid, Balanced, S.Feed;
      var reason := risk.Check(t.symbol, t.side, t.kind, t.price, t.quantity);
      if reason != NoReason {
        return 0;
      }
      var seen := |engine.tape|;
      id := engine.SubmitOrder(t.symbol, t.side, t.kind, t.price, t.quantity);
      FeedRisk(engine.tape[seen..]);
    }

    method HandleCancel(symbol: Symbol, id: OrderId) returns (ok: bool)
      requires Valid()
      modifies engine.repr
      ensures Valid() && fresh(engine.repr - old(engine.repr))
      ensures Now() == S.Handle(old(Now()), S.CancelOrder(symbol, id))
      ensures Done(ok) == Apply(old(engine.Now()), Call(symbol, Cancel(id))).1
      ensures ok <==> old(engine.Now()).Book(symbol).Has(id)
      ensures risk.Now() == old(risk.Now())
    {
      hide Apply, MatchingEngine.Valid, Balanced;
      ok := engine.CancelOrder(symbol, id);
    }

    /** The operator engages or releases the kill switch. */
    method SetKillSwitch(on: bool)
      requires Valid()
      modifies risk`killSwitch
      ensures Valid() && Now() == S.Handle(old(Now()), S.KillSwitch(on))
    {
      hide MatchingEngine.Valid, Balanced;
      risk.SetKillSwitch(on);
    }
  }
}
