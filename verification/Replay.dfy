/** Tape replay: every row passes the risk gate and is translated to an engine call; tape ids are
    mapped to the ids the engine assigned. */
module Replay {
  import opened Types
  import opened FlatBook
  import opened Exchange
  import opened Risk

  datatype Event = Event(ticket: Ticket, action: char, orderId: OrderId) {
    predicate IsNew() {
      action == 'N' || action == 'n'
    }

    predicate IsCancel() {
      action == 'C' || action == 'c'
    }

    function OrderCall(): Call {
      Call(ticket.symbol, Submit(ticket.side, ticket.kind, ticket.price, ticket.quantity))
    }
  }

  /** What the harness reports; the volume is a 32-bit counter. */
  datatype Counts = Counts(events: nat, newOrders: nat, cancels: nat, riskRejections: nat,
                           trades: nat, volume: Quantity, notional: int)

  const ZERO := Counts(0, 0, 0, 0, 0, 0, 0)

  datatype Session = Session(venue: Venue, idMap: map<OrderId, OrderId>, counts: Counts)

  /** The harness runs with or without a risk checker. */
  datatype Gate = Open | Guarded(risk: RiskState) {
    predicate Lets(t: Ticket) {
      Open? || Verdict(risk, t) == NoReason
    }
  }

  /** The trade callback of the harness. */
  function TallyOne(c: Counts, t: Trade): Counts {
    c.(trades := c.trades + 1, volume := (c.volume + t.quantity) % 0x1_0000_0000,
       notional := c.notional + t.price * t.quantity)
  }

  function Tally(c: Counts, trades: seq<Trade>): Counts
    decreases trades
  {
    if trades == [] then c else Tally(TallyOne(c, trades[0]), trades[1..])
  }

  /** The engine id a cancel row addresses: the mapped one, or the raw number if there is none. */
  function Target(idMap: map<OrderId, OrderId>, tapeId: OrderId): OrderId {
    if tapeId in idMap then idMap[tapeId] else tapeId
  }

  function Row(g: Gate, s: Session, e: Event): Session {
    var c := s.counts.(events := s.counts.events + 1);
    if e.IsNew() then
      var c' := c.(newOrders := c.newOrders + 1);
      if !g.Lets(e.ticket) then s.(counts := c'.(riskRejections := c'.riskRejections + 1))
      else
        var (venue, reply) := Apply(s.venue, e.OrderCall());
        Session(venue, if e.orderId != 0 then s.idMap[e.orderId := reply.id] else s.idMap, Tally(c', reply.trades))
    else if e.IsCancel() then
      s.(venue := Apply(s.venue, Call(e.ticket.symbol, Cancel(Target(s.idMap, e.orderId)))).0,
         counts := c.(cancels := c.cancels + 1))
    else s.(counts := c)
  }

  function Play(g: Gate, s: Session, tape: seq<Event>): Session
    decreases tape
  {
    if tape == [] then s else Play(g, Row(g, s, tape[0]), tape[1..])
  }

  // ---- The gate is a filter ----

  /** The tape without the rows that the gate, in its fixed state, turns away. */
  function Passing(g: Gate, tape: seq<Event>): seq<Event> {
    if tape == [] then []
    else (if tape[0].IsNew() && !g.Lets(tape[0].ticket) then [] else [tape[0]]) + Passing(g, tape[1..])
  }

  ghost predicate SameMarket(a: Session, b: Session) {
    && a.venue == b.venue && a.idMap == b.idMap
    && a.counts.trades == b.counts.trades && a.counts.volume == b.counts.volume && a.counts.notional == b.counts.notional
  }

  lemma {:induction false} TallySame(a: Counts, b: Counts, trades: seq<Trade>)
    requires a.trades == b.trades && a.volume == b.volume && a.notional == b.notional
    ensures var a', b' := Tally(a, trades), Tally(b, trades);
            a'.trades == b'.trades && a'.volume == b'.volume && a'.notional == b'.notional
    decreases trades
  {
    if trades != [] {
      TallySame(TallyOne(a, trades[0]), TallyOne(b, trades[0]), trades[1..]);
    }
  }

  lemma {:induction false} RowSame(g: Gate, a: Session, b: Session, e: Event)
    requires SameMarket(a, b)
    ensures if e.IsNew() && !g.Lets(e.ticket) then SameMarket(Row(g, a, e), b) else SameMarket(Row(g, a, e), Row(Open, b, e))
  {
    hide Apply, Verdict;
    if e.IsNew() && g.Lets(e.ticket) {
      var ca, cb := a.counts.(events := a.counts.events + 1), b.counts.(events := b.counts.events + 1);
      SubmitIsAnswered(a.venue, e.OrderCall());
      TallySame(ca.(newOrders := ca.newOrders + 1), cb.(newOrders := cb.newOrders + 1),
                Apply(a.venue, e.OrderCall()).1.trades);
    }
  }

  /** Replaying any tape through the risk gate gives the trades, books and id map of replaying,
      without a gate, the tape from which the rows failing a fixed test were removed: nothing that
      happens during the replay changes what the gate lets through. */
  lemma {:induction false} GateIsAFilter(g: Gate, a: Session, b: Session, tape: seq<Event>)
    requires SameMarket(a, b)
    ensures SameMarket(Play(g, a, tape), Play(Open, b, Passing(g, tape)))
    decreases tape
  {
    if tape != [] {
      RowSame(g, a, b, tape[0]);
      var rest := Passing(g, tape[1..]);
      if tape[0].IsNew() && !g.Lets(tape[0].ticket) {
        assert Passing(g, tape) == rest;
        GateIsAFilter(g, Row(g, a, tape[0]), b, tape[1..]);
      } else {
        assert Passing(g, tape)[0] == tape[0] && Passing(g, tape)[1..] == rest;
        GateIsAFilter(g, Row(g, a, tape[0]), Row(Open, b, tape[0]), tape[1..]);
      }
    }
  }

  // ---- The report ----

  lemma {:induction false} TallyAddsUp(c: Counts, trades: seq<Trade>)
    ensures var c' := Tally(c, trades);
            && c'.trades == c.trades + |trades|
            && c'.volume == (c.volume + Volume(trades)) % 0x1_0000_0000
            && c'.notional == c.notional + Notional(trades)
            && c'.events == c.events && c'.newOrders == c.newOrders && c'.cancels == c.cancels
            && c'.riskRejections == c.riskRejections
    decreases trades
  {
    if trades != [] {
      TallyAddsUp(TallyOne(c, trades[0]), trades[1..]);
      WrapTwice(c.volume + trades[0].quantity, Volume(trades[1..]));
    }
  }

  /** The report agrees with what the engine counted since `v0`. */
  ghost predicate Agrees(s: Session, v0: Venue) {
    var c, now, then0 := s.counts, s.venue.stats, v0.stats;
    && c.newOrders == c.riskRejections + (now.orders - then0.orders)
    && c.trades == now.trades - then0.trades
    && now.volume >= then0.volume && c.volume == (now.volume - then0.volume) % 0x1_0000_0000
    && c.notional == now.notional - then0.notional
  }

  lemma {:induction false} RowAgrees(g: Gate, s: Session, e: Event, v0: Venue)
    requires Agrees(s, v0)
    ensures Agrees(Row(g, s, e), v0) && Row(g, s, e).counts.events == s.counts.events + 1
  {
    hide Step;
    if e.IsNew() && g.Lets(e.ticket) {
      SubmitIsAnswered(s.venue, e.OrderCall());
      var trades := Apply(s.venue, e.OrderCall()).1.trades;
      var c := s.counts.(events := s.counts.events + 1, newOrders := s.counts.newOrders + 1);
      TallyAddsUp(c, trades);
      WrapTwice(s.venue.stats.volume - v0.stats.volume, Volume(trades));
    }
  }

  lemma {:induction false} PlayAgrees(g: Gate, s: Session, tape: seq<Event>, v0: Venue)
    requires Agrees(s, v0)
    ensures Agrees(Play(g, s, tape), v0) && Play(g, s, tape).counts.events == s.counts.events + |tape|
    decreases tape
  {
    if tape != [] {
      RowAgrees(g, s, tape[0], v0);
      PlayAgrees(g, Row(g, s, tape[0]), tape[1..], v0);
    }
  }

  /** On every tape: new rows are refused or submitted, trades and money are the engine's own change,
      and the reported volume is the engine's change modulo 2^32. */
  lemma {:induction false} ReportMatchesEngine(g: Gate, v: Venue, tape: seq<Event>)
    ensures var s := Play(g, Session(v, map[], ZERO), tape);
            && s.counts.events == |tape|
            && s.counts.newOrders == s.counts.riskRejections + (s.venue.stats.orders - v.stats.orders)
            && s.counts.trades == s.venue.stats.trades - v.stats.trades
            && s.venue.stats.volume >= v.stats.volume
            && s.counts.volume == (s.venue.stats.volume - v.stats.volume) % 0x1_0000_0000
            && s.counts.notional == s.venue.stats.notional - v.stats.notional
  {
    PlayAgrees(g, Session(v, map[], ZERO), tape, v);
  }

  // ---- What the rows of a tape amount to ----

  function NewRows(tape: seq<Event>): nat {
    if tape == [] then 0 else (if tape[0].action in {'N', 'n'} then 1 else 0) + NewRows(tape[1..])
  }

  function CancelRows(tape: seq<Event>): nat {
    if tape == [] then 0 else (if tape[0].action in {'C', 'c'} then 1 else 0) + CancelRows(tape[1..])
  }

  /** New rows that a risk checker turns away; without one, none is. */
  function RefusedRows(g: Gate, tape: seq<Event>): nat {
    if tape == [] then 0
    else (if tape[0].action in {'N', 'n'} && g.Guarded? && Verdict(g.risk, tape[0].ticket) != NoReason then 1 else 0)
         + RefusedRows(g, tape[1..])
  }

  lemma {:induction false} RowCounted(g: Gate, s: Session, e: Event)
    ensures var c, c' := s.counts, Row(g, s, e).counts;
            && c'.newOrders == c.newOrders + (if e.action in {'N', 'n'} then 1 else 0)
            && c'.cancels == c.cancels + (if e.action in {'C', 'c'} then 1 else 0)
            && c'.riskRejections == c.riskRejections + (if e.action in {'N', 'n'} && g.Guarded? && Verdict(g.risk, e.ticket) != NoReason then 1 else 0)
  {
    hide Apply, Verdict, Tally;
    if e.IsNew() && g.Lets(e.ticket) {
      SubmitIsAnswered(s.venue, e.OrderCall());
      TallyAddsUp(s.counts.(events := s.counts.events + 1, newOrders := s.counts.newOrders + 1), Apply(s.venue, e.OrderCall()).1.trades);
    }
  }

  lemma {:induction false} PlayCounted(g: Gate, s: Session, tape: seq<Event>)
    ensures var c, c' := s.counts, Play(g, s, tape).counts;
            && c'.newOrders == c.newOrders + NewRows(tape) && c'.cancels == c.cancels + CancelRows(tape)
            && c'.riskRejections == c.riskRejections + RefusedRows(g, tape)
    decreases tape
  {
    hide Row, Verdict;
    if tape != [] {
      RowCounted(g, s, tape[0]);
      PlayCounted(g, Row(g, s, tape[0]), tape[1..]);
    }
  }

  /** The report counts the new rows, the cancel rows and the rows turned away. */
  lemma {:induction false} ReportCountsRows(g: Gate, v: Venue, tape: seq<Event>)
    ensures var c := Play(g, Session(v, map[], ZERO), tape).counts;
            c.newOrders == NewRows(tape) && c.cancels == CancelRows(tape) && c.riskRejections == RefusedRows(g, tape)
  {
    PlayCounted(g, Session(v, map[], ZERO), tape);
  }

  /** The engine calls of a tape: each row that passes with its own fields, each cancel with the id its
      tape id was last answered with, or with the tape id itself. */
  function CallsOf(g: Gate, v: Venue, ids: map<OrderId, OrderId>, tape: seq<Event>): seq<Call>
    decreases tape
  {
    if tape == [] then []
    else
      var e, t := tape[0], tape[0].ticket;
      if e.action in {'N', 'n'} then
        if g.Guarded? && Verdict(g.risk, t) != NoReason then CallsOf(g, v, ids, tape[1..])
        else
          var c := Call(t.symbol, Submit(t.side, t.kind, t.price, t.quantity));
          SubmitIsAnswered(v, c);
          [c] + CallsOf(g, Apply(v, c).0, if e.orderId == 0 then ids else ids[e.orderId := Apply(v, c).1.id], tape[1..])
      else if e.action in {'C', 'c'} then
        var c := Call(t.symbol, Cancel(if e.orderId in ids then ids[e.orderId] else e.orderId));
        [c] + CallsOf(g, Apply(v, c).0, ids, tape[1..])
      else CallsOf(g, v, ids, tape[1..])
  }

  /** A replay is a run of the engine on these calls. */
  lemma {:induction false} ReplayIsEngineRun(g: Gate, s: Session, tape: seq<Event>)
    ensures Play(g, s, tape).venue == RunAll(s.venue, CallsOf(g, s.venue, s.idMap, tape))
    decreases tape
  {
    hide Apply, Verdict, Tally;
    if tape != [] {
      ReplayIsEngineRun(g, Row(g, s, tape[0]), tape[1..]);
      var calls := CallsOf(g, s.venue, s.idMap, tape);
      assert calls != [] ==> RunAll(s.venue, calls) == RunAll(Apply(s.venue, calls[0]).0, calls[1..]);
      if tape[0].IsNew() && g.Lets(tape[0].ticket) {
        SubmitIsAnswered(s.venue, tape[0].OrderCall());
      }
    }
  }
}
