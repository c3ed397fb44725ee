/** Which order a cancel row of a tape really cancels. */
module TapeCancels {
  import opened Types
  import opened FlatBook
  import opened Market
  import opened Lifecycle
  import opened Exchange
  import opened Risk
  import opened Replay

  type Owner = (Symbol, OrderId)

  /** A replay into any engine together with its history: the latest row that carried a tape id into the engine, and
      the row each engine order came from. */
  datatype Trace = Trace(session: Session, row: map<OrderId, nat>, origin: map<Owner, nat>)

  predicate Enters(g: Gate, e: Event) {
    e.IsNew() && g.Lets(e.ticket)
  }

  function Record(g: Gate, t: Trace, e: Event, i: nat): Trace {
    var next := Row(g, t.session, e);
    if !Enters(g, e) then t.(session := next)
    else
      var id := Apply(t.session.venue, e.OrderCall()).1.id;
      Trace(next, if e.orderId != 0 then t.row[e.orderId := i] else t.row,
            if id != 0 then t.origin[(e.ticket.symbol, id) := i] else t.origin)
  }

  function TraceTo(g: Gate, v0: Venue, tape: seq<Event>, n: nat): Trace
    requires n <= |tape|
  {
    if n == 0 then Trace(Session(v0, map[], ZERO), map[], map[])
    else Record(g, TraceTo(g, v0, tape, n - 1), tape[n - 1], n - 1)
  }

  lemma {:induction false} PlaySnoc(g: Gate, s: Session, tape: seq<Event>, e: Event)
    ensures Play(g, s, tape + [e]) == Row(g, Play(g, s, tape), e)
    decreases tape
  {
    hide Row;
    if tape == [] {
      assert tape + [e] == [e];
    } else {
      assert (tape + [e])[1..] == tape[1..] + [e];
      PlaySnoc(g, Row(g, s, tape[0]), tape[1..], e);
    }
  }

  /** The trace follows the replay. */
  lemma {:induction false} TraceIsReplay(g: Gate, v0: Venue, tape: seq<Event>, n: nat)
    requires n <= |tape|
    ensures TraceTo(g, v0, tape, n).session == Play(g, Session(v0, map[], ZERO), tape[..n])
    decreases n
  {
    hide Row, Apply, Enters, Play;
    if n == 0 {
      NothingPlayed(g, Session(v0, map[], ZERO));
      assert tape[..0] == [];
    } else {
      TraceIsReplay(g, v0, tape, n - 1);
      assert tape[..n] == tape[..n - 1] + [tape[n - 1]];
      PlaySnoc(g, Session(v0, map[], ZERO), tape[..n - 1], tape[n - 1]);
    }
  }

  lemma {:induction false} NothingPlayed(g: Gate, s: Session)
    ensures Play(g, s, []) == s
  {
  }

  // ---- What the history knows ----

  ghost predicate BooksOk(v: Venue) {
    forall s :: MarketOk(v.Book(s))
  }

  /** An engine order came from an earlier row of its own symbol. */
  ghost predicate OriginsOk(g: Gate, tape: seq<Event>, n: nat, t: Trace) {
    forall o :: o in t.origin ==>
      && t.origin[o] < n <= |tape| && Enters(g, tape[t.origin[o]])
      && tape[t.origin[o]].ticket.symbol == o.0
      && 0 < o.1 < t.session.venue.Book(o.0).nextId
  }

  /** Every resting order came from a row of the tape, or was there before the replay. */
  ghost predicate RestingKnown(v0: Venue, t: Trace) {
    forall s, id: OrderId :: t.session.venue.Book(s).Has(id) ==> (s, id) in t.origin || id < v0.Book(s).nextId
  }

  /** Row k carried tape id x, and its order, if the engine took it, is `id`. */
  ghost predicate Carried(g: Gate, tape: seq<Event>, n: nat, k: nat, x: OrderId, id: OrderId, origin: map<Owner, nat>) {
    && k < n <= |tape| && Enters(g, tape[k]) && tape[k].orderId == x != 0
    && (id != 0 ==> (tape[k].ticket.symbol, id) in origin && origin[(tape[k].ticket.symbol, id)] == k)
  }

  /** A mapped tape id leads to the order of the latest row that carried it. */
  ghost predicate RowsOk(g: Gate, tape: seq<Event>, n: nat, t: Trace) {
    && t.row.Keys == t.session.idMap.Keys
    && forall x :: x in t.row ==> Carried(g, tape, n, t.row[x], x, t.session.idMap[x], t.origin)
  }

  /** No entered row with a tape id is forgotten. */
  ghost predicate RowsComplete(g: Gate, tape: seq<Event>, n: nat, t: Trace) {
    forall k :: 0 <= k < n && k < |tape| && Enters(g, tape[k]) && tape[k].orderId != 0 ==>
      tape[k].orderId in t.row && k <= t.row[tape[k].orderId]
  }

  ghost predicate TraceOk(g: Gate, v0: Venue, tape: seq<Event>, n: nat, t: Trace) {
    && BooksOk(t.session.venue) && OriginsOk(g, tape, n, t) && RestingKnown(v0, t)
    && RowsOk(g, tape, n, t) && RowsComplete(g, tape, n, t)
  }

  // ---- One call ----

  lemma {:induction false} CallKeepsBooks(v: Venue, c: Call)
    requires BooksOk(v)
    ensures BooksOk(Apply(v, c).0)
  {
    forall s ensures MarketOk(Apply(v, c).0.Book(s)) {
      CallOnSymbol(v, c, s);
      assert MarketOk(v.Book(s));
      StepKeepsMarket(v.Book(s), c.op);
    }
  }

  /** Ids on a symbol's book after a call were there before, or are the one just issued. */
  lemma {:induction false} CallIds(v: Venue, c: Call, s: Symbol, id: OrderId)
    requires BooksOk(v) && Apply(v, c).0.Book(s).Has(id)
    ensures v.Book(s).Has(id) || (s == c.symbol && Accepts(c.op) && id == v.Book(s).nextId && Apply(v, c).1.Submitted? && Apply(v, c).1.id == id)
  {
    CallOnSymbol(v, c, s);
    assert MarketOk(v.Book(s));
    if s == c.symbol {
      OnlyIssuedIdsAppear(v.Book(s), c.op, id);
      NextIdSteps(v.Book(s), c.op);
    }
  }

  lemma {:induction false} CallNextId(v: Venue, c: Call, s: Symbol)
    requires BooksOk(v)
    ensures Apply(v, c).0.Book(s).nextId >= v.Book(s).nextId
    ensures s == c.symbol && c.op.Submit? && Apply(v, c).1.id != 0 ==>
              0 < Apply(v, c).1.id == v.Book(s).nextId < Apply(v, c).0.Book(s).nextId
  {
    CallOnSymbol(v, c, s);
    assert MarketOk(v.Book(s));
    if s == c.symbol {
      NextIdSteps(v.Book(s), c.op);
    }
  }

  // ---- One row ----

  /** What a row does to the venue and the id map. */
  lemma {:induction false} RowEffects(g: Gate, s: Session, e: Event)
    ensures var s' := Row(g, s, e);
            if Enters(g, e) then
              var (v, reply) := Apply(s.venue, e.OrderCall());
              && s'.venue == v && reply.Submitted?
              && s'.idMap == if e.orderId != 0 then s.idMap[e.orderId := reply.id] else s.idMap
            else
              && s'.idMap == s.idMap
              && s'.venue == if !e.IsNew() && e.IsCancel()
                             then Apply(s.venue, Call(e.ticket.symbol, Cancel(Target(s.idMap, e.orderId)))).0 else s.venue
  {
  }

  lemma {:induction false} EnterKeepsOrigins(g: Gate, tape: seq<Event>, n: nat, t: Trace)
    requires n < |tape| && BooksOk(t.session.venue) && OriginsOk(g, tape, n, t) && Enters(g, tape[n])
    ensures OriginsOk(g, tape, n + 1, Record(g, t, tape[n], n))
    ensures var c := tape[n].OrderCall();
            var reply := Apply(t.session.venue, c).1;
            reply.Submitted? && (reply.id != 0 ==> (c.symbol, reply.id) !in t.origin)
  {
    hide Apply, MarketOk;
    var e, v := tape[n], t.session.venue;
    var c := e.OrderCall();
    SubmitIsAnswered(v, c);
    CallNextId(v, c, c.symbol);
    var t' := Record(g, t, e, n);
    forall o | o in t'.origin ensures
        t'.origin[o] < n + 1 && Enters(g, tape[t'.origin[o]]) && tape[t'.origin[o]].ticket.symbol == o.0
        && 0 < o.1 < t'.session.venue.Book(o.0).nextId
    {
      CallNextId(v, c, o.0);
    }
  }

  lemma {:induction false} CallKeepsKnown(g: Gate, v0: Venue, t: Trace, e: Event, n: nat, c: Call)
    requires BooksOk(t.session.venue) && RestingKnown(v0, t)
    requires Record(g, t, e, n).session.venue == Apply(t.session.venue, c).0
    requires Enters(g, e) ==> c == e.OrderCall()
    requires !Enters(g, e) ==> c.op.Cancel?
    ensures RestingKnown(v0, Record(g, t, e, n))
  {
    hide Apply, MarketOk, Step;
    var v, t' := t.session.venue, Record(g, t, e, n);
    forall s, x: OrderId | t'.session.venue.Book(s).Has(x) ensures (s, x) in t'.origin || x < v0.Book(s).nextId {
      CallIds(v, c, s, x);
      assert v.Book(s).Has(x) ==> (s, x) in t.origin || x < v0.Book(s).nextId;
      assert MarketOk(v.Book(s));
      PositiveNext(v.Book(s));
    }
  }

  lemma {:induction false} PositiveNext(b: Book)
    requires MarketOk(b)
    ensures b.nextId > 0
  {
  }

  lemma {:induction false} EnterKeepsRows(g: Gate, tape: seq<Event>, n: nat, t: Trace)
    requires n < |tape| && OriginsOk(g, tape, n, t) && RowsOk(g, tape, n, t) && RowsComplete(g, tape, n, t) && Enters(g, tape[n])
    requires var c := tape[n].OrderCall();
             var reply := Apply(t.session.venue, c).1;
             reply.Submitted? && (reply.id != 0 ==> (c.symbol, reply.id) !in t.origin)
    ensures RowsOk(g, tape, n + 1, Record(g, t, tape[n], n)) && RowsComplete(g, tape, n + 1, Record(g, t, tape[n], n))
  {
    hide Apply, Row, Enters, OriginsOk, Carried;
    var e, t' := tape[n], Record(g, t, tape[n], n);
    RowEffects(g, t.session, e);
    var id := Apply(t.session.venue, e.OrderCall()).1.id;
    forall x | x in t'.row ensures Carried(g, tape, n + 1, t'.row[x], x, t'.session.idMap[x], t'.origin) {
      if x == e.orderId && e.orderId != 0 {
        CarriedNow(g, tape, n, id, t'.origin);
      } else {
        CarriedStill(g, tape, n, t.row[x], x, t.session.idMap[x], t.origin, t'.origin);
      }
    }
    RowsBefore(g, tape, n, t);
    CompleteStill(g, tape, n, t, t');
  }

  lemma {:induction false} CarriedNow(g: Gate, tape: seq<Event>, n: nat, id: OrderId, origin: map<Owner, nat>)
    requires n < |tape| && Enters(g, tape[n]) && tape[n].orderId != 0
    requires id != 0 ==> (tape[n].ticket.symbol, id) in origin && origin[(tape[n].ticket.symbol, id)] == n
    ensures Carried(g, tape, n + 1, n, tape[n].orderId, id, origin)
  {
  }

  lemma {:induction false} CarriedStill(g: Gate, tape: seq<Event>, n: nat, k: nat, x: OrderId, id: OrderId, origin: map<Owner, nat>, origin': map<Owner, nat>)
    requires n < |tape| && Carried(g, tape, n, k, x, id, origin)
    requires forall o :: o in origin ==> o in origin' && origin'[o] == origin[o]
    ensures Carried(g, tape, n + 1, k, x, id, origin')
  {
  }

  lemma {:induction false} CompleteStill(g: Gate, tape: seq<Event>, n: nat, t: Trace, t': Trace)
    requires n < |tape| && RowsComplete(g, tape, n, t) && (forall x :: x in t.row ==> x in t'.row && t.row[x] <= n)
    requires forall x :: x in t.row ==> t'.row[x] == t.row[x] || t'.row[x] == n
    requires Enters(g, tape[n]) && tape[n].orderId != 0 ==> tape[n].orderId in t'.row && t'.row[tape[n].orderId] == n
    ensures RowsComplete(g, tape, n + 1, t')
  {
  }

  lemma {:induction false} RowsBefore(g: Gate, tape: seq<Event>, n: nat, t: Trace)
    requires n < |tape| && RowsOk(g, tape, n, t)
    ensures forall x :: x in t.row ==> t.row[x] <= n
  {
  }

  lemma {:induction false} OtherKeepsRows(g: Gate, tape: seq<Event>, n: nat, t: Trace, next: Session)
    requires n < |tape| && RowsOk(g, tape, n, t) && RowsComplete(g, tape, n, t) && !Enters(g, tape[n])
    requires next.idMap == t.session.idMap
    ensures RowsOk(g, tape, n + 1, t.(session := next)) && RowsComplete(g, tape, n + 1, t.(session := next))
  {
    hide Enters, Carried;
    RowsBefore(g, tape, n, t);
    forall x | x in t.row ensures Carried(g, tape, n + 1, t.row[x], x, next.idMap[x], t.origin) {
      CarriedStill(g, tape, n, t.row[x], x, t.session.idMap[x], t.origin, t.origin);
    }
    CompleteStill(g, tape, n, t, t.(session := next));
  }

  lemma {:induction false} EnterKeepsTrace(g: Gate, v0: Venue, tape: seq<Event>, n: nat, t: Trace)
    requires n < |tape| && TraceOk(g, v0, tape, n, t) && Enters(g, tape[n])
    ensures TraceOk(g, v0, tape, n + 1, Record(g, t, tape[n], n))
  {
    hide Apply, BooksOk, OriginsOk, RestingKnown, RowsOk, RowsComplete;
    var c := tape[n].OrderCall();
    CallKeepsBooks(t.session.venue, c);
    EnterKeepsOrigins(g, tape, n, t);
    CallKeepsKnown(g, v0, t, tape[n], n, c);
    EnterKeepsRows(g, tape, n, t);
  }

  lemma {:induction false} CancelKeepsOrigins(g: Gate, tape: seq<Event>, n: nat, t: Trace, next: Session, c: Call)
    requires n < |tape| && BooksOk(t.session.venue) && OriginsOk(g, tape, n, t)
    requires next.venue == Apply(t.session.venue, c).0
    ensures OriginsOk(g, tape, n + 1, t.(session := next))
  {
    hide Apply, MarketOk;
    forall o | o in t.origin ensures 0 < o.1 < next.venue.Book(o.0).nextId {
      CallNextId(t.session.venue, c, o.0);
    }
  }

  lemma {:induction false} OtherKeepsTrace(g: Gate, v0: Venue, tape: seq<Event>, n: nat, t: Trace)
    requires n < |tape| && TraceOk(g, v0, tape, n, t) && !Enters(g, tape[n])
    ensures TraceOk(g, v0, tape, n + 1, Record(g, t, tape[n], n))
  {
    hide Apply, Row, BooksOk, OriginsOk, RestingKnown, RowsOk, RowsComplete;
    var e, v := tape[n], t.session.venue;
    var next := Row(g, t.session, e);
    RowEffects(g, t.session, e);
    OtherKeepsRows(g, tape, n, t, next);
    if e.IsCancel() && !e.IsNew() {
      var c := Call(e.ticket.symbol, Cancel(Target(t.session.idMap, e.orderId)));
      CallKeepsBooks(v, c);
      CancelKeepsOrigins(g, tape, n, t, next, c);
      CallKeepsKnown(g, v0, t, e, n, c);
    } else {
      SameVenue(g, v0, tape, n, t, next);
    }
  }

  lemma {:induction false} SameVenue(g: Gate, v0: Venue, tape: seq<Event>, n: nat, t: Trace, next: Session)
    requires n < |tape| && OriginsOk(g, tape, n, t) && RestingKnown(v0, t) && next.venue == t.session.venue
    ensures OriginsOk(g, tape, n + 1, t.(session := next)) && RestingKnown(v0, t.(session := next))
  {
  }

  lemma {:induction false} TraceHolds(g: Gate, v0: Venue, tape: seq<Event>, n: nat)
    requires BooksOk(v0) && n <= |tape|
    ensures TraceOk(g, v0, tape, n, TraceTo(g, v0, tape, n))
    decreases n
  {
    hide TraceOk, Record, Enters, BooksOk;
    if n == 0 {
      FreshTrace(g, v0, tape);
    } else {
      TraceHolds(g, v0, tape, n - 1);
      if Enters(g, tape[n - 1]) {
        EnterKeepsTrace(g, v0, tape, n - 1, TraceTo(g, v0, tape, n - 1));
      } else {
        OtherKeepsTrace(g, v0, tape, n - 1, TraceTo(g, v0, tape, n - 1));
      }
    }
  }

  lemma {:induction false} FreshTrace(g: Gate, v0: Venue, tape: seq<Event>)
    requires BooksOk(v0)
    ensures TraceOk(g, v0, tape, 0, Trace(Session(v0, map[], ZERO), map[], map[]))
  {
    hide MarketOk;
    forall s, id: OrderId | v0.Book(s).Has(id) ensures id < v0.Book(s).nextId {
      assert MarketOk(v0.Book(s));
      IdsBelowNext(v0.Book(s), id);
    }
  }

  lemma {:induction false} IdsBelowNext(b: Book, id: OrderId)
    requires MarketOk(b) && b.Has(id)
    ensures 0 < id < b.nextId
  {
    var s, side := if HasId(b.bids, id) then b.bids else b.asks, if HasId(b.bids, id) then Buy else Sell;
    var k :| 0 <= k < |s| && s[k].id == id;
    assert Live(s[k], side, b.nextId);
  }

  // ---- What a cancel row does ----

  /** The order a cancel row would remove, if it rests. */
  ghost predicate Hits(t: Trace, e: Event) {
    t.session.venue.Book(e.ticket.symbol).Has(Target(t.session.idMap, e.orderId))
  }

  /** The order the cancel row addresses came from row k of the tape. */
  ghost predicate HitsRow(t: Trace, e: Event, k: nat) {
    var o := (e.ticket.symbol, Target(t.session.idMap, e.orderId));
    Hits(t, e) && o in t.origin && t.origin[o] == k
  }

  /** A cancel naming the tape id of an entered row of the same symbol removes exactly the order of
      the latest such row if it still rests, and otherwise leaves every book as it is. */
  lemma {:induction false} CancelHitsItsRow(g: Gate, v0: Venue, tape: seq<Event>, j: nat, k: nat)
    requires BooksOk(v0) && k < j < |tape| && tape[j].IsCancel() && Enters(g, tape[k])
    requires tape[k].orderId == tape[j].orderId != 0 && tape[k].ticket.symbol == tape[j].ticket.symbol
    requires forall i :: k < i < j && Enters(g, tape[i]) ==> tape[i].orderId != tape[k].orderId
    ensures var t, t' := TraceTo(g, v0, tape, j), TraceTo(g, v0, tape, j + 1);
            var s, id := tape[j].ticket.symbol, Target(t.session.idMap, tape[j].orderId);
            && (Hits(t, tape[j]) ==> HitsRow(t, tape[j], k))
            && t'.session.venue.Book(s) == CancelIn(t.session.venue.Book(s), id).book
            && !t'.session.venue.Book(s).Has(id)
            && (!Hits(t, tape[j]) ==> t'.session.venue.Book(s) == t.session.venue.Book(s))
            && forall x :: x != s ==> t'.session.venue.Book(x) == t.session.venue.Book(x)
  {
    hide Apply, TraceOk, MarketOk, Remove, BooksOk, Row, TraceTo;
    TraceHolds(g, v0, tape, j);
    var t, e := TraceTo(g, v0, tape, j), tape[j];
    LatestRow(g, v0, tape, j, k, t);
    CancelRowRuns(g, v0, tape, j);
    var v, c := t.session.venue, Call(e.ticket.symbol, Cancel(Target(t.session.idMap, e.orderId)));
    CancelOnBook(v, c, e.ticket.symbol);
    forall x | x != c.symbol ensures Apply(v, c).0.Book(x) == v.Book(x) {
      CallOnSymbol(v, c, x);
    }
  }

  lemma {:induction false} CancelRowRuns(g: Gate, v0: Venue, tape: seq<Event>, j: nat)
    requires j < |tape| && tape[j].IsCancel()
    ensures var t, e := TraceTo(g, v0, tape, j), tape[j];
            TraceTo(g, v0, tape, j + 1).session.venue ==
            Apply(t.session.venue, Call(e.ticket.symbol, Cancel(Target(t.session.idMap, e.orderId)))).0
  {
    hide Apply, Row;
    RowEffects(g, TraceTo(g, v0, tape, j).session, tape[j]);
  }

  lemma {:induction false} LatestRow(g: Gate, v0: Venue, tape: seq<Event>, j: nat, k: nat, t: Trace)
    requires k < j < |tape| && TraceOk(g, v0, tape, j, t) && Enters(g, tape[k])
    requires tape[k].orderId == tape[j].orderId != 0 && tape[k].ticket.symbol == tape[j].ticket.symbol
    requires forall i :: k < i < j && Enters(g, tape[i]) ==> tape[i].orderId != tape[k].orderId
    ensures BooksOk(t.session.venue) && (Hits(t, tape[j]) ==> HitsRow(t, tape[j], k))
  {
    hide MarketOk;
    var e := tape[j];
    assert e.orderId in t.row && t.row[e.orderId] == k;
    if Hits(t, e) {
      assert MarketOk(t.session.venue.Book(e.ticket.symbol));
      IdsBelowNext(t.session.venue.Book(e.ticket.symbol), Target(t.session.idMap, e.orderId));
      assert Carried(g, tape, j, k, e.orderId, t.session.idMap[e.orderId], t.origin);
    }
  }

  lemma {:induction false} CancelOnBook(v: Venue, c: Call, s: Symbol)
    requires BooksOk(v) && c.op.Cancel? && c.symbol == s
    ensures var b, b' := v.Book(s), Apply(v, c).0.Book(s);
            b' == CancelIn(b, c.op.id).book && !b'.Has(c.op.id) && (!b.Has(c.op.id) ==> b' == b)
  {
    var b := v.Book(s);
    assert MarketOk(b);
    CallOnSymbol(v, c, s);
    RemoveShape(b.bids, c.op.id);
    RemoveShape(b.asks, c.op.id);
  }

  /** Tape ids are non-zero and used once among the new-order rows. */
  ghost predicate DistinctTapeIds(tape: seq<Event>) {
    && (forall k :: 0 <= k < |tape| && tape[k].IsNew() ==> tape[k].orderId != 0)
    && forall i, k :: 0 <= i < k < |tape| && tape[i].IsNew() && tape[k].IsNew() ==> tape[i].orderId != tape[k].orderId
  }

  /** An earlier row with the cancel's tape id and symbol got past the gate. */
  ghost predicate Entered(g: Gate, tape: seq<Event>, j: nat, k: nat)
    requires j < |tape|
  {
    k < j && Enters(g, tape[k]) && tape[k].orderId == tape[j].orderId && tape[k].ticket.symbol == tape[j].ticket.symbol
  }

  /** The cancel row takes out nothing but the order of a row with its tape id. */
  ghost predicate Safe(g: Gate, v0: Venue, tape: seq<Event>, j: nat)
    requires j < |tape|
  {
    var t := TraceTo(g, v0, tape, j);
    Hits(t, tape[j]) ==> exists k :: 0 <= k < j && HitsRow(t, tape[j], k) && tape[k].orderId == tape[j].orderId
  }

  /** Exactly when a cancel row is safe, in an engine that may already hold other orders: if and only
      if its target does not rest, or a row with its tape id and symbol got past the gate before. */
  lemma {:induction false} CancelIsSafeIff(g: Gate, v0: Venue, tape: seq<Event>, j: nat)
    requires BooksOk(v0) && j < |tape| && tape[j].IsCancel() && DistinctTapeIds(tape)
    ensures Safe(g, v0, tape, j) <==>
            (!Hits(TraceTo(g, v0, tape, j), tape[j]) || exists k :: 0 <= k < j && Entered(g, tape, j, k))
  {
    hide BooksOk, TraceTo, TraceOk, Hits, Enters;
    TraceHolds(g, v0, tape, j);
    var t, e := TraceTo(g, v0, tape, j), tape[j];
    if Hits(t, e) {
      if k :| 0 <= k < j && Entered(g, tape, j, k) {
        DistinctAfter(g, tape, j, k);
        LatestRow(g, v0, tape, j, k, t);
        assert HitsRow(t, e, k);
      }
      if k :| 0 <= k < j && HitsRow(t, e, k) && tape[k].orderId == e.orderId {
        OriginEntered(g, v0, tape, j, t, k);
        assert Entered(g, tape, j, k);
      }
    }
  }

  lemma {:induction false} DistinctAfter(g: Gate, tape: seq<Event>, j: nat, k: nat)
    requires j < |tape| && DistinctTapeIds(tape) && Entered(g, tape, j, k)
    ensures tape[k].orderId != 0
    ensures forall i :: k < i < j && Enters(g, tape[i]) ==> tape[i].orderId != tape[k].orderId
  {
  }

  lemma {:induction false} OriginEntered(g: Gate, v0: Venue, tape: seq<Event>, j: nat, t: Trace, k: nat)
    requires j < |tape| && TraceOk(g, v0, tape, j, t) && HitsRow(t, tape[j], k)
    ensures k < j && Enters(g, tape[k]) && tape[k].ticket.symbol == tape[j].ticket.symbol
  {
    hide BooksOk, RestingKnown, RowsOk, RowsComplete, Hits, Enters;
  }

  // ---- An unsafe cancel ----

  const DEMO_LIMITS := RiskLimits(1000, 1000, 1000, 1000)

  function DemoRow(quantity: Quantity, action: char, orderId: OrderId): Event {
    Event(Ticket(Symbol("AAPL"), Buy, Limit, 1, quantity), action, orderId)
  }

  function DemoTape(): seq<Event> {
    [DemoRow(5, 'N', 7), DemoRow(0, 'N', 1), DemoRow(0, 'C', 1)]
  }

  function DemoGate(): Gate {
    Guarded(RiskState(DEMO_LIMITS, false, map[], 0))
  }

  lemma {:induction false} DemoVerdicts()
    ensures Enters(DemoGate(), DemoTape()[0]) && !Enters(DemoGate(), DemoTape()[1])
  {
    RulesInOrder(DemoGate().risk, DemoTape()[0].ticket);
    RulesInOrder(DemoGate().risk, DemoTape()[1].ticket);
  }

  lemma {:induction false} DemoSubmit(o: Order)
    requires o == Order(1, Buy, Limit, 1, 5, 5, Accepted)
    ensures Step(EMPTY, Submit(Buy, Limit, 1, 5)) == Outcome(Book([o], [], 2), Submitted(1, []))
  {
    assert Insert([], o) == [o];
  }

  lemma {:induction false} DemoFirstRow() returns (t: Trace)
    ensures t == TraceTo(DemoGate(), NEW_VENUE, DemoTape(), 1)
    ensures t.session.venue.Book(Symbol("AAPL")) == Book([Order(1, Buy, Limit, 1, 5, 5, Accepted)], [], 2)
    ensures t.session.idMap == map[7 := 1] && t.origin == map[(Symbol("AAPL"), 1) := 0]
  {
    hide Row, Gate.Lets, Step;
    DemoVerdicts();
    t := TraceTo(DemoGate(), NEW_VENUE, DemoTape(), 1);
    var e, t0 := DemoTape()[0], TraceTo(DemoGate(), NEW_VENUE, DemoTape(), 0);
    assert t == Record(DemoGate(), t0, e, 0);
    RowEffects(DemoGate(), t0.session, e);
    DemoSubmit(Order(1, Buy, Limit, 1, 5, 5, Accepted));
    CallOnSymbol(NEW_VENUE, e.OrderCall(), Symbol("AAPL"));
  }

  lemma {:induction false} DemoSecondRow() returns (t: Trace)
    ensures t == TraceTo(DemoGate(), NEW_VENUE, DemoTape(), 2)
    ensures t.session.venue.Book(Symbol("AAPL")) == Book([Order(1, Buy, Limit, 1, 5, 5, Accepted)], [], 2)
    ensures t.session.idMap == map[7 := 1] && t.origin == map[(Symbol("AAPL"), 1) := 0]
  {
    hide Row, Gate.Lets, Apply;
    DemoVerdicts();
    t := TraceTo(DemoGate(), NEW_VENUE, DemoTape(), 2);
    var e := DemoTape()[1];
    var t1 := DemoFirstRow();
    assert t == Record(DemoGate(), t1, e, 1);
    RowEffects(DemoGate(), t1.session, e);
  }

  lemma {:induction false} DemoCancel(o: Order)
    requires o.id == 1
    ensures Step(Book([o], [], 2), Cancel(1)) == Outcome(Book([], [], 2), Done(true))
  {
    var b := Book([o], [], 2);
    assert b.bids[0].id == 1;
    assert Remove([o], 1) == [o][1..] == [];
  }

  /** Row 1 is refused by the risk check, so its tape id 1 is never mapped; the cancel of row 2 then
      addresses engine order 1, which belongs to row 0 and tape id 7, and takes it off the book. */
  lemma {:induction false} RefusedIdCancelsAnother()
    ensures var g, tape := DemoGate(), DemoTape();
            && DistinctTapeIds(tape) && !Enters(g, tape[1]) && tape[1].orderId == tape[2].orderId != tape[0].orderId
            && HitsRow(TraceTo(g, NEW_VENUE, tape, 2), tape[2], 0)
            && TraceTo(g, NEW_VENUE, tape, 2).session.venue.Book(Symbol("AAPL")) == Book([Order(1, Buy, Limit, 1, 5, 5, Accepted)], [], 2)
            && TraceTo(g, NEW_VENUE, tape, 3).session.venue.Book(Symbol("AAPL")) == Book([], [], 2)
  {
    hide Row, Gate.Lets, Apply, TraceTo, Step;
    DemoVerdicts();
    var t := DemoSecondRow();
    var o, c := Order(1, Buy, Limit, 1, 5, 5, Accepted), Call(Symbol("AAPL"), Cancel(1));
    assert t.session.venue.Book(Symbol("AAPL")).bids[0].id == 1;
    CancelRowRuns(DemoGate(), NEW_VENUE, DemoTape(), 2);
    CallOnSymbol(t.session.venue, c, Symbol("AAPL"));
    DemoCancel(o);
  }
}
