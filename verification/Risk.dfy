/** The pre-trade risk checker. */
module Risk {
  import opened Types

  datatype RejectReason =
    | NoReason
    | KillSwitchActive
    | InvalidQuantity
    | InvalidPrice
    | MaxOrderQuantityExceeded
    | MaxOrderNotionalExceeded
    | MaxPositionExceeded
    | MaxNotionalExposureExceeded

  datatype RiskLimits = RiskLimits(maxOrderQuantity: Quantity, maxOrderNotional: int, maxPositionAbs: int, maxNotionalExposure: int)

  /** What a decision depends on. */
  datatype RiskState = RiskState(limits: RiskLimits, killed: bool, positions: map<Symbol, int>, exposure: int) {
    function Position(symbol: Symbol): int {
      if symbol in positions then positions[symbol] else 0
    }
  }

  datatype Ticket = Ticket(symbol: Symbol, side: Side, kind: OrderType, price: Price, quantity: Quantity) {
    function Notional(): int {
      price * quantity
    }
  }

  function Signed(side: Side, q: Quantity): int {
    if side.Buy? then q as int else -(q as int)
  }

  function Abs(n: int): nat {
    if n < 0 then -n else n
  }

  /** The rule behind each reason, independent of the order in which rules are tried. */
  predicate Breaks(l: RiskState, t: Ticket, r: RejectReason) {
    match r
    case NoReason => false
    case KillSwitchActive => l.killed
    case InvalidQuantity => t.quantity == 0
    case MaxOrderQuantityExceeded => t.quantity > l.limits.maxOrderQuantity
    case InvalidPrice => t.kind.Limit? && t.price <= 0
    case MaxOrderNotionalExceeded => !t.kind.Market? && t.Notional() > l.limits.maxOrderNotional
    case MaxPositionExceeded => Abs(l.Position(t.symbol) + Signed(t.side, t.quantity)) > l.limits.maxPositionAbs
    case MaxNotionalExposureExceeded => !t.kind.Market? && l.exposure + t.Notional() > l.limits.maxNotionalExposure
  }

  /** The order in which the rules are tried. */
  const RULES := [KillSwitchActive, InvalidQuantity, MaxOrderQuantityExceeded, InvalidPrice,
                  MaxOrderNotionalExceeded, MaxPositionExceeded, MaxNotionalExposureExceeded]

  /** The first broken rule, if any. */
  ghost predicate IsVerdict(l: RiskState, t: Ticket, r: RejectReason) {
    if r.NoReason? then forall k :: 0 <= k < |RULES| ==> !Breaks(l, t, RULES[k])
    else exists k :: 0 <= k < |RULES| && RULES[k] == r && Breaks(l, t, r) && forall j :: 0 <= j < k ==> !Breaks(l, t, RULES[j])
  }

  function Verdict(l: RiskState, t: Ticket): (r: RejectReason)
    ensures IsVerdict(l, t, r)
  {
    FirstBroken(l, t, 0)
  }

  function FirstBroken(l: RiskState, t: Ticket, from: nat): (r: RejectReason)
    requires from <= |RULES| && forall j :: 0 <= j < from ==> !Breaks(l, t, RULES[j])
    ensures IsVerdict(l, t, r)
    decreases |RULES| - from
  {
    if from == |RULES| then NoReason
    else if Breaks(l, t, RULES[from]) then RULES[from]
    else FirstBroken(l, t, from + 1)
  }

  function BookFill(l: RiskState, symbol: Symbol, side: Side, price: Price, quantity: Quantity): RiskState {
    l.(positions := l.positions[symbol := l.Position(symbol) + Signed(side, quantity)],
       exposure := l.exposure + price * quantity)
  }

  // ---- The checker object ----

  /** The counter of a reason. */
  function IndexOf(r: RejectReason): (k: nat)
    ensures k < 8
  {
    match r
    case NoReason => 0
    case KillSwitchActive => 1
    case InvalidQuantity => 2
    case InvalidPrice => 3
    case MaxOrderQuantityExceeded => 4
    case MaxOrderNotionalExceeded => 5
    case MaxPositionExceeded => 6
    case MaxNotionalExposureExceeded => 7
  }

  datatype RiskStats = RiskStats(checks: nat, passes: nat, rejections: nat, byReason: seq<nat>) {
    function RecordPass(): RiskStats {
      this.(checks := checks + 1, passes := passes + 1)
    }

    function RecordReject(r: RejectReason): RiskStats
      requires |byReason| == 8
    {
      this.(checks := checks + 1, rejections := rejections + 1, byReason := byReason[IndexOf(r) := byReason[IndexOf(r)] + 1])
    }
  }

  function Sum(counts: seq<nat>): nat {
    if counts == [] then 0 else counts[0] + Sum(counts[1..])
  }

  /** Every check passed or was rejected for exactly one reason. */
  ghost predicate Balanced(s: RiskStats) {
    && |s.byReason| == 8 && s.byReason[0] == 0
    && s.checks == s.passes + s.rejections && s.rejections == Sum(s.byReason)
  }

  lemma {:induction false} SumBump(counts: seq<nat>, k: nat)
    requires k < |counts|
    ensures Sum(counts[k := counts[k] + 1]) == Sum(counts) + 1
    decreases |counts|
  {
    if k > 0 {
      assert counts[k := counts[k] + 1][1..] == counts[1..][k - 1 := counts[k] + 1];
      SumBump(counts[1..], k - 1);
    } else {
      assert counts[0 := counts[0] + 1][1..] == counts[1..];
    }
  }

  /** The counters after a sequence of answers. */
  function Recorded(s: RiskStats, answers: seq<RejectReason>): RiskStats
    requires |s.byReason| == 8
    decreases answers
  {
    if answers == [] then s
    else Recorded(if answers[0].NoReason? then s.RecordPass() else s.RecordReject(answers[0]), answers[1..])
  }

  function Count(answers: seq<RejectReason>, r: RejectReason): nat {
    if answers == [] then 0 else (if answers[0] == r then 1 else 0) + Count(answers[1..], r)
  }

  /** The reasons as they are numbered. */
  const REASONS := [NoReason, KillSwitchActive, InvalidQuantity, InvalidPrice, MaxOrderQuantityExceeded,
                    MaxOrderNotionalExceeded, MaxPositionExceeded, MaxNotionalExposureExceeded]

  /** After any sequence of answers the counters are the numbers of answers of each kind. */
  lemma {:induction false} CountersTally(s: RiskStats, answers: seq<RejectReason>, k: nat)
    requires |s.byReason| == 8 && 0 < k < 8
    ensures var s' := Recorded(s, answers);
            && |s'.byReason| == 8
            && s'.checks == s.checks + |answers|
            && s'.passes == s.passes + Count(answers, NoReason)
            && s'.rejections == s.rejections + |answers| - Count(answers, NoReason)
            && s'.byReason[k] == s.byReason[k] + Count(answers, REASONS[k])
    decreases answers
  {
    if answers != [] {
      ReasonNumbers(answers[0]);
      assert REASONS[IndexOf(answers[0])] == answers[0];
      CountersTally(if answers[0].NoReason? then s.RecordPass() else s.RecordReject(answers[0]), answers[1..], k);
      ReasonNumbers(REASONS[k]);
    }
  }

  lemma {:induction false} ReasonNumbers(r: RejectReason)
    ensures REASONS[IndexOf(r)] == r
    ensures forall k :: 0 <= k < 8 && REASONS[k] == r ==> k == IndexOf(r)
  {
    assert |REASONS| == 8 && REASONS[0] == NoReason && REASONS[1] == KillSwitchActive && REASONS[2] == InvalidQuantity
        && REASONS[3] == InvalidPrice && REASONS[4] == MaxOrderQuantityExceeded && REASONS[5] == MaxOrderNotionalExceeded
        && REASONS[6] == MaxPositionExceeded && REASONS[7] == MaxNotionalExposureExceeded;
  }

  class RiskChecker {
    var limits: RiskLimits
    var killSwitch: bool
    var positions: map<Symbol, int>
    var exposure: int
    var stats: RiskStats

    ghost function Now(): RiskState
      reads this
    {
      RiskState(limits, killSwitch, positions, exposure)
    }

    ghost predicate Valid()
      reads this
    {
      Balanced(stats)
    }

    constructor (limits: RiskLimits)
      ensures Valid() && Now() == RiskState(limits, false, map[], 0)
    {
      this.limits, killSwitch, positions, exposure := limits, false, map[], 0;
      stats := RiskStats(0, 0, 0, [0, 0, 0, 0, 0, 0, 0, 0]);
      assert Sum([0, 0, 0, 0, 0, 0, 0, 0]) == 0 by {
        assert [0, 0, 0, 0, 0, 0, 0, 0] == seq(8, _ => 0);
        SumZeros(8);
      }
    }

    function Position(symbol: Symbol): int
      reads this
    {
      if symbol in positions then positions[symbol] else 0
    }

    method Reject(r: RejectReason)
      requires Valid() && r != NoReason
      modifies this`stats
      ensures Valid() && stats == old(stats).RecordReject(r)
    {
      SumBump(stats.byReason, IndexOf(r));
      stats := stats.RecordReject(r);
    }

    /** Answers with the first broken rule. Only the counters change. An order passes if and only if the
        switch is off and size, price, money, projected position and exposure are all within limits. */
    method Check(symbol: Symbol, side: Side, kind: OrderType, price: Price, quantity: Quantity) returns (r: RejectReason)
      requires Valid()
      modifies this`stats
      ensures Valid() && r == Verdict(Now(), Ticket(symbol, side, kind, price, quantity))
      ensures var projected := (if symbol in positions then positions[symbol] else 0) + (if side.Buy? then quantity as int else -(quantity as int));
              r == NoReason <==>
                && !killSwitch && 0 < quantity <= limits.maxOrderQuantity && (kind.Limit? ==> price > 0)
                && (!kind.Market? ==> price * quantity <= limits.maxOrderNotional && exposure + price * quantity <= limits.maxNotionalExposure)
                && -limits.maxPositionAbs <= projected <= limits.maxPositionAbs
      ensures r == KillSwitchActive <==> killSwitch
      ensures r == InvalidQuantity <==> !killSwitch && quantity == 0
      ensures r == MaxOrderQuantityExceeded <==> !killSwitch && quantity != 0 && quantity > limits.maxOrderQuantity
      ensures r == InvalidPrice <==> !killSwitch && 0 < quantity <= limits.maxOrderQuantity && kind.Limit? && price <= 0
      ensures r == MaxOrderNotionalExceeded <==>
                && !killSwitch && 0 < quantity <= limits.maxOrderQuantity && (kind.Limit? ==> price > 0)
                && !kind.Market? && price * quantity > limits.maxOrderNotional
      ensures var projected := (if symbol in positions then positions[symbol] else 0) + (if side.Buy? then quantity as int else -(quantity as int));
              var sound := && !killSwitch && 0 < quantity <= limits.maxOrderQuantity && (kind.Limit? ==> price > 0)
                           && (!kind.Market? ==> price * quantity <= limits.maxOrderNotional);
              && (r == MaxPositionExceeded <==> sound && !(-limits.maxPositionAbs <= projected <= limits.maxPositionAbs))
              && (r == MaxNotionalExposureExceeded <==>
                    && sound && -limits.maxPositionAbs <= projected <= limits.maxPositionAbs
                    && !kind.Market? && exposure + price * quantity > limits.maxNotionalExposure)
      ensures stats == if r == NoReason then old(stats).RecordPass() else old(stats).RecordReject(r)
    {
      ghost var l, t := Now(), Ticket(symbol, side, kind, price, quantity);
      RulesInOrder(l, t);
      if killSwitch {
        Reject(KillSwitchActive);
        return KillSwitchActive;
      }
      if quantity == 0 {
        Reject(InvalidQuantity);
        return InvalidQuantity;
      }
      if quantity > limits.maxOrderQuantity {
        Reject(MaxOrderQuantityExceeded);
        return MaxOrderQuantityExceeded;
      }
      if kind.Limit? && price <= 0 {
        Reject(InvalidPrice);
        return InvalidPrice;
      }
      if !kind.Market? {
        var orderNotional := price * quantity;
        if orderNotional > limits.maxOrderNotional {
          Reject(MaxOrderNotionalExceeded);
          return MaxOrderNotionalExceeded;
        }
      }
      var projected := Position(symbol) + Signed(side, quantity);
      if Abs(projected) > limits.maxPositionAbs {
        Reject(MaxPositionExceeded);
        return MaxPositionExceeded;
      }
      if !kind.Market? {
        var projectedExposure := exposure + price * quantity;
        if projectedExposure > limits.maxNotionalExposure {
          Reject(MaxNotionalExposureExceeded);
          return MaxNotionalExposureExceeded;
        }
      }
      stats := stats.RecordPass();
      r := NoReason;
    }

    /** Books one leg of an execution. */
    method OnFill(symbol: Symbol, side: Side, price: Price, quantity: Quantity)
      modifies this`positions, this`exposure
      ensures Now() == BookFill(old(Now()), symbol, side, price, quantity)
      ensures Position(symbol) == old(Position(symbol)) + if side.Buy? then quantity as int else -(quantity as int)
      ensures forall s :: s != symbol ==> Position(s) == old(Position(s))
      ensures exposure == old(exposure) + price * quantity
    {
      positions := positions[symbol := Position(symbol) + Signed(side, quantity)];
      exposure := exposure + price * quantity;
    }

    method SetKillSwitch(on: bool)
      modifies this`killSwitch
      ensures Now() == old(Now()).(killed := on)
    {
      killSwitch := on;
    }
  }

  lemma {:induction false} SumZeros(n: nat)
    ensures Sum(seq(n, _ => 0)) == 0
    decreases n
  {
    if n > 0 {
      assert seq(n, _ => 0)[1..] == seq(n - 1, _ => 0);
      SumZeros(n - 1);
    }
  }

  /** What passes, in terms of the limits alone. */
  lemma {:induction false} PassesIff(l: RiskState, t: Ticket)
    ensures var money := t.price * t.quantity;
            var projected := l.Position(t.symbol) + (if t.side.Buy? then t.quantity as int else -(t.quantity as int));
            Verdict(l, t) == NoReason <==>
              && !l.killed && 0 < t.quantity <= l.limits.maxOrderQuantity && (t.kind.Limit? ==> t.price > 0)
              && (!t.kind.Market? ==> money <= l.limits.maxOrderNotional && l.exposure + money <= l.limits.maxNotionalExposure)
              && -l.limits.maxPositionAbs <= projected <= l.limits.maxPositionAbs
  {
    RulesInOrder(l, t);
  }

  /** The verdict, rule by rule. */
  lemma {:induction false} RulesInOrder(l: RiskState, t: Ticket)
    ensures Verdict(l, t) ==
            if Breaks(l, t, KillSwitchActive) then KillSwitchActive
            else if Breaks(l, t, InvalidQuantity) then InvalidQuantity
            else if Breaks(l, t, MaxOrderQuantityExceeded) then MaxOrderQuantityExceeded
            else if Breaks(l, t, InvalidPrice) then InvalidPrice
            else if Breaks(l, t, MaxOrderNotionalExceeded) then MaxOrderNotionalExceeded
            else if Breaks(l, t, MaxPositionExceeded) then MaxPositionExceeded
            else if Breaks(l, t, MaxNotionalExposureExceeded) then MaxNotionalExposureExceeded
            else NoReason
  {
    var r := Verdict(l, t);
    assert RULES[0] == KillSwitchActive && RULES[1] == InvalidQuantity && RULES[2] == MaxOrderQuantityExceeded
        && RULES[3] == InvalidPrice && RULES[4] == MaxOrderNotionalExceeded && RULES[5] == MaxPositionExceeded
        && RULES[6] == MaxNotionalExposureExceeded && |RULES| == 7;
  }
}
