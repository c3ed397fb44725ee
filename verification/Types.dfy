/** The vocabulary shared by every component: sides, order types, orders and trades. */
module Types {

  /** The largest finite double, (2^53 - 1) * 2^971, counted in units of 2^-1074.
      Every finite double is a whole number of such units. */
  const MAX_PRICE: int := 0x3FFFFFFFFFFFFE0000000000000000000000000000000000000000000000000000000000000000000000000000000000000000000000000000000000000000000000000000000000000000000000000000000000000000000000000000000000000000000000000000000000000000000000000000000000000000000000000000000000000000000000000000000000000000000000000000000000000000000000000000000000000000000000000000000000000000000000000000000000000000000000000000000000000000000000000000000000000000000000000000000000000000000000000000000000000000000000000000000000000000000000000000000

  /** A finite double, as a whole number of units of 2^-1074. */
  type Price = p: int | -MAX_PRICE <= p <= MAX_PRICE

  /** A 32-bit unsigned share count. */
  type Quantity = q: nat | q <= 0xFFFF_FFFF

  /** Identifies an order within one book; 0 means "no order". */
  type OrderId = nat

  /** A stock symbol. */
  datatype Symbol = Symbol(name: string)

  datatype Side = Buy | Sell {
    function Opposite(): Side {
      if Buy? then Sell else Buy
    }
  }

  datatype OrderType = Limit | Market | IOC

  datatype OrderStatus = Accepted | Filled | PartiallyFilled | Cancelled | Rejected

  datatype Order = Order(id: OrderId, side: Side, kind: OrderType, price: Price,
                         quantity: Quantity, remaining: Quantity, status: OrderStatus)
  {
    /** Shares filled so far, by 32-bit unsigned subtraction. */
    function FilledQty(): Quantity {
      if remaining <= quantity then quantity - remaining else quantity - remaining + 0x1_0000_0000
    }

    predicate IsFilled() {
      remaining == 0
    }
  }

  datatype Trade = Trade(buyId: OrderId, sellId: OrderId, price: Price, quantity: Quantity)

  function Min(a: Quantity, b: Quantity): Quantity {
    if a <= b then a else b
  }

  /** Shares changing hands on a list of trades. */
  function Volume(trades: seq<Trade>): nat {
    if trades == [] then 0 else trades[0].quantity + Volume(trades[1..])
  }

  /** Money changing hands on a list of trades, in exact arithmetic. */
  function Notional(trades: seq<Trade>): int {
    if trades == [] then 0 else trades[0].price * trades[0].quantity + Notional(trades[1..])
  }

  lemma {:induction false} VolumeConcat(a: seq<Trade>, b: seq<Trade>)
    ensures Volume(a + b) == Volume(a) + Volume(b)
  {
    if a == [] {
      assert a + b == b;
    } else {
      assert (a + b)[1..] == a[1..] + b;
      VolumeConcat(a[1..], b);
    }
  }

  lemma {:induction false} NotionalConcat(a: seq<Trade>, b: seq<Trade>)
    ensures Notional(a + b) == Notional(a) + Notional(b)
  {
    if a == [] {
      assert a + b == b;
    } else {
      assert (a + b)[1..] == a[1..] + b;
      NotionalConcat(a[1..], b);
    }
  }

  /** Wrapping part of a sum to 32 bits does not change the wrapped sum. */
  lemma {:induction false} WrapTwice(a: nat, b: nat)
    ensures (a % 0x1_0000_0000 + b) % 0x1_0000_0000 == (a + b) % 0x1_0000_0000
  {
  }
}
