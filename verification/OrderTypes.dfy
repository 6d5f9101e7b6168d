/** The order record and the small enumerations of the matching core
    (include/codicis/core/types.h, order.h, book_event.h, order_book.h).

    Prices and quantities are mathematical integers.  The flag bitset is a set of flags. */
module OrderTypes {
  datatype Option<+T> = None | Some(value: T)

  type OrderId = nat
  type ClientId = nat
  type SeqNo = nat

  datatype Side = Buy | Sell {
    function Opposite(): Side {
      if this == Buy then Sell else Buy
    }

    /** True if price `a` is more aggressive than `b` for an order resting on this side. */
    predicate Better(a: int, b: int) {
      if this == Buy then a > b else a < b
    }
  }

  datatype OrdType = Market | Limit

  datatype Tif = GTC | DAY | GTD | IOC | FOK | GTX

  datatype Flag =
    | Hidden | PostOnly | ReduceOnly | Aon | Iceberg | Discretion
    | Moo | Loo | Moc | Loc | Opg

  const AUCTION_MASK: set<Flag> := {Moo, Loo, Moc, Loc, Opg}

  datatype TriggerKind = Stop | TrailAmount | TrailPercent

  datatype Trigger = Trigger(kind: TriggerKind, stopPrice: int, trailBy: int, highWater: int, triggered: bool)

  datatype PegRef = Primary | MarketPeg | Midpoint

  datatype Peg = Peg(ref: PegRef, offset: int, capLimit: int)

  datatype Order = Order(
    id: OrderId,
    client: ClientId,
    side: Side,
    typ: OrdType,
    tif: Tif,
    flags: set<Flag>,
    price: int,
    qty: int,
    leaves: int,
    filled: int,
    displayQty: int,
    minQty: int,
    discretion: int,
    seqNo: SeqNo,
    rank: SeqNo,
    expiry: int,
    trigger: Option<Trigger>,
    peg: Option<Peg>)
  {
    predicate Has(f: Flag) { f in flags }

    predicate IsIceberg() { Has(Iceberg) }

    predicate IsOpening() { Has(Moo) || Has(Loo) || Has(Opg) }

    predicate IsClosing() { Has(Moc) || Has(Loc) }

    /** A market or immediate-or-cancel remainder is discarded instead of resting. */
    predicate Discards() { typ == Market || tif == IOC }

    /** The most aggressive price an aggressor takes: its limit widened by the discretion band. */
    function EffectiveLimit(): int {
      if !Has(Discretion) || discretion <= 0 then price
      else if side == Buy then price + discretion else price - discretion
    }

    /** True if the order, as aggressor, accepts an execution at price `p`. */
    predicate Accepts(p: int) {
      typ == Market || (if side == Buy then EffectiveLimit() >= p else EffectiveLimit() <= p)
    }

    /** True if the order, in an auction, takes part at clearing price `p`. */
    predicate TradesAt(p: int) {
      typ == Market || (if side == Buy then price >= p else price <= p)
    }

    /** The visible slice an iceberg shows when it rests or replenishes; 0 for any other order. */
    function FreshSlice(): int {
      if IsIceberg() then Min(displayQty, leaves) else 0
    }
  }

  /** A resting order with its current iceberg slice. */
  datatype Maker = Maker(o: Order, slice: int) {
    /** The quantity the order adds to the public view of its level. */
    function Lit(): int {
      if o.Has(Hidden) then 0 else if o.IsIceberg() then slice else o.leaves
    }

    /** The quantity exposed to a single fill. */
    function Exposed(): int {
      if o.IsIceberg() then slice else o.leaves
    }
  }

  datatype Trade = Trade(taker: OrderId, maker: OrderId, takerSide: Side, price: int, qty: int)

  datatype EventType = EvAdd | EvCancel | EvTrade | EvReprice | EvReplenish | EvTrigger

  datatype BookEvent = BookEvent(
    seqNo: SeqNo,
    symbol: string,
    typ: EventType,
    id: OrderId,
    taker: OrderId,
    side: Side,
    price: int,
    prevPrice: int,
    qty: int,
    displayed: int)

  datatype StpPolicy = StpNone | CancelResting | CancelAggressor | CancelBoth {
    predicate Resting() { this == CancelResting || this == CancelBoth }

    predicate Aggressor() { this == CancelAggressor || this == CancelBoth }
  }

  function Min(a: int, b: int): int { if a <= b then a else b }

  function Max(a: int, b: int): int { if a >= b then a else b }

  function Abs(a: int): int { if a >= 0 then a else -a }

  /** C++ integer division by two: the quotient truncates toward zero. */
  function HalfTrunc(a: int): int {
    if a >= 0 then a / 2 else -((-a) / 2)
  }

  /** Collapse the convenience time-in-force values and fill in the unset quantities
      (src/core/order.cc, Normalize). */
  function Normalize(o: Order): (r: Order)
    ensures r.tif == (if o.tif == FOK then IOC else if o.tif == GTX then GTC else o.tif)
    ensures r.flags == o.flags + (if o.tif == FOK then {Aon} else if o.tif == GTX then {PostOnly} else {})
    ensures r.leaves == 0 && r.filled == 0 ==> r.qty == 0
    ensures o.leaves != 0 || o.filled != 0 ==> r.leaves == o.leaves
    ensures o.leaves == 0 && o.filled == 0 ==> r.leaves == o.qty
    ensures r.displayQty == 0 ==> r.qty == 0
    ensures o.displayQty != 0 ==> r.displayQty == o.displayQty
    ensures o.displayQty == 0 ==> r.displayQty == o.qty
    ensures r == o.(tif := r.tif, flags := r.flags, leaves := r.leaves, displayQty := r.displayQty)
  {
    var o1 := if o.tif == GTX then o.(flags := o.flags + {PostOnly}, tif := GTC)
              else if o.tif == FOK then o.(flags := o.flags + {Aon}, tif := IOC)
              else o;
    var o2 := if o1.leaves == 0 && o1.filled == 0 then o1.(leaves := o1.qty) else o1;
    if o2.displayQty == 0 then o2.(displayQty := o2.qty) else o2
  }

  // -------------------------------------------------------- shared helpers

  ghost predicate NoDup<T>(f: seq<T>) {
    forall i, j :: 0 <= i < j < |f| ==> f[i] != f[j]
  }

  /** A finite non-empty set of prices has a best one. */
  lemma {:induction false} BestPriceExists(side: Side, ps: set<int>, x: int)
    requires x in ps
    ensures exists p :: p in ps && forall y :: y in ps ==> !side.Better(y, p)
    decreases |ps|
  {
    var rest := ps - {x};
    assert ps == rest + {x};
    if y :| y in rest {
      BestPriceExists(side, rest, y);
      var r :| r in rest && forall y :: y in rest ==> !side.Better(y, r);
      var p := if side.Better(r, x) then r else x;
      assert p in ps && forall y :: y in ps ==> !side.Better(y, p);
    }
  }
}
