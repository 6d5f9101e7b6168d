/** Pegged orders: their reference excludes every pegged order, so one repricing pass reaches a
    fixpoint (src/core/order_book.cc, reference_best, compute_peg_price, move_pegged, reprice_pegs). */
module Pegs {
  import opened OrderTypes
  import opened BookCore
  import opened Ordering

  /** A non-pegged order rests in slot `s`. */
  ghost predicate NonPegAt(c: Core, s: Slot) {
    exists id :: id in Fifo(c.q, s) && id in c.orders && c.orders[id].o.peg.None?
  }

  ghost predicate IsReference(c: Core, side: Side, p: int) {
    NonPegAt(c, Slot(side, p)) && forall x :: NonPegAt(c, Slot(side, x)) ==> !side.Better(x, p)
  }

  lemma ReferenceExists(c: Core, side: Side, x: int)
    requires NonPegAt(c, Slot(side, x))
    ensures exists p :: IsReference(c, side, p)
  {
    var ps := set s | s in c.q && s.side == side && NonPegAt(c, s) :: s.price;
    forall p | NonPegAt(c, Slot(side, p)) ensures p in ps {
      assert Slot(side, p) in c.q;
    }
    BestPriceExists(side, ps, x);
    var p :| p in ps && forall y :: y in ps ==> !side.Better(y, p);
    assert IsReference(c, side, p);
  }

  /** The best price on a side over non-pegged orders. */
  ghost function ReferenceBest(c: Core, side: Side): (r: Option<int>)
    ensures r.Some? ==> IsReference(c, side, r.value)
    ensures r.None? <==> forall p :: !NonPegAt(c, Slot(side, p))
  {
    if x :| NonPegAt(c, Slot(side, x)) then
      ReferenceExists(c, side, x);
      var p :| IsReference(c, side, p);
      Some(p)
    else None
  }

  lemma ReferenceIs(c: Core, side: Side, r: Option<int>)
    requires r.Some? ==> IsReference(c, side, r.value)
    requires r.None? ==> forall p :: !NonPegAt(c, Slot(side, p))
    ensures ReferenceBest(c, side) == r
  {
  }

  /** Apply offset, protective cap and the positive-price check to a reference price. */
  function PegFrom(ref: int, side: Side, peg: Peg): Option<int> {
    var raw := ref + peg.offset;
    var price := if peg.capLimit <= 0 then raw
                 else if side == Buy then Min(raw, peg.capLimit) else Max(raw, peg.capLimit);
    if price <= 0 then None else Some(price)
  }

  function PegWith(rb: Option<int>, ra: Option<int>, o: Order): Option<int> {
    if o.peg.None? then None else
    var peg := o.peg.value;
    match peg.ref
    case Primary =>
      var r := if o.side == Buy then rb else ra;
      if r.None? then None else PegFrom(r.value, o.side, peg)
    case MarketPeg =>
      var r := if o.side == Buy then ra else rb;
      if r.None? then None else PegFrom(r.value, o.side, peg)
    case Midpoint =>
      if rb.None? || ra.None? then None else PegFrom(HalfTrunc(rb.value + ra.value), o.side, peg)
  }

  /** compute_peg_price. */
  ghost function PegPrice(c: Core, o: Order): Option<int> {
    PegWith(ReferenceBest(c, Buy), ReferenceBest(c, Sell), o)
  }

  /** `price` is `ref` shifted by the peg's offset, held back by its cap: a bid goes no higher than the
      cap, an offer no lower. */
  predicate Shifted(peg: Peg, side: Side, ref: int, price: int) {
    var raw := ref + peg.offset;
    && (peg.capLimit <= 0 ==> price == raw)
    && (peg.capLimit > 0 ==> price == raw || price == peg.capLimit)
    && (peg.capLimit > 0 && side == Buy ==> price <= raw && price <= peg.capLimit)
    && (peg.capLimit > 0 && side == Sell ==> price >= raw && price >= peg.capLimit)
  }

  /** `mid` is halfway between two prices, rounded towards zero. */
  predicate Halfway(bid: int, ask: int, mid: int) {
    if bid + ask >= 0 then 2 * mid <= bid + ask <= 2 * mid + 1 else 2 * mid - 1 <= bid + ask <= 2 * mid
  }

  /** Price `ref` is what a peg refers to: the best non-pegged price of its own side, that of the other
      side, or the point halfway. */
  ghost predicate RefersTo(c: Core, o: Order, ref: int) {
    o.peg.Some? &&
    match o.peg.value.ref
    case Primary => IsReference(c, o.side, ref)
    case MarketPeg => IsReference(c, o.side.Opposite(), ref)
    case Midpoint =>
      exists bid, ask :: IsReference(c, Buy, bid) && IsReference(c, Sell, ask) && Halfway(bid, ask, ref)
  }

  lemma PegFromIff(ref: int, side: Side, peg: Peg, price: int)
    ensures PegFrom(ref, side, peg) == Some(price) <==> price > 0 && Shifted(peg, side, ref, price)
  {
  }

  lemma IsReferenceIff(c: Core, side: Side, p: int)
    ensures IsReference(c, side, p) <==> ReferenceBest(c, side) == Some(p)
  {
    if IsReference(c, side, p) { ReferenceIs(c, side, Some(p)); }
  }

  lemma HalfwayIff(bid: int, ask: int, mid: int)
    ensures Halfway(bid, ask, mid) <==> mid == HalfTrunc(bid + ask)
  {
  }

  lemma RefersToIff(c: Core, o: Order, ref: int)
    requires o.peg.Some?
    ensures var rb, ra := ReferenceBest(c, Buy), ReferenceBest(c, Sell);
      RefersTo(c, o, ref) <==>
        match o.peg.value.ref
        case Primary => (if o.side == Buy then rb else ra) == Some(ref)
        case MarketPeg => (if o.side == Buy then ra else rb) == Some(ref)
        case Midpoint => rb.Some? && ra.Some? && ref == HalfTrunc(rb.value + ra.value)
  {
    hide IsReference, ReferenceBest, Halfway, HalfTrunc;
    var rb, ra := ReferenceBest(c, Buy), ReferenceBest(c, Sell);
    IsReferenceIff(c, Buy, ref);
    IsReferenceIff(c, Sell, ref);
    if o.peg.value.ref == Midpoint {
      if rb.Some? && ra.Some? {
        IsReferenceIff(c, Buy, rb.value);
        IsReferenceIff(c, Sell, ra.value);
        HalfwayIff(rb.value, ra.value, ref);
      }
      if bid, ask :| IsReference(c, Buy, bid) && IsReference(c, Sell, ask) && Halfway(bid, ask, ref) {
        IsReferenceIff(c, Buy, bid);
        IsReferenceIff(c, Sell, ask);
      }
    }
  }

  /** A peg price is a reference shifted and capped, and positive; there is none exactly when there is no
      reference or its shifted price is not positive. */
  lemma PegPriceIff(c: Core, o: Order, price: int)
    ensures PegPrice(c, o) == Some(price) <==>
      price > 0 && exists ref :: RefersTo(c, o, ref) && Shifted(o.peg.value, o.side, ref, price)
  {
    hide ReferenceBest, RefersTo, PegFrom, HalfTrunc, Shifted;
    if o.peg.Some? {
      var peg := o.peg.value;
      forall ref ensures PegFrom(ref, o.side, peg) == Some(price) <==> price > 0 && Shifted(peg, o.side, ref, price) {
        PegFromIff(ref, o.side, peg, price);
      }
      var rb, ra := ReferenceBest(c, Buy), ReferenceBest(c, Sell);
      if PegPrice(c, o).Some? {
        var ref := match o.peg.value.ref
          case Primary => if o.side == Buy then rb.value else ra.value
          case MarketPeg => if o.side == Buy then ra.value else rb.value
          case Midpoint => HalfTrunc(rb.value + ra.value);
        RefersToIff(c, o, ref);
      }
      if ref :| RefersTo(c, o, ref) && Shifted(o.peg.value, o.side, ref, price) { RefersToIff(c, o, ref); }
    } else {
      assert !exists ref :: RefersTo(c, o, ref) by { NoPegRefers(c, o); }
    }
  }

  lemma NoPegRefers(c: Core, o: Order)
    requires o.peg.None?
    ensures forall ref :: !RefersTo(c, o, ref)
  {
  }

  /** Order `id` rests where its peg says, whenever that price is computable. */
  ghost predicate AtPeg(c: Core, id: OrderId) {
    id in c.orders && (PegPrice(c, c.orders[id].o).Some? ==> PegPrice(c, c.orders[id].o).value == c.orders[id].o.price)
  }

  ghost function RepriceOne(c: Core, id: OrderId): Core {
    if id !in c.orders then c.(pegged := c.pegged - {id})
    else
      var np := PegPrice(c, c.orders[id].o);
      if np.Some? && np.value != c.orders[id].o.price then Move(c, id, np.value) else c
  }

  ghost function Reprice(c: Core, ids: seq<OrderId>): Core
    decreases |ids|
  {
    if ids == [] then c else Reprice(RepriceOne(c, ids[0]), ids[1..])
  }

  /** Resting orders by arrival. */
  ghost function Arrival(c: Core): Rule {
    ByArrival(map id | id in c.orders :: c.orders[id].o.seqNo)
  }

  lemma PegsKeyed(c: Core)
    requires Inv(c)
    ensures TotalOn(Arrival(c), c.pegged)
  {
    ArrivalTotal(Arrival(c).key, c.pegged);
  }

  lemma PegMember(c: Core, id: OrderId)
    requires Inv(c) && id in c.pegged
    ensures id in c.orders && c.orders[id].o.peg.Some?
  {
  }

  /** reprice_pegs: one pass over the pegged orders in arrival order. */
  ghost function RepriceAll(c: Core): Core
    requires Inv(c)
  {
    PegsKeyed(c);
    Reprice(c, Sorted(Arrival(c), c.pegged))
  }

  // ------------------------------------------------------------- fixpoint

  lemma MoveSlots(c: Core, id: OrderId, price: int, s: Slot, x: OrderId)
    requires FifoOk(c.orders, c.q) && id in c.orders && x != id
    ensures x in Fifo(Move(c, id, price).q, s) <==> x in Fifo(c.q, s)
  {
    var from := SlotOf(c.orders[id]);
    assert NoDup(Fifo(c.q, from));
    WithoutMembers(Fifo(c.q, from), id);
  }

  /** Moving a pegged order does not change where non-pegged orders rest. */
  lemma MoveKeepsNonPeg(c: Core, id: OrderId, price: int, s: Slot)
    requires Inv(c) && id in c.orders && c.orders[id].o.peg.Some?
    ensures NonPegAt(Move(c, id, price), s) <==> NonPegAt(c, s)
  {
    var c' := Move(c, id, price);
    if x :| x in Fifo(c.q, s) && x in c.orders && c.orders[x].o.peg.None? {
      MoveSlots(c, id, price, s, x);
      assert x in Fifo(c'.q, s) && c'.orders[x].o.peg.None?;
    }
    if x :| x in Fifo(c'.q, s) && x in c'.orders && c'.orders[x].o.peg.None? {
      MoveSlots(c, id, price, s, x);
      assert x in Fifo(c.q, s) && c.orders[x].o.peg.None?;
    }
  }

  lemma MoveKeepsReference(c: Core, id: OrderId, price: int, side: Side)
    requires Inv(c) && id in c.orders && c.orders[id].o.peg.Some?
    ensures ReferenceBest(Move(c, id, price), side) == ReferenceBest(c, side)
  {
    hide Inv, Move, NonPegAt;
    forall p ensures NonPegAt(Move(c, id, price), Slot(side, p)) <==> NonPegAt(c, Slot(side, p)) {
      MoveKeepsNonPeg(c, id, price, Slot(side, p));
    }
    ReferenceIs(Move(c, id, price), side, ReferenceBest(c, side));
  }

  /** The peg price does not depend on where the order rests. */
  lemma PegTerms(rb: Option<int>, ra: Option<int>, o: Order, o': Order)
    requires o'.peg == o.peg && o'.side == o.side
    ensures PegWith(rb, ra, o') == PegWith(rb, ra, o)
  {
  }

  /** Repricing one peg puts it at its price and leaves every other order's standing unchanged. */
  lemma RepriceOneInv(c: Core, id: OrderId)
    requires Inv(c) && id in c.pegged
    ensures var c' := RepriceOne(c, id);
      && Inv(c') && c'.pegged == c.pegged && AtPeg(c', id)
      && (forall side :: ReferenceBest(c', side) == ReferenceBest(c, side))
      && (forall x :: x in c'.orders <==> x in c.orders)
      && (forall x :: x in c.orders && x != id ==> c'.orders[x] == c.orders[x])
  {
    hide Inv, ReferenceBest, PegWith;
    PegMember(c, id);
    var np := PegPrice(c, c.orders[id].o);
    if np.Some? && np.value != c.orders[id].o.price {
      MoveInv(c, id, np.value);
      PegTerms(ReferenceBest(c, Buy), ReferenceBest(c, Sell), c.orders[id].o, Move(c, id, np.value).orders[id].o);
      forall side ensures ReferenceBest(Move(c, id, np.value), side) == ReferenceBest(c, side) {
        MoveKeepsReference(c, id, np.value, side);
      }
    }
  }

  lemma {:induction false} RepriceInv(c: Core, ids: seq<OrderId>)
    requires Inv(c) && forall id :: id in ids ==> id in c.pegged
    ensures var c' := Reprice(c, ids);
      && Inv(c') && c'.pegged == c.pegged && c'.orders.Keys == c.orders.Keys
      && (forall side :: ReferenceBest(c', side) == ReferenceBest(c, side))
      && (forall x :: x in c.orders && (x in ids || AtPeg(c, x)) ==> AtPeg(c', x))
    decreases |ids|
  {
    hide Inv;
    if ids != [] {
      var c1 := RepriceOne(c, ids[0]);
      RepriceOneInv(c, ids[0]);
      assert forall x :: x in ids <==> x == ids[0] || x in ids[1..];
      RepriceInv(c1, ids[1..]);
      forall x | x in c.orders && AtPeg(c, x) ensures AtPeg(c1, x) {
      }
    }
  }

  /** One pass suffices: afterwards every pegged order whose price is computable rests at it. */
  lemma RepriceAllReachesPegs(c: Core, id: OrderId)
    requires Inv(c) && id in c.pegged
    ensures Inv(RepriceAll(c)) && AtPeg(RepriceAll(c), id)
  {
    PegsKeyed(c);
    RepriceInv(c, Sorted(Arrival(c), c.pegged));
  }

  lemma {:induction false} RepriceNothing(c: Core, ids: seq<OrderId>)
    requires forall id :: id in ids ==> AtPeg(c, id)
    ensures Reprice(c, ids) == c
    decreases |ids|
  {
    if ids != [] {
      assert ids[0] in ids;
      assert RepriceOne(c, ids[0]) == c;
      RepriceNothing(c, ids[1..]);
    }
  }

  /** A second pass changes nothing at all. */
  lemma RepriceAllIdempotent(c: Core)
    requires Inv(c)
    ensures Inv(RepriceAll(c)) && RepriceAll(RepriceAll(c)) == RepriceAll(c)
  {
    PegsKeyed(c);
    RepriceInv(c, Sorted(Arrival(c), c.pegged));
    var c' := RepriceAll(c);
    PegsKeyed(c');
    RepriceNothing(c', Sorted(Arrival(c'), c'.pegged));
  }

  lemma {:induction false} RepriceStamps(c: Core, ids: seq<OrderId>)
    ensures Reprice(c, ids).born == c.born && c.nextSeq <= Reprice(c, ids).nextSeq
    decreases |ids|
  {
    if ids != [] {
      RepriceStamps(RepriceOne(c, ids[0]), ids[1..]);
    }
  }

  lemma RepriceAllInv(c: Core)
    requires Inv(c)
    ensures var c' := RepriceAll(c);
      && Inv(c') && c'.pegged == c.pegged && c'.orders.Keys == c.orders.Keys
      && c'.born == c.born && c.nextSeq <= c'.nextSeq
  {
    PegsKeyed(c);
    RepriceInv(c, Sorted(Arrival(c), c.pegged));
    RepriceStamps(c, Sorted(Arrival(c), c.pegged));
  }
}
