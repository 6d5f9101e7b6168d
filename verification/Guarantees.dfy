/** What submit promises for post-only, all-or-none (fill-or-kill) and minimum-quantity orders
    (src/core/order_book.cc, submit; include/codicis/core/order_book.h). */
module Guarantees {
  import opened OrderTypes
  import opened BookSums
  import opened BookCore
  import opened Matching
  import opened Liquidity
  import opened Walks
  import opened Ordering
  import opened Pegs
  import opened Sessions

  /** A continuous order: neither queued for an auction, nor parked, nor pegged. */
  predicate Continuous(o: Order) {
    && !o.IsOpening() && !o.IsClosing() && o.peg.None?
    && (o.trigger.None? || o.trigger.value.triggered)
  }

  lemma NothingReached(c: Core, o: Order)
    requires Inv(c) && !Crosses(c, o)
    ensures MatchAll(Match(c, o, [], false)) == Match(c, o, [], false)
  {
    if Next(c, o).Some? {
      NextSound(c, o);
    }
  }

  lemma SizedWithoutContra(s: State, o: Order)
    requires StateInv(s) && Fresh(s, o) && !Crosses(s.c, o)
    ensures SubmitSized(s, o).out.trades == []
  {
    NothingReached(s.c, o);
    hide StateInv, RepriceAll, Cascade, Available;
  }

  /** A post-only order never takes liquidity. */
  lemma PostOnlyNeverTakes(s: State, o0: Order)
    requires StateInv(s) && Admissible(s, o0)
    requires var o := Normalize(o0); o.Has(PostOnly) && Continuous(o)
    ensures Submit(s, o0).out.trades == []
  {
    hide StateInv, SubmitSized, Crosses, Normalize;
    var o := Stamp(o0, s.c.nextSeq);
    var s1 := s.(c := StampCore(s.c, o.id));
    StampInv(s, o0);
    if Fresh(s1, o) && !Crosses(s1.c, o) && !(o.Has(ReduceOnly) && Capacity(s1.c, o) <= 0) {
      var o1 := if o.Has(ReduceOnly) then Capped(o, Capacity(s1.c, o)) else o;
      CappedCrosses(s1.c, o, Capacity(s1.c, o));
      SizedWithoutContra(s1, o1);
    }
  }

  /** A post-only order that is valid is refused for crossing if and only if a contra order rests at its
      limit or better, its discretion band counted. */
  lemma PostOnlyRefusedIff(s: State, o0: Order)
    requires StateInv(s) && Admissible(s, o0) && o0.id !in s.c.orders && o0.id !in s.stops
    requires var o := Normalize(o0);
      o.Has(PostOnly) && Continuous(o) && o.typ == Limit && o.price > 0 && o.qty > 0 && o.leaves > 0
    ensures Submit(s, o0).out.reason == PostOnlyWouldCross <==>
      var band := if Discretion in o0.flags && o0.discretion > 0 then o0.discretion else 0;
      exists id :: id in s.c.orders && s.c.orders[id].o.side != o0.side
        && if o0.side == Buy then s.c.orders[id].o.price <= o0.price + band
           else s.c.orders[id].o.price >= o0.price - band
  {
    hide StateInv, SubmitSized, Crosses, Normalize;
    var o := Stamp(o0, s.c.nextSeq);
    var s1 := s.(c := StampCore(s.c, o.id));
    StampInv(s, o0);
    CrossesIff(s1.c, o);
    if o.Has(ReduceOnly) && Capacity(s1.c, o) > 0 { SizedReason(s1, Capped(o, Capacity(s1.c, o))); }
    SizedReason(s1, o);
  }

  lemma SizedReason(s: State, o: Order)
    requires StateInv(s) && Fresh(s, o)
    ensures SubmitSized(s, o).out.reason != PostOnlyWouldCross
  {
    hide StateInv, Available, RepriceAll, Rest, MatchAll, Cascade;
  }

  lemma CrossesIff(c: Core, o: Order)
    requires o.typ == Limit
    ensures Crosses(c, o) <==>
      var band := if Discretion in o.flags && o.discretion > 0 then o.discretion else 0;
      exists id :: id in c.orders && c.orders[id].o.side != o.side
        && if o.side == Buy then c.orders[id].o.price <= o.price + band
           else c.orders[id].o.price >= o.price - band
  {
  }

  lemma CappedCrosses(c: Core, o: Order, cap: int)
    ensures Crosses(c, Capped(o, cap)) <==> Crosses(c, o)
  {
    assert forall m :: Reaches(Capped(o, cap), m) == Reaches(o, m);
  }

  // ------------------------------------------- what a submit executes

  /** The order as it enters matching: normalised, stamped, and cut down if it is reduce-only. */
  function Entering(s: State, o0: Order): Order {
    var o := Stamp(o0, s.c.nextSeq);
    if o.Has(ReduceOnly) then Capped(o, Capacity(s.c, o)) else o
  }

  /** A refused order trades nothing, and apart from the number it was given the whole book, its
      orders, queues, stops, positions and events, is as it was. */
  lemma RefusedTradesNothing(s: State, o0: Order)
    requires StateInv(s) && Admissible(s, o0)
    ensures var r := Submit(s, o0);
      r.out.reason != Accepted ==> r.out == Rejected(r.out.reason) && r.s == s.(c := StampCore(s.c, o0.id))
  {
    hide StateInv, Available, RepriceAll, Cascade, Fresh, MatchAll, Inject, Crosses, Normalize, Rest, Order.IsOpening;
    hide Order.IsClosing, PegPrice, Armed, Capacity, StopTriggered, Capped;
    StampInv(s, o0);
  }

  lemma AcceptedIsSized(s: State, o0: Order)
    requires StateInv(s) && Admissible(s, o0) && Continuous(Normalize(o0)) && Submit(s, o0).out.reason == Accepted
    ensures var s1 := s.(c := StampCore(s.c, o0.id));
      && StateInv(s1) && Fresh(s1, Entering(s, o0)) && Submit(s, o0) == SubmitSized(s1, Entering(s, o0))
  {
    hide StateInv, SubmitSized, Crosses, Normalize;
    StampInv(s, o0);
  }

  /** Numbering an order changes nothing it will meet. */
  lemma {:induction false} StampedPrices(c: Core, id: OrderId, o: Order, ps: set<int>, r: nat)
    requires Inv(c) && Inv(StampCore(c, id))
    ensures WalkPrices(StampCore(c, id), o, ps, r) == WalkPrices(c, o, ps, r)
    decreases |ps|
  {
    hide Inv, WalkLevel;
    if ps != {} {
      var p := BestOf(o.side.Opposite(), ps);
      LevelKnown(c, o, Contra(o, p));
      var f := Fifo(c.q, Contra(o, p));
      SameOffers(c, o, StampCore(c, id), o, f);
      forall x: nat ensures WalkPrices(StampCore(c, id), o, ps - {p}, x) == WalkPrices(c, o, ps - {p}, x) {
        StampedPrices(c, id, o, ps - {p}, x);
      }
    }
  }

  lemma StampedWalk(c: Core, id: OrderId, o: Order)
    requires Inv(c) && Inv(StampCore(c, id)) && o.leaves >= 0
    ensures Walk(StampCore(c, id), o) == Walk(c, o)
  {
    hide Inv;
    StampedPrices(c, id, o, PricesFor(c, o), o.leaves);
  }

  lemma TradeExecutes(s: State, o: Order)
    requires StateInv(s) && Fresh(s, o)
    ensures SubmitTrade(s, o).out.filled == o.filled + o.leaves - Walk(s.c, o).qty
    ensures SubmitTrade(s, o).out.reason == Accepted
  {
    MatchLeaves(s.c, o);
    MatchConserves(Match(s.c, o, [], false));
    hide Walk;
  }

  lemma SizedExecutes(s: State, o: Order)
    requires StateInv(s) && Fresh(s, o)
    ensures var out := SubmitSized(s, o).out;
      out.reason == Accepted ==>
        if o.Has(Aon) && Available(s.c, o) < o.leaves then out.trades == [] && out.filled == 0
        else out.filled == o.filled + o.leaves - Walk(s.c, o).qty && (o.minQty > 0 ==> Available(s.c, o) >= o.minQty)
  {
    hide StateInv, RepriceAll, SubmitTrade, Walk, Available, Fresh, Rest;
    TradeExecutes(s, o);
  }

  // --------------------------------------------- what a submit reports

  /** What is reported of an order that rests: itself at its own price, its quantity made up of what was
      executed and what is left. */
  ghost predicate ReportsRest(o: Order, out: Outcome) {
    && (out.rested <==> out.resting.Some?)
    && (out.rested ==>
          var r := out.resting.value;
          && r.id == o.id && r.side == o.side && r.price == o.price && r.client == o.client
          && r.leaves > 0 && r.filled == out.filled && r.leaves + r.filled == r.qty == o.qty)
  }

  lemma SizedReports(s: State, o: Order)
    requires StateInv(s) && Fresh(s, o) && o.filled == 0 && o.leaves == o.qty
    ensures var out := SubmitSized(s, o).out; out.reason == Accepted ==> ReportsRest(o, out)
  {
    hide Inv, StopsOk, QueueOk, RepriceAll, Available, MatchAll, Cascade, Rest, Evolves;
    var m0 := Match(s.c, o, [], false);
    MatchConserves(m0);
    MatchAllEvolves(m0);
  }

  /** A new continuous order that is accepted: if it rests, that is reported with its terms and with
      quantities that add up; a reduce-only order is cut to what its account's position leaves to reduce. */
  lemma RestingReported(s: State, o0: Order)
    requires StateInv(s) && Admissible(s, o0) && Continuous(Normalize(o0)) && Submit(s, o0).out.reason == Accepted
    requires Normalize(o0).filled == 0 && Normalize(o0).leaves == Normalize(o0).qty
    ensures var out := Submit(s, o0).out;
      && (out.rested <==> out.resting.Some?)
      && (out.rested ==>
            var r := out.resting.value;
            var p := PositionOf(s.c.positions, o0.client);
            && r.id == o0.id && r.side == o0.side && r.price == o0.price && r.client == o0.client
            && r.leaves > 0 && r.filled == out.filled && r.leaves + r.filled == r.qty <= o0.qty
            && (ReduceOnly !in r.flags ==> r.qty == o0.qty)
            && (ReduceOnly in r.flags && o0.side == Sell ==> r.qty <= p.net - p.reservedSell)
            && (ReduceOnly in r.flags && o0.side == Buy ==> r.qty <= -p.net - p.reservedBuy))
  {
    hide StateInv, SubmitSized, Fresh;
    AcceptedIsSized(s, o0);
    var s1 := s.(c := StampCore(s.c, o0.id));
    SizedReports(s1, Entering(s, o0));
    SizedFlags(s1, Entering(s, o0));
    ReducesOnly(s, o0);
  }

  lemma SizedFlags(s: State, o: Order)
    requires StateInv(s) && Fresh(s, o)
    ensures var out := SubmitSized(s, o).out; out.resting.Some? ==> out.resting.value.flags == o.flags
  {
    hide Inv, StopsOk, QueueOk, RepriceAll, Available, MatchAll, Cascade, Rest, Evolves;
    MatchAllEvolves(Match(s.c, o, [], false));
  }

  lemma ReducesOnly(s: State, o0: Order)
    requires StateInv(s) && Admissible(s, o0) && Continuous(Normalize(o0)) && Submit(s, o0).out.reason == Accepted
    ensures Normalize(o0).Has(ReduceOnly) ==> Capacity(s.c, Stamp(o0, s.c.nextSeq)) > 0
  {
    hide StateInv, SubmitSized, Crosses, Normalize, Capacity;
    StampInv(s, o0);
    assert Capacity(StampCore(s.c, o0.id), Stamp(o0, s.c.nextSeq)) == Capacity(s.c, Stamp(o0, s.c.nextSeq)) by {
      SameCapacity(s.c, o0.id, Stamp(o0, s.c.nextSeq));
    }
  }

  lemma SameCapacity(c: Core, id: OrderId, o: Order)
    ensures Capacity(StampCore(c, id), o) == Capacity(c, o)
  {
  }

  /** A minimum beyond the order's own quantity is refused as such, whatever the book holds. */
  lemma MinQtyBeyondRefused(s: State, o0: Order)
    requires StateInv(s) && Admissible(s, o0) && o0.id !in s.c.orders && o0.id !in s.stops
    requires var o := Normalize(o0);
      && Continuous(o) && (o.typ == Limit ==> o.price > 0) && o.qty > 0 && o.leaves > 0
      && !o.Has(PostOnly) && !o.Has(ReduceOnly) && !o.Has(Aon)
    ensures Submit(s, o0).out.reason == MinQtyExceedsQty <==> o0.minQty > o0.qty
  {
    hide StateInv, Normalize, SubmitTrade, Available, Walk;
    StampInv(s, o0);
    TradeExecutes(s.(c := StampCore(s.c, o0.id)), Stamp(o0, s.c.nextSeq));
  }

  /** What every accepted continuous order executes, in every book, under every self-trade policy:
      nothing if it is all-or-none and not fully available; otherwise exactly what the walk over the
      book before the call takes from it. */
  lemma SubmitExecutes(s: State, o0: Order)
    requires StateInv(s) && Admissible(s, o0) && Continuous(Normalize(o0)) && Submit(s, o0).out.reason == Accepted
    ensures var o, out := Entering(s, o0), Submit(s, o0).out;
      && o.leaves > 0
      && if o.Has(Aon) && Available(s.c, o) < o.leaves then out.trades == [] && out.filled == 0
         else out.filled == o.filled + o.leaves - Walk(s.c, o).qty && (o.minQty > 0 ==> Available(s.c, o) >= o.minQty)
  {
    var o := Entering(s, o0);
    var s1 := s.(c := StampCore(s.c, o0.id));
    AcceptedIsSized(s, o0);
    assert Inv(s.c) && Inv(s1.c) && o.leaves > 0;
    hide StateInv, Inv, Submit, SubmitSized, Entering, Walk;
    SizedExecutes(s1, o);
    StampedWalk(s.c, o0.id, o);
    assert Available(s1.c, o) == Available(s.c, o);
  }

  /** A valid order with nothing but its size to screen is accepted once that size is available. */
  lemma AvailableIsAccepted(s: State, o0: Order)
    requires StateInv(s) && Admissible(s, o0) && Continuous(Normalize(o0))
    requires var o := Entering(s, o0);
      && o.qty > 0 && o.leaves > 0 && o.price > 0 && o.id !in s.c.orders && o.id !in s.stops
      && !o.Has(PostOnly) && !o.Has(ReduceOnly) && o.minQty <= 0 && Available(s.c, o) >= o.leaves
    ensures Submit(s, o0).out.reason == Accepted
  {
    hide StateInv, Crosses, Normalize, SubmitTrade, Walk, Available;
    var s1 := s.(c := StampCore(s.c, o0.id));
    StampInv(s, o0);
    SameAvailable(s.c, o0.id, Entering(s, o0));
    TradeExecutes(s1, Entering(s, o0));
  }

  lemma SameAvailable(c: Core, id: OrderId, o: Order)
    ensures Available(StampCore(c, id), o) == Available(c, o)
  {
  }

  // ------------------------------------------------------- passive orders

  /** A plain limit order that stays in the book and meets nobody. */
  ghost predicate Passive(s: State, o: Order) {
    && Continuous(o) && o.typ == Limit && o.tif != IOC && o.price > 0 && o.qty > 0 && o.leaves > 0 && o.minQty <= 0
    && !o.Has(PostOnly) && !o.Has(ReduceOnly) && !Crosses(s.c, o)
    && o.id !in s.c.orders && o.id !in s.stops
  }

  /** In a book without pegs a passive order joins the back of its level, and that is all. */
  lemma PassiveOrderRests(s: State, o0: Order)
    requires StateInv(s) && Admissible(s, o0) && Passive(s, Stamp(o0, s.c.nextSeq)) && s.c.pegged == {}
    ensures Submit(s, o0).s == s.(c := Rest(StampCore(s.c, o0.id), Stamp(o0, s.c.nextSeq)))
  {
    hide StateInv, SubmitSized, Crosses, Normalize, Rest;
    var o := Stamp(o0, s.c.nextSeq);
    var s1 := s.(c := StampCore(s.c, o0.id));
    StampInv(s, o0);
    assert !Crosses(s1.c, o) by { SameCrossing(s.c, o0.id, o); }
    SizedRests(s1, o);
  }

  lemma SameCrossing(c: Core, id: OrderId, o: Order)
    ensures Crosses(StampCore(c, id), o) <==> Crosses(c, o)
  {
  }

  lemma SizedRests(s: State, o: Order)
    requires StateInv(s) && Fresh(s, o) && !Crosses(s.c, o) && !o.Discards() && o.minQty <= 0 && s.c.pegged == {}
    ensures SubmitSized(s, o).s == s.(c := Rest(s.c, o))
  {
    NothingReached(s.c, o);
    TradeInv(s, o);
    RestInv(s.c, o);
    hide Inv, StopsOk, QueueOk, Restable, Available;
    NoPegs(Rest(s.c, o));
  }

  lemma NoPegs(c: Core)
    requires Inv(c) && c.pegged == {}
    ensures RepriceAll(c) == c
  {
    PegsKeyed(c);
    SortedIs(Arrival(c), c.pegged, []);
  }

  // ---------------------------------- all-or-none, fill-or-kill, minimum quantity

  /** An all-or-none order (fill-or-kill included) that is refused, or not fully available, does not
      trade.  Otherwise it trades its full size if and only if the walk over the book leaves nothing of
      it: the availability check counts all-or-none makers it will be too small for and own makers
      that self-trade prevention will keep it from. */
  lemma AllOrNoneFillsIff(s: State, o0: Order)
    requires StateInv(s) && Admissible(s, o0) && Continuous(Normalize(o0)) && Normalize(o0).Has(Aon)
    ensures var o, out := Entering(s, o0), Submit(s, o0).out;
      if out.reason != Accepted || Available(s.c, o) < o.leaves then out.trades == [] && out.filled == 0
      else o.leaves > 0 && (out.filled == o.filled + o.leaves <==> Walk(s.c, o).qty == 0)
  {
    RefusedTradesNothing(s, o0);
    hide StateInv, Submit, Walk, Available;
    if Submit(s, o0).out.reason == Accepted { SubmitExecutes(s, o0); }
  }

  /** If the full size is free (not all-or-none) and nothing in reach is the account's own, the order
      fills completely, whatever all-or-none makers of whatever size are in reach as well. */
  lemma FreeLiquidityFills(c: Core, o: Order)
    requires Inv(c) && NoneOwn(c, o) && 0 <= o.leaves <= Free(c, o)
    ensures Walk(c, o).qty == 0
  {
    FreeSuffices(Match(c, o, [], false));
    MatchLeaves(c, o);
    hide Inv, Walk;
  }

  /** When no all-or-none maker in reach fits either, the walk leaves exactly what is not free. */
  lemma BlockedLiquidityFills(c: Core, o: Order)
    requires Inv(c) && BlockedContra(c, o) && o.leaves >= 0
    ensures Walk(c, o).qty == o.leaves - Min(Free(c, o), o.leaves)
  {
    MatchExecutesFree(Match(c, o, [], false));
    MatchLeaves(c, o);
    hide Inv, Walk;
  }

  /** With no all-or-none or own maker in reach, fill-or-kill is all or nothing. */
  lemma AllOrNothing(s: State, o0: Order)
    requires StateInv(s) && Admissible(s, o0) && Continuous(Normalize(o0)) && Normalize(o0).Has(Aon)
    requires PlainContra(s.c, Entering(s, o0))
    ensures var out := Submit(s, o0).out;
      (out.trades == [] && out.filled == 0) || out.filled == Entering(s, o0).filled + Entering(s, o0).leaves
  {
    var o := Entering(s, o0);
    assert Inv(s.c);
    PlainIsFree(s.c, o);
    hide StateInv, Inv, Submit, Walk, Entering, PlainContra, BlockedContra, Free, Reach;
    AllOrNoneFillsIff(s, o0);
    if Submit(s, o0).out.reason == Accepted && Available(s.c, o) >= o.leaves {
      BlockedLiquidityFills(s.c, o);
    }
  }

  /** An accepted minimum-quantity order that is not an all-or-none order left waiting fills at least
      its floor if and only if the walk takes that much; it always does when no maker in reach is
      all-or-none or the account's own. */
  lemma MinQuantityFillsIff(s: State, o0: Order)
    requires StateInv(s) && Admissible(s, o0) && Continuous(Normalize(o0)) && Submit(s, o0).out.reason == Accepted
    requires var o := Entering(s, o0);
      o.minQty > 0 && o.filled == 0 && !(o.Has(Aon) && Available(s.c, o) < o.leaves)
    ensures var o, out := Entering(s, o0), Submit(s, o0).out;
      && o.leaves > 0 && (out.filled >= o.minQty <==> o.leaves - Walk(s.c, o).qty >= o.minQty)
      && (PlainContra(s.c, o) ==> out.filled >= o.minQty)
  {
    var o := Entering(s, o0);
    assert Inv(s.c);
    hide StateInv, Inv, Submit, Walk, Entering, PlainContra, BlockedContra, Free, Reach;
    SubmitExecutes(s, o0);
    if PlainContra(s.c, o) {
      PlainIsFree(s.c, o);
      BlockedLiquidityFills(s.c, o);
    }
  }
}
