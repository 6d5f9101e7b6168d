/** The order book as its callers see it: the resting book together with the parked stops and the
    auction queues (src/core/order_book.cc, OrderBook).  Every method is proved to compute the
    operation of the same name in module Sessions. */
module OrderBooks {
  import opened OrderTypes
  import opened BookCore
  import opened Matching
  import opened Liquidity
  import opened Ordering
  import opened Pegs
  import opened Auctions
  import opened Crossing
  import opened Sessions
  import opened RestingBooks

  class OrderBook {
    const book: RestingBook
    var stops: map<OrderId, Order>
    var opening: seq<Order>
    var closing: seq<Order>

    /** The whole book as a value. */
    ghost function S(): State
      reads Footprint()
    {
      State(book.c, stops, opening, closing)
    }

    ghost function Footprint(): set<object> {
      {this, book, book.bids, book.asks}
    }

    ghost predicate Valid()
      reads Footprint()
    {
      book.Valid() && StateInv(S())
    }

    constructor (symbol: string, stp: StpPolicy)
      ensures Valid() && S() == EmptyState(symbol, stp)
      ensures fresh(book) && fresh(book.bids) && fresh(book.asks)
    {
      book := new RestingBook(symbol, stp);
      stops, opening, closing := map[], [], [];
    }

    // ----------------------------------------------------------------- stops

    /** Re-anchor every trailing stop at `px` and collect the stops triggered there. */
    method TrailStops(px: int) returns (fire: set<OrderId>)
      modifies this`stops
      ensures stops == TrailAll(old(stops), px) && fire == Firing(stops, px)
    {
      hide Trailed, StopTriggered;
      var left := stops.Keys;
      fire := {};
      while left != {}
        invariant left <= old(stops).Keys == stops.Keys
        invariant forall id ::
          id in stops ==> stops[id] == if id in left then old(stops)[id] else Trailed(old(stops)[id], px)
        invariant fire == set id | id in stops && id !in left && StopTriggered(stops[id], px)
        decreases |left|
      {
        var id :| id in left;
        left := left - {id};
        stops := stops[id := Trailed(stops[id], px)];
        if StopTriggered(stops[id], px) {
          fire := fire + {id};
        }
      }
    }

    /** One triggered stop leaves the parking area and is injected. */
    method FireStop(id: OrderId, trades0: seq<Trade>) returns (trades: seq<Trade>)
      requires Valid() && id in stops
      modifies this`stops, book, book.bids, book.asks
      ensures Valid() && Run(S(), trades) == FireOne(Run(old(S()), trades0), id)
    {
      FireOneInv(Run(S(), trades0), id);
      var o := MarkTriggered(stops[id]);
      MarkRestable(stops[id], book.c.nextSeq, book.c.born);
      AnnounceInv(book.c, o);
      hide Inv, StopsOk, QueueOk, Inject, Restable;
      book.Emit(o);
      var o';
      o', trades := book.Inject(o, trades0);
      stops := stops - {id};
    }

    /** Fire the stops listed in `ids`, in that order. */
    method FireStops(ids: seq<OrderId>, trades0: seq<Trade>) returns (trades: seq<Trade>)
      requires Valid() && NoDup(ids) && forall id :: id in ids ==> id in stops
      modifies this`stops, book, book.bids, book.asks
      ensures Valid() && Run(S(), trades) == FireAll(Run(old(S()), trades0), ids)
    {
      hide StateInv, FireOne;
      ghost var r0 := Run(S(), trades0);
      trades := trades0;
      for i := 0 to |ids|
        invariant Valid() && NoDup(ids[i..]) && (forall id :: id in ids[i..] ==> id in stops)
        invariant FireAll(Run(S(), trades), ids[i..]) == FireAll(r0, ids)
      {
        assert ids[i] == ids[i..][0] && ids[i..][1..] == ids[i + 1..];
        assert ids[i] in ids[i..];
        FireOneInv(Run(S(), trades), ids[i]);
        HeadGone(ids[i..]);
        trades := FireStop(ids[i], trades);
      }
    }

    /** One round of evaluate_stops at the last price. */
    method EvaluateRound(trades0: seq<Trade>) returns (trades: seq<Trade>, fired: bool)
      requires Valid() && book.haveLast
      modifies this`stops, book, book.bids, book.asks
      ensures Valid() && book.c.last.Some? == book.haveLast
      ensures var r := Run(old(S()), trades0);
        var px := old(book.lastPrice);
        Run(S(), trades) == Round(r, px) && (fired <==> Firing(TrailAll(old(stops), px), px) != {})
    {
      hide StateInv, Firing, TrailAll;
      var px := book.lastPrice;
      TrailInv(S(), px);
      var fire := TrailStops(px);
      FiringStops(stops, px);
      FiringTotal(S(), fire);
      var ids := Sort(ByArrival(map id | id in stops :: stops[id].seqNo), fire);
      SortedNoDup(StopArrival(stops), fire, ids);
      SortedIs(StopArrival(stops), fire, ids);
      trades := FireStops(ids, trades0);
      fired := fire != {};
    }

    /** Fire every stop whose trigger is met, round by round, until none is (evaluate_stops). */
    method EvaluateStops(trades0: seq<Trade>) returns (trades: seq<Trade>)
      requires Valid()
      modifies this`stops, book, book.bids, book.asks
      ensures Valid() && Run(S(), trades) == Cascade(Run(old(S()), trades0))
    {
      hide StateInv, Round, Firing, TrailAll;
      ghost var r0 := Run(S(), trades0);
      trades := trades0;
      while book.haveLast
        invariant Valid() && Cascade(Run(S(), trades)) == Cascade(r0)
        decreases |stops|
      {
        LastIs(book);
        ghost var r := Run(S(), trades);
        RoundInv(r, book.lastPrice);
        var fired;
        trades, fired := EvaluateRound(trades);
        if !fired {
          return;
        }
      }
      LastIs(book);
    }

    // ---------------------------------------------------------------- submit

    /** After matching: cascade the stops if anything traded, then reprice the pegs. */
    method Settle(trades0: seq<Trade>) returns (trades: seq<Trade>)
      requires Valid()
      modifies this`stops, book, book.bids, book.asks
      ensures Valid()
      ensures var r := if trades0 != [] then Cascade(Run(old(S()), trades0)) else Run(old(S()), trades0);
        Inv(r.s.c) && S() == r.s.(c := RepriceAll(r.s.c)) && trades == r.trades
    {
      hide StateInv, Cascade, RepriceAll;
      trades := trades0;
      if trades0 != [] {
        trades := EvaluateStops(trades0);
      }
      RepriceStateInv(S());
      book.RepricePegs();
    }

    /** Match, rest the remainder, cascade, reprice: the last part of submit. */
    method TradeOrder(o0: Order) returns (out: Outcome)
      requires Valid() && Fresh(S(), o0)
      modifies this`stops, book, book.bids, book.asks
      ensures Valid() && Result(S(), out) == SubmitTrade(old(S()), o0)
    {
      TradeInv(S(), o0);
      OrdersIs(book);
      hide StateInv, MatchAll, Restable, Cascade, RepriceAll, Rest, RestingBook.Valid;
      var o, trades, rests := book.MatchAndRest(o0);
      CascadeInv(Run(S(), trades));
      trades := Settle(trades);
      out := Outcome(Accepted, trades, o.filled, rests, false, false, if rests then Some(o) else None);
    }

    /** An all-or-none order that cannot fill now rests as a maker. */
    method RestAon(o: Order) returns (out: Outcome)
      requires Valid() && Fresh(S(), o)
      modifies book, book.bids, book.asks
      ensures Valid() && Inv(Rest(old(S()).c, o))
      ensures S() == old(S()).(c := RepriceAll(Rest(old(S()).c, o)))
      ensures out == Outcome(Accepted, [], 0, true, false, false, Some(o))
    {
      RestStateInv(S(), o);
      OrdersIs(book);
      hide StateInv, RepriceAll, Rest, Restable, RestingBook.Valid;
      book.RestOrder(o);
      RepriceStateInv(S());
      book.RepricePegs();
      out := Outcome(Accepted, [], 0, true, false, false, Some(o));
    }

    /** All-or-none and minimum-quantity screening. */
    method SizeOrder(o: Order) returns (out: Outcome)
      requires Valid() && Fresh(S(), o)
      modifies this`stops, book, book.bids, book.asks
      ensures Valid() && Result(S(), out) == SubmitSized(old(S()), o)
    {
      hide StateInv, SubmitTrade, RepriceAll, Rest, Available, Fresh, RestingBook.Valid;
      if o.Has(Aon) {
        var avail := book.AvailableFill(o);
        if avail < o.leaves {
          if o.tif == IOC || o.typ == Market {
            return Rejected(AonNotFillable);
          }
          out := RestAon(o);
          return;
        }
      }
      if o.minQty > 0 {
        if o.minQty > o.qty {
          return Rejected(MinQtyExceedsQty);
        }
        var avail := book.AvailableFill(o);
        if avail < o.minQty {
          return Rejected(MinQtyNotAvailable);
        }
      }
      out := TradeOrder(o);
    }

    /** Post-only and reduce-only screening. */
    method ScreenOrder(o0: Order) returns (out: Outcome)
      requires Valid() && Fresh(S(), o0)
      modifies this`stops, book, book.bids, book.asks
      ensures Valid() && Result(S(), out) == SubmitPlain(old(S()), o0)
    {
      hide StateInv, SubmitSized;
      if o0.Has(PostOnly) {
        var crossing := book.WouldCross(o0);
        if crossing {
          return Rejected(PostOnlyWouldCross);
        }
      }
      var o := o0;
      if o.Has(ReduceOnly) {
        if o.client == 0 {
          return Rejected(ReduceOnlyNeedsAccount);
        }
        var cap := book.ReduceOnlyCapacity(o);
        if cap <= 0 {
          return Rejected(NothingToReduce);
        }
        if o.leaves > cap {
          o := o.(leaves := cap, qty := cap);
        }
      }
      out := SizeOrder(o);
    }

    /** A pegged order rests at its peg price without matching. */
    method PegOrder(o0: Order) returns (out: Outcome)
      requires Valid() && Fresh(S(), o0) && o0.peg.Some?
      modifies book, book.bids, book.asks
      ensures Valid() && Result(S(), out) == SubmitPeg(old(S()), o0)
    {
      SubmitPegInv(S(), o0);
      OrdersIs(book);
      hide StateInv, Rest, PegPrice, RestingBook.Valid;
      var price := book.ComputePegPrice(o0);
      if price.None? {
        return Rejected(NoPegReference);
      }
      var o := o0.(typ := Limit, price := price.value);
      book.RestPegged(o);
      out := Outcome(Accepted, [], 0, true, false, false, Some(o));
    }

    /** A stop parks, or fires at once if the last price is already past it. */
    method StopOrder(o0: Order) returns (out: Outcome)
      requires Valid() && Fresh(S(), o0) && o0.trigger.Some?
      modifies this`stops, book, book.bids, book.asks
      ensures Valid() && Result(S(), out) == SubmitStop(old(S()), o0)
    {
      SubmitStopInv(S(), o0);
      OrdersIs(book);
      LastIs(book);
      var o := Armed(o0, if book.haveLast then Some(book.lastPrice) else None);
      if book.haveLast && StopTriggered(o, book.lastPrice) {
        o := MarkTriggered(o);
        StopInv(S(), o);
        hide StateInv, Sessions.Inject, Cascade, RestingBook.Valid;
        var trades;
        o, trades := book.Inject(o, []);
        var rested := o.leaves > 0 && o.typ != Market && o.tif != IOC;
        var filled := o.filled;
        trades := EvaluateStops(trades);
        out := Outcome(Accepted, trades, filled, rested, false, false, None);
      } else {
        stops := stops[o.id := o];
        out := Outcome(Accepted, [], 0, false, true, false, None);
      }
    }

    /** Dispatch a stamped order to its queue, the stops, the pegs or continuous trading. */
    method RouteOrder(o: Order) returns (out: Outcome)
      requires Valid() && Fresh(S(), o)
      modifies this, book, book.bids, book.asks
      ensures Valid() && Result(S(), out) == Routed(old(S()), o)
    {
      QueueInv(S(), o);
      hide StateInv, Fresh, SubmitStop, SubmitPeg, SubmitPlain, RestingBook.Valid;
      if o.IsOpening() {
        opening := opening + [o];
        return Outcome(Accepted, [], 0, false, false, true, None);
      }
      if o.IsClosing() {
        closing := closing + [o];
        return Outcome(Accepted, [], 0, false, false, true, None);
      }
      if o.trigger.Some? && !o.trigger.value.triggered {
        out := StopOrder(o);
      } else if o.peg.Some? {
        out := PegOrder(o);
      } else {
        out := ScreenOrder(o);
      }
    }

    /** Enter an order into the book (submit). */
    method Submit(order: Order) returns (out: Outcome)
      requires Valid() && Admissible(S(), order)
      modifies this, book, book.bids, book.asks
      ensures Valid() && Result(S(), out) == Sessions.Submit(old(S()), order)
    {
      StampInv(S(), order);
      OrdersIs(book);
      hide Inv, StopsOk, QueueOk, Fresh, Routed, RestingBook.Valid, Normalize;
      var n := book.TakeSeq(order.id);
      var o := Normalize(order).(seqNo := n, rank := n);
      NormalizeId(order);
      OrdersIs(book);
      if o.qty <= 0 || o.leaves <= 0 {
        return Rejected(NonPositiveQuantity);
      }
      if o.typ == Limit && o.price <= 0 && o.peg.None? {
        return Rejected(NonPositivePrice);
      }
      if o.id in book.orders || o.id in stops {
        return Rejected(DuplicateId);
      }
      out := RouteOrder(o);
    }

    // -------------------------------------------------------- cancel, expire

    /** Take `id` out of an auction queue, if it is there. */
    static method RemoveQueued(queue: seq<Order>, id: OrderId) returns (found: bool, rest: seq<Order>)
      ensures found == Queued(queue, id)
      ensures rest == if found then Unqueue(queue, id) else queue
    {
      for i := 0 to |queue|
        invariant forall j :: 0 <= j < i ==> queue[j].id != id
      {
        if queue[i].id == id {
          UnqueueIs(queue, id, i);
          return true, queue[..i] + queue[i + 1..];
        }
      }
      return false, queue;
    }

    /** Take a resting order down; the reference prices may move unless it was pegged. */
    method TakeDownOrder(id: OrderId)
      requires Valid() && id in book.orders
      modifies book, book.bids, book.asks
      ensures book.Valid() && id in old(book.c).orders && book.c == TakeDown(old(book.c), id)
    {
      hide StateInv, Inv, Withdraw, RepriceAll;
      OrdersIs(book);
      var wasPegged := id in book.pegged;
      book.Erase(id);
      if !wasPegged {
        book.RepricePegs();
      }
    }

    /** Cancel a parked stop, a queued auction order or a resting order (cancel). */
    method Cancel(id: OrderId) returns (ok: bool)
      requires Valid()
      modifies this, book, book.bids, book.asks
      ensures Valid() && (S(), ok) == Sessions.Cancel(old(S()), id)
    {
      hide StateInv, TakeDown, RestingBook.Valid, Unqueue, Queued;
      CancelInv(S(), id);
      OrdersIs(book);
      if id in stops {
        stops := stops - {id};
        return true;
      }
      var found, rest := RemoveQueued(opening, id);
      if found {
        opening := rest;
        return true;
      }
      found, rest := RemoveQueued(closing, id);
      if found {
        closing := rest;
        return true;
      }
      if id !in book.orders {
        return false;
      }
      TakeDownOrder(id);
      ok := true;
    }

    /** Cancel the listed orders, one after the other. */
    method CancelListed(ids: seq<OrderId>)
      requires Valid()
      modifies this, book, book.bids, book.asks
      ensures Valid() && S() == CancelAll(old(S()), ids)
    {
      hide StateInv, RestingBook.Valid, Sessions.Cancel;
      ghost var s0 := S();
      for i := 0 to |ids|
        invariant Valid() && CancelAll(S(), ids[i..]) == CancelAll(s0, ids)
      {
        assert ids[i] == ids[i..][0] && ids[i..][1..] == ids[i + 1..];
        CancelInv(S(), ids[i]);
        var ok := Cancel(ids[i]);
      }
    }

    /** Cancel every resting order whose expiry has passed, in ascending id order (expire). */
    method Expire(now: int) returns (ids: seq<OrderId>)
      requires Valid()
      modifies this, book, book.bids, book.asks
      ensures Valid() && S() == Sessions.Expire(old(S()), now)
      ensures forall id :: id in ids <==> id in Expired(old(S().c), now)
    {
      hide StateInv, RestingBook.Valid, CancelAll, TotalOn;
      OrdersIs(book);
      var expired := set id | id in book.orders && 0 < book.orders[id].o.expiry <= now;
      ByIdTotal(expired);
      ids := Sort(ByArrival(map id | id in expired :: id), expired);
      SortedIs(ById(expired), expired, ids);
      CancelListed(ids);
    }

    // --------------------------------------------------------------- auctions

    /** One auction execution of `x` between buy `b` and sell `s`. */
    method CrossPair(w: Pool, trades: seq<Trade>, b: OrderId, s: OrderId, p: int, x: int)
      returns (w': Pool, trades': seq<Trade>)
      requires book.Valid() && b in w && s in w
      modifies book`positions, book`events, book`c
      ensures book.Valid() && Cross(book.c, w', trades') == CrossOne(Cross(old(book.c), w, trades), b, s, p, x)
    {
      hide RestingBook.Valid;
      var t := Trade(b, s, Buy, p, x);
      trades' := trades + [t];
      book.PrintCross(w[b].o, w[s].o, t);
      w' := Take(Take(w, b, x), s, x);
    }

    /** Execute at price `p`, walking both sorted sides together, until `volume` has traded. */
    method CrossOrders(w0: Pool, buys: seq<OrderId>, sells: seq<OrderId>, p: int, volume: int)
      returns (w: Pool, trades: seq<Trade>)
      requires book.Valid() && OneSided(w0, buys, Buy) && OneSided(w0, sells, Sell)
      modifies book`positions, book`events, book`c
      ensures book.Valid()
      ensures InPool(w0, buys) && InPool(w0, sells)
      ensures Cross(book.c, w, trades) == CrossLoop(Cross(old(book.c), w0, []), buys, sells, p, volume)
    {
      hide RestingBook.Valid, OneSided, CrossOne, CrossLoop;
      SidedIn(w0, buys, Buy);
      SidedIn(w0, sells, Sell);
      w, trades := w0, [];
      var left, bi, si := volume, 0, 0;
      while left > 0 && bi < |buys| && si < |sells|
        invariant book.Valid() && 0 <= bi <= |buys| && 0 <= si <= |sells|
        invariant OneSided(w, buys, Buy) && OneSided(w, sells, Sell)
        invariant InPool(w, buys) && InPool(w, sells)
        invariant CrossLoop(Cross(book.c, w, trades), buys[bi..], sells[si..], p, left)
               == CrossLoop(Cross(old(book.c), w0, []), buys, sells, p, volume)
        decreases |buys| - bi + |sells| - si, left
      {
        var b, s := w[buys[bi]].o, w[sells[si]].o;
        if !b.TradesAt(p) || !s.TradesAt(p) {
          break;
        }
        var x := Min(Min(b.leaves, s.leaves), left);
        CrossStep(Cross(book.c, w, trades), buys, sells, p, left, bi, si);
        w, trades := CrossPair(w, trades, buys[bi], sells[si], p, x);
        left := left - x;
        if w[buys[bi]].o.leaves == 0 {
          bi := bi + 1;
        }
        if w[sells[si]].o.leaves == 0 {
          si := si + 1;
        }
      }
      CrossStop(Cross(book.c, w, trades), buys[bi..], sells[si..], p, left);
    }

    /** The uniform-price cross of a queue: clearing price, priority order, allocation. */
    method CrossQueue(queue: seq<Order>) returns (w: Pool, trades: seq<Trade>)
      requires book.Valid() && DistinctIds(queue) && QueuePool(PoolOf(queue))
      modifies book`positions, book`events, book`haveLast, book`lastPrice, book`c
      ensures book.Valid() && Cross(book.c, w, trades) == CrossPool(old(book.c), PoolOf(queue))
    {
      hide RestingBook.Valid, CrossLoop, ClearingPrice, Volume, DistinctIds, QueuePool, PoolOf;
      LastIs(book);
      w, trades := PoolOf(queue), [];
      var best := FindClearing(queue, if book.haveLast then Some(book.lastPrice) else None);
      if best.Some? {
        var p := best.value.price;
        var buys := SortSide(w, Buy);
        var sells := SortSide(w, Sell);
        w, trades := CrossOrders(w, buys, sells, p, best.value.volume);
        book.SetLast(p);
      }
    }

    /** One side of the auction in priority order. */
    static method SortSide(w: Pool, side: Side) returns (ids: seq<OrderId>)
      requires QueuePool(w)
      ensures ids == Ranked(w, side) && OneSided(w, ids, side)
    {
      SideTotal(w, side);
      ids := Sort(ByPriority(w), set id | id in w && w[id].o.side == side);
      SortedIs(ByPriority(w), SideIds(w, side), ids);
    }

    /** Unfilled limit remainders of the queue enter continuous trading, in queue order. */
    method EnterRemainders(queue: seq<Order>, w: Pool, trades0: seq<Trade>) returns (trades: seq<Trade>)
      requires book.Valid() && RemaindersOk(book.c, queue, w)
      modifies book, book.bids, book.asks
      ensures book.Valid() && Inv(old(book.c))
      ensures Cross(book.c, w, trades) == InjectRemainders(old(book.c), queue, w, trades0)
    {
      hide RestingBook.Valid, RemaindersOk, Sessions.Inject, Inv;
      ghost var c0 := book.c;
      InvIs(book);
      trades := trades0;
      for i := 0 to |queue|
        invariant book.Valid() && Inv(book.c) && RemaindersOk(book.c, queue[i..], w)
        invariant InjectRemainders(book.c, queue[i..], w, trades) == InjectRemainders(c0, queue, w, trades0)
      {
        assert queue[i] == queue[i..][0] && queue[i..][1..] == queue[i + 1..];
        RemaindersIn(book.c, queue[i..], w);
        var o := w[queue[i].id].o;
        if o.leaves > 0 && (o.Has(Loo) || o.Has(Loc)) {
          RemainderStep(book.c, queue[i..], w, trades);
          RemainderRestable(book.c, queue[i..], w);
          OrdersIs(book);
          var o';
          o', trades := book.Inject(o.(flags := o.flags - AUCTION_MASK), trades);
        } else {
          RemaindersTail(book.c, queue[i..], w);
        }
      }
    }

    /** Cross a queue and let its remainders trade on. */
    method CrossOut(queue: seq<Order>, ghost parked: map<OrderId, Order>) returns (trades: seq<Trade>)
      requires book.Valid() && QueueOk(queue, book.c, parked)
      modifies book, book.bids, book.asks
      ensures book.Valid() && Inv(old(book.c))
      ensures var y := CrossAndEnter(old(book.c), queue, parked); book.c == y.c && trades == y.trades
    {
      InvIs(book);
      CrossRemainders(book.c, queue, parked);
      QueueDistinct(queue, book.c, parked);
      hide CrossPool, QueuePool, PoolOf, RemaindersOk, InjectRemainders, Inv;
      hide RestingBook.Valid, DistinctIds, QueueOk, Within;
      var w;
      w, trades := CrossQueue(queue);
      trades := EnterRemainders(queue, w, trades);
    }

    /** Cross one of the two queues and empty it. */
    method CrossAndClear(open: bool) returns (trades: seq<Trade>)
      requires Valid()
      modifies this, book, book.bids, book.asks
      ensures Valid() && Run(S(), trades) == Crossed(old(S()), open)
    {
      CrossedInv(S(), open);
      hide CrossAndEnter, Inv, RestingBook.Valid, QueueOk, StopsOk;
      trades := CrossOut(if open then opening else closing, stops);
      if open {
        opening := [];
      } else {
        closing := [];
      }
    }

    /** Run the opening or the closing auction (run_opening_auction, run_closing_auction). */
    method RunAuction(open: bool) returns (trades: seq<Trade>)
      requires Valid()
      modifies this, book, book.bids, book.asks
      ensures Valid() && Run(S(), trades) == Sessions.RunAuction(old(S()), open)
    {
      hide StateInv, Crossed, Inv, RestingBook.Valid, Cascade, RepriceAll;
      var queue := if open then opening else closing;
      if queue == [] {
        return [];
      }
      trades := CrossAndClear(open);
      if trades != [] {
        trades := Settle(trades);
      }
    }

    // ------------------------------------------------------ bookkeeping, queries

    method SeedPosition(client: ClientId, net: int)
      requires Valid()
      modifies book
      ensures Valid() && S() == Sessions.Apply(old(S()), OpSeed(client, net))
    {
      ApplyInv(S(), OpSeed(client, net));
      hide StateInv, RestingBook.Valid;
      book.SeedPosition(client, net);
    }

    method SetNextSeq(next: SeqNo)
      requires Valid()
      modifies book
      ensures Valid() && S() == Sessions.Apply(old(S()), OpSetSeq(next))
    {
      ApplyInv(S(), OpSetSeq(next));
      hide StateInv, RestingBook.Valid;
      book.SetNextSeq(next);
    }

    method TakeRequeued() returns (moved: seq<Order>)
      requires Valid()
      modifies book
      ensures Valid() && S() == Sessions.Apply(old(S()), OpTakeRequeued) && moved == old(S()).c.requeued
    {
      ApplyInv(S(), OpTakeRequeued);
      hide StateInv, RestingBook.Valid;
      moved := book.TakeRequeued();
    }

    /** Any operation: an object's life is a run of Sessions.Apply. */
    method Perform(op: Op) returns (r: Option<Outcome>)
      requires Valid() && Legal(S(), op)
      modifies this, book, book.bids, book.asks
      ensures Valid() && S() == Sessions.Apply(old(S()), op)
      ensures r == OutcomeOf(old(S()), op)
    {
      hide StateInv, RestingBook.Valid, Sessions.Submit, Sessions.Cancel, Sessions.Expire, Sessions.RunAuction;
      r := None;
      match op
      case OpSubmit(o) => var out := Submit(o); r := Some(out);
      case OpCancel(id) => var ok := Cancel(id);
      case OpExpire(now) => var ids := Expire(now);
      case OpAuction(open) => var trades := RunAuction(open);
      case OpSeed(client, net) => SeedPosition(client, net);
      case OpSetSeq(next) => SetNextSeq(next);
      case OpTakeRequeued => var moved := TakeRequeued();
    }

    /** The matchable and the displayed quantity at a price. */
    method QuantityAt(side: Side, price: int) returns (total: int, displayed: int)
      requires Valid()
      ensures total == Total(book.c, Slot(side, price)) && displayed == Disp(book.c.disp, Slot(side, price))
    {
      hide StateInv, Inv;
      var l := book.LadderOf(side).At(price);
      total, displayed := l.total, l.displayed;
    }

    /** The best populated price of a side. */
    method BestPrice(side: Side) returns (r: Option<int>)
      requires Valid()
      modifies book.bids, book.asks
      ensures Valid() && S() == old(S())
      ensures r.None? ==> forall p :: Fifo(book.c.q, Slot(side, p)) == []
      ensures r.Some? ==>
        && Fifo(book.c.q, Slot(side, r.value)) != []
        && forall p :: Fifo(book.c.q, Slot(side, p)) != [] ==> !side.Better(p, r.value)
    {
      hide StateInv, Inv;
      r := book.LadderOf(side).Best();
      InvIs(book);
      forall p ensures Fifo(book.c.q, Slot(side, p)) != [] <==> book.LadderOf(side).At(p).total > 0 {
        TotalPositive(book.c, Slot(side, p));
      }
    }
  }

  lemma RemainderRestable(c: Core, queue: seq<Order>, w: Pool)
    requires RemaindersOk(c, queue, w) && queue != [] && queue[0].id in w && w[queue[0].id].o.leaves > 0
    ensures var o := ClearFlags(w[queue[0].id].o); o.id !in c.orders && Restable(o, c.nextSeq, c.born)
  {
    assert queue[0] in queue;
  }

  lemma CrossedInv(s: State, open: bool)
    requires StateInv(s)
    ensures StateInv(Crossed(s, open).s)
  {
    hide StateInv, InjectRemainders, CrossPool, QueuePool, RemaindersOk, Inv, PoolOf;
    AuctionStateInv(s, open);
  }

  lemma QueueDistinct(queue: seq<Order>, c: Core, stops: map<OrderId, Order>)
    requires QueueOk(queue, c, stops)
    ensures DistinctIds(queue)
  {
  }

  lemma InvIs(b: RestingBook)
    requires b.Valid()
    ensures Inv(b.c)
  {
  }

  /** Every listed order is in the pool, on side `side`. */
  ghost predicate OneSided(w: Pool, ids: seq<OrderId>, side: Side) {
    forall a :: a in ids ==> a in w && w[a].o.side == side
  }

  lemma SidedIn(w: Pool, ids: seq<OrderId>, side: Side)
    requires OneSided(w, ids, side)
    ensures InPool(w, ids)
  {
  }

  lemma CrossSided(cr: Cross, ids: seq<OrderId>, side: Side, b: OrderId, s: OrderId, p: int, x: int)
    requires OneSided(cr.w, ids, side) && b in cr.w && s in cr.w
    ensures var w := CrossOne(cr, b, s, p, x).w; OneSided(w, ids, side) && InPool(w, ids)
  {
  }

  lemma TailAt(ids: seq<OrderId>, i: nat)
    requires i < |ids|
    ensures ids[i..][0] == ids[i] && ids[i..][1..] == ids[i + 1..]
  {
  }

  lemma CrossLeaves(cr: Cross, b: OrderId, s: OrderId, p: int, x: int)
    requires b in cr.w && s in cr.w && b != s
    ensures var w := CrossOne(cr, b, s, p, x).w;
      && b in w && w[b].o.leaves == cr.w[b].o.leaves - x && s in w && w[s].o.leaves == cr.w[s].o.leaves - x
  {
  }

  /** One iteration of the auction loop, in terms of positions in the two sorted lists. */
  lemma CrossStep(cr: Cross, buys: seq<OrderId>, sells: seq<OrderId>, p: int, left: int, bi: nat, si: nat)
    requires OneSided(cr.w, buys, Buy) && OneSided(cr.w, sells, Sell) && bi < |buys| && si < |sells| && left > 0
    requires buys[bi] in cr.w && sells[si] in cr.w
    requires cr.w[buys[bi]].o.TradesAt(p) && cr.w[sells[si]].o.TradesAt(p)
    requires InPool(cr.w, buys[bi..]) && InPool(cr.w, sells[si..])
    ensures var x := Min(Min(cr.w[buys[bi]].o.leaves, cr.w[sells[si]].o.leaves), left);
      var cr1 := CrossOne(cr, buys[bi], sells[si], p, x);
      && OneSided(cr1.w, buys, Buy) && OneSided(cr1.w, sells, Sell)
      && InPool(cr1.w, buys) && InPool(cr1.w, sells)
      && var bi' := if cr1.w[buys[bi]].o.leaves == 0 then bi + 1 else bi;
      var si' := if cr1.w[sells[si]].o.leaves == 0 then si + 1 else si;
      && (bi' + si' > bi + si || x == left)
      && CrossLoop(cr, buys[bi..], sells[si..], p, left) == CrossLoop(cr1, buys[bi'..], sells[si'..], p, left - x)
  {
    var b, s := buys[bi], sells[si];
    assert b in buys && s in sells;
    var x := Min(Min(cr.w[b].o.leaves, cr.w[s].o.leaves), left);
    CrossSided(cr, buys, Buy, b, s, p, x);
    CrossSided(cr, sells, Sell, b, s, p, x);
    hide CrossOne;
    CrossLeaves(cr, b, s, p, x);
    TailAt(buys, bi);
    TailAt(sells, si);
  }

  lemma CrossStop(cr: Cross, buys: seq<OrderId>, sells: seq<OrderId>, p: int, left: int)
    requires InPool(cr.w, buys) && InPool(cr.w, sells)
    requires left <= 0 || buys == [] || sells == [] || !cr.w[buys[0]].o.TradesAt(p) || !cr.w[sells[0]].o.TradesAt(p)
    ensures CrossLoop(cr, buys, sells, p, left) == cr
  {
  }

  lemma {:induction false} UnqueueIs(queue: seq<Order>, id: OrderId, i: nat)
    requires i < |queue| && queue[i].id == id && forall j :: 0 <= j < i ==> queue[j].id != id
    ensures Unqueue(queue, id) == queue[..i] + queue[i + 1..]
    decreases i
  {
    if i > 0 {
      UnqueueIs(queue[1..], id, i - 1);
      assert queue[1..][..i - 1] == queue[1..i];
      assert queue[1..][i..] == queue[i + 1..];
    }
  }

  lemma NormalizeId(o: Order)
    ensures Normalize(o).id == o.id
  {
  }

  lemma FiringStops(stops: map<OrderId, Order>, px: int)
    ensures Firing(stops, px) <= stops.Keys
  {
  }

  lemma OrdersIs(b: RestingBook)
    requires b.Valid()
    ensures b.orders == b.c.orders
  {
  }

  lemma LastIs(b: RestingBook)
    requires b.Valid()
    ensures b.c.last == if b.haveLast then Some(b.lastPrice) else None
  {
  }
}
