/** The whole order book as a value, and every operation on it: submit with all its order kinds,
    cancel, expire, the session auctions (src/core/order_book.cc). */
module Sessions {
  import opened OrderTypes
  import opened BookSums
  import opened BookCore
  import opened Matching
  import opened Liquidity
  import opened Ordering
  import opened Pegs
  import opened Auctions
  import opened Crossing

  datatype State = State(c: Core, stops: map<OrderId, Order>, opening: seq<Order>, closing: seq<Order>)

  function EmptyState(symbol: string, stp: StpPolicy): (s: State)
    ensures StateInv(s)
  {
    State(EmptyCore(symbol, stp), map[], [], [])
  }

  // ----------------------------------------------------------------- stops

  /** A buy stop fires as the price rises to it, a sell stop as it falls to it. */
  predicate StopTriggered(o: Order, px: int) {
    o.trigger.Some? && if o.side == Buy then px >= o.trigger.value.stopPrice else px <= o.trigger.value.stopPrice
  }

  predicate Trailing(o: Order) {
    o.trigger.Some? && o.trigger.value.kind != Stop
  }

  /** A trailing stop anchored at `ref`. */
  function Anchored(o: Order, ref: int): Order
    requires o.trigger.Some?
  {
    o.(trigger := Some(o.trigger.value.(
        highWater := ref,
        stopPrice := if o.side == Sell then ref - o.trigger.value.trailBy else ref + o.trigger.value.trailBy)))
  }

  /** arm_stop. */
  function Armed(o: Order, last: Option<int>): Order {
    if !Trailing(o) then o
    else Anchored(o, if last.Some? then last.value else o.trigger.value.stopPrice)
  }

  /** update_trail: re-anchor after a favourable move. */
  function Trailed(o: Order, px: int): Order {
    if !Trailing(o) then o
    else if (if o.side == Sell then px > o.trigger.value.highWater else px < o.trigger.value.highWater)
    then Anchored(o, px)
    else o
  }

  function MarkTriggered(o: Order): Order {
    if o.trigger.Some? then o.(trigger := Some(o.trigger.value.(triggered := true))) else o
  }

  // ------------------------------------------------------------- invariant

  ghost predicate StopsOk(stops: map<OrderId, Order>, c: Core) {
    forall id :: id in stops ==>
      stops[id].id == id && id !in c.orders && stops[id].trigger.Some? && Restable(stops[id], c.nextSeq, c.born)
  }

  ghost predicate QueueOk(queue: seq<Order>, c: Core, stops: map<OrderId, Order>) {
    && (forall o :: o in queue ==> o.id !in c.orders && o.id !in stops && Restable(o, c.nextSeq, c.born))
    && DistinctIds(queue)
  }

  /** The invariant of the whole book: the resting book is well formed, and every parked or queued
      order is live, correctly stamped and nowhere else. */
  ghost predicate StateInv(s: State) {
    && Inv(s.c)
    && StopsOk(s.stops, s.c)
    && QueueOk(s.opening, s.c, s.stops)
    && QueueOk(s.closing, s.c, s.stops)
    && (forall a, b :: a in s.opening && b in s.closing ==> a.id != b.id)
  }

  /** `c'` has no resting id beyond those of `c` and `extra`; stamps remain valid. */
  ghost predicate Within(c: Core, c': Core, extra: set<OrderId>) {
    c'.orders.Keys <= c.orders.Keys + extra && c'.born == c.born && c.nextSeq <= c'.nextSeq
  }

  lemma StopsStay(stops: map<OrderId, Order>, c: Core, c': Core, extra: set<OrderId>)
    requires StopsOk(stops, c) && Within(c, c', extra) && extra !! stops.Keys
    ensures StopsOk(stops, c')
  {
  }

  lemma QueueStays(queue: seq<Order>, c: Core, stops: map<OrderId, Order>, c': Core, stops': map<OrderId, Order>,
                   extra: set<OrderId>)
    requires QueueOk(queue, c, stops) && Within(c, c', extra) && forall o :: o in queue ==> o.id !in extra
    requires stops'.Keys <= stops.Keys
    ensures QueueOk(queue, c', stops')
  {
  }

  // ---------------------------------------------------------------- inject

  /** Match an activated order and rest its remainder; a self-trade halt does not stop it resting. */
  ghost function Inject(c: Core, o: Order, trades: seq<Trade>): Match
    requires Inv(c)
  {
    var m := MatchAll(Match(c, o, trades, false));
    if m.o.leaves > 0 && !m.o.Discards() then m.(c := Rest(m.c, m.o)) else m
  }

  lemma InjectInv(c: Core, o: Order, trades: seq<Trade>)
    requires Inv(c) && o.id !in c.orders && Restable(o, c.nextSeq, c.born)
    ensures var m := Inject(c, o, trades);
      Inv(m.c) && Within(c, m.c, {o.id}) && trades <= m.trades && SameTerms(o, m.o)
  {
    hide Inv;
    MatchAllInv(Match(c, o, trades, false));
    MatchAllEvolves(Match(c, o, trades, false));
    var m := MatchAll(Match(c, o, trades, false));
    if m.o.leaves > 0 && !m.o.Discards() {
      RestInv(m.c, m.o);
    }
  }

  // --------------------------------------------------------------- cascade

  /** The book and the executions accumulated so far. */
  datatype Run = Run(s: State, trades: seq<Trade>)

  function Announce(c: Core, o: Order): Core {
    c.(events := c.events + [OrderEvent(c.symbol, EvTrigger, o, o.leaves, 0)])
  }

  /** One stop fires: it leaves the parking area and is injected. */
  ghost function FireOne(r: Run, id: OrderId): Run
    requires Inv(r.s.c) && id in r.s.stops
  {
    var o := MarkTriggered(r.s.stops[id]);
    AnnounceInv(r.s.c, o);
    var m := Inject(Announce(r.s.c, o), o, r.trades);
    Run(r.s.(c := m.c, stops := r.s.stops - {id}), m.trades)
  }

  lemma AnnounceInv(c: Core, o: Order)
    requires Inv(c)
    ensures Inv(Announce(c, o)) && Within(c, Announce(c, o), {})
  {
  }

  lemma FireOneInv(r: Run, id: OrderId)
    requires StateInv(r.s) && id in r.s.stops
    ensures StateInv(FireOne(r, id).s) && r.trades <= FireOne(r, id).trades
    ensures FireOne(r, id).s.stops == r.s.stops - {id}
  {
    hide Inv, Restable;
    var o := MarkTriggered(r.s.stops[id]);
    AnnounceInv(r.s.c, o);
    MarkRestable(r.s.stops[id], r.s.c.nextSeq, r.s.c.born);
    InjectInv(Announce(r.s.c, o), o, r.trades);
    hide Announce, Inject;
    var c' := FireOne(r, id).s.c;
    StopsStay(r.s.stops - {id}, r.s.c, c', {id});
    QueueStays(r.s.opening, r.s.c, r.s.stops, c', r.s.stops - {id}, {id});
    QueueStays(r.s.closing, r.s.c, r.s.stops, c', r.s.stops - {id}, {id});
  }

  lemma MarkRestable(o: Order, nextSeq: SeqNo, born: map<SeqNo, OrderId>)
    requires Restable(o, nextSeq, born)
    ensures Restable(MarkTriggered(o), nextSeq, born) && MarkTriggered(o).id == o.id
  {
  }

  ghost function FireAll(r: Run, ids: seq<OrderId>): Run
    requires StateInv(r.s) && NoDup(ids) && forall id :: id in ids ==> id in r.s.stops
    decreases |ids|
  {
    if ids == [] then r
    else
      FireOneInv(r, ids[0]);
      HeadGone(ids);
      FireAll(FireOne(r, ids[0]), ids[1..])
  }

  lemma {:induction false} FireAllInv(r: Run, ids: seq<OrderId>)
    requires StateInv(r.s) && NoDup(ids) && forall id :: id in ids ==> id in r.s.stops
    ensures var r' := FireAll(r, ids);
      && StateInv(r'.s) && r.trades <= r'.trades
      && r'.s.stops.Keys <= r.s.stops.Keys && (forall id :: id in r'.s.stops ==> r'.s.stops[id] == r.s.stops[id])
      && |r'.s.stops| == |r.s.stops| - |ids|
    decreases |ids|
  {
    hide Inv, StopsOk, QueueOk, FireOne;
    if ids != [] {
      FireOneInv(r, ids[0]);
      HeadGone(ids);
      FireAllInv(FireOne(r, ids[0]), ids[1..]);
      assert (r.s.stops - {ids[0]}).Keys == r.s.stops.Keys - {ids[0]};
    }
  }

  ghost function TrailAll(stops: map<OrderId, Order>, px: int): map<OrderId, Order> {
    map id | id in stops :: Trailed(stops[id], px)
  }

  ghost function Firing(stops: map<OrderId, Order>, px: int): set<OrderId> {
    set id | id in stops && StopTriggered(stops[id], px)
  }

  /** Parked stops by arrival. */
  ghost function StopArrival(stops: map<OrderId, Order>): Rule {
    ByArrival(map id | id in stops :: stops[id].seqNo)
  }

  lemma FiringTotal(s: State, ids: set<OrderId>)
    requires StateInv(s) && ids <= s.stops.Keys
    ensures TotalOn(StopArrival(s.stops), ids)
  {
    var key := StopArrival(s.stops).key;
    forall a, b | a in ids && b in ids && a != b ensures key[a] != key[b] {
      assert a in s.stops && b in s.stops;
    }
    ArrivalTotal(key, ids);
  }

  lemma TrailInv(s: State, px: int)
    requires StateInv(s)
    ensures StateInv(s.(stops := TrailAll(s.stops, px)))
  {
    var stops' := TrailAll(s.stops, px);
    assert stops'.Keys == s.stops.Keys;
    QueueStays(s.opening, s.c, s.stops, s.c, stops', {});
    QueueStays(s.closing, s.c, s.stops, s.c, stops', {});
  }

  lemma SortedNoDup(r: Rule, ids: set<OrderId>, s: seq<OrderId>)
    requires TotalOn(r, ids) && SortedBy(r, ids, s)
    ensures NoDup(s)
  {
    forall i, j | 0 <= i < j < |s| ensures s[i] != s[j] {
      assert s[i] in s && s[j] in s && Less(r, s[i], s[j]);
    }
  }

  /** The stops that fire at `px`, in arrival order. */
  ghost function FireOrder(s: State, px: int): (ids: seq<OrderId>)
    requires StateInv(s)
    ensures NoDup(ids) && forall id :: id in ids <==> id in Firing(s.stops, px)
  {
    FiringTotal(s, Firing(s.stops, px));
    var ids := Sorted(StopArrival(s.stops), Firing(s.stops, px));
    SortedNoDup(StopArrival(s.stops), Firing(s.stops, px), ids);
    ids
  }

  /** One round of evaluate_stops at last price `px`: re-anchor, then fire everything triggered. */
  ghost function Round(r: Run, px: int): Run
    requires StateInv(r.s)
  {
    TrailInv(r.s, px);
    var s1 := r.s.(stops := TrailAll(r.s.stops, px));
    FireAll(r.(s := s1), FireOrder(s1, px))
  }

  lemma RoundInv(r: Run, px: int)
    requires StateInv(r.s)
    ensures var r' := Round(r, px);
      && StateInv(r'.s) && r.trades <= r'.trades && r'.s.stops.Keys <= r.s.stops.Keys
      && (forall id :: id in r'.s.stops ==> r'.s.stops[id] == Trailed(r.s.stops[id], px))
      && (Firing(TrailAll(r.s.stops, px), px) != {} ==> |r'.s.stops| < |r.s.stops|)
      && (Firing(TrailAll(r.s.stops, px), px) == {} ==> r' == r.(s := r.s.(stops := TrailAll(r.s.stops, px))))
  {
    hide StateInv;
    TrailInv(r.s, px);
    var s1 := r.s.(stops := TrailAll(r.s.stops, px));
    assert s1.stops.Keys == r.s.stops.Keys;
    var ids := FireOrder(s1, px);
    FireAllInv(r.(s := s1), ids);
    assert |s1.stops| == |r.s.stops|;
    assert ids == [] ==> forall id :: id !in Firing(s1.stops, px);
    assert Firing(s1.stops, px) == {} ==> ids == [] by {
      assert ids != [] ==> ids[0] in ids;
    }
  }

  /** evaluate_stops: rounds until nothing is triggered at the last price. */
  ghost function Cascade(r: Run): Run
    requires StateInv(r.s)
    decreases |r.s.stops|
  {
    if r.s.c.last.None? then r
    else
      var px := r.s.c.last.value;
      RoundInv(r, px);
      if Firing(TrailAll(r.s.stops, px), px) == {} then Round(r, px)
      else Cascade(Round(r, px))
  }

  lemma {:induction false} CascadeInv(r: Run)
    requires StateInv(r.s)
    ensures StateInv(Cascade(r).s) && r.trades <= Cascade(r).trades
    decreases |r.s.stops|
  {
    hide StateInv;
    if r.s.c.last.Some? {
      var px := r.s.c.last.value;
      RoundInv(r, px);
      if Firing(TrailAll(r.s.stops, px), px) != {} {
        CascadeInv(Round(r, px));
      }
    }
  }

  // ---------------------------------------------------------------- submit

  datatype Reason =
    | Accepted
    | NonPositiveQuantity
    | NonPositivePrice
    | DuplicateId
    | NoPegReference
    | PostOnlyWouldCross
    | ReduceOnlyNeedsAccount
    | NothingToReduce
    | AonNotFillable
    | MinQtyExceedsQty
    | MinQtyNotAvailable

  datatype Outcome = Outcome(
    reason: Reason,
    trades: seq<Trade>,
    filled: int,
    rested: bool,
    pendingTrigger: bool,
    held: bool,
    resting: Option<Order>)

  function Rejected(why: Reason): Outcome {
    Outcome(why, [], 0, false, false, false, None)
  }

  datatype Result = Result(s: State, out: Outcome)

  /** What a caller of submit must respect: a non-negative slice size and an id that is not queued
      for an auction (the other duplicates are rejected by submit itself). */
  ghost predicate Admissible(s: State, o: Order) {
    && (o.IsIceberg() ==> o.displayQty >= 0)
    && (forall x :: x in s.opening || x in s.closing ==> x.id != o.id)
  }

  function Stamp(o: Order, n: SeqNo): Order {
    Normalize(o).(seqNo := n, rank := n)
  }

  function StampCore(c: Core, id: OrderId): Core {
    c.(nextSeq := c.nextSeq + 1, born := c.born[c.nextSeq := id])
  }

  /** A marketable order: some resting contra order is at a price it accepts. */
  ghost predicate Crosses(c: Core, o: Order) {
    exists id :: id in c.orders && Reaches(o, c.orders[id])
  }

  /** The quantity a reduce-only order may still execute for its account. */
  function Capacity(c: Core, o: Order): int {
    var p := PositionOf(c.positions, o.client);
    if o.side == Sell then p.net - p.reservedSell else -p.net - p.reservedBuy
  }

  /** Match, rest the remainder, cascade stops, reprice pegs. */
  ghost function SubmitTrade(s: State, o: Order): Result
    requires StateInv(s) && Fresh(s, o)
  {
    var m := MatchAll(Match(s.c, o, [], false));
    var rests := m.o.leaves > 0 && !m.halted && !m.o.Discards();
    var s1 := s.(c := if rests then Rest(m.c, m.o) else m.c);
    TradeInv(s, o);
    var r := if m.trades != [] then Cascade(Run(s1, m.trades)) else Run(s1, m.trades);
    CascadeInv(Run(s1, m.trades));
    Result(r.s.(c := RepriceAll(r.s.c)),
           Outcome(Accepted, r.trades, m.o.filled, rests, false, false, if rests then Some(m.o) else None))
  }

  /** `o` may enter the book of `s`: live, stamped, and its id is nowhere in use. */
  ghost predicate Fresh(s: State, o: Order) {
    && Restable(o, s.c.nextSeq, s.c.born) && o.id !in s.c.orders && o.id !in s.stops
    && (forall x :: x in s.opening || x in s.closing ==> x.id != o.id)
  }

  /** Replacing the resting book by one without foreign ids keeps the invariant. */
  lemma CoreInv(s: State, c': Core, extra: set<OrderId>)
    requires StateInv(s) && Inv(c') && Within(s.c, c', extra) && extra !! s.stops.Keys
    requires forall x :: x in s.opening || x in s.closing ==> x.id !in extra
    ensures StateInv(s.(c := c'))
  {
    hide Inv, Restable;
    StopsStay(s.stops, s.c, c', extra);
    QueueStays(s.opening, s.c, s.stops, c', s.stops, extra);
    QueueStays(s.closing, s.c, s.stops, c', s.stops, extra);
  }

  lemma TradeInv(s: State, o: Order)
    requires StateInv(s) && Fresh(s, o)
    ensures var m := MatchAll(Match(s.c, o, [], false));
      && StateInv(s.(c := m.c))
      && (m.o.leaves > 0 ==> StateInv(s.(c := Rest(m.c, m.o))))
  {
    hide Inv, StopsOk, QueueOk;
    var m0 := Match(s.c, o, [], false);
    MatchAllInv(m0);
    MatchAllEvolves(m0);
    var m := MatchAll(m0);
    CoreInv(s, m.c, {});
    if m.o.leaves > 0 {
      RestInv(m.c, m.o);
      CoreInv(s, Rest(m.c, m.o), {o.id});
    }
  }

  /** All-or-none and minimum-quantity screening, then trading. */
  ghost function SubmitSized(s: State, o: Order): Result
    requires StateInv(s) && Fresh(s, o)
  {
    if o.Has(Aon) && Available(s.c, o) < o.leaves then
      if o.Discards() then Result(s, Rejected(AonNotFillable))
      else
        RestInv(s.c, o);
        Result(s.(c := RepriceAll(Rest(s.c, o))), Outcome(Accepted, [], 0, true, false, false, Some(o)))
    else if o.minQty > 0 && o.minQty > o.qty then Result(s, Rejected(MinQtyExceedsQty))
    else if o.minQty > 0 && Available(s.c, o) < o.minQty then Result(s, Rejected(MinQtyNotAvailable))
    else SubmitTrade(s, o)
  }

  /** A reduce-only order is cut down to the quantity that still reduces. */
  function Capped(o: Order, cap: int): Order {
    if o.leaves > cap then o.(leaves := cap, qty := cap) else o
  }

  /** Post-only and reduce-only screening. */
  ghost function SubmitPlain(s: State, o: Order): Result
    requires StateInv(s) && Fresh(s, o)
  {
    if o.Has(PostOnly) && Crosses(s.c, o) then Result(s, Rejected(PostOnlyWouldCross))
    else if o.Has(ReduceOnly) && o.client == 0 then Result(s, Rejected(ReduceOnlyNeedsAccount))
    else if o.Has(ReduceOnly) && Capacity(s.c, o) <= 0 then Result(s, Rejected(NothingToReduce))
    else SubmitSized(s, if o.Has(ReduceOnly) then Capped(o, Capacity(s.c, o)) else o)
  }

  /** A pegged order rests at its peg price without matching. */
  ghost function SubmitPeg(s: State, o: Order): Result
    requires StateInv(s) && Fresh(s, o)
  {
    var price := PegPrice(s.c, o);
    if price.None? then Result(s, Rejected(NoPegReference))
    else
      var o1 := o.(typ := Limit, price := price.value);
      var c1 := Rest(s.c, o1);
      Result(s.(c := c1.(pegged := c1.pegged + {o.id})), Outcome(Accepted, [], 0, true, false, false, Some(o1)))
  }

  /** A stop parks, or fires at once if the last price is already past it. */
  ghost function SubmitStop(s: State, o: Order): Result
    requires StateInv(s) && Fresh(s, o)
  {
    var a := Armed(o, s.c.last);
    if s.c.last.Some? && StopTriggered(a, s.c.last.value) then
      var m := Inject(s.c, MarkTriggered(a), []);
      StopInv(s, MarkTriggered(a));
      var r := Cascade(Run(s.(c := m.c), m.trades));
      Result(r.s, Outcome(Accepted, r.trades, m.o.filled, m.o.leaves > 0 && !m.o.Discards(), false, false, None))
    else
      Result(s.(stops := s.stops[o.id := a]), Outcome(Accepted, [], 0, false, true, false, None))
  }

  lemma StopInv(s: State, o: Order)
    requires StateInv(s) && Fresh(s, o)
    ensures StateInv(s.(c := Inject(s.c, o, []).c))
  {
    hide Inv, StopsOk, QueueOk, Inject;
    InjectInv(s.c, o, []);
    CoreInv(s, Inject(s.c, o, []).c, {o.id});
  }

  /** Where a stamped order goes: an auction queue, the stops, the pegs or continuous trading. */
  ghost function Routed(s: State, o: Order): Result
    requires StateInv(s) && Fresh(s, o)
  {
    if o.IsOpening() then
      Result(s.(opening := s.opening + [o]), Outcome(Accepted, [], 0, false, false, true, None))
    else if o.IsClosing() then
      Result(s.(closing := s.closing + [o]), Outcome(Accepted, [], 0, false, false, true, None))
    else if o.trigger.Some? && !o.trigger.value.triggered then SubmitStop(s, o)
    else if o.peg.Some? then SubmitPeg(s, o)
    else SubmitPlain(s, o)
  }

  /** submit. */
  ghost function Submit(s: State, o0: Order): Result
    requires StateInv(s) && Admissible(s, o0)
  {
    var o := Stamp(o0, s.c.nextSeq);
    var s1 := s.(c := StampCore(s.c, o.id));
    StampInv(s, o0);
    if o.qty <= 0 || o.leaves <= 0 then Result(s1, Rejected(NonPositiveQuantity))
    else if o.typ == Limit && o.price <= 0 && o.peg.None? then Result(s1, Rejected(NonPositivePrice))
    else if o.id in s.c.orders || o.id in s.stops then Result(s1, Rejected(DuplicateId))
    else Routed(s1, o)
  }

  lemma StampInv(s: State, o0: Order)
    requires StateInv(s) && Admissible(s, o0)
    ensures var o := Stamp(o0, s.c.nextSeq);
      var s1 := s.(c := StampCore(s.c, o.id));
      && StateInv(s1)
      && (o.qty > 0 && o.leaves > 0 && o.id !in s.c.orders && o.id !in s.stops ==> Fresh(s1, o))
  {
    var c1 := StampCore(s.c, o0.id);
    StampedStays(s.c, o0.id);
    assert forall n :: n in s.c.born ==> n in c1.born && c1.born[n] == s.c.born[n];
    hide Stamped, FifoOk, PegsOk;
    assert Stamped(Stamp(o0, s.c.nextSeq), c1.nextSeq, c1.born) by { StampIsBorn(s.c, o0); }
  }

  lemma StampedStays(c: Core, id: OrderId)
    requires Inv(c)
    ensures var c1 := StampCore(c, id);
      forall o: Order :: Stamped(o, c.nextSeq, c.born) ==> Stamped(o, c1.nextSeq, c1.born)
  {
  }

  lemma StampIsBorn(c: Core, o: Order)
    ensures var c1 := StampCore(c, o.id); Stamped(Stamp(o, c.nextSeq), c1.nextSeq, c1.born)
  {
  }

  // --------------------------------------------- submit keeps the invariant

  lemma RepriceStateInv(s: State)
    requires StateInv(s)
    ensures StateInv(s.(c := RepriceAll(s.c)))
  {
    hide Inv, StopsOk, QueueOk;
    RepriceAllInv(s.c);
    CoreInv(s, RepriceAll(s.c), {});
  }

  lemma SubmitTradeInv(s: State, o: Order)
    requires StateInv(s) && Fresh(s, o)
    ensures StateInv(SubmitTrade(s, o).s)
  {
    hide Inv, StopsOk, QueueOk, RepriceAll;
    var m := MatchAll(Match(s.c, o, [], false));
    TradeInv(s, o);
    var rests := m.o.leaves > 0 && !m.halted && !m.o.Discards();
    var s1 := s.(c := if rests then Rest(m.c, m.o) else m.c);
    CascadeInv(Run(s1, m.trades));
    RepriceStateInv(if m.trades != [] then Cascade(Run(s1, m.trades)).s else s1);
  }

  lemma RestStateInv(s: State, o: Order)
    requires StateInv(s) && Fresh(s, o)
    ensures StateInv(s.(c := Rest(s.c, o)))
  {
    hide Inv, StopsOk, QueueOk;
    RestInv(s.c, o);
    CoreInv(s, Rest(s.c, o), {o.id});
  }

  lemma SubmitPlainInv(s: State, o: Order)
    requires StateInv(s) && Fresh(s, o)
    ensures StateInv(SubmitPlain(s, o).s)
  {
    hide StateInv, SubmitTrade, Rest, RepriceAll;
    var o1 := if o.Has(ReduceOnly) then Capped(o, Capacity(s.c, o)) else o;
    if !(o.Has(ReduceOnly) && Capacity(s.c, o) <= 0) {
      SubmitTradeInv(s, o1);
      RestStateInv(s, o1);
      RepriceStateInv(s.(c := Rest(s.c, o1)));
    }
  }

  lemma SubmitPegInv(s: State, o: Order)
    requires StateInv(s) && Fresh(s, o) && o.peg.Some?
    ensures StateInv(SubmitPeg(s, o).s)
  {
    var price := PegPrice(s.c, o);
    if price.Some? {
      var o1 := o.(typ := Limit, price := price.value);
      PegRestInv(s.c, o1);
      hide Inv, StopsOk, QueueOk;
      CoreInv(s, SubmitPeg(s, o).s.c, {o.id});
    }
  }

  lemma PegRestInv(c: Core, o: Order)
    requires Inv(c) && o.id !in c.orders && Restable(o, c.nextSeq, c.born) && o.peg.Some?
    ensures Inv(Rest(c, o).(pegged := Rest(c, o).pegged + {o.id}))
  {
    RestInv(c, o);
  }

  lemma SubmitStopInv(s: State, o: Order)
    requires StateInv(s) && Fresh(s, o) && o.trigger.Some?
    ensures StateInv(SubmitStop(s, o).s)
  {
    var a := Armed(o, s.c.last);
    if s.c.last.Some? && StopTriggered(a, s.c.last.value) {
      hide Inv, StopsOk, QueueOk, Inject;
      StopInv(s, MarkTriggered(a));
      CascadeInv(Run(s.(c := Inject(s.c, MarkTriggered(a), []).c), Inject(s.c, MarkTriggered(a), []).trades));
    }
  }

  /** submit keeps the invariant of the whole book. */
  lemma SubmitInv(s: State, o0: Order)
    requires StateInv(s) && Admissible(s, o0)
    ensures StateInv(Submit(s, o0).s)
  {
    StampInv(s, o0);
    var o := Stamp(o0, s.c.nextSeq);
    var s1 := s.(c := StampCore(s.c, o.id));
    if Fresh(s1, o) {
      QueueInv(s1, o);
      hide StateInv, SubmitPlain, SubmitPeg, SubmitStop, Fresh;
      SubmitPlainInv(s1, o);
      if o.peg.Some? { SubmitPegInv(s1, o); }
      if o.trigger.Some? { SubmitStopInv(s1, o); }
    }
  }

  lemma QueueInv(s: State, o: Order)
    requires StateInv(s) && Fresh(s, o)
    ensures StateInv(s.(opening := s.opening + [o])) && StateInv(s.(closing := s.closing + [o]))
  {
    hide Inv, Restable, StopsOk;
    assert forall x :: x in s.opening + [o] <==> x in s.opening || x == o;
    assert forall x :: x in s.closing + [o] <==> x in s.closing || x == o;
    forall i | 0 <= i < |s.opening| ensures s.opening[i].id != o.id { assert s.opening[i] in s.opening; }
    forall i | 0 <= i < |s.closing| ensures s.closing[i].id != o.id { assert s.closing[i] in s.closing; }
  }

  // -------------------------------------------------------- cancel, expire

  ghost function TakeDown(c: Core, id: OrderId): Core
    requires Inv(c) && id in c.orders
  {
    WithdrawInv(c, id);
    if id in c.pegged then Withdraw(c, id) else RepriceAll(Withdraw(c, id))
  }

  predicate Queued(queue: seq<Order>, id: OrderId) {
    exists i :: 0 <= i < |queue| && queue[i].id == id
  }

  function Unqueue(queue: seq<Order>, id: OrderId): seq<Order> {
    if queue == [] then []
    else if queue[0].id == id then queue[1..]
    else [queue[0]] + Unqueue(queue[1..], id)
  }

  /** cancel: a parked stop, a queued auction order or a resting order; false if there is none. */
  ghost function Cancel(s: State, id: OrderId): (State, bool)
    requires StateInv(s)
  {
    if id in s.stops then (s.(stops := s.stops - {id}), true)
    else if Queued(s.opening, id) then (s.(opening := Unqueue(s.opening, id)), true)
    else if Queued(s.closing, id) then (s.(closing := Unqueue(s.closing, id)), true)
    else if id !in s.c.orders then (s, false)
    else (s.(c := TakeDown(s.c, id)), true)
  }

  lemma {:induction false} UnqueueSub(queue: seq<Order>, id: OrderId)
    requires DistinctIds(queue)
    ensures DistinctIds(Unqueue(queue, id)) && forall o :: o in Unqueue(queue, id) ==> o in queue
    decreases |queue|
  {
    if queue != [] && queue[0].id != id {
      assert forall i :: 0 <= i < |queue[1..]| ==> queue[1..][i] == queue[i + 1];
      UnqueueSub(queue[1..], id);
      var rest := Unqueue(queue[1..], id);
      forall i | 0 <= i < |rest| ensures rest[i].id != queue[0].id {
        assert rest[i] in rest;
      }
    }
  }

  lemma TakeDownInv(c: Core, id: OrderId)
    requires Inv(c) && id in c.orders
    ensures Inv(TakeDown(c, id)) && Within(c, TakeDown(c, id), {})
    ensures TakeDown(c, id).orders.Keys == c.orders.Keys - {id}
  {
    hide Inv;
    WithdrawInv(c, id);
    RepriceAllInv(Withdraw(c, id));
  }

  lemma CancelInv(s: State, id: OrderId)
    requires StateInv(s)
    ensures StateInv(Cancel(s, id).0)
  {
    hide Inv, Restable;
    if id in s.stops {
      StopsStay(s.stops - {id}, s.c, s.c, {});
      QueueStays(s.opening, s.c, s.stops, s.c, s.stops - {id}, {});
      QueueStays(s.closing, s.c, s.stops, s.c, s.stops - {id}, {});
    } else if Queued(s.opening, id) {
      UnqueueSub(s.opening, id);
    } else if Queued(s.closing, id) {
      UnqueueSub(s.closing, id);
    } else if id in s.c.orders {
      TakeDownInv(s.c, id);
      hide TakeDown;
      CoreInv(s, TakeDown(s.c, id), {});
    }
  }

  ghost function Expired(c: Core, now: int): set<OrderId> {
    set id | id in c.orders && 0 < c.orders[id].o.expiry <= now
  }

  ghost function CancelAll(s: State, ids: seq<OrderId>): State
    requires StateInv(s)
    decreases |ids|
  {
    if ids == [] then s
    else
      CancelInv(s, ids[0]);
      CancelAll(Cancel(s, ids[0]).0, ids[1..])
  }

  lemma {:induction false} CancelAllInv(s: State, ids: seq<OrderId>)
    requires StateInv(s)
    ensures StateInv(CancelAll(s, ids))
    decreases |ids|
  {
    hide StateInv, Cancel;
    if ids != [] {
      CancelInv(s, ids[0]);
      CancelAllInv(Cancel(s, ids[0]).0, ids[1..]);
    }
  }

  /** Ids in ascending order. */
  ghost function ById(ids: set<OrderId>): Rule {
    ByArrival(map id | id in ids :: id)
  }

  lemma ByIdTotal(ids: set<OrderId>)
    ensures TotalOn(ById(ids), ids)
  {
    ArrivalTotal(ById(ids).key, ids);
  }

  /** expire: cancel every resting order whose expiry has passed, in ascending id order. */
  ghost function Expire(s: State, now: int): State
    requires StateInv(s)
  {
    ByIdTotal(Expired(s.c, now));
    CancelAll(s, Sorted(ById(Expired(s.c, now)), Expired(s.c, now)))
  }

  // --------------------------------------------------------------- auctions

  function ClearFlags(o: Order): Order {
    o.(flags := o.flags - AUCTION_MASK)
  }

  /** Unfilled limit-on-open and limit-on-close remainders enter continuous trading, in queue order. */
  ghost function InjectRemainders(c: Core, queue: seq<Order>, w: Pool, trades: seq<Trade>): Cross
    requires Inv(c) && RemaindersOk(c, queue, w)
    decreases |queue|
  {
    if queue == [] then Cross(c, w, trades)
    else
      var o := w[queue[0].id].o;
      if o.leaves > 0 && (o.Has(Loo) || o.Has(Loc)) then
        var m := Inject(c, ClearFlags(o), trades);
        RemainderStep(c, queue, w, trades);
        InjectRemainders(m.c, queue[1..], w, m.trades)
      else
        RemaindersTail(c, queue, w);
        InjectRemainders(c, queue[1..], w, trades)
  }

  /** Every queued order is in the pool and, if unfilled, could rest. */
  ghost predicate RemaindersOk(c: Core, queue: seq<Order>, w: Pool) {
    && DistinctIds(queue)
    && (forall o :: o in queue ==> o.id in w && w[o.id].o.id == o.id && o.id !in c.orders)
    && (forall o :: o in queue && w[o.id].o.leaves > 0 ==> Restable(w[o.id].o, c.nextSeq, c.born))
  }

  lemma RemaindersTail(c: Core, queue: seq<Order>, w: Pool)
    requires RemaindersOk(c, queue, w) && queue != []
    ensures RemaindersOk(c, queue[1..], w) && forall o :: o in queue[1..] ==> o.id != queue[0].id
  {
    assert forall i :: 0 <= i < |queue[1..]| ==> queue[1..][i] == queue[i + 1];
  }

  lemma RemainderStep(c: Core, queue: seq<Order>, w: Pool, trades: seq<Trade>)
    requires Inv(c) && RemaindersOk(c, queue, w) && queue != []
    requires w[queue[0].id].o.leaves > 0
    ensures var m := Inject(c, ClearFlags(w[queue[0].id].o), trades);
      && Inv(m.c) && Within(c, m.c, {queue[0].id}) && trades <= m.trades
      && RemaindersOk(m.c, queue[1..], w)
  {
    hide Inv, Inject;
    assert queue[0] in queue;
    RemaindersTail(c, queue, w);
    InjectInv(c, ClearFlags(w[queue[0].id].o), trades);
  }

  lemma {:induction false} InjectRemaindersInv(c: Core, queue: seq<Order>, w: Pool, trades: seq<Trade>)
    requires Inv(c) && RemaindersOk(c, queue, w)
    ensures var m := InjectRemainders(c, queue, w, trades);
      Inv(m.c) && Within(c, m.c, set o | o in queue :: o.id) && trades <= m.trades
    decreases |queue|
  {
    hide Inv, Inject, RemaindersOk;
    if queue != [] {
      assert forall o :: o in queue <==> o == queue[0] || o in queue[1..];
      RemaindersIn(c, queue, w);
      var o := w[queue[0].id].o;
      if o.leaves > 0 && (o.Has(Loo) || o.Has(Loc)) {
        RemainderStep(c, queue, w, trades);
        var m := Inject(c, ClearFlags(o), trades);
        InjectRemaindersInv(m.c, queue[1..], w, m.trades);
      } else {
        RemaindersTail(c, queue, w);
        InjectRemaindersInv(c, queue[1..], w, trades);
      }
    }
  }

  lemma RemaindersIn(c: Core, queue: seq<Order>, w: Pool)
    requires RemaindersOk(c, queue, w) && queue != []
    ensures queue[0].id in w
  {
    assert queue[0] in queue;
  }

  lemma QueuePoolOk(queue: seq<Order>, c: Core, stops: map<OrderId, Order>)
    requires QueueOk(queue, c, stops)
    ensures QueuePool(PoolOf(queue)) && RemaindersOk(c, queue, PoolOf(queue))
  {
    var w := PoolOf(queue);
    forall id | id in w ensures exists o :: o in queue && o.id == id && w[id] == Maker(o, 0) {
      PoolFrom(queue, id);
      var i :| 0 <= i < |queue| && queue[i].id == id && w[id] == Maker(queue[i], 0);
      assert queue[i] in queue;
    }
    forall o | o in queue ensures o.id in w && w[o.id] == Maker(o, 0) {
      var i :| 0 <= i < |queue| && queue[i] == o;
      PoolAt(queue, i);
    }
  }

  /** The uniform-price cross touches positions, events and the last price only. */
  lemma {:induction false} CrossLoopCore(cr: Cross, buys: seq<OrderId>, sells: seq<OrderId>, p: int, left: int)
    requires InPool(cr.w, buys) && InPool(cr.w, sells)
    ensures var r := CrossLoop(cr, buys, sells, p, left).c;
      r == cr.c.(positions := r.positions, events := r.events)
    decreases |buys| + |sells|, left
  {
    if left <= 0 || buys == [] || sells == [] || !cr.w[buys[0]].o.TradesAt(p) || !cr.w[sells[0]].o.TradesAt(p)
      || buys[0] == sells[0]
    {
    } else {
      var x := Min(Min(cr.w[buys[0]].o.leaves, cr.w[sells[0]].o.leaves), left);
      var cr1 := CrossOne(cr, buys[0], sells[0], p, x);
      CrossLoopCore(cr1, Advance(cr1.w, buys), Advance(cr1.w, sells), p, left - x);
    }
  }

  lemma CrossPoolCore(c: Core, w: Pool)
    requires QueuePool(w)
    ensures var r := CrossPool(c, w).c;
      r == c.(positions := r.positions, events := r.events, last := r.last)
  {
    if ClearingPrice(w, c.last).Some? {
      var p := ClearingPrice(w, c.last).value;
      RankedLists(w, Buy, p);
      RankedLists(w, Sell, p);
      CrossLoopCore(Cross(c, w, []), Ranked(w, Buy), Ranked(w, Sell), p, Volume(w, p));
    }
  }

  /** Positions, events and the last price are not part of the book's invariant. */
  lemma AccountsInv(c: Core, c': Core)
    requires Inv(c) && c' == c.(positions := c'.positions, events := c'.events, last := c'.last)
    ensures Inv(c') && Within(c, c', {})
  {
  }

  lemma ShrunkRemainders(c: Core, c': Core, queue: seq<Order>, w: Pool, w': Pool)
    requires RemaindersOk(c, queue, w) && Shrinks(w, w')
    requires c'.orders == c.orders && c'.born == c.born && c'.nextSeq == c.nextSeq
    ensures RemaindersOk(c', queue, w')
  {
  }

  lemma CrossRemainders(c: Core, queue: seq<Order>, stops: map<OrderId, Order>)
    requires Inv(c) && QueueOk(queue, c, stops)
    ensures QueuePool(PoolOf(queue))
    ensures var x := CrossPool(c, PoolOf(queue));
      Inv(x.c) && Within(c, x.c, {}) && RemaindersOk(x.c, queue, x.w)
  {
    hide Inv, QueueOk, QueuePool, CrossPool, RemaindersOk, Shrinks, Sound, ClearingPrice, Volume, PoolOf;
    var w := PoolOf(queue);
    QueuePoolOk(queue, c, stops);
    CrossPoolCore(c, w);
    AuctionExecutesVolume(c, w);
    AccountsInv(c, CrossPool(c, w).c);
    if ClearingPrice(w, c.last).Some? {
      ShrunkRemainders(c, CrossPool(c, w).c, queue, w, CrossPool(c, w).w);
    }
  }

  ghost function CrossAndEnter(c: Core, queue: seq<Order>, stops: map<OrderId, Order>): Cross
    requires Inv(c) && QueueOk(queue, c, stops)
  {
    CrossRemainders(c, queue, stops);
    var x := CrossPool(c, PoolOf(queue));
    InjectRemainders(x.c, queue, x.w, x.trades)
  }

  /** The cross of a queue and the continuous entry of its remainders. */
  ghost function Crossed(s: State, open: bool): Run
    requires StateInv(s)
  {
    var y := CrossAndEnter(s.c, if open then s.opening else s.closing, s.stops);
    Run(if open then s.(c := y.c, opening := []) else s.(c := y.c, closing := []), y.trades)
  }

  /** run_opening_auction and run_closing_auction. */
  ghost function RunAuction(s: State, open: bool): Run
    requires StateInv(s)
  {
    if (if open then s.opening else s.closing) == [] then Run(s, [])
    else
      var y := Crossed(s, open);
      AuctionStateInv(s, open);
      if y.trades == [] then y
      else
        var r := Cascade(y);
        CascadeInv(y);
        r.(s := r.s.(c := RepriceAll(r.s.c)))
  }

  lemma AuctionStateInv(s: State, open: bool)
    requires StateInv(s)
    ensures var queue := if open then s.opening else s.closing;
      && QueuePool(PoolOf(queue))
      && var x := CrossPool(s.c, PoolOf(queue));
      && Inv(x.c) && RemaindersOk(x.c, queue, x.w)
      && var y := InjectRemainders(x.c, queue, x.w, x.trades);
      StateInv(if open then s.(c := y.c, opening := []) else s.(c := y.c, closing := []))
  {
    hide Inv, InjectRemainders, CrossPool, QueuePool, RemaindersOk, QueueOk, StopsOk, PoolOf;
    var queue := if open then s.opening else s.closing;
    CrossRemainders(s.c, queue, s.stops);
    var x := CrossPool(s.c, PoolOf(queue));
    InjectRemaindersInv(x.c, queue, x.w, x.trades);
    DequeueInv(s, open);
    CoreInv(if open then s.(opening := []) else s.(closing := []),
            InjectRemainders(x.c, queue, x.w, x.trades).c, set o | o in queue :: o.id);
  }

  lemma DequeueInv(s: State, open: bool)
    requires StateInv(s)
    ensures var queue := if open then s.opening else s.closing;
      var s0 := if open then s.(opening := []) else s.(closing := []);
      var ids := set o | o in queue :: o.id;
      && StateInv(s0) && ids !! s.stops.Keys
      && (forall x :: x in s0.opening || x in s0.closing ==> x.id !in ids)
  {
    hide Inv, Restable;
  }

  lemma RunAuctionInv(s: State, open: bool)
    requires StateInv(s)
    ensures StateInv(RunAuction(s, open).s)
  {
    hide StateInv, InjectRemainders, CrossPool, QueuePool, RemaindersOk, Inv;
    var queue := if open then s.opening else s.closing;
    if queue != [] {
      AuctionStateInv(s, open);
      var x := CrossPool(s.c, PoolOf(queue));
      var y := InjectRemainders(x.c, queue, x.w, x.trades);
      var s1 := if open then s.(c := y.c, opening := []) else s.(c := y.c, closing := []);
      CascadeInv(Run(s1, y.trades));
      RepriceStateInv(Cascade(Run(s1, y.trades)).s);
    }
  }

  // ------------------------------------------------------------- whole runs

  datatype Op =
    | OpSubmit(o: Order)
    | OpCancel(id: OrderId)
    | OpExpire(now: int)
    | OpAuction(open: bool)
    | OpSeed(client: ClientId, net: int)
    | OpSetSeq(next: SeqNo)
    | OpTakeRequeued

  ghost predicate Legal(s: State, op: Op) {
    op.OpSubmit? ==> Admissible(s, op.o)
  }

  function Seed(c: Core, client: ClientId, net: int): Core {
    if client == 0 then c
    else c.(positions := c.positions[client := PositionOf(c.positions, client).(net := net)])
  }

  ghost function Apply(s: State, op: Op): State
    requires StateInv(s) && Legal(s, op)
  {
    match op
    case OpSubmit(o) => Submit(s, o).s
    case OpCancel(id) => Cancel(s, id).0
    case OpExpire(now) => Expire(s, now)
    case OpAuction(open) => RunAuction(s, open).s
    case OpSeed(client, net) => s.(c := Seed(s.c, client, net))
    case OpSetSeq(n) => if n > s.c.nextSeq then s.(c := s.c.(nextSeq := n)) else s
    case OpTakeRequeued => s.(c := s.c.(requeued := []))
  }

  /** What submit reports; other operations have no outcome record. */
  ghost function OutcomeOf(s: State, op: Op): Option<Outcome>
    requires StateInv(s) && Legal(s, op)
  {
    if op.OpSubmit? then Some(Submit(s, op.o).out) else None
  }

  lemma SetSeqInv(s: State, n: SeqNo)
    requires StateInv(s) && n > s.c.nextSeq
    ensures StateInv(s.(c := s.c.(nextSeq := n)))
  {
  }

  /** Every operation keeps the invariant. */
  lemma ApplyInv(s: State, op: Op)
    requires StateInv(s) && Legal(s, op)
    ensures StateInv(Apply(s, op))
  {
    match op
    case OpSubmit(o) => hide StateInv, Submit, Admissible; SubmitInv(s, o);
    case OpCancel(id) => hide StateInv, Cancel; CancelInv(s, id);
    case OpExpire(now) =>
      hide StateInv, CancelAll;
      ByIdTotal(Expired(s.c, now));
      CancelAllInv(s, Sorted(ById(Expired(s.c, now)), Expired(s.c, now)));
    case OpAuction(open) => hide StateInv, RunAuction; RunAuctionInv(s, open);
    case OpSeed(client, net) =>
    case OpSetSeq(n) => hide StateInv; if n > s.c.nextSeq { SetSeqInv(s, n); }
    case OpTakeRequeued =>
  }
}
