/** Parked stops between operations: none is triggered at the last price, a trailing stop's price follows
    the best price printed since it was parked, and a stop fires only on a price that reached it
    (src/core/order_book.cc, arm_stop, update_trail, evaluate_stops). */
module StopRules {
  import opened OrderTypes
  import opened BookCore
  import opened Matching
  import opened Liquidity
  import opened Ordering
  import opened Pegs
  import opened Crossing
  import opened Sessions
  import opened Cancels
  import opened Runs
  import opened Executions

  /** No parked buy stop is at or below the last price, no sell stop at or above it. */
  ghost predicate Quiet(stops: map<OrderId, Order>, last: Option<int>) {
    last.Some? ==> forall id :: id in stops && stops[id].trigger.Some? ==>
      var stop := stops[id].trigger.value.stopPrice;
      if stops[id].side == Buy then last.value < stop else last.value > stop
  }

  /** A sell stop trails below its peak, a buy stop above its trough, by the trail amount. */
  predicate TrailOk(o: Order) {
    o.trigger.Some? && o.trigger.value.kind != Stop ==>
      var t := o.trigger.value;
      t.stopPrice == if o.side == Sell then t.highWater - t.trailBy else t.highWater + t.trailBy
  }

  ghost predicate TrailsOk(stops: map<OrderId, Order>) {
    forall id :: id in stops ==> TrailOk(stops[id])
  }

  /** The last price is not above a trailing sell stop's peak, nor below a trailing buy stop's trough. */
  predicate Keeps(o: Order, px: int) {
    o.trigger.Some? && o.trigger.value.kind != Stop ==>
      if o.side == Sell then o.trigger.value.highWater >= px else o.trigger.value.highWater <= px
  }

  ghost predicate Followed(stops: map<OrderId, Order>, last: Option<int>) {
    last.Some? ==> forall id :: id in stops ==> Keeps(stops[id], last.value)
  }

  /** `x` is `x0`, or a price one of the executions printed. */
  ghost predicate Came(x0: int, trades: seq<Trade>, x: int) {
    x == x0 || exists t :: t in trades && t.price == x
  }

  /** From `o` to `o'` nothing changed but a trailing stop's anchor, in the favourable direction and to a
      price that was printed. */
  ghost predicate Ratchets(o: Order, o': Order, trades: seq<Trade>) {
    && o.trigger.Some? && o'.trigger.Some?
    && var t, t' := o.trigger.value, o'.trigger.value;
    && o' == o.(trigger := Some(t.(stopPrice := t'.stopPrice, highWater := t'.highWater)))
    && Came(t.highWater, trades, t'.highWater)
    && (if t.kind == Stop then t' == t
        else if o.side == Sell then t.stopPrice <= t'.stopPrice
        else t'.stopPrice <= t.stopPrice)
  }

  /** Price `px` reaches the stop: its stop price or, for a trailing stop anchored at `hw`, the price that
      far from the anchor. */
  predicate ReachedAt(o: Order, hw: int, px: int) {
    o.trigger.Some? &&
    var t := o.trigger.value;
    if t.kind == Stop then (if o.side == Buy then px >= t.stopPrice else px <= t.stopPrice)
    else if o.side == Buy then px >= hw + t.trailBy else px <= hw - t.trailBy
  }

  /** A printed price reached the stop, from its own anchor or a printed one. */
  ghost predicate WasReached(o: Order, trades: seq<Trade>) {
    o.trigger.Some? &&
    exists t, hw :: t in trades && Came(o.trigger.value.highWater, trades, hw) && ReachedAt(o, hw, t.price)
  }

  /** What became of the stops of `stops0` by the executions `trades`. */
  ghost predicate Since(stops0: map<OrderId, Order>, stops: map<OrderId, Order>, trades: seq<Trade>) {
    && (forall id :: id in stops ==> id in stops0 && Ratchets(stops0[id], stops[id], trades))
    && (forall id :: id in stops0 && id !in stops ==> WasReached(stops0[id], trades))
  }

  lemma SinceMore(stops0: map<OrderId, Order>, stops: map<OrderId, Order>, trades: seq<Trade>, more: seq<Trade>)
    requires Since(stops0, stops, trades) && trades <= more
    ensures Since(stops0, stops, more)
  {
    assert forall t :: t in trades ==> t in more;
    forall id | id in stops0 && id !in stops ensures WasReached(stops0[id], more) {
      var o := stops0[id];
      var t, hw :| t in trades && Came(o.trigger.value.highWater, trades, hw) && ReachedAt(o, hw, t.price);
      assert t in more && Came(o.trigger.value.highWater, more, hw);
    }
  }

  lemma SinceSame(stops: map<OrderId, Order>, trades: seq<Trade>)
    requires forall id :: id in stops ==> stops[id].trigger.Some?
    ensures Since(stops, stops, trades)
  {
  }

  lemma ArmedTrails(o: Order, last: Option<int>)
    ensures TrailOk(Armed(o, last)) && (last.Some? ==> Keeps(Armed(o, last), last.value))
  {
  }

  lemma TrailedRatchets(o0: Order, o: Order, px: int, trades: seq<Trade>)
    requires Ratchets(o0, o, trades) && TrailOk(o) && exists t :: t in trades && t.price == px
    ensures TrailOk(Trailed(o, px)) && Keeps(Trailed(o, px), px) && Ratchets(o0, Trailed(o, px), trades)
  {
  }

  /** A stop that fires at `px`, once trailed to it, was reached by it. */
  lemma FiresReached(o0: Order, o: Order, px: int, trades: seq<Trade>)
    requires Ratchets(o0, o, trades) && TrailOk(o) && StopTriggered(Trailed(o, px), px)
    requires exists t :: t in trades && t.price == px
    ensures WasReached(o0, trades)
  {
    var t :| t in trades && t.price == px;
    var hw := Trailed(o, px).trigger.value.highWater;
    assert Came(o0.trigger.value.highWater, trades, hw);
    assert ReachedAt(o0, hw, t.price);
  }

  lemma AllTriggers(s: State)
    requires StateInv(s)
    ensures forall id :: id in s.stops ==> s.stops[id].trigger.Some?
  {
  }

  /** The stops that fire do so in arrival order. */
  lemma FireOrderIsArrival(s: State, px: int)
    requires StateInv(s)
    ensures var ids := FireOrder(s, px);
      && (forall i :: 0 <= i < |ids| ==> ids[i] in s.stops)
      && forall i, j :: 0 <= i < j < |ids| ==> s.stops[ids[i]].seqNo < s.stops[ids[j]].seqNo
  {
    hide StateInv, StopTriggered;
    FiringTotal(s, Firing(s.stops, px));
    var ids := FireOrder(s, px);
    assert SortedBy(StopArrival(s.stops), Firing(s.stops, px), ids);
    forall i | 0 <= i < |ids| ensures ids[i] in s.stops {
      assert ids[i] in ids;
    }
    forall i, j | 0 <= i < j < |ids| ensures s.stops[ids[i]].seqNo < s.stops[ids[j]].seqNo {
      assert Less(StopArrival(s.stops), ids[i], ids[j]);
    }
  }

  // ----------------------------------------------------------------- cascade

  /** A round at a printed price. */
  lemma RoundStops(stops0: map<OrderId, Order>, r: Run, px: int)
    requires StateInv(r.s) && TrailsOk(r.s.stops) && Since(stops0, r.s.stops, r.trades)
    requires exists t :: t in r.trades && t.price == px
    ensures var r' := Round(r, px);
      && TrailsOk(r'.s.stops) && Followed(r'.s.stops, Some(px)) && Since(stops0, r'.s.stops, r.trades)
      && (Firing(TrailAll(r.s.stops, px), px) == {} ==> Quiet(r'.s.stops, Some(px)))
  {
    hide StateInv, Round, Ratchets, TrailOk, Trailed, StopTriggered, WasReached, Keeps;
    RoundInv(r, px);
    RoundLeaves(r, px);
    var stops := Round(r, px).s.stops;
    forall id | id in stops
      ensures TrailOk(stops[id]) && Keeps(stops[id], px) && Ratchets(stops0[id], stops[id], r.trades)
    {
      TrailedRatchets(stops0[id], r.s.stops[id], px, r.trades);
    }
    forall id | id in stops0 && id !in stops ensures WasReached(stops0[id], r.trades) {
      if id in r.s.stops { FiresReached(stops0[id], r.s.stops[id], px, r.trades); }
    }
    if Firing(TrailAll(r.s.stops, px), px) == {} {
      NoneFiring(TrailAll(r.s.stops, px), px);
    }
  }

  lemma NoneFiring(stops: map<OrderId, Order>, px: int)
    requires Firing(stops, px) == {}
    ensures Quiet(stops, Some(px))
  {
    forall id | id in stops ensures !StopTriggered(stops[id], px) {
      assert id !in Firing(stops, px);
    }
  }

  /** A stop leaves in a round only by firing. */
  lemma RoundLeaves(r: Run, px: int)
    requires StateInv(r.s)
    ensures forall id :: id in r.s.stops && id !in Round(r, px).s.stops ==>
      StopTriggered(Trailed(r.s.stops[id], px), px)
  {
    hide StateInv, FireAll, Trailed, StopTriggered;
    TrailInv(r.s, px);
    var s1 := r.s.(stops := TrailAll(r.s.stops, px));
    FireAllLeaves(r.(s := s1), FireOrder(s1, px));
  }

  lemma {:induction false} FireAllLeaves(r: Run, ids: seq<OrderId>)
    requires StateInv(r.s) && NoDup(ids) && forall id :: id in ids ==> id in r.s.stops
    ensures forall id :: id in r.s.stops && id !in FireAll(r, ids).s.stops ==> id in ids
    decreases |ids|
  {
    hide Inv, StopsOk, QueueOk, FireOne;
    if ids != [] {
      FireOneInv(r, ids[0]);
      HeadGone(ids);
      FireAllLeaves(FireOne(r, ids[0]), ids[1..]);
    }
  }

  ghost predicate StopsGood(s: State) {
    Quiet(s.stops, s.c.last) && TrailsOk(s.stops) && Followed(s.stops, s.c.last)
  }

  ghost predicate LastPrinted(r: Run) {
    r.trades != [] && r.s.c.last == Some(r.trades[|r.trades| - 1].price)
  }

  lemma PrintsOn(r: Run, r': Run)
    requires LastPrinted(r) && r.trades <= r'.trades && Happened(r.s, r'.s, r'.trades[|r.trades|..], Present(r.s))
    ensures LastPrinted(r')
  {
  }

  /** After executions the cascade ends with nothing triggered at the last price; the stops still parked
      followed the prices printed, those that left were reached by one. */
  lemma {:induction false} CascadeStops(stops0: map<OrderId, Order>, r: Run)
    requires StateInv(r.s) && TrailsOk(r.s.stops) && Since(stops0, r.s.stops, r.trades) && LastPrinted(r)
    ensures var r' := Cascade(r); StopsGood(r'.s) && Since(stops0, r'.s.stops, r'.trades) && LastPrinted(r')
    decreases |r.s.stops|
  {
    hide StateInv, Round, TrailsOk, Quiet, Followed, Since, Present, Happened;
    var px := r.s.c.last.value;
    assert r.trades[|r.trades| - 1] in r.trades;
    RoundInv(r, px);
    RoundStops(stops0, r, px);
    RoundPrints(r, px, Present(r.s));
    PrintsOn(r, Round(r, px));
    SinceMore(stops0, Round(r, px).s.stops, r.trades, Round(r, px).trades);
    if Firing(TrailAll(r.s.stops, px), px) != {} {
      CascadeStops(stops0, Round(r, px));
    }
  }

  /** Without executions it changes nothing. */
  lemma QuietCascade(r: Run)
    requires StateInv(r.s) && StopsGood(r.s)
    ensures Cascade(r) == r
  {
    hide StateInv, Round, Quiet, Followed, TrailsOk, TrailAll, Firing;
    if r.s.c.last.Some? {
      var px := r.s.c.last.value;
      AllTriggers(r.s);
      RoundInv(r, px);
      QuietTrails(r.s.stops, px);
    }
  }

  lemma QuietTrails(stops: map<OrderId, Order>, px: int)
    requires Quiet(stops, Some(px)) && Followed(stops, Some(px)) && forall id :: id in stops ==> stops[id].trigger.Some?
    ensures TrailAll(stops, px) == stops && Firing(stops, px) == {}
  {
    forall id | id in stops ensures Trailed(stops[id], px) == stops[id] && !StopTriggered(stops[id], px) {
      assert Keeps(stops[id], px);
    }
  }

  // --------------------------------------------------------- every operation

  /** After an operation with executions `trades`: nothing triggered, anchors right and followed.  Stops
      still parked only ratcheted; those of `out` apart, those that left were reached. */
  ghost predicate StopsAfter(s: State, s': State, trades: seq<Trade>, out: set<OrderId>) {
    && StopsGood(s')
    && (forall id :: id in s.stops && id in s'.stops ==> Ratchets(s.stops[id], s'.stops[id], trades))
    && (forall id :: id in s.stops && id !in s'.stops ==> id in out || WasReached(s.stops[id], trades))
  }

  lemma UnchangedStops(s: State, s': State, trades: seq<Trade>, out: set<OrderId>)
    requires StateInv(s) && StopsGood(s) && s'.c.last == s.c.last && s.stops.Keys - out <= s'.stops.Keys <= s.stops.Keys
    requires forall id :: id in s'.stops ==> s'.stops[id] == s.stops[id]
    ensures StopsAfter(s, s', trades, out)
  {
  }

  /** The cascade after executions, or after none with the last price unchanged; repricing or not. */
  lemma CascadeAfter(s: State, r: Run, c: Core)
    requires StateInv(s) && StateInv(r.s) && StopsGood(s) && r.s.stops == s.stops
    requires r.s.c.last == LastOf(s.c.last, r.trades) && c.last == Cascade(r).s.c.last
    ensures StopsAfter(s, Cascade(r).s.(c := c), Cascade(r).trades, {})
  {
    hide StateInv, Since, Cascade, Quiet, TrailsOk, Followed, StopsAfter;
    AllTriggers(s);
    if r.trades == [] {
      QuietCascade(r);
      UnchangedStops(s, r.s.(c := c), [], {});
    } else {
      SinceSame(s.stops, r.trades);
      CascadeStops(s.stops, r);
      SinceAfter(s, Cascade(r).s.(c := c), Cascade(r).trades);
    }
  }

  lemma SinceAfter(s: State, s': State, trades: seq<Trade>)
    requires StopsGood(s') && Since(s.stops, s'.stops, trades)
    ensures StopsAfter(s, s', trades, {})
  {
    hide Ratchets, WasReached;
  }

  lemma RepriceAllLast(c: Core)
    requires Inv(c)
    ensures RepriceAll(c).last == c.last
  {
    PrintedNone(c, c, {});
    RepricedPrints(c, c, {});
  }

  /** Cascade after executions, then repricing. */
  lemma SettleAfter(s: State, s1: State, trades: seq<Trade>)
    requires StateInv(s) && StateInv(s1) && StopsGood(s) && s1.stops == s.stops
    requires s1.c.last == LastOf(s.c.last, trades)
    ensures var r := if trades != [] then Cascade(Run(s1, trades)) else Run(s1, trades);
      StateInv(r.s) && StopsAfter(s, r.s.(c := RepriceAll(r.s.c)), r.trades, {})
  {
    CascadeInv(Run(s1, trades));
    var r := if trades != [] then Cascade(Run(s1, trades)) else Run(s1, trades);
    RepriceAllLast(r.s.c);
    if trades != [] {
      hide StateInv, StopsAfter, StopsGood, Cascade, RepriceAll;
      CascadeAfter(s, Run(s1, trades), RepriceAll(r.s.c));
    } else {
      UnchangedStops(s, r.s.(c := RepriceAll(r.s.c)), [], {});
    }
  }

  lemma SubmitTradeStops(s: State, o: Order)
    requires StateInv(s) && Fresh(s, o) && StopsGood(s)
    ensures var r := SubmitTrade(s, o); StopsAfter(s, r.s, r.out.trades, {})
  {
    hide Inv, StopsOk, QueueOk, StopsGood, StopsAfter, RepriceAll, Told, Among;
    var m0 := Match(s.c, o, [], false);
    var m := MatchAll(m0);
    TradeInv(s, o);
    MatchPrints(m0, s.c.orders.Keys + {o.id});
    assert m.trades[0..] == m.trades;
    var rests := m.o.leaves > 0 && !m.halted && !m.o.Discards();
    SettleAfter(s, s.(c := if rests then Rest(m.c, m.o) else m.c), m.trades);
  }

  lemma SubmitSizedStops(s: State, o: Order)
    requires StateInv(s) && Fresh(s, o) && StopsGood(s)
    ensures var r := SubmitSized(s, o); StopsAfter(s, r.s, r.out.trades, {})
  {
    hide Inv, StopsOk, QueueOk, StopsGood, StopsAfter, RepriceAll, SubmitTrade, Available, Restable;
    UnchangedStops(s, s, [], {});
    SubmitTradeStops(s, o);
    RestStateInv(s, o);
    SettleAfter(s, s.(c := Rest(s.c, o)), []);
  }

  lemma SubmitPlainStops(s: State, o: Order)
    requires StateInv(s) && Fresh(s, o) && StopsGood(s)
    ensures var r := SubmitPlain(s, o); StopsAfter(s, r.s, r.out.trades, {})
  {
    UnchangedStops(s, s, [], {});
    hide StateInv, StopsGood, StopsAfter, SubmitSized;
    if !(o.Has(ReduceOnly) && Capacity(s.c, o) <= 0) {
      SubmitSizedStops(s, if o.Has(ReduceOnly) then Capped(o, Capacity(s.c, o)) else o);
    }
  }

  lemma SubmitPegStops(s: State, o: Order)
    requires StateInv(s) && Fresh(s, o) && StopsGood(s)
    ensures var r := SubmitPeg(s, o); StopsAfter(s, r.s, r.out.trades, {})
  {
    hide PegPrice, StopsAfter, StopsGood, StateInv, Fresh;
    UnchangedStops(s, SubmitPeg(s, o).s, [], {});
  }

  lemma ParksStop(s: State, a: Order)
    requires StateInv(s) && StopsGood(s) && a.id !in s.stops && a.trigger.Some? && TrailOk(a)
    requires s.c.last.Some? ==> Keeps(a, s.c.last.value) && !StopTriggered(a, s.c.last.value)
    ensures StopsAfter(s, s.(stops := s.stops[a.id := a]), [], {})
  {
    hide Inv, QueueOk;
  }

  lemma SubmitStopStops(s: State, o: Order)
    requires StateInv(s) && Fresh(s, o) && StopsGood(s) && o.trigger.Some?
    ensures var r := SubmitStop(s, o); StopsAfter(s, r.s, r.out.trades, {})
  {
    hide Inv, StopsOk, QueueOk, StopsGood, StopsAfter, Inject, Told, Among, StopTriggered, Keeps, TrailOk;
    var a := Armed(o, s.c.last);
    ArmedTrails(o, s.c.last);
    if s.c.last.Some? && StopTriggered(a, s.c.last.value) {
      var b := MarkTriggered(a);
      StopInv(s, b);
      InjectPrints(s.c, b, [], s.c.orders.Keys + {b.id});
      var m := Inject(s.c, b, []);
      assert m.trades[0..] == m.trades;
      CascadeAfter(s, Run(s.(c := m.c), m.trades), Cascade(Run(s.(c := m.c), m.trades)).s.c);
    } else {
      ParksStop(s, a);
    }
  }

  lemma RoutedStops(s: State, o: Order)
    requires StateInv(s) && Fresh(s, o) && StopsGood(s)
    ensures var r := Routed(s, o); StopsAfter(s, r.s, r.out.trades, {})
  {
    hide StateInv, StopsGood, StopsAfter, SubmitPlain, SubmitStop, SubmitPeg, Fresh;
    UnchangedStops(s, s.(opening := s.opening + [o]), [], {});
    UnchangedStops(s, s.(closing := s.closing + [o]), [], {});
    SubmitPlainStops(s, o);
    SubmitPegStops(s, o);
    if o.trigger.Some? { SubmitStopStops(s, o); }
  }

  lemma SubmitStops(s: State, o0: Order)
    requires StateInv(s) && Admissible(s, o0) && StopsGood(s)
    ensures var r := Submit(s, o0); StopsAfter(s, r.s, r.out.trades, {})
  {
    var o := Stamp(o0, s.c.nextSeq);
    var s1 := s.(c := StampCore(s.c, o.id));
    StampInv(s, o0);
    UnchangedStops(s, s1, [], {});
    hide StateInv, Quiet, TrailsOk, Followed, Routed, Fresh, Ratchets, WasReached;
    if Fresh(s1, o) { RoutedStops(s1, o); }
  }

  lemma CancelStops(s: State, id: OrderId)
    requires StateInv(s) && StopsGood(s)
    ensures StopsAfter(s, Cancel(s, id).0, [], {id})
  {
    hide StateInv, StopsGood, StopsAfter, Cancel, Others, AllStay, Told, Among;
    CancelTakesOut(s, id);
    CancelTold(s, id, {});
    UnchangedStops(s, Cancel(s, id).0, [], {id});
  }

  lemma ExpireStops(s: State, now: int)
    requires StateInv(s) && StopsGood(s)
    ensures StopsAfter(s, Expire(s, now), [], {})
  {
    hide StateInv, StopsGood, StopsAfter, CancelAll, AllStay, Present, Told, Among;
    ExpireTakesOut(s, now);
    var ids := Expired(s.c, now);
    ByIdTotal(ids);
    CancelAllPrints(s, Sorted(ById(ids), ids), Present(s));
    UnchangedStops(s, Expire(s, now), [], {});
  }

  lemma AuctionStops(s: State, open: bool)
    requires StateInv(s) && StopsGood(s)
    ensures var r := RunAuction(s, open); StopsAfter(s, r.s, r.trades, {})
  {
    hide StateInv, StopsGood, StopsAfter, CrossAndEnter, Present, Told, Among, RepriceAll, Cascade;
    UnchangedStops(s, s, [], {});
    var queue := if open then s.opening else s.closing;
    if queue != [] {
      var y := Crossed(s, open);
      CrossedInv(s, open);
      CrossedPrints(s, open, Present(s));
      if y.trades == [] {
        UnchangedStops(s, y.s, [], {});
      } else {
        SettleAfter(s, y.s, y.trades);
      }
    }
  }

  // ------------------------------------------------------------- parking

  /** How `o0` is parked at last price `last`: a trailing stop is anchored there or, before the first
      trade, at its own stop price. */
  predicate Parked(o0: Order, last: Option<int>, o: Order) {
    && o.id == o0.id && o.side == o0.side && o.client == o0.client && o0.trigger.Some? && o.trigger.Some?
    && var t0, t := o0.trigger.value, o.trigger.value;
    && t.kind == t0.kind && t.trailBy == t0.trailBy && !t.triggered
    && (if t.kind == Stop then t.stopPrice == t0.stopPrice
        else t.highWater == if last.Some? then last.value else t0.stopPrice)
  }

  ghost predicate OnlyParks(stops: map<OrderId, Order>, stops': map<OrderId, Order>, o: Order, last: Option<int>) {
    forall id :: id in stops' && id !in stops ==> id == o.id && Parked(o, last, stops'[id])
  }

  lemma {:induction false} CascadeNoNew(r: Run)
    requires StateInv(r.s)
    ensures Cascade(r).s.stops.Keys <= r.s.stops.Keys
    decreases |r.s.stops|
  {
    hide StateInv, Round;
    if r.s.c.last.Some? {
      var px := r.s.c.last.value;
      RoundInv(r, px);
      if Firing(TrailAll(r.s.stops, px), px) != {} { CascadeNoNew(Round(r, px)); }
    }
  }

  lemma PlainNoNew(s: State, o: Order)
    requires StateInv(s) && Fresh(s, o)
    ensures SubmitTrade(s, o).s.stops.Keys <= s.stops.Keys
    ensures SubmitSized(s, o).s.stops.Keys <= s.stops.Keys
  {
    hide Inv, StopsOk, QueueOk, Fresh, Cascade, RepriceAll, Rest, MatchAll, Available;
    TradeInv(s, o);
    var m := MatchAll(Match(s.c, o, [], false));
    if m.o.leaves > 0 { CascadeNoNew(Run(s.(c := Rest(m.c, m.o)), m.trades)); }
    CascadeNoNew(Run(s.(c := m.c), m.trades));
  }

  lemma StopParks(s: State, o: Order)
    requires StateInv(s) && Fresh(s, o) && o.trigger.Some? && !o.trigger.value.triggered
    ensures OnlyParks(s.stops, SubmitStop(s, o).s.stops, o, s.c.last)
  {
    hide Inv, StopsOk, QueueOk, Inject, Cascade;
    var a := Armed(o, s.c.last);
    if s.c.last.Some? && StopTriggered(a, s.c.last.value) {
      var b := MarkTriggered(a);
      StopInv(s, b);
      var m := Inject(s.c, b, []);
      CascadeNoNew(Run(s.(c := m.c), m.trades));
    }
  }

  lemma ScreenedNoNew(s: State, o: Order)
    requires StateInv(s) && Fresh(s, o)
    ensures SubmitPlain(s, o).s.stops.Keys <= s.stops.Keys
  {
    hide StateInv, Fresh, SubmitSized, Capacity, Crosses;
    if o.Has(ReduceOnly) && Capacity(s.c, o) > 0 {
      CappedFresh(s, o);
      PlainNoNew(s, Capped(o, Capacity(s.c, o)));
    }
    PlainNoNew(s, o);
  }

  lemma RoutedParks(s: State, o: Order)
    requires StateInv(s) && Fresh(s, o)
    ensures OnlyParks(s.stops, Routed(s, o).s.stops, o, s.c.last)
  {
    hide StateInv, Fresh, SubmitPlain, SubmitStop, PegPrice, Rest, Parked;
    ScreenedNoNew(s, o);
    if o.trigger.Some? && !o.trigger.value.triggered { StopParks(s, o); }
  }

  /** A submit parks nothing but its own order, anchored as it should be. */
  lemma SubmitParks(s: State, o0: Order)
    requires StateInv(s) && Admissible(s, o0)
    ensures OnlyParks(s.stops, Submit(s, o0).s.stops, o0, s.c.last)
  {
    hide StateInv, Fresh, Routed;
    var o := Stamp(o0, s.c.nextSeq);
    var s1 := s.(c := StampCore(s.c, o.id));
    StampInv(s, o0);
    if Fresh(s1, o) { RoutedParks(s1, o); }
  }

  lemma CappedFresh(s: State, o: Order)
    requires Fresh(s, o) && Capacity(s.c, o) > 0
    ensures Fresh(s, Capped(o, Capacity(s.c, o)))
  {
  }

  /** The stops an operation takes out by itself. */
  function TakenOut(op: Op): set<OrderId> {
    if op.OpCancel? then {op.id} else {}
  }

  /** Every operation leaves no parked stop triggered.  Trailing stops only ratchet, to prices printed by
      its executions and at least to the last; a stop leaves only if it is cancelled or a printed price
      reached it. */
  lemma ApplyStops(s: State, op: Op)
    requires StateInv(s) && Legal(s, op) && StopsGood(s)
    ensures StopsAfter(s, Apply(s, op), TradesOf(s, op), TakenOut(op))
  {
    match op
    case OpSubmit(o) => hide StateInv, StopsGood, StopsAfter, Submit, Admissible; SubmitStops(s, o);
    case OpCancel(id) => hide StateInv, StopsGood, StopsAfter, Cancel; CancelStops(s, id);
    case OpExpire(now) => hide StateInv, StopsGood, StopsAfter, Expire; ExpireStops(s, now);
    case OpAuction(open) => hide StateInv, StopsGood, StopsAfter, RunAuction; AuctionStops(s, open);
    case _ => UnchangedStops(s, Apply(s, op), [], {});
  }

  /** Between the operations of any run: no parked stop is triggered at the last price, and every
      trailing stop sits at its anchor less (or plus) its trail, the anchor never behind the last price. */
  lemma {:induction false} StopsGoodAfterRun(s: State, ops: seq<Op>)
    requires StateInv(s) && LegalRun(s, ops) && StopsGood(s)
    ensures StopsGood(RunOps(s, ops))
    decreases |ops|
  {
    hide StateInv, Apply, TradesOf, Quiet, TrailsOk, Followed;
    if ops != [] {
      ApplyInv(s, ops[0]);
      ApplyStops(s, ops[0]);
      StopsGoodAfterRun(Apply(s, ops[0]), ops[1..]);
    }
  }
}
