/** What an operation's executions say: who took part, what the market was told of them, and that the
    last of them sets the last price (src/core/order_book.cc, match_side, evaluate_stops, cross_auction). */
module Executions {
  import opened OrderTypes
  import opened BookCore
  import opened Matching
  import opened Liquidity
  import opened Ordering
  import opened Pegs
  import opened Auctions
  import opened Crossing
  import opened Sessions
  import opened Cancels
  import opened Runs

  /** The executions a sequence of events reports. */
  function Told(events: seq<BookEvent>): seq<Trade>
    decreases |events|
  {
    if events == [] then []
    else
      var e := events[|events| - 1];
      Told(events[..|events| - 1])
      + if e.typ == EvTrade then [Trade(e.taker, e.id, e.side, e.price, e.qty)] else []
  }

  lemma {:induction false} ToldBoth(a: seq<BookEvent>, b: seq<BookEvent>)
    ensures Told(a + b) == Told(a) + Told(b)
    decreases |b|
  {
    if b == [] {
      assert a + b == a;
    } else {
      var b' := b[..|b| - 1];
      ToldBoth(a, b');
      assert (a + b)[..|a + b| - 1] == a + b';
    }
  }

  /** The price of the last execution, or `last` if there is none. */
  function LastOf(last: Option<int>, trades: seq<Trade>): Option<int> {
    if trades == [] then last else Some(trades[|trades| - 1].price)
  }

  ghost predicate Among(trades: seq<Trade>, ids: set<OrderId>) {
    forall t :: t in trades ==> t.taker in ids && t.maker in ids
  }

  /** From `c` to `c'` the executions `more` happened: all between orders of `ids`, each reported once
      and in order, the last of them setting the last price. */
  ghost predicate Printed(c: Core, c': Core, more: seq<Trade>, ids: set<OrderId>) {
    && Among(more, ids) && c'.last == LastOf(c.last, more)
    && c.events <= c'.events && Told(c'.events[|c.events|..]) == more
  }

  lemma PrintedTrans(c: Core, c1: Core, c2: Core, a: seq<Trade>, b: seq<Trade>, ids: set<OrderId>)
    requires Printed(c, c1, a, ids) && Printed(c1, c2, b, ids)
    ensures Printed(c, c2, a + b, ids)
  {
    hide Told, Among, LastOf;
    ToldOn(c.events, c1.events, c2.events);
    AmongBoth(a, b, ids);
    LastOfBoth(c.last, a, b);
  }

  lemma AmongBoth(a: seq<Trade>, b: seq<Trade>, ids: set<OrderId>)
    requires Among(a, ids) && Among(b, ids)
    ensures Among(a + b, ids)
  {
  }

  lemma LastOfBoth(last: Option<int>, a: seq<Trade>, b: seq<Trade>)
    ensures LastOf(LastOf(last, a), b) == LastOf(last, a + b)
  {
    if b == [] { assert a + b == a; }
  }

  /** One event that reports no execution. */
  lemma PrintedQuiet(c: Core, c': Core, e: BookEvent, ids: set<OrderId>)
    requires c'.last == c.last && c'.events == c.events + [e] && e.typ != EvTrade
    ensures Printed(c, c', [], ids)
  {
    assert c'.events[|c.events|..] == [e];
    assert [e][..0] == [];
  }

  lemma PrintedNone(c: Core, c': Core, ids: set<OrderId>)
    requires c'.last == c.last && c'.events == c.events
    ensures Printed(c, c', [], ids)
  {
    assert c'.events[|c.events|..] == [];
  }

  // ---------------------------------------------------------------- matching

  lemma HitPrints(c: Core, o: Order, id: OrderId, x: int, ids: set<OrderId>)
    requires id in c.orders && c.orders[id].o.id == id && o.id in ids && id in ids
    ensures Printed(c, Hit(c, o, id, x), [Trade(o.id, id, o.side, c.orders[id].o.price, x)], ids)
  {
    var t := Trade(o.id, id, o.side, c.orders[id].o.price, x);
    var e := TradeEvent(c.symbol, t, LitFill(c.orders[id], x));
    var c' := Hit(c, o, id, x);
    var c1 := Print(c, o, c.orders[id], x);
    assert c1.events[|c.events|..] == [e];
    assert [e][..0] == [] && Told([e]) == [t];
    hide Told, AddDisp, ApplyFill, Release, Detach, Attach;
    if c'.events == c1.events {
      PrintedNone(c1, c', ids);
    } else {
      PrintedQuiet(c1, c', c'.events[|c1.events|], ids);
    }
    assert [t] + [] == [t];
    PrintedTrans(c, c1, c', [t], [], ids);
  }

  /** A step of matching prints the execution it adds, if any. */
  lemma ActPrints(m: Match, id: OrderId, ids: set<OrderId>)
    requires Inv(m.c) && id in m.c.orders && m.o.id in ids && id in ids
    ensures var m' := Act(m, id);
      m.trades <= m'.trades && Printed(m.c, m'.c, m'.trades[|m.trades|..], ids)
  {
    MakerSound(m.c, id);
    hide Inv, Printed, Hit, Withdraw;
    var m' := Act(m, id);
    var mk := m.c.orders[id];
    if StpHit(m.c, m.o, mk) {
      assert m'.trades[|m.trades|..] == [];
      if m.c.stp.Resting() {
        WithdrawPrints(m.c, id, ids);
      } else {
        PrintedNone(m.c, m.c, ids);
      }
    } else {
      var x := FillSize(m.o, mk);
      HitPrints(m.c, m.o, id, x, ids);
      assert m'.trades[|m.trades|..] == [Trade(m.o.id, id, m.o.side, mk.o.price, x)];
    }
  }

  lemma WithdrawPrints(c: Core, id: OrderId, ids: set<OrderId>)
    requires id in c.orders
    ensures Printed(c, Withdraw(c, id), [], ids)
  {
    hide Printed, AddDisp, Release, Detach;
    PrintedQuiet(c, Withdraw(c, id), Withdraw(c, id).events[|c.events|], ids);
  }

  lemma RestPrints(c: Core, o: Order, ids: set<OrderId>)
    ensures Printed(c, Rest(c, o), [], ids)
  {
    hide Printed, AddDisp, Reserve, Attach;
    PrintedQuiet(c, Rest(c, o), Rest(c, o).events[|c.events|], ids);
  }

  lemma Grown(a: seq<Trade>, b: seq<Trade>, c: seq<Trade>)
    requires a <= b <= c
    ensures a <= c && c[|a|..] == b[|a|..] + c[|b|..]
  {
  }

  /** Matching executes against resting orders only, and the last execution sets the last price. */
  lemma {:induction false} MatchPrints(m: Match, ids: set<OrderId>)
    requires Inv(m.c) && m.o.id in ids && m.c.orders.Keys <= ids
    ensures var r := MatchAll(m);
      m.trades <= r.trades && Printed(m.c, r.c, r.trades[|m.trades|..], ids)
    decreases Work(m)
  {
    hide Inv, Act, Printed;
    if Done(m) {
      assert m.trades[|m.trades|..] == [];
      PrintedNone(m.c, m.c, ids);
    } else {
      var id := Next(m.c, m.o).value;
      NextSound(m.c, m.o);
      ActInv(m, id);
      ActEvolves(m, id);
      ActPrints(m, id, ids);
      var m' := Act(m, id);
      KeysWithin(m.c, m'.c);
      MatchPrints(m', ids);
      Grown(m.trades, m'.trades, MatchAll(m).trades);
      PrintedTrans(m.c, m'.c, MatchAll(m).c, m'.trades[|m.trades|..], MatchAll(m).trades[|m'.trades|..], ids);
    }
  }

  lemma KeysWithin(c: Core, c': Core)
    requires Evolves(c, c')
    ensures c'.orders.Keys <= c.orders.Keys
  {
  }

  lemma InjectPrints(c: Core, o: Order, trades: seq<Trade>, ids: set<OrderId>)
    requires Inv(c) && o.id in ids && c.orders.Keys <= ids
    ensures var m := Inject(c, o, trades);
      trades <= m.trades && Printed(c, m.c, m.trades[|trades|..], ids)
  {
    hide Inv, MatchAll, Printed, Rest;
    var m0 := Match(c, o, trades, false);
    MatchPrints(m0, ids);
    var m := MatchAll(m0);
    var more := m.trades[|trades|..];
    if m.o.leaves > 0 && !m.o.Discards() {
      RestPrints(m.c, m.o, ids);
      assert more + [] == more;
      PrintedTrans(c, m.c, Rest(m.c, m.o), more, [], ids);
    }
  }

  /** Where an execution of a match takes place: at the price of a resting contra order that the
      aggressor's limit, widened by a discretion band, reaches, of another account unless self-trades are
      allowed; and for a positive quantity. */
  ghost predicate AtMaker(c: Core, o: Order, t: Trade) {
    && t.taker == o.id && t.takerSide == o.side && t.qty > 0
    && t.maker in c.orders && c.orders[t.maker].o.side != o.side && c.orders[t.maker].o.price == t.price
    && (c.stp != StpNone && o.client != 0 ==> c.orders[t.maker].o.client != o.client)
    && (o.typ == Limit ==>
          var band := if Discretion in o.flags && o.discretion > 0 then o.discretion else 0;
          if o.side == Buy then t.price <= o.price + band else t.price >= o.price - band)
  }

  lemma {:induction false} MatchAtMakers(m: Match)
    requires Inv(m.c)
    ensures var r := MatchAll(m);
      m.trades <= r.trades && forall t :: t in r.trades[|m.trades|..] ==> AtMaker(m.c, m.o, t)
    decreases Work(m)
  {
    hide Inv, Act;
    if !Done(m) {
      var id := Next(m.c, m.o).value;
      NextSound(m.c, m.o);
      ActInv(m, id);
      ActEvolves(m, id);
      MakerSound(m.c, id);
      ActAtMaker(m, id);
      var m' := Act(m, id);
      MatchAtMakers(m');
      Grown(m.trades, m'.trades, MatchAll(m).trades);
      forall t | t in MatchAll(m).trades[|m'.trades|..] ensures AtMaker(m.c, m.o, t) {
        assert AtMaker(m'.c, m'.o, t);
      }
    }
  }

  /** And matching stops short of nothing within reach: if it leaves a remainder and was not halted, every
      contra order left within the limit and the band is all-or-none and too large. */
  lemma MatchReachesBand(m: Match, id: OrderId)
    requires Inv(m.c)
    ensures var r := MatchAll(m);
      && !r.halted && r.o.leaves > 0 && id in r.c.orders && r.c.orders[id].o.side != m.o.side
      && (var band := if Discretion in m.o.flags && m.o.discretion > 0 then m.o.discretion else 0;
          var p := r.c.orders[id].o.price;
          m.o.typ == Market || if m.o.side == Buy then p <= m.o.price + band else p >= m.o.price - band)
      ==> Aon in r.c.orders[id].o.flags && r.c.orders[id].o.leaves > r.o.leaves
  {
    RemainderBlocked(m, id);
    MatchAllEvolves(m);
    hide MatchAll, Inv;
  }

  lemma ActAtMaker(m: Match, id: OrderId)
    requires id in m.c.orders && m.c.orders[id].o.side == m.o.side.Opposite() && m.o.Accepts(m.c.orders[id].o.price)
    requires m.o.leaves > 0 && m.c.orders[id].Exposed() > 0
    ensures m.trades <= Act(m, id).trades
    ensures forall t :: t in Act(m, id).trades[|m.trades|..] ==> AtMaker(m.c, m.o, t)
  {
    hide Hit, Withdraw;
  }

  /** A resting order of the aggressor's own account, where self-trades are prevented. */
  predicate Own(c: Core, o: Order, id: OrderId)
    requires id in c.orders
  {
    c.stp != StpNone && o.client != 0 && c.orders[id].o.client == o.client
  }

  /** What self-trade prevention does to the account's resting orders.  Cancel-aggressor leaves every one
      of them alone; cancel-both takes one out exactly when it halts the aggressor; cancel-resting never
      halts it. */
  lemma {:induction false} OwnMakersFate(m: Match)
    requires Inv(m.c) && !m.halted
    ensures var r := MatchAll(m);
      && (m.c.stp == CancelAggressor ==>
            forall id :: id in m.c.orders && Own(m.c, m.o, id) ==> id in r.c.orders && r.c.orders[id] == m.c.orders[id])
      && (r.halted ==> m.c.stp == CancelAggressor || m.c.stp == CancelBoth)
      && (m.c.stp == CancelBoth ==>
            (r.halted <==> exists id :: id in m.c.orders && Own(m.c, m.o, id) && id !in r.c.orders))
    decreases Work(m)
  {
    hide Inv, Act, Evolves;
    if !Done(m) {
      var id := Next(m.c, m.o).value;
      NextSound(m.c, m.o);
      ActInv(m, id);
      ActOthers(m, id);
      ActOwn(m, id);
      MakerClient(m, id);
      var m' := Act(m, id);
      if m'.halted {
        assert Done(m');
        assert Own(m.c, m.o, id);
      } else {
        OwnMakersFate(m');
      }
    }
  }

  lemma MakerClient(m: Match, id: OrderId)
    requires Inv(m.c) && m.o.leaves > 0 && id in m.c.orders
    ensures id in Act(m, id).c.orders ==> Act(m, id).c.orders[id].o.client == m.c.orders[id].o.client
  {
    hide Inv, Act;
    ActEvolves(m, id);
  }

  lemma ActOwn(m: Match, id: OrderId)
    requires id in m.c.orders
    ensures var m' := Act(m, id);
      && m'.o.client == m.o.client
      && (m'.halted <==> Own(m.c, m.o, id) && (m.c.stp == CancelAggressor || m.c.stp == CancelBoth))
      && (Own(m.c, m.o, id) ==> m'.trades == m.trades && m'.o == m.o)
      && (Own(m.c, m.o, id) && m.c.stp == CancelAggressor ==> m'.c == m.c)
      && (Own(m.c, m.o, id) && m.c.stp != CancelAggressor ==> id !in m'.c.orders)
  {
    hide Hit, AddDisp, Detach, Release;
  }

  /** With cancel-resting, a remainder meets no order of its own account within its reach. */
  lemma CancelRestingClears(m: Match, id: OrderId)
    requires Inv(m.c) && m.c.stp == CancelResting && !m.halted
    ensures var r := MatchAll(m);
      r.o.leaves > 0 && id in r.c.orders && r.c.orders[id].o.side != m.o.side && m.o.Accepts(r.c.orders[id].o.price)
      ==> !Own(r.c, m.o, id)
  {
    hide Inv, MatchAll, Live;
    OwnMakersFate(m);
    MatchAllInv(m);
    MatchAllEvolves(m);
    var r := MatchAll(m);
    if r.o.leaves > 0 && id in r.c.orders && r.c.orders[id].o.side != m.o.side && m.o.Accepts(r.c.orders[id].o.price)
      && Own(r.c, m.o, id)
    {
      OwnIsLive(r.c, r.o, id);
    }
  }

  lemma OwnIsLive(c: Core, o: Order, id: OrderId)
    requires Inv(c) && id in c.orders && Own(c, o, id)
    requires c.orders[id].o.side != o.side && o.Accepts(c.orders[id].o.price)
    ensures AnyLive(c, o)
  {
    assert id in Fifo(c.q, SlotOf(c.orders[id]));
    assert SlotOf(c.orders[id]) == Contra(o, c.orders[id].o.price);
    assert Live(c, o, c.orders[id].o.price);
  }

  /** A price is within reach of an aggressor exactly when it is a market order or the price does not
      exceed its limit by more than its discretion band. */
  lemma AcceptsIff(o: Order, p: int)
    ensures o.Accepts(p) <==>
      || o.typ == Market
      || (o.side == Buy && p <= o.price)
      || (o.side == Sell && p >= o.price)
      || (Discretion in o.flags && o.side == Buy && p - o.price <= o.discretion)
      || (Discretion in o.flags && o.side == Sell && o.price - p <= o.discretion)
  {
  }

  // ---------------------------------------------------------- who is present

  /** The ids of the orders that rest, are parked or wait for an auction. */
  ghost function Present(s: State): set<OrderId> {
    s.c.orders.Keys + s.stops.Keys + QueueIds(s.opening) + QueueIds(s.closing)
  }

  ghost function QueueIds(queue: seq<Order>): set<OrderId> {
    set o | o in queue :: o.id
  }

  /** From `s` to `s'` the executions `more` happened, and nobody came but those of `ids`. */
  ghost predicate Happened(s: State, s': State, more: seq<Trade>, ids: set<OrderId>) {
    Printed(s.c, s'.c, more, ids) && Present(s') <= ids
  }

  lemma HappenedTrans(s: State, s1: State, s2: State, a: seq<Trade>, b: seq<Trade>, ids: set<OrderId>)
    requires Happened(s, s1, a, ids) && Happened(s1, s2, b, ids)
    ensures Happened(s, s2, a + b, ids)
  {
    hide Printed;
    PrintedTrans(s.c, s1.c, s2.c, a, b, ids);
  }

  lemma HappenedNone(s: State, s': State, ids: set<OrderId>)
    requires Present(s') <= ids && s'.c.last == s.c.last && s'.c.events == s.c.events
    ensures Happened(s, s', [], ids)
  {
    hide Printed;
    PrintedNone(s.c, s'.c, ids);
  }

  /** A changed resting book, the rest of the state as it was or less. */
  lemma HappenedCore(s: State, s': State, more: seq<Trade>, ids: set<OrderId>)
    requires Printed(s.c, s'.c, more, ids) && s'.c.orders.Keys <= ids && Present(s) <= ids
    requires s'.stops.Keys <= s.stops.Keys
    requires forall o :: o in s'.opening || o in s'.closing ==> o in s.opening || o in s.closing
    ensures Happened(s, s', more, ids)
  {
    hide Printed;
    forall id | id in Present(s') ensures id in ids {
      if id !in s'.c.orders && id !in s'.stops {
        var o :| (o in s'.opening || o in s'.closing) && o.id == id;
        assert o.id in QueueIds(s.opening) || o.id in QueueIds(s.closing);
      }
    }
  }

  // ----------------------------------------------------------------- cascade

  lemma FireOnePrints(r: Run, id: OrderId, ids: set<OrderId>)
    requires StateInv(r.s) && id in r.s.stops && Present(r.s) <= ids
    ensures var r' := FireOne(r, id);
      r.trades <= r'.trades && Happened(r.s, r'.s, r'.trades[|r.trades|..], ids)
  {
    var o := MarkTriggered(r.s.stops[id]);
    var c := Announce(r.s.c, o);
    AnnounceInv(r.s.c, o);
    assert Inv(r.s.c) && o.id == id && id in ids && c.orders == r.s.c.orders;
    InjectKeys(c, o, r.trades, ids);
    hide Inv, StopsOk, QueueOk, Inject, Happened, Printed, Present;
    PrintedQuiet(r.s.c, c, c.events[|r.s.c.events|], ids);
    InjectPrints(c, o, r.trades, ids);
    var r' := FireOne(r, id);
    var more := r'.trades[|r.trades|..];
    PrintedTrans(r.s.c, c, r'.s.c, [], more, ids);
    assert [] + more == more;
    HappenedCore(r.s, r'.s, more, ids);
  }

  lemma InjectKeys(c: Core, o: Order, trades: seq<Trade>, ids: set<OrderId>)
    requires Inv(c) && o.id in ids && c.orders.Keys <= ids
    ensures Inject(c, o, trades).c.orders.Keys <= ids
  {
    hide Inv, MatchAll;
    MatchAllEvolves(Match(c, o, trades, false));
  }

  lemma {:induction false} FireAllPrints(r: Run, stops: seq<OrderId>, ids: set<OrderId>)
    requires StateInv(r.s) && NoDup(stops) && (forall id :: id in stops ==> id in r.s.stops) && Present(r.s) <= ids
    ensures var r' := FireAll(r, stops);
      r.trades <= r'.trades && Happened(r.s, r'.s, r'.trades[|r.trades|..], ids)
    decreases |stops|
  {
    hide Inv, StopsOk, QueueOk, FireOne, Printed, Present;
    if stops == [] {
      assert r.trades[|r.trades|..] == [];
      HappenedNone(r.s, r.s, ids);
    } else {
      FireOneInv(r, stops[0]);
      HeadGone(stops);
      FireOnePrints(r, stops[0], ids);
      var r1 := FireOne(r, stops[0]);
      FireAllPrints(r1, stops[1..], ids);
      Grown(r.trades, r1.trades, FireAll(r, stops).trades);
      var r2 := FireAll(r, stops);
      HappenedTrans(r.s, r1.s, r2.s, r1.trades[|r.trades|..], r2.trades[|r1.trades|..], ids);
    }
  }

  lemma RoundPrints(r: Run, px: int, ids: set<OrderId>)
    requires StateInv(r.s) && Present(r.s) <= ids
    ensures var r' := Round(r, px);
      r.trades <= r'.trades && Happened(r.s, r'.s, r'.trades[|r.trades|..], ids)
  {
    hide StateInv, Printed, FireAll;
    TrailInv(r.s, px);
    var s1 := r.s.(stops := TrailAll(r.s.stops, px));
    assert s1.stops.Keys == r.s.stops.Keys;
    FireAllPrints(r.(s := s1), FireOrder(s1, px), ids);
    HappenedNone(r.s, s1, ids);
    var more := Round(r, px).trades[|r.trades|..];
    HappenedTrans(r.s, s1, Round(r, px).s, [], more, ids);
    assert [] + more == more;
  }

  lemma {:induction false} CascadePrints(r: Run, ids: set<OrderId>)
    requires StateInv(r.s) && Present(r.s) <= ids
    ensures var r' := Cascade(r);
      r.trades <= r'.trades && Happened(r.s, r'.s, r'.trades[|r.trades|..], ids)
    decreases |r.s.stops|
  {
    hide StateInv, Printed, Round, Present;
    if r.s.c.last.None? {
      assert r.trades[|r.trades|..] == [];
      HappenedNone(r.s, r.s, ids);
    } else {
      var px := r.s.c.last.value;
      RoundInv(r, px);
      RoundPrints(r, px, ids);
      if Firing(TrailAll(r.s.stops, px), px) != {} {
        var r1, r2 := Round(r, px), Cascade(r);
        CascadePrints(r1, ids);
        Grown(r.trades, r1.trades, r2.trades);
        HappenedTrans(r.s, r1.s, r2.s, r1.trades[|r.trades|..], r2.trades[|r1.trades|..], ids);
      }
    }
  }

  lemma {:induction false} RepricePrints(c: Core, pegs: seq<OrderId>, ids: set<OrderId>)
    ensures Printed(c, Reprice(c, pegs), [], ids) && Reprice(c, pegs).orders.Keys == c.orders.Keys
    decreases |pegs|
  {
    hide Printed;
    if pegs == [] {
      PrintedNone(c, c, ids);
    } else {
      var c1 := RepriceOne(c, pegs[0]);
      RepriceOnePrints(c, pegs[0], ids);
      RepricePrints(c1, pegs[1..], ids);
      PrintedTrans(c, c1, Reprice(c, pegs), [], [], ids);
      var none: seq<Trade> := [];
      assert none + none == none;
    }
  }

  lemma MovePrints(c: Core, id: OrderId, price: int, ids: set<OrderId>)
    requires id in c.orders
    ensures Printed(c, Move(c, id, price), [], ids) && Move(c, id, price).orders.Keys == c.orders.Keys
  {
    hide Printed, AddDisp, Attach, Detach;
    PrintedQuiet(c, Move(c, id, price), Move(c, id, price).events[|c.events|], ids);
  }

  lemma RepriceOnePrints(c: Core, id: OrderId, ids: set<OrderId>)
    ensures Printed(c, RepriceOne(c, id), [], ids) && RepriceOne(c, id).orders.Keys == c.orders.Keys
  {
    hide Printed, Move, PegPrice;
    PrintedNone(c, c, ids);
    PrintedNone(c, c.(pegged := c.pegged - {id}), ids);
    if id in c.orders && PegPrice(c, c.orders[id].o).Some? {
      MovePrints(c, id, PegPrice(c, c.orders[id].o).value, ids);
    }
  }

  lemma RepriceAllPrints(s: State, more: seq<Trade>, s0: State, ids: set<OrderId>)
    requires Inv(s.c) && Happened(s0, s, more, ids)
    ensures Happened(s0, s.(c := RepriceAll(s.c)), more, ids)
  {
    hide Inv, Printed;
    PegsKeyed(s.c);
    RepricePrints(s.c, Sorted(Arrival(s.c), s.c.pegged), ids);
    PrintedTrans(s0.c, s.c, RepriceAll(s.c), more, [], ids);
    assert more + [] == more;
  }

  // ------------------------------------------------------------------ submit

  lemma SettlePrints(s: State, s1: State, trades: seq<Trade>, ids: set<OrderId>)
    requires StateInv(s1) && Happened(s, s1, trades, ids)
    ensures var r := if trades != [] then Cascade(Run(s1, trades)) else Run(s1, trades);
      && StateInv(r.s)
      && Happened(s, r.s.(c := RepriceAll(r.s.c)), r.trades, ids)
  {
    assert Present(s1) <= ids;
    CascadeInv(Run(s1, trades));
    var r := if trades != [] then Cascade(Run(s1, trades)) else Run(s1, trades);
    assert Inv(r.s.c);
    hide StateInv, Happened, Cascade, RepriceAll, Present;
    if trades != [] {
      CascadePrints(Run(s1, trades), ids);
      HappenedTrans(s, s1, r.s, trades, r.trades[|trades|..], ids);
      assert trades + r.trades[|trades|..] == r.trades;
    }
    RepriceAllPrints(r.s, r.trades, s, ids);
  }

  lemma SubmitTradePrints(s: State, o: Order, ids: set<OrderId>)
    requires StateInv(s) && Fresh(s, o) && Present(s) + {o.id} <= ids
    ensures var r := SubmitTrade(s, o); Happened(s, r.s, r.out.trades, ids)
  {
    hide Inv, StopsOk, QueueOk, Restable, Happened, Printed, RepriceAll, Rest, MatchAll, Cascade, Present, Evolves;
    PresentResting(s, ids);
    var m0 := Match(s.c, o, [], false);
    var m := MatchAll(m0);
    TradeInv(s, o);
    MatchPrints(m0, ids);
    MatchAllEvolves(m0);
    KeysWithin(s.c, m.c);
    assert m.trades[0..] == m.trades;
    RestPrints(m.c, m.o, ids);
    RestKeys(m.c, m.o);
    assert m.trades + [] == m.trades;
    PrintedTrans(s.c, m.c, Rest(m.c, m.o), m.trades, [], ids);
    var rests := m.o.leaves > 0 && !m.halted && !m.o.Discards();
    var s1 := s.(c := if rests then Rest(m.c, m.o) else m.c);
    HappenedCore(s, s1, m.trades, ids);
    SettlePrints(s, s1, m.trades, ids);
  }

  lemma RestKeys(c: Core, o: Order)
    ensures Rest(c, o).orders.Keys == c.orders.Keys + {o.id}
  {
  }

  lemma PresentResting(s: State, ids: set<OrderId>)
    requires Present(s) <= ids
    ensures s.c.orders.Keys <= ids
  {
  }

  lemma SubmitSizedPrints(s: State, o: Order, ids: set<OrderId>)
    requires StateInv(s) && Fresh(s, o) && Present(s) + {o.id} <= ids
    ensures var r := SubmitSized(s, o); Happened(s, r.s, r.out.trades, ids)
  {
    hide StateInv, Restable, Happened, Printed, RepriceAll, Rest, SubmitTrade, Available, Present;
    PresentResting(s, ids);
    RestStateInv(s, o);
    HappenedNone(s, s, ids);
    SubmitTradePrints(s, o, ids);
    RestPrints(s.c, o, ids);
    RestKeys(s.c, o);
    HappenedCore(s, s.(c := Rest(s.c, o)), [], ids);
    SettlePrints(s, s.(c := Rest(s.c, o)), [], ids);
  }

  lemma SubmitPlainPrints(s: State, o: Order, ids: set<OrderId>)
    requires StateInv(s) && Fresh(s, o) && Present(s) + {o.id} <= ids
    ensures var r := SubmitPlain(s, o); Happened(s, r.s, r.out.trades, ids)
  {
    hide StateInv, Happened, SubmitSized, Present;
    assert Happened(s, s, [], ids) by { HappenedNone(s, s, ids); }
    if !(o.Has(ReduceOnly) && Capacity(s.c, o) <= 0) {
      SubmitSizedPrints(s, if o.Has(ReduceOnly) then Capped(o, Capacity(s.c, o)) else o, ids);
    }
  }

  lemma SubmitPegPrints(s: State, o: Order, ids: set<OrderId>)
    requires StateInv(s) && Fresh(s, o) && Present(s) + {o.id} <= ids
    ensures var r := SubmitPeg(s, o); Happened(s, r.s, r.out.trades, ids)
  {
    assert s.c.orders.Keys <= ids;
    hide StateInv, Fresh, Happened, Printed, Rest, PegPrice, Present;
    HappenedNone(s, s, ids);
    if PegPrice(s.c, o).Some? {
      var o1 := o.(typ := Limit, price := PegPrice(s.c, o).value);
      RestPrints(s.c, o1, ids);
      RestKeys(s.c, o1);
      SamePrinted(s.c, Rest(s.c, o1), SubmitPeg(s, o).s.c, [], ids);
      HappenedCore(s, SubmitPeg(s, o).s, [], ids);
    }
  }

  lemma SamePrinted(c: Core, c1: Core, c2: Core, more: seq<Trade>, ids: set<OrderId>)
    requires Printed(c, c1, more, ids) && c2.last == c1.last && c2.events == c1.events
    ensures Printed(c, c2, more, ids)
  {
  }

  lemma SubmitStopPrints(s: State, o: Order, ids: set<OrderId>)
    requires StateInv(s) && Fresh(s, o) && o.trigger.Some? && Present(s) + {o.id} <= ids
    ensures var r := SubmitStop(s, o); Happened(s, r.s, r.out.trades, ids)
  {
    hide Inv, StopsOk, QueueOk, Inject, Happened, Printed, Present, Cascade, StopTriggered;
    var a := Armed(o, s.c.last);
    if s.c.last.Some? && StopTriggered(a, s.c.last.value) {
      var b := MarkTriggered(a);
      StopInv(s, b);
      FiredPrints(s, b, ids);
    } else {
      ParkedPresent(s, a, ids);
    }
  }

  lemma ParkedPresent(s: State, a: Order, ids: set<OrderId>)
    requires Present(s) + {a.id} <= ids
    ensures Happened(s, s.(stops := s.stops[a.id := a]), [], ids)
  {
    hide Printed;
    HappenedNone(s, s.(stops := s.stops[a.id := a]), ids);
  }

  lemma FiredPrints(s: State, b: Order, ids: set<OrderId>)
    requires StateInv(s) && StateInv(s.(c := Inject(s.c, b, []).c)) && Present(s) + {b.id} <= ids
    ensures var m := Inject(s.c, b, []);
      var r := Cascade(Run(s.(c := m.c), m.trades));
      Happened(s, r.s, r.trades, ids)
  {
    hide Inv, StopsOk, QueueOk, Inject, Happened, Printed, Present, Cascade;
    PresentResting(s, ids);
    InjectKeys(s.c, b, [], ids);
    InjectPrints(s.c, b, [], ids);
    var m := Inject(s.c, b, []);
    assert m.trades[0..] == m.trades;
    var s1 := s.(c := m.c);
    HappenedCore(s, s1, m.trades, ids);
    HappenedPresent(s, s1, m.trades, ids);
    CascadePrints(Run(s1, m.trades), ids);
    var r := Cascade(Run(s1, m.trades));
    HappenedTrans(s, s1, r.s, m.trades, r.trades[|m.trades|..], ids);
    assert m.trades + r.trades[|m.trades|..] == r.trades;
  }

  lemma HappenedPresent(s: State, s': State, more: seq<Trade>, ids: set<OrderId>)
    requires Happened(s, s', more, ids)
    ensures Present(s') <= ids
  {
  }

  lemma SubmitPrints(s: State, o0: Order, ids: set<OrderId>)
    requires StateInv(s) && Admissible(s, o0) && Present(s) + {o0.id} <= ids
    ensures var r := Submit(s, o0); Happened(s, r.s, r.out.trades, ids)
  {
    hide StateInv, Happened, Routed, Fresh;
    var o := Stamp(o0, s.c.nextSeq);
    var s1 := s.(c := StampCore(s.c, o.id));
    StampInv(s, o0);
    HappenedNone(s, s1, ids);
    if Fresh(s1, o) {
      RoutedPrints(s1, o, ids);
      var r := Routed(s1, o);
      HappenedTrans(s, s1, r.s, [], r.out.trades, ids);
      assert [] + r.out.trades == r.out.trades;
    }
  }

  lemma RoutedPrints(s: State, o: Order, ids: set<OrderId>)
    requires StateInv(s) && Fresh(s, o) && Present(s) + {o.id} <= ids
    ensures var r := Routed(s, o); Happened(s, r.s, r.out.trades, ids)
  {
    hide StateInv, Happened, SubmitPlain, SubmitStop, SubmitPeg, Fresh, Present;
    QueuedPresent(s, o, ids);
    SubmitPlainPrints(s, o, ids);
    SubmitPegPrints(s, o, ids);
    if o.trigger.Some? { SubmitStopPrints(s, o, ids); }
  }

  lemma QueuedPresent(s: State, o: Order, ids: set<OrderId>)
    requires Present(s) + {o.id} <= ids
    ensures Happened(s, s.(opening := s.opening + [o]), [], ids)
    ensures Happened(s, s.(closing := s.closing + [o]), [], ids)
  {
    assert QueueIds(s.opening + [o]) <= QueueIds(s.opening) + {o.id};
    assert QueueIds(s.closing + [o]) <= QueueIds(s.closing) + {o.id};
    HappenedNone(s, s.(opening := s.opening + [o]), ids);
    HappenedNone(s, s.(closing := s.closing + [o]), ids);
  }

  // ---------------------------------------------------------------- auctions

  lemma CrossOneTold(cr: Cross, b: OrderId, s: OrderId, p: int, x: int)
    requires b in cr.w && s in cr.w
    ensures var cr1 := CrossOne(cr, b, s, p, x);
      && cr.c.events <= cr1.c.events && cr1.trades == cr.trades + [Trade(b, s, Buy, p, x)]
      && Told(cr1.c.events[|cr.c.events|..]) == [Trade(b, s, Buy, p, x)]
  {
    hide ApplyFill, LitFill;
    var cr1 := CrossOne(cr, b, s, p, x);
    var e := cr1.c.events[|cr.c.events|];
    assert cr1.c.events[|cr.c.events|..] == [e];
    assert [e][..0] == [];
  }

  /** The uniform-price cross reports each of its executions once, in order. */
  lemma {:induction false} CrossLoopTold(cr: Cross, buys: seq<OrderId>, sells: seq<OrderId>, p: int, left: int)
    requires InPool(cr.w, buys) && InPool(cr.w, sells)
    ensures var r := CrossLoop(cr, buys, sells, p, left);
      && cr.c.events <= r.c.events && cr.trades <= r.trades
      && Told(r.c.events[|cr.c.events|..]) == r.trades[|cr.trades|..]
    decreases |buys| + |sells|, left
  {
    hide Told;
    var r := CrossLoop(cr, buys, sells, p, left);
    if left <= 0 || buys == [] || sells == [] || !cr.w[buys[0]].o.TradesAt(p) || !cr.w[sells[0]].o.TradesAt(p)
      || buys[0] == sells[0]
    {
      assert cr.trades[|cr.trades|..] == [] && cr.c.events[|cr.c.events|..] == [];
      NothingTold();
    } else {
      var b, s := buys[0], sells[0];
      var x := Min(Min(cr.w[b].o.leaves, cr.w[s].o.leaves), left);
      var cr1 := CrossOne(cr, b, s, p, x);
      CrossOneTold(cr, b, s, p, x);
      CrossOnePool(cr, b, s, p, x);
      CrossLoopTold(cr1, Advance(cr1.w, buys), Advance(cr1.w, sells), p, left - x);
      ToldOn(cr.c.events, cr1.c.events, r.c.events);
      Grown(cr.trades, cr1.trades, r.trades);
      assert cr1.trades[|cr.trades|..] == [Trade(b, s, Buy, p, x)];
    }
  }

  lemma ToldOn(a: seq<BookEvent>, b: seq<BookEvent>, c: seq<BookEvent>)
    requires a <= b <= c
    ensures a <= c && Told(c[|a|..]) == Told(b[|a|..]) + Told(c[|b|..])
  {
    hide Told;
    ToldBoth(b[|a|..], c[|b|..]);
    assert c[|a|..] == b[|a|..] + c[|b|..];
  }

  lemma NothingTold()
    ensures Told([]) == []
  {
  }

  lemma CrossOnePool(cr: Cross, b: OrderId, s: OrderId, p: int, x: int)
    requires b in cr.w && s in cr.w
    ensures CrossOne(cr, b, s, p, x).w.Keys == cr.w.Keys
  {
    hide ApplyFill;
  }

  /** A cross prints the executions of its queue; the clearing price is the last price. */
  lemma CrossPoolPrints(c: Core, w: Pool, ids: set<OrderId>)
    requires QueuePool(w) && w.Keys <= ids
    ensures var x := CrossPool(c, w); Printed(c, x.c, x.trades, ids) && x.c.orders == c.orders
  {
    hide QueuePool, CrossLoop, Told, Shrinks, Volume, ClearingPrice, Ranked, Lists, Sound;
    AuctionExecutesVolume(c, w);
    CrossPoolCore(c, w);
    var x := CrossPool(c, w);
    if ClearingPrice(w, c.last).None? {
      PrintedNone(c, c, ids);
    } else {
      var p := ClearingPrice(w, c.last).value;
      RankedLists(w, Buy, p);
      RankedLists(w, Sell, p);
      CrossLoopTold(Cross(c, w, []), Ranked(w, Buy), Ranked(w, Sell), p, Volume(w, p));
      assert x.trades[0..] == x.trades;
      SoundAmong(w, x.trades, p, ids);
    }
  }

  lemma SoundAmong(w: Pool, trades: seq<Trade>, p: int, ids: set<OrderId>)
    requires trades != [] && w.Keys <= ids && forall i :: 0 <= i < |trades| ==> Sound(w, trades[i], p)
    ensures Among(trades, ids) && LastOf(None, trades) == Some(p)
  {
  }

  lemma {:induction false} RemaindersPrint(c: Core, queue: seq<Order>, w: Pool, trades: seq<Trade>, ids: set<OrderId>)
    requires Inv(c) && RemaindersOk(c, queue, w) && c.orders.Keys <= ids && QueueIds(queue) <= ids
    ensures var y := InjectRemainders(c, queue, w, trades);
      && trades <= y.trades && Printed(c, y.c, y.trades[|trades|..], ids) && y.c.orders.Keys <= ids
    decreases |queue|
  {
    hide Inv, Inject, Printed;
    if queue == [] {
      assert trades[|trades|..] == [];
      PrintedNone(c, c, ids);
    } else {
      assert queue[0] in queue && forall o :: o in queue[1..] ==> o in queue;
      assert queue[0].id in QueueIds(queue) && QueueIds(queue[1..]) <= QueueIds(queue);
      var o := w[queue[0].id].o;
      var y := InjectRemainders(c, queue, w, trades);
      if o.leaves > 0 && (o.Has(Loo) || o.Has(Loc)) {
        RemainderStep(c, queue, w, trades);
        var m := Inject(c, ClearFlags(o), trades);
        InjectPrints(c, ClearFlags(o), trades, ids);
        InjectKeys(c, ClearFlags(o), trades, ids);
        hide RemaindersOk;
        RemaindersPrint(m.c, queue[1..], w, m.trades, ids);
        Grown(trades, m.trades, y.trades);
        PrintedTrans(c, m.c, y.c, m.trades[|trades|..], y.trades[|m.trades|..], ids);
      } else {
        RemaindersTail(c, queue, w);
        RemaindersPrint(c, queue[1..], w, trades, ids);
      }
    }
  }

  lemma PoolIds(queue: seq<Order>)
    ensures PoolOf(queue).Keys <= QueueIds(queue)
  {
    forall id | id in PoolOf(queue) ensures id in QueueIds(queue) {
      PoolFrom(queue, id);
      var i :| 0 <= i < |queue| && queue[i].id == id && PoolOf(queue)[id] == Maker(queue[i], 0);
      assert queue[i] in queue;
    }
  }

  lemma PresentQueued(s: State, ids: set<OrderId>)
    requires Present(s) <= ids
    ensures QueueIds(s.opening) <= ids && QueueIds(s.closing) <= ids
  {
  }

  lemma CrossedPrints(s: State, open: bool, ids: set<OrderId>)
    requires StateInv(s) && Present(s) <= ids
    ensures var y := Crossed(s, open); Happened(s, y.s, y.trades, ids)
  {
    hide Inv, StopsOk, QueueOk, InjectRemainders, CrossPool, QueuePool, RemaindersOk, PoolOf, Printed, Happened;
    hide QueueIds, Present;
    var queue := if open then s.opening else s.closing;
    PresentResting(s, ids);
    PresentQueued(s, ids);
    AuctionStateInv(s, open);
    PoolIds(queue);
    var x := CrossPool(s.c, PoolOf(queue));
    CrossPoolPrints(s.c, PoolOf(queue), ids);
    RemaindersPrint(x.c, queue, x.w, x.trades, ids);
    var y := InjectRemainders(x.c, queue, x.w, x.trades);
    PrintedTrans(s.c, x.c, y.c, x.trades, y.trades[|x.trades|..], ids);
    assert x.trades + y.trades[|x.trades|..] == y.trades;
    HappenedCore(s, Crossed(s, open).s, y.trades, ids);
  }

  lemma AuctionPrints(s: State, open: bool, ids: set<OrderId>)
    requires StateInv(s) && Present(s) <= ids
    ensures var r := RunAuction(s, open); Happened(s, r.s, r.trades, ids)
  {
    hide StateInv, Crossed, Happened, Present, Cascade, RepriceAll;
    if (if open then s.opening else s.closing) == [] {
      HappenedNone(s, s, ids);
    } else {
      CrossedPrints(s, open, ids);
      var y := Crossed(s, open);
      CrossedInv(s, open);
      SettlePrints(s, y.s, y.trades, ids);
    }
  }

  lemma CrossedInv(s: State, open: bool)
    requires StateInv(s)
    ensures StateInv(Crossed(s, open).s)
  {
    AuctionStateInv(s, open);
  }

  /** The ids of the limit-on-open and limit-on-close orders of a queue. */
  ghost function Surviving(queue: seq<Order>): set<OrderId> {
    set o | o in queue && (Loo in o.flags || Loc in o.flags) :: o.id
  }

  lemma {:induction false} RemaindersKeys(c: Core, queue: seq<Order>, w: Pool, trades: seq<Trade>)
    requires Inv(c) && RemaindersOk(c, queue, w) && forall o :: o in queue ==> w[o.id].o.flags == o.flags
    ensures InjectRemainders(c, queue, w, trades).c.orders.Keys <= c.orders.Keys + Surviving(queue)
    decreases |queue|
  {
    hide Inv, Inject;
    if queue != [] {
      assert queue[0] in queue && forall o :: o in queue[1..] ==> o in queue;
      var o := w[queue[0].id].o;
      if o.leaves > 0 && (o.Has(Loo) || o.Has(Loc)) {
        RemainderStep(c, queue, w, trades);
        var m := Inject(c, ClearFlags(o), trades);
        InjectKeys(c, ClearFlags(o), trades, c.orders.Keys + {queue[0].id});
        RemaindersKeys(m.c, queue[1..], w, m.trades);
      } else {
        RemaindersTail(c, queue, w);
        RemaindersKeys(c, queue[1..], w, trades);
      }
    }
  }

  lemma PoolFlags(c: Core, queue: seq<Order>, stops: map<OrderId, Order>)
    requires Inv(c) && QueueOk(queue, c, stops)
    ensures QueuePool(PoolOf(queue))
    ensures var w := CrossPool(c, PoolOf(queue)).w;
      forall o :: o in queue ==> o.id in w && w[o.id].o.flags == o.flags
  {
    QueuePoolOk(queue, c, stops);
    var w := PoolOf(queue);
    AuctionExecutesVolume(c, w);
    forall o | o in queue ensures o.id in w && w[o.id].o == o {
      var i :| 0 <= i < |queue| && queue[i] == o;
      PoolAt(queue, i);
    }
    hide Inv, QueueOk, QueuePool, PoolOf, Volume, ClearingPrice, CrossLoop;
  }

  lemma CrossedKeys(s: State, open: bool)
    requires StateInv(s)
    ensures Crossed(s, open).s.c.orders.Keys <= s.c.orders.Keys + Surviving(if open then s.opening else s.closing)
  {
    var queue := if open then s.opening else s.closing;
    AuctionStateInv(s, open);
    PoolFlags(s.c, queue, s.stops);
    var x := CrossPool(s.c, PoolOf(queue));
    CrossPoolCore(s.c, PoolOf(queue));
    hide StateInv, Inv, InjectRemainders, CrossPool, QueuePool, RemaindersOk, PoolOf, Surviving;
    RemaindersKeys(x.c, queue, x.w, x.trades);
  }

  /** A queued order that is neither limit-on-open nor limit-on-close is gone once the queue is crossed. */
  lemma CrossedDiscards(s: State, open: bool, o: Order)
    requires StateInv(s) && o in (if open then s.opening else s.closing) && Loo !in o.flags && Loc !in o.flags
    ensures o.id !in Present(Crossed(s, open).s)
  {
    CrossedKeys(s, open);
    var queue := if open then s.opening else s.closing;
    assert o.id !in s.c.orders && o.id !in s.stops;
    forall x | x in queue && (Loo in x.flags || Loc in x.flags) ensures x.id != o.id {
      var i :| 0 <= i < |queue| && queue[i] == x;
      var j :| 0 <= j < |queue| && queue[j] == o;
    }
    assert o.id !in Surviving(queue);
    assert forall x :: x in (if open then s.closing else s.opening) ==> x.id != o.id;
    hide StateInv, CrossAndEnter, Surviving;
  }

  lemma {:induction false} FireAllQueues(r: Run, ids: seq<OrderId>)
    requires StateInv(r.s) && NoDup(ids) && forall id :: id in ids ==> id in r.s.stops
    ensures FireAll(r, ids).s.opening == r.s.opening && FireAll(r, ids).s.closing == r.s.closing
    decreases |ids|
  {
    hide Inv, StopsOk, QueueOk, Inject;
    if ids != [] {
      FireOneInv(r, ids[0]);
      HeadGone(ids);
      FireAllQueues(FireOne(r, ids[0]), ids[1..]);
    }
  }

  lemma {:induction false} CascadeQueues(r: Run)
    requires StateInv(r.s)
    ensures Cascade(r).s.opening == r.s.opening && Cascade(r).s.closing == r.s.closing
    decreases |r.s.stops|
  {
    hide StateInv, FireAll;
    if r.s.c.last.Some? {
      var px := r.s.c.last.value;
      TrailInv(r.s, px);
      var s1 := r.s.(stops := TrailAll(r.s.stops, px));
      FireAllQueues(r.(s := s1), FireOrder(s1, px));
      RoundInv(r, px);
      if Firing(TrailAll(r.s.stops, px), px) != {} { CascadeQueues(Round(r, px)); }
    }
  }

  /** An auction empties its queue and leaves the other alone.  Of the queued orders only limit-on-open and
      limit-on-close ones can be in the book afterwards. */
  lemma AuctionEmptiesQueue(s: State, open: bool, o: Order)
    requires StateInv(s) && o in if open then s.opening else s.closing
    ensures var s' := RunAuction(s, open).s;
      && (if open then s'.opening == [] && s'.closing == s.closing else s'.closing == [] && s'.opening == s.opening)
      && (o.id in Present(s') ==> Loo in o.flags || Loc in o.flags)
  {
    hide StateInv, CrossAndEnter, Happened, Present, Cascade, RepriceAll;
    var y := Crossed(s, open);
    CrossedInv(s, open);
    CascadeQueues(y);
    SettledPresent(y);
    if Loo !in o.flags && Loc !in o.flags { CrossedDiscards(s, open, o); }
  }

  lemma SettledPresent(y: Run)
    requires StateInv(y.s)
    ensures StateInv(Cascade(y).s)
    ensures Present(Cascade(y).s.(c := RepriceAll(Cascade(y).s.c))) <= Present(y.s)
  {
    CascadeInv(y);
    CascadePrints(y, Present(y.s));
    var s := Cascade(y).s;
    assert Inv(s.c);
    hide StateInv, Cascade, Printed;
    RepriceAllInv(s.c);
  }

  // ----------------------------------------------------- what submit announces

  lemma TradeAnnounced(s: State, o: Order)
    requires StateInv(s) && Fresh(s, o)
    ensures var r := SubmitTrade(s, o); o.id in Present(r.s) ==> r.out.rested
  {
    var m0 := Match(s.c, o, [], false);
    var m := MatchAll(m0);
    MatchAllEvolves(m0);
    TradeInv(s, o);
    var s1 := s.(c := m.c);
    FreshAbsent(s, s1, o);
    hide StateInv, Fresh, MatchAll, Cascade, RepriceAll, Present, Evolves, Rest;
    SettledPresent(Run(s1, m.trades));
    RepricedPresent(s1);
  }

  lemma FreshAbsent(s: State, s': State, o: Order)
    requires Fresh(s, o) && s'.c.orders.Keys <= s.c.orders.Keys && s' == s.(c := s'.c)
    ensures o.id !in Present(s')
  {
    hide Restable;
  }

  lemma RepricedPresent(s: State)
    requires StateInv(s)
    ensures Present(s.(c := RepriceAll(s.c))) == Present(s)
  {
    RepriceAllInv(s.c);
    hide StateInv, RepriceAll;
  }

  lemma SizedAnnounced(s: State, o: Order)
    requires StateInv(s) && Fresh(s, o)
    ensures var r := SubmitSized(s, o); o.id in Present(r.s) ==> r.out.rested
  {
    hide StateInv, Restable, SubmitTrade, RepriceAll, Rest, Available, Present;
    FreshAbsent(s, s, o);
    TradeAnnounced(s, o);
  }

  lemma PlainAnnounced(s: State, o: Order)
    requires StateInv(s) && Fresh(s, o)
    ensures var r := SubmitPlain(s, o); o.id in Present(r.s) ==> r.out.rested
  {
    FreshAbsent(s, s, o);
    hide StateInv, SubmitSized, Present;
    if !(o.Has(ReduceOnly) && Capacity(s.c, o) <= 0) {
      SizedAnnounced(s, if o.Has(ReduceOnly) then Capped(o, Capacity(s.c, o)) else o);
    }
  }

  lemma StopAnnounced(s: State, o: Order)
    requires StateInv(s) && Fresh(s, o) && o.trigger.Some?
    ensures var r := SubmitStop(s, o);
      && (o.id in Present(r.s) ==> r.out.rested || r.out.pendingTrigger)
      && (r.out.pendingTrigger ==> o.id in r.s.stops)
  {
    var a := Armed(o, s.c.last);
    if s.c.last.Some? && StopTriggered(a, s.c.last.value) {
      var b := MarkTriggered(a);
      StopInv(s, b);
      var m := Inject(s.c, b, []);
      if !(m.o.leaves > 0 && !m.o.Discards()) {
        MatchAllEvolves(Match(s.c, b, [], false));
        var s1 := s.(c := m.c);
        FreshAbsent(s, s1, o);
        hide Inv, StopsOk, QueueOk, Fresh, Inject, Cascade, Printed, MatchAll, Evolves;
        CascadePrints(Run(s1, m.trades), Present(s1));
      }
    }
  }

  /** An order that stays is announced as resting, as pending its trigger or as held for an auction; the
      last two mean what they say. */
  lemma SubmitAnnounces(s: State, o0: Order)
    requires StateInv(s) && Admissible(s, o0) && o0.id !in s.c.orders && o0.id !in s.stops
    ensures var r := Submit(s, o0);
      && (o0.id in Present(r.s) ==> r.out.rested || r.out.pendingTrigger || r.out.held)
      && (r.out.pendingTrigger ==> o0.id in r.s.stops)
      && (r.out.held ==> exists o :: (o in r.s.opening || o in r.s.closing) && o.id == o0.id)
  {
    var o := Stamp(o0, s.c.nextSeq);
    var s1 := s.(c := StampCore(s.c, o.id));
    StampInv(s, o0);
    if !Fresh(s1, o) || (o.typ == Limit && o.price <= 0 && o.peg.None?) {
      RefusedAbsent(s, s1, o0);
    } else {
      hide StateInv, Fresh, Routed, Present;
      RoutedAnnounced(s1, o);
    }
  }

  lemma RefusedAbsent(s: State, s1: State, o: Order)
    requires Admissible(s, o) && o.id !in s.c.orders && o.id !in s.stops
    requires s1 == s.(c := s1.c) && s1.c.orders == s.c.orders
    ensures o.id !in Present(s1)
  {
  }

  lemma RoutedAnnounced(s: State, o: Order)
    requires StateInv(s) && Fresh(s, o)
    ensures var r := Routed(s, o);
      && (o.id in Present(r.s) ==> r.out.rested || r.out.pendingTrigger || r.out.held)
      && (r.out.pendingTrigger ==> o.id in r.s.stops)
      && (r.out.held ==> exists x :: (x in r.s.opening || x in r.s.closing) && x.id == o.id)
  {
    hide StateInv, Fresh, SubmitPlain, SubmitStop, PegPrice, Rest, Present;
    FreshAbsent(s, s, o);
    PlainAnnounced(s, o);
    PlainNeverHeld(s, o);
    if o.trigger.Some? { StopAnnounced(s, o); StopNeverHeld(s, o); }
    assert o in s.opening + [o] && o in s.closing + [o];
  }

  lemma PlainNeverHeld(s: State, o: Order)
    requires StateInv(s) && Fresh(s, o)
    ensures !SubmitPlain(s, o).out.held && !SubmitPlain(s, o).out.pendingTrigger
  {
    hide StateInv, MatchAll, Cascade, RepriceAll, Available, Crosses;
  }

  lemma StopNeverHeld(s: State, o: Order)
    requires StateInv(s) && Fresh(s, o)
    ensures !SubmitStop(s, o).out.held
  {
    hide StateInv, Inject, Cascade;
  }

  // ---------------------------------------------------------- every operation

  lemma RepricedPrints(c: Core, c1: Core, ids: set<OrderId>)
    requires Inv(c1) && Printed(c, c1, [], ids)
    ensures Printed(c, RepriceAll(c1), [], ids)
  {
    hide Inv, Printed;
    PegsKeyed(c1);
    RepricePrints(c1, Sorted(Arrival(c1), c1.pegged), ids);
    PrintedTrans(c, c1, RepriceAll(c1), [], [], ids);
    var none: seq<Trade> := [];
    assert none + none == none;
  }

  lemma TakeDownPrints(c: Core, id: OrderId, ids: set<OrderId>)
    requires Inv(c) && id in c.orders
    ensures Printed(c, TakeDown(c, id), [], ids)
  {
    hide Inv, Printed, Withdraw, RepriceAll;
    WithdrawInv(c, id);
    WithdrawPrints(c, id, ids);
    RepricedPrints(c, Withdraw(c, id), ids);
  }

  lemma CancelTold(s: State, id: OrderId, ids: set<OrderId>)
    requires StateInv(s)
    ensures Printed(s.c, Cancel(s, id).0.c, [], ids)
  {
    PrintedNone(s.c, s.c, ids);
    if id in s.c.orders { TakeDownPrints(s.c, id, ids); }
    hide Printed, TakeDown, Unqueue, Queued, StateInv;
  }

  lemma CancelAbsent(s: State, id: OrderId)
    requires StateInv(s)
    ensures Present(Cancel(s, id).0) <= Present(s) - {id}
  {
    hide StateInv, Cancel, Others, AllStay;
    var s' := Cancel(s, id).0;
    CancelTakesOut(s, id);
    OthersHave(s.opening, id);
    OthersHave(s.closing, id);
    assert QueueIds(s'.opening) <= QueueIds(s.opening) - {id};
    assert QueueIds(s'.closing) <= QueueIds(s.closing) - {id};
  }

  lemma CancelPrints(s: State, id: OrderId, ids: set<OrderId>)
    requires StateInv(s) && Present(s) - {id} <= ids
    ensures Happened(s, Cancel(s, id).0, [], ids)
  {
    hide StateInv, Cancel, Printed, Present;
    CancelTold(s, id, ids);
    CancelAbsent(s, id);
  }

  lemma {:induction false} CancelAllPrints(s: State, gone: seq<OrderId>, ids: set<OrderId>)
    requires StateInv(s) && Present(s) <= ids
    ensures Happened(s, CancelAll(s, gone), [], ids)
    decreases |gone|
  {
    hide StateInv, Cancel, Printed, Present;
    if gone == [] {
      HappenedNone(s, s, ids);
    } else {
      CancelInv(s, gone[0]);
      CancelPrints(s, gone[0], ids);
      var s1 := Cancel(s, gone[0]).0;
      CancelAllPrints(s1, gone[1..], ids);
      HappenedTrans(s, s1, CancelAll(s, gone), [], [], ids);
      var none: seq<Trade> := [];
      assert none + none == none;
    }
  }

  /** The executions of an operation. */
  ghost function TradesOf(s: State, op: Op): seq<Trade>
    requires StateInv(s) && Legal(s, op)
  {
    match op
    case OpSubmit(o) => Submit(s, o).out.trades
    case OpAuction(open) => RunAuction(s, open).trades
    case _ => []
  }

  /** The ids an operation brings. */
  function Brought(op: Op): set<OrderId> {
    if op.OpSubmit? then {op.o.id} else {}
  }

  /** Every operation: its executions are between orders that were there or that it brings, each is
      reported once and in order, and the last of them sets the last price. */
  lemma ApplyPrints(s: State, op: Op, ids: set<OrderId>)
    requires StateInv(s) && Legal(s, op) && Present(s) + Brought(op) <= ids
    ensures Happened(s, Apply(s, op), TradesOf(s, op), ids)
  {
    match op
    case OpSubmit(o) => hide StateInv, Submit, Admissible, Happened, Present; SubmitPrints(s, o, ids);
    case OpCancel(id) => hide StateInv, Cancel, Happened, Present; CancelPrints(s, id, ids);
    case OpExpire(now) =>
      hide StateInv, CancelAll, Happened, Present;
      ByIdTotal(Expired(s.c, now));
      CancelAllPrints(s, Sorted(ById(Expired(s.c, now)), Expired(s.c, now)), ids);
    case OpAuction(open) => hide StateInv, RunAuction, Happened, Present; AuctionPrints(s, open, ids);
    case _ => HappenedNone(s, Apply(s, op), ids);
  }

  /** After an operation with executions the last price is that of the last of them; without, it is
      what it was. */
  lemma LastPriceFollows(s: State, op: Op)
    requires StateInv(s) && Legal(s, op)
    ensures Apply(s, op).c.last ==
      if TradesOf(s, op) == [] then s.c.last else Some(TradesOf(s, op)[|TradesOf(s, op)| - 1].price)
  {
    hide StateInv, Apply, TradesOf, Legal, Present;
    ApplyPrints(s, op, Present(s) + Brought(op));
  }

  // ---------------------------------------------------------------- whole runs

  ghost function RunTrades(s: State, ops: seq<Op>): seq<Trade>
    requires StateInv(s) && LegalRun(s, ops)
    decreases |ops|
  {
    if ops == [] then []
    else
      ApplyInv(s, ops[0]);
      TradesOf(s, ops[0]) + RunTrades(Apply(s, ops[0]), ops[1..])
  }

  ghost predicate Brings(ops: seq<Op>, ids: set<OrderId>) {
    forall op :: op in ops ==> Brought(op) <= ids
  }

  lemma {:induction false} RunPrints(s: State, ops: seq<Op>, ids: set<OrderId>)
    requires StateInv(s) && LegalRun(s, ops) && Present(s) <= ids && Brings(ops, ids)
    ensures Happened(s, RunOps(s, ops), RunTrades(s, ops), ids)
    decreases |ops|
  {
    hide StateInv, Apply, TradesOf, Legal, Present, Printed;
    if ops == [] {
      HappenedNone(s, s, ids);
    } else {
      assert ops[0] in ops && forall op :: op in ops[1..] ==> op in ops;
      ApplyInv(s, ops[0]);
      ApplyPrints(s, ops[0], ids);
      var s1 := Apply(s, ops[0]);
      RunPrints(s1, ops[1..], ids);
      HappenedTrans(s, s1, RunOps(s, ops), TradesOf(s, ops[0]), RunTrades(s1, ops[1..]), ids);
    }
  }

  ghost function AllBrought(ops: seq<Op>): set<OrderId> {
    set op, id | op in ops && id in Brought(op) :: id
  }

  /** Over every run from the empty book: the events report exactly the executions, in order, and the last
      price is that of the last execution. */
  lemma RunTold(symbol: string, stp: StpPolicy, ops: seq<Op>)
    requires LegalRun(EmptyState(symbol, stp), ops)
    ensures var s0 := EmptyState(symbol, stp);
      && Told(RunOps(s0, ops).c.events) == RunTrades(s0, ops)
      && RunOps(s0, ops).c.last == LastOf(None, RunTrades(s0, ops))
  {
    var s0 := EmptyState(symbol, stp);
    assert Present(s0) == {};
    hide StateInv, LegalRun, RunOps, RunTrades, Present, Told;
    RunPrints(s0, ops, AllBrought(ops));
    assert RunOps(s0, ops).c.events[0..] == RunOps(s0, ops).c.events;
  }

  /** Once cancelled, and as long as its id is not submitted again, an order takes part in no execution
      and is nowhere in the book. */
  lemma CancelIsFinal(s: State, id: OrderId, ops: seq<Op>)
    requires StateInv(s) && (CancelInv(s, id); LegalRun(Cancel(s, id).0, ops))
    requires forall op :: op in ops && op.OpSubmit? ==> op.o.id != id
    ensures StateInv(Cancel(s, id).0)
    ensures forall t :: t in RunTrades(Cancel(s, id).0, ops) ==> t.taker != id && t.maker != id
    ensures id !in Present(RunOps(Cancel(s, id).0, ops))
  {
    CancelInv(s, id);
    var s1 := Cancel(s, id).0;
    CancelAbsent(s, id);
    assert id !in AllBrought(ops);
    hide StateInv, LegalRun, RunOps, RunTrades, Present, Cancel;
    RunPrints(s1, ops, Present(s1) + AllBrought(ops));
  }
}
