/** What a fired stop and an auction remainder carry with them: each stop that fires is announced once,
    as it fires, and no order in continuous trading carries an auction instruction
    (src/core/order_book.cc, evaluate_stops and cross_auction). */
module Notices {
  import opened OrderTypes
  import opened BookCore
  import opened Matching
  import opened Liquidity
  import opened Ordering
  import opened Pegs
  import opened Auctions
  import opened Crossing
  import opened Sessions
  import opened Cancels
  import opened Runs
  import opened Executions

  /** The stops a sequence of events announces. */
  function Rung(events: seq<BookEvent>): seq<OrderId>
    decreases |events|
  {
    if events == [] then []
    else
      var e := events[|events| - 1];
      Rung(events[..|events| - 1]) + if e.typ == EvTrigger then [e.id] else []
  }

  lemma {:induction false} RungBoth(a: seq<BookEvent>, b: seq<BookEvent>)
    ensures Rung(a + b) == Rung(a) + Rung(b)
    decreases |b|
  {
    if b == [] {
      assert a + b == a;
    } else {
      var b' := b[..|b| - 1];
      RungBoth(a, b');
      assert (a + b)[..|a + b| - 1] == a + b';
    }
  }

  predicate NoAuction(o: Order) {
    Moo !in o.flags && Loo !in o.flags && Moc !in o.flags && Loc !in o.flags && Opg !in o.flags
  }

  ghost predicate Bare(c: Core) {
    forall id :: id in c.orders ==> NoAuction(c.orders[id].o)
  }

  ghost predicate BareStops(stops: map<OrderId, Order>) {
    forall id :: id in stops ==> NoAuction(stops[id])
  }

  /** From `c` to `c'` exactly the stops of `rung` were announced, in order, and no auction instruction
      came in. */
  ghost predicate Noted(c: Core, c': Core, rung: seq<OrderId>) {
    && c.events <= c'.events && Rung(c'.events[|c.events|..]) == rung
    && (Bare(c) ==> Bare(c'))
  }

  lemma NotedTrans(c: Core, c1: Core, c2: Core, a: seq<OrderId>, b: seq<OrderId>)
    requires Noted(c, c1, a) && Noted(c1, c2, b)
    ensures Noted(c, c2, a + b)
  {
    hide Rung, Bare;
    RungBoth(c1.events[|c.events|..], c2.events[|c1.events|..]);
    assert c2.events[|c.events|..] == c1.events[|c.events|..] + c2.events[|c1.events|..];
  }

  lemma Silent(c: Core, c1: Core, c2: Core, a: seq<OrderId>)
    requires (Noted(c, c1, a) && Noted(c1, c2, [])) || (Noted(c, c1, []) && Noted(c1, c2, a))
    ensures Noted(c, c2, a)
  {
    hide Noted;
    assert a + [] == a && [] + a == a;
    if Noted(c, c1, a) && Noted(c1, c2, []) { NotedTrans(c, c1, c2, a, []); } else { NotedTrans(c, c1, c2, [], a); }
  }

  lemma NotedNone(c: Core, c': Core)
    requires c'.events == c.events && (Bare(c) ==> Bare(c'))
    ensures Noted(c, c', [])
  {
    assert c'.events[|c.events|..] == [];
  }

  lemma NotedOne(c: Core, c': Core, e: BookEvent)
    requires c'.events == c.events + [e] && (Bare(c) ==> Bare(c'))
    ensures Noted(c, c', if e.typ == EvTrigger then [e.id] else [])
  {
    assert c'.events[|c.events|..] == [e];
    assert [e][..0] == [];
  }

  // ---------------------------------------------------------------- matching

  lemma HitNoted(c: Core, o: Order, id: OrderId, x: int)
    requires id in c.orders
    ensures Noted(c, Hit(c, o, id, x), [])
  {
    var c' := Hit(c, o, id, x);
    var c1 := Print(c, o, c.orders[id], x);
    assert Bare(c) ==> Bare(c');
    hide Noted, AddDisp, ApplyFill, Release, Detach, Attach;
    NotedOne(c, c1, c1.events[|c.events|]);
    assert c1.orders == c.orders;
    hide Bare;
    if c'.events == c1.events {
      NotedNone(c1, c');
    } else {
      NotedOne(c1, c', c'.events[|c1.events|]);
    }
    Silent(c, c1, c', []);
  }

  lemma WithdrawNoted(c: Core, id: OrderId)
    requires id in c.orders
    ensures Noted(c, Withdraw(c, id), [])
  {
    hide Noted, AddDisp, Release, Detach;
    NotedOne(c, Withdraw(c, id), Withdraw(c, id).events[|c.events|]);
  }

  lemma RestNoted(c: Core, o: Order)
    requires NoAuction(o) || !Bare(c)
    ensures Noted(c, Rest(c, o), [])
  {
    hide Noted, AddDisp, Reserve, Attach;
    NotedOne(c, Rest(c, o), Rest(c, o).events[|c.events|]);
  }

  lemma ActNoted(m: Match, id: OrderId)
    requires id in m.c.orders
    ensures Noted(m.c, Act(m, id).c, [])
  {
    hide Noted, Hit, Withdraw;
    if !StpHit(m.c, m.o, m.c.orders[id]) {
      HitNoted(m.c, m.o, id, FillSize(m.o, m.c.orders[id]));
    } else if m.c.stp.Resting() {
      WithdrawNoted(m.c, id);
    } else {
      NotedNone(m.c, m.c);
    }
  }

  lemma {:induction false} MatchNoted(m: Match)
    requires Inv(m.c)
    ensures Noted(m.c, MatchAll(m).c, [])
    decreases Work(m)
  {
    hide Inv, Act, Noted;
    if Done(m) {
      NotedNone(m.c, m.c);
    } else {
      var id := Next(m.c, m.o).value;
      NextSound(m.c, m.o);
      ActInv(m, id);
      ActNoted(m, id);
      MatchNoted(Act(m, id));
      Silent(m.c, Act(m, id).c, MatchAll(m).c, []);
    }
  }

  lemma InjectNoted(c: Core, o: Order, trades: seq<Trade>)
    requires Inv(c) && NoAuction(o)
    ensures Noted(c, Inject(c, o, trades).c, [])
  {
    hide Inv, MatchAll, Noted, Rest, NoAuction;
    var m0 := Match(c, o, trades, false);
    MatchNoted(m0);
    MatchAllEvolves(m0);
    var m := MatchAll(m0);
    SameAuction(o, m.o);
    if m.o.leaves > 0 && !m.o.Discards() {
      RestNoted(m.c, m.o);
      Silent(c, m.c, Rest(m.c, m.o), []);
    }
  }

  lemma SameAuction(o: Order, o': Order)
    requires NoAuction(o) && o'.flags == o.flags
    ensures NoAuction(o')
  {
  }

  // ----------------------------------------------------------------- cascade

  lemma FireOneNoted(r: Run, id: OrderId)
    requires StateInv(r.s) && id in r.s.stops && BareStops(r.s.stops)
    ensures Noted(r.s.c, FireOne(r, id).s.c, [id]) && BareStops(FireOne(r, id).s.stops)
  {
    var o := MarkTriggered(r.s.stops[id]);
    var c := Announce(r.s.c, o);
    assert o.id == id && NoAuction(o);
    AnnounceInv(r.s.c, o);
    hide Inv, StopsOk, QueueOk, Inject, Noted, NoAuction;
    NotedOne(r.s.c, c, c.events[|r.s.c.events|]);
    InjectNoted(c, o, r.trades);
    Silent(r.s.c, c, FireOne(r, id).s.c, [id]);
  }

  lemma {:induction false} FireAllNoted(r: Run, ids: seq<OrderId>)
    requires StateInv(r.s) && NoDup(ids) && (forall id :: id in ids ==> id in r.s.stops) && BareStops(r.s.stops)
    ensures var s := FireAll(r, ids).s;
      && Noted(r.s.c, s.c, ids) && BareStops(s.stops)
      && (forall id :: id in s.stops <==> id in r.s.stops && id !in ids)
    decreases |ids|
  {
    hide Inv, StopsOk, QueueOk, FireOne, Noted, NoAuction;
    if ids == [] {
      NotedNone(r.s.c, r.s.c);
    } else {
      FireOneInv(r, ids[0]);
      HeadGone(ids);
      FireOneNoted(r, ids[0]);
      var r1 := FireOne(r, ids[0]);
      FireAllNoted(r1, ids[1..]);
      NotedTrans(r.s.c, r1.s.c, FireAll(r, ids).s.c, [ids[0]], ids[1..]);
      assert [ids[0]] + ids[1..] == ids;
    }
  }

  /** The stops of `rung` are those that left, each once. */
  ghost predicate Left(stops: map<OrderId, Order>, stops': map<OrderId, Order>, rung: seq<OrderId>) {
    && NoDup(rung) && stops'.Keys <= stops.Keys
    && forall id :: id in rung <==> id in stops && id !in stops'
  }

  lemma TrailedBare(stops: map<OrderId, Order>, px: int)
    requires BareStops(stops)
    ensures BareStops(TrailAll(stops, px)) && TrailAll(stops, px).Keys == stops.Keys
  {
  }

  lemma RoundNoted(r: Run, px: int)
    requires StateInv(r.s) && BareStops(r.s.stops)
    ensures var s1 := r.s.(stops := TrailAll(r.s.stops, px));
      && StateInv(s1)
      && var s, rung := Round(r, px).s, FireOrder(s1, px);
        Noted(r.s.c, s.c, rung) && BareStops(s.stops) && Left(r.s.stops, s.stops, rung)
  {
    hide StateInv, Noted, FireAll, BareStops, StopTriggered, NoDup;
    TrailInv(r.s, px);
    var s1 := r.s.(stops := TrailAll(r.s.stops, px));
    TrailedBare(r.s.stops, px);
    FireAllNoted(r.(s := s1), FireOrder(s1, px));
  }

  lemma LeftTrans(a: map<OrderId, Order>, b: map<OrderId, Order>, c: map<OrderId, Order>, x: seq<OrderId>,
                  y: seq<OrderId>)
    requires Left(a, b, x) && Left(b, c, y)
    ensures Left(a, c, x + y)
  {
    var all := x + y;
    forall i, j | 0 <= i < j < |all| ensures all[i] != all[j] {
      if i < |x| <= j {
        assert x[i] in x && y[j - |x|] in y;
      }
    }
  }

  /** A cascade announces the stops it fires, each once. */
  lemma {:induction false} CascadeNoted(r: Run) returns (rung: seq<OrderId>)
    requires StateInv(r.s) && BareStops(r.s.stops)
    ensures var s := Cascade(r).s;
      Noted(r.s.c, s.c, rung) && BareStops(s.stops) && Left(r.s.stops, s.stops, rung)
    decreases |r.s.stops|
  {
    hide StateInv, Noted, Round, BareStops, Left;
    if r.s.c.last.None? {
      NotedNone(r.s.c, r.s.c);
      NobodyLeft(r.s.stops);
      rung := [];
    } else {
      var px := r.s.c.last.value;
      RoundInv(r, px);
      RoundNoted(r, px);
      rung := FireOrder(r.s.(stops := TrailAll(r.s.stops, px)), px);
      if Firing(TrailAll(r.s.stops, px), px) != {} {
        var r1 := Round(r, px);
        var more := CascadeNoted(r1);
        NotedTrans(r.s.c, r1.s.c, Cascade(r).s.c, rung, more);
        LeftTrans(r.s.stops, r1.s.stops, Cascade(r).s.stops, rung, more);
        rung := rung + more;
      }
    }
  }

  lemma NobodyLeft(stops: map<OrderId, Order>)
    ensures Left(stops, stops, [])
  {
  }

  lemma RepriceAllNoted(c: Core)
    requires Inv(c)
    ensures Noted(c, RepriceAll(c), [])
  {
    PegsKeyed(c);
    RepriceNoted(c, Sorted(Arrival(c), c.pegged));
  }

  lemma {:induction false} RepriceNoted(c: Core, pegs: seq<OrderId>)
    ensures Noted(c, Reprice(c, pegs), [])
    decreases |pegs|
  {
    hide Noted, RepriceOne;
    if pegs == [] {
      NotedNone(c, c);
    } else {
      RepriceOneNoted(c, pegs[0]);
      RepriceNoted(RepriceOne(c, pegs[0]), pegs[1..]);
      Silent(c, RepriceOne(c, pegs[0]), Reprice(c, pegs), []);
    }
  }

  lemma MoveNoted(c: Core, id: OrderId, price: int)
    requires id in c.orders
    ensures Noted(c, Move(c, id, price), [])
  {
    hide Noted, AddDisp, Attach, Detach;
    NotedOne(c, Move(c, id, price), Move(c, id, price).events[|c.events|]);
  }

  lemma RepriceOneNoted(c: Core, id: OrderId)
    ensures Noted(c, RepriceOne(c, id), [])
  {
    hide Noted, Move, PegPrice;
    NotedNone(c, c);
    NotedNone(c, c.(pegged := c.pegged - {id}));
    if id in c.orders && PegPrice(c, c.orders[id].o).Some? {
      MoveNoted(c, id, PegPrice(c, c.orders[id].o).value);
    }
  }

  // --------------------------------------------------------- every operation

  /** After an operation: the stops that left, those of `out` apart, were announced, each once; and there
      is no auction instruction in the book. */
  ghost predicate Announced(s: State, s': State, out: set<OrderId>, rung: seq<OrderId>) {
    && Noted(s.c, s'.c, rung) && NoDup(rung)
    && (forall id :: id in rung <==> id in s.stops && id !in s'.stops && id !in out)
    && BareStops(s'.stops)
  }

  lemma Unrung(s: State, s': State, out: set<OrderId>)
    requires Noted(s.c, s'.c, []) && BareStops(s'.stops) && s.stops.Keys - out <= s'.stops.Keys
    ensures Announced(s, s', out, [])
  {
  }

  lemma Settled(s: State, s1: State, r: Run) returns (rung: seq<OrderId>)
    requires StateInv(s1) && BareStops(s.stops) && s1.stops == s.stops && Noted(s.c, s1.c, []) && r.s == s1
    ensures StateInv(Cascade(r).s)
    ensures Announced(s, Cascade(r).s, {}, rung)
    ensures Announced(s, Cascade(r).s.(c := RepriceAll(Cascade(r).s.c)), {}, rung)
  {
    hide Inv, StopsOk, QueueOk, Noted, Cascade, RepriceAll, BareStops;
    CascadeInv(r);
    rung := CascadeNoted(r);
    var c := Cascade(r).s.c;
    RepriceAllNoted(c);
    Silent(s.c, s1.c, c, rung);
    Silent(s.c, c, RepriceAll(c), rung);
  }

  lemma SubmitTradeNoted(s: State, o: Order) returns (rung: seq<OrderId>)
    requires StateInv(s) && Fresh(s, o) && NoAuction(o) && BareStops(s.stops)
    ensures Announced(s, SubmitTrade(s, o).s, {}, rung)
  {
    hide Inv, StopsOk, QueueOk, Noted, Announced, Restable, MatchAll, Rest, Cascade, RepriceAll, NoAuction, BareStops;
    var m0 := Match(s.c, o, [], false);
    var m := MatchAll(m0);
    TradeInv(s, o);
    MatchNoted(m0);
    MatchAllEvolves(m0);
    SameAuction(o, m.o);
    RestNoted(m.c, m.o);
    Silent(s.c, m.c, Rest(m.c, m.o), []);
    var rests := m.o.leaves > 0 && !m.halted && !m.o.Discards();
    var s1 := s.(c := if rests then Rest(m.c, m.o) else m.c);
    if m.trades != [] {
      rung := Settled(s, s1, Run(s1, m.trades));
    } else {
      Repriced(s, s1);
      rung := [];
    }
  }

  lemma Repriced(s: State, s1: State)
    requires StateInv(s1) && Noted(s.c, s1.c, []) && s1.stops == s.stops && BareStops(s.stops)
    ensures Announced(s, s1.(c := RepriceAll(s1.c)), {}, [])
  {
    RepriceAllNoted(s1.c);
    hide StateInv, Noted, RepriceAll, BareStops;
    Silent(s.c, s1.c, RepriceAll(s1.c), []);
    Unrung(s, s1.(c := RepriceAll(s1.c)), {});
  }

  lemma SubmitPlainNoted(s: State, o: Order) returns (rung: seq<OrderId>)
    requires StateInv(s) && Fresh(s, o) && NoAuction(o) && BareStops(s.stops)
    ensures Announced(s, SubmitPlain(s, o).s, {}, rung)
  {
    hide StateInv, Noted, Announced, Rest, RepriceAll, SubmitTrade, BareStops, Available, Restable, NoAuction;
    NotedNone(s.c, s.c);
    Unrung(s, s, {});
    rung := [];
    if !(o.Has(ReduceOnly) && Capacity(s.c, o) <= 0) {
      var o1 := if o.Has(ReduceOnly) then Capped(o, Capacity(s.c, o)) else o;
      assert Fresh(s, o1) by { CappedStays(s, o); }
      SameAuction(o, o1);
      RestStateInv(s, o1);
      RestNoted(s.c, o1);
      Repriced(s, s.(c := Rest(s.c, o1)));
      var traded := SubmitTradeNoted(s, o1);
      if SubmitPlain(s, o) == SubmitTrade(s, o1) { rung := traded; }
    }
  }

  lemma CappedStays(s: State, o: Order)
    requires Fresh(s, o)
    ensures Capacity(s.c, o) > 0 ==> Fresh(s, Capped(o, Capacity(s.c, o)))
  {
  }

  lemma SubmitPegNoted(s: State, o: Order)
    requires StateInv(s) && Fresh(s, o) && NoAuction(o) && BareStops(s.stops)
    ensures Announced(s, SubmitPeg(s, o).s, {}, [])
  {
    hide StateInv, Noted, Announced, Rest, BareStops, PegPrice, NoAuction, Fresh;
    NotedNone(s.c, s.c);
    Unrung(s, s, {});
    if PegPrice(s.c, o).Some? {
      var o1 := o.(typ := Limit, price := PegPrice(s.c, o).value);
      SameAuction(o, o1);
      RestNoted(s.c, o1);
      SameNoted(s.c, Rest(s.c, o1), SubmitPeg(s, o).s.c);
      Unrung(s, SubmitPeg(s, o).s, {});
    }
  }

  lemma SameNoted(c: Core, c1: Core, c2: Core)
    requires Noted(c, c1, []) && c2.events == c1.events && c2.orders == c1.orders
    ensures Noted(c, c2, [])
  {
  }

  lemma SubmitStopNoted(s: State, o: Order) returns (rung: seq<OrderId>)
    requires StateInv(s) && Fresh(s, o) && NoAuction(o) && BareStops(s.stops)
    ensures Announced(s, SubmitStop(s, o).s, {}, rung)
  {
    hide Inv, StopsOk, QueueOk, Noted, Announced, Inject, Cascade, NoAuction;
    var a := Armed(o, s.c.last);
    SameAuction(o, a);
    if s.c.last.Some? && StopTriggered(a, s.c.last.value) {
      var b := MarkTriggered(a);
      SameAuction(o, b);
      StopInv(s, b);
      InjectNoted(s.c, b, []);
      var m := Inject(s.c, b, []);
      rung := Settled(s, s.(c := m.c), Run(s.(c := m.c), m.trades));
    } else {
      rung := [];
      NotedNone(s.c, s.c);
      Unrung(s, SubmitStop(s, o).s, {});
    }
  }

  lemma RoutedNoted(s: State, o: Order) returns (rung: seq<OrderId>)
    requires StateInv(s) && Fresh(s, o) && BareStops(s.stops)
    ensures Announced(s, Routed(s, o).s, {}, rung)
  {
    hide StateInv, Noted, Announced, SubmitPlain, SubmitStop, SubmitPeg, BareStops, Fresh;
    NotedNone(s.c, s.c);
    rung := [];
    if o.IsOpening() || o.IsClosing() {
      Unrung(s, Routed(s, o).s, {});
    } else if o.trigger.Some? && !o.trigger.value.triggered {
      rung := SubmitStopNoted(s, o);
    } else if o.peg.Some? {
      SubmitPegNoted(s, o);
    } else {
      rung := SubmitPlainNoted(s, o);
    }
  }

  lemma SubmitNoted(s: State, o0: Order) returns (rung: seq<OrderId>)
    requires StateInv(s) && Admissible(s, o0) && BareStops(s.stops)
    ensures Announced(s, Submit(s, o0).s, {}, rung)
  {
    hide StateInv, Noted, Routed, BareStops, Fresh;
    var o := Stamp(o0, s.c.nextSeq);
    var s1 := s.(c := StampCore(s.c, o.id));
    StampInv(s, o0);
    NotedNone(s.c, s1.c);
    rung := [];
    if Fresh(s1, o) {
      var routed := RoutedNoted(s1, o);
      Silent(s.c, s1.c, Routed(s1, o).s.c, routed);
      if Submit(s, o0) == Routed(s1, o) { rung := routed; }
    }
  }

  lemma TakeDownNoted(c: Core, id: OrderId)
    requires Inv(c) && id in c.orders
    ensures Noted(c, TakeDown(c, id), [])
  {
    hide Inv, Noted, Withdraw, RepriceAll;
    WithdrawInv(c, id);
    WithdrawNoted(c, id);
    RepriceAllNoted(Withdraw(c, id));
    Silent(c, Withdraw(c, id), RepriceAll(Withdraw(c, id)), []);
  }

  lemma CancelSilent(s: State, id: OrderId)
    requires StateInv(s)
    ensures Noted(s.c, Cancel(s, id).0.c, [])
  {
    NotedNone(s.c, s.c);
    if id in s.c.orders { TakeDownNoted(s.c, id); }
    hide StateInv, Noted, TakeDown, Unqueue, Queued;
  }

  lemma CancelNoted(s: State, id: OrderId)
    requires StateInv(s) && BareStops(s.stops)
    ensures Announced(s, Cancel(s, id).0, {id}, [])
  {
    hide StateInv, Cancel, Noted, Announced, Others, AllStay;
    CancelSilent(s, id);
    CancelTakesOut(s, id);
    Unrung(s, Cancel(s, id).0, {id});
  }

  lemma {:induction false} CancelAllNoted(s: State, ids: seq<OrderId>)
    requires StateInv(s) && BareStops(s.stops)
    ensures Noted(s.c, CancelAll(s, ids).c, [])
    decreases |ids|
  {
    hide StateInv, Cancel, Noted, BareStops;
    if ids == [] {
      NotedNone(s.c, s.c);
    } else {
      CancelInv(s, ids[0]);
      CancelNoted(s, ids[0]);
      CancelAllNoted(Cancel(s, ids[0]).0, ids[1..]);
      Silent(s.c, Cancel(s, ids[0]).0.c, CancelAll(s, ids).c, []);
    }
  }

  // ---------------------------------------------------------------- auctions

  lemma ClearedOfAuction(o: Order)
    ensures NoAuction(ClearFlags(o))
  {
  }

  lemma {:induction false} CrossLoopNoted(cr: Cross, buys: seq<OrderId>, sells: seq<OrderId>, p: int, left: int)
    requires InPool(cr.w, buys) && InPool(cr.w, sells)
    ensures Noted(cr.c, CrossLoop(cr, buys, sells, p, left).c, [])
    decreases |buys| + |sells|, left
  {
    hide Noted;
    if left <= 0 || buys == [] || sells == [] || !cr.w[buys[0]].o.TradesAt(p) || !cr.w[sells[0]].o.TradesAt(p)
      || buys[0] == sells[0]
    {
      NotedNone(cr.c, cr.c);
    } else {
      var b, s := buys[0], sells[0];
      var x := Min(Min(cr.w[b].o.leaves, cr.w[s].o.leaves), left);
      var cr1 := CrossOne(cr, b, s, p, x);
      NotedOne(cr.c, cr1.c, cr1.c.events[|cr.c.events|]);
      CrossLoopNoted(cr1, Advance(cr1.w, buys), Advance(cr1.w, sells), p, left - x);
      Silent(cr.c, cr1.c, CrossLoop(cr, buys, sells, p, left).c, []);
    }
  }

  lemma CrossPoolNoted(c: Core, w: Pool)
    requires QueuePool(w)
    ensures Noted(c, CrossPool(c, w).c, [])
  {
    hide Noted, QueuePool, CrossLoop, ClearingPrice, Ranked, Lists;
    NotedNone(c, c);
    if ClearingPrice(w, c.last).Some? {
      var p := ClearingPrice(w, c.last).value;
      RankedLists(w, Buy, p);
      RankedLists(w, Sell, p);
      CrossLoopNoted(Cross(c, w, []), Ranked(w, Buy), Ranked(w, Sell), p, Volume(w, p));
      var r := CrossLoop(Cross(c, w, []), Ranked(w, Buy), Ranked(w, Sell), p, Volume(w, p));
      SameNoted(c, r.c, CrossPool(c, w).c);
    }
  }

  lemma {:induction false} RemaindersNoted(c: Core, queue: seq<Order>, w: Pool, trades: seq<Trade>)
    requires Inv(c) && RemaindersOk(c, queue, w)
    ensures Noted(c, InjectRemainders(c, queue, w, trades).c, [])
    decreases |queue|
  {
    hide Inv, Inject, Noted, NoAuction;
    if queue == [] {
      NotedNone(c, c);
    } else {
      assert queue[0] in queue;
      var o := w[queue[0].id].o;
      if o.leaves > 0 && (o.Has(Loo) || o.Has(Loc)) {
        RemainderStep(c, queue, w, trades);
        var m := Inject(c, ClearFlags(o), trades);
        ClearedOfAuction(o);
        InjectNoted(c, ClearFlags(o), trades);
        RemaindersNoted(m.c, queue[1..], w, m.trades);
        Silent(c, m.c, InjectRemainders(c, queue, w, trades).c, []);
      } else {
        RemaindersTail(c, queue, w);
        RemaindersNoted(c, queue[1..], w, trades);
      }
    }
  }

  lemma CrossedNoted(s: State, open: bool)
    requires StateInv(s)
    ensures Noted(s.c, Crossed(s, open).s.c, [])
  {
    hide Inv, StopsOk, QueueOk, InjectRemainders, CrossPool, QueuePool, RemaindersOk, PoolOf, Noted;
    var queue := if open then s.opening else s.closing;
    AuctionStateInv(s, open);
    var x := CrossPool(s.c, PoolOf(queue));
    CrossPoolNoted(s.c, PoolOf(queue));
    RemaindersNoted(x.c, queue, x.w, x.trades);
    Silent(s.c, x.c, Crossed(s, open).s.c, []);
  }

  lemma AuctionNoted(s: State, open: bool) returns (rung: seq<OrderId>)
    requires StateInv(s) && BareStops(s.stops)
    ensures Announced(s, RunAuction(s, open).s, {}, rung)
  {
    hide StateInv, CrossAndEnter, Noted, Announced, Cascade, RepriceAll, BareStops;
    NotedNone(s.c, s.c);
    Unrung(s, s, {});
    rung := [];
    if (if open then s.opening else s.closing) != [] {
      var y := Crossed(s, open);
      CrossedInv(s, open);
      CrossedNoted(s, open);
      Unrung(s, y.s, {});
      if y.trades != [] { rung := Settled(s, y.s, y); }
    }
  }

  /** Every operation announces exactly the parked stops that fire, each once; and if no resting or parked
      order carries an auction instruction, none does afterwards. */
  lemma ApplyNotices(s: State, op: Op) returns (rung: seq<OrderId>)
    requires StateInv(s) && Legal(s, op) && BareStops(s.stops)
    ensures Announced(s, Apply(s, op), if op.OpCancel? then {op.id} else {}, rung)
  {
    rung := [];
    match op
    case OpSubmit(o) => hide StateInv, Submit, Admissible, Announced, BareStops; rung := SubmitNoted(s, o);
    case OpCancel(id) => hide StateInv, Cancel, Announced, BareStops; CancelNoted(s, id);
    case OpExpire(now) =>
      hide StateInv, CancelAll, BareStops, Noted, AllStay;
      ByIdTotal(Expired(s.c, now));
      CancelAllNoted(s, Sorted(ById(Expired(s.c, now)), Expired(s.c, now)));
      ExpireTakesOut(s, now);
      Unrung(s, Apply(s, op), {});
    case OpAuction(open) => hide StateInv, RunAuction, Announced, BareStops; rung := AuctionNoted(s, open);
    case _ => NotedNone(s.c, Apply(s, op).c); Unrung(s, Apply(s, op), {});
  }

  /** In every reachable state no resting or parked order carries an auction instruction. */
  lemma {:induction false} NoAuctionInBook(s: State, ops: seq<Op>)
    requires StateInv(s) && LegalRun(s, ops) && Bare(s.c) && BareStops(s.stops)
    ensures var s' := RunOps(s, ops); Bare(s'.c) && BareStops(s'.stops)
    decreases |ops|
  {
    hide StateInv, Apply, Bare, BareStops, Legal;
    if ops != [] {
      ApplyInv(s, ops[0]);
      var rung := ApplyNotices(s, ops[0]);
      NoAuctionInBook(Apply(s, ops[0]), ops[1..]);
    }
  }
}
