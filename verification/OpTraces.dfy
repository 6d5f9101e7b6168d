/** Every operation is a trace: matching, injection, cascades, repricing, submit, cancel, expire and
    the auctions, each decomposed into atoms of the right kind. */
module OpTraces {
  import opened OrderTypes
  import opened BookSums
  import opened BookCore
  import opened Matching
  import opened Liquidity
  import opened Walks
  import opened Ordering
  import opened Pegs
  import opened Auctions
  import opened Crossing
  import opened Sessions
  import opened Traces
  import opened Injections

  // -------------------------------------------------------------- matching

  lemma ActSteps(k: Kind, m: Match)
    requires Inv(m.c) && !Done(m) && Foreign(k, m.o)
    ensures Next(m.c, m.o).value in m.c.orders
    ensures var m' := Act(m, Next(m.c, m.o).value);
      && Inv(m'.c) && Steps(k, m.c, m'.c) && Work(m') < Work(m) && Foreign(k, m'.o)
      && (m'.halted ==> m.c.stp.Aggressor()) && m'.c.stp == m.c.stp
  {
    NextSound(m.c, m.o);
    var id := Next(m.c, m.o).value;
    ActInv(m, id);
    ActTerms(m, id);
    ActOthers(m, id);
    var mk := m.c.orders[id];
    if StpHit(m.c, m.o, mk) {
      if m.c.stp.Resting() {
        StepsOne(k, m.c, Leave(id));
      } else {
        StepsNone(k, m.c);
      }
    } else {
      var a := Fill(m.o, id, FillSize(m.o, mk));
      assert AtomOk(k, m.c, a);
      StepsOne(k, m.c, a);
    }
  }

  lemma {:induction false} MatchSteps(k: Kind, m: Match)
    requires Inv(m.c) && Foreign(k, m.o)
    ensures Steps(k, m.c, MatchAll(m).c) && Foreign(k, MatchAll(m).o)
    ensures MatchAll(m).halted ==> m.halted || m.c.stp.Aggressor()
    decreases Work(m)
  {
    hide Inv, Steps, Act;
    if Done(m) {
      StepsNone(k, m.c);
    } else {
      ActSteps(k, m);
      var m' := Act(m, Next(m.c, m.o).value);
      MatchSteps(k, m');
      StepsTrans(k, m.c, m'.c, MatchAll(m).c);
    }
  }

  /** In a clean book the remainder of a match that was not halted crosses nothing. */
  lemma RemainderNoCross(k: Kind, m: Match)
    requires Inv(m.c) && k.clean && GoodCore(k, m.c) && Foreign(k, m.o) && !MatchAll(m).halted
    ensures MatchAll(m).o.leaves > 0 ==> NoCross(MatchAll(m).c, MatchAll(m).o)
  {
    MatchSteps(k, m);
    StepsGood(k, m.c, MatchAll(m).c);
    var r := MatchAll(m);
    if r.o.leaves > 0 {
      forall id | id in r.c.orders ensures !Reaches(r.o, r.c.orders[id]) {
        RemainderBlocked(m, id);
      }
    }
  }

  lemma {:induction false} MatchKeepsOwnSide(m: Match)
    requires Inv(m.c)
    ensures forall id :: id in MatchAll(m).c.orders && MatchAll(m).c.orders[id].o.side == m.o.side ==>
      id in m.c.orders && MatchAll(m).c.orders[id] == m.c.orders[id]
    ensures forall id :: id in m.c.orders && m.c.orders[id].o.side == m.o.side ==> id in MatchAll(m).c.orders
    decreases Work(m)
  {
    if !Done(m) {
      var id := Next(m.c, m.o).value;
      NextSound(m.c, m.o);
      ActInv(m, id);
      ActTerms(m, id);
      ActOthers(m, id);
      ActEvolves(m, id);
      hide Inv, Act;
      MatchKeepsOwnSide(Act(m, id));
    }
  }

  /** Resting the remainder of a match is a legitimate last atom. */
  lemma RestSteps(k: Kind, c: Core, m: Match)
    requires Inv(m.c) && GoodCore(k, m.c) && Steps(k, c, m.c)
    requires m.o.id !in m.c.orders && Restable(m.o, m.c.nextSeq, m.c.born) && GoodOrder(k, m.o) && !m.o.Discards()
    requires k.clean ==> NoCross(m.c, Limited(m.o))
    requires k.ranked ==> RankLast(m.c, m.o)
    ensures Steps(k, c, Rest(m.c, m.o)) && GoodCore(k, Rest(m.c, m.o))
  {
    var a := Join(m.o);
    assert AtomOk(k, m.c, a);
    hide Inv, GoodCore, Steps, AtomOk;
    StepsThen(k, c, m.c, a);
    DoGood(k, m.c, a);
  }

  /** The state of a match that starts from a good book. */
  lemma MatchGood(k: Kind, c: Core, o: Order, trades: seq<Trade>)
    requires Inv(c) && GoodCore(k, c) && GoodOrder(k, o) && o.id !in c.orders && Restable(o, c.nextSeq, c.born)
    ensures var m := MatchAll(Match(c, o, trades, false));
      && Inv(m.c) && GoodCore(k, m.c) && Steps(k, c, m.c) && GoodOrder(k, m.o) && m.o.id !in m.c.orders
      && (m.o.leaves > 0 ==> Restable(m.o, m.c.nextSeq, m.c.born))
      && (k.clean && m.o.leaves > 0 && !m.halted ==> NoCross(m.c, Limited(m.o)))
  {
    hide Inv, GoodCore, Steps, NoCross, Limited;
    var m0 := Match(c, o, trades, false);
    MatchAllInv(m0);
    MatchAllEvolves(m0);
    MatchSteps(k, m0);
    StepsGood(k, c, MatchAll(m0).c);
    if k.clean && !MatchAll(m0).halted && MatchAll(m0).o.leaves > 0 {
      RemainderNoCross(k, m0);
      NoCrossLimited(MatchAll(m0).c, MatchAll(m0).o);
    }
  }

  lemma NoCrossLimited(c: Core, o: Order)
    requires NoCross(c, o)
    ensures NoCross(c, Limited(o))
  {
    forall id | id in c.orders ensures !Reaches(Limited(o), c.orders[id]) {
      assert !Reaches(o, c.orders[id]);
    }
  }

  lemma InjectSteps(k: Kind, c: Core, o: Order, trades: seq<Trade>)
    requires Inv(c) && GoodCore(k, c) && GoodOrder(k, o) && o.id !in c.orders && Restable(o, c.nextSeq, c.born)
    requires !k.still && (Picky(k) ==> InjectsWell(k, c, o))
    ensures Steps(k, c, Inject(c, o, trades).c) && GoodCore(k, Inject(c, o, trades).c)
  {
    hide Inv, GoodCore, Steps, Restable, GoodOrder, NoCross, InjectsCleanly, InjectsLast, RankLast;
    MatchGood(k, c, o, trades);
    var m := MatchAll(Match(c, o, trades, false));
    if m.o.leaves > 0 && !m.o.Discards() {
      if k.clean { RemainderWithin(k, c, o, trades); }
      if k.ranked { RemainderLast(c, o, trades); }
      RestSteps(k, c, m);
    }
  }

  /** The remainder of an order that injects cleanly has nothing within its limit. */
  lemma RemainderWithin(k: Kind, c: Core, o: Order, trades: seq<Trade>)
    requires Inv(c) && k.clean && GoodCore(k, c) && o.id !in c.orders && o.leaves > 0 && InjectsCleanly(c, o)
    requires var m := MatchAll(Match(c, o, trades, false)); m.o.leaves > 0 && !m.o.Discards()
    ensures var m := MatchAll(Match(c, o, trades, false)); NoCross(m.c, Limited(m.o))
  {
    hide Inv, CleanBook, NoCross, InjectsCleanly, MatchAll;
    MatchAllEvolves(Match(c, o, [], false));
    TradesAside(Match(c, o, [], false), trades);
    LimitLeftIff(c, o);
  }

  /** A match does not touch the level its remainder joins. */
  lemma RemainderLastIff(c: Core, o: Order, trades: seq<Trade>)
    requires Inv(c)
    ensures var m := MatchAll(Match(c, o, trades, false)); RankLast(m.c, m.o) <==> RankLast(c, o)
  {
    MatchKeepsOwnSide(Match(c, o, trades, false));
    MatchAllEvolves(Match(c, o, trades, false));
    hide Inv, MatchAll;
  }

  lemma RemainderLast(c: Core, o: Order, trades: seq<Trade>)
    requires Inv(c) && o.leaves >= 0 && InjectsLast(c, o)
    requires var m := MatchAll(Match(c, o, trades, false)); m.o.leaves > 0 && !m.o.Discards()
    ensures var m := MatchAll(Match(c, o, trades, false)); RankLast(m.c, m.o)
  {
    hide Inv, MatchAll, Walk, RankLast;
    MatchLeaves(c, o);
    TradesAside(Match(c, o, [], false), trades);
    MatchAllEvolves(Match(c, o, trades, false));
    RemainderLastIff(c, o, trades);
  }

  /** Joining a level of a ranked book keeps the book ranked exactly when everybody there has an earlier
      rank. */
  lemma JoinRankedIff(c: Core, o: Order)
    requires Inv(c) && RankedBook(c) && o.id !in c.orders
    ensures RankedBook(Rest(c, o)) <==> RankLast(c, o)
  {
    if RankLast(c, o) {
      JoinRanked(c, o);
    }
    if RankedBook(Rest(c, o)) {
      var c', s := Rest(c, o), Slot(o.side, o.price);
      var f := Fifo(c'.q, s);
      assert RankedQueue(c', f) && f == Fifo(c.q, s) + [o.id];
      forall id | id in c.orders && SlotOf(c.orders[id]) == s ensures c.orders[id].o.rank < o.rank {
        var i :| 0 <= i < |Fifo(c.q, s)| && Fifo(c.q, s)[i] == id;
        assert f[i] == id && f[|f| - 1] == o.id && c'.orders[id] == c.orders[id] && c'.orders[o.id].o == o;
      }
    }
  }

  /** A fired stop or an auction remainder leaves the queues in order of rank if and only if its remainder
      is discarded, it is filled, or the level it joins holds only earlier ranks: its own is from when it
      was accepted. */
  lemma InjectRankedIff(c: Core, o: Order, trades: seq<Trade>)
    requires Inv(c) && RankedBook(c) && o.id !in c.orders && Restable(o, c.nextSeq, c.born)
    ensures RankedBook(Inject(c, o, trades).c) <==> InjectsLast(c, o)
  {
    hide Inv, MatchAll, Walk, RankedBook, RankLast, Rest, Steps;
    var k := ANY.(ranked := true);
    var m0 := Match(c, o, trades, false);
    var m := MatchAll(m0);
    MatchAllInv(m0);
    MatchAllEvolves(m0);
    MatchSteps(k, m0);
    StepsGood(k, c, m.c);
    MatchLeaves(c, o);
    TradesAside(Match(c, o, [], false), trades);
    if m.o.leaves > 0 && !m.o.Discards() {
      RemainderLastIff(c, o, trades);
      JoinRankedIff(m.c, m.o);
    }
  }

  // --------------------------------------------------------------- cascade

  ghost predicate GoodStops(k: Kind, stops: map<OrderId, Order>) {
    (forall id :: id in stops ==> GoodOrder(k, stops[id])) && (k.still ==> stops == map[])
  }

  ghost predicate GoodQueue(k: Kind, queue: seq<Order>) {
    && (forall o :: o in queue ==> GoodOrder(k, o))
    && (k.still ==> forall o :: o in queue ==> !o.Has(Loo) && !o.Has(Loc))
  }

  ghost predicate GoodState(k: Kind, s: State) {
    GoodCore(k, s.c) && GoodStops(k, s.stops) && GoodQueue(k, s.opening) && GoodQueue(k, s.closing)
  }

  lemma FireOneSteps(k: Kind, r: Run, id: OrderId)
    requires StateInv(r.s) && GoodState(k, r.s) && id in r.s.stops && (Picky(k) ==> FiresOneWell(k, r, id))
    ensures Steps(k, r.s.c, FireOne(r, id).s.c) && GoodState(k, FireOne(r, id).s)
  {
    var o := MarkTriggered(r.s.stops[id]);
    AnnounceInv(r.s.c, o);
    MarkRestable(r.s.stops[id], r.s.c.nextSeq, r.s.c.born);
    assert AtomOk(k, r.s.c, Note(o));
    assert GoodOrder(k, o) && o.id !in r.s.c.orders;
    hide Inv, GoodCore, Steps, Restable, GoodOrder, StopsOk, QueueOk, Inject, InjectsWell;
    StepsOne(k, r.s.c, Note(o));
    StepsGood(k, r.s.c, Announce(r.s.c, o));
    InjectSteps(k, Announce(r.s.c, o), o, r.trades);
    StepsTrans(k, r.s.c, Announce(r.s.c, o), FireOne(r, id).s.c);
  }

  lemma {:induction false} FireAllSteps(k: Kind, r: Run, ids: seq<OrderId>)
    requires StateInv(r.s) && GoodState(k, r.s) && NoDup(ids) && forall id :: id in ids ==> id in r.s.stops
    requires Picky(k) ==> FiresWell(k, r, ids)
    ensures Steps(k, r.s.c, FireAll(r, ids).s.c) && GoodState(k, FireAll(r, ids).s)
    decreases |ids|
  {
    hide Inv, StopsOk, QueueOk, GoodState, Steps, FireOne, FiresOneWell;
    if ids == [] {
      StepsNone(k, r.s.c);
    } else {
      FireOneInv(r, ids[0]);
      FireOneSteps(k, r, ids[0]);
      HeadGone(ids);
      FireAllSteps(k, FireOne(r, ids[0]), ids[1..]);
      StepsTrans(k, r.s.c, FireOne(r, ids[0]).s.c, FireAll(r, ids).s.c);
    }
  }

  lemma RoundSteps(k: Kind, r: Run, px: int)
    requires StateInv(r.s) && GoodState(k, r.s)
    requires Picky(k) ==>
      var s1 := r.s.(stops := TrailAll(r.s.stops, px));
      (TrailInv(r.s, px); FiresWell(k, r.(s := s1), FireOrder(s1, px)))
    ensures Steps(k, r.s.c, Round(r, px).s.c) && GoodState(k, Round(r, px).s)
  {
    TrailInv(r.s, px);
    var s1 := r.s.(stops := TrailAll(r.s.stops, px));
    assert GoodStops(k, s1.stops);
    hide StateInv, GoodCore, GoodStops, GoodQueue, Steps, FireAll, FiresWell;
    FireAllSteps(k, r.(s := s1), FireOrder(s1, px));
  }

  lemma {:induction false} CascadeSteps(k: Kind, r: Run)
    requires StateInv(r.s) && GoodState(k, r.s) && (Picky(k) ==> CascadesWell(k, r))
    ensures Steps(k, r.s.c, Cascade(r).s.c) && GoodState(k, Cascade(r).s)
    decreases |r.s.stops|
  {
    hide StateInv, GoodState, Steps, Round, FiresWell;
    if r.s.c.last.None? {
      StepsNone(k, r.s.c);
    } else {
      var px := r.s.c.last.value;
      RoundInv(r, px);
      RoundSteps(k, r, px);
      if Firing(TrailAll(r.s.stops, px), px) != {} {
        CascadeSteps(k, Round(r, px));
        StepsTrans(k, r.s.c, Round(r, px).s.c, Cascade(r).s.c);
      }
    }
  }

  // ------------------------------------------------------------- repricing

  lemma {:induction false} RepriceSteps(k: Kind, c: Core, ids: seq<OrderId>)
    requires Inv(c) && !k.clean && forall id :: id in ids ==> id in c.pegged
    ensures Steps(k, c, Reprice(c, ids))
    decreases |ids|
  {
    hide Inv, Steps, PegPrice;
    if ids == [] {
      StepsNone(k, c);
    } else {
      var id := ids[0];
      PegMember(c, id);
      RepriceOneInv(c, id);
      var c1 := RepriceOne(c, id);
      var np := PegPrice(c, c.orders[id].o);
      if np.Some? && np.value != c.orders[id].o.price {
        StepsOne(k, c, Shift(id, np.value));
      } else {
        StepsNone(k, c);
      }
      RepriceSteps(k, c1, ids[1..]);
      StepsTrans(k, c, c1, Reprice(c, ids));
    }
  }

  lemma RepriceAllSteps(k: Kind, c: Core)
    requires Inv(c) && GoodCore(k, c)
    ensures Steps(k, c, RepriceAll(c)) && GoodCore(k, RepriceAll(c))
  {
    PegsKeyed(c);
    var ids := Sorted(Arrival(c), c.pegged);
    assert ids != [] ==> ids[0] in ids;
    if k.clean {
      StepsNone(k, c);
    } else {
      RepriceSteps(k, c, ids);
    }
    hide Inv, GoodCore, Steps, RepriceAll;
    StepsGood(k, c, RepriceAll(c));
  }

  // ---------------------------------------------------------------- submit

  /** `o` carries the latest rank handed out: nobody in the book outranks it. */
  ghost predicate Latest(c: Core, o: Order) {
    forall id :: id in c.orders ==> c.orders[id].o.rank < o.rank
  }

  lemma SubmitTradeSteps(k: Kind, s: State, o: Order)
    requires StateInv(s) && GoodState(k, s) && Fresh(s, o) && GoodOrder(k, o) && Latest(s.c, o)
    requires Picky(k) ==> TradesWell(k, s, o)
    ensures Steps(k, s.c, SubmitTrade(s, o).s.c) && GoodState(k, SubmitTrade(s, o).s)
  {
    hide Inv, StopsOk, QueueOk, GoodCore, Steps, Restable, GoodOrder, NoCross, RepriceAll, CascadesWell;
    MatchGood(k, s.c, o, []);
    var m := MatchAll(Match(s.c, o, [], false));
    TradeInv(s, o);
    var rests := m.o.leaves > 0 && !m.halted && !m.o.Discards();
    var c1 := if rests then Rest(m.c, m.o) else m.c;
    if rests {
      MatchAllEvolves(Match(s.c, o, [], false));
      MatchKeepsOwnSide(Match(s.c, o, [], false));
      RestSteps(k, s.c, m);
    }
    hide Rest;
    var s1 := s.(c := c1);
    assert GoodState(k, s1);
    hide StateInv, GoodState;
    TradeThen(k, s.c, s1, m.trades);
  }

  /** Cascade (after trades) and repricing continue a trace. */
  lemma TradeThen(k: Kind, c0: Core, s1: State, trades: seq<Trade>)
    requires StateInv(s1) && GoodState(k, s1) && Steps(k, c0, s1.c)
    requires Picky(k) && trades != [] ==> CascadesWell(k, Run(s1, trades))
    ensures var r := if trades != [] then Cascade(Run(s1, trades)) else Run(s1, trades);
      && StateInv(r.s) && Steps(k, c0, RepriceAll(r.s.c)) && GoodState(k, r.s.(c := RepriceAll(r.s.c)))
  {
    hide Inv, StopsOk, QueueOk, GoodCore, Steps, RepriceAll, CascadesWell;
    if trades != [] {
      CascadeInv(Run(s1, trades));
      CascadeSteps(k, Run(s1, trades));
      StepsTrans(k, c0, s1.c, Cascade(Run(s1, trades)).s.c);
    }
    var r := if trades != [] then Cascade(Run(s1, trades)) else Run(s1, trades);
    RepriceAllSteps(k, r.s.c);
    StepsTrans(k, c0, r.s.c, RepriceAll(r.s.c));
  }

  lemma SubmitSizedSteps(k: Kind, s: State, o: Order)
    requires StateInv(s) && GoodState(k, s) && Fresh(s, o) && GoodOrder(k, o) && Latest(s.c, o)
    requires Picky(k) ==> SizesWell(k, s, o)
    ensures Steps(k, s.c, SubmitSized(s, o).s.c) && GoodState(k, SubmitSized(s, o).s)
  {
    if !Picky(k) || TradesWell(k, s, o) { SubmitTradeSteps(k, s, o); }
    StepsNone(k, s.c);
    if o.Has(Aon) && Available(s.c, o) < o.leaves && !o.Discards() {
      var a := Join(o);
      assert AtomOk(k, s.c, a);
      hide Inv, GoodCore, Steps, AtomOk, RepriceAll;
      StepsOne(k, s.c, a);
      DoGood(k, s.c, a);
      RepriceAllSteps(k, Rest(s.c, o));
      StepsTrans(k, s.c, Rest(s.c, o), RepriceAll(Rest(s.c, o)));
    }
  }

  lemma SubmitPlainSteps(k: Kind, s: State, o: Order)
    requires StateInv(s) && GoodState(k, s) && Fresh(s, o) && GoodOrder(k, o) && Latest(s.c, o)
    requires Picky(k) ==> PlainWell(k, s, o)
    ensures Steps(k, s.c, SubmitPlain(s, o).s.c) && GoodState(k, SubmitPlain(s, o).s)
  {
    hide StateInv, GoodState, Steps, SubmitSized, SizesWell;
    var o1 := if o.Has(ReduceOnly) then Capped(o, Capacity(s.c, o)) else o;
    StepsNone(k, s.c);
    if !(o.Has(ReduceOnly) && Capacity(s.c, o) <= 0) && (!Picky(k) || SizesWell(k, s, o1)) {
      SubmitSizedSteps(k, s, o1);
    }
  }

  lemma SubmitPegSteps(k: Kind, s: State, o: Order)
    requires StateInv(s) && GoodState(k, s) && Fresh(s, o) && GoodOrder(k, o) && Latest(s.c, o) && o.peg.Some?
    ensures Steps(k, s.c, SubmitPeg(s, o).s.c) && GoodState(k, SubmitPeg(s, o).s)
  {
    hide Inv, StopsOk, QueueOk, GoodCore, Steps, PegPrice;
    var price := PegPrice(s.c, o);
    if price.None? {
      StepsNone(k, s.c);
    } else {
      var o1 := o.(typ := Limit, price := price.value);
      var a, b := Join(o1), Tag(o.id);
      StepsOne(k, s.c, a);
      DoGood(k, s.c, a);
      StepsThen(k, s.c, Rest(s.c, o1), b);
      DoGood(k, Rest(s.c, o1), b);
    }
  }

  lemma SubmitStopSteps(k: Kind, s: State, o: Order)
    requires StateInv(s) && GoodState(k, s) && Fresh(s, o) && GoodOrder(k, o) && o.trigger.Some? && !k.still
    requires Picky(k) ==> StopWell(k, s, o)
    ensures Steps(k, s.c, SubmitStop(s, o).s.c) && GoodState(k, SubmitStop(s, o).s)
  {
    var a := Armed(o, s.c.last);
    var b := MarkTriggered(a);
    assert GoodOrder(k, a) && GoodOrder(k, b) && Fresh(s, b);
    hide Inv, StopsOk, QueueOk, GoodCore, Steps, Inject, GoodOrder, InjectsWell, CascadesWell;
    if s.c.last.Some? && StopTriggered(a, s.c.last.value) {
      StopInv(s, b);
      InjectSteps(k, s.c, b, []);
      var r := Run(s.(c := Inject(s.c, b, []).c), Inject(s.c, b, []).trades);
      CascadeSteps(k, r);
      StepsTrans(k, s.c, r.s.c, Cascade(r).s.c);
    } else {
      StepsNone(k, s.c);
    }
  }

  predicate GoodSubmit(k: Kind, o: Order) {
    && GoodOrder(k, Normalize(o))
    && (k.still ==> !o.Has(Loo) && !o.Has(Loc) && (o.trigger.None? || o.trigger.value.triggered))
  }

  lemma StampSteps(k: Kind, s: State, o0: Order)
    requires StateInv(s) && GoodState(k, s) && GoodSubmit(k, o0)
    ensures var o := Stamp(o0, s.c.nextSeq);
      var s1 := s.(c := StampCore(s.c, o.id));
      && Latest(s1.c, o) && GoodOrder(k, o) && GoodState(k, s1) && Steps(k, s.c, s1.c)
      && GoodState(k, s1.(opening := s1.opening + [o])) && GoodState(k, s1.(closing := s1.closing + [o]))
  {
    var o := Stamp(o0, s.c.nextSeq);
    assert Latest(StampCore(s.c, o.id), o);
    assert GoodOrder(k, o);
    GoodPush(k, s.opening, o);
    GoodPush(k, s.closing, o);
    hide Inv, StopsOk, QueueOk, GoodCore, Steps, GoodOrder, GoodQueue, GoodStops, Latest;
    StepsOne(k, s.c, Number(o.id));
    StepsGood(k, s.c, StampCore(s.c, o.id));
  }

  lemma SubmitSteps(k: Kind, s: State, o0: Order)
    requires StateInv(s) && GoodState(k, s) && Admissible(s, o0) && GoodSubmit(k, o0)
    requires Picky(k) ==> SubmitsWell(k, s, o0)
    ensures Steps(k, s.c, Submit(s, o0).s.c) && GoodState(k, Submit(s, o0).s)
  {
    hide StateInv, GoodState, Steps, SubmitPlain, SubmitStop, SubmitPeg, Latest, Fresh, PlainWell, StopWell;
    var o := Stamp(o0, s.c.nextSeq);
    var s1 := s.(c := StampCore(s.c, o.id));
    StampInv(s, o0);
    StampSteps(k, s, o0);
    if Fresh(s1, o) && !o.IsOpening() && !o.IsClosing() {
      if o.trigger.Some? && !o.trigger.value.triggered {
        SubmitStopSteps(k, s1, o);
        StepsTrans(k, s.c, s1.c, SubmitStop(s1, o).s.c);
      } else if o.peg.Some? {
        SubmitPegSteps(k, s1, o);
        StepsTrans(k, s.c, s1.c, SubmitPeg(s1, o).s.c);
      } else {
        SubmitPlainSteps(k, s1, o);
        StepsTrans(k, s.c, s1.c, SubmitPlain(s1, o).s.c);
      }
    }
  }

  lemma GoodPush(k: Kind, queue: seq<Order>, o: Order)
    requires GoodQueue(k, queue) && GoodOrder(k, o)
    requires k.still ==> !o.Has(Loo) && !o.Has(Loc)
    ensures GoodQueue(k, queue + [o])
  {
  }

  // -------------------------------------------------------- cancel, expire

  lemma TakeDownSteps(k: Kind, c: Core, id: OrderId)
    requires Inv(c) && GoodCore(k, c) && id in c.orders
    ensures Steps(k, c, TakeDown(c, id)) && GoodCore(k, TakeDown(c, id))
  {
    hide Inv, GoodCore, Steps, RepriceAll;
    var a := Leave(id);
    StepsOne(k, c, a);
    DoGood(k, c, a);
    RepriceAllSteps(k, Withdraw(c, id));
    StepsTrans(k, c, Withdraw(c, id), RepriceAll(Withdraw(c, id)));
  }

  lemma CancelSteps(k: Kind, s: State, id: OrderId)
    requires StateInv(s) && GoodState(k, s)
    ensures Steps(k, s.c, Cancel(s, id).0.c) && GoodState(k, Cancel(s, id).0)
  {
    UnqueueSub(s.opening, id);
    UnqueueSub(s.closing, id);
    hide Inv, StopsOk, QueueOk, GoodCore, GoodOrder, Steps, TakeDown, Queued, Unqueue;
    StepsNone(k, s.c);
    if id in s.stops || Queued(s.opening, id) || Queued(s.closing, id) {
    } else if id in s.c.orders {
      TakeDownSteps(k, s.c, id);
    }
  }

  lemma {:induction false} CancelAllSteps(k: Kind, s: State, ids: seq<OrderId>)
    requires StateInv(s) && GoodState(k, s)
    ensures Steps(k, s.c, CancelAll(s, ids).c) && GoodState(k, CancelAll(s, ids))
    decreases |ids|
  {
    hide StateInv, GoodState, Steps, Cancel;
    if ids == [] {
      StepsNone(k, s.c);
    } else {
      CancelInv(s, ids[0]);
      CancelSteps(k, s, ids[0]);
      CancelAllSteps(k, Cancel(s, ids[0]).0, ids[1..]);
      StepsTrans(k, s.c, Cancel(s, ids[0]).0.c, CancelAll(s, ids).c);
    }
  }

  // --------------------------------------------------------------- auctions

  /** Auction orders are outside the resting book and, in a trace kept apart, of other accounts. */
  ghost predicate Outside(k: Kind, c: Core, w: Pool) {
    forall id :: id in w ==> w[id].o.id == id && id !in c.orders && GoodOrder(k, w[id].o)
  }

  /** The two lists hold unfilled orders, each at most once and on one side only. */
  ghost predicate Disjoint(w: Pool, buys: seq<OrderId>, sells: seq<OrderId>) {
    && InPool(w, buys) && InPool(w, sells) && NoDup(buys) && NoDup(sells)
    && (forall a :: a in buys || a in sells ==> w[a].o.leaves > 0)
    && (forall a :: a in buys ==> a !in sells)
  }

  lemma CrossOneLists(k: Kind, cr: Cross, buys: seq<OrderId>, sells: seq<OrderId>, p: int, x: int)
    requires Disjoint(cr.w, buys, sells) && buys != [] && sells != [] && buys[0] in cr.w && sells[0] in cr.w
    requires 0 < x <= cr.w[buys[0]].o.leaves && x <= cr.w[sells[0]].o.leaves && Outside(k, cr.c, cr.w)
    ensures var cr1 := CrossOne(cr, buys[0], sells[0], p, x);
      Disjoint(cr1.w, Advance(cr1.w, buys), Advance(cr1.w, sells)) && Outside(k, cr.c, cr1.w)
  {
    assert buys[0] in buys && sells[0] in sells;
    HeadGone(buys);
    HeadGone(sells);
    CrossOneOthers(cr, buys[0], sells[0], p, x);
  }

  lemma CrossOneSteps(k: Kind, cr: Cross, b: OrderId, s: OrderId, p: int, x: int)
    requires Outside(k, cr.c, cr.w) && b in cr.w && s in cr.w && x > 0
    ensures Steps(k, cr.c, CrossOne(cr, b, s, p, x).c)
  {
    hide Steps;
    StepsOne(k, cr.c, Auctioned(cr.w[b], cr.w[s], p, x));
  }

  lemma {:induction false} CrossLoopSteps(k: Kind, cr: Cross, buys: seq<OrderId>, sells: seq<OrderId>, p: int,
                                          left: int)
    requires Outside(k, cr.c, cr.w) && Disjoint(cr.w, buys, sells)
    ensures Steps(k, cr.c, CrossLoop(cr, buys, sells, p, left).c)
    ensures Outside(k, cr.c, CrossLoop(cr, buys, sells, p, left).w)
    decreases |buys| + |sells|, left
  {
    if left <= 0 || buys == [] || sells == [] || !cr.w[buys[0]].o.TradesAt(p) || !cr.w[sells[0]].o.TradesAt(p)
      || buys[0] == sells[0]
    {
      StepsNone(k, cr.c);
    } else {
      var b, s := buys[0], sells[0];
      assert b in buys && s in sells;
      var x := Min(Min(cr.w[b].o.leaves, cr.w[s].o.leaves), left);
      var cr1 := CrossOne(cr, b, s, p, x);
      CrossOneSteps(k, cr, b, s, p, x);
      CrossOneLists(k, cr, buys, sells, p, x);
      hide Steps, Disjoint, CrossOne;
      CrossLoopSteps(k, cr1, Advance(cr1.w, buys), Advance(cr1.w, sells), p, left - x);
      StepsTrans(k, cr.c, cr1.c, CrossLoop(cr, buys, sells, p, left).c);
    }
  }

  lemma CrossPoolSteps(k: Kind, c: Core, w: Pool)
    requires QueuePool(w) && Outside(k, c, w)
    ensures Steps(k, c, CrossPool(c, w).c) && Outside(k, CrossPool(c, w).c, CrossPool(c, w).w)
  {
    if ClearingPrice(w, c.last).None? {
      StepsNone(k, c);
    } else {
      var p := ClearingPrice(w, c.last).value;
      RankedLists(w, Buy, p);
      RankedLists(w, Sell, p);
      var buys, sells := Ranked(w, Buy), Ranked(w, Sell);
      CrossLoopSteps(k, Cross(c, w, []), buys, sells, p, Volume(w, p));
      CrossLoopCore(Cross(c, w, []), buys, sells, p, Volume(w, p));
      hide Steps, QueuePool, Lists, CrossLoop;
      StepsThen(k, c, CrossLoop(Cross(c, w, []), buys, sells, p, Volume(w, p)).c, Priced(p));
    }
  }

  lemma {:induction false} InjectRemaindersSteps(k: Kind, c: Core, queue: seq<Order>, w: Pool, trades: seq<Trade>)
    requires Inv(c) && RemaindersOk(c, queue, w) && GoodCore(k, c)
    requires forall o :: o in queue ==> GoodOrder(k, w[o.id].o)
    requires k.still ==> forall o :: o in queue ==> !w[o.id].o.Has(Loo) && !w[o.id].o.Has(Loc)
    requires Picky(k) ==> EntersWell(k, c, queue, w, trades)
    ensures var y := InjectRemainders(c, queue, w, trades); Steps(k, c, y.c) && GoodCore(k, y.c)
    decreases |queue|
  {
    hide Inv, GoodCore, Steps, Inject, InjectsWell;
    if queue == [] {
      StepsNone(k, c);
    } else {
      assert queue[0] in queue && forall o :: o in queue[1..] ==> o in queue;
      var o := w[queue[0].id].o;
      if o.leaves > 0 && (o.Has(Loo) || o.Has(Loc)) {
        RemainderStep(c, queue, w, trades);
        var m := Inject(c, ClearFlags(o), trades);
        assert GoodOrder(k, ClearFlags(o));
        InjectSteps(k, c, ClearFlags(o), trades);
        hide RemaindersOk;
        InjectRemaindersSteps(k, m.c, queue[1..], w, m.trades);
        StepsTrans(k, c, m.c, InjectRemainders(c, queue, w, trades).c);
      } else {
        RemaindersTail(c, queue, w);
        hide RemaindersOk;
        InjectRemaindersSteps(k, c, queue[1..], w, trades);
      }
    }
  }

  lemma QueueOutside(k: Kind, queue: seq<Order>, c: Core, stops: map<OrderId, Order>)
    requires QueueOk(queue, c, stops) && GoodQueue(k, queue)
    ensures Outside(k, c, PoolOf(queue))
    ensures forall o :: o in queue ==> o.id in PoolOf(queue) && PoolOf(queue)[o.id] == Maker(o, 0)
  {
    var w := PoolOf(queue);
    forall id | id in w ensures exists o :: o in queue && o.id == id && w[id] == Maker(o, 0) {
      PoolFrom(queue, id);
      var i :| 0 <= i < |queue| && queue[i].id == id && w[id] == Maker(queue[i], 0);
      assert queue[i] in queue;
    }
    forall o | o in queue ensures o.id in w && w[o.id] == Maker(o, 0) {
      var i :| 0 <= i < |queue| && queue[i] == o;
      PoolAt(queue, i);
    }
  }

  lemma RemaindersGood(k: Kind, queue: seq<Order>, w: Pool, w': Pool)
    requires GoodQueue(k, queue) && Shrinks(w, w')
    requires forall o :: o in queue ==> o.id in w && w[o.id] == Maker(o, 0)
    ensures forall o :: o in queue ==> o.id in w' && GoodOrder(k, w'[o.id].o)
    ensures k.still ==> forall o :: o in queue ==> !w'[o.id].o.Has(Loo) && !w'[o.id].o.Has(Loc)
  {
  }

  lemma ShrinksNone(w: Pool)
    requires QueuePool(w)
    ensures Shrinks(w, w)
  {
  }

  lemma RemaindersSteps(k: Kind, s: State, open: bool)
    requires StateInv(s) && GoodState(k, s) && (Picky(k) ==> AuctionsWell(k, s, open))
    ensures var queue := if open then s.opening else s.closing;
      && QueuePool(PoolOf(queue))
      && var x := CrossPool(s.c, PoolOf(queue));
      && Inv(x.c) && RemaindersOk(x.c, queue, x.w)
      && var y := InjectRemainders(x.c, queue, x.w, x.trades);
      Steps(k, s.c, y.c) && GoodCore(k, y.c)
  {
    hide Inv, GoodCore, Steps, CrossPool, QueuePool, RemaindersOk, QueueOk, StopsOk, PoolOf, GoodQueue, GoodStops,
      Outside, Shrinks, Sound, ClearingPrice, Volume, InjectRemainders, EntersWell, CascadesWell;
    var queue := if open then s.opening else s.closing;
    var w := PoolOf(queue);
    CrossRemainders(s.c, queue, s.stops);
    var x := CrossPool(s.c, w);
    QueueOutside(k, queue, s.c, s.stops);
    CrossPoolSteps(k, s.c, w);
    StepsGood(k, s.c, x.c);
    AuctionExecutesVolume(s.c, w);
    ShrinksNone(w);
    RemaindersGood(k, queue, w, x.w);
    InjectRemaindersSteps(k, x.c, queue, x.w, x.trades);
    StepsTrans(k, s.c, x.c, InjectRemainders(x.c, queue, x.w, x.trades).c);
  }

  lemma EmptiedGood(k: Kind, s: State, c: Core, s': State)
    requires GoodState(k, s) && GoodCore(k, c)
    requires s' == s.(c := c, opening := []) || s' == s.(c := c, closing := [])
    ensures GoodState(k, s')
  {
    hide GoodCore;
  }

  lemma RunAuctionSteps(k: Kind, s: State, open: bool)
    requires StateInv(s) && GoodState(k, s) && (Picky(k) ==> AuctionsWell(k, s, open))
    ensures Steps(k, s.c, RunAuction(s, open).s.c) && GoodState(k, RunAuction(s, open).s)
  {
    hide StateInv, GoodState, Inv, Steps, CrossPool, QueuePool, RemaindersOk, PoolOf, InjectRemainders, GoodCore;
    hide EntersWell, CascadesWell;
    var queue := if open then s.opening else s.closing;
    if queue == [] {
      StepsNone(k, s.c);
    } else {
      AuctionStateInv(s, open);
      RemaindersSteps(k, s, open);
      var x := CrossPool(s.c, PoolOf(queue));
      var y := InjectRemainders(x.c, queue, x.w, x.trades);
      var s1 := if open then s.(c := y.c, opening := []) else s.(c := y.c, closing := []);
      EmptiedGood(k, s, y.c, s1);
      TradeThen(k, s.c, s1, y.trades);
    }
  }

  // ------------------------------------------------------------- whole runs

  predicate GoodOp(k: Kind, op: Op) {
    match op
    case OpSubmit(o) => GoodSubmit(k, o)
    case OpSeed(client, _) => k.apart != Some(client) && k.owners.None?
    case _ => true
  }

  /** Every operation is a trace of the kind its orders belong to, if every order it injects is injected
      as the kind asks. */
  lemma ApplySteps(k: Kind, s: State, op: Op)
    requires StateInv(s) && GoodState(k, s) && Legal(s, op) && GoodOp(k, op)
    requires Picky(k) ==> OperatesWell(k, s, op)
    ensures Steps(k, s.c, Apply(s, op).c) && GoodState(k, Apply(s, op))
  {
    hide Steps, GoodCore, GoodStops, GoodQueue, StateInv, Submit, Cancel, CancelAll, RunAuction, Admissible, GoodSubmit;
    hide SubmitsWell, AuctionsWell;
    match op
    case OpSubmit(o) => SubmitSteps(k, s, o);
    case OpCancel(id) => CancelSteps(k, s, id);
    case OpExpire(now) =>
      ByIdTotal(Expired(s.c, now));
      CancelAllSteps(k, s, Sorted(ById(Expired(s.c, now)), Expired(s.c, now)));
    case OpAuction(open) => RunAuctionSteps(k, s, open);
    case OpSeed(client, net) => AtomSteps(k, s, Seeded(client, net));
    case OpSetSeq(n) =>
      if n > s.c.nextSeq { AtomSteps(k, s, Skip(n)); } else { StepsNone(k, s.c); }
    case OpTakeRequeued => AtomSteps(k, s, Drain);
  }

  lemma AtomSteps(k: Kind, s: State, a: Atom)
    requires StateInv(s) && GoodState(k, s) && AtomOk(k, s.c, a)
    ensures Steps(k, s.c, Do(s.c, a)) && GoodState(k, s.(c := Do(s.c, a)))
  {
    hide Inv, GoodCore, GoodStops, GoodQueue, Steps;
    StepsOne(k, s.c, a);
    StepsGood(k, s.c, Do(s.c, a));
  }
}
