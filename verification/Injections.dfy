/** When a fired stop or an auction remainder, which enters matching by injection and rests even if
    self-trade prevention cancelled it, leaves the book crossed, and what whole operations ask of the
    orders they inject (src/core/order_book.cc, inject). */
module Injections {
  import opened OrderTypes
  import opened BookSums
  import opened BookCore
  import opened Matching
  import opened Liquidity
  import opened Walks
  import opened Auctions
  import opened Crossing
  import opened Sessions
  import opened Traces

  /** The reachable quantity of other accounts. */
  ghost function Others(c: Core, o: Order): int {
    Sum(c.orders, OthersOf(o))
  }

  /** `id` is the account's own and in reach. */
  ghost predicate OwnInReach(c: Core, o: Order, id: OrderId) {
    id in c.orders && Reaches(o, c.orders[id]) && c.orders[id].o.client == o.client
  }

  lemma OthersTerms(c: Core, o: Order, o': Order)
    requires o' == o.(leaves := o'.leaves, filled := o'.filled)
    ensures Others(c, o') == Others(c, o)
  {
    SumLeq(c.orders, OthersOf(o), OthersOf(o'));
    SumLeq(c.orders, OthersOf(o'), OthersOf(o));
  }

  /** An execution against another account takes the same quantity from both. */
  lemma HitOthers(m: Match, id: OrderId)
    requires Inv(m.c) && m.o.leaves > 0 && id in m.c.orders && Reaches(m.o, m.c.orders[id])
    requires m.c.orders[id].o.client != m.o.client
    ensures m.o.leaves - Act(m, id).o.leaves == Others(m.c, m.o) - Others(Act(m, id).c, Act(m, id).o)
  {
    hide Inv;
    var mk := m.c.orders[id];
    var x := FillSize(m.o, mk);
    SumDrop(m.c.orders, id);
    SumReplace(m.c.orders, id, Filled(mk, x));
    SumReplace(m.c.orders, id, Replenished(Filled(mk, x), m.c.nextSeq));
    ActTerms(m, id);
    OthersTerms(Act(m, id).c, m.o, Act(m, id).o);
  }

  /** What a halted match under an aggressor-cancelling policy leaves: other accounts lost exactly what
      was executed, and the account's own makers in reach are where they were, except that cancel-both
      withdrew the one that halted it. */
  ghost predicate HaltedAt(m: Match, r: Match, h: OrderId) {
    && OwnInReach(m.c, m.o, h)
    && Others(r.c, r.o) == Others(m.c, m.o) - (m.o.leaves - r.o.leaves)
    && (forall id :: OwnInReach(r.c, r.o, id) <==> OwnInReach(m.c, m.o, id) && (id != h || !m.c.stp.Resting()))
  }

  lemma OwnHalts(m: Match, id: OrderId)
    requires Inv(m.c) && !m.halted && m.o.leaves > 0 && m.c.stp.Aggressor()
    requires id in m.c.orders && Reaches(m.o, m.c.orders[id]) && StpHit(m.c, m.o, m.c.orders[id])
    ensures Act(m, id).halted && HaltedAt(m, Act(m, id), id) && Inv(Act(m, id).c)
    ensures MatchAll(Act(m, id)) == Act(m, id)
  {
    hide Inv, Act, HaltedAt;
    ActInv(m, id);
    OwnAct(m, id);
    if m.c.stp.Resting() { WithdrawnOwn(m, id); } else { KeptOwn(m, id); }
  }

  lemma OwnAct(m: Match, id: OrderId)
    requires id in m.c.orders && StpHit(m.c, m.o, m.c.orders[id]) && m.c.stp.Aggressor()
    ensures Act(m, id) == Match(if m.c.stp.Resting() then Withdraw(m.c, id) else m.c, m.o, m.trades, true)
  {
  }

  lemma KeptOwn(m: Match, id: OrderId)
    requires id in m.c.orders && OwnInReach(m.c, m.o, id) && !m.c.stp.Resting()
    ensures HaltedAt(m, m.(halted := true), id)
  {
  }

  lemma WithdrawnOwn(m: Match, id: OrderId)
    requires id in m.c.orders && OwnInReach(m.c, m.o, id) && m.c.stp.Resting()
    ensures HaltedAt(m, m.(c := Withdraw(m.c, id), halted := true), id)
  {
    SumDrop(m.c.orders, id);
  }

  lemma OtherFills(m: Match, id: OrderId)
    requires Inv(m.c) && !m.halted && m.o.leaves > 0 && m.o.client != 0 && m.c.stp.Aggressor()
    requires id in m.c.orders && Reaches(m.o, m.c.orders[id]) && !StpHit(m.c, m.o, m.c.orders[id])
    ensures var m' := Act(m, id);
      && Inv(m'.c) && !m'.halted && m'.c.stp == m.c.stp && m'.o.client == m.o.client
      && Others(m'.c, m'.o) == Others(m.c, m.o) - (m.o.leaves - m'.o.leaves)
      && (forall x :: OwnInReach(m'.c, m'.o, x) <==> OwnInReach(m.c, m.o, x))
  {
    hide Inv, Act, Others;
    ActInv(m, id);
    HitOthers(m, id);
    ActTerms(m, id);
    ActTakes(m, id);
    hide OwnInReach;
    forall x ensures OwnInReach(Act(m, id).c, Act(m, id).o, x) <==> OwnInReach(m.c, m.o, x) {
      SameOwn(m, id, x);
    }
  }

  lemma SameOwn(m: Match, id: OrderId, x: OrderId)
    requires Inv(m.c) && m.o.leaves > 0 && id in m.c.orders && m.c.orders[id].o.client != m.o.client
    ensures OwnInReach(Act(m, id).c, Act(m, id).o, x) <==> OwnInReach(m.c, m.o, x)
  {
    hide Inv, Act;
    ActTerms(m, id);
    ActOthers(m, id);
    ActEvolves(m, id);
  }

  lemma {:induction false} HaltedReach(m: Match)
    requires Inv(m.c) && !m.halted && m.o.client != 0 && m.c.stp.Aggressor()
    ensures MatchAll(m).halted ==> exists h :: HaltedAt(m, MatchAll(m), h)
    decreases Work(m)
  {
    hide Inv, Act, Others, OwnInReach;
    if !Done(m) {
      NextSound(m.c, m.o);
      var id := Next(m.c, m.o).value;
      ActInv(m, id);
      if StpHit(m.c, m.o, m.c.orders[id]) {
        OwnHalts(m, id);
      } else {
        OtherFills(m, id);
        HaltedReach(Act(m, id));
        if MatchAll(m).halted {
          var h :| HaltedAt(Act(m, id), MatchAll(m), h);
          assert HaltedAt(m, MatchAll(m), h);
        }
      }
    }
  }

  lemma {:induction false} HaltedClient(m: Match)
    requires Inv(m.c) && !m.halted
    ensures MatchAll(m).halted ==> m.o.client != 0 && m.c.stp.Aggressor()
    decreases Work(m)
  {
    hide Inv;
    if !Done(m) {
      NextSound(m.c, m.o);
      var id := Next(m.c, m.o).value;
      ActInv(m, id);
      ActOthers(m, id);
      if !Act(m, id).halted { HaltedClient(Act(m, id)); }
    }
  }

  /** No order in reach: no other account's quantity, and none of the account's own. */
  lemma NoCrossIff(c: Core, o: Order)
    requires Inv(c)
    ensures NoCross(c, o) <==> Others(c, o) == 0 && forall id :: !OwnInReach(c, o, id)
  {
    assert forall id :: id in c.orders ==> Weight(OthersOf(o), c.orders[id]) >= 0;
    if NoCross(c, o) {
      SumZero(c.orders, OthersOf(o));
    } else {
      var id :| id in c.orders && Reaches(o, c.orders[id]);
      if c.orders[id].o.client == o.client {
        assert OwnInReach(c, o, id);
      } else {
        SumDrop(c.orders, id);
        SumZero(c.orders - {id}, OthersOf(o));
      }
    }
  }

  /** After the halt nothing is in reach any more: cancel-both withdrew the only own maker in reach, and
      the other accounts' makers in reach were used up before it came to its turn. */
  ghost predicate ReachUsedUp(c: Core, o: Order)
    requires Inv(c) && o.leaves >= 0
  {
    && c.stp == CancelBoth
    && (forall a, b :: OwnInReach(c, o, a) && OwnInReach(c, o, b) ==> a == b)
    && Others(c, o) == o.leaves - Walk(c, o).qty
  }

  lemma HaltedCrossing(c: Core, o: Order)
    requires Inv(c) && o.leaves > 0 && Walk(c, o).halted
    ensures var m := MatchAll(Match(c, o, [], false)); m.halted && (NoCross(m.c, m.o) <==> ReachUsedUp(c, o))
  {
    hide Inv, MatchAll, Walk, NoCross, Others, OwnInReach;
    var m0 := Match(c, o, [], false);
    MatchLeaves(c, o);
    MatchAllInv(m0);
    HaltedClient(m0);
    HaltedReach(m0);
    var m := MatchAll(m0);
    var h :| HaltedAt(m0, m, h);
    NoCrossIff(m.c, m.o);
  }

  // ---------------------------------------------------- the discretion band

  /** Whoever comes next for the order without its band comes next for the order with it: the band only
      adds worse prices. */
  lemma LimitedNext(c: Core, o: Order)
    requires Inv(c) && Next(c, Limited(o)).Some?
    ensures Next(c, o) == Next(c, Limited(o))
  {
    var l := Limited(o);
    var p := NextPrice(c, l);
    var f := Fifo(c.q, Contra(o, p));
    OpenSound(c, l, p);
    var i := FirstOpen(c, l, f);
    forall id | id in f[..i] ensures id in c.orders && Blocked(c, o, c.orders[id]) {}
    forall x | o.Accepts(x) && o.side.Opposite().Better(x, p) ensures AllBlocked(c, o, Fifo(c.q, Contra(o, x))) {
      assert !Live(c, l, x);
      assert AllBlocked(c, l, Fifo(c.q, Contra(l, x)));
    }
    NextIs(c, o, p, i);
  }

  lemma LimitedAct(m: Match, id: OrderId)
    requires id in m.c.orders
    ensures Act(m.(o := Limited(m.o)), id) == Act(m, id).(o := Limited(Act(m, id).o))
  {
  }

  /** An order with a band first does what it would do without, and then goes on into the band. */
  lemma {:induction false} LimitedFirst(m: Match)
    requires Inv(m.c)
    ensures var l := MatchAll(m.(o := Limited(m.o)));
      && Inv(l.c) && SameTerms(m.o, l.o.(flags := m.o.flags)) && l.o.flags == m.o.flags - {Discretion}
      && MatchAll(m) == MatchAll(l.(o := l.o.(flags := m.o.flags)))
    decreases Work(m)
  {
    hide Inv, Act, Next;
    var ml := m.(o := Limited(m.o));
    if Done(ml) {
      assert ml.(o := ml.o.(flags := m.o.flags)) == m;
    } else {
      LimitedNext(m.c, m.o);
      NextSound(m.c, m.o);
      var id := Next(m.c, m.o).value;
      LimitedAct(m, id);
      ActInv(m, id);
      ActTerms(m, id);
      LimitedFirst(Act(m, id));
    }
  }

  // ------------------------------------------------------- the exact condition

  /** Resting an order keeps an uncrossed book uncrossed exactly when nothing rests at or through its
      limit. */
  lemma RestUncrossedIff(c: Core, o: Order)
    requires Uncrossed(c) && o.id !in c.orders && o.typ == Limit
    ensures Uncrossed(Rest(c, o)) <==> NoCross(c, Limited(o))
  {
    var c' := Rest(c, o);
    assert c'.orders[o.id].o == o && forall id :: id in c.orders ==> c'.orders[id] == c.orders[id];
    if NoCross(c, Limited(o)) {
      forall id | id in c.orders && c.orders[id].o.side != o.side
        ensures if o.side == Buy then o.price < c.orders[id].o.price else o.price > c.orders[id].o.price
      {
        assert !Reaches(Limited(o), c.orders[id]);
      }
    } else {
      var id :| id in c.orders && Reaches(Limited(o), c.orders[id]);
    }
  }

  lemma MatchStaysUncrossed(c: Core, o: Order)
    requires Inv(c) && CleanBook(c) && o.id !in c.orders
    ensures var m := MatchAll(Match(c, o, [], false));
      && Uncrossed(m.c) && m.o.id !in m.c.orders && m.o == o.(leaves := m.o.leaves, filled := m.o.filled)
      && (o.leaves >= 0 ==> m.o.leaves >= 0) && (!m.halted && m.o.leaves > 0 ==> NoCross(m.c, m.o))
  {
    var m0 := Match(c, o, [], false);
    var m := MatchAll(m0);
    MatchAllEvolves(m0);
    hide Inv, MatchAll;
    if !m.halted && m.o.leaves > 0 {
      forall id | id in m.c.orders ensures !Reaches(m.o, m.c.orders[id]) {
        RemainderBlocked(m0, id);
      }
    }
  }

  /** The injected order leaves the book uncrossed: its remainder is discarded, or up to its limit it
      meets no own maker that halts it, or that halt left nothing in its reach. */
  ghost predicate InjectsCleanly(c: Core, o: Order)
    requires Inv(c) && o.leaves >= 0
  {
    o.Discards() || !Walk(c, Limited(o)).halted || ReachUsedUp(c, Limited(o))
  }

  /** What going on into the band leaves out of reach stays out of reach. */
  lemma BandKeepsNoCross(m: Match)
    requires Inv(m.c) && NoCross(m.c, Limited(m.o))
    ensures NoCross(MatchAll(m).c, Limited(MatchAll(m).o))
  {
    MatchAllEvolves(m);
    hide Inv, MatchAll;
    var r := MatchAll(m);
    forall id | id in r.c.orders ensures !Reaches(Limited(r.o), r.c.orders[id]) {
      assert !Reaches(Limited(m.o), m.c.orders[id]);
    }
  }

  /** Whether anything is left within the limit of an injected order whose match is over. */
  lemma LimitLeftIff(c: Core, o: Order)
    requires Inv(c) && CleanBook(c) && o.id !in c.orders && o.leaves > 0 && !o.Discards()
    ensures var m := MatchAll(Match(c, o, [], false));
      m.o.leaves > 0 ==> (NoCross(m.c, Limited(m.o)) <==> InjectsCleanly(c, o))
  {
    hide Inv, MatchAll, Walk, CleanBook, NoCross, ReachUsedUp, Uncrossed;
    var l := MatchAll(Match(c, Limited(o), [], false));
    var m1 := l.(o := l.o.(flags := o.flags));
    LimitedFirst(Match(c, o, [], false));
    MatchLeaves(c, Limited(o));
    MatchStaysUncrossed(c, Limited(o));
    assert Limited(m1.o) == l.o;
    if Walk(c, Limited(o)).halted {
      HaltedCrossing(c, Limited(o));
      MatchAllDone(m1);
    } else if l.o.leaves == 0 {
      MatchAllDone(m1);
    } else {
      BandKeepsNoCross(m1);
    }
  }

  /** A fired stop or an auction remainder enters a clean, uncrossed book: the book stays uncrossed if
      and only if it injects cleanly. */
  lemma InjectUncrossedIff(c: Core, o: Order)
    requires Inv(c) && CleanBook(c) && o.id !in c.orders && Restable(o, c.nextSeq, c.born)
    ensures Uncrossed(Inject(c, o, []).c) <==> InjectsCleanly(c, o)
  {
    hide Inv, MatchAll, Walk, CleanBook, Uncrossed, NoCross, Rest, ReachUsedUp;
    var m := MatchAll(Match(c, o, [], false));
    MatchStaysUncrossed(c, o);
    if !o.Discards() {
      LimitLeftIff(c, o);
      RestUncrossedIff(m.c, m.o);
      if m.o.leaves == 0 { LimitFilled(c, o); }
    }
  }

  /** An injected order that is filled completely was not halted within its limit. */
  lemma LimitFilled(c: Core, o: Order)
    requires Inv(c) && o.leaves > 0 && MatchAll(Match(c, o, [], false)).o.leaves == 0
    ensures !Walk(c, Limited(o)).halted
  {
    hide Inv, MatchAll, Walk;
    var l := MatchAll(Match(c, Limited(o), [], false));
    LimitedFirst(Match(c, o, [], false));
    MatchLeaves(c, Limited(o));
    if l.halted { MatchAllDone(l.(o := l.o.(flags := o.flags))); }
  }

  /** Matching does not look at the executions so far. */
  lemma {:induction false} TradesAside(m: Match, trades: seq<Trade>)
    requires Inv(m.c)
    ensures var r, r' := MatchAll(m), MatchAll(m.(trades := trades));
      r'.c == r.c && r'.o == r.o && r'.halted == r.halted
    decreases Work(m)
  {
    hide Inv;
    if !Done(m) {
      NextSound(m.c, m.o);
      var id := Next(m.c, m.o).value;
      ActInv(m, id);
      TradesAside(Act(m, id), Act(m.(trades := trades), id).trades);
    }
  }

  // ------------------------------------------------------- whole operations

  /** The injected order joins no level behind one with a later rank: its remainder is discarded, or
      there is none, or the level it joins has only earlier ranks. */
  ghost predicate InjectsLast(c: Core, o: Order)
    requires Inv(c) && o.leaves >= 0
  {
    o.Discards() || Walk(c, o).qty == 0 || RankLast(c, o)
  }

  /** What a kind asks of an injection. */
  ghost predicate InjectsWell(k: Kind, c: Core, o: Order)
    requires Inv(c) && o.leaves >= 0
  {
    (k.clean ==> InjectsCleanly(c, o)) && (k.ranked ==> InjectsLast(c, o))
  }

  /** A kind that asks anything of injections. */
  predicate Picky(k: Kind) {
    k.clean || k.ranked
  }

  /** Each of the stops injects well when its turn to fire comes. */
  ghost predicate FiresWell(k: Kind, r: Run, ids: seq<OrderId>)
    requires StateInv(r.s) && NoDup(ids) && forall id :: id in ids ==> id in r.s.stops
    decreases |ids|
  {
    if ids == [] then true
    else
      FireOneInv(r, ids[0]);
      HeadGone(ids);
      FiresOneWell(k, r, ids[0]) && FiresWell(k, FireOne(r, ids[0]), ids[1..])
  }

  ghost predicate FiresOneWell(k: Kind, r: Run, id: OrderId)
    requires StateInv(r.s) && id in r.s.stops
  {
    var o := MarkTriggered(r.s.stops[id]);
    AnnounceInv(r.s.c, o);
    InjectsWell(k, Announce(r.s.c, o), o)
  }

  /** So does every stop of a cascade. */
  ghost predicate CascadesWell(k: Kind, r: Run)
    requires StateInv(r.s)
    decreases |r.s.stops|
  {
    if r.s.c.last.None? then true
    else
      var px := r.s.c.last.value;
      var s1 := r.s.(stops := TrailAll(r.s.stops, px));
      TrailInv(r.s, px);
      RoundInv(r, px);
      && FiresWell(k, r.(s := s1), FireOrder(s1, px))
      && (Firing(TrailAll(r.s.stops, px), px) != {} ==> CascadesWell(k, Round(r, px)))
  }

  /** So does every remainder of an auction. */
  ghost predicate EntersWell(k: Kind, c: Core, queue: seq<Order>, w: Pool, trades: seq<Trade>)
    requires Inv(c) && RemaindersOk(c, queue, w)
    decreases |queue|
  {
    if queue == [] then true
    else
      var o := w[queue[0].id].o;
      if o.leaves > 0 && (o.Has(Loo) || o.Has(Loc)) then
        RemainderStep(c, queue, w, trades);
        var m := Inject(c, ClearFlags(o), trades);
        InjectsWell(k, c, ClearFlags(o)) && EntersWell(k, m.c, queue[1..], w, m.trades)
      else
        RemaindersTail(c, queue, w);
        EntersWell(k, c, queue[1..], w, trades)
  }

  /** The stops a matched order sets off inject well. */
  ghost predicate TradesWell(k: Kind, s: State, o: Order)
    requires StateInv(s) && Fresh(s, o)
  {
    var m := MatchAll(Match(s.c, o, [], false));
    var rests := m.o.leaves > 0 && !m.halted && !m.o.Discards();
    TradeInv(s, o);
    m.trades != [] ==> CascadesWell(k, Run(s.(c := if rests then Rest(m.c, m.o) else m.c), m.trades))
  }

  ghost predicate SizesWell(k: Kind, s: State, o: Order)
    requires StateInv(s) && Fresh(s, o)
  {
    || (o.Has(Aon) && Available(s.c, o) < o.leaves)
    || (o.minQty > 0 && (o.minQty > o.qty || Available(s.c, o) < o.minQty))
    || TradesWell(k, s, o)
  }

  ghost predicate PlainWell(k: Kind, s: State, o: Order)
    requires StateInv(s) && Fresh(s, o)
  {
    || (o.Has(PostOnly) && Crosses(s.c, o))
    || (o.Has(ReduceOnly) && (o.client == 0 || Capacity(s.c, o) <= 0))
    || SizesWell(k, s, if o.Has(ReduceOnly) then Capped(o, Capacity(s.c, o)) else o)
  }

  /** A stop that fires on entry injects well, and so do the stops it sets off. */
  ghost predicate StopWell(k: Kind, s: State, o: Order)
    requires StateInv(s) && Fresh(s, o)
  {
    var a := Armed(o, s.c.last);
    if s.c.last.None? || !StopTriggered(a, s.c.last.value) then true
    else
      var b := MarkTriggered(a);
      StopInv(s, b);
      var m := Inject(s.c, b, []);
      InjectsWell(k, s.c, b) && CascadesWell(k, Run(s.(c := m.c), m.trades))
  }

  ghost predicate SubmitsWell(k: Kind, s: State, o0: Order)
    requires StateInv(s) && Admissible(s, o0)
  {
    var o := Stamp(o0, s.c.nextSeq);
    var s1 := s.(c := StampCore(s.c, o.id));
    StampInv(s, o0);
    || !Fresh(s1, o) || o.IsOpening() || o.IsClosing()
    || if o.trigger.Some? && !o.trigger.value.triggered then StopWell(k, s1, o)
       else o.peg.Some? || PlainWell(k, s1, o)
  }

  ghost predicate AuctionsWell(k: Kind, s: State, open: bool)
    requires StateInv(s)
  {
    var queue := if open then s.opening else s.closing;
    AuctionStateInv(s, open);
    var x := CrossPool(s.c, PoolOf(queue));
    var y := InjectRemainders(x.c, queue, x.w, x.trades);
    && EntersWell(k, x.c, queue, x.w, x.trades)
    && (y.trades != [] ==>
          CascadesWell(k, Run(if open then s.(c := y.c, opening := []) else s.(c := y.c, closing := []), y.trades)))
  }

  /** Every stop that fires and every auction remainder that enters during the operation injects well. */
  ghost predicate OperatesWell(k: Kind, s: State, op: Op)
    requires StateInv(s) && Legal(s, op)
  {
    match op
    case OpSubmit(o) => SubmitsWell(k, s, o)
    case OpAuction(open) => AuctionsWell(k, s, open)
    case _ => true
  }

  // ------------------------------------- when every injection is well anyway

  /** Ranks do not matter, and no aggressor is ever cancelled. */
  predicate Spared(k: Kind, stp: StpPolicy) {
    !k.ranked && !stp.Aggressor()
  }

  /** Then every order injects well. */
  lemma PolicyInjects(k: Kind, c: Core, o: Order)
    requires Inv(c) && o.leaves >= 0 && Spared(k, c.stp)
    ensures InjectsWell(k, c, o)
  {
    hide Inv, MatchAll, Walk, InjectsLast;
    MatchLeaves(c, Limited(o));
    HaltedClient(Match(c, Limited(o), [], false));
  }

  lemma {:induction false} PolicyFires(k: Kind, r: Run, ids: seq<OrderId>)
    requires StateInv(r.s) && NoDup(ids) && (forall id :: id in ids ==> id in r.s.stops) && Spared(k, r.s.c.stp)
    ensures FiresWell(k, r, ids) && FireAll(r, ids).s.c.stp == r.s.c.stp
    decreases |ids|
  {
    hide Inv, StopsOk, QueueOk, InjectsWell, FireOne;
    if ids != [] {
      FireOneInv(r, ids[0]);
      HeadGone(ids);
      PolicyFiresOne(k, r, ids[0]);
      PolicyFires(k, FireOne(r, ids[0]), ids[1..]);
    }
  }

  lemma PolicyFiresOne(k: Kind, r: Run, id: OrderId)
    requires StateInv(r.s) && id in r.s.stops && Spared(k, r.s.c.stp)
    ensures FiresOneWell(k, r, id) && FireOne(r, id).s.c.stp == r.s.c.stp
  {
    var o := MarkTriggered(r.s.stops[id]);
    AnnounceInv(r.s.c, o);
    hide Inv, InjectsWell, MatchAll;
    PolicyInjects(k, Announce(r.s.c, o), o);
    InjectPolicy(Announce(r.s.c, o), o, r.trades);
  }

  lemma InjectPolicy(c: Core, o: Order, trades: seq<Trade>)
    requires Inv(c)
    ensures Inject(c, o, trades).c.stp == c.stp
  {
    hide Inv, MatchAll;
    MatchAllEvolves(Match(c, o, trades, false));
  }

  lemma {:induction false} PolicyCascades(k: Kind, r: Run)
    requires StateInv(r.s) && Spared(k, r.s.c.stp)
    ensures CascadesWell(k, r)
    decreases |r.s.stops|
  {
    hide StateInv, FiresWell;
    if r.s.c.last.Some? {
      var px := r.s.c.last.value;
      TrailInv(r.s, px);
      RoundInv(r, px);
      var s1 := r.s.(stops := TrailAll(r.s.stops, px));
      PolicyFires(k, r.(s := s1), FireOrder(s1, px));
      if Firing(TrailAll(r.s.stops, px), px) != {} { PolicyCascades(k, Round(r, px)); }
    }
  }

  lemma {:induction false} PolicyEnters(k: Kind, c: Core, queue: seq<Order>, w: Pool, trades: seq<Trade>)
    requires Inv(c) && RemaindersOk(c, queue, w) && Spared(k, c.stp)
    ensures EntersWell(k, c, queue, w, trades) && InjectRemainders(c, queue, w, trades).c.stp == c.stp
    decreases |queue|
  {
    hide Inv, InjectsWell, Inject;
    if queue != [] {
      assert queue[0] in queue;
      var o := w[queue[0].id].o;
      if o.leaves > 0 && (o.Has(Loo) || o.Has(Loc)) {
        RemainderStep(c, queue, w, trades);
        PolicyInjects(k, c, ClearFlags(o));
        InjectPolicy(c, ClearFlags(o), trades);
        PolicyEnters(k, Inject(c, ClearFlags(o), trades).c, queue[1..], w, Inject(c, ClearFlags(o), trades).trades);
      } else {
        RemaindersTail(c, queue, w);
        PolicyEnters(k, c, queue[1..], w, trades);
      }
    }
  }

  /** No stop can fire where none is parked. */
  lemma NoStopsFire(k: Kind, r: Run)
    requires StateInv(r.s) && r.s.stops == map[]
    ensures CascadesWell(k, r)
  {
    hide StateInv;
    if r.s.c.last.Some? {
      var px := r.s.c.last.value;
      TrailInv(r.s, px);
      RoundInv(r, px);
      var s1 := r.s.(stops := TrailAll(r.s.stops, px));
      assert Firing(s1.stops, px) == {};
      assert forall id :: id !in FireOrder(s1, px);
    }
  }

  lemma {:induction false} NoneEnter(k: Kind, c: Core, queue: seq<Order>, w: Pool, trades: seq<Trade>)
    requires Inv(c) && RemaindersOk(c, queue, w)
    requires forall o :: o in queue ==> !w[o.id].o.Has(Loo) && !w[o.id].o.Has(Loc)
    ensures EntersWell(k, c, queue, w, trades)
    decreases |queue|
  {
    hide Inv, InjectsWell, Inject;
    if queue != [] {
      assert queue[0] in queue && forall o :: o in queue[1..] ==> o in queue;
      RemaindersTail(c, queue, w);
      NoneEnter(k, c, queue[1..], w, trades);
    }
  }

  /** Nothing is parked, or nothing is asked of what fires. */
  ghost predicate Tame(k: Kind, s: State) {
    s.stops == map[] || Spared(k, s.c.stp)
  }

  lemma TameCascades(k: Kind, s: State, trades: seq<Trade>)
    requires StateInv(s) && Tame(k, s)
    ensures CascadesWell(k, Run(s, trades))
  {
    hide StateInv, CascadesWell;
    if s.stops == map[] { NoStopsFire(k, Run(s, trades)); } else { PolicyCascades(k, Run(s, trades)); }
  }

  lemma TameTrades(k: Kind, s: State, o: Order)
    requires StateInv(s) && Fresh(s, o) && Tame(k, s)
    ensures TradesWell(k, s, o)
  {
    TradeInv(s, o);
    assert Inv(s.c);
    hide StateInv, CascadesWell, MatchAll, Rest, Inv;
    var m := MatchAll(Match(s.c, o, [], false));
    var s1 := s.(c := if m.o.leaves > 0 && !m.halted && !m.o.Discards() then Rest(m.c, m.o) else m.c);
    MatchPolicy(s.c, o);
    TameCascades(k, s1, m.trades);
  }

  lemma MatchPolicy(c: Core, o: Order)
    requires Inv(c)
    ensures var m := MatchAll(Match(c, o, [], false)); m.c.stp == c.stp && Rest(m.c, m.o).stp == c.stp
  {
    MatchAllEvolves(Match(c, o, [], false));
  }

  lemma TamePlain(k: Kind, s: State, o: Order)
    requires StateInv(s) && Fresh(s, o) && Tame(k, s)
    ensures PlainWell(k, s, o)
  {
    hide StateInv, TradesWell, Crosses, Available;
    if !(o.Has(ReduceOnly) && Capacity(s.c, o) <= 0) {
      TameTrades(k, s, if o.Has(ReduceOnly) then Capped(o, Capacity(s.c, o)) else o);
    }
  }

  lemma PolicyStop(k: Kind, s: State, o: Order)
    requires StateInv(s) && Fresh(s, o) && Spared(k, s.c.stp)
    ensures StopWell(k, s, o)
  {
    var b := MarkTriggered(Armed(o, s.c.last));
    assert Fresh(s, b) && Inv(s.c);
    hide StateInv, Inv, Inject, InjectsWell, CascadesWell;
    if s.c.last.Some? && StopTriggered(Armed(o, s.c.last), s.c.last.value) {
      StopInv(s, b);
      PolicyInjects(k, s.c, b);
      InjectPolicy(s.c, b, []);
      PolicyCascades(k, Run(s.(c := Inject(s.c, b, []).c), Inject(s.c, b, []).trades));
    }
  }

  /** A submit injects well when nothing is asked, or no stop is parked or submitted. */
  lemma TameSubmits(k: Kind, s: State, o0: Order)
    requires StateInv(s) && Admissible(s, o0)
    requires Spared(k, s.c.stp) || (s.stops == map[] && (o0.trigger.None? || o0.trigger.value.triggered))
    ensures SubmitsWell(k, s, o0)
  {
    hide StateInv, Fresh, PlainWell, StopWell;
    StampInv(s, o0);
    var o := Stamp(o0, s.c.nextSeq);
    var s1 := s.(c := StampCore(s.c, o.id));
    if Fresh(s1, o) {
      TamePlain(k, s1, o);
      if o.trigger.Some? && !o.trigger.value.triggered { PolicyStop(k, s1, o); }
    }
  }

  /** An auction injects well when nothing is asked, or no stop is parked and no queued order survives. */
  lemma TameAuctions(k: Kind, s: State, open: bool)
    requires StateInv(s)
    requires var queue := if open then s.opening else s.closing;
      Spared(k, s.c.stp) || (s.stops == map[] && forall o :: o in queue ==> !o.Has(Loo) && !o.Has(Loc))
    ensures AuctionsWell(k, s, open)
  {
    hide Inv, StopsOk, QueueOk, InjectRemainders, CrossPool, QueuePool, PoolOf, EntersWell, CascadesWell, Shrinks;
    var queue := if open then s.opening else s.closing;
    AuctionStateInv(s, open);
    var x := CrossPool(s.c, PoolOf(queue));
    CrossPolicy(s.c, PoolOf(queue));
    if Spared(k, s.c.stp) {
      PolicyEnters(k, x.c, queue, x.w, x.trades);
    } else {
      PoolFlags(s, queue);
      forall o | o in queue ensures !x.w[o.id].o.Has(Loo) && !x.w[o.id].o.Has(Loc) {
        assert !o.Has(Loo) && !o.Has(Loc) && x.w[o.id].o.flags == o.flags;
      }
      NoneEnter(k, x.c, queue, x.w, x.trades);
    }
    var y := InjectRemainders(x.c, queue, x.w, x.trades);
    TameCascades(k, if open then s.(c := y.c, opening := []) else s.(c := y.c, closing := []), y.trades);
  }

  lemma CrossPolicy(c: Core, w: Pool)
    requires QueuePool(w)
    ensures CrossPool(c, w).c.stp == c.stp
  {
    hide QueuePool, CrossLoop, ClearingPrice, Volume;
    CrossPoolCore(c, w);
  }

  /** The auction does not change what its orders ask for. */
  lemma PoolFlags(s: State, queue: seq<Order>)
    requires StateInv(s) && (queue == s.opening || queue == s.closing)
    requires QueuePool(PoolOf(queue))
    ensures var x := CrossPool(s.c, PoolOf(queue));
      forall o :: o in queue ==> o.id in x.w && x.w[o.id].o.flags == o.flags
  {
    var w := PoolOf(queue);
    forall o | o in queue ensures o.id in w && w[o.id].o == o {
      var i :| 0 <= i < |queue| && queue[i] == o;
      PoolAt(queue, i);
    }
    hide StateInv, PoolOf, QueuePool, CrossLoop, ClearingPrice, Volume;
    AuctionExecutesVolume(s.c, w);
  }
}
