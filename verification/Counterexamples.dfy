/** Where the code does not keep what its documentation says, as runs from the empty book: fill-or-kill
    orders that fill in part, a book left crossed, pegs left behind, a queue out of order of rank, an
    auction that finds no price, a displayed counter that drifts, and an iceberg the matching loop would
    never finish with.  What holds instead, and exactly when, is in modules Guarantees, Walks, Injections,
    PegRules, OpTraces, Auctions and Accounting. */
module Counterexamples {
  import opened OrderTypes
  import opened BookSums
  import opened BookCore
  import opened Matching
  import opened Liquidity
  import opened Walks
  import opened Pegs
  import opened Auctions
  import opened Crossing
  import opened Sessions
  import opened Traces
  import opened Accounting
  import opened Runs
  import opened Guarantees
  import opened PegRules

  /** A limit order at price 5, all other fields unset. */
  function Plain(id: OrderId, client: ClientId, side: Side, tif: Tif, flags: set<Flag>, qty: int): Order {
    Order(id, client, side, Limit, tif, flags, 5, qty, qty, 0, 0, 0, 0, 0, 0, 0, None, None)
  }

  lemma RunCons(s: State, a: Op, ops: seq<Op>)
    requires StateInv(s) && Legal(s, a) && (ApplyInv(s, a); LegalRun(Apply(s, a), ops))
    ensures LegalRun(s, [a] + ops)
    ensures StateInv(Apply(s, a)) && RunOps(s, [a] + ops) == RunOps(Apply(s, a), ops)
  {
    hide StateInv, Legal, Apply;
    ApplyInv(s, a);
    assert ([a] + ops)[0] == a && ([a] + ops)[1..] == ops;
  }

  lemma RunTwo(s: State, a: Op, b: Op, s1: State, s2: State)
    requires StateInv(s) && Legal(s, a) && s1 == Apply(s, a) && StateInv(s1) && Legal(s1, b) && s2 == Apply(s1, b)
    ensures LegalRun(s, [a, b]) && RunOps(s, [a, b]) == s2
  {
    hide StateInv, Legal, Apply;
    ApplyInv(s1, b);
    RunCons(s1, b, []);
    RunCons(s, a, [b]);
    assert [b] + [] == [b] && [a] + [b] == [a, b];
  }

  // ----------------------------------------------- fill-or-kill fills in part

  /** One level at price 5: offer `a` in front of offer `b`. */
  function TwoAsks(stp: StpPolicy, a: Order, b: Order): State {
    var c1 := Rest(StampCore(EmptyCore("S", stp), 1), Stamp(a, 1));
    State(Rest(StampCore(c1, 2), Stamp(b, 2)), map[], [], [])
  }

  predicate IsAsk(o: Order, id: OrderId) {
    o == Plain(id, o.client, Sell, GTC, o.flags, o.qty) && o.flags <= {Aon} && o.qty > 0
  }

  lemma AsksRest(stp: StpPolicy, a: Order, b: Order)
    requires IsAsk(a, 1) && IsAsk(b, 2)
    ensures LegalRun(EmptyState("S", stp), [OpSubmit(a), OpSubmit(b)])
    ensures RunOps(EmptyState("S", stp), [OpSubmit(a), OpSubmit(b)]) == TwoAsks(stp, a, b)
  {
    hide StateInv, Submit, Rest, Passive;
    var s := EmptyState("S", stp);
    var s1 := s.(c := Rest(StampCore(s.c, 1), Stamp(a, 1)));
    BothPassive(stp, a, b);
    PassiveOrderRests(s, a);
    ApplyInv(s, OpSubmit(a));
    PassiveOrderRests(s1, b);
    RunTwo(s, OpSubmit(a), OpSubmit(b), s1, TwoAsks(stp, a, b));
  }

  lemma BothPassive(stp: StpPolicy, a: Order, b: Order)
    requires IsAsk(a, 1) && IsAsk(b, 2)
    ensures var s := EmptyState("S", stp);
      var s1 := s.(c := Rest(StampCore(s.c, 1), Stamp(a, 1)));
      && Admissible(s, a) && Passive(s, Stamp(a, 1)) && s.c.nextSeq == 1 && s.c.pegged == {}
      && Admissible(s1, b) && Passive(s1, Stamp(b, 2)) && s1.c.nextSeq == 2 && s1.c.pegged == {}
  {
  }

  function Fok(client: ClientId): Order {
    Plain(3, client, Buy, FOK, {}, 5)
  }

  function AskOffer(stp: StpPolicy, o: Order, client: ClientId): Offer {
    Offer(stp != StpNone && client != 0 && o.client == client, o.Has(Aon), false, o.qty, o.qty, 0)
  }

  lemma TwoSums(stp: StpPolicy, a: Order, b: Order, k: Measure)
    requires IsAsk(a, 1) && IsAsk(b, 2)
    ensures var w := TwoAsks(stp, a, b).c.orders; 1 in w && 2 in w && Sum(w, k) == Weight(k, w[1]) + Weight(k, w[2])
  {
    var w := TwoAsks(stp, a, b).c.orders;
    var w1: map<OrderId, Maker> := map[1 := w[1]];
    assert w1 == map[][1 := w[1]] && w == w1[2 := w[2]];
    SumAdd(map[], 1, w[1]);
    SumAdd(w1, 2, w[2]);
  }

  lemma TwoLevel(stp: StpPolicy, a: Order, b: Order, client: ClientId)
    requires IsAsk(a, 1) && IsAsk(b, 2)
    ensures var c, o := TwoAsks(stp, a, b).c, Entering(TwoAsks(stp, a, b), Fok(client));
      && Fifo(c.q, Slot(Sell, 5)) == [1, 2] && PricesFor(c, o) == {5} && 1 in c.orders && 2 in c.orders
      && Offers(c, o, [1, 2]) == [AskOffer(stp, a, client), AskOffer(stp, b, client)]
  {
  }

  /** The level as the bid meets it. */
  lemma TwoOffers(stp: StpPolicy, a: Order, b: Order, client: ClientId)
    requires IsAsk(a, 1) && IsAsk(b, 2) && Inv(TwoAsks(stp, a, b).c)
    ensures var s := TwoAsks(stp, a, b);
      var o := Entering(s, Fok(client));
      var g := [AskOffer(stp, a, client), AskOffer(stp, b, client)];
      && AllSound(g) && Walk(s.c, o) == WalkLevel(stp, g, 5)
  {
    var s := TwoAsks(stp, a, b);
    var o := Entering(s, Fok(client));
    var g := [AskOffer(stp, a, client), AskOffer(stp, b, client)];
    TwoLevel(stp, a, b, client);
    LevelKnown(s.c, o, Slot(Sell, 5));
    hide Inv, Offers, WalkLevel, AllSound, TwoAsks, PricesFor, Fifo;
    assert Walks.BestOf(Sell, {5}) == 5 && {5} - {5} == {};
    assert WalkPrices(s.c, o, {5}, 5) == WalkLevel(stp, g, 5);
  }

  lemma FokAccepted(stp: StpPolicy, a: Order, b: Order, client: ClientId)
    requires IsAsk(a, 1) && IsAsk(b, 2) && a.qty + b.qty >= 5 && StateInv(TwoAsks(stp, a, b))
    ensures var s := TwoAsks(stp, a, b);
      && Admissible(s, Fok(client)) && Submit(s, Fok(client)).out.reason == Accepted
      && Available(s.c, Entering(s, Fok(client))) == 5
  {
    hide StateInv, Submit, Sum;
    var s := TwoAsks(stp, a, b);
    TwoSums(stp, a, b, ReachOf(Entering(s, Fok(client))));
    AvailableIsAccepted(s, Fok(client));
  }

  /** A fill-or-kill bid for 5 against two offers that add up to at least 5 is accepted, and fills
      what the walk over the two takes. */
  lemma FokFills(stp: StpPolicy, a: Order, b: Order, client: ClientId)
    requires IsAsk(a, 1) && IsAsk(b, 2) && a.qty + b.qty >= 5
    ensures LegalRun(EmptyState("S", stp), [OpSubmit(a), OpSubmit(b)])
    ensures var s := RunOps(EmptyState("S", stp), [OpSubmit(a), OpSubmit(b)]);
      var g := [AskOffer(stp, a, client), AskOffer(stp, b, client)];
      && Admissible(s, Fok(client)) && AllSound(g)
      && var out := Submit(s, Fok(client)).out;
        out.reason == Accepted && out.filled == 5 - WalkLevel(stp, g, 5).qty
  {
    hide StateInv, Submit, TwoAsks, LegalRun, RunOps, AllSound, WalkLevel, Available, Admissible, Walk, Rest, StampCore;
    AsksRest(stp, a, b);
    var s := TwoAsks(stp, a, b);
    FokAccepted(stp, a, b, client);
    assert Inv(s.c) by { InvOf(s); }
    TwoOffers(stp, a, b, client);
    SubmitExecutes(s, Fok(client));
  }

  lemma InvOf(s: State)
    requires StateInv(s)
    ensures Inv(s.c)
  {
  }

  /** One of the two offers gives 3, and the other cannot be had. */
  predicate OnlyThree(stp: StpPolicy, x: Offer, y: Offer) {
    || ((x.TooLarge(5) || (x.own && !stp.Aggressor())) && !y.own && !y.aon && y.leaves == 3)
    || (!x.own && !x.aon && x.leaves == 3 && (y.TooLarge(2) || y.own))
  }

  lemma TwoLeft(stp: StpPolicy, x: Offer, y: Offer)
    requires x.Sound() && y.Sound() && !x.iceberg && !y.iceberg && OnlyThree(stp, x, y)
    ensures AllSound([x, y]) && WalkLevel(stp, [x, y], 5).qty == 2
  {
    assert AllSound([x, y]) && AllSound([y]) && AllSound([]);
    assert [x, y][1..] == [y] && [y][1..] == [];
    assert WalkLevel(stp, [], 2) == Left(2, false);
    if !x.own && !x.aon && x.leaves == 3 && (y.TooLarge(2) || y.own) {
      assert WalkLevel(stp, [y], 2).qty == 2;
    } else {
      assert WalkLevel(stp, [y], 5).qty == 2;
    }
  }

  /** The bid for 5 is accepted and fills 3. */
  ghost predicate FillsThree(stp: StpPolicy, a: Order, b: Order, client: ClientId) {
    var ops := [OpSubmit(a), OpSubmit(b)];
    && LegalRun(EmptyState("S", stp), ops)
    && var s := RunOps(EmptyState("S", stp), ops);
      && Admissible(s, Fok(client)) && Fok(client).tif == FOK
      && Submit(s, Fok(client)).out.reason == Accepted && Submit(s, Fok(client)).out.filled == 3
  }

  lemma FillsThreeIf(stp: StpPolicy, a: Order, b: Order, client: ClientId)
    requires IsAsk(a, 1) && IsAsk(b, 2) && a.qty + b.qty >= 5
    requires var g := [AskOffer(stp, a, client), AskOffer(stp, b, client)]; AllSound(g) && WalkLevel(stp, g, 5).qty == 2
    ensures FillsThree(stp, a, b, client)
  {
    hide StateInv, Submit, LegalRun, RunOps, AllSound, WalkLevel, Admissible, AskOffer, IsAsk;
    FokFills(stp, a, b, client);
  }

  /** A fill-or-kill bid for 5 fills 3, without self-trade prevention: behind or before an all-or-none
      offer that it is too small for when its turn comes; and next to an own offer, under each of the
      three policies. */
  lemma FillOrKillPartialFill()
    ensures FillsThree(StpNone, Plain(1, 0, Sell, GTC, {Aon}, 10), Plain(2, 0, Sell, GTC, {}, 3), 0)
    ensures FillsThree(StpNone, Plain(1, 0, Sell, GTC, {}, 3), Plain(2, 0, Sell, GTC, {Aon}, 4), 0)
    ensures FillsThree(CancelResting, Plain(1, 7, Sell, GTC, {}, 5), Plain(2, 0, Sell, GTC, {}, 3), 7)
    ensures FillsThree(CancelAggressor, Plain(1, 0, Sell, GTC, {}, 3), Plain(2, 7, Sell, GTC, {}, 5), 7)
    ensures FillsThree(CancelBoth, Plain(1, 0, Sell, GTC, {}, 3), Plain(2, 7, Sell, GTC, {}, 5), 7)
  {
    hide FillsThree;
    PartialFill(StpNone, Plain(1, 0, Sell, GTC, {Aon}, 10), Plain(2, 0, Sell, GTC, {}, 3), 0);
    PartialFill(StpNone, Plain(1, 0, Sell, GTC, {}, 3), Plain(2, 0, Sell, GTC, {Aon}, 4), 0);
    PartialFill(CancelResting, Plain(1, 7, Sell, GTC, {}, 5), Plain(2, 0, Sell, GTC, {}, 3), 7);
    PartialFill(CancelAggressor, Plain(1, 0, Sell, GTC, {}, 3), Plain(2, 7, Sell, GTC, {}, 5), 7);
    PartialFill(CancelBoth, Plain(1, 0, Sell, GTC, {}, 3), Plain(2, 7, Sell, GTC, {}, 5), 7);
  }

  lemma PartialFill(stp: StpPolicy, a: Order, b: Order, client: ClientId)
    requires IsAsk(a, 1) && IsAsk(b, 2) && a.qty + b.qty >= 5
    requires OnlyThree(stp, AskOffer(stp, a, client), AskOffer(stp, b, client))
    ensures FillsThree(stp, a, b, client)
  {
    hide FillsThree;
    TwoLeft(stp, AskOffer(stp, a, client), AskOffer(stp, b, client));
    FillsThreeIf(stp, a, b, client);
  }

  // ------------------------------------------------------ one maker, one fill

  lemma NoStops(r: Run)
    requires StateInv(r.s) && r.s.stops == map[]
    ensures Cascade(r) == r
  {
    hide StateInv;
    if r.s.c.last.Some? {
      var px := r.s.c.last.value;
      RoundInv(r, px);
      TrailInv(r.s, px);
      assert TrailAll(r.s.stops, px) == map[] && Firing(map[], px) == {};
      var s1 := r.s.(stops := TrailAll(r.s.stops, px));
      assert s1 == r.s;
      assert forall id :: id !in FireOrder(s1, px);
    }
  }

  /** The book holds one offer, at price 5, that the aggressor can act on. */
  ghost predicate LoneAsk(c: Core, o: Order, id: OrderId) {
    && c.orders.Keys == {id} && Fifo(c.q, Slot(Sell, 5)) == [id] && SlotOf(c.orders[id]) == Slot(Sell, 5)
    && c.pegged == {} && o.side == Buy && o.typ == Limit && o.price == 5 && !o.Has(Discretion)
    && !c.orders[id].o.Has(Aon)
  }

  lemma LoneStep(m: Match, id: OrderId)
    requires Inv(m.c) && !m.halted && m.o.leaves > 0 && LoneAsk(m.c, m.o, id)
    ensures Inv(Act(m, id).c) && MatchAll(m) == MatchAll(Act(m, id))
  {
    forall x | m.o.Accepts(x) && m.o.side.Opposite().Better(x, 5)
      ensures AllBlocked(m.c, m.o, Fifo(m.c.q, Contra(m.o, x)))
    {
      OnlySlot(m.c, id, Slot(Sell, x));
    }
    hide Inv, Act;
    MatchAllStep(m, 5, 0);
  }

  lemma OnlySlot(c: Core, id: OrderId, s: Slot)
    requires Inv(c) && c.orders.Keys == {id} && SlotOf(c.orders[id]) != s
    ensures Fifo(c.q, s) == []
  {
    if Fifo(c.q, s) != [] { SlotMember(c, s, 0); }
  }

  /** The aggressor takes all it wants from the lone offer in one fill. */
  lemma TakesFromLone(s: State, o0: Order)
    requires StateInv(s) && Admissible(s, o0) && s.stops == map[]
    requires var o := Stamp(o0, s.c.nextSeq);
      && o == o0.(displayQty := o.displayQty, seqNo := o.seqNo, rank := o.rank)
      && LoneAsk(s.c, o, 1) && o0 == Plain(2, 0, Buy, GTC, {}, o0.qty) && FillSize(o, s.c.orders[1]) == o.leaves > 0
    ensures Submit(s, o0).s == s.(c := Hit(StampCore(s.c, 2), Stamp(o0, s.c.nextSeq), 1, o0.leaves))
  {
    hide StateInv, SubmitTrade, Hit, Available, Crosses, Capacity, Order.IsOpening, Order.IsClosing;
    var o := Stamp(o0, s.c.nextSeq);
    StampInv(s, o0);
    PlainTrades(s.(c := StampCore(s.c, 2)), o);
    LoneTrade(s.(c := StampCore(s.c, 2)), o);
  }

  lemma PlainTrades(s: State, o: Order)
    requires StateInv(s) && Fresh(s, o) && o.trigger.None? && o.peg.None? && o.flags == {} && o.minQty <= 0
    ensures Routed(s, o) == SubmitTrade(s, o)
  {
    hide StateInv, Fresh, SubmitTrade, Available, Crosses;
  }

  lemma LoneTrade(s: State, o: Order)
    requires StateInv(s) && Fresh(s, o) && LoneAsk(s.c, o, 1) && s.stops == map[] && o.client == 0
    requires FillSize(o, s.c.orders[1]) == o.leaves
    ensures SubmitTrade(s, o).s == s.(c := Hit(s.c, o, 1, o.leaves))
  {
    var m := Match(s.c, o, [], false);
    LoneStep(m, 1);
    MatchAllDone(Act(m, 1));
    assert MatchAll(m) == Act(m, 1) && Act(m, 1).c == Hit(s.c, o, 1, o.leaves);
    TradeInv(s, o);
    var s1 := s.(c := Act(m, 1).c);
    assert s1.c.pegged == {};
    NoPegs(s1.c);
    hide StateInv, MatchAll, Hit;
    NoStops(Run(s1, MatchAll(m).trades));
  }

  /** One offer at price 5 rests in the empty book. */
  function OneAsk(stp: StpPolicy, a: Order): State {
    State(Rest(StampCore(EmptyCore("S", stp), 1), Stamp(a, 1)), map[], [], [])
  }

  /** An offer that is at most hidden or an iceberg, and not all-or-none. */
  predicate IsOffer(a: Order) {
    && a == Plain(1, a.client, Sell, GTC, a.flags, a.qty).(displayQty := a.displayQty)
    && a.flags <= {Hidden, Iceberg} && 0 <= a.displayQty && a.qty > 0
  }

  lemma OfferRests(stp: StpPolicy, a: Order)
    requires IsOffer(a)
    ensures StateInv(OneAsk(stp, a)) && OneAsk(stp, a) == Apply(EmptyState("S", stp), OpSubmit(a))
  {
    var s := EmptyState("S", stp);
    PassiveOrderRests(s, a);
    hide StateInv, Submit, Rest;
    ApplyInv(s, OpSubmit(a));
  }

  lemma OfferAlone(stp: StpPolicy, a: Order, o: Order)
    requires IsOffer(a) && o == Stamp(Plain(2, 0, Buy, GTC, {}, o.qty), 2)
    ensures var c := OneAsk(stp, a).c;
      && LoneAsk(c, o, 1) && c.nextSeq == 2 && c.orders[1] == Maker(Stamp(a, 1), Stamp(a, 1).FreshSlice())
  {
  }

  function Bid(qty: int): Order {
    Plain(2, 0, Buy, GTC, {}, qty)
  }

  /** An offer rests and a bid takes `qty` of it in one fill. */
  lemma OfferTaken(stp: StpPolicy, a: Order, qty: int)
    requires IsOffer(a) && qty > 0 && FillSize(Stamp(Bid(qty), 2), Maker(Stamp(a, 1), Stamp(a, 1).FreshSlice())) == qty
    ensures var ops := [OpSubmit(a), OpSubmit(Bid(qty))];
      && 1 in OneAsk(stp, a).c.orders && LegalRun(EmptyState("S", stp), ops)
      && RunOps(EmptyState("S", stp), ops)
         == OneAsk(stp, a).(c := Hit(StampCore(OneAsk(stp, a).c, 2), Stamp(Bid(qty), 2), 1, qty))
  {
    OfferAlone(stp, a, Stamp(Bid(qty), 2));
    BidLegal(stp, a, qty);
    hide StateInv, Submit, Rest, Hit, OneAsk, LoneAsk, IsOffer, Legal, Admissible;
    OfferRests(stp, a);
    TakesFromLone(OneAsk(stp, a), Bid(qty));
    RunTwo(EmptyState("S", stp), OpSubmit(a), OpSubmit(Bid(qty)), OneAsk(stp, a),
           OneAsk(stp, a).(c := Hit(StampCore(OneAsk(stp, a).c, 2), Stamp(Bid(qty), 2), 1, qty)));
  }

  lemma BidLegal(stp: StpPolicy, a: Order, qty: int)
    requires IsOffer(a) && qty > 0
    ensures Legal(EmptyState("S", stp), OpSubmit(a))
    ensures Legal(OneAsk(stp, a), OpSubmit(Bid(qty))) && Admissible(OneAsk(stp, a), Bid(qty))
    ensures OneAsk(stp, a).stops == map[] && 1 in OneAsk(stp, a).c.orders
  {
  }

  // ------------------------------------------------- a drifting counter

  /** A hidden iceberg of 4 that shows 2 at a time. */
  function HiddenIceberg(): Order {
    Plain(1, 0, Sell, GTC, {Hidden, Iceberg}, 4).(displayQty := 2)
  }

  /** Two units bought from a hidden iceberg leave its level's displayed counter at 2, although nothing
      at that level shows. */
  lemma HiddenIcebergCounterDrifts()
    ensures var ops := [OpSubmit(HiddenIceberg()), OpSubmit(Bid(2))];
      && LegalRun(EmptyState("S", StpNone), ops)
      && !LitExact(RunOps(EmptyState("S", StpNone), ops).c)
  {
    var a := HiddenIceberg();
    OfferTaken(StpNone, a, 2);
    OfferRests(StpNone, a);
    var c0 := StampCore(EmptyCore("S", StpNone), 1);
    assert LitExact(c0);
    JoinLit(c0, Stamp(a, 1));
    var c := StampCore(OneAsk(StpNone, a).c, 2);
    assert LitExact(c);
    BidInv(StpNone, a, 2);
    OfferAlone(StpNone, a, Stamp(Bid(2), 2));
    hide LitExact, Hit, Rest, StateInv, LegalRun, RunOps;
    FillLitExactIff(c, Stamp(Bid(2), 2), 1, 2);
  }

  lemma BidInv(stp: StpPolicy, a: Order, qty: int)
    requires IsOffer(a) && qty > 0
    ensures Inv(StampCore(OneAsk(stp, a).c, 2))
  {
    BidLegal(stp, a, qty);
    OfferRests(stp, a);
    hide Rest;
    StampInv(OneAsk(stp, a), Bid(qty));
  }

  // --------------------------------------------------------- a crossed book

  /** The account's own offer, and its buy stop at the same price. */
  function OwnOffer(): Order {
    Plain(3, 7, Sell, GTC, {}, 5)
  }

  function OwnStop(): Order {
    Plain(4, 7, Buy, GTC, {}, 3).(trigger := Some(Trigger(Stop, 5, 0, 0, false)))
  }

  /** An empty book that last traded at 5. */
  ghost predicate Traded(s: State) {
    && s.c.orders == map[] && s.c.pegged == {} && s.c.last == Some(5) && s.c.stp == CancelAggressor
    && s.stops == map[] && s.opening == [] && s.closing == []
  }

  function WithOffer(s: State): State {
    s.(c := Rest(StampCore(s.c, 3), Stamp(OwnOffer(), s.c.nextSeq)))
  }

  lemma OfferJoins(s: State)
    requires StateInv(s) && Traded(s)
    ensures Legal(s, OpSubmit(OwnOffer())) && WithOffer(s) == Apply(s, OpSubmit(OwnOffer())) && StateInv(WithOffer(s))
  {
    PassiveOrderRests(s, OwnOffer());
    hide StateInv, Submit, Rest;
    ApplyInv(s, OpSubmit(OwnOffer()));
  }

  lemma OfferIsAlone(s: State, o: Order)
    requires StateInv(s) && Traded(s) && o.side == Buy && o.typ == Limit && o.price == 5 && !o.Has(Discretion)
    ensures LoneAsk(StampCore(WithOffer(s).c, 4), o, 3)
    ensures StampCore(WithOffer(s).c, 4).orders[3].o == Stamp(OwnOffer(), s.c.nextSeq)
  {
    assert Fifo(s.c.q, Slot(Sell, 5)) == [] by {
      if Fifo(s.c.q, Slot(Sell, 5)) != [] { SlotMember(s.c, Slot(Sell, 5), 0); assert false; }
    }
  }

  /** The stop fires as it arrives, is halted by the account's own offer, and rests all the same. */
  lemma StopRests(c: Core, o: Order)
    requires Inv(c) && LoneAsk(c, o, 3) && c.stp == CancelAggressor && o.leaves > 0 && !o.Discards()
    requires o.client == 7 == c.orders[3].o.client
    ensures Inject(c, o, []).c == Rest(c, o)
  {
    var m := Match(c, o, [], false);
    LoneStep(m, 3);
    MatchAllDone(Act(m, 3));
    hide Inv, MatchAll, Rest;
  }

  /** What submit does with the stop. */
  lemma StopFires(s: State, o0: Order)
    requires StateInv(s) && Admissible(s, o0) && s.stops == map[] && s.c.last == Some(5) && o0 == OwnStop()
    requires 4 !in s.c.orders && LoneAsk(StampCore(s.c, 4), MarkTriggered(Stamp(o0, s.c.nextSeq)), 3)
    requires s.c.stp == CancelAggressor && s.c.orders[3].o.client == 7
    ensures Submit(s, o0).s.c == Rest(StampCore(s.c, 4), MarkTriggered(Stamp(o0, s.c.nextSeq)))
  {
    hide StateInv, LoneAsk, Cascade, Inject, Rest, Fresh;
    var o := Stamp(o0, s.c.nextSeq);
    var s1 := s.(c := StampCore(s.c, 4));
    StampInv(s, o0);
    InvOf(s1);
    FreshTriggered(s1, o);
    StopRests(s1.c, MarkTriggered(o));
    StopInv(s1, MarkTriggered(o));
    NoStops(Run(s1.(c := Inject(s1.c, MarkTriggered(o), []).c), Inject(s1.c, MarkTriggered(o), []).trades));
  }

  lemma FreshTriggered(s: State, o: Order)
    requires Fresh(s, o)
    ensures Fresh(s, MarkTriggered(o))
  {
  }

  lemma StopCrosses(s: State)
    requires StateInv(s) && Traded(s)
    ensures LegalRun(s, [OpSubmit(OwnOffer()), OpSubmit(OwnStop())])
    ensures !Uncrossed(RunOps(s, [OpSubmit(OwnOffer()), OpSubmit(OwnStop())]).c)
  {
    var s1 := WithOffer(s);
    OfferJoins(s);
    OfferIsAlone(s, MarkTriggered(Stamp(OwnStop(), s1.c.nextSeq)));
    assert Legal(s1, OpSubmit(OwnStop())) && 3 in s1.c.orders && 4 !in s1.c.orders;
    hide StateInv, Submit, LoneAsk, Legal;
    StopFires(s1, OwnStop());
    BothSides(StampCore(s1.c, 4), MarkTriggered(Stamp(OwnStop(), s1.c.nextSeq)));
    RunTwo(s, OpSubmit(OwnOffer()), OpSubmit(OwnStop()), s1, Submit(s1, OwnStop()).s);
  }

  lemma BothSides(c: Core, o: Order)
    requires 3 in c.orders && c.orders[3].o.side == Sell && c.orders[3].o.price == 5
    requires o.id == 4 && o.side == Buy && o.price == 5
    ensures !Uncrossed(Rest(c, o))
  {
    var c' := Rest(c, o);
    assert 3 in c'.orders && 4 in c'.orders && c'.orders[4].o == o && c'.orders[3] == c.orders[3];
  }

  lemma SoldOut(c: Core, o: Order)
    requires Inv(c) && c.orders.Keys == {1} && c.orders[1].o.leaves == 1 && c.orders[1].o.price == 5 && c.pegged == {}
    ensures var c' := Hit(c, o, 1, 1); c'.orders == map[] && c'.pegged == {} && c'.last == Some(5) && c'.stp == c.stp
  {
  }

  lemma TradedReached()
    ensures var ops := [OpSubmit(Plain(1, 0, Sell, GTC, {}, 1)), OpSubmit(Bid(1))];
      LegalRun(EmptyState("S", CancelAggressor), ops) && Traded(RunOps(EmptyState("S", CancelAggressor), ops))
  {
    hide StateInv, Submit, Hit, LegalRun, RunOps, Rest, StampCore, LoneAsk, Inv;
    var a := Plain(1, 0, Sell, GTC, {}, 1);
    OfferTaken(CancelAggressor, a, 1);
    LoneOffer(a);
    SoldOut(StampCore(OneAsk(CancelAggressor, a).c, 2), Stamp(Bid(1), 2));
  }

  lemma LoneOffer(a: Order)
    requires a == Plain(1, 0, Sell, GTC, {}, 1)
    ensures var c := StampCore(OneAsk(CancelAggressor, a).c, 2);
      && Inv(c) && c.orders.Keys == {1} && c.orders[1].o.leaves == 1 && c.orders[1].o.price == 5 && c.pegged == {}
      && c.stp == CancelAggressor
  {
    hide Inv, OneAsk, Rest;
    BidInv(CancelAggressor, a, 1);
    OfferAlone(CancelAggressor, a, Stamp(Bid(1), 2));
    OneAskPolicy(CancelAggressor, a);
  }

  lemma OneAskPolicy(stp: StpPolicy, a: Order)
    ensures OneAsk(stp, a).c.stp == stp
  {
  }

  /** Under cancel-aggressor an account's buy stop that is already triggered when it arrives is halted
      by the account's own offer and then rests at the same price: the book is crossed. */
  lemma FiredStopCrossesBook()
    ensures var ops := [OpSubmit(Plain(1, 0, Sell, GTC, {}, 1)), OpSubmit(Bid(1))]
                       + [OpSubmit(OwnOffer()), OpSubmit(OwnStop())];
      && LegalRun(EmptyState("S", CancelAggressor), ops)
      && !Uncrossed(RunOps(EmptyState("S", CancelAggressor), ops).c)
  {
    hide *;
    var p := [OpSubmit(Plain(1, 0, Sell, GTC, {}, 1)), OpSubmit(Bid(1))];
    TradedReached();
    StopCrosses(RunOps(EmptyState("S", CancelAggressor), p));
    RunAppend(EmptyState("S", CancelAggressor), p, [OpSubmit(OwnOffer()), OpSubmit(OwnStop())]);
  }

  // ------------------------------------------------------------ a stale peg

  /** A bid at 5, a bid pegged to it, and a buy stop with limit 6. */
  function RefBid(): Order {
    Plain(3, 0, Buy, GTC, {}, 1)
  }

  function PegBid(): Order {
    Plain(4, 0, Buy, GTC, {}, 1).(price := 0, peg := Some(Peg(Primary, 0, 0)))
  }

  function HighStop(): Order {
    Plain(5, 0, Buy, GTC, {}, 1).(price := 6, trigger := Some(Trigger(Stop, 5, 0, 0, false)))
  }

  /** Nothing rests or is parked; the queues hold nobody with these ids. */
  ghost predicate Blank(s: State) {
    && s.c.orders == map[] && s.c.pegged == {} && s.stops == map[]
    && forall o :: o in s.opening || o in s.closing ==> o.id > 4
  }

  function WithBid(s: State): State {
    s.(c := Rest(StampCore(s.c, 3), Stamp(RefBid(), s.c.nextSeq)))
  }

  function PeggedOrder(n: SeqNo): Order {
    Stamp(PegBid(), n).(price := 5)
  }

  function WithPeg(s: State): State {
    var c := Rest(StampCore(WithBid(s).c, 4), PeggedOrder(s.c.nextSeq + 1));
    s.(c := c.(pegged := c.pegged + {4}))
  }

  function FiredStop(n: SeqNo): Order {
    MarkTriggered(Stamp(HighStop(), n))
  }

  function WithFired(s: State): State {
    s.(c := Rest(StampCore(WithPeg(s).c, 5), FiredStop(s.c.nextSeq + 2)))
  }

  lemma EmptySlots(c: Core, s: Slot)
    requires Inv(c) && c.orders == map[]
    ensures Fifo(c.q, s) == []
  {
    if Fifo(c.q, s) != [] { SlotMember(c, s, 0); assert false; }
  }

  lemma BidJoins(s: State)
    requires StateInv(s) && Blank(s)
    ensures Legal(s, OpSubmit(RefBid())) && WithBid(s) == Apply(s, OpSubmit(RefBid())) && StateInv(WithBid(s))
  {
    PassiveOrderRests(s, RefBid());
    hide StateInv, Submit, Rest;
    ApplyInv(s, OpSubmit(RefBid()));
  }

  /** The only level with an order that is not pegged is the bid at 5. */
  lemma BidIsReference(s: State)
    requires StateInv(s) && Blank(s)
    ensures ReferenceBest(StampCore(WithBid(s).c, 4), Buy) == Some(5)
  {
    var c := StampCore(WithBid(s).c, 4);
    forall x ensures Fifo(s.c.q, x) == [] {
      EmptySlots(s.c, x);
    }
    assert Fifo(c.q, Slot(Buy, 5)) == [3];
    assert 3 in Fifo(c.q, Slot(Buy, 5)) && c.orders[3].o.peg.None?;
    assert forall p :: p != 5 ==> Fifo(c.q, Slot(Buy, p)) == [];
    assert IsReference(c, Buy, 5);
    ReferenceIs(c, Buy, Some(5));
  }

  lemma PegsOn(s: State)
    requires StateInv(s) && Blank(s)
    ensures StateInv(WithBid(s)) && Legal(WithBid(s), OpSubmit(PegBid()))
    ensures WithPeg(s) == Apply(WithBid(s), OpSubmit(PegBid())) && StateInv(WithPeg(s))
  {
    hide StateInv, Rest, ReferenceBest, Submit, StampCore;
    BidJoins(s);
    BidIsReference(s);
    RoomForPeg(s);
    PegRests(WithBid(s));
    ApplyInv(WithBid(s), OpSubmit(PegBid()));
  }

  lemma RoomForPeg(s: State)
    requires Blank(s)
    ensures var s1 := WithBid(s);
      && Admissible(s1, PegBid()) && 4 !in s1.c.orders && s1.stops == map[] && s1.c.nextSeq == s.c.nextSeq + 1
  {
  }

  lemma PegRests(s: State)
    requires StateInv(s) && Admissible(s, PegBid()) && 4 !in s.c.orders && 4 !in s.stops
    requires ReferenceBest(StampCore(s.c, 4), Buy) == Some(5)
    ensures var c := Rest(StampCore(s.c, 4), PeggedOrder(s.c.nextSeq));
      Submit(s, PegBid()).s == s.(c := c.(pegged := c.pegged + {4}))
  {
    hide StateInv, Rest, ReferenceBest, SubmitPlain, SubmitStop;
    StampInv(s, PegBid());
  }

  /** The stop meets nobody, fires and rests, and submit returns. */
  lemma HighStopRests(s: State)
    requires StateInv(s) && Admissible(s, HighStop()) && s.stops == map[] && s.c.last == Some(5) && 5 !in s.c.orders
    requires forall id :: id in s.c.orders ==> s.c.orders[id].o.side == Buy
    ensures Submit(s, HighStop()).s == s.(c := Rest(StampCore(s.c, 5), FiredStop(s.c.nextSeq)))
  {
    hide StateInv, Cascade, Rest, Fresh, MatchAll;
    var o := Stamp(HighStop(), s.c.nextSeq);
    var s1 := s.(c := StampCore(s.c, 5));
    StampInv(s, HighStop());
    InvOf(s1);
    FreshTriggered(s1, o);
    assert !Crosses(s1.c, MarkTriggered(o));
    NothingReached(s1.c, MarkTriggered(o));
    StopInv(s1, MarkTriggered(o));
    NoStops(Run(s1.(c := Inject(s1.c, MarkTriggered(o), []).c), []));
  }

  lemma RoomForStop(s: State)
    requires Traded(s)
    ensures var s2 := WithPeg(s);
      && Blank(s) && Admissible(s2, HighStop()) && 5 !in s2.c.orders && s2.stops == map[] && s2.c.last == Some(5)
      && s2.c.nextSeq == s.c.nextSeq + 2 && forall id :: id in s2.c.orders ==> s2.c.orders[id].o.side == Buy
  {
  }

  lemma StopFiresOn(s: State)
    requires StateInv(s) && Traded(s)
    ensures StateInv(WithPeg(s)) && Legal(WithPeg(s), OpSubmit(HighStop()))
    ensures WithFired(s) == Apply(WithPeg(s), OpSubmit(HighStop()))
  {
    hide StateInv, Submit, Rest, Traded, Blank, Admissible;
    RoomForStop(s);
    PegsOn(s);
    HighStopRests(WithPeg(s));
  }

  /** An order bids 6 in the book of `WithPeg`. */
  ghost predicate Outbids(s: State, c: Core, o: Order) {
    && c.orders == WithPeg(s).c.orders && c.q == WithPeg(s).c.q && c.pegged == WithPeg(s).c.pegged
    && o.id == 5 && o.side == Buy && o.price == 6 && o.peg.None?
  }

  lemma PegIsStale(s: State, c: Core, o: Order)
    requires StateInv(s) && Blank(s) && Outbids(s, c, o)
    ensures !PegsAt(Rest(c, o))
  {
    var c' := Rest(c, o);
    assert 4 in c'.pegged && 4 in c'.orders && c'.orders[4].o == PeggedOrder(s.c.nextSeq + 1);
    hide StateInv, PegWith, ReferenceBest, Rest;
    OutbidIsReference(s, c, o);
    PegFollows(c');
    assert !AtPeg(c', 4);
  }

  lemma OutbidIsReference(s: State, c: Core, o: Order)
    requires StateInv(s) && Blank(s) && Outbids(s, c, o)
    ensures ReferenceBest(Rest(c, o), Buy) == Some(6)
  {
    var c' := Rest(c, o);
    forall x ensures Fifo(s.c.q, x) == [] {
      EmptySlots(s.c, x);
    }
    hide StateInv;
    assert Fifo(c'.q, Slot(Buy, 6)) == [5];
    assert 5 in Fifo(c'.q, Slot(Buy, 6)) && c'.orders[5].o.peg.None?;
    assert forall p :: p > 6 ==> Fifo(c'.q, Slot(Buy, p)) == [];
    assert IsReference(c', Buy, 6);
    ReferenceIs(c', Buy, Some(6));
  }

  lemma PegFollows(c: Core)
    requires 4 in c.orders && c.orders[4].o.peg == Some(Peg(Primary, 0, 0)) && c.orders[4].o.side == Buy
    ensures PegWith(Some(6), ReferenceBest(c, Sell), c.orders[4].o) == Some(6)
  {
  }

  lemma StopOutbids(s: State)
    requires Traded(s)
    ensures Blank(s) && Outbids(s, StampCore(WithPeg(s).c, 5), FiredStop(s.c.nextSeq + 2))
    ensures WithFired(s).c == Rest(StampCore(WithPeg(s).c, 5), FiredStop(s.c.nextSeq + 2))
  {
    hide Rest;
  }

  /** A buy stop that fires on entry rests above the best bid; the order pegged to the best bid stays
      where it was. */
  lemma StalePegAfterStop()
    ensures var ops := [OpSubmit(Plain(1, 0, Sell, GTC, {}, 1)), OpSubmit(Bid(1))]
                       + ([OpSubmit(RefBid())] + [OpSubmit(PegBid()), OpSubmit(HighStop())]);
      && LegalRun(EmptyState("S", CancelAggressor), ops)
      && !PegsAt(RunOps(EmptyState("S", CancelAggressor), ops).c)
  {
    hide *;
    var p := [OpSubmit(Plain(1, 0, Sell, GTC, {}, 1)), OpSubmit(Bid(1))];
    TradedReached();
    var s := RunOps(EmptyState("S", CancelAggressor), p);
    StopOutbids(s);
    BidJoins(s);
    PegsOn(s);
    StopFiresOn(s);
    PegIsStale(s, StampCore(WithPeg(s).c, 5), FiredStop(s.c.nextSeq + 2));
    RunTwo(WithBid(s), OpSubmit(PegBid()), OpSubmit(HighStop()), WithPeg(s), WithFired(s));
    RunCons(s, OpSubmit(RefBid()), [OpSubmit(PegBid()), OpSubmit(HighStop())]);
    RunAppend(EmptyState("S", CancelAggressor), p, [OpSubmit(RefBid())] + [OpSubmit(PegBid()), OpSubmit(HighStop())]);
  }

  // ------------------------------------------- an auction of market orders

  /** A market-on-open order for 5. */
  function OnOpen(id: OrderId, side: Side): Order {
    Plain(id, 0, side, GTC, {Moo}, 5).(typ := Market, price := 0)
  }

  /** Both sides queued for the opening auction of a book that never traded. */
  function BothOnOpen(): State {
    var c := StampCore(StampCore(EmptyCore("S", StpNone), 1), 2);
    State(c, map[], [Stamp(OnOpen(1, Buy), 1), Stamp(OnOpen(2, Sell), 2)], [])
  }

  /** An order for the opening auction joins its queue, and that is all. */
  lemma OnOpenQueues(s: State, o0: Order)
    requires StateInv(s) && Admissible(s, o0)
    requires var o := Stamp(o0, s.c.nextSeq);
      && o.IsOpening() && (o.typ == Limit ==> o.price > 0) && o.qty > 0 && o.leaves > 0
      && o.id !in s.c.orders && o.id !in s.stops
    ensures Submit(s, o0).s ==
      s.(c := StampCore(s.c, o0.id), opening := s.opening + [Stamp(o0, s.c.nextSeq)])
  {
    hide StateInv, Normalize, SubmitStop, SubmitPeg, SubmitPlain;
    StampInv(s, o0);
  }

  lemma OnOpenReached()
    ensures var ops := [OpSubmit(OnOpen(1, Buy)), OpSubmit(OnOpen(2, Sell))];
      LegalRun(EmptyState("S", StpNone), ops) && RunOps(EmptyState("S", StpNone), ops) == BothOnOpen()
  {
    hide StateInv, Submit;
    var s := EmptyState("S", StpNone);
    var a, b := OnOpen(1, Buy), OnOpen(2, Sell);
    OnOpenQueues(s, a);
    var s1 := s.(c := StampCore(s.c, 1), opening := [Stamp(a, 1)]);
    assert s.opening + [Stamp(a, 1)] == s1.opening;
    ApplyInv(s, OpSubmit(a));
    OnOpenQueues(s1, b);
    assert s1.opening + [Stamp(b, 2)] == BothOnOpen().opening;
    RunTwo(s, OpSubmit(a), OpSubmit(b), s1, BothOnOpen());
  }

  lemma OnOpenPool()
    ensures var o1, o2 := Stamp(OnOpen(1, Buy), 1), Stamp(OnOpen(2, Sell), 2);
      PoolOf([o1, o2]) == map[1 := Maker(o1, 0), 2 := Maker(o2, 0)]
  {
    var o1, o2 := Stamp(OnOpen(1, Buy), 1), Stamp(OnOpen(2, Sell), 2);
    assert [o1, o2][..1] == [o1] && [o1][..0] == [];
    assert PoolOf([o1]) == map[1 := Maker(o1, 0)];
  }

  lemma OnOpenVolume(p: int)
    ensures var w := PoolOf(BothOnOpen().opening); PoolOk(w) && Volume(w, p) == 5
  {
    OnOpenPool();
    var o1, o2 := Stamp(OnOpen(1, Buy), 1), Stamp(OnOpen(2, Sell), 2);
    var w := PoolOf(BothOnOpen().opening);
    var w1: Pool := map[1 := Maker(o1, 0)];
    assert w1 == map[][1 := Maker(o1, 0)] && w == w1[2 := Maker(o2, 0)];
    SumAdd(map[], 1, Maker(o1, 0));
    SumAdd(w1, 2, Maker(o2, 0));
  }

  /** Orders that do not survive the auction leave no trade behind. */
  lemma {:induction false} NothingEnters(c: Core, queue: seq<Order>, w: Pool, trades: seq<Trade>)
    requires Inv(c) && RemaindersOk(c, queue, w)
    requires forall o :: o in queue ==> !w[o.id].o.Has(Loo) && !w[o.id].o.Has(Loc)
    ensures InjectRemainders(c, queue, w, trades) == Cross(c, w, trades)
    decreases |queue|
  {
    hide Inv;
    if queue != [] {
      assert queue[0] in queue && forall o :: o in queue[1..] ==> o in queue;
      RemaindersTail(c, queue, w);
      NothingEnters(c, queue[1..], w, trades);
    }
  }

  /** Two market-on-open orders could trade 5 at any price; in a book that never traded the auction
      finds no price, and drops them. */
  lemma MarketAuctionFindsNoPrice()
    ensures var ops := [OpSubmit(OnOpen(1, Buy)), OpSubmit(OnOpen(2, Sell))];
      && LegalRun(EmptyState("S", StpNone), ops)
      && var s := RunOps(EmptyState("S", StpNone), ops);
        && (forall p :: Volume(PoolOf(s.opening), p) == 5)
        && ClearingPrice(PoolOf(s.opening), s.c.last) == None
        && RunAuction(s, true).trades == [] && RunAuction(s, true).s.opening == []
  {
    hide StateInv, LegalRun, RunOps, Volume, PoolOf, ClearingPrice, RunAuction;
    OnOpenReached();
    var s := BothOnOpen();
    forall p ensures Volume(PoolOf(s.opening), p) == 5 {
      OnOpenVolume(p);
    }
    OnOpenNoPrice();
    OnOpenTradesNothing(s);
  }

  lemma OnOpenNoPrice()
    ensures ClearingPrice(PoolOf(BothOnOpen().opening), None) == None
  {
    hide Volume;
    OnOpenPool();
    assert Candidates(PoolOf(BothOnOpen().opening)) == {};
  }

  lemma OnOpenTradesNothing(s: State)
    requires StateInv(s) && s.opening != [] && ClearingPrice(PoolOf(s.opening), s.c.last).None?
    requires forall o :: o in s.opening ==> !o.Has(Loo) && !o.Has(Loc)
    ensures RunAuction(s, true).trades == [] && RunAuction(s, true).s.opening == []
  {
    CrossRemainders(s.c, s.opening, s.stops);
    var x := CrossPool(s.c, PoolOf(s.opening));
    forall o | o in s.opening ensures !x.w[o.id].o.Has(Loo) && !x.w[o.id].o.Has(Loc) {
      var i :| 0 <= i < |s.opening| && s.opening[i] == o;
      PoolAt(s.opening, i);
    }
    hide Inv, PoolOf, ClearingPrice;
    NothingEnters(x.c, s.opening, x.w, x.trades);
  }

  // --------------------------------------- a limit-on-open order without a match

  /** A limit-on-open bid. */
  function OpenBid(price: int): Order {
    Plain(5, 0, Buy, GTC, {Loo}, 1).(price := price)
  }

  /** The bid queued for the opening auction of a new book. */
  function Queued(price: int): State {
    var s := EmptyState("S", StpNone);
    s.(c := StampCore(s.c, 5), opening := [Stamp(OpenBid(price), 1)])
  }

  lemma QueuedParts(price: int)
    ensures var o := Stamp(OpenBid(price), 1);
      && Queued(price).opening == [o] && Queued(price).c.nextSeq == 2
      && o.Has(Loo) && o.side == Buy && o.leaves > 0 && !o.Discards()
      && var b := ClearFlags(o); b.id == 5 && b.side == Buy && b.price == price && b.rank == 1 && b.peg.None?
  {
  }

  lemma SameQueue(s: State)
    ensures WithBid(s).opening == s.opening && WithPeg(s).opening == s.opening
  {
    hide Rest;
  }

  lemma OpenBidQueues(price: int)
    requires price > 0
    ensures var s := EmptyState("S", StpNone);
      && Legal(s, OpSubmit(OpenBid(price))) && Queued(price) == Apply(s, OpSubmit(OpenBid(price)))
      && StateInv(Queued(price)) && Blank(Queued(price))
  {
    var s := EmptyState("S", StpNone);
    hide StateInv, Submit;
    OnOpenQueues(s, OpenBid(price));
    assert s.opening + [Stamp(OpenBid(price), 1)] == [Stamp(OpenBid(price), 1)];
    ApplyInv(s, OpSubmit(OpenBid(price)));
  }

  /** Alone in its queue it finds no price. */
  lemma LoneNoPrice(o: Order, last: Option<int>)
    requires o.side == Buy && o.leaves > 0
    ensures PoolOf([o]) == map[o.id := Maker(o, 0)] && ClearingPrice(PoolOf([o]), last).None?
  {
    var w := PoolOf([o]);
    assert [o][..|[o]| - 1] == [];
    assert PoolOf([]) == map[];
    assert w == map[][o.id := Maker(o, 0)];
    forall p ensures Volume(w, p) <= 0 {
      SumAdd(map[], o.id, Maker(o, 0));
    }
  }

  /** With only bids in the book it meets nobody. */
  lemma LoneMeetsNobody(c: Core, o: Order)
    requires Inv(c) && o.side == Buy && o.leaves > 0 && !o.Discards()
    requires forall id :: id in c.orders ==> c.orders[id].o.side == Buy
    ensures var b := ClearFlags(o);
      && Walk(c, b).qty == o.leaves && Inject(c, b, []).c == Rest(c, b) && Inject(c, b, []).trades == []
  {
    hide Inv, Rest, Walk, MatchAll;
    var b := ClearFlags(o);
    assert !Crosses(c, b);
    NothingReached(c, b);
    PassiveInject(c, b, []);
    InjectIdleIff(c, b, []);
  }

  lemma LoneRemainder(c: Core, o: Order, w: Pool)
    requires Inv(c) && RemaindersOk(c, [o], w) && Survives(o) && w[o.id].o == o
    requires Walk(c, ClearFlags(o)).qty == o.leaves
    ensures SurvivorsIdle(c, [o], w, [])
    ensures InjectRemainders(c, [o], w, []).c == Inject(c, ClearFlags(o), []).c
  {
    hide Inv, Walk, Inject;
    assert [o][1..] == [];
    RemainderStep(c, [o], w, []);
  }

  /** So it enters the book as it is. */
  lemma LoneEnters(s: State, o: Order)
    requires StateInv(s) && s.opening == [o] && o.Has(Loo) && o.side == Buy && o.leaves > 0 && !o.Discards()
    requires forall id :: id in s.c.orders ==> s.c.orders[id].o.side == Buy
    ensures RunAuction(s, true).s.c == Rest(s.c, ClearFlags(o))
  {
    QueueReady(s, true);
    hide StateInv, Inv, Rest, Walk, RunAuction, ClearingPrice, Inject, InjectRemainders, RemaindersOk, SurvivorsIdle;
    LoneNoPrice(o, s.c.last);
    LoneMeetsNobody(s.c, o);
    LoneRemainder(s.c, o, PoolOf([o]));
    TradelessAuction(s, true);
  }

  lemma PegBidOutbid(s: State, o: Order)
    requires o.id == 5 && o.side == Buy && o.price == 6 && o.peg.None?
    ensures Outbids(s, WithPeg(s).c, o)
  {
    hide WithPeg;
  }

  lemma OnlyBids(s: State)
    requires Blank(s)
    ensures forall id :: id in WithPeg(s).c.orders ==> WithPeg(s).c.orders[id].o.side == Buy
  {
  }

  /** A limit-on-open bid above the best bid executes nothing in the auction and rests; the order pegged
      to the best bid stays where it was. */
  lemma StalePegAfterAuction()
    ensures var ops := [OpSubmit(OpenBid(6)), OpSubmit(RefBid())] + [OpSubmit(PegBid()), OpAuction(true)];
      && LegalRun(EmptyState("S", StpNone), ops)
      && !PegsAt(RunOps(EmptyState("S", StpNone), ops).c)
  {
    hide *;
    var o := Stamp(OpenBid(6), 1);
    var s0, s := EmptyState("S", StpNone), Queued(6);
    QueuedParts(6);
    OpenBidQueues(6);
    SameQueue(s);
    BidJoins(s);
    PegsOn(s);
    OnlyBids(s);
    PegBidOutbid(s, ClearFlags(o));
    LoneEnters(WithPeg(s), o);
    PegIsStale(s, WithPeg(s).c, ClearFlags(o));
    AuctionLegal(WithPeg(s));
    RunTwo(WithBid(s), OpSubmit(PegBid()), OpAuction(true), WithPeg(s), Apply(WithPeg(s), OpAuction(true)));
    RunTwo(s0, OpSubmit(OpenBid(6)), OpSubmit(RefBid()), s, WithBid(s));
    RunAppend(s0, [OpSubmit(OpenBid(6)), OpSubmit(RefBid())], [OpSubmit(PegBid()), OpAuction(true)]);
  }

  lemma AuctionLegal(s: State)
    requires StateInv(s)
    ensures Legal(s, OpAuction(true)) && Apply(s, OpAuction(true)) == RunAuction(s, true).s
  {
  }

  /** The level at 5: the bid, and behind it the one that was accepted first. */
  ghost predicate EarlierBehind(c: Core) {
    && Fifo(c.q, Slot(Buy, 5)) == [3, 5] && c.orders.Keys == {3, 5}
    && c.orders[5].o.rank < c.orders[3].o.rank
  }

  lemma BehindUnranked(c: Core)
    requires EarlierBehind(c)
    ensures !RankedBook(c)
  {
    var f := Fifo(c.q, Slot(Buy, 5));
    assert f[0] == 3 && f[1] == 5;
    assert !RankedQueue(c, f);
  }

  lemma JoinsBehind(c: Core, o: Order)
    requires Fifo(c.q, Slot(Buy, 5)) == [3] && c.orders.Keys == {3} && o.rank < c.orders[3].o.rank
    requires o.id == 5 && o.side == Buy && o.price == 5
    ensures EarlierBehind(Rest(c, o))
  {
  }

  lemma BidAlone(s: State)
    requires StateInv(s) && Blank(s)
    ensures var c := WithBid(s).c;
      && Fifo(c.q, Slot(Buy, 5)) == [3] && c.orders.Keys == {3}
      && c.orders[3].o.side == Buy && c.orders[3].o.rank == s.c.nextSeq
  {
    EmptySlots(s.c, Slot(Buy, 5));
    hide StateInv;
  }

  lemma OpenBidBehind()
    requires StateInv(Queued(5)) && Blank(Queued(5))
    ensures var s, o := WithBid(Queued(5)), Stamp(OpenBid(5), 1);
      && s.opening == [o] && (forall id :: id in s.c.orders ==> s.c.orders[id].o.side == Buy)
      && EarlierBehind(Rest(s.c, ClearFlags(o)))
  {
    hide *;
    QueuedParts(5);
    BidAlone(Queued(5));
    SameQueue(Queued(5));
    JoinsBehind(WithBid(Queued(5)).c, ClearFlags(Stamp(OpenBid(5), 1)));
  }

  /** A limit-on-open bid accepted before another bid at its price joins the level behind it. */
  lemma UnrankedAfterAuction()
    ensures var ops := [OpSubmit(OpenBid(5))] + [OpSubmit(RefBid()), OpAuction(true)];
      && LegalRun(EmptyState("S", StpNone), ops)
      && var c := RunOps(EmptyState("S", StpNone), ops).c; EarlierBehind(c) && !RankedBook(c)
  {
    hide *;
    var o := Stamp(OpenBid(5), 1);
    var s0, s := EmptyState("S", StpNone), Queued(5);
    QueuedParts(5);
    OpenBidQueues(5);
    BidJoins(s);
    OpenBidBehind();
    LoneEnters(WithBid(s), o);
    AuctionLegal(WithBid(s));
    var s2 := Apply(WithBid(s), OpAuction(true));
    BehindUnranked(s2.c);
    RunTwo(s, OpSubmit(RefBid()), OpAuction(true), WithBid(s), s2);
    RunCons(s0, OpSubmit(OpenBid(5)), [OpSubmit(RefBid()), OpAuction(true)]);
  }

  // ------------------------------------------------ a negative display quantity

  /** `n` turns of the matching loop on maker `id`. */
  function Turns(m: Match, id: OrderId, n: nat): Match
    requires id in m.c.orders
    decreases n
  {
    if n == 0 then m
    else
      var m1 := Act(m, id);
      if id in m1.c.orders then Turns(m1, id, n - 1) else m1
  }

  /** The only maker is an iceberg whose display quantity is negative. */
  ghost predicate Growing(m: Match, id: OrderId) {
    && !m.halted && m.o.leaves > 0 && m.c.orders.Keys == {id}
    && var mk := m.c.orders[id];
      && mk.o.IsIceberg() && mk.slice == mk.o.displayQty < 0 < mk.o.leaves && !mk.o.Has(Aon)
      && !StpHit(m.c, m.o, mk) && m.o.Accepts(mk.o.price) && SlotOf(mk) == Contra(m.o, mk.o.price)
      && (forall s :: Fifo(m.c.q, s) == if s == SlotOf(mk) then [id] else [])
  }

  lemma GrowingTurn(m: Match, id: OrderId)
    requires Growing(m, id)
    ensures Next(m.c, m.o) == Some(id) && Growing(Act(m, id), id) && Act(m, id).o.leaves > m.o.leaves
  {
    var mk := m.c.orders[id];
    assert Fifo(m.c.q, SlotOf(mk))[0] == id;
    NextIs(m.c, m.o, mk.o.price, 0);
    assert Without([id], id) == [];
    assert [] + [id] == [id];
  }

  /** Against such an iceberg the loop never ends: every turn the aggressor has more left than before. */
  lemma {:induction false} GrowingForever(m: Match, id: OrderId, n: nat)
    requires Growing(m, id)
    ensures Growing(Turns(m, id, n), id) && !Done(Turns(m, id, n)) && Turns(m, id, n).o.leaves >= m.o.leaves + n
    decreases n
  {
    hide Act, Next, StpHit, Fifo, SlotOf, Contra;
    GrowingTurn(m, id);
    GrowingHere(m, id);
    if n > 0 {
      GrowingHere(Act(m, id), id);
      GrowingForever(Act(m, id), id, n - 1);
    }
  }

  lemma GrowingHere(m: Match, id: OrderId)
    requires Growing(m, id)
    ensures id in m.c.orders && !m.halted && m.o.leaves > 0
  {
  }

  /** An iceberg offer with a negative display quantity, numbered and rested in the empty book as a
      passive order is (Guarantees.PassiveOrderRests), and any bid that reaches it: however many turns
      the matching loop takes, it is not done, and the bid has grown.  This is why callers owe a display
      quantity that is not negative. */
  lemma NegativeDisplayNeverEnds(a: Order, o: Order, n: nat)
    requires a == Plain(1, 0, Sell, GTC, {Iceberg}, a.qty).(displayQty := a.displayQty) && a.displayQty < 0 < a.qty
    requires o.side == Buy && o.Accepts(5) && o.leaves > 0
    ensures var c := Rest(StampCore(EmptyState("S", StpNone).c, 1), Stamp(a, 1));
      var m := Turns(Match(c, o, [], false), 1, n);
      1 in c.orders && !Done(m) && m.o.leaves >= o.leaves + n
  {
    var c := Rest(StampCore(EmptyState("S", StpNone).c, 1), Stamp(a, 1));
    var m := Match(c, o, [], false);
    assert Growing(m, 1);
    hide Growing, Rest;
    GrowingForever(m, 1, n);
  }
}
