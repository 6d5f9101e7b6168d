/** Which operations leave every pegged order at its price (src/core/order_book.cc, the calls of
    reprice_pegs in submit, cancel and cross_auction). */
module PegRules {
  import opened OrderTypes
  import opened BookCore
  import opened Matching
  import opened Liquidity
  import opened Walks
  import opened Ordering
  import opened Pegs
  import opened Auctions
  import opened Crossing
  import opened Sessions
  import opened Injections
  import opened Runs
  import opened Guarantees

  /** Every pegged order whose price is computable rests at it. */
  ghost predicate PegsAt(c: Core) {
    forall id :: id in c.pegged ==> AtPeg(c, id)
  }

  /** Exactly then a repricing pass would change nothing. */
  lemma PegsAtIff(c: Core)
    requires Inv(c)
    ensures PegsAt(c) <==> RepriceAll(c) == c
  {
    PegsKeyed(c);
    if PegsAt(c) {
      RepriceNothing(c, Sorted(Arrival(c), c.pegged));
    }
    if RepriceAll(c) == c {
      forall id | id in c.pegged ensures AtPeg(c, id) {
        RepriceAllReachesPegs(c, id);
      }
    }
  }

  lemma RepricedPegs(c: Core)
    requires Inv(c)
    ensures Inv(RepriceAll(c)) && PegsAt(RepriceAll(c))
  {
    hide Inv;
    RepriceAllInv(c);
    RepriceAllIdempotent(c);
    PegsAtIff(RepriceAll(c));
  }

  // ------------------------------------------------------------ references

  lemma SameReference(c: Core, c': Core, side: Side)
    requires forall p :: NonPegAt(c', Slot(side, p)) <==> NonPegAt(c, Slot(side, p))
    ensures ReferenceBest(c', side) == ReferenceBest(c, side)
  {
    hide NonPegAt;
    ReferenceIs(c', side, ReferenceBest(c, side));
  }

  /** Unchanged references keep the pegs that are left where they belong. */
  lemma KeptPegs(c: Core, c': Core)
    requires PegsAt(c) && forall side :: ReferenceBest(c', side) == ReferenceBest(c, side)
    requires forall id :: id in c'.pegged ==>
      && id in c.pegged && id in c.orders && id in c'.orders && c'.orders[id].o.price == c.orders[id].o.price
      && c'.orders[id].o.peg == c.orders[id].o.peg && c'.orders[id].o.side == c.orders[id].o.side
    ensures PegsAt(c')
  {
    hide ReferenceBest, PegWith;
    forall id | id in c'.pegged ensures AtPeg(c', id) {
      assert AtPeg(c, id);
      PegTerms(ReferenceBest(c, Buy), ReferenceBest(c, Sell), c.orders[id].o, c'.orders[id].o);
    }
  }

  /** The pegs do not depend on counters, positions or events. */
  lemma SamePegs(c: Core, c': Core)
    requires Inv(c) && PegsAt(c) && c'.orders == c.orders && c'.q == c.q && c'.pegged == c.pegged
    ensures PegsAt(c')
  {
    forall side ensures ReferenceBest(c', side) == ReferenceBest(c, side) {
      SameReference(c, c', side);
    }
    forall id | id in c'.pegged ensures id in c.orders {
      PegMember(c, id);
    }
    hide Inv;
    KeptPegs(c, c');
  }

  /** A pegged order that joins the book is no reference. */
  lemma JoinNonPeg(c: Core, o: Order, s: Slot)
    requires Inv(c) && o.id !in c.orders && o.peg.Some?
    ensures NonPegAt(Rest(c, o), s) <==> NonPegAt(c, s)
  {
    var c' := Rest(c, o);
    if x :| x in Fifo(c.q, s) && x in c.orders && c.orders[x].o.peg.None? {
      assert x in Fifo(c'.q, s) && x in c'.orders && c'.orders[x].o.peg.None?;
    }
    if x :| x in Fifo(c'.q, s) && x in c'.orders && c'.orders[x].o.peg.None? {
      assert x != o.id;
      assert x in Fifo(c.q, s) && c.orders[x].o.peg.None?;
    }
  }

  /** A pegged order that leaves the book was no reference. */
  lemma LeaveNonPeg(c: Core, id: OrderId, s: Slot)
    requires Inv(c) && id in c.orders && c.orders[id].o.peg.Some?
    ensures NonPegAt(Withdraw(c, id), s) <==> NonPegAt(c, s)
  {
    var c' := Withdraw(c, id);
    assert NoDup(Fifo(c.q, SlotOf(c.orders[id])));
    WithoutMembers(Fifo(c.q, SlotOf(c.orders[id])), id);
    if x :| x in Fifo(c.q, s) && x in c.orders && c.orders[x].o.peg.None? {
      assert x in Fifo(c'.q, s) && x in c'.orders && c'.orders[x].o.peg.None?;
    }
    if x :| x in Fifo(c'.q, s) && x in c'.orders && c'.orders[x].o.peg.None? {
      assert x in Fifo(c.q, s) && c.orders[x].o.peg.None?;
    }
  }

  // ------------------------------------------------------------ operations

  lemma PegJoins(s: State, o: Order)
    requires StateInv(s) && Fresh(s, o) && o.peg.Some? && PegsAt(s.c)
    ensures PegsAt(SubmitPeg(s, o).s.c)
  {
    var price := PegPrice(s.c, o);
    if price.Some? {
      var o1 := o.(typ := Limit, price := price.value);
      assert Inv(s.c);
      hide Inv, StopsOk, QueueOk, ReferenceBest, PegWith, PegsAt, Rest;
      PegTerms(ReferenceBest(s.c, Buy), ReferenceBest(s.c, Sell), o, o1);
      JoinPegs(s.c, o1);
    }
  }

  /** A pegged order joins at its price. */
  lemma JoinPegs(c: Core, o: Order)
    requires Inv(c) && o.id !in c.orders && o.peg.Some? && PegsAt(c) && PegPrice(c, o) == Some(o.price)
    ensures PegsAt(Rest(c, o).(pegged := Rest(c, o).pegged + {o.id}))
  {
    hide Inv, ReferenceBest, PegWith;
    var c' := Rest(c, o).(pegged := Rest(c, o).pegged + {o.id});
    forall side ensures ReferenceBest(c', side) == ReferenceBest(c, side) {
      JoinReference(c, o, c', side);
    }
    forall id | id in c'.pegged ensures AtPeg(c', id) {
      if id != o.id {
        PegMember(c, id);
        assert AtPeg(c, id);
      }
    }
  }

  lemma JoinReference(c: Core, o: Order, c': Core, side: Side)
    requires Inv(c) && o.id !in c.orders && o.peg.Some?
    requires c'.orders == Rest(c, o).orders && c'.q == Rest(c, o).q
    ensures ReferenceBest(c', side) == ReferenceBest(c, side)
  {
    forall p ensures NonPegAt(c', Slot(side, p)) <==> NonPegAt(c, Slot(side, p)) {
      JoinNonPeg(c, o, Slot(side, p));
    }
    hide NonPegAt, Inv, Rest;
    SameReference(c, c', side);
  }

  lemma TakeDownPegs(c: Core, id: OrderId)
    requires Inv(c) && id in c.orders && PegsAt(c)
    ensures PegsAt(TakeDown(c, id))
  {
    WithdrawInv(c, id);
    if id in c.pegged {
      PegMember(c, id);
      var c' := Withdraw(c, id);
      forall side ensures ReferenceBest(c', side) == ReferenceBest(c, side) {
        forall p ensures NonPegAt(c', Slot(side, p)) <==> NonPegAt(c, Slot(side, p)) {
          LeaveNonPeg(c, id, Slot(side, p));
        }
        SameReference(c, c', side);
      }
      forall x | x in c'.pegged ensures x in c.orders {
        PegMember(c, x);
      }
      hide Inv, NonPegAt, ReferenceBest;
      KeptPegs(c, c');
    } else {
      hide Inv;
      RepricedPegs(Withdraw(c, id));
    }
  }

  lemma CancelPegs(s: State, id: OrderId)
    requires StateInv(s) && PegsAt(s.c)
    ensures PegsAt(Cancel(s, id).0.c)
  {
    assert Inv(s.c);
    hide StateInv, Inv, TakeDown;
    if id in s.c.orders { TakeDownPegs(s.c, id); }
  }

  lemma {:induction false} CancelAllPegs(s: State, ids: seq<OrderId>)
    requires StateInv(s) && PegsAt(s.c)
    ensures PegsAt(CancelAll(s, ids).c)
    decreases |ids|
  {
    hide StateInv, PegsAt, Cancel;
    if ids != [] {
      CancelInv(s, ids[0]);
      CancelPegs(s, ids[0]);
      CancelAllPegs(Cancel(s, ids[0]).0, ids[1..]);
    }
  }

  lemma TradePegs(s: State, o: Order)
    requires StateInv(s) && Fresh(s, o)
    ensures PegsAt(SubmitTrade(s, o).s.c)
  {
    hide PegsAt, MatchAll, Rest, RepriceAll, Inv, StopsOk, QueueOk;
    TradeInv(s, o);
    var m := MatchAll(Match(s.c, o, [], false));
    var rests := m.o.leaves > 0 && !m.halted && !m.o.Discards();
    var s1 := s.(c := if rests then Rest(m.c, m.o) else m.c);
    CascadeInv(Run(s1, m.trades));
    RepricedPegs(if m.trades != [] then Cascade(Run(s1, m.trades)).s.c else s1.c);
  }

  lemma SizedPegs(s: State, o: Order)
    requires StateInv(s) && Fresh(s, o) && PegsAt(s.c)
    ensures PegsAt(SubmitSized(s, o).s.c)
  {
    RestInv(s.c, o);
    TradePegs(s, o);
    hide PegsAt, Rest, RepriceAll, SubmitTrade, Available, Inv;
    if o.Has(Aon) && Available(s.c, o) < o.leaves && !o.Discards() { RepricedPegs(Rest(s.c, o)); }
  }

  lemma PlainPegs(s: State, o: Order)
    requires StateInv(s) && Fresh(s, o) && PegsAt(s.c)
    ensures PegsAt(SubmitPlain(s, o).s.c)
  {
    hide StateInv, PegsAt, SubmitSized, Crosses;
    if !(o.Has(ReduceOnly) && Capacity(s.c, o) <= 0) {
      SizedPegs(s, if o.Has(ReduceOnly) then Capped(o, Capacity(s.c, o)) else o);
    }
  }

  // ------------------------------------------------- references and pegs

  /** The reference prices of both sides. */
  datatype Refs = Refs(bid: Option<int>, ask: Option<int>)

  ghost function RefsOf(c: Core): Refs {
    Refs(ReferenceBest(c, Buy), ReferenceBest(c, Sell))
  }

  function Improved(r: Option<int>, side: Side, p: int): Option<int> {
    if r.Some? && !side.Better(p, r.value) then r else Some(p)
  }

  /** The references once `o` rests: the better of its price and its side's; a pegged order is none. */
  function Joined(r: Refs, o: Order): Refs {
    if o.peg.Some? then r
    else if o.side == Buy then r.(bid := Improved(r.bid, Buy, o.price))
    else r.(ask := Improved(r.ask, Sell, o.price))
  }

  /** Order `o` is at the price the references give it, if they give it one. */
  predicate PegUnder(r: Refs, o: Order) {
    PegWith(r.bid, r.ask, o).Some? ==> PegWith(r.bid, r.ask, o).value == o.price
  }

  /** So is every pegged order. */
  ghost predicate PegsUnder(c: Core, r: Refs) {
    forall id :: id in c.pegged ==> id in c.orders && PegUnder(r, c.orders[id].o)
  }

  lemma RestNonPeg(c: Core, o: Order, s: Slot)
    requires Inv(c) && o.id !in c.orders
    ensures NonPegAt(Rest(c, o), s) <==> NonPegAt(c, s) || (o.peg.None? && s == Slot(o.side, o.price))
  {
    var c' := Rest(c, o);
    if x :| x in Fifo(c.q, s) && x in c.orders && c.orders[x].o.peg.None? {
      assert x in Fifo(c'.q, s) && x in c'.orders && c'.orders[x].o.peg.None?;
    }
    if o.peg.None? && s == Slot(o.side, o.price) {
      assert o.id in Fifo(c'.q, s) && c'.orders[o.id].o == o;
    }
    if x :| x in Fifo(c'.q, s) && x in c'.orders && c'.orders[x].o.peg.None? {
      if x != o.id { assert x in Fifo(c.q, s) && c.orders[x].o.peg.None?; }
    }
  }

  /** What an order that joins the book does to the references. */
  lemma RestRefs(c: Core, o: Order)
    requires Inv(c) && o.id !in c.orders
    ensures RefsOf(Rest(c, o)) == Joined(RefsOf(c), o)
  {
    hide Inv, Rest, ReferenceBest;
    RestReference(c, o, Buy);
    RestReference(c, o, Sell);
  }

  lemma RestReference(c: Core, o: Order, side: Side)
    requires Inv(c) && o.id !in c.orders
    ensures var r := ReferenceBest(c, side);
      ReferenceBest(Rest(c, o), side) == if o.peg.Some? || o.side != side then r else Improved(r, side, o.price)
  {
    hide Inv, NonPegAt, Rest;
    forall p ensures NonPegAt(Rest(c, o), Slot(side, p)) <==>
      NonPegAt(c, Slot(side, p)) || (o.peg.None? && Slot(side, p) == Slot(o.side, o.price))
    {
      RestNonPeg(c, o, Slot(side, p));
    }
    var r := ReferenceBest(c, side);
    ReferenceIs(Rest(c, o), side, if o.peg.Some? || o.side != side then r else Improved(r, side, o.price));
  }

  lemma RestPegs(c: Core, o: Order, r: Refs)
    requires Inv(c) && o.id !in c.orders
    ensures PegsUnder(Rest(c, o), r) <==> PegsUnder(c, r)
  {
    forall id | id in c.pegged ensures id in c.orders {
      PegMember(c, id);
    }
    hide Inv, PegUnder;
  }

  /** Where the pegs must be depends on the resting orders only. */
  lemma SameUnder(c: Core, c': Core, r: Refs)
    requires c'.orders == c.orders && c'.q == c.q && c'.pegged == c.pegged
    ensures (PegsUnder(c', r) <==> PegsUnder(c, r)) && RefsOf(c') == RefsOf(c)
  {
    SameReference(c, c', Buy);
    SameReference(c, c', Sell);
    hide ReferenceBest, PegUnder;
  }

  // ------------------------------------------------- one order is injected

  /** An injected order leaves every peg at its price: on the book its match leaves, the pegs are where
      the references put them once its remainder, if any rests, has joined. */
  ghost predicate EntersInPlace(c: Core, o: Order)
    requires Inv(c) && o.leaves >= 0
  {
    var left := MatchAll(Match(c, o, [], false)).c;
    PegsUnder(left, if Walk(c, o).qty > 0 && !o.Discards() then Joined(RefsOf(left), o) else RefsOf(left))
  }

  lemma InjectPegsIff(c: Core, o: Order, trades: seq<Trade>)
    requires Inv(c) && o.id !in c.orders && Restable(o, c.nextSeq, c.born)
    ensures PegsAt(Inject(c, o, trades).c) <==> EntersInPlace(c, o)
  {
    hide Inv, MatchAll, Walk, Rest, PegUnder, ReferenceBest, PegWith;
    var m0 := Match(c, o, [], false);
    var m := MatchAll(m0);
    TradesAside(m0, trades);
    MatchLeaves(c, o);
    MatchAllInv(m0);
    MatchAllEvolves(m0);
    if m.o.leaves > 0 && !m.o.Discards() {
      RestRefs(m.c, m.o);
      RestPegs(m.c, m.o, Joined(RefsOf(m.c), m.o));
      PegsAreUnder(Rest(m.c, m.o));
    } else {
      PegsAreUnder(m.c);
    }
  }

  lemma PegsAreUnder(c: Core)
    ensures PegsAt(c) <==> PegsUnder(c, RefsOf(c))
  {
    hide ReferenceBest, PegWith;
  }

  /** For an order that meets nobody, on the book as it is. */
  lemma PassiveEntersIff(c: Core, o: Order)
    requires Inv(c) && !Crosses(c, o) && o.leaves > 0
    ensures EntersInPlace(c, o) <==> PegsUnder(c, if o.Discards() then RefsOf(c) else Joined(RefsOf(c), o))
  {
    hide Inv, MatchAll, Walk, Crosses, PegsUnder, RefsOf;
    NothingReached(c, o);
    MatchLeaves(c, o);
  }

  // ------------------------------------------------------- several, in turn

  lemma StateParts(s: State)
    requires StateInv(s)
    ensures Inv(s.c)
  {
  }

  /** An order about to be injected into a book. */
  datatype Entry = Entry(c: Core, o: Order)

  ghost predicate EntryOk(e: Entry) {
    Inv(e.c) && e.o.id !in e.c.orders && Restable(e.o, e.c.nextSeq, e.c.born)
  }

  ghost predicate SettlesInPlace(e: Entry)
    requires EntryOk(e)
  {
    EntersInPlace(e.c, e.o)
  }

  ghost function StopEntry(r: Run, id: OrderId): (e: Entry)
    requires StateInv(r.s) && id in r.s.stops
    ensures EntryOk(e)
  {
    var o := MarkTriggered(r.s.stops[id]);
    AnnounceInv(r.s.c, o);
    MarkRestable(r.s.stops[id], r.s.c.nextSeq, r.s.c.born);
    Entry(Announce(r.s.c, o), o)
  }

  /** The last of the stops to fire, and the book it fires into. */
  ghost function LastFired(r: Run, ids: seq<OrderId>): (e: Entry)
    requires StateInv(r.s) && ids != [] && NoDup(ids) && forall id :: id in ids ==> id in r.s.stops
    ensures EntryOk(e)
    decreases |ids|
  {
    assert ids[0] in ids;
    if |ids| == 1 then StopEntry(r, ids[0])
    else
      FireOneInv(r, ids[0]);
      HeadGone(ids);
      LastFired(FireOne(r, ids[0]), ids[1..])
  }

  lemma {:induction false} FiredPegsIff(r: Run, ids: seq<OrderId>)
    requires StateInv(r.s) && ids != [] && NoDup(ids) && forall id :: id in ids ==> id in r.s.stops
    ensures PegsAt(FireAll(r, ids).s.c) <==> SettlesInPlace(LastFired(r, ids))
    decreases |ids|
  {
    hide StateInv, PegsAt, EntersInPlace, EntryOk, StopEntry;
    assert ids[0] in ids;
    StateParts(r.s);
    FireOneInv(r, ids[0]);
    HeadGone(ids);
    if |ids| == 1 {
      FiredOnePegsIff(r, ids[0]);
      assert ids[1..] == [];
    } else {
      FiredPegsIff(FireOne(r, ids[0]), ids[1..]);
    }
  }

  lemma FiredOnePegsIff(r: Run, id: OrderId)
    requires StateInv(r.s) && id in r.s.stops
    ensures PegsAt(FireOne(r, id).s.c) <==> SettlesInPlace(StopEntry(r, id))
  {
    var e := StopEntry(r, id);
    hide StateInv, PegsAt, EntersInPlace, Inject;
    InjectPegsIff(e.c, e.o, r.trades);
  }

  /** The last order a cascade injects, if any stop fires. */
  ghost function LastOfCascade(r: Run): (e: Option<Entry>)
    requires StateInv(r.s)
    ensures e.Some? ==> EntryOk(e.value)
    decreases |r.s.stops|
  {
    if r.s.c.last.None? then None
    else
      var px := r.s.c.last.value;
      var s1 := r.s.(stops := TrailAll(r.s.stops, px));
      TrailInv(r.s, px);
      RoundInv(r, px);
      if Firing(s1.stops, px) == {} then None
      else
        var later := LastOfCascade(Round(r, px));
        if later.Some? then later
        else
          SomeFire(s1, px);
          Some(LastFired(r.(s := s1), FireOrder(s1, px)))
  }

  lemma SomeFire(s: State, px: int)
    requires StateInv(s) && Firing(s.stops, px) != {}
    ensures FireOrder(s, px) != []
  {
    hide StateInv;
    var id :| id in Firing(s.stops, px);
    assert id in FireOrder(s, px);
  }

  lemma {:induction false} CascadePegsIff(r: Run)
    requires StateInv(r.s)
    ensures PegsAt(Cascade(r).s.c) <==>
      match LastOfCascade(r)
      case None => PegsAt(r.s.c)
      case Some(e) => SettlesInPlace(e)
    decreases |r.s.stops|
  {
    hide StateInv, PegsAt, SettlesInPlace, EntryOk, LastFired, FireAll;
    if r.s.c.last.Some? {
      var px := r.s.c.last.value;
      var s1 := r.s.(stops := TrailAll(r.s.stops, px));
      TrailInv(r.s, px);
      RoundInv(r, px);
      if Firing(s1.stops, px) != {} {
        SomeFire(s1, px);
        FiredPegsIff(r.(s := s1), FireOrder(s1, px));
        CascadePegsIff(Round(r, px));
      }
    }
  }

  // ------------------------------------------------- a stop fired on entry

  /** The order passes submit's checks, and is a stop that the last price has already passed. */
  ghost predicate FiresOnEntry(s: State, o0: Order)
    requires StateInv(s) && Admissible(s, o0)
  {
    var o := Stamp(o0, s.c.nextSeq);
    && o.qty > 0 && o.leaves > 0 && (o.typ == Limit && o.peg.None? ==> o.price > 0)
    && o.id !in s.c.orders && o.id !in s.stops && !o.IsOpening() && !o.IsClosing()
    && o.trigger.Some? && !o.trigger.value.triggered
    && s.c.last.Some? && StopTriggered(Armed(o, s.c.last), s.c.last.value)
  }

  /** The stop as it is injected. */
  ghost function Fired(s: State, o0: Order): Order {
    MarkTriggered(Armed(Stamp(o0, s.c.nextSeq), s.c.last))
  }

  lemma FiredFresh(s: State, o0: Order)
    requires StateInv(s) && Admissible(s, o0) && FiresOnEntry(s, o0)
    ensures var s1 := s.(c := StampCore(s.c, o0.id)); StateInv(s1) && Fresh(s1, Fired(s, o0)) && Inv(s1.c)
  {
    StampInv(s, o0);
  }

  /** The last order injected on account of a stop fired on entry: itself, or a parked stop it set off. */
  ghost function LastOnEntry(s: State, o0: Order): (e: Entry)
    requires StateInv(s) && Admissible(s, o0) && FiresOnEntry(s, o0)
    ensures EntryOk(e)
  {
    var s1 := s.(c := StampCore(s.c, o0.id));
    var b := Fired(s, o0);
    FiredFresh(s, o0);
    StopInv(s1, b);
    var m := Inject(s1.c, b, []);
    match LastOfCascade(Run(s1.(c := m.c), m.trades))
    case Some(e) => e
    case None => Entry(s1.c, b)
  }

  lemma EntryIsInjected(s: State, o0: Order)
    requires StateInv(s) && Admissible(s, o0) && FiresOnEntry(s, o0)
    ensures var s1 := s.(c := StampCore(s.c, o0.id));
      && StateInv(s1) && Fresh(s1, Fired(s, o0)) && Inv(s1.c)
      && var m := Inject(s1.c, Fired(s, o0), []);
        StateInv(s1.(c := m.c)) && Submit(s, o0).s == Cascade(Run(s1.(c := m.c), m.trades)).s
  {
    FiredFresh(s, o0);
    StampInv(s, o0);
    hide StateInv, Fresh, Inject, Cascade, SubmitPlain, SubmitPeg, Inv, Normalize;
    StopInv(s.(c := StampCore(s.c, o0.id)), Fired(s, o0));
  }

  /** A stop fired on entry reports as executed exactly what the walk over the book before the call takes
      from it, and rests what is left unless it discards that. */
  lemma EntryStopExecutes(s: State, o0: Order)
    requires StateInv(s) && Admissible(s, o0) && FiresOnEntry(s, o0)
    ensures var b, out := Fired(s, o0), Submit(s, o0).out;
      && Inv(s.c) && b.leaves > 0 && out.reason == Accepted
      && out.filled == b.filled + b.leaves - Walk(s.c, b).qty
      && (out.rested <==> Walk(s.c, b).qty > 0 && !b.Discards())
  {
    var s1 := s.(c := StampCore(s.c, o0.id));
    var b := Fired(s, o0);
    StateParts(s);
    FiredFresh(s, o0);
    StampInv(s, o0);
    StateParts(s1);
    StopInv(s1, b);
    hide StateInv, Inv, Fresh, MatchAll, Cascade, SubmitPlain, SubmitPeg, Normalize, Walk, Rest;
    FiredLives(s1, b);
    StampedWalk(s.c, o0.id, b);
    MatchLeaves(s1.c, b);
    MatchConserves(Match(s1.c, b, [], false));
    MatchAllEvolves(Match(s1.c, b, [], false));
  }

  lemma FiredLives(s: State, o: Order)
    requires Fresh(s, o)
    ensures o.leaves > 0
  {
  }

  /** A stop fired on entry leaves every peg at its price if and only if the last order injected on its
      account does. */
  lemma EntryStopPegsIff(s: State, o0: Order)
    requires StateInv(s) && Admissible(s, o0) && FiresOnEntry(s, o0)
    ensures PegsAt(Submit(s, o0).s.c) <==> SettlesInPlace(LastOnEntry(s, o0))
  {
    hide StateInv, PegsAt, EntersInPlace, Inject, Cascade, Submit, FiresOnEntry, LastOfCascade, Admissible;
    var s1 := s.(c := StampCore(s.c, o0.id));
    var b := Fired(s, o0);
    EntryIsInjected(s, o0);
    var m := Inject(s1.c, b, []);
    InjectPegsIff(s1.c, b, []);
    CascadePegsIff(Run(s1.(c := m.c), m.trades));
  }

  /** One that meets nobody and sets off no parked stop: if and only if, on the book before the call, the
      pegs are where the references put them once the stop has joined. */
  lemma QuietEntryPegsIff(s: State, o0: Order)
    requires StateInv(s) && Admissible(s, o0) && FiresOnEntry(s, o0) && !Crosses(s.c, Fired(s, o0))
    requires var px := s.c.last.value; Firing(TrailAll(s.stops, px), px) == {}
    ensures var b := Fired(s, o0);
      PegsAt(Submit(s, o0).s.c) <==> PegsUnder(s.c, if b.Discards() then RefsOf(s.c) else Joined(RefsOf(s.c), b))
  {
    var b := Fired(s, o0);
    var s1 := s.(c := StampCore(s.c, o0.id));
    FiredFresh(s, o0);
    StopInv(s1, b);
    SameCrossing(s.c, o0.id, b);
    PassiveKeepsLast(s1.c, b);
    SameUnder(s.c, s1.c, if b.Discards() then RefsOf(s.c) else Joined(RefsOf(s.c), b));
    hide StateInv, PegsAt, Inject, Submit, FiresOnEntry, Crosses, PegsUnder, RefsOf, Inv;
    EntryStopPegsIff(s, o0);
    PassiveEntersIff(s1.c, b);
  }

  lemma PassiveKeepsLast(c: Core, o: Order)
    requires Inv(c) && !Crosses(c, o)
    ensures Inject(c, o, []).c.last == c.last && Inject(c, o, []).trades == []
  {
    NothingReached(c, o);
  }

  lemma SubmitPegs(s: State, o0: Order)
    requires StateInv(s) && Admissible(s, o0) && PegsAt(s.c) && !FiresOnEntry(s, o0)
    ensures PegsAt(Submit(s, o0).s.c)
  {
    var o := Stamp(o0, s.c.nextSeq);
    var s1 := s.(c := StampCore(s.c, o.id));
    StampInv(s, o0);
    SamePegs(s.c, s1.c);
    hide StateInv, PegsAt, SubmitPlain, SubmitPeg, Fresh, Normalize, Inject;
    if Fresh(s1, o) {
      PlainPegs(s1, o);
      if o.peg.Some? { PegJoins(s1, o); }
    }
  }

  // ------------------------------------------- an auction without executions

  /** The order survives the auction and enters continuous trading. */
  predicate Survives(o: Order) {
    o.leaves > 0 && (o.Has(Loo) || o.Has(Loc))
  }

  /** None of the surviving orders executes anything as it enters. */
  ghost predicate SurvivorsIdle(c: Core, queue: seq<Order>, w: Pool, trades: seq<Trade>)
    requires Inv(c) && RemaindersOk(c, queue, w)
    decreases |queue|
  {
    if queue == [] then true
    else
      var o := w[queue[0].id].o;
      if Survives(o) then
        RemainderStep(c, queue, w, trades);
        var m := Inject(c, ClearFlags(o), trades);
        Walk(c, ClearFlags(o)).qty == o.leaves && SurvivorsIdle(m.c, queue[1..], w, m.trades)
      else
        RemaindersTail(c, queue, w);
        SurvivorsIdle(c, queue[1..], w, trades)
  }

  /** One step of the match executes something exactly when it takes something off the aggressor. */
  lemma ActTradesIff(m: Match, id: OrderId)
    requires Inv(m.c) && m.o.leaves >= 0 && !Done(m) && id == Next(m.c, m.o).value && id in m.c.orders
    ensures var m' := Act(m, id);
      && m.trades <= m'.trades && 0 <= m'.o.leaves <= m.o.leaves
      && (m'.trades == m.trades <==> m'.o.leaves == m.o.leaves)
  {
    MakerSound(m.c, id);
    hide Inv, Next, Hit, Detach, ApplyFill;
  }

  /** Matching executes something exactly when it takes something off the aggressor. */
  lemma {:induction false} TradesIffTaken(m: Match)
    requires Inv(m.c) && m.o.leaves >= 0
    ensures m.trades <= MatchAll(m).trades
    ensures MatchAll(m).trades == m.trades <==> MatchAll(m).o.leaves == m.o.leaves
    ensures MatchAll(m).o.leaves <= m.o.leaves
    decreases Work(m)
  {
    hide Inv, Act;
    if !Done(m) {
      NextSound(m.c, m.o);
      var id := Next(m.c, m.o).value;
      ActInv(m, id);
      ActTradesIff(m, id);
      TradesIffTaken(Act(m, id));
    }
  }

  lemma InjectIdleIff(c: Core, o: Order, trades: seq<Trade>)
    requires Inv(c) && o.leaves >= 0
    ensures trades <= Inject(c, o, trades).trades
    ensures Inject(c, o, trades).trades == trades <==> Walk(c, o).qty == o.leaves
  {
    hide Inv, MatchAll, Walk, Rest;
    TradesAside(Match(c, o, [], false), trades);
    MatchLeaves(c, o);
    TradesIffTaken(Match(c, o, trades, false));
  }

  lemma {:induction false} RemaindersIdleIff(c: Core, queue: seq<Order>, w: Pool, trades: seq<Trade>)
    requires Inv(c) && RemaindersOk(c, queue, w)
    ensures var y := InjectRemainders(c, queue, w, trades);
      trades <= y.trades && (y.trades == trades <==> SurvivorsIdle(c, queue, w, trades))
    decreases |queue|
  {
    hide Inv, Inject, Walk;
    if queue != [] {
      assert queue[0] in queue;
      var o := w[queue[0].id].o;
      if Survives(o) {
        RemainderStep(c, queue, w, trades);
        var m := Inject(c, ClearFlags(o), trades);
        InjectIdleIff(c, ClearFlags(o), trades);
        RemaindersIdleIff(m.c, queue[1..], w, m.trades);
      } else {
        RemaindersTail(c, queue, w);
        RemaindersIdleIff(c, queue[1..], w, trades);
      }
    }
  }

  function QueueOf(s: State, open: bool): seq<Order> {
    if open then s.opening else s.closing
  }

  lemma QueueReady(s: State, open: bool)
    requires StateInv(s)
    ensures var queue := QueueOf(s, open);
      QueuePool(PoolOf(queue)) && Inv(s.c) && RemaindersOk(s.c, queue, PoolOf(queue))
  {
    var queue := QueueOf(s, open);
    QueuePoolOk(queue, s.c, s.stops);
  }

  /** The auction has orders, finds no price for them, and none that survives it executes anything. */
  ghost predicate CrossesNothing(s: State, open: bool)
    requires StateInv(s)
  {
    var queue := QueueOf(s, open);
    QueueReady(s, open);
    && queue != [] && ClearingPrice(PoolOf(queue), s.c.last).None?
    && SurvivorsIdle(s.c, queue, PoolOf(queue), [])
  }

  /** That is exactly when it has orders and returns no execution. */
  lemma CrossesNothingIff(s: State, open: bool)
    requires StateInv(s)
    ensures CrossesNothing(s, open) <==> QueueOf(s, open) != [] && RunAuction(s, open).trades == []
  {
    hide Inv, StopsOk, QueueOk, InjectRemainders, CrossLoop, QueuePool, PoolOf, SurvivorsIdle, RemaindersOk, Volume;
    hide ClearingPrice;
    var queue := QueueOf(s, open);
    if queue != [] {
      QueueReady(s, open);
      AuctionStateInv(s, open);
      AuctionExecutesVolume(s.c, PoolOf(queue));
      var x := CrossPool(s.c, PoolOf(queue));
      RemaindersIdleIff(x.c, queue, x.w, x.trades);
      var y := Crossed(s, open);
      CascadeInv(y);
    }
  }

  /** The last surviving order to enter, and the book it enters. */
  ghost function LastSurvivor(c: Core, queue: seq<Order>, w: Pool, trades: seq<Trade>): (e: Option<Entry>)
    requires Inv(c) && RemaindersOk(c, queue, w)
    ensures e.Some? ==> EntryOk(e.value)
    decreases |queue|
  {
    if queue == [] then None
    else
      assert queue[0] in queue;
      var o := w[queue[0].id].o;
      if Survives(o) then
        RemainderStep(c, queue, w, trades);
        var m := Inject(c, ClearFlags(o), trades);
        var later := LastSurvivor(m.c, queue[1..], w, m.trades);
        if later.Some? then later else Some(Entry(c, ClearFlags(o)))
      else
        RemaindersTail(c, queue, w);
        LastSurvivor(c, queue[1..], w, trades)
  }

  lemma {:induction false} RemaindersPegsIff(c: Core, queue: seq<Order>, w: Pool, trades: seq<Trade>)
    requires Inv(c) && RemaindersOk(c, queue, w)
    ensures PegsAt(InjectRemainders(c, queue, w, trades).c) <==>
      match LastSurvivor(c, queue, w, trades)
      case None => PegsAt(c)
      case Some(e) => SettlesInPlace(e)
    decreases |queue|
  {
    hide Inv, Inject, PegsAt, EntersInPlace;
    if queue != [] {
      assert queue[0] in queue;
      var o := w[queue[0].id].o;
      if Survives(o) {
        RemainderStep(c, queue, w, trades);
        var m := Inject(c, ClearFlags(o), trades);
        InjectPegsIff(c, ClearFlags(o), trades);
        RemaindersPegsIff(m.c, queue[1..], w, m.trades);
      } else {
        RemaindersTail(c, queue, w);
        RemaindersPegsIff(c, queue[1..], w, trades);
      }
    }
  }

  ghost function LastToEnter(s: State, open: bool): (e: Option<Entry>)
    requires StateInv(s)
    ensures e.Some? ==> EntryOk(e.value)
  {
    QueueReady(s, open);
    LastSurvivor(s.c, QueueOf(s, open), PoolOf(QueueOf(s, open)), [])
  }

  /** An auction without executions only lets its survivors in. */
  lemma TradelessAuction(s: State, open: bool)
    requires StateInv(s) && CrossesNothing(s, open)
    ensures var queue := QueueOf(s, open);
      && Inv(s.c) && RemaindersOk(s.c, queue, PoolOf(queue))
      && RunAuction(s, open).s.c == InjectRemainders(s.c, queue, PoolOf(queue), []).c
  {
    hide Inv, StopsOk, QueueOk, InjectRemainders, CrossLoop, QueuePool, PoolOf, SurvivorsIdle, RemaindersOk, Volume;
    hide ClearingPrice;
    QueueReady(s, open);
    AuctionStateInv(s, open);
    AuctionExecutesVolume(s.c, PoolOf(QueueOf(s, open)));
    RemaindersIdleIff(s.c, QueueOf(s, open), PoolOf(QueueOf(s, open)), []);
  }

  /** An auction without executions leaves every peg at its price if and only if the last order that
      enters does; if none enters, as it was before. */
  lemma TradelessAuctionPegsIff(s: State, open: bool)
    requires StateInv(s) && CrossesNothing(s, open)
    ensures PegsAt(RunAuction(s, open).s.c) <==>
      match LastToEnter(s, open)
      case None => PegsAt(s.c)
      case Some(e) => SettlesInPlace(e)
  {
    hide StateInv, Inv, PegsAt, SettlesInPlace, RunAuction, InjectRemainders, PoolOf, CrossesNothing, RemaindersOk;
    TradelessAuction(s, open);
    RemaindersPegsIff(s.c, QueueOf(s, open), PoolOf(QueueOf(s, open)), []);
  }

  /** Each surviving order meets nobody, in the book or among the survivors before it. */
  ghost predicate SurvivorsPassive(c: Core, queue: seq<Order>, w: Pool)
    requires forall o :: o in queue ==> o.id in w
    decreases |queue|
  {
    if queue == [] then true
    else
      assert queue[0] in queue && forall o :: o in queue[1..] ==> o in queue;
      var o := ClearFlags(w[queue[0].id].o);
      if !Survives(w[queue[0].id].o) then SurvivorsPassive(c, queue[1..], w)
      else !Crosses(c, o) && SurvivorsPassive(if o.Discards() then c else Rest(c, o), queue[1..], w)
  }

  /** The references once all of them have joined. */
  ghost function AllJoined(r: Refs, queue: seq<Order>, w: Pool): Refs
    requires forall o :: o in queue ==> o.id in w
    decreases |queue|
  {
    if queue == [] then r
    else
      assert queue[0] in queue && forall o :: o in queue[1..] ==> o in queue;
      var o := w[queue[0].id].o;
      AllJoined(if Survives(o) && !o.Discards() then Joined(r, o) else r, queue[1..], w)
  }

  lemma PassiveInject(c: Core, o: Order, trades: seq<Trade>)
    requires Inv(c) && !Crosses(c, o) && o.leaves > 0
    ensures Inject(c, o, trades).c == (if o.Discards() then c else Rest(c, o))
  {
    NothingReached(c, o);
    TradesAside(Match(c, o, [], false), trades);
    hide Inv;
  }

  lemma {:induction false} PassiveRemaindersIff(c: Core, queue: seq<Order>, w: Pool, trades: seq<Trade>)
    requires Inv(c) && RemaindersOk(c, queue, w) && SurvivorsPassive(c, queue, w)
    ensures PegsAt(InjectRemainders(c, queue, w, trades).c) <==> PegsUnder(c, AllJoined(RefsOf(c), queue, w))
    decreases |queue|
  {
    hide Inv, Inject, PegsAt, PegsUnder, RefsOf, Crosses, Rest;
    if queue == [] {
      PegsAreUnder(c);
    } else {
      assert queue[0] in queue && forall o :: o in queue[1..] ==> o in queue;
      var o := w[queue[0].id].o;
      if Survives(o) {
        RemainderStep(c, queue, w, trades);
        var m := Inject(c, ClearFlags(o), trades);
        PassiveInject(c, ClearFlags(o), trades);
        PassiveRemaindersIff(m.c, queue[1..], w, m.trades);
        if !o.Discards() {
          RestRefs(c, ClearFlags(o));
          RestPegs(c, ClearFlags(o), AllJoined(RefsOf(m.c), queue[1..], w));
        }
      } else {
        RemaindersTail(c, queue, w);
        PassiveRemaindersIff(c, queue[1..], w, trades);
      }
    }
  }

  /** One whose survivors meet nobody: if and only if, on the book before the call, the pegs are where
      the references put them once all survivors have joined. */
  lemma QuietAuctionPegsIff(s: State, open: bool)
    requires StateInv(s) && CrossesNothing(s, open)
    requires var w := PoolOf(QueueOf(s, open));
      (forall o :: o in QueueOf(s, open) ==> o.id in w) && SurvivorsPassive(s.c, QueueOf(s, open), w)
    ensures PegsAt(RunAuction(s, open).s.c) <==>
      PegsUnder(s.c, AllJoined(RefsOf(s.c), QueueOf(s, open), PoolOf(QueueOf(s, open))))
  {
    hide StateInv, Inv, PegsAt, PegsUnder, RefsOf, RunAuction, InjectRemainders, PoolOf, CrossesNothing;
    hide SurvivorsPassive;
    TradelessAuction(s, open);
    PassiveRemaindersIff(s.c, QueueOf(s, open), PoolOf(QueueOf(s, open)), []);
  }

  lemma AuctionPegs(s: State, open: bool)
    requires StateInv(s) && PegsAt(s.c) && !CrossesNothing(s, open)
    ensures PegsAt(RunAuction(s, open).s.c)
  {
    CrossesNothingIff(s, open);
    if QueueOf(s, open) != [] {
      AuctionStateInv(s, open);
      hide StateInv, PegsAt, RepriceAll, CrossAndEnter, CrossesNothing;
      var y := Crossed(s, open);
      CascadeInv(y);
      assert Inv(Cascade(y).s.c) by { StateParts(Cascade(y).s); }
      RepricedPegs(Cascade(y).s.c);
    }
  }

  // ------------------------------------------------------- every operation

  /** The operation repriced the pegs, or did not have to: for the two that return without repricing, the
      last order they inject settles in place. */
  ghost predicate LeavesPegs(s: State, op: Op)
    requires StateInv(s) && Legal(s, op)
  {
    match op
    case OpSubmit(o) => FiresOnEntry(s, o) ==> SettlesInPlace(LastOnEntry(s, o))
    case OpAuction(open) =>
      CrossesNothing(s, open) && LastToEnter(s, open).Some? ==> SettlesInPlace(LastToEnter(s, open).value)
    case _ => true
  }

  /** From pegs at their prices, every operation but a stop fired on entry and an auction without
      executions leads to pegs at their prices; those two, exactly when their last injection does. */
  lemma ApplyPegsIff(s: State, op: Op)
    requires StateInv(s) && Legal(s, op) && PegsAt(s.c)
    ensures PegsAt(Apply(s, op).c) <==> LeavesPegs(s, op)
  {
    hide StateInv, Inv, PegsAt, Submit, Cancel, CancelAll, RunAuction, Admissible, SettlesInPlace, LastOnEntry;
    hide FiresOnEntry, CrossesNothing, LastToEnter;
    StateParts(s);
    match op
    case OpSubmit(o) => if FiresOnEntry(s, o) { EntryStopPegsIff(s, o); } else { SubmitPegs(s, o); }
    case OpCancel(id) => CancelPegs(s, id);
    case OpExpire(now) =>
      ByIdTotal(Expired(s.c, now));
      CancelAllPegs(s, Sorted(ById(Expired(s.c, now)), Expired(s.c, now)));
    case OpAuction(open) =>
      if CrossesNothing(s, open) { TradelessAuctionPegsIff(s, open); } else { AuctionPegs(s, open); }
    case _ => SamePegs(s.c, Apply(s, op).c);
  }

  ghost predicate RunLeavesPegs(s: State, ops: seq<Op>)
    requires StateInv(s) && LegalRun(s, ops)
    decreases |ops|
  {
    if ops == [] then true
    else
      ApplyInv(s, ops[0]);
      LeavesPegs(s, ops[0]) && RunLeavesPegs(Apply(s, ops[0]), ops[1..])
  }

  /** Every pegged order whose price is computable rests at it in every state of a run. */
  ghost predicate PegsThroughout(s: State, ops: seq<Op>)
    requires StateInv(s) && LegalRun(s, ops)
    decreases |ops|
  {
    PegsAt(s.c) &&
    if ops == [] then true
    else
      ApplyInv(s, ops[0]);
      PegsThroughout(Apply(s, ops[0]), ops[1..])
  }

  /** From pegs at their prices, they are so in every state of a run if and only if every operation of it
      leaves them so. */
  lemma {:induction false} PegsThroughoutIff(s: State, ops: seq<Op>)
    requires StateInv(s) && LegalRun(s, ops) && PegsAt(s.c)
    ensures PegsThroughout(s, ops) <==> RunLeavesPegs(s, ops)
    decreases |ops|
  {
    hide StateInv, PegsAt, Apply, LeavesPegs, Legal;
    if ops != [] {
      ApplyInv(s, ops[0]);
      ApplyPegsIff(s, ops[0]);
      if PegsAt(Apply(s, ops[0]).c) { PegsThroughoutIff(Apply(s, ops[0]), ops[1..]); }
    }
  }
}
