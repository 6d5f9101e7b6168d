/** Plain price-time priority as its textbook definition, and the proof that the matcher follows it
    whenever no maker is all-or-none and self-trade prevention is off
    (src/core/order_book.cc, match_level and match). */
module PriceTime {
  import opened OrderTypes
  import opened BookCore
  import opened Matching

  /** `p` is the best acceptable price at which a contra order rests. */
  ghost predicate Best(c: Core, o: Order, p: int) {
    && o.Accepts(p) && Fifo(c.q, Contra(o, p)) != []
    && (forall x :: o.Accepts(x) && Fifo(c.q, Contra(o, x)) != [] ==> !o.side.Opposite().Better(x, p))
  }

  /** No order rests all-or-none, and self-trade prevention is off. */
  ghost predicate Simple(c: Core) {
    c.stp == StpNone && forall id :: id in c.orders ==> !c.orders[id].o.Has(Aon)
  }

  /** Fill from the front of the best acceptable queue. */
  function TakeFront(m: Match, id: OrderId): Match
    requires id in m.c.orders
  {
    var mk := m.c.orders[id];
    var x := Min(m.o.leaves, if mk.o.IsIceberg() then mk.slice else mk.o.leaves);
    Match(Hit(m.c, m.o, id, x),
          m.o.(leaves := m.o.leaves - x, filled := m.o.filled + x),
          m.trades + [Trade(m.o.id, id, m.o.side, mk.o.price, x)],
          false)
  }

  lemma FrontRests(c: Core, o: Order, p: int)
    requires Inv(c) && Best(c, o, p)
    ensures Fifo(c.q, Contra(o, p))[0] in c.orders
  {
    SlotMember(c, Contra(o, p), 0);
  }

  lemma FrontActs(m: Match, id: OrderId)
    requires Inv(m.c) && m.c.stp == StpNone && m.o.leaves > 0 && !m.halted && id in m.c.orders
    ensures TakeFront(m, id) == Act(m, id) && Inv(TakeFront(m, id).c) && Work(TakeFront(m, id)) < Work(m)
  {
    hide Inv, Hit;
    ActInv(m, id);
  }

  ghost function BestPrice(c: Core, o: Order): (r: Option<int>)
    ensures r.Some? ==> Best(c, o, r.value)
    ensures r.None? ==> forall p :: !Best(c, o, p)
  {
    if p :| Best(c, o, p) then Some(p) else None
  }

  /** Take the best acceptable price, take its queue front, fill it; an exhausted iceberg slice goes to
      the back; repeat until the aggressor is filled or no acceptable price is left. */
  ghost function Fill(m: Match): Match
    requires Inv(m.c) && m.c.stp == StpNone && !m.halted
    decreases Work(m)
  {
    var best := BestPrice(m.c, m.o);
    if best.None? || m.o.leaves <= 0 then m
    else
      FrontRests(m.c, m.o, best.value);
      var id := Fifo(m.c.q, Contra(m.o, best.value))[0];
      FrontActs(m, id);
      ActEvolves(m, id);
      Fill(TakeFront(m, id))
  }

  /** The next maker of the matcher is then the front of the best queue. */
  lemma NextIsFront(c: Core, o: Order, p: int)
    requires Inv(c) && Simple(c) && Best(c, o, p)
    ensures Next(c, o) == Some(Fifo(c.q, Contra(o, p))[0])
  {
    SlotMember(c, Contra(o, p), 0);
    assert Fifo(c.q, Contra(o, p))[..0] == [];
    NextIs(c, o, p, 0);
  }

  lemma BestExists(c: Core, o: Order)
    requires Inv(c) && Next(c, o).Some?
    ensures exists p :: Best(c, o, p)
  {
    NextSound(c, o);
    var id := Next(c, o).value;
    var ps := set s | s in c.q && s.side == o.side.Opposite() && o.Accepts(s.price) :: s.price;
    forall p | o.Accepts(p) && Fifo(c.q, Contra(o, p)) != [] ensures p in ps {
      assert Contra(o, p) in c.q;
    }
    assert id in Fifo(c.q, SlotOf(c.orders[id]));
    assert c.orders[id].o.price in ps;
    BestPriceExists(o.side.Opposite(), ps, c.orders[id].o.price);
    var p :| p in ps && forall y :: y in ps ==> !o.side.Opposite().Better(y, p);
    assert Contra(o, p) in c.q;
    assert Best(c, o, p);
  }

  lemma SimpleStays(c: Core, c': Core)
    requires Simple(c) && Evolves(c, c')
    ensures Simple(c')
  {
  }

  /** The ladder and iterator loops produce exactly the plain price-time result: same executions, same
      remainder, same book. */
  lemma {:induction false} MatcherIsPriceTime(m: Match)
    requires Inv(m.c) && Simple(m.c) && !m.halted
    ensures MatchAll(m) == Fill(m)
    decreases Work(m)
  {
    hide Inv, BestPrice, Evolves;
    var best := BestPrice(m.c, m.o);
    if best.Some? && m.o.leaves > 0 {
      NextIsFront(m.c, m.o, best.value);
      FrontRests(m.c, m.o, best.value);
      var id := Fifo(m.c.q, Contra(m.o, best.value))[0];
      FrontActs(m, id);
      ActEvolves(m, id);
      SimpleStays(m.c, TakeFront(m, id).c);
      hide Best, TakeFront, Act;
      MatcherIsPriceTime(TakeFront(m, id));
    } else if Next(m.c, m.o).Some? {
      BestExists(m.c, m.o);
    }
  }
}
