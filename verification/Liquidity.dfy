/** What an aggressor can reach: available_fill is the summed leaves at acceptable prices, and, when
    no reachable maker is all-or-none or self-trading, it is exactly what matching then executes
    (src/core/order_book.cc, available_fill and its uses in submit). */
module Liquidity {
  import opened OrderTypes
  import opened BookSums
  import opened BookCore
  import opened Matching

  ghost function Reach(c: Core, o: Order): int {
    Sum(c.orders, ReachOf(o))
  }

  /** The quantity available_fill reports. */
  ghost function Available(c: Core, o: Order): int {
    Min(Reach(c, o), o.leaves)
  }

  /** The reachable quantity that is not all-or-none. */
  ghost function Free(c: Core, o: Order): int {
    Sum(c.orders, FreeOf(o))
  }

  /** No maker the aggressor can reach belongs to its own account, and every all-or-none maker it can
      reach is larger than the aggressor (so none of them can trade with it). */
  ghost predicate BlockedContra(c: Core, o: Order) {
    forall id :: id in c.orders && Reaches(o, c.orders[id]) ==>
      !StpHit(c, o, c.orders[id]) && (c.orders[id].o.Has(Aon) ==> o.leaves < c.orders[id].o.leaves)
  }

  /** No maker the aggressor can reach is all-or-none or belongs to the same account. */
  ghost predicate PlainContra(c: Core, o: Order) {
    forall id :: id in c.orders && Reaches(o, c.orders[id]) ==>
      !c.orders[id].o.Has(Aon) && !StpHit(c, o, c.orders[id])
  }

  lemma FreeBounds(c: Core, o: Order)
    requires Inv(c)
    ensures 0 <= Free(c, o) <= Reach(c, o)
  {
    SumZero(c.orders, FreeOf(o));
    SumLeq(c.orders, FreeOf(o), ReachOf(o));
  }

  lemma PlainIsFree(c: Core, o: Order)
    requires PlainContra(c, o)
    ensures Free(c, o) == Reach(c, o) && BlockedContra(c, o)
  {
    SumLeq(c.orders, FreeOf(o), ReachOf(o));
    SumLeq(c.orders, ReachOf(o), FreeOf(o));
  }

  /** What is free depends on the aggressor's terms only, not on how much of it is left. */
  lemma FreeTerms(c: Core, o: Order, o': Order)
    requires o' == o.(leaves := o'.leaves, filled := o'.filled)
    ensures Free(c, o') == Free(c, o)
  {
    SumLeq(c.orders, FreeOf(o), FreeOf(o'));
    SumLeq(c.orders, FreeOf(o'), FreeOf(o));
  }

  /** An execution takes the same quantity from the aggressor and from what is free. */
  lemma HitFree(m: Match, id: OrderId)
    requires Inv(m.c) && m.o.leaves > 0 && id in m.c.orders && Reaches(m.o, m.c.orders[id])
    requires !StpHit(m.c, m.o, m.c.orders[id]) && !m.c.orders[id].o.Has(Aon)
    ensures m.o.leaves - Act(m, id).o.leaves == Free(m.c, m.o) - Free(Act(m, id).c, Act(m, id).o)
  {
    hide Inv;
    var mk := m.c.orders[id];
    var x := FillSize(m.o, mk);
    SumDrop(m.c.orders, id);
    SumReplace(m.c.orders, id, Filled(mk, x));
    SumReplace(m.c.orders, id, Replenished(Filled(mk, x), m.c.nextSeq));
    ActTerms(m, id);
    FreeTerms(Act(m, id).c, m.o, Act(m, id).o);
  }

  lemma ActStaysBlocked(m: Match, id: OrderId)
    requires Inv(m.c) && m.o.leaves > 0 && id in m.c.orders && Reaches(m.o, m.c.orders[id])
    requires BlockedContra(m.c, m.o) && !Blocked(m.c, m.o, m.c.orders[id])
    ensures BlockedContra(Act(m, id).c, Act(m, id).o) && !m.c.orders[id].o.Has(Aon)
  {
    hide Inv;
    ActOthers(m, id);
    ActTerms(m, id);
  }

  /** When no reachable all-or-none maker fits into the aggressor and none is its own, matching
      executes exactly what is free, up to the aggressor's size. */
  lemma {:induction false} MatchExecutesFree(m: Match)
    requires Inv(m.c) && !m.halted && m.o.leaves >= 0 && BlockedContra(m.c, m.o)
    ensures m.o.leaves - MatchAll(m).o.leaves == Min(Free(m.c, m.o), m.o.leaves)
    ensures !MatchAll(m).halted
    decreases Work(m)
  {
    FreeBounds(m.c, m.o);
    if m.o.leaves > 0 {
      if Next(m.c, m.o).None? {
        NothingFree(m.c, m.o);
      } else {
        NextSound(m.c, m.o);
        var id := Next(m.c, m.o).value;
        ActInv(m, id);
        ActStaysBlocked(m, id);
        HitFree(m, id);
        hide Inv, BlockedContra;
        MatchExecutesFree(Act(m, id));
      }
    }
  }

  /** No maker the aggressor can reach belongs to its own account. */
  ghost predicate NoneOwn(c: Core, o: Order) {
    forall id :: id in c.orders && Reaches(o, c.orders[id]) ==> !StpHit(c, o, c.orders[id])
  }

  /** An execution against an all-or-none maker takes nothing from what is free. */
  lemma HitAonFree(m: Match, id: OrderId)
    requires Inv(m.c) && m.o.leaves > 0 && id in m.c.orders
    requires !StpHit(m.c, m.o, m.c.orders[id]) && m.c.orders[id].o.Has(Aon)
    ensures Free(Act(m, id).c, Act(m, id).o) == Free(m.c, m.o)
  {
    hide Inv;
    var mk := m.c.orders[id];
    var x := FillSize(m.o, mk);
    SumDrop(m.c.orders, id);
    SumReplace(m.c.orders, id, Filled(mk, x));
    SumReplace(m.c.orders, id, Replenished(Filled(mk, x), m.c.nextSeq));
    ActTerms(m, id);
    FreeTerms(Act(m, id).c, m.o, Act(m, id).o);
  }

  lemma ActNoneOwn(m: Match, id: OrderId)
    requires Inv(m.c) && m.o.leaves > 0 && id in m.c.orders && NoneOwn(m.c, m.o)
    ensures NoneOwn(Act(m, id).c, Act(m, id).o)
  {
    ActTerms(m, id);
    ActEvolves(m, id);
    hide Act, Inv;
  }

  /** When matching finds nobody to act on, all that is free has been taken. */
  lemma NothingFree(c: Core, o: Order)
    requires Inv(c) && Next(c, o).None?
    ensures Free(c, o) == 0
  {
    forall id | id in c.orders ensures Weight(FreeOf(o), c.orders[id]) == 0 {
      if Reaches(o, c.orders[id]) {
        var p := c.orders[id].o.price;
        assert id in Fifo(c.q, SlotOf(c.orders[id]));
        assert !Live(c, o, p);
        assert AllBlocked(c, o, Fifo(c.q, Contra(o, p)));
      }
    }
    SumZero(c.orders, FreeOf(o));
  }

  /** If as much as the aggressor asks for is free, it fills completely, whatever all-or-none makers
      of whatever size stand between: one that fits only takes the aggressor's place elsewhere. */
  lemma {:induction false} FreeSuffices(m: Match)
    requires Inv(m.c) && !m.halted && NoneOwn(m.c, m.o) && 0 <= m.o.leaves <= Free(m.c, m.o)
    ensures MatchAll(m).o.leaves == 0 && !MatchAll(m).halted
    decreases Work(m)
  {
    if m.o.leaves > 0 {
      if Next(m.c, m.o).None? {
        NothingFree(m.c, m.o);
      } else {
        NextSound(m.c, m.o);
        var id := Next(m.c, m.o).value;
        ActInv(m, id);
        ActNoneOwn(m, id);
        if m.c.orders[id].o.Has(Aon) { HitAonFree(m, id); ActTerms(m, id); } else { HitFree(m, id); }
        hide Inv, NoneOwn;
        FreeSuffices(Act(m, id));
      }
    }
  }

  /** available_fill is exact when no reachable maker is all-or-none or self-trading: matching
      executes precisely that quantity. */
  lemma MatchExecutesAvailable(m: Match)
    requires Inv(m.c) && !m.halted && m.o.leaves >= 0 && PlainContra(m.c, m.o)
    ensures m.o.leaves - MatchAll(m).o.leaves == Available(m.c, m.o)
    ensures !MatchAll(m).halted
  {
    PlainIsFree(m.c, m.o);
    MatchExecutesFree(m);
  }

  /** Executed and remaining quantity of the aggressor always add up to the same. */
  lemma {:induction false} MatchConserves(m: Match)
    requires Inv(m.c)
    ensures MatchAll(m).o.leaves + MatchAll(m).o.filled == m.o.leaves + m.o.filled
    decreases Work(m)
  {
    hide Inv;
    if !Done(m) {
      NextSound(m.c, m.o);
      ActInv(m, Next(m.c, m.o).value);
      MatchConserves(Act(m, Next(m.c, m.o).value));
    }
  }
}
