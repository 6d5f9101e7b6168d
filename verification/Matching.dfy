/** Price-time matching as a specification: repeatedly act on the first maker, in price-time order,
    that the aggressor can act on.  The ladder and iterator loops of match and match_level are proved
    to compute exactly this (module RestingBooks). */
module Matching {
  import opened OrderTypes
  import opened BookSums
  import opened BookCore

  /** A matching run in progress: the book, the aggressor, the executions so far, and whether
      self-trade prevention cancelled the aggressor's remainder. */
  datatype Match = Match(c: Core, o: Order, trades: seq<Trade>, halted: bool)

  /** Self-trade prevention applies: the same non-anonymous account on both sides. */
  predicate StpHit(c: Core, o: Order, m: Maker) {
    c.stp != StpNone && o.client != 0 && m.o.client == o.client
  }

  /** An all-or-none maker larger than the aggressor's remainder is passed over. */
  predicate Blocked(c: Core, o: Order, m: Maker) {
    !StpHit(c, o, m) && m.o.Has(Aon) && o.leaves < m.o.leaves
  }

  function Contra(o: Order, p: int): Slot {
    Slot(o.side.Opposite(), p)
  }

  ghost predicate AllBlocked(c: Core, o: Order, f: seq<OrderId>) {
    forall id :: id in f ==> id in c.orders && Blocked(c, o, c.orders[id])
  }

  /** Price `p` is acceptable and holds a maker the aggressor can act on. */
  ghost predicate Live(c: Core, o: Order, p: int) {
    o.Accepts(p) && !AllBlocked(c, o, Fifo(c.q, Contra(o, p)))
  }

  ghost predicate BestLive(c: Core, o: Order, p: int) {
    Live(c, o, p) && forall p' :: Live(c, o, p') ==> !o.side.Opposite().Better(p', p)
  }

  /** The first id in `f` the aggressor is not blocked on. */
  ghost function FirstOpen(c: Core, o: Order, f: seq<OrderId>): (i: nat)
    ensures i <= |f| && AllBlocked(c, o, f[..i])
    ensures i < |f| ==> !(f[i] in c.orders && Blocked(c, o, c.orders[f[i]]))
    ensures i == |f| <==> AllBlocked(c, o, f)
  {
    if f == [] then 0
    else if f[0] in c.orders && Blocked(c, o, c.orders[f[0]]) then
      var i := FirstOpen(c, o, f[1..]) + 1;
      assert f[..i] == [f[0]] + f[1..][..i - 1];
      assert forall id :: id in f <==> id == f[0] || id in f[1..];
      i
    else
      assert f[0] in f;
      0
  }

  lemma FirstOpenIs(c: Core, o: Order, f: seq<OrderId>, i: nat)
    requires i < |f| && AllBlocked(c, o, f[..i])
    requires !(f[i] in c.orders && Blocked(c, o, c.orders[f[i]]))
    ensures FirstOpen(c, o, f) == i
  {
    var j := FirstOpen(c, o, f);
    assert forall k :: 0 <= k < i ==> f[..i][k] == f[k];
    assert forall k :: 0 <= k < j ==> f[..j][k] == f[k];
  }

  lemma BestLiveExists(c: Core, o: Order, x: int)
    requires Live(c, o, x)
    ensures exists p :: BestLive(c, o, p)
  {
    var ps := set s | s in c.q && s.side == o.side.Opposite() && Live(c, o, s.price) :: s.price;
    forall p | Live(c, o, p) ensures p in ps {
      assert Contra(o, p) in c.q;
    }
    BestPriceExists(o.side.Opposite(), ps, x);
    var p :| p in ps && forall y :: y in ps ==> !o.side.Opposite().Better(y, p);
    assert BestLive(c, o, p);
  }

  ghost predicate AnyLive(c: Core, o: Order) {
    exists p :: Live(c, o, p)
  }

  ghost function NextPrice(c: Core, o: Order): (p: int)
    requires AnyLive(c, o)
    ensures BestLive(c, o, p)
  {
    var x :| Live(c, o, x);
    BestLiveExists(c, o, x);
    var p :| BestLive(c, o, p);
    p
  }

  ghost function NextMaker(c: Core, o: Order): OrderId
    requires AnyLive(c, o)
  {
    var f := Fifo(c.q, Contra(o, NextPrice(c, o)));
    f[FirstOpen(c, o, f)]
  }

  /** The maker that comes next in price-time order, if any. */
  ghost function Next(c: Core, o: Order): Option<OrderId> {
    if AnyLive(c, o) then Some(NextMaker(c, o)) else None
  }

  /** How the nested loops recognise the next maker: every better price and every earlier position
      is blocked. */
  lemma NextIs(c: Core, o: Order, p: int, i: nat)
    requires o.Accepts(p)
    requires forall p' :: o.Accepts(p') && o.side.Opposite().Better(p', p) ==>
               AllBlocked(c, o, Fifo(c.q, Contra(o, p')))
    requires var f := Fifo(c.q, Contra(o, p));
      i < |f| && AllBlocked(c, o, f[..i]) && f[i] in c.orders && !Blocked(c, o, c.orders[f[i]])
    ensures Next(c, o) == Some(Fifo(c.q, Contra(o, p))[i])
  {
    var f := Fifo(c.q, Contra(o, p));
    assert f[i] in f;
    assert Live(c, o, p);
    FirstOpenIs(c, o, f, i);
    assert NextPrice(c, o) == p;
  }

  lemma OpenSound(c: Core, o: Order, p: int)
    requires FifoOk(c.orders, c.q) && Live(c, o, p)
    ensures var f := Fifo(c.q, Contra(o, p));
      var i := FirstOpen(c, o, f);
      i < |f| && f[i] in c.orders && !Blocked(c, o, c.orders[f[i]]) && SlotOf(c.orders[f[i]]) == Contra(o, p)
  {
    var f := Fifo(c.q, Contra(o, p));
    assert f[FirstOpen(c, o, f)] in f;
  }

  /** The next maker is a resting contra order at an acceptable price, and not blocked. */
  lemma NextSound(c: Core, o: Order)
    requires Inv(c) && Next(c, o).Some?
    ensures var id := Next(c, o).value;
      && id in c.orders && !Blocked(c, o, c.orders[id])
      && c.orders[id].o.side == o.side.Opposite() && o.Accepts(c.orders[id].o.price)
  {
    OpenSound(c, o, NextPrice(c, o));
  }

  /** The quantity the aggressor takes from maker `m` in one execution. */
  function FillSize(o: Order, m: Maker): int {
    Min(o.leaves, m.Exposed())
  }

  function AfterFill(o: Order, x: int): Order {
    o.(leaves := o.leaves - x, filled := o.filled + x)
  }

  /** Act on maker `id`: self-trade prevention, or one execution. */
  function Act(m: Match, id: OrderId): Match
    requires id in m.c.orders
  {
    var mk := m.c.orders[id];
    if StpHit(m.c, m.o, mk) then
      Match(if m.c.stp.Resting() then Withdraw(m.c, id) else m.c, m.o, m.trades, m.c.stp.Aggressor())
    else
      var x := FillSize(m.o, mk);
      Match(Hit(m.c, m.o, id, x), AfterFill(m.o, x), m.trades + [Trade(m.o.id, id, m.o.side, mk.o.price, x)], false)
  }

  function Work(m: Match): nat {
    |m.c.orders| + if m.halted || m.o.leaves < 0 then 0 else m.o.leaves + 1
  }

  lemma ActInv(m: Match, id: OrderId)
    requires Inv(m.c) && !m.halted && m.o.leaves > 0 && id in m.c.orders
    ensures Inv(Act(m, id).c) && Act(m, id).o.leaves >= 0
    ensures Work(Act(m, id)) < Work(m)
  {
    var mk := m.c.orders[id];
    if StpHit(m.c, m.o, mk) {
      if m.c.stp.Resting() {
        WithdrawInv(m.c, id);
        DropShrinks(m.c.orders, id);
      }
    } else {
      HitInv(m.c, m.o, id, FillSize(m.o, mk));
      HitCount(m.c, m.o, id, FillSize(m.o, mk));
    }
  }

  lemma HitCount(c: Core, o: Order, id: OrderId, x: int)
    requires id in c.orders
    ensures |Hit(c, o, id, x).orders| <= |c.orders|
  {
    DropShrinks(c.orders, id);
    var orders := Hit(c, o, id, x).orders;
    if id in orders {
      assert orders.Keys == c.orders.Keys;
    }
  }

  ghost predicate Done(m: Match) {
    m.halted || m.o.leaves <= 0 || Next(m.c, m.o).None?
  }

  /** Price-time matching to the end. */
  ghost function MatchAll(m: Match): Match
    requires Inv(m.c)
    decreases Work(m)
  {
    if Done(m) then m
    else
      NextSound(m.c, m.o);
      var id := Next(m.c, m.o).value;
      ActInv(m, id);
      MatchAll(Act(m, id))
  }

  lemma {:induction false} MatchAllInv(m: Match)
    requires Inv(m.c)
    ensures Inv(MatchAll(m).c) && Done(MatchAll(m))
    ensures m.o.leaves >= 0 ==> MatchAll(m).o.leaves >= 0
    decreases Work(m)
  {
    if !Done(m) {
      NextSound(m.c, m.o);
      ActInv(m, Next(m.c, m.o).value);
      MatchAllInv(Act(m, Next(m.c, m.o).value));
    }
  }

  /** When matching stops with a remainder and was not halted by self-trade prevention, every maker
      left at an acceptable price is all-or-none and larger than the remainder. */
  lemma RemainderBlocked(m: Match, id: OrderId)
    requires Inv(m.c)
    ensures var r := MatchAll(m);
      !r.halted && r.o.leaves > 0 && id in r.c.orders
      && r.c.orders[id].o.side == r.o.side.Opposite() && r.o.Accepts(r.c.orders[id].o.price)
      ==> r.c.orders[id].o.Has(Aon) && r.c.orders[id].o.leaves > r.o.leaves
  {
    MatchAllInv(m);
    var r := MatchAll(m);
    if !r.halted && r.o.leaves > 0 && id in r.c.orders
      && r.c.orders[id].o.side == r.o.side.Opposite() && r.o.Accepts(r.c.orders[id].o.price)
    {
      var p := r.c.orders[id].o.price;
      assert !Live(r.c, r.o, p);
      assert id in Fifo(r.c.q, Contra(r.o, p));
    }
  }

  // ------------------------------------------------ what matching leaves alone

  ghost predicate SameTerms(o: Order, o': Order) {
    o' == o.(leaves := o'.leaves, filled := o'.filled) && (o.leaves >= 0 ==> 0 <= o'.leaves <= o.leaves)
  }

  /** A maker keeps everything but its remainder and its rank. */
  predicate SameMaker(o: Order, o': Order) {
    o' == o.(leaves := o'.leaves, filled := o'.filled, rank := o'.rank) && o'.leaves <= o.leaves
  }

  /** `c'` comes from `c` by fills and withdrawals only. */
  ghost predicate Evolves(c: Core, c': Core) {
    && c'.symbol == c.symbol && c'.stp == c.stp && c'.born == c.born && c.nextSeq <= c'.nextSeq
    && c.events <= c'.events && c'.pegged <= c.pegged
    && (forall id :: id in c'.orders ==> id in c.orders && SameMaker(c.orders[id].o, c'.orders[id].o))
  }

  lemma EvolvesTrans(c: Core, c1: Core, c2: Core)
    requires Evolves(c, c1) && Evolves(c1, c2)
    ensures Evolves(c, c2)
  {
  }

  lemma ActEvolves(m: Match, id: OrderId)
    requires Inv(m.c) && m.o.leaves > 0 && id in m.c.orders
    ensures Evolves(m.c, Act(m, id).c)
    ensures SameTerms(m.o, Act(m, id).o) && m.trades <= Act(m, id).trades
  {
    var mk := m.c.orders[id];
    if StpHit(m.c, m.o, mk) {
    } else {
      HitEvolves(m.c, m.o, id, FillSize(m.o, mk));
    }
  }

  lemma HitEvolves(c: Core, o: Order, id: OrderId, x: int)
    requires id in c.orders && x >= 0
    ensures Evolves(c, Hit(c, o, id, x))
  {
  }

  lemma {:induction false} MatchAllEvolves(m: Match)
    requires Inv(m.c)
    ensures var r := MatchAll(m); Evolves(m.c, r.c) && SameTerms(m.o, r.o) && m.trades <= r.trades
    decreases Work(m)
  {
    hide Inv;
    if !Done(m) {
      var id := Next(m.c, m.o).value;
      NextSound(m.c, m.o);
      ActInv(m, id);
      ActEvolves(m, id);
      MatchAllEvolves(Act(m, id));
      EvolvesTrans(m.c, Act(m, id).c, MatchAll(m).c);
    }
  }

  // ----------------------------------- facts the nested loops rely on

  /** Every acceptable price better than `p` holds only blocked makers. */
  ghost predicate BetterBlocked(c: Core, o: Order, p: int) {
    forall x :: o.Accepts(x) && o.side.Opposite().Better(x, p) ==> AllBlocked(c, o, Fifo(c.q, Contra(o, x)))
  }

  lemma ActOthers(m: Match, id: OrderId)
    requires id in m.c.orders
    ensures forall x :: x != id ==> (x in Act(m, id).c.orders <==> x in m.c.orders)
    ensures forall x :: x != id && x in m.c.orders ==> Act(m, id).c.orders[x] == m.c.orders[x]
    ensures forall s :: s != SlotOf(m.c.orders[id]) ==> Fifo(Act(m, id).c.q, s) == Fifo(m.c.q, s)
    ensures Act(m, id).c.stp == m.c.stp
  {
    if !StpHit(m.c, m.o, m.c.orders[id]) {
      HitOthersStay(m.c, m.o, id, FillSize(m.o, m.c.orders[id]));
      hide Hit;
    }
  }

  lemma HitOthersStay(c: Core, o: Order, id: OrderId, x: int)
    requires id in c.orders
    ensures var c' := Hit(c, o, id, x);
      && c'.stp == c.stp
      && (forall y :: y != id ==> (y in c'.orders <==> y in c.orders))
      && (forall y :: y != id && y in c.orders ==> c'.orders[y] == c.orders[y])
      && (forall s :: s != SlotOf(c.orders[id]) ==> Fifo(c'.q, s) == Fifo(c.q, s))
  {
  }

  /** The aggressor keeps its terms through an action; only leaves and filled change. */
  lemma ActTerms(m: Match, id: OrderId)
    requires Inv(m.c) && m.o.leaves > 0 && id in m.c.orders
    ensures var o' := Act(m, id).o; o' == m.o.(leaves := o'.leaves, filled := o'.filled) && 0 <= o'.leaves <= m.o.leaves
  {
  }

  /** What is blocked stays blocked: an action never grows the aggressor or shrinks a blocked maker. */
  lemma ActBlocked(m: Match, id: OrderId, f: seq<OrderId>)
    requires Inv(m.c) && m.o.leaves > 0 && id in m.c.orders && !Blocked(m.c, m.o, m.c.orders[id])
    requires AllBlocked(m.c, m.o, f)
    ensures AllBlocked(Act(m, id).c, Act(m, id).o, f)
  {
    ActOthers(m, id);
    ActTerms(m, id);
    var m' := Act(m, id);
    forall x | x in f ensures x in m'.c.orders && Blocked(m'.c, m'.o, m'.c.orders[x]) {
      assert x != id;
    }
  }

  lemma ActBetterBlocked(m: Match, id: OrderId, p: int)
    requires Inv(m.c) && m.o.leaves > 0 && id in m.c.orders && !Blocked(m.c, m.o, m.c.orders[id])
    requires SlotOf(m.c.orders[id]) == Contra(m.o, p) && BetterBlocked(m.c, m.o, p)
    ensures BetterBlocked(Act(m, id).c, Act(m, id).o, p)
  {
    ActOthers(m, id);
    ActTerms(m, id);
    var m' := Act(m, id);
    forall x | m'.o.Accepts(x) && m'.o.side.Opposite().Better(x, p)
      ensures AllBlocked(m'.c, m'.o, Fifo(m'.c.q, Contra(m'.o, x)))
    {
      ActBlocked(m, id, Fifo(m.c.q, Contra(m.o, x)));
    }
  }

  /** One loop iteration that acts on the next maker leaves the final outcome unchanged. */
  lemma MatchAllStep(m: Match, p: int, i: nat)
    requires Inv(m.c) && !m.halted && m.o.leaves > 0 && m.o.Accepts(p) && BetterBlocked(m.c, m.o, p)
    requires var f := Fifo(m.c.q, Contra(m.o, p));
      i < |f| && AllBlocked(m.c, m.o, f[..i]) && f[i] in m.c.orders && !Blocked(m.c, m.o, m.c.orders[f[i]])
    ensures var id := Fifo(m.c.q, Contra(m.o, p))[i];
      Inv(Act(m, id).c) && MatchAll(m) == MatchAll(Act(m, id))
  {
    NextIs(m.c, m.o, p, i);
    ActInv(m, Fifo(m.c.q, Contra(m.o, p))[i]);
  }

  /** When every acceptable price is blocked, matching is over. */
  lemma MatchAllDone(m: Match)
    requires Inv(m.c)
    requires m.halted || m.o.leaves <= 0
          || forall p :: m.o.Accepts(p) ==> AllBlocked(m.c, m.o, Fifo(m.c.q, Contra(m.o, p)))
    ensures MatchAll(m) == m
  {
  }

  // ------------------------------------------------------ the level cursor

  function Cut(f: seq<OrderId>, i: nat): seq<OrderId>
    requires i < |f|
  {
    f[..i] + f[i + 1..]
  }

  lemma CutIsWithout(f: seq<OrderId>, i: nat)
    requires i < |f| && NoDup(f)
    ensures Without(f, f[i]) == Cut(f, i)
  {
    assert f[i] in f;
    assert IndexOf(f, f[i]) == i;
  }

  /** Where the iterator stands after a fill at position `i` of `n`: erasing leaves it on the next
      maker; a re-queued maker moves behind it, or it is at the end if that maker was already last. */
  function CursorAfter(m: Maker, x: int, i: nat, n: nat): nat {
    var m1 := Filled(m, x);
    if m1.o.leaves == 0 then i
    else if m.o.IsIceberg() && m1.slice == 0 then (if i + 1 == n then n else i)
    else i + 1
  }

  /** Where the iterator stands after acting on maker `id` at position `i` of `n`. */
  function Cursor(m: Match, id: OrderId, i: nat, n: nat): nat
    requires id in m.c.orders
  {
    if StpHit(m.c, m.o, m.c.orders[id]) then i
    else CursorAfter(m.c.orders[id], FillSize(m.o, m.c.orders[id]), i, n)
  }

  lemma PrefixBlocked(c: Core, o: Order, f: seq<OrderId>, i: nat)
    requires i < |f| && AllBlocked(c, o, f[..i]) && f[i] in c.orders && Blocked(c, o, c.orders[f[i]])
    ensures AllBlocked(c, o, f[..i + 1])
  {
    assert f[..i + 1] == f[..i] + [f[i]];
  }

  /** After an action the queue before the iterator is as it was, unless the iterator is at the end. */
  lemma ActCursor(m: Match, p: int, i: nat)
    requires Inv(m.c) && m.o.leaves > 0 && i < |Fifo(m.c.q, Contra(m.o, p))|
    requires var id := Fifo(m.c.q, Contra(m.o, p))[i];
      id in m.c.orders && SlotOf(m.c.orders[id]) == Contra(m.o, p)
    ensures var f := Fifo(m.c.q, Contra(m.o, p));
      var m' := Act(m, f[i]);
      var f' := Fifo(m'.c.q, Contra(m.o, p));
      var i' := Cursor(m, f[i], i, |f|);
      && i' <= |f'|
      && (!m'.halted && m'.o.leaves > 0 && i' < |f'| ==> f'[..i'] == f[..i])
  {
    assert NoDup(Fifo(m.c.q, Contra(m.o, p)));
    CutIsWithout(Fifo(m.c.q, Contra(m.o, p)), i);
  }

  /** Everything one acting iteration of the level loop needs. */
  lemma ActStep(m: Match, p: int, i: nat)
    requires Inv(m.c) && !m.halted && m.o.leaves > 0 && m.o.Accepts(p) && BetterBlocked(m.c, m.o, p)
    requires var f := Fifo(m.c.q, Contra(m.o, p));
      && i < |f| && AllBlocked(m.c, m.o, f[..i]) && f[i] in m.c.orders && !Blocked(m.c, m.o, m.c.orders[f[i]])
      && SlotOf(m.c.orders[f[i]]) == Contra(m.o, p)
    ensures var f := Fifo(m.c.q, Contra(m.o, p));
      var m' := Act(m, f[i]);
      var f' := Fifo(m'.c.q, Contra(m.o, p));
      var i' := Cursor(m, f[i], i, |f|);
      && Inv(m'.c) && MatchAll(m) == MatchAll(m') && Work(m') < Work(m) && SameTerms(m.o, m'.o)
      && BetterBlocked(m'.c, m'.o, p)
      && i' <= |f'|
      && (!m'.halted && m'.o.leaves > 0 ==> i' == |f'| || AllBlocked(m'.c, m'.o, f'[..i']))
  {
    var f := Fifo(m.c.q, Contra(m.o, p));
    MatchAllStep(m, p, i);
    ActInv(m, f[i]);
    ActTerms(m, f[i]);
    ActBetterBlocked(m, f[i], p);
    ActBlocked(m, f[i], f[..i]);
    ActCursor(m, p, i);
  }
}
