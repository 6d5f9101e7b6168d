/** Running totals are exact: displayed counters and reduce-only reservations equal the sums they
    stand for after every trace; positions move by exactly the fills. */
module Accounting {
  import opened OrderTypes
  import opened BookSums
  import opened BookCore
  import opened Traces

  // ------------------------------------------------------------ reservations

  /** A resting reduce-only order's account has an entry. */
  lemma ReservedClientKnown(c: Core, id: OrderId)
    requires Inv(c) && ReservedExact(c) && id in c.orders && c.orders[id].o.Has(ReduceOnly)
    requires c.orders[id].o.client != 0
    ensures c.orders[id].o.client in c.positions
  {
    var o := c.orders[id].o;
    var k := ReservedOf(o.client, o.side);
    SumBounds(c.orders, k, id);
    assert PositionOf(c.positions, o.client).Reserved(o.side) == Sum(c.orders, k);
  }

  lemma ReserveAdds(ps: map<ClientId, Position>, o: Order, x: int, a: ClientId, s: Side)
    requires a != 0
    ensures PositionOf(Reserve(ps, o, x), a).Reserved(s) == PositionOf(ps, a).Reserved(s)
      + if o.Has(ReduceOnly) && o.client == a && o.side == s then x else 0
  {
  }

  lemma FillKeepsReserved(ps: map<ClientId, Position>, b: ClientId, t: Side, x: int, a: ClientId, s: Side)
    ensures PositionOf(ApplyFill(ps, b, t, x), a).Reserved(s) == PositionOf(ps, a).Reserved(s)
  {
  }

  lemma JoinReserved(c: Core, o: Order)
    requires ReservedExact(c) && o.id !in c.orders
    ensures ReservedExact(Rest(c, o))
  {
    SumAdd(c.orders, o.id, Maker(o, o.FreshSlice()));
    forall a: ClientId, s: Side | a != 0
      ensures PositionOf(Rest(c, o).positions, a).Reserved(s) == Sum(Rest(c, o).orders, ReservedOf(a, s))
    {
      ReserveAdds(c.positions, o, o.leaves, a, s);
    }
  }

  lemma LeaveReserved(c: Core, id: OrderId)
    requires Inv(c) && ReservedExact(c) && id in c.orders
    ensures ReservedExact(Withdraw(c, id))
  {
    var o := c.orders[id].o;
    if o.Has(ReduceOnly) && o.client != 0 { ReservedClientKnown(c, id); }
    hide Inv;
    hide Withdraw;
    forall a: ClientId, s: Side | a != 0
      ensures PositionOf(Withdraw(c, id).positions, a).Reserved(s) == Sum(Withdraw(c, id).orders, ReservedOf(a, s))
    {
      LeaveReservedAt(c, id, a, s);
    }
  }

  /** The same for one account and side. */
  lemma LeaveReservedAt(c: Core, id: OrderId, a: ClientId, s: Side)
    requires id in c.orders && a != 0
    requires PositionOf(c.positions, a).Reserved(s) == Sum(c.orders, ReservedOf(a, s))
    requires c.orders[id].o.Has(ReduceOnly) && c.orders[id].o.client != 0 ==> c.orders[id].o.client in c.positions
    ensures PositionOf(Withdraw(c, id).positions, a).Reserved(s) == Sum(Withdraw(c, id).orders, ReservedOf(a, s))
  {
    SumDrop(c.orders, id);
    ReserveAdds(c.positions, c.orders[id].o, -c.orders[id].o.leaves, a, s);
  }

  lemma ShiftReserved(c: Core, id: OrderId, price: int)
    requires ReservedExact(c) && id in c.orders
    ensures ReservedExact(Move(c, id, price))
  {
    SumReplace(c.orders, id, Move(c, id, price).orders[id]);
  }

  /** What a fill does to every weighted sum. */
  lemma HitSums(c: Core, o: Order, id: OrderId, x: int, k: Measure)
    requires id in c.orders
    ensures var m := Filled(c.orders[id], x);
      Sum(Hit(c, o, id, x).orders, k) == Sum(c.orders, k) - Weight(k, c.orders[id])
        + (if m.o.leaves == 0 then 0
           else if m.o.IsIceberg() && m.slice == 0 then Weight(k, Replenished(m, c.nextSeq))
           else Weight(k, m))
  {
    var m := Filled(c.orders[id], x);
    SumDrop(c.orders, id);
    SumReplace(c.orders, id, m);
    SumReplace(c.orders, id, Replenished(m, c.nextSeq));
  }

  lemma HitPositions(c: Core, o: Order, id: OrderId, x: int)
    requires id in c.orders
    ensures Hit(c, o, id, x).positions == Print(c, o, c.orders[id], x).positions
  {
  }

  lemma FillReserved(c: Core, o: Order, id: OrderId, x: int)
    requires Inv(c) && ReservedExact(c) && id in c.orders
    ensures ReservedExact(Hit(c, o, id, x))
  {
    var m := c.orders[id];
    if m.o.Has(ReduceOnly) && m.o.client != 0 { ReservedClientKnown(c, id); }
    hide Inv, Hit;
    forall a: ClientId, s: Side | a != 0
      ensures PositionOf(Hit(c, o, id, x).positions, a).Reserved(s) == Sum(Hit(c, o, id, x).orders, ReservedOf(a, s))
    {
      FillReservedAt(c, o, id, x, a, s);
    }
  }

  /** The same for one account and side. */
  lemma FillReservedAt(c: Core, o: Order, id: OrderId, x: int, a: ClientId, s: Side)
    requires id in c.orders && a != 0
    requires PositionOf(c.positions, a).Reserved(s) == Sum(c.orders, ReservedOf(a, s))
    requires c.orders[id].o.Has(ReduceOnly) && c.orders[id].o.client != 0 ==> c.orders[id].o.client in c.positions
    ensures PositionOf(Hit(c, o, id, x).positions, a).Reserved(s) == Sum(Hit(c, o, id, x).orders, ReservedOf(a, s))
  {
    hide Hit;
    var m := c.orders[id];
    var ps1 := ApplyFill(c.positions, o.client, o.side, x);
    var ps2 := ApplyFill(ps1, m.o.client, m.o.side, x);
    HitPositions(c, o, id, x);
    HitSums(c, o, id, x, ReservedOf(a, s));
    FillKeepsReserved(c.positions, o.client, o.side, x, a, s);
    FillKeepsReserved(ps1, m.o.client, m.o.side, x, a, s);
    ReserveAdds(ps2, m.o, -x, a, s);
  }

  lemma AuctionReserved(c: Core, b: Maker, s: Maker, p: int, x: int)
    requires ReservedExact(c)
    ensures ReservedExact(Do(c, Auctioned(b, s, p, x)))
  {
    var ps1 := ApplyFill(c.positions, b.o.client, Buy, x);
    var c' := Do(c, Auctioned(b, s, p, x));
    forall a: ClientId, t: Side | a != 0
      ensures PositionOf(c'.positions, a).Reserved(t) == Sum(c'.orders, ReservedOf(a, t))
    {
      FillKeepsReserved(c.positions, b.o.client, Buy, x, a, t);
      FillKeepsReserved(ps1, s.o.client, Sell, x, a, t);
    }
  }

  /** No elementary change breaks a reservation counter. */
  lemma DoReserved(k: Kind, c: Core, a: Atom)
    requires Inv(c) && ReservedExact(c) && AtomOk(k, c, a)
    ensures ReservedExact(Do(c, a))
  {
    match a
    case Join(o) => hide ReservedExact; JoinReserved(c, o);
    case Leave(id) => hide ReservedExact; LeaveReserved(c, id);
    case Shift(id, price) => hide ReservedExact; ShiftReserved(c, id, price);
    case Fill(o, id, x) => hide ReservedExact; FillReserved(c, o, id, x);
    case Auctioned(b, s, p, x) => hide ReservedExact; AuctionReserved(c, b, s, p, x);
    case _ =>
  }

  // ------------------------------------------------------ displayed counters

  lemma JoinLit(c: Core, o: Order)
    requires LitExact(c) && o.id !in c.orders
    ensures LitExact(Rest(c, o))
  {
    SumAdd(c.orders, o.id, Maker(o, o.FreshSlice()));
  }

  lemma LeaveLit(c: Core, id: OrderId)
    requires LitExact(c) && id in c.orders
    ensures LitExact(Withdraw(c, id))
  {
    SumDrop(c.orders, id);
  }

  lemma ShiftLit(c: Core, id: OrderId, price: int)
    requires LitExact(c) && id in c.orders
    ensures LitExact(Move(c, id, price))
  {
    SumReplace(c.orders, id, Move(c, id, price).orders[id]);
  }

  /** A fill keeps the displayed counters exact if and only if it does not replenish an iceberg that
      is also hidden: replenishing adds the new slice to the counter whether or not it shows. */
  lemma FillLitExactIff(c: Core, o: Order, id: OrderId, x: int)
    requires Inv(c) && LitExact(c) && id in c.orders && 0 < x <= c.orders[id].Exposed()
    ensures var m := c.orders[id];
      LitExact(Hit(c, o, id, x)) <==>
        !(m.o.Has(Hidden) && m.o.IsIceberg() && m.slice == x && x < m.o.leaves)
  {
    hide Inv;
    var m := c.orders[id];
    MakerSound(c, id);
    var c' := Hit(c, o, id, x);
    var at := SlotOf(m);
    forall s: Slot ensures Disp(c'.disp, s) - Sum(c'.orders, LitAt(s.side, s.price)) ==
      if s == at && m.o.Has(Hidden) && m.o.IsIceberg() && m.slice == x && x < m.o.leaves
      then Min(m.o.displayQty, m.o.leaves - x) else 0
    {
      HitSums(c, o, id, x, LitAt(s.side, s.price));
      assert Disp(c.disp, s) == Sum(c.orders, LitAt(s.side, s.price));
    }
    assert Disp(c'.disp, at) - Sum(c'.orders, LitAt(at.side, at.price)) ==
      if m.o.Has(Hidden) && m.o.IsIceberg() && m.slice == x && x < m.o.leaves
      then Min(m.o.displayQty, m.o.leaves - x) else 0;
  }

  /** In a book without hidden icebergs no elementary change breaks a displayed counter. */
  lemma DoLitExact(k: Kind, c: Core, a: Atom)
    requires Inv(c) && LitBook(c) && LitExact(c) && AtomOk(k, c, a)
    ensures LitExact(Do(c, a))
  {
    match a
    case Join(o) => hide LitExact; JoinLit(c, o);
    case Leave(id) => hide LitExact; LeaveLit(c, id);
    case Shift(id, price) => hide LitExact; ShiftLit(c, id, price);
    case Fill(o, id, x) => hide LitExact; FillLitExactIff(c, o, id, x);
    case _ =>
  }

  // -------------------------------------------------------------- whole traces

  lemma {:induction false} PathExact(k: Kind, c: Core, path: seq<Atom>)
    requires Inv(c) && GoodCore(k, c) && Fits(k, c, path)
    requires ReservedExact(c) && (k.lit ==> LitExact(c))
    ensures ReservedExact(After(k, c, path)) && (k.lit ==> LitExact(After(k, c, path)))
    decreases |path|
  {
    if path != [] {
      DoGood(k, c, path[0]);
      DoReserved(k, c, path[0]);
      if k.lit { DoLitExact(k, c, path[0]); }
      hide Inv, GoodCore, ReservedExact, LitExact;
      PathExact(k, Do(c, path[0]), path[1..]);
    }
  }

  lemma StepsExact(k: Kind, c: Core, c': Core)
    requires Inv(c) && GoodCore(k, c) && Steps(k, c, c')
    requires ReservedExact(c) && (k.lit ==> LitExact(c))
    ensures ReservedExact(c') && (k.lit ==> LitExact(c'))
  {
    hide Inv, GoodCore, ReservedExact, LitExact;
    var path :| Fits(k, c, path) && After(k, c, path) == c';
    PathExact(k, c, path);
  }

  // --------------------------------------------------------------- positions

  /** What one trade event adds to account `a`, orders being owned as in `owners`. */
  function EventFlow(owners: map<OrderId, ClientId>, ev: BookEvent, a: ClientId): int {
    if ev.typ != EvTrade then 0
    else
      (if ev.taker in owners && owners[ev.taker] == a then Signed(ev.side, ev.qty) else 0)
      + (if ev.id in owners && owners[ev.id] == a then -Signed(ev.side, ev.qty) else 0)
  }

  /** The signed sum of the account's fills in a list of events. */
  function Flow(owners: map<OrderId, ClientId>, evs: seq<BookEvent>, a: ClientId): int {
    if evs == [] then 0 else EventFlow(owners, evs[0], a) + Flow(owners, evs[1..], a)
  }

  lemma {:induction false} FlowAppend(owners: map<OrderId, ClientId>, p: seq<BookEvent>, q: seq<BookEvent>, a: ClientId)
    ensures Flow(owners, p + q, a) == Flow(owners, p, a) + Flow(owners, q, a)
    decreases |p|
  {
    if p == [] {
      assert p + q == q;
    } else {
      FlowAppend(owners, p[1..], q, a);
      assert (p + q)[1..] == p[1..] + q;
    }
  }

  function NetOf(c: Core, a: ClientId): int {
    PositionOf(c.positions, a).net
  }

  /** The events an elementary change appends. */
  function NewEvents(c: Core, a: Atom): seq<BookEvent>
    requires a.Leave? || a.Shift? || a.Fill? ==> a.id in c.orders
  {
    match a
    case Join(o) => [OrderEvent(c.symbol, EvAdd, o, o.leaves, Maker(o, o.FreshSlice()).Lit())]
    case Leave(id) => [OrderEvent(c.symbol, EvCancel, c.orders[id].o, c.orders[id].o.leaves, c.orders[id].Lit())]
    case Shift(id, price) =>
      var m := Move(c, id, price).orders[id];
      [RepriceEvent(c.symbol, m.o, c.orders[id].o.price, m.o.leaves, m.Lit())]
    case Fill(o, id, x) =>
      var m := c.orders[id];
      var m1 := Filled(m, x);
      var ticket := [TradeEvent(c.symbol, Trade(o.id, m.o.id, o.side, m.o.price, x), LitFill(m, x))];
      if m1.o.leaves != 0 && m1.o.IsIceberg() && m1.slice == 0 then
        var m2 := Replenished(m1, c.nextSeq);
        ticket + [OrderEvent(c.symbol, EvReplenish, m2.o, m2.slice, m2.slice)]
      else ticket
    case Note(o) => [OrderEvent(c.symbol, EvTrigger, o, o.leaves, 0)]
    case Auctioned(b, s, p, x) => [TradeEvent(c.symbol, Trade(b.o.id, s.o.id, Buy, p, x), LitFill(s, x))]
    case _ => []
  }

  lemma DoEvents(c: Core, a: Atom)
    requires a.Leave? || a.Shift? || a.Fill? ==> a.id in c.orders
    ensures Do(c, a).events == c.events + NewEvents(c, a)
  {
  }

  lemma NetFills(ps: map<ClientId, Position>, b: ClientId, s: Side, x: int, a: ClientId)
    requires a != 0
    ensures PositionOf(ApplyFill(ps, b, s, x), a).net == PositionOf(ps, a).net + if b == a then Signed(s, x) else 0
  {
  }

  lemma NetReserve(ps: map<ClientId, Position>, o: Order, x: int, a: ClientId)
    ensures PositionOf(Reserve(ps, o, x), a).net == PositionOf(ps, a).net
    ensures PositionOf(Release(ps, o, x), a).net == PositionOf(ps, a).net
  {
  }

  lemma FillNet(k: Kind, c: Core, o: Order, id: OrderId, x: int, a: ClientId)
    requires Inv(c) && k.owners.Some? && OwnedBook(k.owners.value, c) && AtomOk(k, c, Fill(o, id, x)) && a != 0
    ensures NetOf(Hit(c, o, id, x), a) == NetOf(c, a) + Flow(k.owners.value, NewEvents(c, Fill(o, id, x)), a)
  {
    var m := c.orders[id];
    assert m.o.id == id;
    hide Inv;
    HitPositions(c, o, id, x);
    var ps1 := ApplyFill(c.positions, o.client, o.side, x);
    var ps2 := ApplyFill(ps1, m.o.client, m.o.side, x);
    NetFills(c.positions, o.client, o.side, x, a);
    NetFills(ps1, m.o.client, m.o.side, x, a);
    NetReserve(ps2, m.o, x, a);
    FillFlow(k.owners.value, c, o, id, x, a);
  }

  lemma FlowOne(owners: map<OrderId, ClientId>, ev: BookEvent, a: ClientId)
    ensures Flow(owners, [ev], a) == EventFlow(owners, ev, a)
  {
    assert [ev][1..] == [];
  }

  /** Only the print of a fill moves positions; a replenishment does not. */
  lemma FillFlow(owners: map<OrderId, ClientId>, c: Core, o: Order, id: OrderId, x: int, a: ClientId)
    requires id in c.orders
    ensures Flow(owners, NewEvents(c, Fill(o, id, x)), a) ==
      var mk := c.orders[id];
      EventFlow(owners, TradeEvent(c.symbol, Trade(o.id, mk.o.id, o.side, mk.o.price, x), LitFill(mk, x)), a)
  {
    var evs := NewEvents(c, Fill(o, id, x));
    FlowOne(owners, evs[0], a);
    if |evs| == 2 {
      assert evs == [evs[0]] + [evs[1]];
      FlowAppend(owners, [evs[0]], [evs[1]], a);
      FlowOne(owners, evs[1], a);
    }
  }

  /** Every elementary change moves a position by exactly the fills it prints. */
  lemma DoNet(k: Kind, c: Core, a: Atom, client: ClientId)
    requires Inv(c) && k.owners.Some? && OwnedBook(k.owners.value, c) && AtomOk(k, c, a) && client != 0
    ensures NetOf(Do(c, a), client) == NetOf(c, client) + Flow(k.owners.value, NewEvents(c, a), client)
  {
    match a
    case Fill(o, id, x) => FillNet(k, c, o, id, x, client);
    case Auctioned(b, s, p, x) =>
      NetFills(c.positions, b.o.client, Buy, x, client);
      NetFills(ApplyFill(c.positions, b.o.client, Buy, x), s.o.client, Sell, x, client);
      assert NewEvents(c, a)[1..] == [];
    case Join(o) => NetReserve(c.positions, o, o.leaves, client); assert NewEvents(c, a)[1..] == [];
    case Leave(id) =>
      NetReserve(c.positions, c.orders[id].o, c.orders[id].o.leaves, client);
      assert NewEvents(c, a)[1..] == [];
    case Shift(id, price) => assert NewEvents(c, a)[1..] == [];
    case Note(o) => assert NewEvents(c, a)[1..] == [];
    case _ =>
  }

  ghost predicate Ledger(owners: map<OrderId, ClientId>, c: Core, c': Core) {
    && c.events <= c'.events
    && forall a: ClientId :: a != 0 ==> NetOf(c', a) == NetOf(c, a) + Flow(owners, c'.events[|c.events|..], a)
  }

  lemma LedgerStep(k: Kind, c: Core, a: Atom, c': Core)
    requires Inv(c) && k.owners.Some? && OwnedBook(k.owners.value, c) && AtomOk(k, c, a)
    requires Ledger(k.owners.value, Do(c, a), c')
    ensures Ledger(k.owners.value, c, c')
  {
    hide Inv, Do, Flow, NewEvents, NetOf, OwnedBook;
    DoEvents(c, a);
    forall x: ClientId | x != 0
      ensures NetOf(c', x) == NetOf(c, x) + Flow(k.owners.value, c'.events[|c.events|..], x)
    {
      DoNet(k, c, a, x);
      var rest := c'.events[|Do(c, a).events|..];
      FlowAppend(k.owners.value, NewEvents(c, a), rest, x);
      assert c'.events[|c.events|..] == NewEvents(c, a) + rest;
    }
  }

  lemma {:induction false} PathLedger(k: Kind, c: Core, path: seq<Atom>)
    requires Inv(c) && GoodCore(k, c) && Fits(k, c, path) && k.owners.Some?
    ensures Ledger(k.owners.value, c, After(k, c, path))
    decreases |path|
  {
    hide Inv;
    if path != [] {
      DoGood(k, c, path[0]);
      PathLedger(k, Do(c, path[0]), path[1..]);
      hide Do, GoodCore;
      LedgerStep(k, c, path[0], After(k, c, path));
    }
  }

  // --------------------------------------------------------- what is shown

  /** With exact counters a level shows no more than it holds.  It shows nothing if all its orders are
      hidden, and everything if none is hidden or an iceberg. */
  lemma ShownWithinHeld(c: Core, s: Slot)
    requires Inv(c) && LitExact(c)
    ensures 0 <= Disp(c.disp, s) <= Total(c, s)
    ensures (forall id :: id in c.orders && SlotOf(c.orders[id]) == s ==> Hidden in c.orders[id].o.flags) ==>
      Disp(c.disp, s) == 0
    ensures (forall id :: id in c.orders && SlotOf(c.orders[id]) == s ==>
               Hidden !in c.orders[id].o.flags && Iceberg !in c.orders[id].o.flags) ==>
      Disp(c.disp, s) == Total(c, s)
  {
    hide Inv, Sum;
    var lit, all := LitAt(s.side, s.price), LeavesAt(s.side, s.price);
    forall id | id in c.orders ensures 0 <= Weight(lit, c.orders[id]) <= Weight(all, c.orders[id]) {
      MakerSound(c, id);
    }
    SumLeq(c.orders, lit, all);
    SumZero(c.orders, lit);
    if forall id :: id in c.orders && SlotOf(c.orders[id]) == s ==>
         Hidden !in c.orders[id].o.flags && Iceberg !in c.orders[id].o.flags
    {
      SumLeq(c.orders, all, lit);
    }
  }

  /** A level whose one order is an iceberg shows some of it, and no more than its display quantity. */
  lemma IcebergShowsSlice(c: Core, s: Slot, id: OrderId)
    requires Inv(c) && LitExact(c) && id in c.orders && SlotOf(c.orders[id]) == s
    requires forall x :: x in c.orders && SlotOf(c.orders[x]) == s ==> x == id
    requires Iceberg in c.orders[id].o.flags && Hidden !in c.orders[id].o.flags
    ensures 0 < Disp(c.disp, s) <= c.orders[id].o.displayQty
  {
    hide Inv, Sum;
    MakerSound(c, id);
    var lit := LitAt(s.side, s.price);
    SumExtract(c.orders, lit, id);
    SumZero(c.orders - {id}, lit);
  }
}
