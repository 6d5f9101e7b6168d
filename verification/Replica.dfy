/** The feed replica: a book rebuilt only from the event stream (src/feed/book_replica.cc), and the
    proof that it agrees with the matcher's book after every trace. */
module Replica {
  import opened OrderTypes
  import opened BookSums
  import opened BookCore
  import opened Traces
  import opened Accounting

  /** One resting order as the replica knows it. */
  datatype OrderView = OrderView(id: OrderId, side: Side, price: int, qty: int, displayed: int)

  type Depth = map<int, int>

  /** The replica of one symbol: matchable and displayed depth per side, and the orders. */
  datatype SymBook = SymBook(
    bids: Depth, asks: Depth, dispBids: Depth, dispAsks: Depth, orders: map<OrderId, OrderView>)
  {
    function SideMap(s: Side): Depth { if s == Buy then bids else asks }

    function DispMap(s: Side): Depth { if s == Buy then dispBids else dispAsks }

    function SetSide(s: Side, m: Depth): SymBook {
      if s == Buy then this.(bids := m) else this.(asks := m)
    }

    function SetDisp(s: Side, m: Depth): SymBook {
      if s == Buy then this.(dispBids := m) else this.(dispAsks := m)
    }

    /** Change both depths of one level. */
    function BumpBoth(s: Side, p: int, d: int, lit: int): SymBook {
      SetSide(s, Bump(SideMap(s), p, d)).SetDisp(s, Bump(DispMap(s), p, lit))
    }
  }

  const NO_DEPTH: Depth := map[]

  const EMPTY_BOOK := SymBook(NO_DEPTH, NO_DEPTH, NO_DEPTH, NO_DEPTH, map[])

  /** Add `d` to the level at `p`; a level that is not positive is erased. */
  function Bump(m: Depth, p: int, d: int): Depth {
    if p !in m then (if d > 0 then m[p := d] else m)
    else if m[p] + d <= 0 then m - {p}
    else m[p := m[p] + d]
  }

  function At(m: Depth, p: int): int {
    if p in m then m[p] else 0
  }

  ghost predicate Positive(m: Depth) {
    forall p :: p in m ==> m[p] > 0
  }

  /** Bump is exact as long as the level does not go negative. */
  lemma BumpExact(m: Depth, p: int, d: int)
    requires Positive(m) && At(m, p) + d >= 0
    ensures Positive(Bump(m, p, d))
    ensures forall x :: At(Bump(m, p, d), x) == At(m, x) + if x == p then d else 0
  {
  }

  /** Apply one event to the replica of its symbol. */
  function ApplyEvent(b: SymBook, ev: BookEvent): SymBook {
    match ev.typ
    case EvAdd =>
      b.(orders := b.orders[ev.id := OrderView(ev.id, ev.side, ev.price, ev.qty, ev.displayed)])
       .BumpBoth(ev.side, ev.price, ev.qty, ev.displayed)
    case EvCancel =>
      if ev.id !in b.orders then b
      else
        var v := b.orders[ev.id];
        b.BumpBoth(v.side, v.price, -v.qty, -v.displayed).(orders := b.orders - {ev.id})
    case EvTrade =>
      if ev.id !in b.orders then b
      else
        var v := b.orders[ev.id];
        var v' := v.(qty := v.qty - ev.qty, displayed := v.displayed - ev.displayed);
        b.BumpBoth(v.side, v.price, -ev.qty, -ev.displayed)
         .(orders := if v'.qty <= 0 then b.orders - {ev.id} else b.orders[ev.id := v'])
    case EvReprice =>
      if ev.id !in b.orders then b
      else
        var v := b.orders[ev.id];
        var v' := v.(price := ev.price, displayed := ev.displayed);
        b.BumpBoth(v.side, v.price, -v.qty, -v.displayed)
         .BumpBoth(v.side, ev.price, v.qty, ev.displayed)
         .(orders := b.orders[ev.id := v'])
    case EvReplenish =>
      if ev.id !in b.orders then b
      else
        var v := b.orders[ev.id];
        b.SetDisp(v.side, Bump(b.DispMap(v.side), v.price, ev.displayed))
         .(orders := b.orders[ev.id := v.(displayed := v.displayed + ev.displayed)])
    case EvTrigger => b
  }

  function Replay(b: SymBook, evs: seq<BookEvent>): SymBook
    decreases |evs|
  {
    if evs == [] then b else Replay(ApplyEvent(b, evs[0]), evs[1..])
  }

  lemma {:induction false} ReplayAppend(b: SymBook, p: seq<BookEvent>, q: seq<BookEvent>)
    ensures Replay(b, p + q) == Replay(Replay(b, p), q)
    decreases |p|
  {
    if p == [] {
      assert p + q == q;
    } else {
      ReplayAppend(ApplyEvent(b, p[0]), p[1..], q);
      assert (p + q)[1..] == p[1..] + q;
    }
  }

  // ------------------------------------------------------------- agreement

  function ViewOf(m: Maker): OrderView {
    OrderView(m.o.id, m.o.side, m.o.price, m.o.leaves, m.Lit())
  }

  /** A pair of depth maps shows the level sums of `orders`, wherever non-zero; the displayed map
      counts only when `full`. */
  ghost predicate MapsAgree(full: bool, m: Depth, lit: Depth, orders: map<OrderId, Maker>, side: Side) {
    && Positive(m)
    && (forall p :: At(m, p) == Sum(orders, LeavesAt(side, p)))
    && (full ==> Positive(lit))
    && (full ==> forall p :: At(lit, p) == Sum(orders, LitAt(side, p)))
  }

  ghost predicate DepthAgrees(full: bool, b: SymBook, orders: map<OrderId, Maker>) {
    && MapsAgree(full, b.bids, b.dispBids, orders, Buy)
    && MapsAgree(full, b.asks, b.dispAsks, orders, Sell)
  }

  /** The same order: id, side, price and leaves, and the displayed quantity when `full`. */
  predicate SameView(full: bool, v: OrderView, w: OrderView) {
    v == w || (!full && v == w.(displayed := v.displayed))
  }

  ghost predicate OrdersAgree(full: bool, b: SymBook, orders: map<OrderId, Maker>) {
    && b.orders.Keys == orders.Keys
    && forall id :: id in orders ==> SameView(full, b.orders[id], ViewOf(orders[id]))
  }

  /** The replica shows the same orders and the same matchable depth; when `full`, the displayed
      quantity of every order and level as well. */
  ghost predicate Agrees(full: bool, b: SymBook, orders: map<OrderId, Maker>) {
    OrdersAgree(full, b, orders) && DepthAgrees(full, b, orders)
  }

  ghost predicate Plain(orders: map<OrderId, Maker>) {
    forall id :: id in orders ==> orders[id].o.id == id && orders[id].o.leaves >= 0 && orders[id].Lit() >= 0
  }

  lemma SumsNonNegative(orders: map<OrderId, Maker>, side: Side, p: int)
    requires Plain(orders)
    ensures Sum(orders, LeavesAt(side, p)) >= 0 && Sum(orders, LitAt(side, p)) >= 0
  {
    SumZero(orders, LeavesAt(side, p));
    SumZero(orders, LitAt(side, p));
  }

  /** Between `orders` and `orders'` one level's leaves change by `d` and its lit quantity by `lit`. */
  ghost predicate Differ(orders: map<OrderId, Maker>, orders': map<OrderId, Maker>, s: Slot, d: int, lit: int) {
    && (forall t, x :: Sum(orders', LeavesAt(t, x)) == Sum(orders, LeavesAt(t, x)) + if s == Slot(t, x) then d else 0)
    && (forall t, x :: Sum(orders', LitAt(t, x)) == Sum(orders, LitAt(t, x)) + if s == Slot(t, x) then lit else 0)
  }

  lemma MapsBump(full: bool, m: Depth, lm: Depth, orders: map<OrderId, Maker>, orders': map<OrderId, Maker>,
                 side: Side, p: int, d: int, lit: int, shown: int)
    requires MapsAgree(full, m, lm, orders, side) && Differ(orders, orders', Slot(side, p), d, lit) && Plain(orders')
    requires full ==> shown == lit
    ensures MapsAgree(full, Bump(m, p, d), Bump(lm, p, shown), orders', side)
  {
    SumsNonNegative(orders', side, p);
    assert At(m, p) == Sum(orders, LeavesAt(side, p));
    BumpExact(m, p, d);
    if full {
      assert At(lm, p) == Sum(orders, LitAt(side, p));
      BumpExact(lm, p, lit);
    }
    hide Bump, Plain;
  }

  lemma MapsSame(full: bool, m: Depth, lm: Depth, orders: map<OrderId, Maker>, orders': map<OrderId, Maker>,
                 side: Side, s: Slot, d: int, lit: int)
    requires MapsAgree(full, m, lm, orders, side) && Differ(orders, orders', s, d, lit) && s.side != side
    ensures MapsAgree(full, m, lm, orders', side)
  {
  }

  /** Changing one level of the replica in step with the orders keeps the depths in agreement. */
  lemma BumpAgrees(full: bool, b: SymBook, orders: map<OrderId, Maker>, orders': map<OrderId, Maker>,
                   s: Slot, d: int, lit: int, shown: int)
    requires DepthAgrees(full, b, orders) && Plain(orders') && Differ(orders, orders', s, d, lit)
    requires full ==> shown == lit
    ensures DepthAgrees(full, b.BumpBoth(s.side, s.price, d, shown), orders')
    ensures b.BumpBoth(s.side, s.price, d, shown).orders == b.orders
  {
    hide Differ, MapsAgree, Plain, Bump;
    if s.side == Buy {
      MapsBump(full, b.bids, b.dispBids, orders, orders', Buy, s.price, d, lit, shown);
      MapsSame(full, b.asks, b.dispAsks, orders, orders', Sell, s, d, lit);
    } else {
      MapsBump(full, b.asks, b.dispAsks, orders, orders', Sell, s.price, d, lit, shown);
      MapsSame(full, b.bids, b.dispBids, orders, orders', Buy, s, d, lit);
    }
  }

  lemma PlainBook(c: Core)
    requires Inv(c)
    ensures Plain(c.orders)
  {
  }

  lemma AddDiffers(orders: map<OrderId, Maker>, id: OrderId, m: Maker)
    requires id !in orders
    ensures Differ(orders, orders[id := m], SlotOf(m), m.o.leaves, m.Lit())
  {
    SumAdd(orders, id, m);
  }

  lemma DropDiffers(orders: map<OrderId, Maker>, id: OrderId)
    requires id in orders
    ensures Differ(orders, orders - {id}, SlotOf(orders[id]), -orders[id].o.leaves, -orders[id].Lit())
  {
    SumDrop(orders, id);
  }

  lemma ReplaceDiffers(orders: map<OrderId, Maker>, id: OrderId, m: Maker)
    requires id in orders && SlotOf(m) == SlotOf(orders[id])
    ensures Differ(orders, orders[id := m], SlotOf(m), m.o.leaves - orders[id].o.leaves, m.Lit() - orders[id].Lit())
  {
    SumReplace(orders, id, m);
  }

  lemma JoinAgrees(full: bool, b: SymBook, c: Core, o: Order)
    requires Agrees(full, b, c.orders) && o.id !in c.orders && Plain(Rest(c, o).orders)
    ensures Agrees(full, ApplyEvent(b, NewEvents(c, Join(o))[0]), Rest(c, o).orders)
  {
    hide DepthAgrees, Differ, Plain, Bump;
    var m := Maker(o, o.FreshSlice());
    AddDiffers(c.orders, o.id, m);
    var b1 := b.(orders := b.orders[o.id := ViewOf(m)]);
    DepthOnly(full, b, b1, c.orders);
    BumpAgrees(full, b1, c.orders, c.orders[o.id := m], SlotOf(m), o.leaves, m.Lit(), m.Lit());
  }

  /** Depth agreement does not look at the replica's orders. */
  lemma DepthOnly(full: bool, b: SymBook, b': SymBook, orders: map<OrderId, Maker>)
    requires DepthAgrees(full, b, orders) && b' == b.(orders := b'.orders)
    ensures DepthAgrees(full, b', orders)
  {
  }

  lemma LeaveAgrees(full: bool, b: SymBook, c: Core, id: OrderId)
    requires Agrees(full, b, c.orders) && id in c.orders && c.orders[id].o.id == id && Plain(Withdraw(c, id).orders)
    ensures Agrees(full, ApplyEvent(b, NewEvents(c, Leave(id))[0]), Withdraw(c, id).orders)
  {
    hide DepthAgrees, Differ, Plain, Bump;
    var m := c.orders[id];
    DropDiffers(c.orders, id);
    var shown := b.orders[id].displayed;
    BumpAgrees(full, b, c.orders, c.orders - {id}, SlotOf(m), -m.o.leaves, -m.Lit(), -shown);
    var b1 := b.BumpBoth(m.o.side, m.o.price, -m.o.leaves, -shown);
    DepthOnly(full, b1, b1.(orders := b.orders - {id}), c.orders - {id});
  }

  lemma MoveDiffers(orders: map<OrderId, Maker>, id: OrderId, m': Maker)
    requires id in orders && Plain(orders)
    ensures var m := orders[id];
      && Plain(orders - {id})
      && Differ(orders, orders - {id}, SlotOf(m), -m.o.leaves, -m.Lit())
      && Differ(orders - {id}, orders[id := m'], SlotOf(m'), m'.o.leaves, m'.Lit())
  {
    DropDiffers(orders, id);
    AddDiffers(orders - {id}, id, m');
    assert (orders - {id})[id := m'] == orders[id := m'];
    hide Differ;
  }

  lemma ShiftDepth(full: bool, b: SymBook, orders: map<OrderId, Maker>, id: OrderId, m': Maker, shown: int)
    requires DepthAgrees(full, b, orders) && id in orders && Plain(orders) && Plain(orders[id := m'])
    requires full ==> shown == orders[id].Lit()
    ensures var m := orders[id];
      var b2 := b.BumpBoth(m.o.side, m.o.price, -m.o.leaves, -shown)
                 .BumpBoth(m'.o.side, m'.o.price, m'.o.leaves, m'.Lit());
      DepthAgrees(full, b2, orders[id := m']) && b2.orders == b.orders
  {
    hide DepthAgrees, Differ, Plain, SymBook.BumpBoth;
    var m := orders[id];
    MoveDiffers(orders, id, m');
    BumpAgrees(full, b, orders, orders - {id}, SlotOf(m), -m.o.leaves, -m.Lit(), -shown);
    var b1 := b.BumpBoth(m.o.side, m.o.price, -m.o.leaves, -shown);
    BumpAgrees(full, b1, orders - {id}, orders[id := m'], SlotOf(m'), m'.o.leaves, m'.Lit(), m'.Lit());
  }

  lemma MoveOrders(c: Core, id: OrderId, price: int)
    requires id in c.orders
    ensures Move(c, id, price).orders ==
      c.orders[id := c.orders[id].(o := c.orders[id].o.(price := price, rank := c.nextSeq))]
  {
  }

  lemma ShiftAgrees(full: bool, b: SymBook, c: Core, id: OrderId, price: int)
    requires Agrees(full, b, c.orders) && id in c.orders && c.orders[id].o.id == id
    requires Plain(c.orders) && Plain(Move(c, id, price).orders)
    ensures Agrees(full, ApplyEvent(b, NewEvents(c, Shift(id, price))[0]), Move(c, id, price).orders)
  {
    hide DepthAgrees, Plain, SymBook.BumpBoth, Move;
    var m := c.orders[id];
    var m' := m.(o := m.o.(price := price, rank := c.nextSeq));
    MoveOrders(c, id, price);
    var shown := b.orders[id].displayed;
    ShiftDepth(full, b, c.orders, id, m', shown);
    var b2 := b.BumpBoth(m.o.side, m.o.price, -m.o.leaves, -shown).BumpBoth(m.o.side, price, m.o.leaves, m.Lit());
    DepthOnly(full, b2, b2.(orders := b.orders[id := ViewOf(m')]), c.orders[id := m']);
  }

  /** The book right after the print of a fill, before any replenishment. */
  function AfterPrint(orders: map<OrderId, Maker>, id: OrderId, x: int): map<OrderId, Maker>
    requires id in orders
  {
    var m := Filled(orders[id], x);
    if m.o.leaves == 0 then orders - {id} else orders[id := m]
  }

  predicate MakerFillable(full: bool, m: Maker, x: int) {
    && 0 < x <= m.Exposed() && m.Exposed() <= m.o.leaves
    && (full ==> !(m.o.Has(Hidden) && m.o.IsIceberg()))
  }

  lemma PrintDiffers(orders: map<OrderId, Maker>, id: OrderId, x: int)
    requires id in orders && MakerFillable(false, orders[id], x) && Plain(orders)
    ensures Differ(orders, AfterPrint(orders, id, x), SlotOf(orders[id]), -x, -LitFill(orders[id], x))
    ensures Plain(AfterPrint(orders, id, x))
  {
    DropDiffers(orders, id);
    ReplaceDiffers(orders, id, Filled(orders[id], x));
    hide Differ;
  }

  lemma PrintAgrees(full: bool, b: SymBook, c: Core, o: Order, id: OrderId, x: int)
    requires Agrees(full, b, c.orders) && id in c.orders && c.orders[id].o.id == id
    requires MakerFillable(full, c.orders[id], x)
    requires Plain(c.orders)
    ensures Agrees(full, ApplyEvent(b, NewEvents(c, Fill(o, id, x))[0]), AfterPrint(c.orders, id, x))
  {
    hide DepthAgrees, Differ, Plain, SymBook.BumpBoth;
    var m := c.orders[id];
    var orders1 := AfterPrint(c.orders, id, x);
    PrintDiffers(c.orders, id, x);
    BumpAgrees(full, b, c.orders, orders1, SlotOf(m), -x, -LitFill(m, x), -LitFill(m, x));
    var b1 := b.BumpBoth(m.o.side, m.o.price, -x, -LitFill(m, x));
    var b2 := ApplyEvent(b, NewEvents(c, Fill(o, id, x))[0]);
    DepthOnly(full, b1, b2, orders1);
  }

  lemma ReplenishAgrees(full: bool, b: SymBook, orders: map<OrderId, Maker>, id: OrderId, m': Maker, ev: BookEvent)
    requires Agrees(full, b, orders) && id in orders && orders[id].o.id == id && Plain(orders)
    requires m'.o == orders[id].o.(rank := m'.o.rank) && m'.slice > 0
    requires m'.o.IsIceberg() && (full ==> !m'.o.Has(Hidden)) && orders[id].slice == 0
    requires ev.typ == EvReplenish && ev.id == id && ev.displayed == m'.slice
    ensures Agrees(full, ApplyEvent(b, ev), orders[id := m'])
  {
    ReplaceDiffers(orders, id, m');
    assert Plain(orders[id := m']);
    ZeroBump(full, b, orders, m'.o.side, m'.o.price);
    hide DepthAgrees, Differ, Plain, Bump;
    BumpAgrees(full, b, orders, orders[id := m'], SlotOf(m'), 0, m'.Lit() - orders[id].Lit(), m'.slice);
    var b1 := b.BumpBoth(m'.o.side, m'.o.price, 0, m'.slice);
    DepthOnly(full, b1, ApplyEvent(b, ev), orders[id := m']);
  }

  /** Adding nothing to a level changes nothing. */
  lemma ZeroBump(full: bool, b: SymBook, orders: map<OrderId, Maker>, side: Side, p: int)
    requires DepthAgrees(full, b, orders)
    ensures Bump(b.SideMap(side), p, 0) == b.SideMap(side)
  {
  }

  lemma FillAgrees(full: bool, b: SymBook, c: Core, o: Order, id: OrderId, x: int)
    requires Inv(c) && Agrees(full, b, c.orders) && id in c.orders && MakerFillable(full, c.orders[id], x)
    ensures Agrees(full, Replay(b, NewEvents(c, Fill(o, id, x))), Hit(c, o, id, x).orders)
  {
    hide Inv, Agrees, Plain, ApplyEvent, Differ, Hit, Print;
    PlainBook(c);
    MakerSound(c, id);
    PrintAgrees(full, b, c, o, id, x);
    PrintDiffers(c.orders, id, x);
    HitOrders(c, o, id, x);
    var evs := NewEvents(c, Fill(o, id, x));
    var m1 := Filled(c.orders[id], x);
    ReplayTwo(b, evs);
    if m1.o.leaves != 0 && m1.o.IsIceberg() && m1.slice == 0 {
      ReplenishAgrees(full, ApplyEvent(b, evs[0]), AfterPrint(c.orders, id, x), id, Replenished(m1, c.nextSeq), evs[1]);
    }
  }

  lemma HitOrders(c: Core, o: Order, id: OrderId, x: int)
    requires id in c.orders
    ensures var m := Filled(c.orders[id], x);
      Hit(c, o, id, x).orders ==
        if m.o.leaves != 0 && m.o.IsIceberg() && m.slice == 0
        then AfterPrint(c.orders, id, x)[id := Replenished(m, c.nextSeq)]
        else AfterPrint(c.orders, id, x)
  {
    var m := Filled(c.orders[id], x);
    assert c.orders[id := m][id := Replenished(m, c.nextSeq)] == c.orders[id := Replenished(m, c.nextSeq)];
  }

  lemma ReplayTwo(b: SymBook, evs: seq<BookEvent>)
    ensures |evs| == 0 ==> Replay(b, evs) == b
    ensures |evs| == 1 ==> Replay(b, evs) == ApplyEvent(b, evs[0])
    ensures |evs| == 2 ==> Replay(b, evs) == ApplyEvent(ApplyEvent(b, evs[0]), evs[1])
  {
    hide ApplyEvent;
    if |evs| == 1 {
      assert evs[1..] == [];
    } else if |evs| == 2 {
      var tl := evs[1..];
      assert tl[1..] == [];
      assert Replay(ApplyEvent(b, evs[0]), tl) == ApplyEvent(ApplyEvent(b, evs[0]), tl[0]);
    }
  }

  /** Each elementary change and the events it emits keep replica and book in agreement. */
  lemma DoAgrees(k: Kind, b: SymBook, c: Core, a: Atom)
    requires Inv(c) && (k.lit ==> LitBook(c)) && AtomOk(k, c, a) && Agrees(k.lit, b, c.orders)
    ensures Agrees(k.lit, Replay(b, NewEvents(c, a)), Do(c, a).orders)
  {
    hide Inv, Agrees, ApplyEvent, Plain, Hit;
    DoInv(k, c, a);
    PlainBook(c);
    PlainBook(Do(c, a));
    ReplayTwo(b, NewEvents(c, a));
    match a
    case Join(o) => JoinAgrees(k.lit, b, c, o);
    case Leave(id) => LeaveAgrees(k.lit, b, c, id);
    case Shift(id, price) => ShiftAgrees(k.lit, b, c, id, price);
    case Fill(o, id, x) =>
      MakerSound(c, id);
      FillAgrees(k.lit, b, c, o, id, x);
    case Note(o) => SilentEvent(k.lit, b, c, NewEvents(c, a)[0]);
    case Auctioned(_, _, _, _) => SilentEvent(k.lit, b, c, NewEvents(c, a)[0]);
    case _ =>
  }

  /** A trigger marker, or a trade of an order that does not rest, leaves the replica as it is. */
  lemma SilentEvent(full: bool, b: SymBook, c: Core, ev: BookEvent)
    requires Agrees(full, b, c.orders) && (ev.typ == EvTrigger || (ev.typ == EvTrade && ev.id !in c.orders))
    ensures ApplyEvent(b, ev) == b
  {
  }

  lemma {:induction false} PathAgrees(k: Kind, b: SymBook, c: Core, path: seq<Atom>)
    requires Inv(c) && GoodCore(k, c) && Fits(k, c, path) && Agrees(k.lit, b, c.orders)
    ensures var c' := After(k, c, path);
      c.events <= c'.events && Agrees(k.lit, Replay(b, c'.events[|c.events|..]), c'.orders)
    decreases |path|
  {
    hide Inv, Agrees, Do, ApplyEvent;
    if path != [] {
      var a := path[0];
      DoGood(k, c, a);
      DoAgrees(k, b, c, a);
      DoEvents(c, a);
      hide GoodCore;
      var c1 := Do(c, a);
      var b1 := Replay(b, NewEvents(c, a));
      PathAgrees(k, b1, c1, path[1..]);
      var c' := After(k, c, path);
      ReplayAppend(b, NewEvents(c, a), c'.events[|c1.events|..]);
      assert c'.events[|c.events|..] == NewEvents(c, a) + c'.events[|c1.events|..];
    }
  }

  /** Replaying the events a trace emitted brings an agreeing replica into agreement again. */
  lemma StepsAgree(k: Kind, b: SymBook, c: Core, c': Core)
    requires Inv(c) && GoodCore(k, c) && Steps(k, c, c') && Agrees(k.lit, b, c.orders)
    ensures c.events <= c'.events && Agrees(k.lit, Replay(b, c'.events[|c.events|..]), c'.orders)
  {
    hide Inv, GoodCore, Agrees;
    var path :| Fits(k, c, path) && After(k, c, path) == c';
    PathAgrees(k, b, c, path);
  }
}
