/** The state that continuous matching reads and writes, as one value, and the elementary changes
    made to it (src/core/order_book.cc).  Levels are abstracted to one FIFO of ids per slot (side and
    price); totals are sums over the id index.  `disp` is the displayed counter the code maintains
    per level, and `born` records which order each arrival sequence number was given to. */
module BookCore {
  import opened OrderTypes
  import opened BookSums

  datatype Slot = Slot(side: Side, price: int)

  type Queues = map<Slot, seq<OrderId>>

  datatype Position = Position(net: int, reservedSell: int, reservedBuy: int) {
    function Reserved(s: Side): int {
      if s == Sell then reservedSell else reservedBuy
    }

    function AddReserved(s: Side, d: int): Position {
      if s == Sell then this.(reservedSell := reservedSell + d) else this.(reservedBuy := reservedBuy + d)
    }
  }

  const FLAT := Position(0, 0, 0)

  datatype Core = Core(
    symbol: string,
    stp: StpPolicy,
    orders: map<OrderId, Maker>,
    q: Queues,
    disp: map<Slot, int>,
    pegged: set<OrderId>,
    positions: map<ClientId, Position>,
    last: Option<int>,
    nextSeq: SeqNo,
    requeued: seq<Order>,
    events: seq<BookEvent>,
    born: map<SeqNo, OrderId>)

  const NO_QUEUES: Queues := map[]

  function EmptyCore(symbol: string, stp: StpPolicy): Core {
    Core(symbol, stp, map[], NO_QUEUES, map[], {}, map[], None, 1, [], [], map[])
  }

  // ---------------------------------------------------------------- queues

  function Fifo(q: Queues, s: Slot): seq<OrderId> {
    if s in q then q[s] else []
  }

  function IndexOf(f: seq<OrderId>, id: OrderId): (i: nat)
    requires id in f
    ensures i < |f| && f[i] == id && id !in f[..i]
  {
    if f[0] == id then 0 else IndexOf(f[1..], id) + 1
  }

  function Without(f: seq<OrderId>, id: OrderId): seq<OrderId> {
    if id in f then var i := IndexOf(f, id); f[..i] + f[i + 1..] else f
  }

  lemma WithoutMembers(f: seq<OrderId>, id: OrderId)
    requires NoDup(f)
    ensures NoDup(Without(f, id))
    ensures forall x :: x in Without(f, id) <==> x in f && x != id
  {
    if id in f {
      CutMembers(f, IndexOf(f, id));
    }
  }

  lemma CutMembers(f: seq<OrderId>, i: nat)
    requires NoDup(f) && i < |f|
    ensures NoDup(f[..i] + f[i + 1..])
    ensures forall x :: x in f[..i] + f[i + 1..] <==> x in f && x != f[i]
  {
    var g := f[..i] + f[i + 1..];
    forall x | x in f && x != f[i] ensures x in g {
      var k :| 0 <= k < |f| && f[k] == x;
      assert g[if k < i then k else k - 1] == x;
    }
  }

  function SetFifo(q: Queues, s: Slot, f: seq<OrderId>): (r: Queues)
    ensures forall t :: Fifo(r, t) == if t == s then f else Fifo(q, t)
    ensures forall t :: t in r ==> t == s || t in q
  {
    if f == [] then q - {s} else q[s := f]
  }

  function Detach(q: Queues, s: Slot, id: OrderId): Queues {
    SetFifo(q, s, Without(Fifo(q, s), id))
  }

  function Attach(q: Queues, s: Slot, id: OrderId): Queues {
    SetFifo(q, s, Fifo(q, s) + [id])
  }

  function SlotOf(m: Maker): Slot {
    Slot(m.o.side, m.o.price)
  }

  /** Every resting id sits exactly once, in the FIFO of its own side and price. */
  ghost predicate FifoOk(orders: map<OrderId, Maker>, q: Queues) {
    && (forall s :: s in q ==> q[s] != [])
    && (forall s, id :: id in Fifo(q, s) ==> id in orders && SlotOf(orders[id]) == s)
    && (forall s {:trigger NoDup(Fifo(q, s))} :: NoDup(Fifo(q, s)))
    && (forall id :: id in orders ==> id in Fifo(q, SlotOf(orders[id])))
  }

  lemma SlotMember(c: Core, s: Slot, i: nat)
    requires Inv(c) && i < |Fifo(c.q, s)|
    ensures var id := Fifo(c.q, s)[i];
      && id in c.orders && SlotOf(c.orders[id]) == s && c.orders[id].o.id == id
      && 0 < c.orders[id].Exposed() <= c.orders[id].o.leaves
  {
    assert Fifo(c.q, s)[i] in Fifo(c.q, s);
  }

  lemma DetachOk(orders: map<OrderId, Maker>, q: Queues, id: OrderId)
    requires FifoOk(orders, q) && id in orders
    ensures FifoOk(orders - {id}, Detach(q, SlotOf(orders[id]), id))
  {
    var s := SlotOf(orders[id]);
    var f := Without(Fifo(q, s), id);
    var q' := SetFifo(q, s, f);
    WithoutMembers(Fifo(q, s), id);
    FifoSubset(orders, q, orders - {id}, q', id);
  }

  /** A book whose queues are those of `orders` with `id` taken out is well formed. */
  lemma FifoSubset(orders: map<OrderId, Maker>, q: Queues, orders': map<OrderId, Maker>, q': Queues, id: OrderId)
    requires FifoOk(orders, q) && orders' == orders - {id}
    requires forall t :: NoDup(Fifo(q', t))
    requires forall t, x :: x in Fifo(q', t) <==> x in Fifo(q, t) && x != id
    requires forall t :: t in q' ==> q'[t] != []
    ensures FifoOk(orders', q')
  {
    hide NoDup, Fifo, SlotOf;
    forall t, x | x in Fifo(q', t) ensures x in orders' && SlotOf(orders'[x]) == t {
      assert x in Fifo(q, t);
    }
    forall x | x in orders' ensures x in Fifo(q', SlotOf(orders'[x])) {
      assert x in Fifo(q, SlotOf(orders[x]));
    }
  }

  lemma AttachOk(orders: map<OrderId, Maker>, q: Queues, id: OrderId, m: Maker)
    requires FifoOk(orders, q) && id !in orders
    ensures FifoOk(orders[id := m], Attach(q, SlotOf(m), id))
  {
    var s := SlotOf(m);
    var q' := Attach(q, s, id);
    forall t | t in q' ensures q'[t] != [] { assert q'[t] == Fifo(q', t); }
    assert id !in Fifo(q, s);
    forall t ensures NoDup(Fifo(q', t)) {
      assert NoDup(Fifo(q, t));
    }
    forall t, x | x in Fifo(q', t) ensures x in orders[id := m] && SlotOf(orders[id := m][x]) == t {
      if x != id { assert x in Fifo(q, t); }
    }
  }

  lemma ReplaceOk(orders: map<OrderId, Maker>, q: Queues, id: OrderId, m: Maker)
    requires FifoOk(orders, q) && id in orders && SlotOf(m) == SlotOf(orders[id])
    ensures FifoOk(orders[id := m], q)
  {
    var orders' := orders[id := m];
    forall s, x | x in Fifo(q, s) ensures x in orders' && SlotOf(orders'[x]) == s {
      assert x in orders && SlotOf(orders[x]) == s;
    }
    forall x | x in orders' ensures x in Fifo(q, SlotOf(orders'[x])) {
      assert x in orders;
    }
  }

  /** Moving an order to the back of the queue of slot `SlotOf(m)`. */
  lemma RequeueOk(orders: map<OrderId, Maker>, q: Queues, id: OrderId, m: Maker)
    requires FifoOk(orders, q) && id in orders
    ensures FifoOk(orders[id := m], Attach(Detach(q, SlotOf(orders[id]), id), SlotOf(m), id))
  {
    var orders1 := orders - {id};
    var q1 := Detach(q, SlotOf(orders[id]), id);
    DetachOk(orders, q, id);
    assert orders1[id := m] == orders[id := m];
    assert FifoOk(orders1[id := m], Attach(q1, SlotOf(m), id)) by {
      AttachOk(orders1, q1, id, m);
    }
  }

  // ------------------------------------------------------- displayed counters

  function Disp(d: map<Slot, int>, s: Slot): int {
    if s in d then d[s] else 0
  }

  function AddDisp(d: map<Slot, int>, s: Slot, x: int): (r: map<Slot, int>)
    ensures forall t :: Disp(r, t) == Disp(d, t) + if t == s then x else 0
  {
    d[s := Disp(d, s) + x]
  }

  // --------------------------------------------------------------- positions

  function PositionOf(ps: map<ClientId, Position>, c: ClientId): Position {
    if c in ps then ps[c] else FLAT
  }

  function Signed(s: Side, x: int): int {
    if s == Buy then x else -x
  }

  /** apply_position: a fill moves the account's net position; anonymous accounts have none. */
  function ApplyFill(ps: map<ClientId, Position>, c: ClientId, s: Side, x: int): map<ClientId, Position> {
    if c == 0 then ps
    else ps[c := PositionOf(ps, c).(net := PositionOf(ps, c).net + Signed(s, x))]
  }

  /** Commit `x` of a resting reduce-only order's quantity (negative `x` releases it). */
  function Reserve(ps: map<ClientId, Position>, o: Order, x: int): map<ClientId, Position> {
    if !o.Has(ReduceOnly) || o.client == 0 then ps
    else ps[o.client := PositionOf(ps, o.client).AddReserved(o.side, x)]
  }

  /** release_reserved: unlike `Reserve` it leaves an account without an entry alone. */
  function Release(ps: map<ClientId, Position>, o: Order, x: int): map<ClientId, Position> {
    if o.client in ps then Reserve(ps, o, -x) else ps
  }

  // ------------------------------------------------------------------ events

  function OrderEvent(symbol: string, typ: EventType, o: Order, qty: int, displayed: int): BookEvent {
    BookEvent(0, symbol, typ, o.id, 0, o.side, o.price, 0, qty, displayed)
  }

  function TradeEvent(symbol: string, t: Trade, displayed: int): BookEvent {
    BookEvent(0, symbol, EvTrade, t.maker, t.taker, t.takerSide, t.price, 0, t.qty, displayed)
  }

  function RepriceEvent(symbol: string, o: Order, oldPrice: int, qty: int, displayed: int): BookEvent {
    BookEvent(0, symbol, EvReprice, o.id, 0, o.side, o.price, oldPrice, qty, displayed)
  }

  // --------------------------------------------------------------- invariant

  /** The order's arrival number was given to it, and its rank has been handed out. */
  predicate Stamped(o: Order, nextSeq: SeqNo, born: map<SeqNo, OrderId>) {
    o.rank < nextSeq && o.seqNo in born && born[o.seqNo] == o.id
  }

  /** An order that may enter the book: positive remainder and, for an iceberg, a positive slice size. */
  predicate Restable(o: Order, nextSeq: SeqNo, born: map<SeqNo, OrderId>) {
    o.leaves > 0 && (o.IsIceberg() ==> o.displayQty > 0) && Stamped(o, nextSeq, born)
  }

  predicate MakerOk(id: OrderId, m: Maker, nextSeq: SeqNo, born: map<SeqNo, OrderId>) {
    && m.o.id == id && Restable(m.o, nextSeq, born)
    && (if m.o.IsIceberg() then 0 < m.slice <= m.o.leaves && m.slice <= m.o.displayQty else m.slice == 0)
  }

  ghost predicate MakersOk(orders: map<OrderId, Maker>, nextSeq: SeqNo, born: map<SeqNo, OrderId>) {
    forall id :: id in orders ==> MakerOk(id, orders[id], nextSeq, born)
  }

  ghost predicate BornOk(nextSeq: SeqNo, born: map<SeqNo, OrderId>) {
    forall n :: n in born ==> n < nextSeq
  }

  ghost predicate PegsOk(orders: map<OrderId, Maker>, pegged: set<OrderId>) {
    forall id :: id in pegged ==> id in orders && orders[id].o.peg.Some?
  }

  /** The representation invariant of the resting book. */
  ghost predicate Inv(c: Core) {
    && FifoOk(c.orders, c.q)
    && MakersOk(c.orders, c.nextSeq, c.born)
    && BornOk(c.nextSeq, c.born)
    && PegsOk(c.orders, c.pegged)
  }

  lemma MakerSound(c: Core, id: OrderId)
    requires Inv(c) && id in c.orders
    ensures MakerOk(id, c.orders[id], c.nextSeq, c.born)
  {
  }

  /** The displayed counter of every level is the exact sum over its orders. */
  ghost predicate LitExact(c: Core) {
    forall s: Slot :: Disp(c.disp, s) == Sum(c.orders, LitAt(s.side, s.price))
  }

  /** Every reservation counter is the exact sum over the account's resting reduce-only orders. */
  ghost predicate ReservedExact(c: Core) {
    forall a: ClientId, s: Side :: a != 0 ==>
      PositionOf(c.positions, a).Reserved(s) == Sum(c.orders, ReservedOf(a, s))
  }

  /** The matchable quantity of a level: the summed leaves of its orders. */
  ghost function Total(c: Core, s: Slot): int {
    Sum(c.orders, LeavesAt(s.side, s.price))
  }

  /** A level holds quantity exactly when its queue is not empty. */
  lemma TotalPositive(c: Core, s: Slot)
    requires Inv(c)
    ensures Total(c, s) >= 0
    ensures Total(c, s) > 0 <==> Fifo(c.q, s) != []
  {
    var k := LeavesAt(s.side, s.price);
    SumZero(c.orders, k);
    if Fifo(c.q, s) != [] {
      var id := Fifo(c.q, s)[0];
      assert id in Fifo(c.q, s);
      assert Weight(k, c.orders[id]) > 0;
    } else {
      forall id | id in c.orders ensures Weight(k, c.orders[id]) == 0 {
        assert id in Fifo(c.q, SlotOf(c.orders[id]));
      }
    }
  }

  // ------------------------------------------------------ elementary changes

  /** Rest `o` at the back of its level (src/core/order_book.cc, rest, unbounded window). */
  function Rest(c: Core, o: Order): Core {
    var m := Maker(o, o.FreshSlice());
    c.(orders := c.orders[o.id := m],
       q := Attach(c.q, SlotOf(m), o.id),
       disp := AddDisp(c.disp, SlotOf(m), m.Lit()),
       positions := Reserve(c.positions, o, o.leaves),
       events := c.events + [OrderEvent(c.symbol, EvAdd, o, o.leaves, m.Lit())])
  }

  /** An order leaves the book other than by a fill: explicit cancel, expiry, self-trade prevention. */
  function Withdraw(c: Core, id: OrderId): Core
    requires id in c.orders
  {
    var m := c.orders[id];
    DropMaker(c, id).(
       disp := AddDisp(c.disp, SlotOf(m), -m.Lit()),
       positions := Release(c.positions, m.o, m.o.leaves),
       events := c.events + [OrderEvent(c.symbol, EvCancel, m.o, m.o.leaves, m.Lit())])
  }

  /** A pegged order moves to `price`, at the back of that level and with a fresh rank. */
  function Move(c: Core, id: OrderId, price: int): Core
    requires id in c.orders
  {
    var m := c.orders[id];
    var m' := m.(o := m.o.(price := price, rank := c.nextSeq));
    c.(orders := c.orders[id := m'],
       q := Attach(Detach(c.q, SlotOf(m), id), SlotOf(m'), id),
       disp := AddDisp(AddDisp(c.disp, SlotOf(m), -m.Lit()), SlotOf(m'), m'.Lit()),
       nextSeq := c.nextSeq + 1,
       requeued := c.requeued + [m'.o],
       events := c.events + [RepriceEvent(c.symbol, m'.o, m.o.price, m'.o.leaves, m'.Lit())])
  }

  /** Maker `m` after a fill of `x`, before any replenishment. */
  function Filled(m: Maker, x: int): Maker {
    Maker(m.o.(leaves := m.o.leaves - x, filled := m.o.filled + x),
          if m.o.IsIceberg() then m.slice - x else m.slice)
  }

  /** An exhausted iceberg refreshes its slice and takes a fresh rank. */
  function Replenished(m: Maker, rank: SeqNo): Maker {
    Maker(m.o.(rank := rank), Min(m.o.displayQty, m.o.leaves))
  }

  function LitFill(m: Maker, x: int): int {
    if m.o.Has(Hidden) then 0 else x
  }

  /** The effects common to every fill: event, last price, positions, displayed counter. */
  function Print(c: Core, o: Order, m: Maker, x: int): Core {
    var t := Trade(o.id, m.o.id, o.side, m.o.price, x);
    c.(disp := AddDisp(c.disp, SlotOf(m), -LitFill(m, x)),
       positions := Release(ApplyFill(ApplyFill(c.positions, o.client, o.side, x), m.o.client, m.o.side, x), m.o, x),
       last := Some(m.o.price),
       events := c.events + [TradeEvent(c.symbol, t, LitFill(m, x))])
  }

  /** The entry of `id` leaves the index and its queue. */
  function DropMaker(c: Core, id: OrderId): Core
    requires id in c.orders
  {
    c.(orders := c.orders - {id}, q := Detach(c.q, SlotOf(c.orders[id]), id), pegged := c.pegged - {id})
  }

  /** Iceberg `id`, now `m` with an exhausted slice, replenishes and goes to the back of its level. */
  function RequeueMaker(c: Core, id: OrderId, m: Maker): Core
    requires id in c.orders
  {
    var m' := Replenished(m, c.nextSeq);
    c.(orders := c.orders[id := m'],
       q := Attach(Detach(c.q, SlotOf(c.orders[id]), id), SlotOf(c.orders[id]), id),
       disp := AddDisp(c.disp, SlotOf(c.orders[id]), m'.slice),
       nextSeq := c.nextSeq + 1,
       requeued := c.requeued + [m'.o],
       events := c.events + [OrderEvent(c.symbol, EvReplenish, m'.o, m'.slice, m'.slice)])
  }

  /** Aggressor `o` takes `x` from maker `id`: the maker leaves, re-queues or stays in place. */
  function Hit(c: Core, o: Order, id: OrderId, x: int): Core
    requires id in c.orders
  {
    var m := Filled(c.orders[id], x);
    var c1 := Print(c, o, c.orders[id], x);
    if m.o.leaves == 0 then DropMaker(c1, id)
    else if m.o.IsIceberg() && m.slice == 0 then RequeueMaker(c1, id, m)
    else c1.(orders := c1.orders[id := m])
  }

  // -------------------------------------------- the invariant is preserved

  lemma RestInv(c: Core, o: Order)
    requires Inv(c) && o.id !in c.orders && Restable(o, c.nextSeq, c.born)
    ensures Inv(Rest(c, o))
  {
    AttachOk(c.orders, c.q, o.id, Maker(o, o.FreshSlice()));
  }

  lemma WithdrawInv(c: Core, id: OrderId)
    requires Inv(c) && id in c.orders
    ensures Inv(Withdraw(c, id))
  {
    DetachOk(c.orders, c.q, id);
  }

  lemma MoveInv(c: Core, id: OrderId, price: int)
    requires Inv(c) && id in c.orders
    ensures Inv(Move(c, id, price))
  {
    hide FifoOk, MakersOk, BornOk, Attach, Detach, AddDisp;
    RequeueOk(c.orders, c.q, id, Move(c, id, price).orders[id]);
    MoveMakers(c, id, price);
    BornLater(c.nextSeq, c.born);
  }

  lemma BornLater(nextSeq: SeqNo, born: map<SeqNo, OrderId>)
    requires BornOk(nextSeq, born)
    ensures BornOk(nextSeq + 1, born)
  {
  }

  lemma MoveMakers(c: Core, id: OrderId, price: int)
    requires MakersOk(c.orders, c.nextSeq, c.born) && id in c.orders
    ensures MakersOk(Move(c, id, price).orders, c.nextSeq + 1, c.born)
  {
    hide Attach, Detach, AddDisp;
  }

  lemma HitInv(c: Core, o: Order, id: OrderId, x: int)
    requires Inv(c) && id in c.orders && 0 < x <= c.orders[id].Exposed()
    ensures Inv(Hit(c, o, id, x))
  {
    var m := c.orders[id];
    var m1 := Filled(m, x);
    if m1.o.leaves == 0 {
      DetachOk(c.orders, c.q, id);
    } else if m.o.IsIceberg() && m1.slice == 0 {
      HitInvRequeue(c, o, id, x);
    } else {
      HitInvKeep(c, o, id, x);
    }
  }

  lemma HitInvRequeue(c: Core, o: Order, id: OrderId, x: int)
    requires Inv(c) && id in c.orders && 0 < x < c.orders[id].o.leaves
    requires c.orders[id].o.IsIceberg() && c.orders[id].slice == x
    ensures Inv(Hit(c, o, id, x))
  {
    RequeueOk(c.orders, c.q, id, Replenished(Filled(c.orders[id], x), c.nextSeq));
  }

  lemma HitInvKeep(c: Core, o: Order, id: OrderId, x: int)
    requires Inv(c) && id in c.orders && 0 < x < c.orders[id].o.leaves
    requires c.orders[id].o.IsIceberg() ==> x < c.orders[id].slice
    ensures Inv(Hit(c, o, id, x))
  {
    ReplaceOk(c.orders, c.q, id, Filled(c.orders[id], x));
  }

  // ------------------------------------------------- effect on level totals

  lemma RestTotals(c: Core, o: Order)
    requires o.id !in c.orders
    ensures forall s :: Total(Rest(c, o), s) == Total(c, s) + if s == Slot(o.side, o.price) then o.leaves else 0
  {
    SumAdd(c.orders, o.id, Maker(o, o.FreshSlice()));
  }

  lemma WithdrawTotals(c: Core, id: OrderId)
    requires id in c.orders
    ensures var m := c.orders[id];
      forall s :: Total(Withdraw(c, id), s) == Total(c, s) - if s == SlotOf(m) then m.o.leaves else 0
  {
    SumDrop(c.orders, id);
  }

  lemma MoveTotals(c: Core, id: OrderId, price: int)
    requires id in c.orders
    ensures var m := c.orders[id];
      forall s :: Total(Move(c, id, price), s) ==
        Total(c, s) - (if s == SlotOf(m) then m.o.leaves else 0)
                    + (if s == Slot(m.o.side, price) then m.o.leaves else 0)
  {
    SumReplace(c.orders, id, Move(c, id, price).orders[id]);
  }

  lemma HitTotals(c: Core, o: Order, id: OrderId, x: int)
    requires id in c.orders
    ensures forall s :: Total(Hit(c, o, id, x), s) == Total(c, s) - if s == SlotOf(c.orders[id]) then x else 0
  {
    var m1 := Filled(c.orders[id], x);
    SumDrop(c.orders, id);
    SumReplace(c.orders, id, m1);
    SumReplace(c.orders, id, Replenished(m1, c.nextSeq));
  }

  // ------------------------------------------------------- untouched levels

  ghost predicate SameLevel(c: Core, c': Core, s: Slot) {
    Fifo(c'.q, s) == Fifo(c.q, s) && Total(c', s) == Total(c, s) && Disp(c'.disp, s) == Disp(c.disp, s)
  }

  /** Every level outside `ex` is the same in `c` and `c'`. */
  ghost predicate SameExcept(c: Core, c': Core, ex: set<Slot>) {
    forall s :: s !in ex ==> SameLevel(c, c', s)
  }

  lemma RestSame(c: Core, o: Order)
    requires o.id !in c.orders
    ensures SameExcept(c, Rest(c, o), {Slot(o.side, o.price)})
  {
    RestTotals(c, o);
  }

  lemma WithdrawSame(c: Core, id: OrderId)
    requires id in c.orders
    ensures SameExcept(c, Withdraw(c, id), {SlotOf(c.orders[id])})
  {
    WithdrawTotals(c, id);
  }

  lemma MoveSame(c: Core, id: OrderId, price: int)
    requires id in c.orders
    ensures SameExcept(c, Move(c, id, price), {SlotOf(c.orders[id]), Slot(c.orders[id].o.side, price)})
  {
    MoveTotals(c, id, price);
  }

  lemma HitSame(c: Core, o: Order, id: OrderId, x: int)
    requires id in c.orders
    ensures SameExcept(c, Hit(c, o, id, x), {SlotOf(c.orders[id])})
  {
    HitTotals(c, o, id, x);
  }
}
