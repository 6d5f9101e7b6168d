/** Every operation on the book is a sequence of elementary changes ("atoms").  A property that
    every atom keeps therefore holds after every operation.  The kind of a trace records what is
    known about the orders that took part in it. */
module Traces {
  import opened OrderTypes
  import opened BookSums
  import opened BookCore
  import opened Matching
  import opened Sessions

  datatype Atom =
    | Join(o: Order)
    | Leave(id: OrderId)
    | Shift(id: OrderId, price: int)
    | Fill(o: Order, id: OrderId, x: int)
    | Note(o: Order)
    | Tag(id: OrderId)
    | Number(id: OrderId)
    | Auctioned(b: Maker, s: Maker, p: int, x: int)
    | Priced(p: int)
    | Seeded(client: ClientId, net: int)
    | Skip(n: SeqNo)
    | Drain

  /** - lit: no order is both hidden and iceberg;
      - clean: no order rests all-or-none or pegged, or at a price somebody opposite accepts;
      - ranked: no order joins a level behind one with a later rank;
      - still: no stop fires and no auction remainder enters the book;
      - apart: no order of that account is an aggressor, joins the book or trades in an auction;
      - owners: who owns each order that may trade; no position is seeded meanwhile. */
  datatype Kind = Kind(
    lit: bool,
    clean: bool,
    ranked: bool,
    still: bool,
    apart: Option<ClientId>,
    owners: Option<map<OrderId, ClientId>>)

  const ANY := Kind(false, false, false, false, None, None)

  /** An order that may trade in a trace of kind `k`. */
  predicate Foreign(k: Kind, o: Order) {
    && (k.apart.Some? ==> o.client != k.apart.value)
    && (k.owners.Some? ==> o.id in k.owners.value && k.owners.value[o.id] == o.client)
  }

  predicate GoodOrder(k: Kind, o: Order) {
    && (k.lit ==> !(o.Has(Hidden) && o.IsIceberg()))
    && (k.clean ==> o.peg.None? && (o.Has(Aon) ==> o.Discards()))
    && Foreign(k, o)
  }

  function Do(c: Core, a: Atom): Core
    requires a.Leave? || a.Shift? || a.Fill? ==> a.id in c.orders
  {
    match a
    case Join(o) => Rest(c, o)
    case Leave(id) => Withdraw(c, id)
    case Shift(id, price) => Move(c, id, price)
    case Fill(o, id, x) => Hit(c, o, id, x)
    case Note(o) => Announce(c, o)
    case Tag(id) => c.(pegged := c.pegged + {id})
    case Number(id) => StampCore(c, id)
    case Auctioned(b, s, p, x) =>
      c.(positions := ApplyFill(ApplyFill(c.positions, b.o.client, Buy, x), s.o.client, Sell, x),
         events := c.events + [TradeEvent(c.symbol, Trade(b.o.id, s.o.id, Buy, p, x), LitFill(s, x))])
    case Priced(p) => c.(last := Some(p))
    case Seeded(client, net) => Seed(c, client, net)
    case Skip(n) => c.(nextSeq := n)
    case Drain => c.(requeued := [])
  }

  /** The order without its discretion band: it reaches as far as the price it rests at. */
  function Limited(o: Order): Order {
    o.(flags := o.flags - {Discretion})
  }

  /** No resting contra order is at a price `o` accepts. */
  ghost predicate NoCross(c: Core, o: Order) {
    forall id :: id in c.orders ==> !Reaches(o, c.orders[id])
  }

  /** `o` outranks nobody in the level it joins. */
  ghost predicate RankLast(c: Core, o: Order) {
    forall id :: id in c.orders && SlotOf(c.orders[id]) == Slot(o.side, o.price) ==> c.orders[id].o.rank < o.rank
  }

  ghost predicate AtomOk(k: Kind, c: Core, a: Atom) {
    match a
    case Join(o) =>
      && o.id !in c.orders && Restable(o, c.nextSeq, c.born) && GoodOrder(k, o)
      && (k.clean ==> o.typ == Limit && !o.Has(Aon) && NoCross(c, Limited(o)))
      && (k.ranked ==> RankLast(c, o))
    case Leave(id) => id in c.orders
    case Shift(id, price) => id in c.orders && !k.clean
    case Fill(o, id, x) =>
      && id in c.orders && 0 < x <= c.orders[id].Exposed() && o.side == c.orders[id].o.side.Opposite()
      && Foreign(k, o)
    case Tag(id) => id in c.orders && c.orders[id].o.peg.Some? && !k.clean
    case Auctioned(b, s, p, x) =>
      && x > 0 && b.o.id !in c.orders && s.o.id !in c.orders
      && Foreign(k, b.o) && Foreign(k, s.o)
    case Seeded(client, net) => k.apart != Some(client) && k.owners.None?
    case Skip(n) => n > c.nextSeq
    case _ => true
  }

  /** The only changes of rank are reported: an order that was there and has another rank has just taken a
      fresh one, and is the one order added to the list of moved orders. */
  lemma DoReports(k: Kind, c: Core, a: Atom, id: OrderId)
    requires AtomOk(k, c, a) && id in c.orders && id in Do(c, a).orders
    ensures var o, o' := c.orders[id].o, Do(c, a).orders[id].o;
      && (o'.rank == o.rank ==> o'.price == o.price || Do(c, a).requeued != c.requeued)
      && (o'.rank != o.rank ==>
            && o'.rank == c.nextSeq < Do(c, a).nextSeq
            && Do(c, a).requeued == c.requeued + [o'])
  {
    hide Restable, GoodOrder, Foreign, RankLast, NoCross, AddDisp, Reserve, ApplyFill, Attach, Detach, Release;
  }

  lemma DoInv(k: Kind, c: Core, a: Atom)
    requires Inv(c) && AtomOk(k, c, a)
    ensures Inv(Do(c, a))
  {
    match a
    case Join(o) => RestInv(c, o);
    case Leave(id) => WithdrawInv(c, id);
    case Shift(id, price) => MoveInv(c, id, price);
    case Fill(o, id, x) => HitInv(c, o, id, x);
    case _ =>
  }

  // ----------------------------------------------------------------- paths

  ghost predicate Fits(k: Kind, c: Core, path: seq<Atom>)
    decreases |path|
  {
    path != [] ==> AtomOk(k, c, path[0]) && Fits(k, Do(c, path[0]), path[1..])
  }

  ghost function After(k: Kind, c: Core, path: seq<Atom>): Core
    requires Fits(k, c, path)
    decreases |path|
  {
    if path == [] then c else After(k, Do(c, path[0]), path[1..])
  }

  /** `c'` is reached from `c` by atoms of kind `k`. */
  ghost predicate Steps(k: Kind, c: Core, c': Core) {
    exists path :: Fits(k, c, path) && After(k, c, path) == c'
  }

  lemma StepsNone(k: Kind, c: Core)
    ensures Steps(k, c, c)
  {
    assert Fits(k, c, []) && After(k, c, []) == c;
  }

  lemma StepsOne(k: Kind, c: Core, a: Atom)
    requires AtomOk(k, c, a)
    ensures Steps(k, c, Do(c, a))
  {
    var path := [a];
    assert path[1..] == [];
    assert Fits(k, Do(c, a), []) && After(k, Do(c, a), []) == Do(c, a);
    assert Fits(k, c, path);
    assert After(k, c, path) == After(k, Do(c, a), path[1..]);
  }

  lemma {:induction false} PathAppend(k: Kind, c: Core, p: seq<Atom>, q: seq<Atom>)
    requires Fits(k, c, p) && Fits(k, After(k, c, p), q)
    ensures Fits(k, c, p + q) && After(k, c, p + q) == After(k, After(k, c, p), q)
    decreases |p|
  {
    if p == [] {
      assert p + q == q;
    } else {
      PathAppend(k, Do(c, p[0]), p[1..], q);
      assert (p + q)[0] == p[0] && (p + q)[1..] == p[1..] + q;
    }
  }

  lemma StepsTrans(k: Kind, c: Core, c1: Core, c2: Core)
    requires Steps(k, c, c1) && Steps(k, c1, c2)
    ensures Steps(k, c, c2)
  {
    var p :| Fits(k, c, p) && After(k, c, p) == c1;
    var q :| Fits(k, c1, q) && After(k, c1, q) == c2;
    PathAppend(k, c, p, q);
  }

  lemma StepsThen(k: Kind, c: Core, c1: Core, a: Atom)
    requires Steps(k, c, c1) && AtomOk(k, c1, a)
    ensures Steps(k, c, Do(c1, a))
  {
    StepsOne(k, c1, a);
    StepsTrans(k, c, c1, Do(c1, a));
  }

  // --------------------------------------------------- what a kind ensures

  /** Every bid is below every ask. */
  ghost predicate Uncrossed(c: Core) {
    forall a, b :: a in c.orders && b in c.orders && c.orders[a].o.side == Buy && c.orders[b].o.side == Sell ==>
      c.orders[a].o.price < c.orders[b].o.price
  }

  ghost predicate RankedQueue(c: Core, f: seq<OrderId>) {
    forall i, j :: 0 <= i < j < |f| && f[i] in c.orders && f[j] in c.orders ==>
      c.orders[f[i]].o.rank < c.orders[f[j]].o.rank
  }

  /** Every level's FIFO is strictly increasing in rank. */
  ghost predicate RankedBook(c: Core) {
    forall s {:trigger RankedQueue(c, Fifo(c.q, s))} :: RankedQueue(c, Fifo(c.q, s))
  }

  ghost predicate CleanBook(c: Core) {
    && (forall id :: id in c.orders ==> !c.orders[id].o.Has(Aon) && c.orders[id].o.typ == Limit)
    && c.pegged == {} && Uncrossed(c)
  }

  ghost predicate LitBook(c: Core) {
    forall id :: id in c.orders ==> !(c.orders[id].o.Has(Hidden) && c.orders[id].o.IsIceberg())
  }

  ghost predicate OwnedBook(owners: map<OrderId, ClientId>, c: Core) {
    forall id :: id in c.orders ==> id in owners && owners[id] == c.orders[id].o.client
  }

  /** What holds of the resting book in a trace of kind `k`. */
  ghost predicate GoodCore(k: Kind, c: Core) {
    && (k.owners.Some? ==> OwnedBook(k.owners.value, c))
    && (k.lit ==> LitBook(c))
    && (k.clean ==> CleanBook(c))
    && (k.ranked ==> RankedBook(c))
  }

  lemma DoLit(k: Kind, c: Core, a: Atom)
    requires AtomOk(k, c, a) && k.lit && LitBook(c)
    ensures LitBook(Do(c, a))
  {
  }

  lemma DoOwned(k: Kind, c: Core, a: Atom)
    requires AtomOk(k, c, a) && k.owners.Some? && OwnedBook(k.owners.value, c)
    ensures OwnedBook(k.owners.value, Do(c, a))
  {
    match a
    case Fill(o, id, x) =>
      HitEvolves(c, o, id, x);
      hide Hit;
    case _ => hide Hit;
  }

  lemma DoClean(k: Kind, c: Core, a: Atom)
    requires AtomOk(k, c, a) && k.clean && CleanBook(c)
    ensures CleanBook(Do(c, a))
  {
    match a
    case Join(o) => JoinClean(c, o);
    case Fill(o, id, x) => HitEvolves(c, o, id, x);
    case _ =>
  }

  lemma JoinClean(c: Core, o: Order)
    requires CleanBook(c) && o.typ == Limit && !o.Has(Aon) && NoCross(c, Limited(o))
    ensures CleanBook(Rest(c, o))
  {
    forall id | id in c.orders && c.orders[id].o.side != o.side
      ensures if o.side == Buy then o.price < c.orders[id].o.price else o.price > c.orders[id].o.price
    {
      assert !Reaches(Limited(o), c.orders[id]);
    }
  }

  /** Taking an order out of a queue keeps the queue increasing in rank. */
  lemma WithoutRanked(c: Core, f: seq<OrderId>, id: OrderId)
    requires RankedQueue(c, f)
    ensures RankedQueue(c, Without(f, id))
  {
    if id in f {
      hide RankedQueue, IndexOf;
      CutRanked(c, f, IndexOf(f, id));
    }
  }

  lemma CutRanked(c: Core, f: seq<OrderId>, n: nat)
    requires RankedQueue(c, f) && n < |f|
    ensures RankedQueue(c, f[..n] + f[n + 1..])
  {
    var g := f[..n] + f[n + 1..];
    forall i, j | 0 <= i < j < |g| && g[i] in c.orders && g[j] in c.orders
      ensures c.orders[g[i]].o.rank < c.orders[g[j]].o.rank
    {
      var a, b := if i < n then i else i + 1, if j < n then j else j + 1;
      assert g[i] == f[a] && g[j] == f[b];
    }
  }

  /** A queue increasing in rank stays so when an order with the highest rank goes to the back. */
  lemma PushRanked(c: Core, c': Core, f: seq<OrderId>, id: OrderId)
    requires RankedQueue(c, f) && id in c'.orders && id !in f
    requires forall x :: x in f ==> x in c.orders && x in c'.orders && c'.orders[x].o.rank == c.orders[x].o.rank
    requires forall x :: x in f ==> c.orders[x].o.rank < c'.orders[id].o.rank
    ensures RankedQueue(c', f + [id])
  {
    var g := f + [id];
    forall i, j | 0 <= i < j < |g| ensures c'.orders[g[i]].o.rank < c'.orders[g[j]].o.rank {
      assert g[i] == f[i] && f[i] in f;
      if j < |f| { assert g[j] == f[j] && f[j] in f; }
    }
  }

  lemma SameRanks(c: Core, c': Core, f: seq<OrderId>)
    requires RankedQueue(c, f)
    requires forall x :: x in f && x in c'.orders ==> x in c.orders && c'.orders[x].o.rank == c.orders[x].o.rank
    ensures RankedQueue(c', f)
  {
    forall i, j | 0 <= i < j < |f| && f[i] in c'.orders && f[j] in c'.orders
      ensures c'.orders[f[i]].o.rank < c'.orders[f[j]].o.rank
    {
      assert f[i] in f && f[j] in f;
    }
  }

  /** Order `id` moves to the back of slot `s` with the next rank. */
  lemma RequeueRanked(c: Core, c': Core, id: OrderId, s: Slot)
    requires Inv(c) && RankedBook(c) && id in c.orders
    requires c'.q == Attach(Detach(c.q, SlotOf(c.orders[id]), id), s, id)
    requires id in c'.orders && c'.orders[id].o.rank == c.nextSeq
    requires c'.orders.Keys == c.orders.Keys
    requires forall x :: x in c.orders && x != id ==> c'.orders[x] == c.orders[x]
    ensures RankedBook(c')
  {
    forall t ensures RankedQueue(c', Fifo(c'.q, t)) {
      var f := Fifo(Detach(c.q, SlotOf(c.orders[id]), id), t);
      assert RankedQueue(c, Fifo(c.q, t));
      WithoutRanked(c, Fifo(c.q, t), id);
      DetachedFrom(c, id, t);
      assert RankedQueue(c, f);
      if t == s {
        PushRanked(c, c', f, id);
      } else {
        SameRanks(c, c', f);
      }
    }
  }

  lemma DetachedFrom(c: Core, id: OrderId, t: Slot)
    requires Inv(c) && id in c.orders
    ensures var f := Fifo(Detach(c.q, SlotOf(c.orders[id]), id), t);
      && (f == Fifo(c.q, t) || f == Without(Fifo(c.q, t), id))
      && (forall x :: x in f ==> x in c.orders && x != id && c.orders[x].o.rank < c.nextSeq)
  {
    assert NoDup(Fifo(c.q, t));
    WithoutMembers(Fifo(c.q, t), id);
  }

  lemma DropRanked(c: Core, c': Core, id: OrderId)
    requires Inv(c) && RankedBook(c) && id in c.orders
    requires c'.q == Detach(c.q, SlotOf(c.orders[id]), id) && c'.orders == c.orders - {id}
    ensures RankedBook(c')
  {
    forall t ensures RankedQueue(c', Fifo(c'.q, t)) {
      assert RankedQueue(c, Fifo(c.q, t));
      WithoutRanked(c, Fifo(c.q, t), id);
      DetachedFrom(c, id, t);
      SameRanks(c, c', Fifo(c'.q, t));
    }
  }

  lemma JoinRanked(c: Core, o: Order)
    requires Inv(c) && RankedBook(c) && o.id !in c.orders && RankLast(c, o)
    ensures RankedBook(Rest(c, o))
  {
    var c' := Rest(c, o);
    var s := Slot(o.side, o.price);
    forall t ensures RankedQueue(c', Fifo(c'.q, t)) {
      assert RankedQueue(c, Fifo(c.q, t));
      if t == s {
        PushRanked(c, c', Fifo(c.q, s), o.id);
      } else {
        SameRanks(c, c', Fifo(c.q, t));
      }
    }
  }

  lemma FillRanked(c: Core, o: Order, id: OrderId, x: int)
    requires Inv(c) && RankedBook(c) && id in c.orders
    ensures RankedBook(Hit(c, o, id, x))
  {
    var c' := Hit(c, o, id, x);
    var m := Filled(c.orders[id], x);
    if m.o.leaves == 0 {
      DropRanked(c, c', id);
    } else if m.o.IsIceberg() && m.slice == 0 {
      RequeueRanked(c, c', id, SlotOf(c.orders[id]));
    } else {
      forall t ensures RankedQueue(c', Fifo(c'.q, t)) {
        assert RankedQueue(c, Fifo(c.q, t));
        SameRanks(c, c', Fifo(c.q, t));
      }
    }
  }

  lemma DoRanked(k: Kind, c: Core, a: Atom)
    requires Inv(c) && AtomOk(k, c, a) && k.ranked && RankedBook(c)
    ensures RankedBook(Do(c, a))
  {
    hide Inv;
    match a
    case Join(o) => JoinRanked(c, o);
    case Leave(id) => DropRanked(c, Withdraw(c, id), id);
    case Shift(id, price) => RequeueRanked(c, Move(c, id, price), id, Slot(c.orders[id].o.side, price));
    case Fill(o, id, x) => FillRanked(c, o, id, x);
    case _ =>
      var c' := Do(c, a);
      forall t ensures RankedQueue(c', Fifo(c'.q, t)) {
        assert RankedQueue(c, Fifo(c.q, t));
        SameRanks(c, c', Fifo(c.q, t));
      }
  }

  lemma DoGood(k: Kind, c: Core, a: Atom)
    requires Inv(c) && GoodCore(k, c) && AtomOk(k, c, a)
    ensures Inv(Do(c, a)) && GoodCore(k, Do(c, a))
  {
    hide Inv, LitBook, CleanBook, RankedBook, OwnedBook, AtomOk;
    DoInv(k, c, a);
    if k.owners.Some? { DoOwned(k, c, a); }
    if k.lit { DoLit(k, c, a); }
    if k.clean { DoClean(k, c, a); }
    if k.ranked { DoRanked(k, c, a); }
  }

  lemma {:induction false} PathGood(k: Kind, c: Core, path: seq<Atom>)
    requires Inv(c) && GoodCore(k, c) && Fits(k, c, path)
    ensures Inv(After(k, c, path)) && GoodCore(k, After(k, c, path))
    decreases |path|
  {
    hide Inv, GoodCore;
    if path != [] {
      DoGood(k, c, path[0]);
      PathGood(k, Do(c, path[0]), path[1..]);
    }
  }

  /** What a kind ensures survives every trace of that kind. */
  lemma StepsGood(k: Kind, c: Core, c': Core)
    requires Inv(c) && GoodCore(k, c) && Steps(k, c, c')
    ensures Inv(c') && GoodCore(k, c')
  {
    hide Inv, GoodCore;
    var path :| Fits(k, c, path) && After(k, c, path) == c';
    PathGood(k, c, path);
  }
}
