/** What a cancel and an expiry take out of the book, and what they leave (src/core/order_book.cc, cancel
    and expire). */
module Cancels {
  import opened OrderTypes
  import opened BookCore
  import opened Crossing
  import opened Ordering
  import opened Pegs
  import opened Auctions
  import opened Sessions

  /** The queued orders other than `id`, in order. */
  function Others(queue: seq<Order>, id: OrderId): seq<Order> {
    if queue == [] then []
    else
      var last := queue[|queue| - 1];
      Others(queue[..|queue| - 1], id) + if last.id == id then [] else [last]
  }

  /** A pegged order may have moved; every other is as it was. */
  predicate Stays(m: Maker, m': Maker) {
    m' == (if m.o.peg.None? then m else m.(o := m.o.(price := m'.o.price, rank := m'.o.rank)))
  }

  ghost predicate AllStay(c: Core, c': Core) {
    forall id :: id in c'.orders ==> id in c.orders && Stays(c.orders[id], c'.orders[id])
  }

  lemma {:induction false} OthersCons(o: Order, queue: seq<Order>, id: OrderId)
    ensures Others([o] + queue, id) == (if o.id == id then [] else [o]) + Others(queue, id)
    decreases |queue|
  {
    var all := [o] + queue;
    if queue == [] {
      assert all[..|all| - 1] == [];
    } else {
      OthersCons(o, queue[..|queue| - 1], id);
      assert all[..|all| - 1] == [o] + queue[..|queue| - 1];
      assert all[|all| - 1] == queue[|queue| - 1];
    }
  }

  lemma {:induction false} OthersAll(queue: seq<Order>, id: OrderId)
    requires forall o :: o in queue ==> o.id != id
    ensures Others(queue, id) == queue
    decreases |queue|
  {
    if queue != [] {
      var front := queue[..|queue| - 1];
      assert queue == front + [queue[|queue| - 1]];
      assert forall o :: o in front ==> o in queue;
      assert queue[|queue| - 1] in queue;
      OthersAll(front, id);
    }
  }

  lemma {:induction false} UnqueueIsOthers(queue: seq<Order>, id: OrderId)
    requires DistinctIds(queue)
    ensures Unqueue(queue, id) == Others(queue, id)
    decreases |queue|
  {
    if queue != [] {
      var rest := queue[1..];
      assert queue == [queue[0]] + rest;
      assert forall i :: 0 <= i < |rest| ==> rest[i] == queue[i + 1];
      OthersCons(queue[0], rest, id);
      if queue[0].id == id {
        forall o | o in rest ensures o.id != id {
          var i :| 0 <= i < |rest| && rest[i] == o;
          assert queue[0].id != queue[i + 1].id;
        }
        OthersAll(rest, id);
      } else {
        UnqueueIsOthers(rest, id);
      }
    }
  }

  lemma {:induction false} OthersHave(queue: seq<Order>, id: OrderId)
    ensures forall o :: o in Others(queue, id) <==> o in queue && o.id != id
    decreases |queue|
  {
    if queue != [] {
      var front := queue[..|queue| - 1];
      assert queue == front + [queue[|queue| - 1]];
      OthersHave(front, id);
    }
  }

  lemma {:induction false} RepriceStays(c: Core, ids: seq<OrderId>)
    requires forall id :: id in ids && id in c.orders ==> c.orders[id].o.peg.Some?
    ensures Reprice(c, ids).orders.Keys == c.orders.Keys && AllStay(c, Reprice(c, ids))
    decreases |ids|
  {
    if ids != [] {
      var c1 := RepriceOne(c, ids[0]);
      assert ids[0] in ids && forall id :: id in ids[1..] ==> id in ids;
      MoveStays(c, ids[0]);
      hide RepriceOne;
      RepriceStays(c1, ids[1..]);
    }
  }

  lemma MoveStays(c: Core, id: OrderId)
    requires id in c.orders ==> c.orders[id].o.peg.Some?
    ensures RepriceOne(c, id).orders.Keys == c.orders.Keys && AllStay(c, RepriceOne(c, id))
  {
    hide PegPrice, AddDisp, Attach, Detach;
  }

  lemma TakeDownStays(c: Core, id: OrderId)
    requires Inv(c) && id in c.orders
    ensures TakeDown(c, id).orders.Keys == c.orders.Keys - {id} && AllStay(c, TakeDown(c, id))
  {
    WithdrawInv(c, id);
    var c1 := Withdraw(c, id);
    PegsKeyed(c1);
    var pegs := Sorted(Arrival(c1), c1.pegged);
    forall x | x in pegs ensures x in c1.orders && c1.orders[x].o.peg.Some? {
      PegMember(c1, x);
    }
    hide Inv, Reprice, Sorted;
    RepriceStays(c1, pegs);
    WithdrawStays(c, id);
  }

  lemma WithdrawStays(c: Core, id: OrderId)
    requires id in c.orders
    ensures Withdraw(c, id).orders == c.orders - {id}
  {
  }

  lemma QueueWithout(queue: seq<Order>, id: OrderId)
    requires DistinctIds(queue)
    ensures Others(queue, id) == if Queued(queue, id) then Unqueue(queue, id) else queue
    ensures forall o :: o in Others(queue, id) ==> o.id != id
    ensures Queued(queue, id) <==> exists o :: o in queue && o.id == id
  {
    UnqueueIsOthers(queue, id);
    OthersHave(queue, id);
    QueuedIff(queue, id);
    hide Others, Unqueue, Queued;
    if !Queued(queue, id) { OthersAll(queue, id); }
  }

  /** A cancel takes out the order with that id, wherever it is, and says whether there was one.  Every
      other parked or queued order is as it was and in order; every other resting order is as it was, but
      for pegs that moved. */
  lemma CancelTakesOut(s: State, id: OrderId)
    requires StateInv(s)
    ensures var (s', ok) := Cancel(s, id);
      && id !in s'.c.orders && id !in s'.stops && (forall o :: o in s'.opening || o in s'.closing ==> o.id != id)
      && (ok <==> id in s.c.orders || id in s.stops || exists o :: (o in s.opening || o in s.closing) && o.id == id)
      && s'.stops == s.stops - {id}
      && s'.opening == Others(s.opening, id) && s'.closing == Others(s.closing, id)
      && s'.c.orders.Keys == s.c.orders.Keys - {id} && AllStay(s.c, s'.c)
  {
    Elsewhere(s, id);
    QueueWithout(s.opening, id);
    QueueWithout(s.closing, id);
    if id in s.c.orders { TakeDownStays(s.c, id); }
    hide StateInv, TakeDown, Unqueue, Others, Queued, Stays;
    AllSame(s.c);
    assert id !in s.stops ==> s.stops - {id} == s.stops;
  }

  lemma AllSame(c: Core)
    ensures AllStay(c, c)
  {
  }

  lemma QueuedIff(queue: seq<Order>, id: OrderId)
    ensures Queued(queue, id) <==> exists o :: o in queue && o.id == id
  {
    if o :| o in queue && o.id == id {
      var i :| 0 <= i < |queue| && queue[i] == o;
    }
  }

  /** An id is in one place only. */
  lemma Elsewhere(s: State, id: OrderId)
    requires StateInv(s)
    ensures id in s.stops ==> id !in s.c.orders && !Queued(s.opening, id) && !Queued(s.closing, id)
    ensures Queued(s.opening, id) ==> id !in s.c.orders && !Queued(s.closing, id)
    ensures Queued(s.closing, id) ==> id !in s.c.orders
  {
    forall i | 0 <= i < |s.opening| ensures s.opening[i] in s.opening {}
    forall i | 0 <= i < |s.closing| ensures s.closing[i] in s.closing {}
  }

  // ------------------------------------------------------------------ expiry

  lemma StayTrans(c: Core, c1: Core, c2: Core)
    requires AllStay(c, c1) && AllStay(c1, c2)
    ensures AllStay(c, c2)
  {
  }

  lemma {:induction false} CancelAllTakesOut(s: State, ids: seq<OrderId>)
    requires StateInv(s) && NoDup(ids) && forall id :: id in ids ==> id in s.c.orders
    ensures var s' := CancelAll(s, ids);
      && s'.stops == s.stops && s'.opening == s.opening && s'.closing == s.closing
      && s'.c.orders.Keys == s.c.orders.Keys - (set id | id in ids) && AllStay(s.c, s'.c)
    decreases |ids|
  {
    hide StateInv, Cancel, AllStay;
    if ids == [] {
      AllSame(s.c);
    } else {
      var id := ids[0];
      assert id in ids;
      CancelInv(s, id);
      RestingOnly(s, id);
      HeadGone(ids);
      var s1 := Cancel(s, id).0;
      CancelAllTakesOut(s1, ids[1..]);
      StayTrans(s.c, s1.c, CancelAll(s, ids).c);
      assert forall x :: x in ids <==> x == id || x in ids[1..];
    }
  }

  lemma RestingOnly(s: State, id: OrderId)
    requires StateInv(s) && id in s.c.orders
    ensures var s' := Cancel(s, id).0;
      s' == s.(c := s'.c) && s'.c.orders.Keys == s.c.orders.Keys - {id} && AllStay(s.c, s'.c)
  {
    Elsewhere(s, id);
    TakeDownStays(s.c, id);
    hide StateInv, TakeDown, Unqueue, Queued, AllStay;
  }

  /** An expiry takes out exactly the resting orders that have an expiry and have reached it.  Parked and
      queued orders stay; so do the other resting orders, but for pegs that moved. */
  lemma ExpireTakesOut(s: State, now: int)
    requires StateInv(s)
    ensures var s' := Expire(s, now);
      && s'.stops == s.stops && s'.opening == s.opening && s'.closing == s.closing && AllStay(s.c, s'.c)
      && forall id :: id in s'.c.orders <==>
           id in s.c.orders && (s.c.orders[id].o.expiry <= 0 || s.c.orders[id].o.expiry > now)
  {
    hide StateInv, CancelAll;
    var ids := Expired(s.c, now);
    ByIdTotal(ids);
    SortedNoDup(ById(ids), ids, Sorted(ById(ids), ids));
    CancelAllTakesOut(s, Sorted(ById(ids), ids));
  }
}
