/** Who may cancel what: a handle names an order that its owner's account placed, and a cancel takes out
    that order at its owner's request and nothing at anybody else's (src/engine/trading_engine.cc, cancel,
    drain and prune_filled). */
module Handles {
  import opened OrderTypes
  import opened Sessions
  import Traces
  import opened Cancels
  import opened Engines
  import opened Ledgers
  import opened Trading

  // ------------------------------------------------------- handles and owners

  predicate Known(clients: map<string, ClientId>, owner: string) {
    owner == "" || owner in clients
  }

  /** The account number an owner trades under; anonymous orders have none. */
  function Account(clients: map<string, ClientId>, owner: string): ClientId {
    if owner in clients && owner != "" then clients[owner] else 0
  }

  /** The handle names an order placed in its symbol by the account of its owner. */
  ghost predicate HandleOk(t: Trader, hd: Handle) {
    && Known(t.clients, hd.owner)
    && hd.id in OwnersOf(t.h, hd.symbol) && OwnersOf(t.h, hd.symbol)[hd.id] == Account(t.clients, hd.owner)
  }

  ghost predicate PendingOwned(t: Trader) {
    forall n :: n in t.pending ==>
      Known(t.clients, t.pending[n].owner) && t.pending[n].client == Account(t.clients, t.pending[n].owner)
  }

  ghost predicate HandlesSound(t: Trader) {
    (forall u :: u in t.reg.handles ==> HandleOk(t, t.reg.handles[u])) && PendingOwned(t)
  }

  /** Handles disappear, the waiting orders keep their owners. */
  lemma FewerHandles(t: Trader, t': Trader)
    requires HandlesSound(t) && t'.clients == t.clients && t'.h.owners == t.h.owners
    requires forall u :: u in t'.reg.handles ==> u in t.reg.handles && t'.reg.handles[u] == t.reg.handles[u]
    requires forall n :: n in t'.pending ==>
      n in t.pending && t'.pending[n].owner == t.pending[n].owner && t'.pending[n].client == t.pending[n].client
    ensures HandlesSound(t')
  {
    assert forall x :: OwnersOf(t'.h, x) == OwnersOf(t.h, x);
  }

  lemma ArrivedHandles(t: Trader, symbol: string, owner: string, order: Order, uuid: string)
    requires HandlesSound(t)
    ensures HandlesSound(Arrived(t, symbol, owner, order, uuid))
  {
    var t' := Arrived(t, symbol, owner, order, uuid);
    assert forall x :: OwnersOf(t'.h, x) == OwnersOf(t.h, x);
    forall u | u in t'.reg.handles ensures HandleOk(t', t'.reg.handles[u]) {
      assert HandleOk(t, t.reg.handles[u]);
    }
  }

  // ----------------------------------------------------------------- pruning

  /** Makers of executions that are no longer live. */
  ghost function Departed(trades: seq<Trade>, live: set<OrderId>): set<OrderId> {
    set t | t in trades && t.maker !in live :: t.maker
  }

  /** Pruning drops exactly the handles registered for makers that are gone. */
  lemma {:induction false} PruneIff(reg: Registry, trades: seq<Trade>, live: set<OrderId>)
    ensures var reg' := Prune(reg, trades, live);
      && (forall id :: id in reg'.uuids <==> id in reg.uuids && id !in Departed(trades, live))
      && (forall id :: id in reg'.uuids ==> reg'.uuids[id] == reg.uuids[id])
      && (forall u :: u in reg'.handles <==>
            u in reg.handles && !exists id :: id in Departed(trades, live) && id in reg.uuids && reg.uuids[id] == u)
      && (forall u :: u in reg'.handles ==> reg'.handles[u] == reg.handles[u])
    decreases |trades|
  {
    if trades != [] {
      var m := trades[0].maker;
      var rest := trades[1..];
      var reg1 := if m in live then reg else Unregister(reg, m);
      PruneIff(reg1, rest, live);
      assert forall t :: t in trades <==> t == trades[0] || t in rest;
      assert Departed(trades, live) == Departed(rest, live) + if m in live then {} else {m};
    }
  }

  // ---------------------------------------------------------------- placement

  lemma HeadIsNew(t: Trader)
    requires Sound(t) && t.nextPlace in t.pending
    ensures forall symbol :: t.pending[t.nextPlace].order.id !in OwnersOf(t.h, symbol)
  {
    hide BooksSound, KeysSound, Calls;
    assert PendingOk(t, t.nextPlace, t.pending[t.nextPlace]);
  }

  /** Placing a new order keeps the owners of the earlier ones. */
  lemma OwnKeeps(h: History, symbol: string, id: OrderId, client: ClientId, x: string)
    ensures OwnersOf(Own(h, symbol, id, client), x) ==
      if x == symbol then OwnersOf(h, x)[id := client] else OwnersOf(h, x)
  {
  }

  lemma EnterHandles(t: Trader)
    requires Sound(t) && t.nextPlace in t.pending && HandlesSound(t)
    ensures HandlesSound(Enter(t))
  {
    hide Sound, Enter, OwnersOf, Own, Known, Account;
    EnterKeeps(t);
    EnterRegistry(t);
    HeadIsNew(t);
    var t' := Enter(t);
    var p := t.pending[t.nextPlace];
    var h1 := Own(t.h, p.symbol, p.order.id, p.client);
    forall u | u in t'.reg.handles ensures HandleOk(t', t'.reg.handles[u]) {
      var hd := t'.reg.handles[u];
      OwnKeeps(t.h, p.symbol, p.order.id, p.client, hd.symbol);
      SameOwners(h1, t'.h, hd.symbol);
      if u in t.reg.handles && hd == t.reg.handles[u] {
        assert HandleOk(t, hd);
      }
    }
  }

  lemma SameOwners(h: History, h': History, x: string)
    requires h'.owners == h.owners
    ensures OwnersOf(h', x) == OwnersOf(h, x)
  {
  }

  /** Placing an order adds no handle but its own. */
  lemma EnterRegistry(t: Trader)
    requires Sound(t) && t.nextPlace in t.pending
    ensures var p := t.pending[t.nextPlace];
      var reg' := Enter(t).reg;
      forall u :: u in reg'.handles ==>
        || (u in t.reg.handles && reg'.handles[u] == t.reg.handles[u])
        || reg'.handles[u] == Handle(p.symbol, p.order.id, p.owner)
  {
    hide Sound, Call, Prune, Register, BookFor, Submit, Own, LegalCall;
    var p := t.pending[t.nextPlace];
    EnterLegal(t);
    var out := Reply(t.e, p.symbol, OpSubmit(p.order)).value;
    var e1 := Call(t.e, p.symbol, OpSubmit(p.order));
    NeutralLegal(e1, Own(t.h, p.symbol, p.order.id, p.client), p.symbol, OpTakeRequeued);
    var e2 := Call(e1, p.symbol, OpTakeRequeued);
    PrunedFrom(t.reg, p, out.rested, out.trades, BookFor(e2, p.symbol).c.orders.Keys);
  }

  lemma PrunedFrom(reg: Registry, p: Pending, rested: bool, trades: seq<Trade>, live: set<OrderId>)
    ensures var reg' := Prune(if rested then Register(reg, p) else reg, trades, live);
      forall u :: u in reg'.handles ==>
        || (u in reg.handles && reg'.handles[u] == reg.handles[u])
        || reg'.handles[u] == Handle(p.symbol, p.order.id, p.owner)
  {
    hide Prune;
    PruneIff(if rested then Register(reg, p) else reg, trades, live);
  }

  /** An order that is placed and rests gets a handle under its own uuid, if that is new. */
  lemma HandleGiven(t: Trader)
    requires Sound(t) && t.nextPlace in t.pending
    requires var p := t.pending[t.nextPlace];
      && p.uuid !in t.reg.handles && p.order.id !in t.reg.uuids
      && forall id :: id in t.reg.uuids ==> t.reg.uuids[id] != p.uuid
    ensures var p := t.pending[t.nextPlace];
      && BooksInv(t.e) && LegalCall(t.e, p.symbol, OpSubmit(p.order))
      && (Reply(t.e, p.symbol, OpSubmit(p.order)).value.rested
          && p.order.id in BookFor(Enter(t).e, p.symbol).c.orders ==>
            p.uuid in Enter(t).reg.handles && Enter(t).reg.handles[p.uuid] == Handle(p.symbol, p.order.id, p.owner))
  {
    hide Sound, Call, Prune, Register, BookFor, Submit, Own, LegalCall;
    var p := t.pending[t.nextPlace];
    EnterLegal(t);
    var out := Reply(t.e, p.symbol, OpSubmit(p.order)).value;
    var e1 := Call(t.e, p.symbol, OpSubmit(p.order));
    NeutralLegal(e1, Own(t.h, p.symbol, p.order.id, p.client), p.symbol, OpTakeRequeued);
    var e2 := Call(e1, p.symbol, OpTakeRequeued);
    var live := BookFor(e2, p.symbol).c.orders.Keys;
    if p.order.id in live { PrunedKeeps(t.reg, p, out.trades, live); }
  }

  lemma PrunedKeeps(reg: Registry, p: Pending, trades: seq<Trade>, live: set<OrderId>)
    requires p.uuid !in reg.handles && p.order.id !in reg.uuids && p.order.id in live
    requires forall id :: id in reg.uuids ==> reg.uuids[id] != p.uuid
    ensures var reg' := Prune(Register(reg, p), trades, live);
      p.uuid in reg'.handles && reg'.handles[p.uuid] == Handle(p.symbol, p.order.id, p.owner)
  {
    hide Prune;
    PruneIff(Register(reg, p), trades, live);
  }

  /** An arrival waits under the next number as it came, with an id of its own and its owner's account;
      those before it wait as they did. */
  lemma ArrivedWaits(t: Trader, symbol: string, owner: string, order: Order, uuid: string)
    requires Window(t)
    ensures var t' := Arrived(t, symbol, owner, order, uuid);
      && t.nextAssign in t'.pending && t'.nextAssign == t.nextAssign + 1
      && (forall n :: n in t.pending ==> n in t'.pending && t'.pending[n] == t.pending[n])
      && var p := t'.pending[t.nextAssign];
        && p.symbol == symbol && p.owner == owner && p.uuid == uuid && !p.acked
        && p.order == order.(id := p.order.id, client := p.client) && p.client == Account(t'.clients, owner)
        && (order.id != 0 ==> p.order.id == order.id) && (order.id == 0 ==> t.nextOrder == p.order.id < t'.nextOrder)
  {
  }

  lemma PlaceHandles(t: Trader)
    requires Sound(t) && Ready(t) && HandlesSound(t)
    ensures HandlesSound(Place(t))
  {
    hide Sound, Enter, HandlesSound;
    if t.pending[t.nextPlace].ok {
      EnterHandles(t);
      EnterKeeps(t);
      FewerHandles(Enter(t), Place(t));
    } else {
      FewerHandles(t, Place(t));
    }
  }

  lemma {:induction false} DrainHandles(t: Trader)
    requires Sound(t) && HandlesSound(t)
    ensures HandlesSound(Drain(t))
    decreases |t.pending|
  {
    hide Sound, Place, HandlesSound;
    if Ready(t) {
      PlaceSound(t);
      PlaceHandles(t);
      DrainHandles(Place(t));
    }
  }

  lemma AdvanceHandles(t: Trader, step: Step)
    requires Sound(t) && LegalStep(t, step) && HandlesSound(t)
    ensures HandlesSound(Advance(t, step))
  {
    hide Sound, Drain, Call, CallTwice, RebaseAll, LegalCall, HandlesSound;
    match step
    case Arrive(symbol, owner, order, uuid) => ArrivedHandles(t, symbol, owner, order, uuid);
    case Ack(n, ok) =>
      AckedSound(t, n, ok);
      FewerHandles(t, Acked(t, n, ok));
      if n in t.pending { DrainHandles(Acked(t, n, ok)); }
    case PositionReply(symbol, client, ok, net) =>
      PositionedSound(t, symbol, client, ok, net);
      FewerHandles(t, Positioned(t, symbol, client, ok, net));
      DrainHandles(Positioned(t, symbol, client, ok, net));
    case _ => FewerHandles(t, Advance(t, step));
  }

  lemma {:induction false} RunHandles(t: Trader, steps: seq<Step>)
    requires Quiet(t) && LegalSteps(t, steps) && HandlesSound(t)
    ensures HandlesSound(AdvanceAll(t, steps))
    decreases |steps|
  {
    if steps != [] {
      AdvanceQuiet(t, steps[0]);
      AdvanceHandles(t, steps[0]);
      hide Sound, Advance, HandlesSound, LegalStep;
      RunHandles(Advance(t, steps[0]), steps[1..]);
    }
  }

  // ---------------------------------------------------------------- cancelling

  /** Without a handle, or at a stranger's request, nothing changes at all. */
  lemma StrangerCancelsNothing(t: Trader, uuid: string, requester: string)
    requires Sound(t) && (uuid in t.reg.handles ==> t.reg.handles[uuid].owner != requester)
    ensures Cancelled(t, uuid, requester) == t
  {
  }

  lemma CancelBook(e: Engine, h: History, symbol: string, id: OrderId, x: string)
    requires BooksSound(e, h)
    ensures StateInv(BookFor(e, symbol)) && (symbol !in e.books ==> Nowhere(BookFor(e, symbol), id))
    ensures var s' := BookFor(CallTwice(e, h, symbol, OpCancel(id)), x);
      if x == symbol && symbol in e.books then
        var c1 := Cancel(BookFor(e, symbol), id).0;
        s' == c1.(c := c1.c.(requeued := []))
      else s' == BookFor(e, x)
  {
    hide Cancel, StateInv, BooksSound, Call, Forwarded;
    NeutralLegal(e, h, symbol, OpCancel(id));
    var e1 := Call(e, symbol, OpCancel(id));
    NeutralLegal(e1, h, symbol, OpTakeRequeued);
    CallBook(e, symbol, OpCancel(id), symbol);
    CallBook(e, symbol, OpCancel(id), x);
    CallBook(e1, symbol, OpTakeRequeued, x);
    CallBooks(e, symbol, OpCancel(id));
  }

  lemma CallBooks(e: Engine, symbol: string, op: Op)
    requires BooksInv(e) && LegalCall(e, symbol, op) && !Creates(op)
    ensures Call(e, symbol, op).books.Keys == e.books.Keys
  {
    hide Forwarded, Apply;
  }

  ghost predicate Nowhere(s: State, id: OrderId) {
    && id !in s.c.orders && id !in s.stops
    && forall o :: o in s.opening || o in s.closing ==> o.id != id
  }

  /** What a cancel leaves of the book of its order. */
  ghost predicate TakenFrom(s: State, s': State, id: OrderId) {
    && Nowhere(s', id) && s'.stops == s.stops - {id}
    && s'.opening == Others(s.opening, id) && s'.closing == Others(s.closing, id)
    && s'.c.orders.Keys == s.c.orders.Keys - {id} && AllStay(s.c, s'.c)
  }

  lemma AbsentStays(s: State, id: OrderId)
    requires Nowhere(s, id)
    ensures TakenFrom(s, s, id)
  {
    hide AllStay, Others;
    OthersAll(s.opening, id);
    OthersAll(s.closing, id);
    AllSame(s.c);
  }

  lemma CancelTakes(s: State, id: OrderId)
    requires StateInv(s)
    ensures var s1 := Cancel(s, id).0; TakenFrom(s, s1.(c := s1.c.(requeued := [])), id)
  {
    hide StateInv, Cancel, Others, Stays;
    CancelTakesOut(s, id);
  }

  /** At its owner's request the order is nowhere in its book afterwards, and its handle is gone; every
      other order there stays, but for pegs that moved; other books, handles and waiting orders are as
      they were. */
  lemma OwnerCancels(t: Trader, uuid: string)
    requires Sound(t) && uuid in t.reg.handles
    ensures var hd := t.reg.handles[uuid];
      var t' := Cancelled(t, uuid, hd.owner);
      && t' == t.(e := t'.e, reg := t'.reg) && t'.reg.handles == t.reg.handles - {uuid}
      && (forall x :: x != hd.symbol ==> BookFor(t'.e, x) == BookFor(t.e, x))
      && TakenFrom(BookFor(t.e, hd.symbol), BookFor(t'.e, hd.symbol), hd.id)
  {
    hide Window, Calls, PendingSound, KeysSound, BooksSound, BookFor, Cancel, CallTwice, StateInv, TakenFrom, Nowhere;
    var hd := t.reg.handles[uuid];
    forall x ensures x != hd.symbol ==> BookFor(Cancelled(t, uuid, hd.owner).e, x) == BookFor(t.e, x) {
      CancelBook(t.e, t.h, hd.symbol, hd.id, x);
    }
    CancelBook(t.e, t.h, hd.symbol, hd.id, hd.symbol);
    CancelTakes(BookFor(t.e, hd.symbol), hd.id);
    if hd.symbol !in t.e.books { AbsentStays(BookFor(t.e, hd.symbol), hd.id); }
  }

  /** A cancel takes no resting order out of any book but one of the requester's own account. */
  lemma CancelTakesOwn(t: Trader, uuid: string, requester: string, symbol: string, id: OrderId)
    requires Sound(t) && HandlesSound(t)
    ensures var t' := Cancelled(t, uuid, requester);
      id in BookFor(t.e, symbol).c.orders && id !in BookFor(t'.e, symbol).c.orders ==>
        && Known(t.clients, requester)
        && BookFor(t.e, symbol).c.orders[id].o.client == Account(t.clients, requester)
  {
    hide Window, Calls, PendingSound, KeysSound, BooksSound, BookFor, Cancelled, Nowhere, AllStay, Known, Account;
    if uuid !in t.reg.handles || t.reg.handles[uuid].owner != requester {
      StrangerCancelsNothing(t, uuid, requester);
    } else {
      var hd := t.reg.handles[uuid];
      assert HandleOk(t, hd);
      OwnerCancels(t, uuid);
      if id in BookFor(t.e, symbol).c.orders && symbol == hd.symbol && id == hd.id {
        RestingOwner(t, symbol, id);
      }
    }
  }

  lemma StartHandles(stp: StpPolicy)
    ensures HandlesSound(Start(stp))
  {
    hide Quiet;
  }

  /** After any interleaving of steps: a cancel takes no resting order out of any book but one placed by
      the requester's own account; a requester who owns no handle changes no book at all. */
  lemma OnlyOwnersCancel(stp: StpPolicy, steps: seq<Step>, uuid: string, requester: string, symbol: string, id: OrderId)
    requires LegalSteps(Start(stp), steps)
    ensures var t := AdvanceAll(Start(stp), steps);
      && Sound(t)
      && var t' := Advance(t, CancelBy(uuid, requester));
        && ((forall u :: u in t.reg.handles ==> t.reg.handles[u].owner != requester) ==> t'.e == t.e)
        && (id in BookFor(t.e, symbol).c.orders && id !in BookFor(t'.e, symbol).c.orders ==>
              && Known(t.clients, requester)
              && BookFor(t.e, symbol).c.orders[id].o.client == Account(t.clients, requester))
  {
    hide LegalSteps, AdvanceAll, Sound, BookFor, Cancelled, HandlesSound, Start, Known, Account, ClientsSound, Ready;
    StartHandles(stp);
    RunQuiet(Start(stp), steps);
    RunHandles(Start(stp), steps);
    var t := AdvanceAll(Start(stp), steps);
    CancelTakesOwn(t, uuid, requester, symbol, id);
    if forall u :: u in t.reg.handles ==> t.reg.handles[u].owner != requester {
      StrangerCancelsNothing(t, uuid, requester);
    }
  }

  lemma RestingOwner(t: Trader, symbol: string, id: OrderId)
    requires BooksSound(t.e, t.h) && id in BookFor(t.e, symbol).c.orders
    ensures id in OwnersOf(t.h, symbol)
    ensures OwnersOf(t.h, symbol)[id] == BookFor(t.e, symbol).c.orders[id].o.client
  {
    hide StateInv, BookFor;
    assert Accounted(BookFor(t.e, symbol), OwnersOf(t.h, symbol), SeedsOf(t.h, symbol));
    assert Traces.OwnedBook(OwnersOf(t.h, symbol), BookFor(t.e, symbol).c);
  }
}
