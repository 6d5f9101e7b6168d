/** The report-before-place protocol as a state machine (src/engine/trading_engine.cc, unbounded
    window): submits, storage acknowledgements, position replies, cancels, auctions and the boot
    watermarks may interleave in any order. */
module Trading {
  import opened OrderTypes
  import opened Sessions
  import opened OpTraces
  import opened Accounting
  import opened Engines
  import opened Ledgers

  type Key = (string, ClientId)

  /** A reported but not yet placed order. */
  datatype Pending = Pending(
    symbol: string, owner: string, uuid: string, order: Order, client: ClientId, acked: bool, ok: bool, posReady: bool)

  datatype Handle = Handle(symbol: string, id: OrderId, owner: string)

  datatype Registry = Registry(handles: map<string, Handle>, uuids: map<OrderId, string>)

  /** What has happened so far: completion callbacks in order with the storage verdict they carried,
      arrival numbers placed, successful acknowledgements, accounts seeded, and per symbol the owners
      of placed orders and the seeds. */
  datatype History = History(
    called: seq<(SeqNo, bool)>,
    placed: seq<SeqNo>,
    acked: set<SeqNo>,
    seeded: seq<Key>,
    owners: map<string, Owners>,
    seeds: map<string, map<ClientId, int>>)

  datatype Trader = Trader(
    e: Engine,
    pending: map<SeqNo, Pending>,
    reg: Registry,
    clients: map<string, ClientId>,
    loaded: set<Key>,
    loading: set<Key>,
    nextAssign: SeqNo,
    nextPlace: SeqNo,
    nextOrder: OrderId,
    nextClient: ClientId,
    h: History)

  /** Nothing has happened yet. */
  ghost function Start(stp: StpPolicy): (t: Trader)
    ensures Quiet(t)
  {
    NewBooksSound(stp);
    Trader(NoBooks(stp), map[], Registry(map[], map[]), map[], {}, {}, 1, 1, 1, 1,
           History([], [], {}, [], map[], map[]))
  }

  function OwnersOf(h: History, symbol: string): Owners {
    if symbol in h.owners then h.owners[symbol] else NO_OWNERS
  }

  function SeedsOf(h: History, symbol: string): map<ClientId, int> {
    if symbol in h.seeds then h.seeds[symbol] else map[]
  }

  // -------------------------------------------------------------- invariant

  /** The waiting orders are exactly the arrivals not yet sequenced. */
  ghost predicate Window(t: Trader) {
    && 1 <= t.nextPlace <= t.nextAssign
    && (forall n :: n in t.pending <==> t.nextPlace <= n < t.nextAssign)
  }

  /** Every sequenced arrival got its callback once, in arrival order; those placed are exactly those
      whose callback reports storage success, and each of them had been acknowledged. */
  ghost predicate Calls(t: Trader) {
    && |t.h.called| == t.nextPlace - 1
    && (forall i :: 0 <= i < |t.h.called| ==> t.h.called[i].0 == i + 1)
    && t.h.placed == Succeeded(t.h.called)
    && (forall n :: n in t.h.placed ==> n in t.h.acked)
  }

  function Succeeded(called: seq<(SeqNo, bool)>): seq<SeqNo> {
    if called == [] then []
    else
      var last := called[|called| - 1];
      Succeeded(called[..|called| - 1]) + if last.1 then [last.0] else []
  }

  predicate Loaded(t: Trader, symbol: string, client: ClientId) {
    client == 0 || (symbol, client) in t.loaded
  }

  ghost predicate PendingOk(t: Trader, n: SeqNo, p: Pending) {
    && p.order.client == p.client
    && (p.order.IsIceberg() ==> p.order.displayQty >= 0)
    && (p.acked && p.ok ==> n in t.h.acked)
    && (p.posReady <==> Loaded(t, p.symbol, p.client))
    && (!p.posReady ==> (p.symbol, p.client) in t.loading)
    && (forall symbol :: p.order.id !in OwnersOf(t.h, symbol))
  }

  ghost predicate PendingSound(t: Trader) {
    && (forall n :: n in t.pending ==> PendingOk(t, n, t.pending[n]))
    && (forall m, n :: m in t.pending && n in t.pending && m != n ==> t.pending[m].order.id != t.pending[n].order.id)
  }

  /** An account has placed orders or a seed in a symbol only once its position is loaded, and it is
      seeded at most once. */
  ghost predicate KeysSound(t: Trader) {
    && t.loaded !! t.loading
    && (forall k :: k in t.loading ==> k.1 != 0)
    && (forall symbol, id :: id in OwnersOf(t.h, symbol) ==> Loaded(t, symbol, OwnersOf(t.h, symbol)[id]))
    && (forall k :: k in t.h.seeded ==> k in t.loaded)
    && (forall i, j :: 0 <= i < j < |t.h.seeded| ==> t.h.seeded[i] != t.h.seeded[j])
  }

  /** Every book is well formed and every account in it is balanced. */
  ghost predicate BooksSound(e: Engine, h: History) {
    forall symbol :: Accounted(BookFor(e, symbol), OwnersOf(h, symbol), SeedsOf(h, symbol))
  }

  ghost predicate Sound(t: Trader) {
    Window(t) && Calls(t) && PendingSound(t) && KeysSound(t) && BooksSound(t.e, t.h)
  }

  // ------------------------------------------------------------ engine calls

  lemma CallBook(e: Engine, symbol: string, op: Op, x: string)
    requires BooksInv(e) && LegalCall(e, symbol, op)
    ensures StateInv(BookFor(e, symbol))
    ensures BookFor(Call(e, symbol, op), x) ==
      if x == symbol && Answers(e, symbol, op) then Apply(BookFor(e, symbol), op) else BookFor(e, x)
  {
  }

  /** An operation that submits and seeds nothing. */
  predicate Neutral(op: Op) {
    !op.OpSubmit? && !op.OpSeed?
  }

  lemma NeutralLegal(e: Engine, h: History, symbol: string, op: Op)
    requires BooksSound(e, h) && Neutral(op)
    ensures BooksInv(e) && LegalCall(e, symbol, op) && BooksSound(Call(e, symbol, op), h)
  {
    AllInv(e, h);
    hide Accounted, Apply, BookFor;
    assert Accounted(BookFor(e, symbol), OwnersOf(h, symbol), SeedsOf(h, symbol));
    AccountedInv(BookFor(e, symbol), OwnersOf(h, symbol), SeedsOf(h, symbol));
    forall x ensures Accounted(BookFor(Call(e, symbol, op), x), OwnersOf(h, x), SeedsOf(h, x)) {
      CallBook(e, symbol, op, x);
      if x == symbol {
        OperationAccounted(BookFor(e, x), op, OwnersOf(h, x), SeedsOf(h, x));
      }
    }
  }

  lemma AccountedInv(s: State, owners: Owners, seeds: map<ClientId, int>)
    requires Accounted(s, owners, seeds)
    ensures StateInv(s)
  {
  }

  function Own(h: History, symbol: string, id: OrderId, client: ClientId): History {
    h.(owners := h.owners[symbol := OwnersOf(h, symbol)[id := client]])
  }

  lemma SubmitLegal(e: Engine, h: History, symbol: string, o: Order)
    requires BooksSound(e, h) && o.id !in OwnersOf(h, symbol) && (o.IsIceberg() ==> o.displayQty >= 0)
    ensures BooksInv(e) && LegalCall(e, symbol, OpSubmit(o))
    ensures BooksSound(Call(e, symbol, OpSubmit(o)), Own(h, symbol, o.id, o.client))
  {
    AllInv(e, h);
    hide Accounted, Apply, BookFor;
    var h' := Own(h, symbol, o.id, o.client);
    assert Accounted(BookFor(e, symbol), OwnersOf(h, symbol), SeedsOf(h, symbol));
    AccountedInv(BookFor(e, symbol), OwnersOf(h, symbol), SeedsOf(h, symbol));
    SubmitAccounted(BookFor(e, symbol), o, OwnersOf(h, symbol), SeedsOf(h, symbol));
    forall x ensures Accounted(BookFor(Call(e, symbol, OpSubmit(o)), x), OwnersOf(h', x), SeedsOf(h', x)) {
      CallBook(e, symbol, OpSubmit(o), x);
    }
  }

  function Seeded(h: History, symbol: string, client: ClientId, net: int): History {
    h.(seeds := h.seeds[symbol := SeedsOf(h, symbol)[client := net]], seeded := h.seeded + [(symbol, client)])
  }

  lemma SeedLegal(e: Engine, h: History, symbol: string, a: ClientId, net: int)
    requires BooksSound(e, h) && a != 0
    requires forall id :: id in OwnersOf(h, symbol) ==> OwnersOf(h, symbol)[id] != a
    ensures BooksInv(e) && LegalCall(e, symbol, OpSeed(a, net))
    ensures BooksSound(Call(e, symbol, OpSeed(a, net)), Seeded(h, symbol, a, net))
  {
    AllInv(e, h);
    hide Accounted, Apply, BookFor;
    var h' := Seeded(h, symbol, a, net);
    assert Accounted(BookFor(e, symbol), OwnersOf(h, symbol), SeedsOf(h, symbol));
    AccountedInv(BookFor(e, symbol), OwnersOf(h, symbol), SeedsOf(h, symbol));
    SeedAccounted(BookFor(e, symbol), a, net, OwnersOf(h, symbol), SeedsOf(h, symbol));
    forall x ensures Accounted(BookFor(Call(e, symbol, OpSeed(a, net)), x), OwnersOf(h', x), SeedsOf(h', x)) {
      CallBook(e, symbol, OpSeed(a, net), x);
    }
  }

  // -------------------------------------------------------------- placement

  /** The next arrival may be placed: storage answered and its account's position is loaded. */
  predicate Ready(t: Trader) {
    t.nextPlace in t.pending && t.pending[t.nextPlace].acked && t.pending[t.nextPlace].posReady
  }

  /** A resting order gets a handle; an existing handle is kept. */
  function Register(reg: Registry, p: Pending): Registry {
    Registry(
      if p.uuid in reg.handles then reg.handles else reg.handles[p.uuid := Handle(p.symbol, p.order.id, p.owner)],
      if p.order.id in reg.uuids then reg.uuids else reg.uuids[p.order.id := p.uuid])
  }

  function Unregister(reg: Registry, id: OrderId): Registry {
    if id in reg.uuids then Registry(reg.handles - {reg.uuids[id]}, reg.uuids - {id}) else reg
  }

  /** Drop the handles of makers that a match removed from the book. */
  function Prune(reg: Registry, trades: seq<Trade>, live: set<OrderId>): Registry
    decreases |trades|
  {
    if trades == [] then reg
    else
      Prune(if trades[0].maker in live then reg else Unregister(reg, trades[0].maker), trades[1..], live)
  }

  /** The head leaves the queue and its callback fires. */
  function Sequence(t: Trader): Trader
    requires t.nextPlace in t.pending
  {
    t.(pending := t.pending - {t.nextPlace},
       nextPlace := t.nextPlace + 1,
       h := t.h.(called := t.h.called + [(t.nextPlace, t.pending[t.nextPlace].ok)]))
  }

  /** The head order reaches its book, and its moved neighbours are reported. */
  ghost function Enter(t: Trader): Trader
    requires Sound(t) && t.nextPlace in t.pending
  {
    var p := t.pending[t.nextPlace];
    EnterLegal(t);
    var out := Reply(t.e, p.symbol, OpSubmit(p.order)).value;
    var e1 := Call(t.e, p.symbol, OpSubmit(p.order));
    var h1 := Own(t.h, p.symbol, p.order.id, p.client);
    NeutralLegal(e1, h1, p.symbol, OpTakeRequeued);
    var e2 := Call(e1, p.symbol, OpTakeRequeued);
    t.(e := e2,
       reg := Prune(if out.rested then Register(t.reg, p) else t.reg, out.trades, BookFor(e2, p.symbol).c.orders.Keys),
       h := h1.(placed := h1.placed + [t.nextPlace]))
  }

  lemma EnterLegal(t: Trader)
    requires Sound(t) && t.nextPlace in t.pending
    ensures var p := t.pending[t.nextPlace];
      && BooksInv(t.e) && LegalCall(t.e, p.symbol, OpSubmit(p.order))
      && StateInv(BookFor(t.e, p.symbol)) && Admissible(BookFor(t.e, p.symbol), p.order)
      && BooksSound(Call(t.e, p.symbol, OpSubmit(p.order)), Own(t.h, p.symbol, p.order.id, p.client))
  {
    var p := t.pending[t.nextPlace];
    assert PendingOk(t, t.nextPlace, p);
    hide BooksSound, Accounted, Call, BookFor, KeysSound, Calls;
    SubmitLegal(t.e, t.h, p.symbol, p.order);
  }

  /** One turn of drain. */
  ghost function Place(t: Trader): Trader
    requires Sound(t) && Ready(t)
  {
    Sequence(if t.pending[t.nextPlace].ok then Enter(t) else t)
  }

  lemma SucceededPush(called: seq<(SeqNo, bool)>, x: (SeqNo, bool))
    ensures Succeeded(called + [x]) == Succeeded(called) + if x.1 then [x.0] else []
  {
    assert (called + [x])[..|called|] == called;
  }

  /** What Enter changes, apart from the books and handles. */
  lemma EnterKeeps(t: Trader)
    requires Sound(t) && t.nextPlace in t.pending
    ensures var t' := Enter(t);
      var p := t.pending[t.nextPlace];
      && t' == t.(e := t'.e, reg := t'.reg,
                  h := Own(t.h, p.symbol, p.order.id, p.client).(placed := t.h.placed + [t.nextPlace]))
      && BooksSound(t'.e, t'.h)
  {
    var p := t.pending[t.nextPlace];
    EnterLegal(t);
    hide BooksSound, Accounted, Call, BookFor, Window, Calls, PendingSound, KeysSound, Submit;
    var e1 := Call(t.e, p.symbol, OpSubmit(p.order));
    var h1 := Own(t.h, p.symbol, p.order.id, p.client);
    NeutralLegal(e1, h1, p.symbol, OpTakeRequeued);
    SameBooks(Call(e1, p.symbol, OpTakeRequeued), h1, h1.(placed := h1.placed + [t.nextPlace]));
  }

  lemma SameBooks(e: Engine, h: History, h': History)
    requires BooksSound(e, h) && h'.owners == h.owners && h'.seeds == h.seeds
    ensures BooksSound(e, h')
  {
    hide Accounted, BookFor;
    forall x ensures Accounted(BookFor(e, x), OwnersOf(h', x), SeedsOf(h', x)) {
      assert Accounted(BookFor(e, x), OwnersOf(h, x), SeedsOf(h, x));
    }
  }

  /** The remaining queue after the head was sequenced. */
  lemma SequencePending(t: Trader, t': Trader)
    requires Window(t) && PendingSound(t) && KeysSound(t) && t.nextPlace in t.pending
    requires t'.pending == t.pending - {t.nextPlace} && t'.nextOrder == t.nextOrder
    requires t'.loaded == t.loaded && t'.loading == t.loading
    requires t'.h.acked == t.h.acked && t'.h.seeded == t.h.seeded
    requires var p := t.pending[t.nextPlace];
      t'.h.owners == t.h.owners || (p.posReady && t'.h.owners == Own(t.h, p.symbol, p.order.id, p.client).owners)
    ensures PendingSound(t') && KeysSound(t')
  {
    var p := t.pending[t.nextPlace];
    assert PendingOk(t, t.nextPlace, p);
    assert forall x ::
        (OwnersOf(t'.h, x) == OwnersOf(t.h, x)
        || (x == p.symbol && p.posReady && OwnersOf(t'.h, x) == OwnersOf(t.h, x)[p.order.id := p.client]));
    hide OwnersOf, Own;
    forall n | n in t'.pending ensures PendingOk(t', n, t'.pending[n]) {
      assert PendingOk(t, n, t.pending[n]);
    }
  }

  lemma SequenceCalls(t: Trader, t': Trader)
    requires Window(t) && Calls(t) && PendingSound(t) && Ready(t)
    requires t'.pending == t.pending - {t.nextPlace} && t'.nextPlace == t.nextPlace + 1 && t'.nextAssign == t.nextAssign
    requires t'.h.acked == t.h.acked
    requires t'.h.called == t.h.called + [(t.nextPlace, t.pending[t.nextPlace].ok)]
    requires t'.h.placed == t.h.placed + if t.pending[t.nextPlace].ok then [t.nextPlace] else []
    ensures Window(t') && Calls(t')
  {
    SucceededPush(t.h.called, (t.nextPlace, t.pending[t.nextPlace].ok));
    assert PendingOk(t, t.nextPlace, t.pending[t.nextPlace]);
    hide PendingSound, PendingOk, Succeeded;
  }

  /** One turn of drain keeps the protocol's invariant. */
  lemma PlaceSound(t: Trader)
    requires Sound(t) && Ready(t)
    ensures Sound(Place(t)) && |Place(t).pending| < |t.pending|
  {
    var t' := Place(t);
    if t.pending[t.nextPlace].ok { EnterKeeps(t); }
    hide Window, Calls, PendingSound, KeysSound, BooksSound, Enter;
    assert t'.h.placed == t.h.placed + if t.pending[t.nextPlace].ok then [t.nextPlace] else [];
    SequencePending(t, t');
    SequenceCalls(t, t');
    SameBooks(t'.e, if t.pending[t.nextPlace].ok then Enter(t).h else t.h, t'.h);
    assert t'.pending.Keys == t.pending.Keys - {t.nextPlace};
  }

  /** drain: place every ready head, in arrival order. */
  ghost function Drain(t: Trader): Trader
    requires Sound(t)
    decreases |t.pending|
  {
    if !Ready(t) then t
    else
      PlaceSound(t);
      Drain(Place(t))
  }

  lemma {:induction false} DrainSound(t: Trader)
    requires Sound(t)
    ensures Sound(Drain(t)) && !Ready(Drain(t))
    decreases |t.pending|
  {
    hide Sound, Place;
    if Ready(t) {
      PlaceSound(t);
      DrainSound(Place(t));
    }
  }

  // ------------------------------------------------------------------ steps

  datatype Step =
    | Arrive(symbol: string, owner: string, order: Order, uuid: string)
    | Ack(n: SeqNo, ok: bool)
    | PositionReply(symbol: string, client: ClientId, ok: bool, net: int)
    | CancelBy(uuid: string, requester: string)
    | Auction(symbol: string, open: bool)
    | Watermarks(ok: bool, maxId: OrderId, maxRank: SeqNo)

  /** The id an order trades under: its own, or the next one the engine assigns. */
  function IdFor(t: Trader, o: Order): OrderId {
    if o.id == 0 then t.nextOrder else o.id
  }

  /** No order waiting or ever placed has this id. */
  ghost predicate Unused(t: Trader, id: OrderId) {
    && (forall n :: n in t.pending ==> t.pending[n].order.id != id)
    && (forall symbol :: id !in OwnersOf(t.h, symbol))
  }

  /** Order ids are unique, and a position reply answers an outstanding pull. */
  ghost predicate LegalStep(t: Trader, step: Step) {
    match step
    case Arrive(_, _, o, _) => Unused(t, IdFor(t, o)) && (o.IsIceberg() ==> o.displayQty >= 0)
    case PositionReply(symbol, client, _, _) => (symbol, client) in t.loading
    case _ => true
  }

  /** The account number of an owner; anonymous orders have account 0. */
  function ClientFor(t: Trader, owner: string): ClientId {
    if owner == "" then 0 else if owner in t.clients then t.clients[owner] else t.nextClient
  }

  /** submit: number the order, start loading its account's position if need be, report and wait. */
  function Arrived(t: Trader, symbol: string, owner: string, order: Order, uuid: string): Trader {
    var client := ClientFor(t, owner);
    var o := order.(id := IdFor(t, order), client := client);
    var ready := Loaded(t, symbol, client);
    t.(nextOrder := if order.id == 0 then t.nextOrder + 1 else t.nextOrder,
       clients := if owner == "" || owner in t.clients then t.clients else t.clients[owner := client],
       nextClient := if owner == "" || owner in t.clients then t.nextClient else t.nextClient + 1,
       loading := if ready then t.loading else t.loading + {(symbol, client)},
       pending := t.pending[t.nextAssign := Pending(symbol, owner, uuid, o, client, false, false, ready)],
       nextAssign := t.nextAssign + 1)
  }

  /** The storage verdict on arrival `n`. */
  function Acked(t: Trader, n: SeqNo, ok: bool): Trader {
    if n !in t.pending then t
    else t.(pending := t.pending[n := t.pending[n].(acked := true, ok := ok)],
            h := t.h.(acked := if ok then t.h.acked + {n} else t.h.acked))
  }

  function MadeReady(p: Pending, symbol: string, client: ClientId): Pending {
    if p.client == client && p.symbol == symbol then p.(posReady := true) else p
  }

  /** Every waiting order of the account in that symbol becomes ready. */
  function MarkReady(t: Trader, symbol: string, client: ClientId): Trader {
    t.(loading := t.loading - {(symbol, client)},
       loaded := t.loaded + {(symbol, client)},
       pending := map n | n in t.pending :: MadeReady(t.pending[n], symbol, client))
  }

  /** The position of an account has been pulled, or the pull failed. */
  ghost function Positioned(t: Trader, symbol: string, client: ClientId, ok: bool, net: int): Trader
    requires Sound(t) && (symbol, client) in t.loading
  {
    if !ok then MarkReady(t, symbol, client)
    else
      NoOrdersYet(t, symbol, client);
      SeedLegal(t.e, t.h, symbol, client, net);
      MarkReady(t.(e := Call(t.e, symbol, OpSeed(client, net)), h := Seeded(t.h, symbol, client, net)), symbol, client)
  }

  /** While its position is being loaded, an account has no order in that symbol's book: no fill can
      race the seed. */
  lemma NoOrdersYet(t: Trader, symbol: string, client: ClientId)
    requires KeysSound(t) && (symbol, client) in t.loading
    ensures client != 0 && forall id :: id in OwnersOf(t.h, symbol) ==> OwnersOf(t.h, symbol)[id] != client
  {
  }

  ghost function Cancelled(t: Trader, uuid: string, requester: string): Trader
    requires Sound(t)
  {
    if uuid !in t.reg.handles || t.reg.handles[uuid].owner != requester then t
    else
      var hd := t.reg.handles[uuid];
      t.(e := CallTwice(t.e, t.h, hd.symbol, OpCancel(hd.id)),
         reg := Registry(t.reg.handles - {uuid}, t.reg.uuids - {hd.id}))
  }

  ghost function Auctioned(t: Trader, symbol: string, open: bool): Trader
    requires Sound(t)
  {
    t.(e := CallTwice(t.e, t.h, symbol, OpAuction(open)))
  }

  /** An operation followed by the report of moved orders. */
  ghost function CallTwice(e: Engine, h: History, symbol: string, op: Op): (e': Engine)
    requires BooksSound(e, h) && Neutral(op)
    ensures BooksSound(e', h)
  {
    NeutralLegal(e, h, symbol, op);
    NeutralLegal(Call(e, symbol, op), h, symbol, OpTakeRequeued);
    Call(Call(e, symbol, op), symbol, OpTakeRequeued)
  }

  ghost function Watermarked(t: Trader, ok: bool, maxId: OrderId, maxRank: SeqNo): Trader
    requires Sound(t)
  {
    if !ok then t
    else
      AllInv(t.e, t.h);
      t.(nextOrder := if maxId + 1 > t.nextOrder then maxId + 1 else t.nextOrder, e := RebaseAll(t.e, maxRank + 1))
  }

  lemma AllInv(e: Engine, h: History)
    requires BooksSound(e, h)
    ensures BooksInv(e)
  {
    hide Accounted;
    forall symbol | symbol in e.books ensures StateInv(e.books[symbol]) {
      AccountedInv(BookFor(e, symbol), OwnersOf(h, symbol), SeedsOf(h, symbol));
    }
  }

  /** Once the boot watermarks are in, every id and every rank given out later exceeds them, in books
      there are and books to come; nothing else changes. */
  lemma WatermarksRaise(t: Trader, maxId: OrderId, maxRank: SeqNo, symbol: string)
    requires Sound(t)
    ensures Watermarked(t, false, maxId, maxRank) == t
    ensures var t' := Watermarked(t, true, maxId, maxRank);
      var s, s' := BookFor(t.e, symbol), BookFor(t'.e, symbol);
      && t' == t.(e := t'.e, nextOrder := t'.nextOrder) && t'.nextOrder > maxId && t'.nextOrder >= t.nextOrder
      && s'.c.nextSeq > maxRank && s' == s.(c := s.c.(nextSeq := s'.c.nextSeq))
      && (symbol in t.e.books ==> s'.c.nextSeq >= s.c.nextSeq)
  {
    hide Sound, RebaseAll, BookFor;
    SoundBooks(t);
    AllInv(t.e, t.h);
    RebasedBook(t.e, maxRank + 1, symbol);
  }

  lemma RebasedBook(e: Engine, base: SeqNo, symbol: string)
    requires BooksInv(e) && base > 0
    ensures var s, s' := BookFor(e, symbol), BookFor(RebaseAll(e, base), symbol);
      && s'.c.nextSeq >= base && s' == s.(c := s.c.(nextSeq := s'.c.nextSeq))
      && (symbol in e.books ==> s'.c.nextSeq >= s.c.nextSeq)
  {
    hide StateInv;
  }

  // ------------------------------------------------- every step is sound

  lemma ArrivedSound(t: Trader, symbol: string, owner: string, order: Order, uuid: string)
    requires Sound(t) && LegalStep(t, Arrive(symbol, owner, order, uuid)) && ClientsSound(t)
    ensures Sound(Arrived(t, symbol, owner, order, uuid)) && ClientsSound(Arrived(t, symbol, owner, order, uuid))
  {
    hide BooksSound, Succeeded;
    var t' := Arrived(t, symbol, owner, order, uuid);
    forall n | n in t'.pending ensures PendingOk(t', n, t'.pending[n]) {
      if n != t.nextAssign { assert PendingOk(t, n, t.pending[n]); }
    }
  }

  /** Owners have distinct positive account numbers. */
  ghost predicate ClientsSound(t: Trader) {
    && t.nextClient > 0
    && (forall a :: a in t.clients ==> 0 < t.clients[a] < t.nextClient)
    && (forall a, b :: a in t.clients && b in t.clients && a != b ==> t.clients[a] != t.clients[b])
  }

  lemma AckedSound(t: Trader, n: SeqNo, ok: bool)
    requires Sound(t)
    ensures Sound(Acked(t, n, ok))
  {
    hide BooksSound, Succeeded;
    var t' := Acked(t, n, ok);
    assert forall x :: OwnersOf(t'.h, x) == OwnersOf(t.h, x);
    forall m | m in t'.pending ensures PendingOk(t', m, t'.pending[m]) {
      assert PendingOk(t, m, t.pending[m]);
    }
    SameBooks(t'.e, t.h, t'.h);
  }

  lemma PositionedPending(t: Trader, t': Trader, symbol: string, client: ClientId)
    requires PendingSound(t) && KeysSound(t) && (symbol, client) in t.loading
    requires t' == MarkReady(t, symbol, client).(e := t'.e, h := t'.h)
    requires t'.h.owners == t.h.owners && t'.h.acked == t.h.acked
    requires t'.h.seeded == t.h.seeded || t'.h.seeded == t.h.seeded + [(symbol, client)]
    ensures PendingSound(t') && KeysSound(t')
  {
    assert forall x :: OwnersOf(t'.h, x) == OwnersOf(t.h, x);
    hide OwnersOf;
    forall n | n in t'.pending ensures PendingOk(t', n, t'.pending[n]) {
      assert PendingOk(t, n, t.pending[n]);
    }
  }

  lemma PositionedSound(t: Trader, symbol: string, client: ClientId, ok: bool, net: int)
    requires Sound(t) && (symbol, client) in t.loading
    ensures Sound(Positioned(t, symbol, client, ok, net))
  {
    hide PendingSound, KeysSound, BooksSound, Succeeded, Call, LegalCall;
    var t' := Positioned(t, symbol, client, ok, net);
    if ok {
      NoOrdersYet(t, symbol, client);
      SeedLegal(t.e, t.h, symbol, client, net);
    }
    PositionedPending(t, t', symbol, client);
  }

  lemma EngineOnly(t: Trader, t': Trader)
    requires Sound(t) && t' == t.(e := t'.e, reg := t'.reg, nextOrder := t'.nextOrder) && t'.nextOrder >= t.nextOrder
    requires BooksSound(t'.e, t'.h)
    ensures Sound(t')
  {
    hide BooksSound, Succeeded;
    forall n | n in t'.pending ensures PendingOk(t', n, t'.pending[n]) {
      assert PendingOk(t, n, t.pending[n]);
    }
  }

  lemma CancelledSound(t: Trader, uuid: string, requester: string)
    requires Sound(t)
    ensures Sound(Cancelled(t, uuid, requester))
  {
    hide PendingSound, KeysSound, BooksSound, Calls, Window, CallTwice;
    EngineOnly(t, Cancelled(t, uuid, requester));
  }

  lemma AuctionedSound(t: Trader, symbol: string, open: bool)
    requires Sound(t)
    ensures Sound(Auctioned(t, symbol, open))
  {
    hide PendingSound, KeysSound, BooksSound, Calls, Window, CallTwice;
    EngineOnly(t, Auctioned(t, symbol, open));
  }

  lemma WatermarkedSound(t: Trader, ok: bool, maxId: OrderId, maxRank: SeqNo)
    requires Sound(t)
    ensures Sound(Watermarked(t, ok, maxId, maxRank))
  {
    hide PendingSound, KeysSound, BooksSound, Calls, Window, RebaseAll;
    RebaseSound(t.e, t.h, maxRank + 1);
    EngineOnly(t, Watermarked(t, ok, maxId, maxRank));
  }

  lemma SoundBooks(t: Trader)
    requires Sound(t)
    ensures BooksSound(t.e, t.h)
  {
  }

  /** The seeding half of a position reply. */
  lemma PositionedSeed(t: Trader, symbol: string, client: ClientId, net: int)
    requires Sound(t) && (symbol, client) in t.loading
    ensures BooksInv(t.e) && LegalCall(t.e, symbol, OpSeed(client, net))
    ensures Positioned(t, symbol, client, true, net) ==
      MarkReady(t.(e := Call(t.e, symbol, OpSeed(client, net)), h := Seeded(t.h, symbol, client, net)), symbol, client)
  {
    NoOrdersYet(t, symbol, client);
    SeedLegal(t.e, t.h, symbol, client, net);
    hide Call, LegalCall, MarkReady, PendingSound, KeysSound, BooksSound, Calls, Window;
  }

  lemma RebaseSound(e: Engine, h: History, base: SeqNo)
    requires BooksSound(e, h)
    ensures BooksInv(e) && BooksSound(RebaseAll(e, base), h)
  {
    AllInv(e, h);
    forall x ensures Accounted(BookFor(RebaseAll(e, base), x), OwnersOf(h, x), SeedsOf(h, x)) {
      assert Accounted(BookFor(e, x), OwnersOf(h, x), SeedsOf(h, x));
      if x in e.books {
        hide Accounted, Apply;
        OperationAccounted(e.books[x], OpSetSeq(base), OwnersOf(h, x), SeedsOf(h, x));
      } else {
        NewBooksAlike(e, base, x, OwnersOf(h, x), SeedsOf(h, x));
      }
    }
  }

  lemma NewBooksAlike(e: Engine, base: SeqNo, x: string, owners: Owners, seeds: map<ClientId, int>)
    requires x !in e.books && Accounted(BookFor(e, x), owners, seeds)
    ensures Accounted(BookFor(e.(seqBase := base), x), owners, seeds)
  {
  }

  /** One step of the protocol. */
  ghost function Advance(t: Trader, step: Step): Trader
    requires Sound(t) && LegalStep(t, step)
  {
    match step
    case Arrive(symbol, owner, order, uuid) => Arrived(t, symbol, owner, order, uuid)
    case Ack(n, ok) =>
      AckedSound(t, n, ok);
      if n in t.pending then Drain(Acked(t, n, ok)) else t
    case PositionReply(symbol, client, ok, net) =>
      PositionedSound(t, symbol, client, ok, net);
      Drain(Positioned(t, symbol, client, ok, net))
    case CancelBy(uuid, requester) => Cancelled(t, uuid, requester)
    case Auction(symbol, open) => Auctioned(t, symbol, open)
    case Watermarks(ok, maxId, maxRank) => Watermarked(t, ok, maxId, maxRank)
  }

  lemma AdvanceArrive(t: Trader, symbol: string, owner: string, order: Order, uuid: string)
    requires Sound(t) && LegalStep(t, Arrive(symbol, owner, order, uuid))
    ensures Advance(t, Arrive(symbol, owner, order, uuid)) == Arrived(t, symbol, owner, order, uuid)
  {
    hide Sound;
  }

  lemma AdvanceAck(t: Trader, n: SeqNo, ok: bool)
    requires Sound(t)
    ensures Sound(Acked(t, n, ok))
    ensures Advance(t, Ack(n, ok)) == if n in t.pending then Drain(Acked(t, n, ok)) else t
  {
    hide Sound, Drain;
    AckedSound(t, n, ok);
  }

  lemma AdvancePosition(t: Trader, symbol: string, client: ClientId, ok: bool, net: int)
    requires Sound(t) && (symbol, client) in t.loading
    ensures Sound(Positioned(t, symbol, client, ok, net))
    ensures Advance(t, PositionReply(symbol, client, ok, net)) == Drain(Positioned(t, symbol, client, ok, net))
  {
    hide Sound, Drain;
    PositionedSound(t, symbol, client, ok, net);
  }

  /** Between steps: the invariant holds and no ready head is left waiting. */
  ghost predicate Quiet(t: Trader) {
    Sound(t) && ClientsSound(t) && !Ready(t)
  }

  lemma {:induction false} DrainClients(t: Trader)
    requires Sound(t)
    ensures Drain(t).clients == t.clients && Drain(t).nextClient == t.nextClient
    decreases |t.pending|
  {
    if Ready(t) {
      PlaceSound(t);
      if t.pending[t.nextPlace].ok { EnterKeeps(t); }
      hide Sound, Enter;
      DrainClients(Place(t));
    }
  }

  lemma ArriveQuiet(t: Trader, symbol: string, owner: string, order: Order, uuid: string)
    requires Quiet(t) && LegalStep(t, Arrive(symbol, owner, order, uuid))
    ensures Quiet(Arrived(t, symbol, owner, order, uuid))
  {
    ArrivedSound(t, symbol, owner, order, uuid);
    hide PendingSound, KeysSound, BooksSound, Calls, ClientsSound;
  }

  lemma DrainQuiet(t: Trader, t1: Trader)
    requires Quiet(t) && Sound(t1) && t1.clients == t.clients && t1.nextClient == t.nextClient
    ensures Quiet(Drain(t1))
  {
    hide Sound, Drain;
    DrainSound(t1);
    DrainClients(t1);
  }

  lemma EngineQuiet(t: Trader, t': Trader)
    requires Quiet(t) && t' == t.(e := t'.e, reg := t'.reg, nextOrder := t'.nextOrder) && t'.nextOrder >= t.nextOrder
    requires BooksSound(t'.e, t'.h)
    ensures Quiet(t')
  {
    hide Sound, BooksSound;
    EngineOnly(t, t');
  }

  lemma AckQuiet(t: Trader, n: SeqNo, ok: bool)
    requires Quiet(t)
    ensures Sound(Acked(t, n, ok)) && Quiet(Drain(Acked(t, n, ok)))
  {
    AckedSound(t, n, ok);
    hide Sound, Drain;
    DrainQuiet(t, Acked(t, n, ok));
  }

  lemma PositionQuiet(t: Trader, symbol: string, client: ClientId, ok: bool, net: int)
    requires Quiet(t) && (symbol, client) in t.loading
    ensures Sound(Positioned(t, symbol, client, ok, net)) && Quiet(Drain(Positioned(t, symbol, client, ok, net)))
  {
    PositionedSound(t, symbol, client, ok, net);
    hide Sound, Drain;
    DrainQuiet(t, Positioned(t, symbol, client, ok, net));
  }

  lemma CancelQuiet(t: Trader, uuid: string, requester: string)
    requires Quiet(t)
    ensures Quiet(Cancelled(t, uuid, requester))
  {
    hide PendingSound, KeysSound, BooksSound, Calls, Window, CallTwice, ClientsSound;
    EngineQuiet(t, Cancelled(t, uuid, requester));
  }

  lemma AuctionQuiet(t: Trader, symbol: string, open: bool)
    requires Quiet(t)
    ensures Quiet(Auctioned(t, symbol, open))
  {
    hide PendingSound, KeysSound, BooksSound, Calls, Window, CallTwice, ClientsSound;
    EngineQuiet(t, Auctioned(t, symbol, open));
  }

  lemma WatermarkQuiet(t: Trader, ok: bool, maxId: OrderId, maxRank: SeqNo)
    requires Quiet(t)
    ensures Quiet(Watermarked(t, ok, maxId, maxRank))
  {
    hide PendingSound, KeysSound, BooksSound, Calls, Window, RebaseAll, ClientsSound;
    RebaseSound(t.e, t.h, maxRank + 1);
    EngineQuiet(t, Watermarked(t, ok, maxId, maxRank));
  }

  /** Every step of every interleaving keeps it so. */
  lemma AdvanceQuiet(t: Trader, step: Step)
    requires Quiet(t) && LegalStep(t, step)
    ensures Quiet(Advance(t, step))
  {
    hide Window, Calls, PendingSound, KeysSound, BooksSound, ClientsSound, Ready, Arrived, Acked, Drain, Positioned;
    hide Cancelled, Auctioned, Watermarked;
    match step
    case Arrive(symbol, owner, order, uuid) => ArriveQuiet(t, symbol, owner, order, uuid);
    case Ack(n, ok) => AckQuiet(t, n, ok);
    case PositionReply(symbol, client, ok, net) => PositionQuiet(t, symbol, client, ok, net);
    case CancelBy(uuid, requester) => CancelQuiet(t, uuid, requester);
    case Auction(symbol, open) => AuctionQuiet(t, symbol, open);
    case Watermarks(ok, maxId, maxRank) => WatermarkQuiet(t, ok, maxId, maxRank);
  }

  // -------------------------------------------------------------- whole runs

  /** Every step is possible when its turn comes; that the engine is then sound follows. */
  ghost predicate LegalSteps(t: Trader, steps: seq<Step>)
    requires Quiet(t)
    decreases |steps|
  {
    steps != [] ==>
      && LegalStep(t, steps[0])
      && (AdvanceQuiet(t, steps[0]); LegalSteps(Advance(t, steps[0]), steps[1..]))
  }

  ghost function AdvanceAll(t: Trader, steps: seq<Step>): Trader
    requires Quiet(t) && LegalSteps(t, steps)
    decreases |steps|
  {
    if steps == [] then t
    else
      AdvanceQuiet(t, steps[0]);
      AdvanceAll(Advance(t, steps[0]), steps[1..])
  }

  lemma NewBooksSound(stp: StpPolicy)
    ensures forall x :: Accounted(BookFor(NoBooks(stp), x), NO_OWNERS, map[])
  {
    forall x ensures Accounted(BookFor(NoBooks(stp), x), NO_OWNERS, map[]) {
      NewBookAccounted(NoBooks(stp), x);
    }
  }

  lemma {:induction false} RunQuiet(t: Trader, steps: seq<Step>)
    requires Quiet(t) && LegalSteps(t, steps)
    ensures Quiet(AdvanceAll(t, steps))
    decreases |steps|
  {
    if steps != [] {
      AdvanceQuiet(t, steps[0]);
      hide Quiet, Sound, Advance;
      RunQuiet(Advance(t, steps[0]), steps[1..]);
    }
  }

  /** Every id in use is below the next one the engine assigns. */
  ghost predicate Numbered(t: Trader) {
    && (forall n :: n in t.pending ==> t.pending[n].order.id < t.nextOrder)
    && (forall symbol, id :: id in OwnersOf(t.h, symbol) ==> id < t.nextOrder)
  }

  lemma PlaceNumbered(t: Trader)
    requires Sound(t) && Ready(t) && Numbered(t)
    ensures Numbered(Place(t))
  {
    hide Sound, Enter, Numbered;
    var p := t.pending[t.nextPlace];
    if p.ok {
      EnterKeeps(t);
      OwnNumbered(t, Place(t), t.nextPlace);
    } else {
      SameNumbers(t, Place(t));
    }
  }

  /** Ids of waiting orders and owners may only have gone away. */
  lemma SameNumbers(t: Trader, t': Trader)
    requires Numbered(t) && t'.nextOrder >= t.nextOrder && t'.h.owners == t.h.owners
    requires forall n :: n in t'.pending ==> n in t.pending && t'.pending[n].order == t.pending[n].order
    ensures Numbered(t')
  {
    assert forall x :: OwnersOf(t'.h, x) == OwnersOf(t.h, x);
    hide OwnersOf;
  }

  /** A waiting order has reached its book. */
  lemma OwnNumbered(t: Trader, t': Trader, m: SeqNo)
    requires Numbered(t) && t'.nextOrder == t.nextOrder && m in t.pending
    requires var p := t.pending[m]; t'.h.owners == Own(t.h, p.symbol, p.order.id, p.client).owners
    requires forall n :: n in t'.pending ==> n in t.pending && t'.pending[n] == t.pending[n]
    ensures Numbered(t')
  {
    var p := t.pending[m];
    assert forall x ::
        (OwnersOf(t'.h, x) == OwnersOf(t.h, x)
        || (x == p.symbol && OwnersOf(t'.h, x) == OwnersOf(t.h, x)[p.order.id := p.client]));
    hide OwnersOf, Own;
  }

  lemma {:induction false} DrainNumbered(t: Trader)
    requires Sound(t) && Numbered(t)
    ensures Numbered(Drain(t))
    decreases |t.pending|
  {
    hide Sound, Place, Numbered;
    if Ready(t) {
      PlaceSound(t);
      PlaceNumbered(t);
      DrainNumbered(Place(t));
    }
  }

  lemma AdvanceNumbered(t: Trader, step: Step)
    requires Sound(t) && LegalStep(t, step) && Numbered(t) && (step.Arrive? ==> step.order.id == 0)
    ensures Numbered(Advance(t, step))
  {
    hide Sound, Drain, Call, CallTwice, RebaseAll, LegalCall;
    match step
    case Ack(n, ok) =>
      AckedSound(t, n, ok);
      SameNumbers(t, Acked(t, n, ok));
      if n in t.pending { DrainNumbered(Acked(t, n, ok)); }
    case PositionReply(symbol, client, ok, net) =>
      PositionedSound(t, symbol, client, ok, net);
      SameNumbers(t, Positioned(t, symbol, client, ok, net));
      DrainNumbered(Positioned(t, symbol, client, ok, net));
    case Arrive(_, _, _, _) => assert forall x :: OwnersOf(Advance(t, step).h, x) == OwnersOf(t.h, x);
    case _ => SameNumbers(t, Advance(t, step));
  }

  lemma {:induction false} RunNumbered(t: Trader, steps: seq<Step>)
    requires Quiet(t) && LegalSteps(t, steps) && Numbered(t)
    requires forall step :: step in steps && step.Arrive? ==> step.order.id == 0
    ensures Numbered(AdvanceAll(t, steps))
    decreases |steps|
  {
    if steps != [] {
      assert steps[0] in steps && forall step :: step in steps[1..] ==> step in steps;
      AdvanceQuiet(t, steps[0]);
      AdvanceNumbered(t, steps[0]);
      hide Sound, Advance, Numbered, LegalStep;
      RunNumbered(Advance(t, steps[0]), steps[1..]);
    }
  }

  /** As long as callers leave the numbering to the engine, every id it is about to assign is new,
      whatever the boot watermarks said and whenever they arrived. */
  lemma AssignedIdsAreNew(stp: StpPolicy, steps: seq<Step>)
    requires LegalSteps(Start(stp), steps)
    requires forall step :: step in steps && step.Arrive? ==> step.order.id == 0
    ensures var t := AdvanceAll(Start(stp), steps); Unused(t, t.nextOrder)
  {
    hide Quiet, AdvanceAll, LegalSteps;
    assert Numbered(Start(stp));
    RunNumbered(Start(stp), steps);
  }

  /** After any interleaving of steps: the waiting orders are exactly the arrivals not yet sequenced,
      every sequenced arrival had one callback, in arrival order, and no ready head is waiting. */
  lemma SequencedInOrder(stp: StpPolicy, steps: seq<Step>)
    requires LegalSteps(Start(stp), steps)
    ensures var t := AdvanceAll(Start(stp), steps);
      && (forall n :: n in t.pending <==> t.nextPlace <= n < t.nextAssign)
      && |t.h.called| == t.nextPlace - 1
      && (forall i :: 0 <= i < |t.h.called| ==> t.h.called[i].0 == i + 1)
      && !Ready(t)
  {
    hide PendingSound, KeysSound, BooksSound, AdvanceAll;
    RunQuiet(Start(stp), steps);
  }

  /** `s` lists, in increasing order, the arrivals whose callback reported success. */
  ghost predicate Marks(called: seq<(SeqNo, bool)>, s: seq<SeqNo>) {
    && (forall i, j :: 0 <= i < j < |s| ==> s[i] < s[j])
    && (forall n :: n in s ==> 1 <= n <= |called| && called[n - 1].1)
    && (forall i :: 0 <= i < |called| && called[i].1 ==> i + 1 in s)
  }

  lemma MarksPush(init: seq<(SeqNo, bool)>, s: seq<SeqNo>, x: (SeqNo, bool))
    requires Marks(init, s) && x.0 == |init| + 1
    ensures Marks(init + [x], if x.1 then s + [x.0] else s)
  {
    var called := init + [x];
    assert forall i :: 0 <= i < |s| ==> s[i] in s;
    forall i | 0 <= i < |called| && called[i].1 ensures i + 1 in if x.1 then s + [x.0] else s {
      if i < |init| { assert init[i].1; }
    }
  }

  lemma {:induction false} SucceededAre(called: seq<(SeqNo, bool)>)
    requires forall i :: 0 <= i < |called| ==> called[i].0 == i + 1
    ensures Marks(called, Succeeded(called))
    decreases |called|
  {
    if called != [] {
      hide Marks, Succeeded;
      var init, x := called[..|called| - 1], called[|called| - 1];
      SucceededAre(init);
      MarksPush(init, Succeeded(init), x);
      SucceededPush(init, x);
      assert called == init + [x];
      assert Succeeded(init) + [] == Succeeded(init);
    }
  }

  /** After any interleaving: orders reached their books strictly in arrival order, each at most once,
      exactly those whose callback reports storage success, and only after a successful
      acknowledgement. */
  lemma PlacedInOrder(stp: StpPolicy, steps: seq<Step>)
    requires LegalSteps(Start(stp), steps)
    ensures var t := AdvanceAll(Start(stp), steps);
      && |t.h.called| == t.nextPlace - 1 && Marks(t.h.called, t.h.placed)
      && (forall n :: n in t.h.placed ==> n in t.h.acked)
  {
    hide PendingSound, KeysSound, BooksSound, AdvanceAll, Succeeded, Marks;
    RunQuiet(Start(stp), steps);
    SucceededAre(AdvanceAll(Start(stp), steps).h.called);
  }

  /** After any interleaving: at most one seed per account and symbol, no order of an account in a
      book before its position is loaded there, and every account's position is what was pulled (zero
      if the pull failed) plus the signed sum of its fills, auction fills included. */
  lemma PositionsBalance(stp: StpPolicy, steps: seq<Step>, symbol: string, a: ClientId)
    requires LegalSteps(Start(stp), steps) && a != 0
    ensures var t := AdvanceAll(Start(stp), steps);
      var c := BookFor(t.e, symbol).c;
      && (forall i, j :: 0 <= i < j < |t.h.seeded| ==> t.h.seeded[i] != t.h.seeded[j])
      && ((exists id :: id in OwnersOf(t.h, symbol) && OwnersOf(t.h, symbol)[id] == a) ==> (symbol, a) in t.loaded)
      && NetOf(c, a) == SeedOf(SeedsOf(t.h, symbol), a) + Flow(OwnersOf(t.h, symbol), c.events, a)
  {
    hide PendingSound, AdvanceAll, StateInv, GoodState, EventsOwned, BookFor, Flow, NetOf;
    RunQuiet(Start(stp), steps);
    var t := AdvanceAll(Start(stp), steps);
    assert Accounted(BookFor(t.e, symbol), OwnersOf(t.h, symbol), SeedsOf(t.h, symbol));
  }
}
