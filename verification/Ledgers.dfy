/** What a book owes its accounts over a whole life: with one owner per order id, each account's
    position is its seed plus the signed sum of its fills (src/core/order_book.cc, apply_position,
    seed_position). */
module Ledgers {
  import opened OrderTypes
  import opened BookCore
  import opened Sessions
  import opened Traces
  import opened OpTraces
  import opened Accounting
  import opened Runs
  import opened Engines

  type Owners = map<OrderId, ClientId>

  /** Every order a trade event names has a known owner. */
  ghost predicate EventsOwned(owners: Owners, evs: seq<BookEvent>) {
    forall i :: 0 <= i < |evs| && evs[i].typ == EvTrade ==> evs[i].taker in owners && evs[i].id in owners
  }

  lemma OwnedAppend(owners: Owners, p: seq<BookEvent>, q: seq<BookEvent>)
    requires EventsOwned(owners, p) && EventsOwned(owners, q)
    ensures EventsOwned(owners, p + q)
  {
  }

  /** An elementary change names only orders whose owner is known. */
  lemma NewEventsOwned(k: Kind, c: Core, a: Atom)
    requires Inv(c) && k.owners.Some? && OwnedBook(k.owners.value, c) && AtomOk(k, c, a)
    ensures EventsOwned(k.owners.value, NewEvents(c, a))
  {
    if a.Fill? { MakerSound(c, a.id); }
    hide Inv, Move, Rest;
  }

  lemma DoEventsOwned(k: Kind, c: Core, a: Atom)
    requires Inv(c) && k.owners.Some? && OwnedBook(k.owners.value, c) && AtomOk(k, c, a)
    requires EventsOwned(k.owners.value, c.events)
    ensures EventsOwned(k.owners.value, Do(c, a).events)
  {
    hide Inv, Do, OwnedBook, NewEvents, EventsOwned;
    DoEvents(c, a);
    NewEventsOwned(k, c, a);
    OwnedAppend(k.owners.value, c.events, NewEvents(c, a));
  }

  lemma {:induction false} PathEventsOwned(k: Kind, c: Core, path: seq<Atom>)
    requires Inv(c) && GoodCore(k, c) && Fits(k, c, path) && k.owners.Some? && EventsOwned(k.owners.value, c.events)
    ensures EventsOwned(k.owners.value, After(k, c, path).events)
    decreases |path|
  {
    if path != [] {
      DoEventsOwned(k, c, path[0]);
      hide Inv, EventsOwned;
      DoGood(k, c, path[0]);
      hide GoodCore;
      PathEventsOwned(k, Do(c, path[0]), path[1..]);
    }
  }

  lemma StepsEventsOwned(k: Kind, c: Core, c': Core)
    requires Inv(c) && GoodCore(k, c) && Steps(k, c, c') && k.owners.Some? && EventsOwned(k.owners.value, c.events)
    ensures EventsOwned(k.owners.value, c'.events)
  {
    hide Inv, GoodCore, EventsOwned;
    var path :| Fits(k, c, path) && After(k, c, path) == c';
    PathEventsOwned(k, c, path);
  }

  // ------------------------------------------------------------------ flows

  /** A new order does not change what past events mean. */
  lemma {:induction false} FlowExtend(owners: Owners, id: OrderId, client: ClientId, evs: seq<BookEvent>, a: ClientId)
    requires EventsOwned(owners, evs) && id !in owners
    ensures Flow(owners[id := client], evs, a) == Flow(owners, evs, a)
    decreases |evs|
  {
    if evs != [] {
      assert forall i :: 0 <= i < |evs[1..]| ==> evs[1..][i] == evs[i + 1];
      FlowExtend(owners, id, client, evs[1..], a);
    }
  }

  /** An account without orders has no fills. */
  lemma {:induction false} FlowNone(owners: Owners, evs: seq<BookEvent>, a: ClientId)
    requires forall id :: id in owners ==> owners[id] != a
    ensures Flow(owners, evs, a) == 0
    decreases |evs|
  {
    if evs != [] {
      FlowNone(owners, evs[1..], a);
    }
  }

  // --------------------------------------------------------------- accounts

  function SeedOf(seeds: map<ClientId, int>, a: ClientId): int {
    if a in seeds then seeds[a] else 0
  }

  /** Every account's position is its seed plus its fills. */
  ghost predicate Balanced(c: Core, owners: Owners, seeds: map<ClientId, int>) {
    forall a: ClientId :: a != 0 ==> NetOf(c, a) == SeedOf(seeds, a) + Flow(owners, c.events, a)
  }

  ghost predicate Accounted(s: State, owners: Owners, seeds: map<ClientId, int>) {
    StateInv(s) && GoodState(OwnedKind(owners), s) && EventsOwned(owners, s.c.events) && Balanced(s.c, owners, seeds)
  }

  lemma BalancedStep(c: Core, c': Core, owners: Owners, seeds: map<ClientId, int>)
    requires Balanced(c, owners, seeds) && Ledger(owners, c, c')
    ensures Balanced(c', owners, seeds)
  {
    forall a: ClientId | a != 0 ensures NetOf(c', a) == SeedOf(seeds, a) + Flow(owners, c'.events, a) {
      FlowAppend(owners, c.events, c'.events[|c.events|..], a);
      assert c'.events == c.events + c'.events[|c.events|..];
    }
  }

  /** Every operation but a seed keeps the accounts balanced, given that its own order is owned. */
  lemma OperationAccounted(s: State, op: Op, owners: Owners, seeds: map<ClientId, int>)
    requires Accounted(s, owners, seeds) && Legal(s, op) && GoodOp(OwnedKind(owners), op)
    ensures Accounted(Apply(s, op), owners, seeds)
  {
    hide StateInv, GoodState, Steps, Apply, Legal, GoodOp, Balanced, GoodCore, EventsOwned, Ledger;
    ApplyInv(s, op);
    ApplySteps(OwnedKind(owners), s, op);
    GoodParts(OwnedKind(owners), s);
    StepsLedger(OwnedKind(owners), s.c, Apply(s, op).c);
    StepsEventsOwned(OwnedKind(owners), s.c, Apply(s, op).c);
    BalancedStep(s.c, Apply(s, op).c, owners, seeds);
  }

  lemma GoodExtend(s: State, owners: Owners, id: OrderId, client: ClientId)
    requires GoodState(OwnedKind(owners), s) && id !in owners
    ensures GoodState(OwnedKind(owners[id := client]), s)
  {
  }

  /** A new order id may be given an owner at any time. */
  lemma OwnerJoins(s: State, owners: Owners, seeds: map<ClientId, int>, id: OrderId, client: ClientId)
    requires Accounted(s, owners, seeds) && id !in owners
    ensures Accounted(s, owners[id := client], seeds)
  {
    hide StateInv, GoodState;
    GoodExtend(s, owners, id, client);
    forall a: ClientId | a != 0
      ensures NetOf(s.c, a) == SeedOf(seeds, a) + Flow(owners[id := client], s.c.events, a)
    {
      FlowExtend(owners, id, client, s.c.events, a);
    }
  }

  /** An order whose id never entered the book is admissible and keeps the accounts balanced. */
  lemma SubmitAccounted(s: State, o: Order, owners: Owners, seeds: map<ClientId, int>)
    requires Accounted(s, owners, seeds) && o.id !in owners && (o.IsIceberg() ==> o.displayQty >= 0)
    ensures Legal(s, OpSubmit(o)) && Accounted(Apply(s, OpSubmit(o)), owners[o.id := o.client], seeds)
  {
    NeverQueued(s, o, owners);
    OwnerJoins(s, owners, seeds, o.id, o.client);
    assert GoodOp(OwnedKind(owners[o.id := o.client]), OpSubmit(o));
    hide Accounted, Apply, GoodOp;
    OperationAccounted(s, OpSubmit(o), owners[o.id := o.client], seeds);
  }

  lemma NeverQueued(s: State, o: Order, owners: Owners)
    requires GoodState(OwnedKind(owners), s) && o.id !in owners && (o.IsIceberg() ==> o.displayQty >= 0)
    ensures Admissible(s, o)
  {
  }

  /** Seeding an account that has no order yet. */
  lemma SeedAccounted(s: State, a: ClientId, net: int, owners: Owners, seeds: map<ClientId, int>)
    requires Accounted(s, owners, seeds) && a != 0 && forall id :: id in owners ==> owners[id] != a
    ensures Accounted(Apply(s, OpSeed(a, net)), owners, seeds[a := net])
  {
    ApplyInv(s, OpSeed(a, net));
    SeedGood(s, a, net, owners);
    hide StateInv, GoodState;
    FlowNone(owners, s.c.events, a);
    hide Flow;
  }

  lemma SeedGood(s: State, a: ClientId, net: int, owners: Owners)
    requires StateInv(s) && GoodState(OwnedKind(owners), s)
    ensures GoodState(OwnedKind(owners), Apply(s, OpSeed(a, net)))
  {
  }

  const NO_OWNERS: Owners := map[]

  lemma NewBookAccounted(e: Engine, symbol: string)
    requires symbol !in e.books
    ensures Accounted(BookFor(e, symbol), NO_OWNERS, map[])
  {
  }
}
