/** Reduce-only accounts: an account that only ever submits continuous reduce-only orders never has
    more reserved than it holds, and its position only shrinks toward zero
    (src/core/order_book.cc, reduce_only_capacity, rest, release_reserved, submit). */
module ReduceOnlyAccounts {
  import opened OrderTypes
  import opened BookSums
  import opened BookCore
  import opened Matching
  import opened Liquidity
  import opened Pegs
  import opened Sessions
  import opened Traces
  import opened OpTraces
  import opened Accounting
  import opened Guarantees
  import opened Runs

  /** Reservations rest on the reducing side only and never exceed the position. */
  predicate Bounded(p: Position) {
    && (p.net >= 0 ==> p.reservedBuy == 0 && 0 <= p.reservedSell <= p.net)
    && (p.net <= 0 ==> p.reservedSell == 0 && 0 <= p.reservedBuy <= -p.net)
  }

  /** From `n` to `m` the position shrank toward zero (or stayed) and kept its sign. */
  predicate Toward(n: int, m: int) {
    (n >= 0 ==> 0 <= m <= n) && (n <= 0 ==> n <= m <= 0)
  }

  ghost predicate Reducer(c: Core, a: ClientId) {
    && a != 0 && ReservedExact(c) && Bounded(PositionOf(c.positions, a))
    && (forall id :: id in c.orders && c.orders[id].o.client == a ==> c.orders[id].o.Has(ReduceOnly))
  }

  function Apart(a: ClientId): Kind {
    Kind(false, false, false, false, Some(a), None)
  }

  lemma ReservedSums(c: Core, a: ClientId, s: Side)
    requires Inv(c) && ReservedExact(c) && a != 0
    ensures PositionOf(c.positions, a).Reserved(s) == Sum(c.orders, ReservedOf(a, s)) >= 0
    ensures forall id :: id in c.orders ==> Weight(ReservedOf(a, s), c.orders[id]) <= Sum(c.orders, ReservedOf(a, s))
  {
    SumZero(c.orders, ReservedOf(a, s));
    forall id | id in c.orders ensures Weight(ReservedOf(a, s), c.orders[id]) <= Sum(c.orders, ReservedOf(a, s)) {
      SumBounds(c.orders, ReservedOf(a, s), id);
    }
  }

  // ------------------------------------------------ other accounts' activity

  lemma OthersReserve(ps: map<ClientId, Position>, o: Order, x: int, a: ClientId)
    requires o.client != a
    ensures PositionOf(Reserve(ps, o, x), a) == PositionOf(ps, a)
    ensures PositionOf(Release(ps, o, x), a) == PositionOf(ps, a)
  {
  }

  lemma OthersFill(ps: map<ClientId, Position>, b: ClientId, s: Side, x: int, a: ClientId)
    requires b != a
    ensures PositionOf(ApplyFill(ps, b, s, x), a) == PositionOf(ps, a)
  {
  }

  /** The account's resting order `id` is hit, or leaves. */
  lemma LeaveReducer(c: Core, id: OrderId, a: ClientId)
    requires Inv(c) && Reducer(c, a) && id in c.orders
    ensures Bounded(PositionOf(Withdraw(c, id).positions, a))
    ensures NetOf(Withdraw(c, id), a) == NetOf(c, a)
  {
    var o := c.orders[id].o;
    if o.client == a {
      ReservedSums(c, a, o.side);
      ReservedClientKnown(c, id);
      assert Weight(ReservedOf(a, o.side), c.orders[id]) == o.leaves;
    } else {
      OthersReserve(c.positions, o, o.leaves, a);
    }
  }

  lemma FillReducer(c: Core, o: Order, id: OrderId, x: int, a: ClientId)
    requires Inv(c) && Reducer(c, a) && id in c.orders && 0 < x <= c.orders[id].o.leaves && o.client != a
    ensures Bounded(PositionOf(Hit(c, o, id, x).positions, a))
    ensures Toward(NetOf(c, a), NetOf(Hit(c, o, id, x), a))
  {
    var m := c.orders[id];
    HitPositions(c, o, id, x);
    var ps1 := ApplyFill(c.positions, o.client, o.side, x);
    OthersFill(c.positions, o.client, o.side, x, a);
    if m.o.client == a {
      ReservedSums(c, a, m.o.side);
      ReservedClientKnown(c, id);
      assert Weight(ReservedOf(a, m.o.side), m) == m.o.leaves;
    } else {
      OthersFill(ps1, m.o.client, m.o.side, x, a);
      OthersReserve(ApplyFill(ps1, m.o.client, m.o.side, x), m.o, x, a);
    }
  }

  lemma DoOrders(k: Kind, c: Core, a: Atom, acct: ClientId)
    requires AtomOk(k, c, a) && k.apart == Some(acct)
    requires forall id :: id in c.orders && c.orders[id].o.client == acct ==> c.orders[id].o.Has(ReduceOnly)
    ensures forall id ::
      id in Do(c, a).orders && Do(c, a).orders[id].o.client == acct ==> Do(c, a).orders[id].o.Has(ReduceOnly)
  {
    match a
    case Fill(o, id, x) => HitEvolves(c, o, id, x);
    case _ =>
  }

  /** No atom of other accounts' making enlarges or flips the account's position. */
  lemma DoReducer(k: Kind, c: Core, a: Atom, acct: ClientId)
    requires Inv(c) && Reducer(c, acct) && AtomOk(k, c, a) && k.apart == Some(acct)
    ensures Reducer(Do(c, a), acct) && Toward(NetOf(c, acct), NetOf(Do(c, a), acct))
  {
    DoReserved(k, c, a);
    DoOrders(k, c, a, acct);
    match a
    case Join(o) => hide Inv, ReservedExact; OthersReserve(c.positions, o, o.leaves, acct);
    case Leave(id) => hide Inv, ReservedExact; LeaveReducer(c, id, acct);
    case Fill(o, id, x) =>
      SlotLeaves(c, id);
      hide Inv, ReservedExact, Hit;
      FillReducer(c, o, id, x, acct);
    case Auctioned(b, s, p, x) =>
      hide Inv, ReservedExact;
      OthersFill(c.positions, b.o.client, Buy, x, acct);
      OthersFill(ApplyFill(c.positions, b.o.client, Buy, x), s.o.client, Sell, x, acct);
    case _ => hide Inv, ReservedExact;
  }

  lemma SlotLeaves(c: Core, id: OrderId)
    requires Inv(c) && id in c.orders
    ensures c.orders[id].Exposed() <= c.orders[id].o.leaves
  {
  }

  lemma {:induction false} PathReducer(k: Kind, c: Core, path: seq<Atom>, acct: ClientId)
    requires Inv(c) && Reducer(c, acct) && Fits(k, c, path) && k.apart == Some(acct)
    ensures Reducer(After(k, c, path), acct) && Toward(NetOf(c, acct), NetOf(After(k, c, path), acct))
    decreases |path|
  {
    hide Inv, Reducer;
    if path != [] {
      DoInv(k, c, path[0]);
      DoReducer(k, c, path[0], acct);
      PathReducer(k, Do(c, path[0]), path[1..], acct);
    }
  }

  lemma StepsReducer(k: Kind, c: Core, c': Core, acct: ClientId)
    requires Inv(c) && Reducer(c, acct) && Steps(k, c, c') && k.apart == Some(acct)
    ensures Reducer(c', acct) && Toward(NetOf(c, acct), NetOf(c', acct))
  {
    hide Inv, Reducer;
    var path :| Fits(k, c, path) && After(k, c, path) == c';
    PathReducer(k, c, path, acct);
  }

  // ------------------------------------------------- the account's own order

  /** What is left of the account's reduce-only aggressor still fits into the position. */
  ghost predicate Room(c: Core, o: Order) {
    && o.Has(ReduceOnly) && o.client != 0 && o.leaves >= 0
    && var p := PositionOf(c.positions, o.client);
    if o.side == Sell then o.leaves + p.reservedSell <= p.net else o.leaves + p.reservedBuy <= -p.net
  }

  /** While the aggressor has something left, no contra order of its account rests. */
  lemma NoOwnContra(c: Core, o: Order, id: OrderId)
    requires Inv(c) && Reducer(c, o.client) && Room(c, o) && o.leaves > 0
    requires id in c.orders && c.orders[id].o.side == o.side.Opposite()
    ensures c.orders[id].o.client != o.client
  {
    ReservedSums(c, o.client, o.side);
    ReservedSums(c, o.client, o.side.Opposite());
    assert c.orders[id].o.leaves > 0;
    assert Weight(ReservedOf(o.client, o.side.Opposite()), c.orders[id]) <= 0;
  }

  /** The position and reservation effect of the account's aggressor taking `x` from another account. */
  lemma TakeReducer(c: Core, o: Order, id: OrderId, x: int)
    requires Bounded(PositionOf(c.positions, o.client)) && Room(c, o)
    requires id in c.orders && c.orders[id].o.client != o.client && 0 < x <= o.leaves
    requires x <= c.orders[id].o.leaves
    ensures var p := PositionOf(Hit(c, o, id, x).positions, o.client);
      && Bounded(p) && Toward(NetOf(c, o.client), p.net)
      && Room(Hit(c, o, id, x), AfterFill(o, x))
  {
    HitPositions(c, o, id, x);
    hide Hit;
    var mk := c.orders[id].o;
    var ps1 := ApplyFill(c.positions, o.client, o.side, x);
    OthersFill(ps1, mk.client, mk.side, x, o.client);
    OthersReserve(ApplyFill(ps1, mk.client, mk.side, x), mk, x, o.client);
  }

  lemma HitKeepsFlags(c: Core, o: Order, id: OrderId, x: int, a: ClientId)
    requires id in c.orders && 0 < x <= c.orders[id].o.leaves
    requires forall i :: i in c.orders && c.orders[i].o.client == a ==> c.orders[i].o.Has(ReduceOnly)
    ensures var c' := Hit(c, o, id, x);
      forall i :: i in c'.orders && c'.orders[i].o.client == a ==> c'.orders[i].o.Has(ReduceOnly)
  {
    HitEvolves(c, o, id, x);
    hide Hit;
  }

  lemma ActReducer(m: Match, id: OrderId)
    requires Inv(m.c) && Reducer(m.c, m.o.client) && Room(m.c, m.o) && m.o.leaves > 0
    requires id in m.c.orders && m.c.orders[id].o.side == m.o.side.Opposite()
    ensures var m' := Act(m, id);
      && Reducer(m'.c, m.o.client) && m'.o.client == m.o.client && Room(m'.c, m'.o)
      && Toward(NetOf(m.c, m.o.client), NetOf(m'.c, m.o.client))
  {
    NoOwnContra(m.c, m.o, id);
    var x := FillSize(m.o, m.c.orders[id]);
    SlotLeaves(m.c, id);
    FillReserved(m.c, m.o, id, x);
    hide Inv, ReservedExact, Hit, Room, Bounded;
    TakeReducer(m.c, m.o, id, x);
    HitKeepsFlags(m.c, m.o, id, x, m.o.client);
  }

  lemma {:induction false} MatchReducer(m: Match)
    requires Inv(m.c) && Reducer(m.c, m.o.client) && Room(m.c, m.o)
    ensures var r := MatchAll(m);
      && Reducer(r.c, m.o.client) && r.o.client == m.o.client && Room(r.c, r.o)
      && Toward(NetOf(m.c, m.o.client), NetOf(r.c, m.o.client))
    decreases Work(m)
  {
    hide Inv, Reducer, Room;
    if !Done(m) {
      var id := Next(m.c, m.o).value;
      NextSound(m.c, m.o);
      ActInv(m, id);
      RoomLeaves(m.c, m.o);
      ActReducer(m, id);
      MatchReducer(Act(m, id));
    }
  }

  lemma RoomLeaves(c: Core, o: Order)
    requires Room(c, o)
    ensures o.leaves >= 0
  {
  }

  lemma RestReducer(c: Core, o: Order)
    requires Reducer(c, o.client) && Room(c, o) && o.id !in c.orders
    ensures Reducer(Rest(c, o), o.client) && NetOf(Rest(c, o), o.client) == NetOf(c, o.client)
  {
    JoinReserved(c, o);
    hide ReservedExact;
  }

  ghost predicate Account(s: State, a: ClientId) {
    StateInv(s) && Reducer(s.c, a) && GoodState(Apart(a), s)
  }

  ghost predicate AccountAfter(s: State, s': State, a: ClientId) {
    Account(s', a) && Toward(NetOf(s.c, a), NetOf(s'.c, a))
  }

  lemma AccountSteps(s: State, s': State, a: ClientId)
    requires Account(s, a) && StateInv(s') && Steps(Apart(a), s.c, s'.c) && GoodState(Apart(a), s')
    ensures AccountAfter(s, s', a)
  {
    hide Reducer, Steps;
    StepsReducer(Apart(a), s.c, s'.c, a);
  }

  lemma TowardTrans(s: State, s1: State, s2: State, a: ClientId)
    requires AccountAfter(s, s1, a) && AccountAfter(s1, s2, a)
    ensures AccountAfter(s, s2, a)
  {
  }

  /** Cascade and repricing after the account's own order traded. */
  lemma SettleReducer(s1: State, trades: seq<Trade>, a: ClientId)
    requires Account(s1, a)
    ensures var r := if trades != [] then Cascade(Run(s1, trades)) else Run(s1, trades);
      StateInv(r.s) && AccountAfter(s1, r.s.(c := RepriceAll(r.s.c)), a)
  {
    hide Inv, StopsOk, QueueOk, Reducer, GoodState, Steps, RepriceAll;
    StepsNone(Apart(a), s1.c);
    TradeThen(Apart(a), s1.c, s1, trades);
    var r := if trades != [] then Cascade(Run(s1, trades)) else Run(s1, trades);
    RepriceStateInv(r.s);
    AccountSteps(s1, r.s.(c := RepriceAll(r.s.c)), a);
  }

  lemma OwnTrade(s: State, o: Order)
    requires Account(s, o.client) && Fresh(s, o) && Room(s.c, o)
    ensures AccountAfter(s, SubmitTrade(s, o).s, o.client)
  {
    hide Inv, StopsOk, QueueOk, Reducer, RepriceAll, Room, GoodOrder;
    var a := o.client;
    var m0 := Match(s.c, o, [], false);
    var m := MatchAll(m0);
    MatchReducer(m0);
    TradeInv(s, o);
    MatchAllEvolves(m0);
    var rests := m.o.leaves > 0 && !m.halted && !m.o.Discards();
    if rests { RestReducer(m.c, m.o); }
    var s1 := s.(c := if rests then Rest(m.c, m.o) else m.c);
    assert Account(s1, a);
    hide Account;
    SettleReducer(s1, m.trades, a);
    TowardThen(s, s1, SubmitTrade(s, o).s, a);
  }

  lemma TowardThen(s: State, s1: State, s2: State, a: ClientId)
    requires Toward(NetOf(s.c, a), NetOf(s1.c, a)) && AccountAfter(s1, s2, a)
    ensures AccountAfter(s, s2, a)
  {
    hide Account;
  }

  lemma OwnRest(s: State, o: Order)
    requires Account(s, o.client) && Fresh(s, o) && Room(s.c, o)
    ensures Inv(Rest(s.c, o)) && AccountAfter(s, s.(c := RepriceAll(Rest(s.c, o))), o.client)
  {
    RestStateInv(s, o);
    RestReducer(s.c, o);
    hide StateInv, Reducer, Room, RepriceAll, Rest, GoodOrder, Toward;
    var s1 := s.(c := Rest(s.c, o));
    assert Account(s1, o.client);
    hide Account, AccountAfter;
    SettleReducer(s1, [], o.client);
    SameToward(NetOf(s.c, o.client));
    TowardThen(s, s1, s1.(c := RepriceAll(s1.c)), o.client);
  }

  lemma SameToward(n: int)
    ensures Toward(n, n)
  {
  }

  lemma OwnSized(s: State, o: Order)
    requires Account(s, o.client) && Fresh(s, o) && Room(s.c, o)
    ensures AccountAfter(s, SubmitSized(s, o).s, o.client)
  {
    hide Inv, StopsOk, QueueOk, Reducer, GoodState, Fresh, Room, RepriceAll, Rest, SubmitTrade, Available, AccountAfter;
    SameAccount(s, o.client);
    OwnTrade(s, o);
    OwnRest(s, o);
  }

  lemma SameAccount(s: State, a: ClientId)
    requires Account(s, a)
    ensures AccountAfter(s, s, a)
  {
  }

  lemma CappedRoom(c: Core, o: Order)
    requires o.Has(ReduceOnly) && o.client != 0 && o.leaves > 0 && Capacity(c, o) > 0
    ensures Room(c, Capped(o, Capacity(c, o)))
  {
  }

  lemma OwnPlain(s: State, o: Order)
    requires Account(s, o.client) && Fresh(s, o) && o.Has(ReduceOnly)
    ensures AccountAfter(s, SubmitPlain(s, o).s, o.client)
  {
    SameAccount(s, o.client);
    if o.client != 0 && Capacity(s.c, o) > 0 {
      CappedRoom(s.c, o);
      hide StateInv, Account, AccountAfter, SubmitSized;
      OwnSized(s, Capped(o, Capacity(s.c, o)));
    }
  }

  lemma OwnStamp(s: State, o0: Order)
    requires Account(s, o0.client) && Admissible(s, o0)
    ensures AccountAfter(s, s.(c := StampCore(s.c, o0.id)), o0.client)
  {
    hide Inv, StopsOk, QueueOk, Reducer, Toward, GoodOrder;
    StampInv(s, o0);
    AtomSteps(Apart(o0.client), s, Number(o0.id));
    AccountSteps(s, s.(c := StampCore(s.c, o0.id)), o0.client);
  }

  lemma StampKeeps(o: Order, n: SeqNo)
    requires o.Has(ReduceOnly) && Continuous(o)
    ensures var p := Stamp(o, n);
      p.Has(ReduceOnly) && p.id == o.id && p.client == o.client && !p.IsOpening() && !p.IsClosing()
      && (p.trigger.None? || p.trigger.value.triggered) && p.peg.None?
  {
  }

  lemma OwnSubmit(s: State, o0: Order)
    requires Account(s, o0.client) && Admissible(s, o0) && o0.Has(ReduceOnly) && Continuous(o0)
    ensures AccountAfter(s, Submit(s, o0).s, o0.client)
  {
    var o := Stamp(o0, s.c.nextSeq);
    var s1 := s.(c := StampCore(s.c, o.id));
    OwnStamp(s, o0);
    StampInv(s, o0);
    StampKeeps(o0, s.c.nextSeq);
    hide StateInv, Reducer, GoodState, SubmitPlain, Fresh, Toward, Stamp, Continuous;
    if o.qty > 0 && o.leaves > 0 && o.id !in s.c.orders && o.id !in s.stops {
      OwnPlain(s1, o);
      TowardTrans(s, s1, SubmitPlain(s1, o).s, o.client);
    }
  }

  // -------------------------------------------------------------- whole runs

  /** The account's own orders are continuous and reduce-only, and its position is not re-seeded. */
  predicate ReducerOp(a: ClientId, op: Op) {
    || GoodOp(Apart(a), op)
    || (op.OpSubmit? && op.o.client == a && op.o.Has(ReduceOnly) && Continuous(op.o))
  }

  lemma ApplyReducer(s: State, op: Op, a: ClientId)
    requires Account(s, a) && Legal(s, op) && ReducerOp(a, op)
    ensures AccountAfter(s, Apply(s, op), a)
  {
    ApplyInv(s, op);
    if GoodOp(Apart(a), op) {
      ApplySteps(Apart(a), s, op);
      hide StateInv, Reducer, GoodState, Apply;
      AccountSteps(s, Apply(s, op), a);
    } else {
      hide Account, AccountAfter, StateInv;
      OwnSubmit(s, op.o);
    }
  }

  /** For an account that only submits continuous reduce-only orders, in every state of every run
      0 <= reserved <= |net| on the reducing side, nothing is reserved on the other, and the position
      has only shrunk toward zero without changing sign. */
  lemma {:induction false} ReducerAfterRun(s: State, ops: seq<Op>, a: ClientId)
    requires Account(s, a) && LegalRun(s, ops) && forall op :: op in ops ==> ReducerOp(a, op)
    ensures AccountAfter(s, RunOps(s, ops), a)
    decreases |ops|
  {
    if ops == [] {
      SameAccount(s, a);
    } else {
      hide Account, AccountAfter, Apply, StateInv, ReducerOp;
      assert ops[0] in ops && forall op :: op in ops[1..] ==> op in ops;
      ApplyReducer(s, ops[0], a);
      AfterAccount(s, Apply(s, ops[0]), a);
      ReducerAfterRun(Apply(s, ops[0]), ops[1..], a);
      TowardTrans(s, Apply(s, ops[0]), RunOps(s, ops), a);
    }
  }

  lemma AfterAccount(s: State, s': State, a: ClientId)
    requires AccountAfter(s, s', a)
    ensures Account(s', a)
  {
  }

  lemma EmptyAccount(symbol: string, stp: StpPolicy, a: ClientId)
    requires a != 0
    ensures Account(EmptyState(symbol, stp), a)
  {
  }

  /** Seeding a flat account that so far only reduced leaves it as such an account again. */
  lemma SeedAccount(s: State, a: ClientId, net: int)
    requires Account(s, a) && NetOf(s.c, a) == 0
    ensures Account(Apply(s, OpSeed(a, net)), a) && NetOf(Apply(s, OpSeed(a, net)).c, a) == net
  {
    ApplyInv(s, OpSeed(a, net));
    hide StateInv, GoodOrder;
  }

  /** From the empty book: whatever other accounts do before, once the account's position has been
      seeded its reduce-only orders never reserve beyond it, and the position only shrinks toward zero
      from what was seeded. */
  lemma ReducerFromEmptyBook(symbol: string, stp: StpPolicy, before: seq<Op>, net: int, after: seq<Op>, a: ClientId)
    requires a != 0 && forall op :: op in before + after ==> ReducerOp(a, op)
    requires LegalRun(EmptyState(symbol, stp), before)
    requires var s := RunOps(EmptyState(symbol, stp), before);
      (ApplyInv(s, OpSeed(a, net)); LegalRun(Apply(s, OpSeed(a, net)), after))
    ensures var s := Apply(RunOps(EmptyState(symbol, stp), before), OpSeed(a, net));
      StateInv(s) && NetOf(s.c, a) == net && AccountAfter(s, RunOps(s, after), a)
  {
    hide StateInv, Apply, ReducerOp, GoodState, Reducer, RunOps, LegalRun;
    EmptyAccount(symbol, stp, a);
    ReducerAfterRun(EmptyState(symbol, stp), before, a);
    var s := RunOps(EmptyState(symbol, stp), before);
    SeedAccount(s, a, net);
    ReducerAfterRun(Apply(s, OpSeed(a, net)), after, a);
  }
}
