/** Safety over whole runs: what holds after every sequence of submits, cancels, expiries, auctions,
    position seeds and counter seeds, from an empty book. */
module Runs {
  import opened OrderTypes
  import opened BookCore
  import opened Auctions
  import opened Sessions
  import opened Traces
  import opened Injections
  import opened OpTraces
  import opened Accounting
  import opened Replica

  /** Every operation meets what it asks of its caller when its turn comes.  That the book is then
      well formed is not part of legality: it follows from ApplyInv at every step. */
  ghost predicate LegalRun(s: State, ops: seq<Op>)
    requires StateInv(s)
    decreases |ops|
  {
    ops != [] ==>
      && Legal(s, ops[0])
      && (ApplyInv(s, ops[0]); LegalRun(Apply(s, ops[0]), ops[1..]))
  }

  ghost function RunOps(s: State, ops: seq<Op>): (s': State)
    requires StateInv(s) && LegalRun(s, ops)
    ensures StateInv(s')
    decreases |ops|
  {
    if ops == [] then s
    else
      ApplyInv(s, ops[0]);
      RunOps(Apply(s, ops[0]), ops[1..])
  }

  lemma {:induction false} RunAppend(s: State, p: seq<Op>, q: seq<Op>)
    requires StateInv(s) && LegalRun(s, p) && LegalRun(RunOps(s, p), q)
    ensures LegalRun(s, p + q) && RunOps(s, p + q) == RunOps(RunOps(s, p), q)
    decreases |p|
  {
    hide StateInv, Apply, Legal;
    if p == [] {
      assert p + q == q;
    } else {
      ApplyInv(s, p[0]);
      RunAppend(Apply(s, p[0]), p[1..], q);
      assert (p + q)[0] == p[0] && (p + q)[1..] == p[1..] + q;
    }
  }

  predicate AllGood(k: Kind, ops: seq<Op>) {
    forall op :: op in ops ==> GoodOp(k, op)
  }

  /** Every stop that fires and every auction remainder that enters during the run injects well. */
  ghost predicate RunsWell(k: Kind, s: State, ops: seq<Op>)
    requires StateInv(s) && LegalRun(s, ops)
    decreases |ops|
  {
    if ops == [] then true
    else
      ApplyInv(s, ops[0]);
      OperatesWell(k, s, ops[0]) && RunsWell(k, Apply(s, ops[0]), ops[1..])
  }

  /** A run of good operations keeps the invariant and is itself a trace. */
  lemma {:induction false} RunSteps(k: Kind, s: State, ops: seq<Op>)
    requires StateInv(s) && LegalRun(s, ops) && GoodState(k, s) && AllGood(k, ops)
    requires Picky(k) ==> RunsWell(k, s, ops)
    ensures StateInv(RunOps(s, ops)) && GoodState(k, RunOps(s, ops)) && Steps(k, s.c, RunOps(s, ops).c)
    decreases |ops|
  {
    hide StateInv, GoodState, Steps, Apply, GoodOp, OperatesWell;
    if ops == [] {
      StepsNone(k, s.c);
    } else {
      assert ops[0] in ops && forall op :: op in ops[1..] ==> op in ops;
      ApplyInv(s, ops[0]);
      ApplySteps(k, s, ops[0]);
      RunSteps(k, Apply(s, ops[0]), ops[1..]);
      StepsTrans(k, s.c, Apply(s, ops[0]).c, RunOps(s, ops).c);
    }
  }

  lemma EmptyGood(k: Kind, symbol: string, stp: StpPolicy)
    ensures GoodState(k, EmptyState(symbol, stp))
    ensures ReservedExact(EmptyState(symbol, stp).c) && LitExact(EmptyState(symbol, stp).c)
    ensures Agrees(true, EMPTY_BOOK, EmptyState(symbol, stp).c.orders)
  {
  }

  const LIT := Kind(true, false, false, false, None, None)
  const CLEAN := Kind(false, true, false, false, None, None)
  const RANKED := Kind(false, false, true, false, None, None)
  const STILL := Kind(false, false, false, true, None, None)

  /** After any run, whatever its orders: the representation invariant holds and every reservation
      counter is exact. */
  lemma RunKeepsInvariant(symbol: string, stp: StpPolicy, ops: seq<Op>)
    requires LegalRun(EmptyState(symbol, stp), ops)
    ensures var s := RunOps(EmptyState(symbol, stp), ops); StateInv(s) && ReservedExact(s.c)
  {
    hide StateInv, GoodState, Steps, Agrees;
    var s0 := EmptyState(symbol, stp);
    EmptyGood(ANY, symbol, stp);
    RunSteps(ANY, s0, ops);
    GoodParts(ANY, s0);
    StepsExact(ANY, s0.c, RunOps(s0, ops).c);
  }

  lemma GoodParts(k: Kind, s: State)
    requires StateInv(s) && GoodState(k, s)
    ensures Inv(s.c) && GoodCore(k, s.c)
  {
  }

  /** After any run the replica built from the event stream alone equals the book: same orders, same
      leaves, same matchable depth.  Without orders that are both hidden and iceberg it shows the same
      displayed quantities too, and the displayed counters of the book are exact. */
  lemma ReplicaAgreesAfterRun(symbol: string, stp: StpPolicy, ops: seq<Op>)
    requires LegalRun(EmptyState(symbol, stp), ops)
    ensures var c := RunOps(EmptyState(symbol, stp), ops).c;
      && Agrees(false, Replay(EMPTY_BOOK, c.events), c.orders)
      && (AllGood(LIT, ops) ==> Agrees(true, Replay(EMPTY_BOOK, c.events), c.orders) && LitExact(c))
  {
    hide AllGood;
    ReplicaAfterRun(ANY, symbol, stp, ops);
    if AllGood(LIT, ops) { ReplicaAfterRun(LIT, symbol, stp, ops); }
  }

  lemma ReplicaAfterRun(k: Kind, symbol: string, stp: StpPolicy, ops: seq<Op>)
    requires LegalRun(EmptyState(symbol, stp), ops) && (k == ANY || (k == LIT && AllGood(k, ops)))
    ensures var c := RunOps(EmptyState(symbol, stp), ops).c;
      Agrees(k.lit, Replay(EMPTY_BOOK, c.events), c.orders) && (k.lit ==> LitExact(c))
  {
    assert AllGood(k, ops);
    var s0 := EmptyState(symbol, stp);
    EmptyGood(k, symbol, stp);
    FullAgrees(k.lit, EMPTY_BOOK, s0.c.orders);
    hide StateInv, GoodState, Steps, Agrees, LitExact;
    RunSteps(k, s0, ops);
    GoodParts(k, s0);
    var c := RunOps(s0, ops).c;
    StepsExact(k, s0.c, c);
    StepsAgree(k, EMPTY_BOOK, s0.c, c);
    assert c.events[0..] == c.events;
  }

  lemma FullAgrees(full: bool, b: SymBook, orders: map<OrderId, Maker>)
    requires Agrees(true, b, orders)
    ensures Agrees(full, b, orders)
  {
  }

  /** Without all-or-none or pegged resting orders, every bid is below every ask after every run in
      which each fired stop and each auction remainder injects cleanly (Injections.InjectUncrossedIff). */
  lemma UncrossedAfterCleanRun(symbol: string, stp: StpPolicy, ops: seq<Op>)
    requires LegalRun(EmptyState(symbol, stp), ops)
    requires AllGood(CLEAN, ops) && RunsWell(CLEAN, EmptyState(symbol, stp), ops)
    ensures Uncrossed(RunOps(EmptyState(symbol, stp), ops).c)
  {
    hide StateInv, Steps, Agrees, RunsWell;
    EmptyGood(CLEAN, symbol, stp);
    RunSteps(CLEAN, EmptyState(symbol, stp), ops);
  }

  /** That is every run under the policies that never cancel aggressors, and under the others every run
      without stops and auction remainders. */
  lemma UncrossedAfterRun(symbol: string, stp: StpPolicy, ops: seq<Op>)
    requires LegalRun(EmptyState(symbol, stp), ops)
    requires AllGood(CLEAN, ops) && (stp.Aggressor() ==> AllGood(STILL, ops))
    ensures Uncrossed(RunOps(EmptyState(symbol, stp), ops).c)
  {
    hide StateInv, Steps, Agrees, RunsWell, RunOps, LegalRun, AllGood;
    if stp.Aggressor() { EmptyGood(STILL, symbol, stp); }
    TameRuns(CLEAN, EmptyState(symbol, stp), ops);
    UncrossedAfterCleanRun(symbol, stp, ops);
  }

  lemma TameOperates(k: Kind, s: State, op: Op)
    requires StateInv(s) && Legal(s, op)
    requires Spared(k, s.c.stp) || (GoodState(STILL, s) && GoodOp(STILL, op))
    ensures OperatesWell(k, s, op)
  {
    hide StateInv, SubmitsWell, AuctionsWell;
    match op
    case OpSubmit(o) => TameSubmits(k, s, o);
    case OpAuction(open) => TameAuctions(k, s, open);
    case _ =>
  }

  lemma DoPolicy(k: Kind, c: Core, a: Atom)
    requires AtomOk(k, c, a)
    ensures Do(c, a).stp == c.stp
  {
    hide Restable, GoodOrder, Foreign, RankLast, NoCross, AddDisp, Reserve, ApplyFill, Attach, Detach;
  }

  lemma {:induction false} PathPolicy(k: Kind, c: Core, path: seq<Atom>)
    requires Fits(k, c, path)
    ensures After(k, c, path).stp == c.stp
    decreases |path|
  {
    hide Do, Restable, GoodOrder, Foreign, RankLast, NoCross;
    if path != [] {
      DoPolicy(k, c, path[0]);
      PathPolicy(k, Do(c, path[0]), path[1..]);
    }
  }

  /** No operation changes the book's self-trade policy. */
  lemma ApplyPolicy(s: State, op: Op)
    requires StateInv(s) && Legal(s, op)
    ensures Apply(s, op).c.stp == s.c.stp
  {
    assert GoodState(ANY, s) && GoodOp(ANY, op);
    hide StateInv, GoodState, Apply, GoodOp, Legal;
    ApplySteps(ANY, s, op);
    var path :| Fits(ANY, s.c, path) && After(ANY, s.c, path) == Apply(s, op).c;
    PathPolicy(ANY, s.c, path);
  }

  lemma {:induction false} TameRuns(k: Kind, s: State, ops: seq<Op>)
    requires StateInv(s) && LegalRun(s, ops)
    requires Spared(k, s.c.stp) || (GoodState(STILL, s) && AllGood(STILL, ops))
    ensures RunsWell(k, s, ops)
    decreases |ops|
  {
    hide StateInv, GoodState, Apply, GoodOp, OperatesWell;
    if ops != [] {
      assert ops[0] in ops && forall op :: op in ops[1..] ==> op in ops;
      ApplyInv(s, ops[0]);
      TameOperates(k, s, ops[0]);
      ApplyPolicy(s, ops[0]);
      if !Spared(k, s.c.stp) { ApplySteps(STILL, s, ops[0]); }
      TameRuns(k, Apply(s, ops[0]), ops[1..]);
    }
  }

  // --------------------------------------------------------------- ranks

  /** If every stop that fires and every auction remainder that enters joins behind earlier ranks only,
      every level's queue is strictly increasing in rank. */
  lemma RankedAfterOrderlyRun(symbol: string, stp: StpPolicy, ops: seq<Op>)
    requires LegalRun(EmptyState(symbol, stp), ops) && RunsWell(RANKED, EmptyState(symbol, stp), ops)
    ensures var c := RunOps(EmptyState(symbol, stp), ops).c;
      RankedBook(c) && forall id :: id in c.orders ==> c.orders[id].o.rank < c.nextSeq
  {
    assert AllGood(RANKED, ops);
    hide Steps, Agrees, RunsWell;
    EmptyGood(RANKED, symbol, stp);
    RunSteps(RANKED, EmptyState(symbol, stp), ops);
  }

  /** So it is in every run without stops and auction remainders. */
  lemma RankedAfterRun(symbol: string, stp: StpPolicy, ops: seq<Op>)
    requires LegalRun(EmptyState(symbol, stp), ops) && AllGood(STILL, ops)
    ensures var c := RunOps(EmptyState(symbol, stp), ops).c;
      RankedBook(c) && forall id :: id in c.orders ==> c.orders[id].o.rank < c.nextSeq
  {
    EmptyGood(STILL, symbol, stp);
    TameRuns(RANKED, EmptyState(symbol, stp), ops);
    RankedAfterOrderlyRun(symbol, stp, ops);
  }

  /** Sorting a level's ids by rank reconstructs its queue. */
  lemma RankSortIsQueue(c: Core, s: Slot, f: seq<OrderId>)
    requires Inv(c) && RankedBook(c)
    requires forall id :: id in f <==> id in c.orders && SlotOf(c.orders[id]) == s
    requires RankedQueue(c, f)
    ensures f == Fifo(c.q, s)
  {
    var g := Fifo(c.q, s);
    assert RankedQueue(c, g);
    assert forall id :: id in f <==> id in g;
    RankedSame(c, f, g);
  }

  lemma {:induction false} RankedSame(c: Core, f: seq<OrderId>, g: seq<OrderId>)
    requires RankedQueue(c, f) && RankedQueue(c, g)
    requires forall id :: id in f <==> id in g
    requires forall id :: id in f ==> id in c.orders
    ensures f == g
    decreases |f|
  {
    assert f != [] ==> f[0] in f;
    assert g != [] ==> g[0] in g;
    if f != [] && g != [] {
      RankedHead(c, f, g);
      RankedTail(c, f);
      RankedTail(c, g);
      RankedSame(c, f[1..], g[1..]);
      assert f == [f[0]] + f[1..] && g == [g[0]] + g[1..];
    }
  }

  lemma RankedHead(c: Core, f: seq<OrderId>, g: seq<OrderId>)
    requires RankedQueue(c, f) && RankedQueue(c, g) && f != [] && g != []
    requires forall id :: id in f <==> id in g
    requires forall id :: id in f ==> id in c.orders
    ensures f[0] == g[0]
  {
    assert f[0] in f && g[0] in g;
    var i :| 0 <= i < |f| && f[i] == g[0];
    var j :| 0 <= j < |g| && g[j] == f[0];
  }

  lemma RankedTail(c: Core, f: seq<OrderId>)
    requires RankedQueue(c, f) && f != [] && forall id :: id in f ==> id in c.orders
    ensures RankedQueue(c, f[1..]) && forall id :: id in f[1..] <==> id in f && id != f[0]
  {
    var t := f[1..];
    assert forall i :: 0 <= i < |t| ==> t[i] == f[i + 1];
    assert f[0] in f;
    forall id | id in t ensures id != f[0] {
      var i :| 0 <= i < |t| && t[i] == id;
      assert f[i + 1] in f && c.orders[f[0]].o.rank < c.orders[f[i + 1]].o.rank;
    }
    forall id | id in f && id != f[0] ensures id in t {
      var i :| 0 <= i < |f| && f[i] == id;
      assert t[i - 1] == id;
    }
  }

  // -------------------------------------------------------------- positions

  /** Who owns the orders that may trade during operation `op`: the live ones and the submitted one. */
  ghost function Owners(s: State, op: Op): map<OrderId, ClientId> {
    if op.OpSubmit? && op.o.id !in s.c.orders && op.o.id !in s.stops
    then LiveOwners(s)[op.o.id := op.o.client] else LiveOwners(s)
  }

  ghost function LiveOwners(s: State): map<OrderId, ClientId> {
    (map id | id in s.c.orders :: s.c.orders[id].o.client)
    + (map id | id in s.stops :: s.stops[id].client)
    + (QueueOwners(s.opening) + QueueOwners(s.closing))
  }

  ghost function QueueOwners(queue: seq<Order>): map<OrderId, ClientId> {
    if queue == [] then map[] else QueueOwners(queue[1..])[queue[0].id := queue[0].client]
  }

  lemma {:induction false} QueueOwnersAt(queue: seq<Order>)
    requires DistinctIds(queue)
    ensures forall o :: o in queue ==> o.id in QueueOwners(queue) && QueueOwners(queue)[o.id] == o.client
    ensures forall id :: id in QueueOwners(queue) ==> exists o :: o in queue && o.id == id
    decreases |queue|
  {
    if queue != [] {
      var t := queue[1..];
      assert forall i :: 0 <= i < |t| ==> t[i] == queue[i + 1];
      QueueOwnersAt(t);
      assert forall o :: o in queue <==> o == queue[0] || o in t;
    }
  }

  function OwnedKind(owners: map<OrderId, ClientId>): Kind {
    Kind(false, false, false, false, None, Some(owners))
  }

  ghost predicate Covers(w: map<OrderId, ClientId>, s: State) {
    && (forall id :: id in s.c.orders ==> id in w && w[id] == s.c.orders[id].o.client)
    && (forall id :: id in s.stops ==> id in w && w[id] == s.stops[id].client)
    && (forall o :: o in s.opening || o in s.closing ==> o.id in w && w[o.id] == o.client)
  }

  lemma LiveCovers(s: State)
    requires StateInv(s)
    ensures Covers(LiveOwners(s), s)
  {
    hide Inv, Restable, QueueOwners, DistinctIds;
    QueueOwnersAt(s.opening);
    QueueOwnersAt(s.closing);
  }

  lemma OwnersCover(s: State, op: Op)
    requires StateInv(s) && Legal(s, op)
    ensures Covers(Owners(s, op), s)
  {
    hide Inv, StopsOk, QueueOk, LiveOwners;
    LiveCovers(s);
  }

  lemma OwnersGood(s: State, op: Op)
    requires StateInv(s) && Legal(s, op)
    ensures GoodState(OwnedKind(Owners(s, op)), s)
    ensures op.OpSubmit? && op.o.id !in s.c.orders && op.o.id !in s.stops ==> GoodOp(OwnedKind(Owners(s, op)), op)
  {
    hide StateInv, LiveOwners;
    IdsKnown(s);
    OwnersCover(s, op);
  }

  lemma IdsKnown(s: State)
    requires StateInv(s)
    ensures forall id :: id in s.stops ==> s.stops[id].id == id
    ensures forall id :: id in s.c.orders ==> s.c.orders[id].o.id == id
  {
  }

  /** Positions move by fills and by nothing else: after any operation but a seed, each account's net
      position is what it was plus the signed sum of the fills of its orders, auction fills included. */
  lemma PositionsFollowFills(s: State, op: Op)
    requires StateInv(s) && Legal(s, op) && !op.OpSeed?
    ensures Ledger(Owners(s, op), s.c, Apply(s, op).c)
  {
    hide StateInv, GoodState, Steps, Owners, Legal, Apply, GoodCore, GoodOp;
    var owners := Owners(s, op);
    OwnersGood(s, op);
    if op.OpSubmit? && (op.o.id in s.c.orders || op.o.id in s.stops) {
      DuplicateLedger(s, op, owners);
    } else {
      if !op.OpSubmit? { NeutralGood(owners, op); }
      ApplySteps(OwnedKind(owners), s, op);
      GoodParts(OwnedKind(owners), s);
      StepsLedger(OwnedKind(owners), s.c, Apply(s, op).c);
    }
  }

  lemma NeutralGood(owners: map<OrderId, ClientId>, op: Op)
    requires !op.OpSeed? && !op.OpSubmit?
    ensures GoodOp(OwnedKind(owners), op)
  {
  }

  /** A duplicate id is rejected: no event, no position moves. */
  lemma DuplicateLedger(s: State, op: Op, owners: map<OrderId, ClientId>)
    requires StateInv(s) && Legal(s, op) && op.OpSubmit? && (op.o.id in s.c.orders || op.o.id in s.stops)
    ensures Ledger(owners, s.c, Apply(s, op).c)
  {
    hide StateInv;
    var c' := Apply(s, op).c;
    assert c'.events[|s.c.events|..] == [];
  }

  lemma StepsLedger(k: Kind, c: Core, c': Core)
    requires Inv(c) && GoodCore(k, c) && Steps(k, c, c') && k.owners.Some?
    ensures Ledger(k.owners.value, c, c')
  {
    hide Inv, GoodCore, Ledger;
    var path :| Fits(k, c, path) && After(k, c, path) == c';
    PathLedger(k, c, path);
  }
}
