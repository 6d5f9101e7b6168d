/** Level pulls racing cancels (src/engine/trading_engine.cc, ensure_depth, on_pull, cancel, bounded
    window).  Storage applies writes in arrival order, and a read answers from some moment after every
    write sent before it (helpers/internal/storage/server.go); so a pull may carry a stale snapshot. */
module Pulls {
  import opened OrderTypes

  /** What the engine writes to the storage resting book. */
  datatype Write = Keep(id: OrderId) | Remove(id: OrderId)

  /** The rows after the first `k` writes. */
  function Rows(base: set<OrderId>, writes: seq<Write>, k: nat): set<OrderId>
    requires k <= |writes|
  {
    if k == 0 then base
    else
      match writes[k - 1]
      case Keep(id) => Rows(base, writes, k - 1) + {id}
      case Remove(id) => Rows(base, writes, k - 1) - {id}
  }

  /** `base`: rows restored from before the boot; `known`: every id ever placed; `handles`: cancellable
      orders; `waiting`: placed orders that are parked as stops or held for an auction; `pulls`: for
      each outstanding pull, how many writes had been sent before it. */
  datatype Depth = Depth(
    base: set<OrderId>,
    writes: seq<Write>,
    resident: set<OrderId>,
    known: set<OrderId>,
    handles: set<OrderId>,
    waiting: set<OrderId>,
    cancelled: set<OrderId>,
    pulls: seq<nat>,
    ignored: set<OrderId>)

  function Boot(base: set<OrderId>): Depth {
    Depth(base, [], {}, {}, {}, {}, {}, [], {})
  }

  /** What becomes of the order an operation places: it is filled, refused or discarded; it rests and
      gets a handle, inside or outside the resident window; or it waits as a stop or for an auction. */
  datatype Fate = Spent | Rests(resident: bool) | Waits

  /** An operation may place one order, take orders out of the book, drop handles, and bring in orders
      that were waiting (fired stops, auction remainders). */
  datatype Step =
    | Operate(placed: Option<OrderId>, fate: Fate, entered: set<OrderId>, gone: set<OrderId>, pruned: set<OrderId>,
              reports: seq<Write>)
    | Cancel(id: OrderId, moved: seq<OrderId>)
    | Issue(count: nat)
    | Reply(i: nat, snapshot: set<OrderId>, at: nat)

  /** An operation reports only orders that were in the book when it began, the placed one, or one that
      entered; or an id no order was ever placed under: a stop that fires on entry and rests is reported
      as the default order, with id 0. */
  ghost predicate ReportsOwn(reports: seq<Write>, own: set<OrderId>, known: set<OrderId>) {
    forall w :: w in reports && w.Keep? ==> w.id in own || w.id !in known
  }

  function PlacedSet(p: Option<OrderId>): set<OrderId> {
    if p.Some? then {p.value} else {}
  }

  /** What the engine and the storage helper may do next. */
  ghost predicate Enabled(d: Depth, s: Step) {
    match s
    case Operate(placed, fate, entered, gone, pruned, reports) =>
      && PlacedSet(placed) !! d.known + d.base && entered <= d.waiting
      && ReportsOwn(reports, d.resident + PlacedSet(placed) + entered, d.known)
    case Cancel(id, moved) => id in d.handles && forall m :: m in moved ==> m in d.resident && m != id
    case Issue(count) => d.pulls == [] && 1 <= count <= 2
    case Reply(i, snapshot, at) =>
      i < |d.pulls| && d.pulls[i] <= at <= |d.writes| && snapshot <= Rows(d.base, d.writes, at)
  }

  function Keeps(ids: seq<OrderId>): (r: seq<Write>)
    ensures |r| == |ids| && forall i :: 0 <= i < |ids| ==> r[i] == Keep(ids[i])
  {
    seq(|ids|, i requires 0 <= i < |ids| => Keep(ids[i]))
  }

  /** A reply makes every order of the snapshot resident that is not to be ignored. */
  function Answered(d: Depth, i: nat, snapshot: set<OrderId>): Depth
    requires i < |d.pulls|
  {
    var left := d.pulls[..i] + d.pulls[i + 1..];
    d.(resident := d.resident + (snapshot - d.ignored),
       pulls := left,
       ignored := if left == [] then {} else d.ignored)
  }

  /** A cancel by handle: out of memory, out of storage, and marked while pulls are outstanding. */
  function CancelledBy(d: Depth, id: OrderId, moved: seq<OrderId>): Depth {
    d.(resident := d.resident - {id},
       writes := d.writes + [Remove(id)] + Keeps(moved),
       ignored := if d.pulls != [] then d.ignored + {id} else d.ignored,
       handles := d.handles - {id},
       cancelled := d.cancelled + {id})
  }

  ghost function Next(d: Depth, s: Step): Depth
    requires Enabled(d, s)
  {
    match s
    case Operate(placed, fate, entered, gone, pruned, reports) =>
      d.(resident := d.resident + entered - gone + (if fate == Rests(true) then PlacedSet(placed) else {}),
         known := d.known + PlacedSet(placed),
         handles := d.handles - pruned + (if fate.Rests? then PlacedSet(placed) else {}),
         waiting := d.waiting - entered + (if fate.Waits? then PlacedSet(placed) else {}),
         writes := d.writes + reports)
    case Cancel(id, moved) => CancelledBy(d, id, moved)
    case Issue(count) => d.(pulls := seq(count, i => |d.writes|))
    case Reply(i, snapshot, at) => Answered(d, i, snapshot)
  }

  // -------------------------------------------------------------- invariant

  /** No snapshot an outstanding pull may still deliver holds `x`, unless `x` is ignored. */
  ghost predicate Shielded(d: Depth, x: OrderId) {
    && x !in Rows(d.base, d.writes, |d.writes|)
    && (forall i, k ::
          0 <= i < |d.pulls| && d.pulls[i] <= k <= |d.writes| && x in Rows(d.base, d.writes, k) ==> x in d.ignored)
  }

  ghost predicate Safe(d: Depth) {
    && d.handles <= d.known && d.cancelled <= d.known
    && d.cancelled !! d.resident && d.cancelled !! d.handles
    && d.waiting <= d.known && d.waiting !! d.handles + d.cancelled
    && (forall i :: 0 <= i < |d.pulls| ==> d.pulls[i] <= |d.writes|)
    && (forall x :: x in d.cancelled ==> Shielded(d, x))
  }

  lemma {:induction false} RowsPrefix(base: set<OrderId>, w: seq<Write>, more: seq<Write>, k: nat)
    requires k <= |w|
    ensures Rows(base, w + more, k) == Rows(base, w, k)
    decreases k
  {
    if k > 0 {
      RowsPrefix(base, w, more, k - 1);
      assert (w + more)[k - 1] == w[k - 1];
    }
  }

  /** Writes that do not keep `x` never bring it back. */
  lemma {:induction false} RowsWithout(base: set<OrderId>, w: seq<Write>, more: seq<Write>, k: nat, x: OrderId)
    requires |w| <= k <= |w + more| && x !in Rows(base, w, |w|) && Keep(x) !in more
    ensures x !in Rows(base, w + more, k)
    decreases k
  {
    if k == |w| {
      RowsPrefix(base, w, more, k);
    } else {
      RowsWithout(base, w, more, k - 1, x);
      assert (w + more)[k - 1] == more[k - 1 - |w|];
      assert more[k - 1 - |w|] in more;
    }
  }

  lemma ShieldStays(d: Depth, d': Depth, more: seq<Write>, x: OrderId)
    requires Shielded(d, x) && d'.base == d.base && d'.writes == d.writes + more && Keep(x) !in more
    requires d'.pulls == d.pulls && d.ignored <= d'.ignored
    ensures Shielded(d', x)
  {
    RowsWithout(d.base, d.writes, more, |d'.writes|, x);
    forall i, k | 0 <= i < |d'.pulls| && d'.pulls[i] <= k <= |d'.writes| && x in Rows(d'.base, d'.writes, k)
      ensures x in d'.ignored
    {
      if k <= |d.writes| {
        RowsPrefix(d.base, d.writes, more, k);
      } else {
        RowsWithout(d.base, d.writes, more, k, x);
      }
    }
  }

  lemma OperateSafe(d: Depth, s: Step)
    requires Safe(d) && Enabled(d, s) && s.Operate?
    ensures Safe(Next(d, s))
  {
    var d' := Next(d, s);
    forall x | x in d'.cancelled ensures Shielded(d', x) {
      assert Keep(x) !in s.reports;
      ShieldStays(d, d', s.reports, x);
    }
  }

  /** Cancelling shields the cancelled order itself. */
  lemma CancelShields(d: Depth, id: OrderId, moved: seq<OrderId>)
    requires id !in moved
    ensures Shielded(CancelledBy(d, id, moved), id)
  {
    var d' := CancelledBy(d, id, moved);
    var w := d.writes + [Remove(id)];
    assert Keep(id) !in Keeps(moved);
    assert w[|d.writes|] == Remove(id);
    RowsWithout(d.base, w, Keeps(moved), |d'.writes|, id);
  }

  lemma CancelSafe(d: Depth, id: OrderId, moved: seq<OrderId>)
    requires Safe(d) && Enabled(d, Cancel(id, moved))
    ensures Safe(CancelledBy(d, id, moved))
  {
    var d' := CancelledBy(d, id, moved);
    CancelShields(d, id, moved);
    forall x | x in d'.cancelled ensures Shielded(d', x) {
      if x != id {
        var more := [Remove(id)] + Keeps(moved);
        assert d'.writes == d.writes + more;
        assert Keep(x) !in more;
        ShieldStays(d, d', more, x);
      }
    }
  }

  lemma ReplySafe(d: Depth, i: nat, snapshot: set<OrderId>, at: nat)
    requires Safe(d) && Enabled(d, Reply(i, snapshot, at))
    ensures Safe(Answered(d, i, snapshot))
  {
    var d' := Answered(d, i, snapshot);
    forall x | x in d.cancelled ensures x !in snapshot - d.ignored && Shielded(d', x) {
      assert Shielded(d, x);
      assert x in snapshot ==> x in Rows(d.base, d.writes, at);
    }
    forall j | 0 <= j < |d'.pulls| ensures d'.pulls[j] <= |d'.writes| {
      assert d'.pulls[j] == d.pulls[if j < i then j else j + 1];
    }
  }

  lemma NextSafe(d: Depth, s: Step)
    requires Safe(d) && Enabled(d, s)
    ensures Safe(Next(d, s))
  {
    match s
    case Operate(_, _, _, _, _, _) => OperateSafe(d, s);
    case Cancel(id, moved) => CancelSafe(d, id, moved);
    case Issue(count) =>
      forall x | x in d.cancelled ensures Shielded(Next(d, s), x) {
        assert Shielded(d, x);
      }
    case Reply(i, snapshot, at) => ReplySafe(d, i, snapshot, at);
  }

  // -------------------------------------------------------------- whole runs

  ghost predicate Possible(d: Depth, steps: seq<Step>)
    decreases |steps|
  {
    steps != [] ==> Enabled(d, steps[0]) && Possible(Next(d, steps[0]), steps[1..])
  }

  ghost function Run(d: Depth, steps: seq<Step>): Depth
    requires Possible(d, steps)
    decreases |steps|
  {
    if steps == [] then d else Run(Next(d, steps[0]), steps[1..])
  }

  lemma {:induction false} RunSafe(d: Depth, steps: seq<Step>)
    requires Safe(d) && Possible(d, steps)
    ensures Safe(Run(d, steps)) && d.cancelled <= Run(d, steps).cancelled
    decreases |steps|
  {
    if steps != [] {
      NextSafe(d, steps[0]);
      assert d.cancelled <= Next(d, steps[0]).cancelled;
      hide Safe, Next, Enabled;
      RunSafe(Next(d, steps[0]), steps[1..]);
    }
  }

  /** The cancel wins the race: after any interleaving from boot, an order cancelled by its handle at
      some point is not resident, whatever stale snapshots were delivered since. */
  lemma CancelledNeverReturns(base: set<OrderId>, before: seq<Step>, id: OrderId, moved: seq<OrderId>, after: seq<Step>)
    requires Possible(Boot(base), before) && Enabled(Run(Boot(base), before), Cancel(id, moved))
    requires Possible(CancelledBy(Run(Boot(base), before), id, moved), after)
    ensures id !in Run(CancelledBy(Run(Boot(base), before), id, moved), after).resident
  {
    assert Safe(Boot(base));
    RunSafe(Boot(base), before);
    var d := Run(Boot(base), before);
    CancelSafe(d, id, moved);
    RunSafe(CancelledBy(d, id, moved), after);
  }

  // -------------------------------------------------------------- the object

  function Ids(ids: seq<OrderId>): set<OrderId> {
    set x | x in ids
  }

  /** The part of the trading engine that handles pulled levels of one symbol's bounded book.  `depth` is
      the whole interleaving's state, of which the object holds what the engine does. */
  class PullWindow {
    var resident: set<OrderId>
    var ignored: set<OrderId>
    var depthPulls: nat
    var warmed: bool
    ghost var depth: Depth

    ghost predicate Valid()
      reads this
    {
      Safe(depth) && resident == depth.resident && ignored == depth.ignored && depthPulls == |depth.pulls|
    }

    constructor (ghost base: set<OrderId>)
      ensures Valid() && depth == Boot(base) && !warmed
    {
      resident, ignored, depthPulls, warmed := {}, {}, 0, false;
      depth := Boot(base);
    }

    /** Whether the head order may run; if not, pulls are outstanding, and on the first order both sides
        of the book are pulled (ensure_depth). */
    method EnsureDepth(needsDeep: bool) returns (ready: bool)
      requires Valid()
      modifies this`depthPulls, this`warmed, this`depth
      ensures Valid() && warmed == (old(warmed) || old(depthPulls) == 0)
      ensures ready <==> old(depthPulls) == 0 && old(warmed) && !needsDeep
      ensures !ready ==> depthPulls > 0
      ensures depth == if ready || old(depthPulls) > 0 then old(depth)
                       else Next(old(depth), Issue(if old(warmed) then 1 else 2))
    {
      ready := depthPulls == 0 && warmed && !needsDeep;
      if !ready && depthPulls == 0 {
        depthPulls := if warmed then 1 else 2;
        warmed := true;
        NextSafe(depth, Issue(depthPulls));
        depth := Next(depth, Issue(depthPulls));
      }
    }

    /** A pulled batch arrives, as the reply to outstanding pull `i`; an empty one if the pull failed
        (on_pull). */
    method OnPull(ids: seq<OrderId>, ghost i: nat, ghost at: nat)
      requires Valid() && Enabled(depth, Reply(i, Ids(ids), at))
      modifies this`resident, this`ignored, this`depthPulls, this`depth
      ensures Valid() && depth == Next(old(depth), Reply(i, Ids(ids), at))
    {
      for n := 0 to |ids|
        invariant resident == old(resident) + (Ids(ids[..n]) - ignored)
        invariant ignored == old(ignored) && depthPulls == old(depthPulls) && depth == old(depth)
      {
        assert forall x :: x in ids[..n + 1] <==> x in ids[..n] || x == ids[n];
        if ids[n] !in ignored && ids[n] !in resident {
          resident := resident + {ids[n]};
        }
      }
      assert ids[..|ids|] == ids;
      depthPulls := depthPulls - 1;
      if depthPulls == 0 {
        ignored := {};
      }
      ReplySafe(depth, i, Ids(ids), at);
      depth := Answered(depth, i, Ids(ids));
    }

    /** An order is cancelled by its handle; `moved` are the orders the cancel repriced (cancel). */
    method OnCancel(id: OrderId, ghost moved: seq<OrderId>)
      requires Valid() && Enabled(depth, Cancel(id, moved))
      modifies this`resident, this`ignored, this`depth
      ensures Valid() && depth == Next(old(depth), Cancel(id, moved))
    {
      resident := resident - {id};
      if depthPulls > 0 {
        ignored := ignored + {id};
      }
      CancelSafe(depth, id, moved);
      depth := CancelledBy(depth, id, moved);
    }

    /** An operation brings waiting orders into the book, takes orders out of it, and its own may rest. */
    method OnOperate(entered: set<OrderId>, gone: set<OrderId>, rested: set<OrderId>, ghost s: Step)
      requires Valid() && s.Operate? && Enabled(depth, s)
      requires entered == s.entered && gone == s.gone
      requires rested == if s.fate == Rests(true) then PlacedSet(s.placed) else {}
      modifies this`resident, this`depth
      ensures Valid() && depth == Next(old(depth), s)
    {
      resident := resident + entered - gone + rested;
      OperateSafe(depth, s);
      depth := Next(depth, s);
    }
  }
}
