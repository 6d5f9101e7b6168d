/** Allocation at the clearing price: the two sorted sides are walked together until the cleared
    volume is executed (src/core/order_book.cc, cross_auction). */
module Crossing {
  import opened OrderTypes
  import opened BookSums
  import opened BookCore
  import opened Ordering
  import opened Auctions

  /** A cross in progress: the book, the auction orders, the executions so far. */
  datatype Cross = Cross(c: Core, w: Pool, trades: seq<Trade>)

  function Take(w: Pool, id: OrderId, x: int): Pool
    requires id in w
  {
    w[id := Maker(w[id].o.(leaves := w[id].o.leaves - x, filled := w[id].o.filled + x), w[id].slice)]
  }

  /** One auction execution of `x` between buy `b` and sell `s`. */
  function CrossOne(cr: Cross, b: OrderId, s: OrderId, p: int, x: int): Cross
    requires b in cr.w && s in cr.w
  {
    var bo := cr.w[b].o;
    var so := cr.w[s].o;
    var t := Trade(b, s, Buy, p, x);
    Cross(
      cr.c.(positions := ApplyFill(ApplyFill(cr.c.positions, bo.client, Buy, x), so.client, Sell, x),
            events := cr.c.events + [TradeEvent(cr.c.symbol, t, LitFill(cr.w[s], x))]),
      Take(Take(cr.w, b, x), s, x),
      cr.trades + [t])
  }

  predicate InPool(w: Pool, ids: seq<OrderId>) {
    forall a :: a in ids ==> a in w
  }

  /** The head order leaves the list once it is filled. */
  function Advance(w: Pool, ids: seq<OrderId>): seq<OrderId>
    requires ids != [] && ids[0] in w
  {
    if w[ids[0]].o.leaves == 0 then ids[1..] else ids
  }

  function CrossLoop(cr: Cross, buys: seq<OrderId>, sells: seq<OrderId>, p: int, left: int): Cross
    requires InPool(cr.w, buys) && InPool(cr.w, sells)
    decreases |buys| + |sells|, left
  {
    if left <= 0 || buys == [] || sells == [] || !cr.w[buys[0]].o.TradesAt(p) || !cr.w[sells[0]].o.TradesAt(p)
      || buys[0] == sells[0]
    then cr
    else
      var x := Min(Min(cr.w[buys[0]].o.leaves, cr.w[sells[0]].o.leaves), left);
      var cr1 := CrossOne(cr, buys[0], sells[0], p, x);
      CrossLoop(cr1, Advance(cr1.w, buys), Advance(cr1.w, sells), p, left - x)
  }

  // ------------------------------------------------------ what it achieves

  /** `ids` lists the unfilled orders of `side`, those that trade at `p` first. */
  ghost predicate Lists(w: Pool, side: Side, ids: seq<OrderId>, p: int) {
    && NoDup(ids)
    && (forall a :: a in ids ==> a in w && w[a].o.side == side && w[a].o.leaves > 0)
    && (forall a :: a in w && w[a].o.side == side && w[a].o.leaves > 0 ==> a in ids)
    && (forall i, j :: 0 <= i < j < |ids| && w[ids[j]].o.TradesAt(p) ==> w[ids[i]].o.TradesAt(p))
  }

  /** While eligible quantity remains, the head of the list trades. */
  lemma HeadTrades(w: Pool, side: Side, ids: seq<OrderId>, p: int)
    requires PoolOk(w) && Lists(w, side, ids, p) && Sum(w, EligibleAt(side, p)) > 0
    ensures ids != [] && ids[0] in w && w[ids[0]].o.TradesAt(p)
  {
    SumZero(w, EligibleAt(side, p));
    var id :| id in w && Weight(EligibleAt(side, p), w[id]) != 0;
    var j :| 0 <= j < |ids| && ids[j] == id;
    assert ids[0] in ids;
  }

  lemma TakeOwn(w: Pool, side: Side, ids: seq<OrderId>, p: int, x: int)
    requires PoolOk(w) && Lists(w, side, ids, p) && ids != [] && ids[0] in w && 0 < x <= w[ids[0]].o.leaves
    ensures var w' := Take(w, ids[0], x); PoolOk(w') && Lists(w', side, Advance(w', ids), p)
  {
    if x == w[ids[0]].o.leaves {
      TakeLast(w, side, ids, p);
    } else {
      assert ids[0] in ids;
    }
  }

  lemma TakeLast(w: Pool, side: Side, ids: seq<OrderId>, p: int)
    requires PoolOk(w) && Lists(w, side, ids, p) && ids != [] && ids[0] in w
    ensures var w' := Take(w, ids[0], w[ids[0]].o.leaves); PoolOk(w') && Lists(w', side, ids[1..], p)
  {
    var w' := Take(w, ids[0], w[ids[0]].o.leaves);
    var tl := ids[1..];
    assert ids == [ids[0]] + tl;
    assert ids[0] !in tl by {
      assert forall i :: 0 <= i < |tl| ==> tl[i] == ids[i + 1];
    }
    forall i, j | 0 <= i < j < |tl| && w'[tl[j]].o.TradesAt(p) ensures w'[tl[i]].o.TradesAt(p) {
      assert tl[i] == ids[i + 1] && tl[j] == ids[j + 1];
      assert tl[i] in tl && tl[j] in tl;
    }
  }

  lemma TakeOther(w: Pool, side: Side, ids: seq<OrderId>, p: int, id: OrderId, x: int)
    requires PoolOk(w) && Lists(w, side, ids, p) && id in w && w[id].o.side != side
    ensures Lists(Take(w, id, x), side, ids, p)
  {
    var w' := Take(w, id, x);
    forall i, j | 0 <= i < j < |ids| && w'[ids[j]].o.TradesAt(p) ensures w'[ids[i]].o.TradesAt(p) {
      assert ids[i] in ids && ids[j] in ids;
    }
  }

  lemma TakeSum(w: Pool, id: OrderId, x: int, side: Side, p: int)
    requires id in w
    ensures Sum(Take(w, id, x), EligibleAt(side, p)) ==
      Sum(w, EligibleAt(side, p)) - if w[id].o.side == side && w[id].o.TradesAt(p) then x else 0
  {
    SumReplace(w, id, Take(w, id, x)[id]);
  }

  /** Total quantity of a list of executions. */
  function Traded(ts: seq<Trade>): int {
    if ts == [] then 0 else Traded(ts[..|ts| - 1]) + ts[|ts| - 1].qty
  }

  /** Quantity of the executions that order `id` took part in. */
  function TradedBy(ts: seq<Trade>, id: OrderId): int {
    if ts == [] then 0
    else
      var t := ts[|ts| - 1];
      TradedBy(ts[..|ts| - 1], id) + if t.taker == id || t.maker == id then t.qty else 0
  }

  lemma TradedPush(ts: seq<Trade>, t: Trade, id: OrderId)
    ensures Traded(ts + [t]) == Traded(ts) + t.qty
    ensures TradedBy(ts + [t], id) == TradedBy(ts, id) + if t.taker == id || t.maker == id then t.qty else 0
  {
    assert (ts + [t])[..|ts|] == ts;
  }

  /** Only the remainders differ, and they only shrink. */
  ghost predicate Shrinks(w: Pool, w': Pool) {
    && w'.Keys == w.Keys
    && forall id :: id in w ==>
         && w'[id] == Maker(w[id].o.(leaves := w'[id].o.leaves, filled := w'[id].o.filled), w[id].slice)
         && 0 <= w'[id].o.leaves <= w[id].o.leaves
  }

  /** A sound auction execution: at the clearing price, between orders that accept it. */
  ghost predicate Sound(w: Pool, t: Trade, p: int) {
    && t.price == p && t.qty > 0
    && t.taker in w && w[t.taker].o.side == Buy && w[t.taker].o.TradesAt(p)
    && t.maker in w && w[t.maker].o.side == Sell && w[t.maker].o.TradesAt(p)
  }

  ghost predicate Ready(cr: Cross, buys: seq<OrderId>, sells: seq<OrderId>, p: int, left: int) {
    && PoolOk(cr.w) && Lists(cr.w, Buy, buys, p) && Lists(cr.w, Sell, sells, p)
    && 0 <= left <= Demand(cr.w, p) && left <= Supply(cr.w, p)
  }

  lemma ReadyPool(cr: Cross, buys: seq<OrderId>, sells: seq<OrderId>, p: int, left: int)
    requires Ready(cr, buys, sells, p, left)
    ensures InPool(cr.w, buys) && InPool(cr.w, sells) && PoolOk(cr.w) && left >= 0
  {
  }

  /** One round of the loop from a ready state executes and stays ready. */
  lemma RoundReady(cr: Cross, buys: seq<OrderId>, sells: seq<OrderId>, p: int, left: int)
    requires Ready(cr, buys, sells, p, left) && left > 0
    ensures buys != [] && sells != [] && buys[0] != sells[0] && buys[0] in cr.w && sells[0] in cr.w
    ensures cr.w[buys[0]].o.TradesAt(p) && cr.w[sells[0]].o.TradesAt(p)
    ensures cr.w[buys[0]].o.side == Buy && cr.w[sells[0]].o.side == Sell
    ensures var x := Min(Min(cr.w[buys[0]].o.leaves, cr.w[sells[0]].o.leaves), left);
      var cr1 := CrossOne(cr, buys[0], sells[0], p, x);
      x > 0 && Ready(cr1, Advance(cr1.w, buys), Advance(cr1.w, sells), p, left - x)
  {
    HeadTrades(cr.w, Buy, buys, p);
    HeadTrades(cr.w, Sell, sells, p);
    var b, s := buys[0], sells[0];
    assert b in buys && s in sells;
    var x := Min(Min(cr.w[b].o.leaves, cr.w[s].o.leaves), left);
    RoundLists(cr.w, buys, sells, p, x);
    hide Lists;
    TakeSum(cr.w, b, x, Buy, p);
    TakeSum(cr.w, b, x, Sell, p);
    TakeSum(Take(cr.w, b, x), s, x, Buy, p);
    TakeSum(Take(cr.w, b, x), s, x, Sell, p);
  }

  lemma RoundLists(w: Pool, buys: seq<OrderId>, sells: seq<OrderId>, p: int, x: int)
    requires PoolOk(w) && Lists(w, Buy, buys, p) && Lists(w, Sell, sells, p) && buys != [] && sells != []
    requires buys[0] in w && sells[0] in w && w[buys[0]].o.side == Buy && w[sells[0]].o.side == Sell
    requires 0 < x <= w[buys[0]].o.leaves && x <= w[sells[0]].o.leaves
    ensures var w2 := Take(Take(w, buys[0], x), sells[0], x);
      PoolOk(w2) && Lists(w2, Buy, Advance(w2, buys), p) && Lists(w2, Sell, Advance(w2, sells), p)
  {
    hide Lists;
    var w1 := Take(w, buys[0], x);
    TakeOwn(w, Buy, buys, p, x);
    TakeOther(w, Sell, sells, p, buys[0], x);
    TakeOther(w1, Buy, Advance(w1, buys), p, sells[0], x);
    TakeOwn(w1, Sell, sells, p, x);
  }

  /** From `cr` to `r` exactly `left` was executed: every execution sound, and what each order gave
      up is what it traded. */
  ghost predicate Executed(cr: Cross, r: Cross, p: int, left: int) {
    && Traded(r.trades) == Traded(cr.trades) + left
    && Demand(r.w, p) == Demand(cr.w, p) - left && Supply(r.w, p) == Supply(cr.w, p) - left
    && Shrinks(cr.w, r.w) && cr.trades <= r.trades
    && (forall i :: |cr.trades| <= i < |r.trades| ==> Sound(cr.w, r.trades[i], p))
    && (forall id :: id in cr.w ==>
          cr.w[id].o.leaves - r.w[id].o.leaves == TradedBy(r.trades, id) - TradedBy(cr.trades, id))
  }

  lemma ExecutedTrans(cr: Cross, cr1: Cross, r: Cross, p: int, x: int, y: int)
    requires Executed(cr, cr1, p, x) && Executed(cr1, r, p, y)
    ensures Executed(cr, r, p, x + y)
  {
    hide Demand, Supply, Traded, TradedBy;
    forall i | |cr.trades| <= i < |r.trades| ensures Sound(cr.w, r.trades[i], p) {
      assert i < |cr1.trades| ==> r.trades[i] == cr1.trades[i];
    }
  }

  lemma RoundTraded(cr: Cross, b: OrderId, s: OrderId, p: int, x: int)
    requires b in cr.w && s in cr.w && b != s
    ensures var r := CrossOne(cr, b, s, p, x);
      && Traded(r.trades) == Traded(cr.trades) + x
      && (forall id :: id in cr.w ==>
            cr.w[id].o.leaves - r.w[id].o.leaves == TradedBy(r.trades, id) - TradedBy(cr.trades, id))
  {
    hide Traded, TradedBy;
    var t := Trade(b, s, Buy, p, x);
    TradedPush(cr.trades, t, b);
    forall id ensures TradedBy(cr.trades + [t], id) == TradedBy(cr.trades, id) + if b == id || s == id then x else 0 {
      TradedPush(cr.trades, t, id);
    }
  }

  lemma RoundSums(w: Pool, b: OrderId, s: OrderId, p: int, x: int)
    requires b in w && s in w && b != s && w[b].o.side == Buy && w[s].o.side == Sell
    requires w[b].o.TradesAt(p) && w[s].o.TradesAt(p)
    ensures var w' := Take(Take(w, b, x), s, x);
      Demand(w', p) == Demand(w, p) - x && Supply(w', p) == Supply(w, p) - x
  {
    hide Sum;
    TakeSum(w, b, x, Buy, p);
    TakeSum(w, b, x, Sell, p);
    TakeSum(Take(w, b, x), s, x, Buy, p);
    TakeSum(Take(w, b, x), s, x, Sell, p);
  }

  lemma RoundExecutes(cr: Cross, b: OrderId, s: OrderId, p: int, x: int)
    requires b in cr.w && s in cr.w && b != s && cr.w[b].o.side == Buy && cr.w[s].o.side == Sell
    requires cr.w[b].o.TradesAt(p) && cr.w[s].o.TradesAt(p) && PoolOk(cr.w)
    requires 0 < x <= cr.w[b].o.leaves && x <= cr.w[s].o.leaves
    ensures Executed(cr, CrossOne(cr, b, s, p, x), p, x)
  {
    hide Traded, TradedBy, Demand, Supply;
    RoundTraded(cr, b, s, p, x);
    RoundSums(cr.w, b, s, p, x);
  }

  lemma ExecutedNone(cr: Cross, p: int)
    requires PoolOk(cr.w)
    ensures Executed(cr, cr, p, 0)
  {
  }

  /** The cross executes exactly the cleared volume, every execution is at the clearing price and
      within both orders' limits, and what each order gives up is what it traded. */
  lemma {:induction false} CrossExecutesVolume(cr: Cross, buys: seq<OrderId>, sells: seq<OrderId>, p: int, left: int)
    requires Ready(cr, buys, sells, p, left)
    ensures InPool(cr.w, buys) && InPool(cr.w, sells)
    ensures Executed(cr, CrossLoop(cr, buys, sells, p, left), p, left)
    decreases |buys| + |sells|, left
  {
    hide Ready, Executed, CrossOne;
    ReadyPool(cr, buys, sells, p, left);
    if left > 0 {
      RoundReady(cr, buys, sells, p, left);
      var x := Min(Min(cr.w[buys[0]].o.leaves, cr.w[sells[0]].o.leaves), left);
      var cr1 := CrossOne(cr, buys[0], sells[0], p, x);
      RoundExecutes(cr, buys[0], sells[0], p, x);
      RoundShorter(cr, buys, sells, p, left);
      ReadyPool(cr1, Advance(cr1.w, buys), Advance(cr1.w, sells), p, left - x);
      CrossExecutesVolume(cr1, Advance(cr1.w, buys), Advance(cr1.w, sells), p, left - x);
      ExecutedTrans(cr, cr1, CrossLoop(cr, buys, sells, p, left), p, x, left - x);
    } else {
      ExecutedNone(cr, p);
    }
  }

  lemma RoundShorter(cr: Cross, buys: seq<OrderId>, sells: seq<OrderId>, p: int, left: int)
    requires left > 0 && buys != [] && sells != [] && buys[0] in cr.w && sells[0] in cr.w && buys[0] != sells[0]
    ensures var x := Min(Min(cr.w[buys[0]].o.leaves, cr.w[sells[0]].o.leaves), left);
      var w1 := CrossOne(cr, buys[0], sells[0], p, x).w;
      && buys[0] in w1 && sells[0] in w1
      && (|Advance(w1, buys)| + |Advance(w1, sells)| < |buys| + |sells|
          || (|Advance(w1, buys)| + |Advance(w1, sells)| == |buys| + |sells| && left - x == 0))
  {
  }

  // ------------------------------------------------------------- priority

  lemma {:induction false} CrossKeeps(cr: Cross, buys: seq<OrderId>, sells: seq<OrderId>, p: int, left: int,
                                      id: OrderId)
    requires InPool(cr.w, buys) && InPool(cr.w, sells) && id in cr.w
    requires id !in buys && id !in sells
    ensures id in CrossLoop(cr, buys, sells, p, left).w && CrossLoop(cr, buys, sells, p, left).w[id] == cr.w[id]
    decreases |buys| + |sells|, left
  {
    if left <= 0 || buys == [] || sells == [] || !cr.w[buys[0]].o.TradesAt(p) || !cr.w[sells[0]].o.TradesAt(p)
      || buys[0] == sells[0]
    {
    } else {
      var x := Min(Min(cr.w[buys[0]].o.leaves, cr.w[sells[0]].o.leaves), left);
      var cr1 := CrossOne(cr, buys[0], sells[0], p, x);
      CrossKeeps(cr1, Advance(cr1.w, buys), Advance(cr1.w, sells), p, left - x, id);
    }
  }

  /** No order fills while one listed before it on its side keeps a remainder. */
  ghost predicate InPriority(w: Pool, w': Pool, ids: seq<OrderId>) {
    forall i, j :: 0 <= i < j < |ids| && ids[i] in w' && ids[j] in w && ids[j] in w' ==>
      w'[ids[j]].o.leaves == w[ids[j]].o.leaves || w'[ids[i]].o.leaves == 0
  }

  lemma PriorityStep(w: Pool, w1: Pool, w2: Pool, ids: seq<OrderId>)
    requires ids != [] && NoDup(ids) && InPool(w, ids) && InPool(w1, ids) && InPool(w2, ids)
    requires forall a :: a in ids && a != ids[0] ==> w1[a] == w[a]
    requires InPriority(w1, w2, Advance(w1, ids))
    requires w1[ids[0]].o.leaves == 0 ==> w2[ids[0]].o.leaves == 0
    ensures InPriority(w, w2, ids)
  {
    forall i, j | 0 <= i < j < |ids| && w2[ids[j]].o.leaves != w[ids[j]].o.leaves
      ensures w2[ids[i]].o.leaves == 0
    {
      assert ids[j] in ids && ids[i] in ids;
      if w1[ids[0]].o.leaves == 0 && i > 0 {
        assert ids[1..][i - 1] == ids[i] && ids[1..][j - 1] == ids[j];
      }
    }
  }

  lemma {:induction false} CrossKeys(cr: Cross, buys: seq<OrderId>, sells: seq<OrderId>, p: int, left: int)
    requires InPool(cr.w, buys) && InPool(cr.w, sells)
    ensures CrossLoop(cr, buys, sells, p, left).w.Keys == cr.w.Keys
    decreases |buys| + |sells|, left
  {
    if left <= 0 || buys == [] || sells == [] || !cr.w[buys[0]].o.TradesAt(p) || !cr.w[sells[0]].o.TradesAt(p)
      || buys[0] == sells[0]
    {
    } else {
      var x := Min(Min(cr.w[buys[0]].o.leaves, cr.w[sells[0]].o.leaves), left);
      var cr1 := CrossOne(cr, buys[0], sells[0], p, x);
      CrossKeys(cr1, Advance(cr1.w, buys), Advance(cr1.w, sells), p, left - x);
    }
  }

  /** Allocation follows priority on both sides. */
  lemma {:induction false} CrossInPriority(cr: Cross, buys: seq<OrderId>, sells: seq<OrderId>, p: int, left: int)
    requires InPool(cr.w, buys) && InPool(cr.w, sells) && NoDup(buys) && NoDup(sells)
    requires forall a :: a in buys ==> a !in sells
    ensures InPriority(cr.w, CrossLoop(cr, buys, sells, p, left).w, buys)
    ensures InPriority(cr.w, CrossLoop(cr, buys, sells, p, left).w, sells)
    decreases |buys| + |sells|, left
  {
    if left <= 0 || buys == [] || sells == [] || !cr.w[buys[0]].o.TradesAt(p) || !cr.w[sells[0]].o.TradesAt(p)
      || buys[0] == sells[0]
    {
    } else {
      var b, s := buys[0], sells[0];
      assert b in buys && s in sells;
      var x := Min(Min(cr.w[b].o.leaves, cr.w[s].o.leaves), left);
      var cr1 := CrossOne(cr, b, s, p, x);
      var buys1, sells1 := Advance(cr1.w, buys), Advance(cr1.w, sells);
      HeadGone(buys);
      HeadGone(sells);
      CrossInPriority(cr1, buys1, sells1, p, left - x);
      CrossKeys(cr1, buys1, sells1, p, left - x);
      hide InPriority, CrossOne;
      if cr1.w[b].o.leaves == 0 { CrossKeeps(cr1, buys1, sells1, p, left - x, b); }
      if cr1.w[s].o.leaves == 0 { CrossKeeps(cr1, buys1, sells1, p, left - x, s); }
      CrossOneOthers(cr, b, s, p, x);
      PriorityStep(cr.w, cr1.w, CrossLoop(cr, buys, sells, p, left).w, buys);
      PriorityStep(cr.w, cr1.w, CrossLoop(cr, buys, sells, p, left).w, sells);
    }
  }

  lemma CrossOneOthers(cr: Cross, b: OrderId, s: OrderId, p: int, x: int)
    requires b in cr.w && s in cr.w
    ensures CrossOne(cr, b, s, p, x).w.Keys == cr.w.Keys
    ensures forall a :: a in cr.w && a != b && a != s ==> CrossOne(cr, b, s, p, x).w[a] == cr.w[a]
  {
  }

  lemma HeadGone(ids: seq<OrderId>)
    requires ids != [] && NoDup(ids)
    ensures ids[0] !in ids[1..] && NoDup(ids[1..])
    ensures forall a :: a in ids[1..] ==> a in ids
  {
    assert forall i :: 0 <= i < |ids[1..]| ==> ids[1..][i] == ids[i + 1];
  }

  // ------------------------------------------- the whole cross of a queue

  function SideIds(w: Pool, side: Side): set<OrderId> {
    set id | id in w && w[id].o.side == side
  }

  /** Orders of an auction queue: unfilled, with distinct arrival numbers. */
  ghost predicate QueuePool(w: Pool) {
    && (forall id :: id in w ==> w[id].o.id == id && w[id].o.leaves > 0)
    && (forall a, b :: a in w && b in w && a != b ==> w[a].o.seqNo != w[b].o.seqNo)
  }

  lemma SideTotal(w: Pool, side: Side)
    requires QueuePool(w)
    ensures TotalOn(ByPriority(w), SideIds(w, side))
  {
    PriorityTotal(w, SideIds(w, side), side);
  }

  /** One side of the auction in priority order. */
  ghost function Ranked(w: Pool, side: Side): seq<OrderId>
    requires QueuePool(w)
  {
    SideTotal(w, side);
    Sorted(ByPriority(w), SideIds(w, side))
  }

  /** Priority order puts the orders that trade at `p` first. */
  lemma RankedLists(w: Pool, side: Side, p: int)
    requires QueuePool(w)
    ensures Lists(w, side, Ranked(w, side), p) && InPool(w, Ranked(w, side))
  {
    SideTotal(w, side);
    var ids := Ranked(w, side);
    assert SortedBy(ByPriority(w), SideIds(w, side), ids);
    forall i, j | 0 <= i < j < |ids|
      ensures ids[i] != ids[j]
      ensures w[ids[j]].o.TradesAt(p) ==> w[ids[i]].o.TradesAt(p)
    {
      assert ids[i] in ids && ids[j] in ids;
      assert Less(ByPriority(w), ids[i], ids[j]);
    }
  }

  /** The executions of the auction over pool `w`, and the price they set. */
  ghost function CrossPool(c: Core, w: Pool): Cross
    requires QueuePool(w)
  {
    var price := ClearingPrice(w, c.last);
    if price.None? then Cross(c, w, [])
    else
      var p := price.value;
      RankedLists(w, Buy, p);
      RankedLists(w, Sell, p);
      var r := CrossLoop(Cross(c, w, []), Ranked(w, Buy), Ranked(w, Sell), p, Volume(w, p));
      r.(c := r.c.(last := Some(p)))
  }

  lemma RankedReady(c: Core, w: Pool, p: int)
    requires QueuePool(w) && Volume(w, p) >= 0
    ensures Ready(Cross(c, w, []), Ranked(w, Buy), Ranked(w, Sell), p, Volume(w, p))
  {
    RankedLists(w, Buy, p);
    RankedLists(w, Sell, p);
  }

  /** The auction executes exactly its clearing volume, at the clearing price, within every limit. */
  lemma AuctionExecutesVolume(c: Core, w: Pool)
    requires QueuePool(w)
    ensures var r := CrossPool(c, w);
      match ClearingPrice(w, c.last)
      case None => r == Cross(c, w, [])
      case Some(p) =>
        && r.c.last == Some(p) && r.trades != []
        && Traded(r.trades) == Volume(w, p) && Shrinks(w, r.w)
        && (forall i :: 0 <= i < |r.trades| ==> Sound(w, r.trades[i], p))
        && (forall id :: id in w ==> w[id].o.leaves - r.w[id].o.leaves == TradedBy(r.trades, id))
  {
    if ClearingPrice(w, c.last).Some? {
      var p := ClearingPrice(w, c.last).value;
      RankedReady(c, w, p);
      hide Ready, QueuePool;
      CrossExecutesVolume(Cross(c, w, []), Ranked(w, Buy), Ranked(w, Sell), p, Volume(w, p));
    }
  }

  /** On each side market orders fill first, then the higher bid or the lower offer, then the earlier
      arrival: whoever comes later fills nothing while one before it is not filled. */
  lemma AuctionFollowsPriority(c: Core, w: Pool, a: OrderId, b: OrderId)
    requires QueuePool(w) && a in w && b in w && w[a].o.side == w[b].o.side
    requires var x, y := w[a].o, w[b].o;
      || (x.typ == Market && y.typ == Limit)
      || (x.typ == y.typ && x.side == Buy && x.price > y.price)
      || (x.typ == y.typ && x.side == Sell && x.price < y.price)
      || (x.typ == y.typ && x.price == y.price && x.seqNo < y.seqNo)
    ensures var r := CrossPool(c, w).w;
      a in r && b in r && (r[b].o.leaves != w[b].o.leaves ==> r[a].o.leaves == 0)
  {
    if ClearingPrice(w, c.last).Some? {
      var p := ClearingPrice(w, c.last).value;
      RankedLists(w, Buy, p);
      RankedLists(w, Sell, p);
      var buys, sells := Ranked(w, Buy), Ranked(w, Sell);
      CrossInPriority(Cross(c, w, []), buys, sells, p, Volume(w, p));
      CrossKeys(Cross(c, w, []), buys, sells, p, Volume(w, p));
      RankedOrder(w, a, b);
    }
  }

  /** After the cross no bid and offer are left that both accept the clearing price. */
  lemma AuctionLeavesNoCross(c: Core, w: Pool, b: OrderId, s: OrderId)
    requires QueuePool(w) && ClearingPrice(w, c.last).Some? && b in w && s in w
    requires var p := ClearingPrice(w, c.last).value;
      && w[b].o.side == Buy && (w[b].o.typ == Market || w[b].o.price >= p)
      && w[s].o.side == Sell && (w[s].o.typ == Market || w[s].o.price <= p)
    ensures var r := CrossPool(c, w).w; b in r && s in r && (r[b].o.leaves == 0 || r[s].o.leaves == 0)
  {
    var p := ClearingPrice(w, c.last).value;
    RankedReady(c, w, p);
    hide Ready, QueuePool, CrossLoop;
    CrossExecutesVolume(Cross(c, w, []), Ranked(w, Buy), Ranked(w, Sell), p, Volume(w, p));
    var r := CrossPool(c, w).w;
    if r[b].o.leaves > 0 { EligibleLeft(r, b, Buy, p); }
    if r[s].o.leaves > 0 { EligibleLeft(r, s, Sell, p); }
  }

  lemma EligibleLeft(w: Pool, id: OrderId, side: Side, p: int)
    requires id in w && w[id].o.side == side && w[id].o.TradesAt(p) && w[id].o.leaves > 0
    requires forall x :: x in w ==> w[x].o.leaves >= 0
    ensures Sum(w, EligibleAt(side, p)) > 0
  {
    SumZero(w, EligibleAt(side, p));
    assert Weight(EligibleAt(side, p), w[id]) > 0;
  }

  /** Every execution of the cross is at the clearing price, and within the limit of both orders. */
  lemma AuctionWithinLimits(c: Core, w: Pool, t: Trade)
    requires QueuePool(w) && t in CrossPool(c, w).trades
    ensures ClearingPrice(w, c.last) == Some(t.price) && t.qty > 0
    ensures t.taker in w && w[t.taker].o.side == Buy && (w[t.taker].o.typ == Limit ==> w[t.taker].o.price >= t.price)
    ensures t.maker in w && w[t.maker].o.side == Sell && (w[t.maker].o.typ == Limit ==> w[t.maker].o.price <= t.price)
  {
    hide CrossPool, QueuePool, Volume, Shrinks, ClearingPrice;
    AuctionExecutesVolume(c, w);
    var trades := CrossPool(c, w).trades;
    var i :| 0 <= i < |trades| && trades[i] == t;
    assert Sound(w, trades[i], ClearingPrice(w, c.last).value);
  }

  lemma RankedOrder(w: Pool, a: OrderId, b: OrderId)
    requires QueuePool(w) && a in w && b in w && w[a].o.side == w[b].o.side && Precedes(w[a].o, w[b].o)
    ensures exists i, j ::
      0 <= i < j < |Ranked(w, w[a].o.side)| && Ranked(w, w[a].o.side)[i] == a && Ranked(w, w[a].o.side)[j] == b
  {
    var side := w[a].o.side;
    SideTotal(w, side);
    var ids := Ranked(w, side);
    assert SortedBy(ByPriority(w), SideIds(w, side), ids);
    assert a in ids && b in ids;
    var i :| 0 <= i < |ids| && ids[i] == a;
    var j :| 0 <= j < |ids| && ids[j] == b;
    assert Less(ByPriority(w), a, b) && !Less(ByPriority(w), b, a);
  }
}
