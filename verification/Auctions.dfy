/** The uniform-price auction: choice of the clearing price and allocation at that price
    (src/core/order_book.cc, cross_auction). */
module Auctions {
  import opened OrderTypes
  import opened BookSums

  /** The auction orders by id (the slice is unused). */
  type Pool = map<OrderId, Maker>

  ghost function Demand(w: Pool, p: int): int {
    Sum(w, EligibleAt(Buy, p))
  }

  ghost function Supply(w: Pool, p: int): int {
    Sum(w, EligibleAt(Sell, p))
  }

  ghost function Volume(w: Pool, p: int): int {
    Min(Demand(w, p), Supply(w, p))
  }

  ghost function Imbalance(w: Pool, p: int): int {
    Abs(Demand(w, p) - Supply(w, p))
  }

  /** The candidate prices: the limit prices submitted. */
  function Candidates(w: Pool): set<int> {
    set id | id in w && w[id].o.typ != Market :: w[id].o.price
  }

  ghost predicate PoolOk(w: Pool) {
    forall id :: id in w ==> w[id].o.id == id && w[id].o.leaves >= 0
  }

  // ---------------------------------------------------- the clearing price

  /** Tie-break after volume and imbalance: nearer the last price, then the lower price. */
  predicate Nearer(last: Option<int>, p: int, r: int) {
    if last.Some? && Abs(p - last.value) != Abs(r - last.value) then Abs(p - last.value) < Abs(r - last.value)
    else p < r
  }

  /** Price `p` ranks strictly before `r`. */
  ghost predicate Prefer(w: Pool, last: Option<int>, p: int, r: int) {
    if Volume(w, p) != Volume(w, r) then Volume(w, p) > Volume(w, r)
    else if Imbalance(w, p) != Imbalance(w, r) then Imbalance(w, p) < Imbalance(w, r)
    else Nearer(last, p, r)
  }

  /** `r` is the outcome of the price search over `cands`: the first-ranked price with volume. */
  ghost predicate BestOf(w: Pool, last: Option<int>, cands: set<int>, r: Option<int>) {
    && (r.None? ==> forall p :: p in cands ==> Volume(w, p) <= 0)
    && (r.Some? ==> r.value in cands && Volume(w, r.value) > 0)
    && (r.Some? ==> forall p :: p in cands && p != r.value && Volume(w, p) > 0 ==> Prefer(w, last, r.value, p))
  }

  /** The prices searched: the candidates or, if every order is a market order, the last price. */
  ghost function Searched(w: Pool, last: Option<int>): set<int> {
    if Candidates(w) != {} then Candidates(w)
    else if last.Some? then {last.value} else {}
  }

  ghost predicate Clears(w: Pool, last: Option<int>, r: Option<int>) {
    BestOf(w, last, Searched(w, last), r)
  }

  lemma ClearsUnique(w: Pool, last: Option<int>, r: Option<int>, t: Option<int>)
    requires Clears(w, last, r) && Clears(w, last, t)
    ensures r == t
  {
    hide Volume, Imbalance;
  }

  lemma SomePrice(ps: set<int>)
    requires ps != {}
    ensures exists p :: p in ps
  {
    assert (forall p :: p !in ps) ==> ps == {};
  }

  lemma {:induction false} BestOfExists(w: Pool, last: Option<int>, cands: set<int>)
    ensures exists r :: BestOf(w, last, cands, r)
    decreases |cands|
  {
    hide Volume, Imbalance;
    if cands == {} {
      assert BestOf(w, last, cands, None);
    } else {
      SomePrice(cands);
      var p :| p in cands;
      var rest := cands - {p};
      BestOfExists(w, last, rest);
      var r :| BestOf(w, last, rest, r);
      var t := if Volume(w, p) > 0 && (r.None? || Prefer(w, last, p, r.value)) then Some(p) else r;
      assert BestOf(w, last, cands, t);
    }
  }

  ghost function ClearingPrice(w: Pool, last: Option<int>): (r: Option<int>)
    ensures Clears(w, last, r)
  {
    BestOfExists(w, last, Searched(w, last));
    var r :| BestOf(w, last, Searched(w, last), r);
    r
  }

  /** Among the searched prices with the greatest volume, the clearing price leaves the smallest surplus of
      one side over the other; among those it is nearest the last price, if there is one; and among those
      it is the lowest. */
  lemma ClearingBreaksTies(w: Pool, last: Option<int>, p: int)
    requires ClearingPrice(w, last).Some? && p in Searched(w, last) && p != ClearingPrice(w, last).value
    requires Volume(w, p) >= Volume(w, ClearingPrice(w, last).value)
    ensures var r := ClearingPrice(w, last).value;
      var over, over' := Demand(w, r) - Supply(w, r), Demand(w, p) - Supply(w, p);
      && Volume(w, p) == Volume(w, r)
      && (if over >= 0 then over else -over) <= (if over' >= 0 then over' else -over')
      && (over == over' || over == -over' ==>
            if last.Some? then
              var near := if r >= last.value then r - last.value else last.value - r;
              var near' := if p >= last.value then p - last.value else last.value - p;
              near < near' || (near == near' && r < p)
            else r < p)
  {
    hide Demand, Supply, Volume, Searched;
    assert Prefer(w, last, ClearingPrice(w, last).value, p);
  }

  /** Whoever trades at `p` also trades at `c`: then `c` has at least the volume of `p`. */
  lemma VolumeLeq(w: Pool, p: int, c: int)
    requires PoolOk(w)
    requires forall id :: id in w && w[id].o.TradesAt(p) ==> w[id].o.TradesAt(c)
    ensures Volume(w, p) <= Volume(w, c)
  {
    SumLeq(w, EligibleAt(Buy, p), EligibleAt(Buy, c));
    SumLeq(w, EligibleAt(Sell, p), EligibleAt(Sell, c));
  }

  /** Every integer price is matched or beaten by some submitted limit price. */
  lemma CandidateDominates(w: Pool, p: int)
    requires PoolOk(w) && Candidates(w) != {}
    ensures exists c :: c in Candidates(w) && Volume(w, p) <= Volume(w, c)
  {
    var asks := set id |
      id in w && w[id].o.typ != Market && w[id].o.side == Sell && w[id].o.price <= p :: w[id].o.price;
    var bids := set id |
      id in w && w[id].o.typ != Market && w[id].o.side == Buy && w[id].o.price >= p :: w[id].o.price;
    var c: int;
    if x :| x in asks {
      BestPriceExists(Buy, asks, x);
      c :| c in asks && forall y :: y in asks ==> !Buy.Better(y, c);
    } else if x :| x in bids {
      BestPriceExists(Sell, bids, x);
      c :| c in bids && forall y :: y in bids ==> !Sell.Better(y, c);
    } else {
      SomePrice(Candidates(w));
      c :| c in Candidates(w);
    }
    forall id | id in w && w[id].o.TradesAt(p) ensures w[id].o.TradesAt(c) {
      if w[id].o.typ != Market {
        assert w[id].o.side == Sell ==> w[id].o.price in asks;
        assert w[id].o.side == Buy ==> w[id].o.price in bids;
      }
    }
    VolumeLeq(w, p, c);
  }

  lemma LimitIsCandidate(w: Pool, id: OrderId)
    requires id in w && w[id].o.typ != Market
    ensures w[id].o.price in Candidates(w)
  {
  }

  /** The volume the auction executes: that of its clearing price, or none. */
  ghost function Executed(w: Pool, last: Option<int>): int {
    match ClearingPrice(w, last)
    case Some(r) => Volume(w, r)
    case None => 0
  }

  /** In a pool of market orders every price has the same volume. */
  lemma AllMarket(w: Pool, p: int, r: int)
    requires PoolOk(w) && Candidates(w) == {}
    ensures Volume(w, p) == Volume(w, r)
  {
    forall id | id in w ensures w[id].o.typ == Market {
      if w[id].o.typ != Market { LimitIsCandidate(w, id); }
    }
    VolumeLeq(w, p, r);
    VolumeLeq(w, r, p);
  }

  /** No integer price has more volume than the auction executes, as long as a price was searched:
      although only the submitted limits are. */
  lemma SearchedMaximises(w: Pool, last: Option<int>, p: int)
    requires PoolOk(w) && (Candidates(w) != {} || last.Some?)
    ensures Volume(w, p) <= Executed(w, last)
  {
    hide Volume;
    if Candidates(w) != {} {
      CandidateDominates(w, p);
    } else {
      AllMarket(w, p, last.value);
    }
  }

  /** The auction executes the greatest volume any integer price allows, if and only if some queued
      order has a limit, or the book has a last price, or nothing can trade: market orders alone in a
      book that never traded find no price, and stay unexecuted. */
  lemma ClearingPriceMaximisesVolume(w: Pool, last: Option<int>)
    requires PoolOk(w)
    ensures (forall p :: Volume(w, p) <= Executed(w, last)) <==>
      Candidates(w) != {} || last.Some? || Volume(w, 0) <= 0
  {
    hide Volume;
    if Candidates(w) != {} || last.Some? {
      forall p ensures Volume(w, p) <= Executed(w, last) {
        SearchedMaximises(w, last, p);
      }
    } else {
      assert Executed(w, last) == 0;
      forall p ensures Volume(w, p) == Volume(w, 0) {
        AllMarket(w, p, 0);
      }
    }
  }

  // -------------------------------------------------------- computing it

  function PoolOf(queue: seq<Order>): Pool {
    if queue == [] then map[]
    else PoolOf(queue[..|queue| - 1])[queue[|queue| - 1].id := Maker(queue[|queue| - 1], 0)]
  }

  ghost predicate DistinctIds(queue: seq<Order>) {
    forall i, j :: 0 <= i < j < |queue| ==> queue[i].id != queue[j].id
  }

  /** The pool holds each queued order under its id. */
  lemma {:induction false} PoolAt(queue: seq<Order>, i: nat)
    requires DistinctIds(queue) && i < |queue|
    ensures queue[i].id in PoolOf(queue) && PoolOf(queue)[queue[i].id] == Maker(queue[i], 0)
    decreases |queue|
  {
    var n := |queue| - 1;
    if i < n {
      assert queue[i].id != queue[n].id;
      PoolAt(queue[..n], i);
    }
  }

  /** The pool holds nothing else. */
  lemma {:induction false} PoolFrom(queue: seq<Order>, id: OrderId)
    requires id in PoolOf(queue)
    ensures exists i :: 0 <= i < |queue| && queue[i].id == id && PoolOf(queue)[id] == Maker(queue[i], 0)
    decreases |queue|
  {
    var n := |queue| - 1;
    if id == queue[n].id {
    } else {
      PoolFrom(queue[..n], id);
      var i :| 0 <= i < n && queue[..n][i].id == id && PoolOf(queue[..n])[id] == Maker(queue[..n][i], 0);
      assert queue[i].id == id;
    }
  }

  lemma PoolFresh(queue: seq<Order>, i: nat)
    requires DistinctIds(queue) && i < |queue|
    ensures queue[i].id !in PoolOf(queue[..i])
  {
    if queue[i].id in PoolOf(queue[..i]) {
      PoolFrom(queue[..i], queue[i].id);
    }
  }

  /** The quantity eligible on one side at `p` (demand_at and supply_at). */
  method EligibleQuantity(queue: seq<Order>, side: Side, p: int) returns (d: int)
    requires DistinctIds(queue)
    ensures d == Sum(PoolOf(queue), EligibleAt(side, p))
  {
    d := 0;
    for i := 0 to |queue|
      invariant d == Sum(PoolOf(queue[..i]), EligibleAt(side, p))
    {
      assert queue[..i + 1][..i] == queue[..i];
      PoolFresh(queue, i);
      SumAdd(PoolOf(queue[..i]), queue[i].id, Maker(queue[i], 0));
      if queue[i].side == side && queue[i].TradesAt(p) {
        d := d + queue[i].leaves;
      }
    }
    assert queue[..|queue|] == queue;
  }

  datatype Best = Best(price: int, volume: int, imbalance: int)

  ghost predicate IsBest(w: Pool, last: Option<int>, cands: set<int>, b: Option<Best>) {
    && BestOf(w, last, cands, if b.Some? then Some(b.value.price) else None)
    && (b.Some? ==> b.value.volume == Volume(w, b.value.price) && b.value.imbalance == Imbalance(w, b.value.price))
  }

  lemma NoneIsBest(w: Pool, last: Option<int>)
    ensures IsBest(w, last, {}, None)
  {
  }

  /** Weigh price `p` against the best so far; prices are offered in increasing order. */
  method Consider(queue: seq<Order>, last: Option<int>, p: int, b: Option<Best>, ghost seen: set<int>)
    returns (b': Option<Best>)
    requires DistinctIds(queue) && IsBest(PoolOf(queue), last, seen, b) && forall x :: x in seen ==> x < p
    ensures IsBest(PoolOf(queue), last, seen + {p}, b')
  {
    var d := EligibleQuantity(queue, Buy, p);
    var s := EligibleQuantity(queue, Sell, p);
    var v := Min(d, s);
    if v <= 0 {
      return b;
    }
    var imb := if d > s then d - s else s - d;
    assert v == Volume(PoolOf(queue), p) && imb == Imbalance(PoolOf(queue), p);
    hide Volume, Imbalance, PoolOf, DistinctIds;
    var better := b.None? || v > b.value.volume || (v == b.value.volume && imb < b.value.imbalance);
    if !better && v == b.value.volume && imb == b.value.imbalance {
      if last.Some? {
        better := Abs(p - last.value) < Abs(b.value.price - last.value);
      } else {
        better := p < b.value.price;
      }
    }
    b' := if better then Some(Best(p, v, imb)) else b;
  }

  method LowestPrice(ps: set<int>) returns (p: int)
    requires ps != {}
    ensures p in ps && forall x :: x in ps ==> p <= x
  {
    SomePrice(ps);
    p :| p in ps;
    var left := ps - {p};
    while left != {}
      invariant left <= ps && p in ps && forall x :: x in ps && x !in left ==> p <= x
      decreases |left|
    {
      SomePrice(left);
      var x :| x in left;
      left := left - {x};
      if x < p {
        p := x;
      }
    }
  }

  /** Offer the candidate prices in increasing order. */
  method SearchCandidates(queue: seq<Order>, last: Option<int>, cands: set<int>) returns (b: Option<Best>)
    requires DistinctIds(queue)
    ensures IsBest(PoolOf(queue), last, cands, b)
  {
    hide Volume, Imbalance, PoolOf, DistinctIds, BestOf;
    b := None;
    var left := cands;
    assert cands - left == {};
    NoneIsBest(PoolOf(queue), last);
    while left != {}
      invariant left <= cands
      invariant IsBest(PoolOf(queue), last, cands - left, b)
      invariant forall x, y :: x in cands - left && y in left ==> x < y
      decreases |left|
    {
      var p := LowestPrice(left);
      b := Consider(queue, last, p, b, cands - left);
      assert cands - left + {p} == cands - (left - {p});
      left := left - {p};
    }
    assert cands - left == cands;
  }

  /** Find the clearing price and its volume. */
  method FindClearing(queue: seq<Order>, last: Option<int>) returns (b: Option<Best>)
    requires DistinctIds(queue)
    ensures b.Some? == ClearingPrice(PoolOf(queue), last).Some?
    ensures b.Some? ==> b.value.price == ClearingPrice(PoolOf(queue), last).value
    ensures b.Some? ==> b.value.volume == Volume(PoolOf(queue), b.value.price)
  {
    hide Volume, Imbalance, PoolOf, DistinctIds, BestOf;
    var cands := Candidates(PoolOf(queue));
    if cands == {} {
      if last.Some? {
        cands := {last.value};
      }
    }
    b := SearchCandidates(queue, last, cands);
    ghost var w := PoolOf(queue);
    ClearsUnique(w, last, ClearingPrice(w, last), if b.Some? then Some(b.value.price) else None);
  }
}
