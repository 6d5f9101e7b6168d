/** Sums over the resting orders.  Level totals, displayed totals, reduce-only reservations and
    reachable liquidity are all instances of one weighted sum over the id index. */
module BookSums {
  import opened OrderTypes

  datatype Measure =
    | LeavesAt(side: Side, price: int)
    | LitAt(side: Side, price: int)
    | ReservedOf(client: ClientId, side: Side)
    | ReachOf(o: Order)
    | FreeOf(o: Order)
    | OthersOf(o: Order)
    | ReachBefore(o: Order, price: int)
    | EligibleAt(side: Side, price: int)

  /** Maker `m` rests opposite aggressor `o` at a price it accepts. */
  predicate Reaches(o: Order, m: Maker) {
    m.o.side == o.side.Opposite() && o.Accepts(m.o.price)
  }

  /** What maker `m` contributes to measure `k`. */
  function Weight(k: Measure, m: Maker): int {
    match k
    case LeavesAt(s, p) => if m.o.side == s && m.o.price == p then m.o.leaves else 0
    case LitAt(s, p) => if m.o.side == s && m.o.price == p then m.Lit() else 0
    case ReservedOf(c, s) => if m.o.client == c && m.o.side == s && m.o.Has(ReduceOnly) then m.o.leaves else 0
    case ReachOf(o) => if Reaches(o, m) then m.o.leaves else 0
    case FreeOf(o) => if Reaches(o, m) && !m.o.Has(Aon) then m.o.leaves else 0
    case OthersOf(o) => if Reaches(o, m) && m.o.client != o.client then m.o.leaves else 0
    case ReachBefore(o, p) => if Reaches(o, m) && m.o.side.Better(m.o.price, p) then m.o.leaves else 0
    case EligibleAt(s, p) => if m.o.side == s && m.o.TradesAt(p) then m.o.leaves else 0
  }

  ghost function Pick(orders: map<OrderId, Maker>): (id: OrderId)
    requires orders != map[]
    ensures id in orders
  {
    assert exists id :: id in orders;
    var id :| id in orders;
    id
  }

  lemma DropShrinks(orders: map<OrderId, Maker>, id: OrderId)
    requires id in orders
    ensures |orders - {id}| == |orders| - 1
  {
    assert (orders - {id}).Keys == orders.Keys - {id};
  }

  ghost function Sum(orders: map<OrderId, Maker>, k: Measure): int
    decreases |orders|
  {
    if orders == map[] then 0
    else
      var id := Pick(orders);
      DropShrinks(orders, id);
      Weight(k, orders[id]) + Sum(orders - {id}, k)
  }

  lemma {:induction false} SumExtract(orders: map<OrderId, Maker>, k: Measure, id: OrderId)
    requires id in orders
    ensures Sum(orders, k) == Weight(k, orders[id]) + Sum(orders - {id}, k)
    decreases |orders|
  {
    var pick := Pick(orders);
    if pick != id {
      DropShrinks(orders, pick);
      DropShrinks(orders, id);
      SumExtract(orders - {pick}, k, id);
      SumExtract(orders - {id}, k, pick);
      assert orders - {pick} - {id} == orders - {id} - {pick};
    }
  }

  /** Removing an order takes away exactly its own weight, in every measure. */
  lemma SumDrop(orders: map<OrderId, Maker>, id: OrderId)
    requires id in orders
    ensures forall k :: Sum(orders - {id}, k) == Sum(orders, k) - Weight(k, orders[id])
  {
    forall k ensures Sum(orders - {id}, k) == Sum(orders, k) - Weight(k, orders[id]) {
      SumExtract(orders, k, id);
    }
  }

  /** Inserting an order adds exactly its own weight, in every measure. */
  lemma SumAdd(orders: map<OrderId, Maker>, id: OrderId, m: Maker)
    requires id !in orders
    ensures forall k :: Sum(orders[id := m], k) == Sum(orders, k) + Weight(k, m)
  {
    forall k ensures Sum(orders[id := m], k) == Sum(orders, k) + Weight(k, m) {
      SumExtract(orders[id := m], k, id);
      assert orders[id := m] - {id} == orders;
    }
  }

  /** Replacing an order exchanges its weight, in every measure. */
  lemma SumReplace(orders: map<OrderId, Maker>, id: OrderId, m: Maker)
    requires id in orders
    ensures forall k :: Sum(orders[id := m], k) == Sum(orders, k) - Weight(k, orders[id]) + Weight(k, m)
  {
    forall k ensures Sum(orders[id := m], k) == Sum(orders, k) - Weight(k, orders[id]) + Weight(k, m) {
      SumExtract(orders[id := m], k, id);
      SumExtract(orders, k, id);
      assert orders[id := m] - {id} == orders - {id};
    }
  }

  ghost predicate NonNegative(orders: map<OrderId, Maker>, k: Measure) {
    forall id :: id in orders ==> Weight(k, orders[id]) >= 0
  }

  /** A sum of non-negative weights is zero exactly when every weight is. */
  lemma {:induction false} SumZero(orders: map<OrderId, Maker>, k: Measure)
    requires NonNegative(orders, k)
    ensures Sum(orders, k) >= 0
    ensures Sum(orders, k) == 0 <==> forall id :: id in orders ==> Weight(k, orders[id]) == 0
    decreases |orders|
  {
    if orders != map[] {
      var pick := Pick(orders);
      DropShrinks(orders, pick);
      SumZero(orders - {pick}, k);
      if Sum(orders, k) == 0 {
        forall id | id in orders ensures Weight(k, orders[id]) == 0 {
          if id != pick { assert id in orders - {pick}; }
        }
      }
    }
  }

  /** Each weight is bounded by a sum of non-negative weights. */
  lemma SumBounds(orders: map<OrderId, Maker>, k: Measure, id: OrderId)
    requires NonNegative(orders, k) && id in orders
    ensures Weight(k, orders[id]) <= Sum(orders, k)
  {
    SumExtract(orders, k, id);
    SumZero(orders - {id}, k);
  }

  /** Sums add up when weights do, order by order. */
  lemma {:induction false} SumSplit(orders: map<OrderId, Maker>, k: Measure, k1: Measure, k2: Measure)
    requires forall id :: id in orders ==> Weight(k, orders[id]) == Weight(k1, orders[id]) + Weight(k2, orders[id])
    ensures Sum(orders, k) == Sum(orders, k1) + Sum(orders, k2)
    decreases |orders|
  {
    if orders != map[] {
      var pick := Pick(orders);
      DropShrinks(orders, pick);
      SumSplit(orders - {pick}, k, k1, k2);
    }
  }

  lemma {:induction false} SumLeq(orders: map<OrderId, Maker>, k1: Measure, k2: Measure)
    requires forall id :: id in orders ==> Weight(k1, orders[id]) <= Weight(k2, orders[id])
    ensures Sum(orders, k1) <= Sum(orders, k2)
    decreases |orders|
  {
    if orders != map[] {
      var pick := Pick(orders);
      DropShrinks(orders, pick);
      SumLeq(orders - {pick}, k1, k2);
    }
  }
}
