/** Sorting a set of order ids, as std::sort does when stops fire, pegs reprice and an auction
    allocates (src/core/order_book.cc, evaluate_stops, reprice_pegs and cross_auction). */
module Ordering {
  import opened OrderTypes

  /** The comparators in use: arrival number, or auction priority. */
  datatype Rule = ByArrival(key: map<OrderId, SeqNo>) | ByPriority(book: map<OrderId, Maker>)

  /** Auction priority on one side: market orders first, then the better price, then arrival. */
  predicate Precedes(a: Order, b: Order) {
    if (a.typ == Market) != (b.typ == Market) then a.typ == Market
    else if a.price != b.price then a.side.Better(a.price, b.price)
    else a.seqNo < b.seqNo
  }

  predicate Less(r: Rule, a: OrderId, b: OrderId) {
    match r
    case ByArrival(key) => a in key && b in key && key[a] < key[b]
    case ByPriority(book) => a in book && b in book && Precedes(book[a].o, book[b].o)
  }

  /** The rule is a strict total order on `ids`. */
  ghost predicate TotalOn(r: Rule, ids: set<OrderId>) {
    && (forall a, b :: a in ids && b in ids && a != b ==> Less(r, a, b) || Less(r, b, a))
    && (forall a, b :: a in ids && b in ids && Less(r, a, b) ==> !Less(r, b, a))
    && (forall a, b, c :: a in ids && b in ids && c in ids && Less(r, a, b) && Less(r, b, c) ==> Less(r, a, c))
  }

  ghost predicate DistinctKeys(key: map<OrderId, SeqNo>, ids: set<OrderId>) {
    && (forall a :: a in ids ==> a in key)
    && (forall a, b :: a in ids && b in ids && a != b ==> key[a] != key[b])
  }

  lemma ArrivalTotal(key: map<OrderId, SeqNo>, ids: set<OrderId>)
    requires DistinctKeys(key, ids)
    ensures TotalOn(ByArrival(key), ids)
  {
  }

  lemma PriorityTotal(book: map<OrderId, Maker>, ids: set<OrderId>, side: Side)
    requires forall a :: a in ids ==> a in book && book[a].o.side == side
    requires forall a, b :: a in ids && b in ids && a != b ==> book[a].o.seqNo != book[b].o.seqNo
    ensures TotalOn(ByPriority(book), ids)
  {
  }

  /** `s` lists exactly `ids`, in increasing order. */
  ghost predicate SortedBy(r: Rule, ids: set<OrderId>, s: seq<OrderId>) {
    && (forall a :: a in s <==> a in ids)
    && (forall i, j :: 0 <= i < j < |s| ==> Less(r, s[i], s[j]))
  }

  /** The sorted listing is unique. */
  lemma {:induction false} SortedUnique(r: Rule, ids: set<OrderId>, s: seq<OrderId>, t: seq<OrderId>)
    requires TotalOn(r, ids) && SortedBy(r, ids, s) && SortedBy(r, ids, t)
    ensures s == t
    decreases |s|
  {
    assert s != [] ==> s[0] in s && s[0] in ids;
    assert t != [] ==> t[0] in t && t[0] in ids;
    if s != [] && t != [] {
      SameHead(r, ids, s, t);
      SortedTail(r, ids, s);
      SortedTail(r, ids, t);
      SortedUnique(r, ids - {s[0]}, s[1..], t[1..]);
      assert s == [s[0]] + s[1..] && t == [t[0]] + t[1..];
    }
  }

  lemma SameHead(r: Rule, ids: set<OrderId>, s: seq<OrderId>, t: seq<OrderId>)
    requires TotalOn(r, ids) && SortedBy(r, ids, s) && SortedBy(r, ids, t) && s != [] && t != []
    ensures s[0] == t[0]
  {
    assert s[0] in s && t[0] in t;
    var i :| 0 <= i < |s| && s[i] == t[0];
    var j :| 0 <= j < |t| && t[j] == s[0];
  }

  lemma SortedTail(r: Rule, ids: set<OrderId>, s: seq<OrderId>)
    requires TotalOn(r, ids) && SortedBy(r, ids, s) && s != []
    ensures SortedBy(r, ids - {s[0]}, s[1..]) && TotalOn(r, ids - {s[0]})
  {
    assert s[0] in s;
    forall a ensures a in s[1..] <==> a in ids - {s[0]} {
      if a in s[1..] {
        var i :| 0 <= i < |s[1..]| && s[1..][i] == a;
        assert s[i + 1] == a && Less(r, s[0], s[i + 1]);
      }
      if a in ids && a != s[0] {
        var i :| 0 <= i < |s| && s[i] == a;
        assert s[1..][i - 1] == a;
      }
    }
  }

  /** Selects the ids one by one, least first. */
  method Sort(r: Rule, ids: set<OrderId>) returns (s: seq<OrderId>)
    requires TotalOn(r, ids)
    ensures SortedBy(r, ids, s)
  {
    s := [];
    var left := ids;
    while left != {}
      invariant left <= ids
      invariant forall a :: a in s <==> a in ids && a !in left
      invariant forall i, j :: 0 <= i < j < |s| ==> Less(r, s[i], s[j])
      invariant forall a, b :: a in s && b in left ==> Less(r, a, b)
      decreases |left|
    {
      var least := Least(r, left);
      s := s + [least];
      left := left - {least};
    }
  }

  method Least(r: Rule, ids: set<OrderId>) returns (least: OrderId)
    requires TotalOn(r, ids) && ids != {}
    ensures least in ids && forall a :: a in ids && a != least ==> Less(r, least, a)
  {
    least :| least in ids;
    var left := ids - {least};
    while left != {}
      invariant left <= ids && least in ids && least !in left
      invariant forall a :: a in ids && a !in left && a != least ==> Less(r, least, a)
      decreases |left|
    {
      var b :| b in left;
      left := left - {b};
      if Less(r, b, least) {
        least := b;
      }
    }
  }

  lemma {:induction false} SortedExists(r: Rule, ids: set<OrderId>)
    requires TotalOn(r, ids)
    ensures exists s :: SortedBy(r, ids, s)
    decreases |ids|
  {
    if ids == {} {
      assert SortedBy(r, ids, []);
    } else {
      var a := LeastExists(r, ids);
      var rest := ids - {a};
      SortedExists(r, rest);
      var s :| SortedBy(r, rest, s);
      SortedCons(r, ids, a, s);
    }
  }

  lemma SortedCons(r: Rule, ids: set<OrderId>, a: OrderId, s: seq<OrderId>)
    requires a in ids && (forall b :: b in ids && b != a ==> Less(r, a, b)) && SortedBy(r, ids - {a}, s)
    ensures SortedBy(r, ids, [a] + s)
  {
    var full := [a] + s;
    forall i, j | 0 <= i < j < |full| ensures Less(r, full[i], full[j]) {
      assert full[j] == s[j - 1] && s[j - 1] in s;
      if i > 0 { assert full[i] == s[i - 1]; }
    }
  }

  lemma {:induction false} LeastExists(r: Rule, ids: set<OrderId>) returns (a: OrderId)
    requires TotalOn(r, ids) && ids != {}
    ensures a in ids && forall b :: b in ids && b != a ==> Less(r, a, b)
    decreases |ids|
  {
    a :| a in ids;
    var rest := ids - {a};
    if rest != {} {
      var b := LeastExists(r, rest);
      if Less(r, b, a) { a := b; }
    }
  }

  ghost function Sorted(r: Rule, ids: set<OrderId>): (s: seq<OrderId>)
    requires TotalOn(r, ids)
    ensures SortedBy(r, ids, s)
  {
    SortedExists(r, ids);
    var s :| SortedBy(r, ids, s);
    s
  }

  lemma SortedIs(r: Rule, ids: set<OrderId>, s: seq<OrderId>)
    requires TotalOn(r, ids) && SortedBy(r, ids, s)
    ensures s == Sorted(r, ids)
  {
    SortedUnique(r, ids, s, Sorted(r, ids));
  }
}
