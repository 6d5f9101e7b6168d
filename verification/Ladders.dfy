/** The dense price ladder of one side: levels[i] is the level at price base + i, with a cached best
    price (src/core/order_book.cc, Level and Ladder). */
module Ladders {
  import opened OrderTypes

  /** One price level: the FIFO of resting ids and its running totals. */
  datatype Level = Level(total: int, displayed: int, fifo: seq<OrderId>)

  const EMPTY := Level(0, 0, [])

  class Ladder {
    const side: Side
    var levels: seq<Level>
    var base: int
    var hasBase: bool
    var bestValid: bool
    var bestPrice: int

    predicate Covers(p: int)
      reads this`levels, this`base, this`hasBase
    {
      hasBase && base <= p < base + |levels|
    }

    /** The level at `p`; a price outside the covered range is an empty level. */
    function At(p: int): Level
      reads this`levels, this`base, this`hasBase
    {
      if Covers(p) then levels[p - base] else EMPTY
    }

    /** The k-th price of the covered range, walking from the best end. */
    function Nth(k: nat): int
      reads this`levels, this`base
    {
      if side == Buy then base + |levels| - 1 - k else base + k
    }

    ghost predicate Shaped()
      reads this
    {
      !hasBase ==> levels == []
    }

    /** No populated level is better than a valid cached best. */
    ghost predicate CacheUpper()
      reads this
    {
      bestValid ==> forall p :: At(p).total > 0 ==> !side.Better(p, bestPrice)
    }

    ghost predicate IsBest(p: int)
      reads this`levels, this`base, this`hasBase
    {
      At(p).total > 0 && forall x :: At(x).total > 0 ==> !side.Better(x, p)
    }

    /** A valid cached best is the true best. */
    ghost predicate Valid()
      reads this
    {
      Shaped() && (bestValid ==> IsBest(bestPrice))
    }

    /** Valid except that the cached best may be the just emptied level at `p`. */
    ghost predicate ValidBut(p: int)
      reads this
    {
      Shaped() && CacheUpper() && (bestValid && bestPrice != p ==> IsBest(bestPrice))
    }

    constructor (s: Side)
      ensures side == s && Valid() && forall p :: At(p) == EMPTY
    {
      side := s;
      levels := [];
      base := 0;
      hasBase := false;
      bestValid := false;
      bestPrice := 0;
    }

    /** Cover price `p`, growing left or right; every level keeps its contents. */
    method Touch(p: int)
      requires Shaped()
      modifies this`levels, this`base, this`hasBase
      ensures Shaped() && Covers(p)
      ensures forall x :: At(x) == old(At(x))
    {
      if !hasBase {
        base := p;
        levels := [EMPTY];
        hasBase := true;
      } else if p < base {
        levels := seq(base - p, i => EMPTY) + levels;
        base := p;
      } else if p >= base + |levels| {
        levels := levels + seq(p - base + 1 - |levels|, i => EMPTY);
      }
    }

    /** Overwrite the level at a covered price. */
    method Store(p: int, l: Level)
      requires Shaped() && Covers(p)
      modifies this`levels
      ensures Shaped() && |levels| == old(|levels|)
      ensures forall x :: Covers(x) == old(Covers(x))
      ensures forall x :: At(x) == if x == p then l else old(At(x))
      ensures old(ValidBut(p)) && (l.total > 0 ==> old(At(p).total) > 0) ==> ValidBut(p)
    {
      levels := levels[p - base := l];
    }

    /** Quantity was added at `p`. */
    method OnAdded(p: int)
      requires Shaped() && At(p).total > 0
      requires bestValid ==> forall x :: x != p && At(x).total > 0 ==> !side.Better(x, bestPrice)
      requires bestValid ==> At(bestPrice).total > 0
      modifies this`bestPrice
      ensures Valid()
    {
      if bestValid {
        if side.Better(p, bestPrice) {
          bestPrice := p;
        }
      }
    }

    /** The level at `p` may now be empty. */
    method OnRemoved(p: int)
      requires ValidBut(p)
      modifies this`bestValid
      ensures Valid()
    {
      if bestValid && p == bestPrice {
        bestValid := false;
      }
    }

    /** Quantity joins price `p`, whose level becomes `l` (touch, then on_added). */
    method Grow(p: int, l: Level)
      requires Valid() && l.total > 0
      modifies this`levels, this`base, this`hasBase, this`bestPrice
      ensures Valid() && forall x :: At(x) == if x == p then l else old(At(x))
    {
      Touch(p);
      Store(p, l);
      OnAdded(p);
    }

    /** Quantity leaves price `p`, whose level becomes `l` (on_removed once it is empty). */
    method Shrink(p: int, l: Level)
      requires Valid() && Covers(p) && 0 <= l.total && At(p).total > 0
      modifies this`levels, this`bestValid
      ensures Valid() && forall x :: At(x) == if x == p then l else old(At(x))
    {
      Store(p, l);
      if l.total == 0 {
        OnRemoved(p);
      }
    }

    /** The best populated price, from the cache or by a scan that refreshes the cache. */
    method Best() returns (r: Option<int>)
      requires Valid()
      modifies this`bestValid, this`bestPrice
      ensures Valid()
      ensures r.Some? ==> IsBest(r.value)
      ensures r.None? ==> forall p :: At(p).total <= 0
    {
      if bestValid {
        return Some(bestPrice);
      }
      if !hasBase {
        return None;
      }
      if side == Buy {
        var i := |levels|;
        while i > 0
          invariant 0 <= i <= |levels| && !bestValid
          invariant forall k :: i <= k < |levels| ==> levels[k].total <= 0
        {
          i := i - 1;
          if levels[i].total > 0 {
            bestPrice := base + i;
            bestValid := true;
            assert At(bestPrice) == levels[i];
            return Some(bestPrice);
          }
        }
      } else {
        var i := 0;
        while i < |levels|
          invariant 0 <= i <= |levels| && !bestValid
          invariant forall k :: 0 <= k < i ==> levels[k].total <= 0
        {
          if levels[i].total > 0 {
            bestPrice := base + i;
            bestValid := true;
            assert At(bestPrice) == levels[i];
            return Some(bestPrice);
          }
          i := i + 1;
        }
      }
      r := None;
    }
  }
}
