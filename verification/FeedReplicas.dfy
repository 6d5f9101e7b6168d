/** The replica object fed by the event stream (src/feed/book_replica.cc): per-symbol books, the
    highest sequence number applied and the number of gaps seen. */
module FeedReplicas {
  import opened OrderTypes
  import opened Replica
  import Auctions

  /** The replica as a value. */
  datatype Feed = Feed(books: map<string, SymBook>, lastSeq: SeqNo, gaps: nat)

  const NO_FEED := Feed(map[], 0, 0)

  function BookOf(books: map<string, SymBook>, symbol: string): SymBook {
    if symbol in books then books[symbol] else EMPTY_BOOK
  }

  /** An event is out of sequence. */
  predicate Jumps(f: Feed, ev: BookEvent) {
    f.lastSeq != 0 && ev.seqNo != 0 && ev.seqNo != f.lastSeq + 1
  }

  /** One event applied. */
  function Absorb(f: Feed, ev: BookEvent): Feed {
    Feed(f.books[ev.symbol := ApplyEvent(BookOf(f.books, ev.symbol), ev)],
         if ev.seqNo > f.lastSeq then ev.seqNo else f.lastSeq,
         f.gaps + if Jumps(f, ev) then 1 else 0)
  }

  function AbsorbAll(f: Feed, evs: seq<BookEvent>): Feed {
    if evs == [] then f else Absorb(AbsorbAll(f, evs[..|evs| - 1]), evs[|evs| - 1])
  }

  // ---------------------------------------------------- one symbol's share

  /** The events of one symbol, in order. */
  function Of(evs: seq<BookEvent>, symbol: string): seq<BookEvent> {
    if evs == [] then []
    else
      var ev := evs[|evs| - 1];
      Of(evs[..|evs| - 1], symbol) + if ev.symbol == symbol then [ev] else []
  }

  lemma ReplayPush(b: SymBook, evs: seq<BookEvent>, ev: BookEvent)
    ensures Replay(b, evs + [ev]) == ApplyEvent(Replay(b, evs), ev)
  {
    ReplayAppend(b, evs, [ev]);
    assert [ev][1..] == [];
  }

  /** The replica of a symbol is the replay of that symbol's events; other symbols do not matter. */
  lemma {:induction false} ShareOf(f: Feed, evs: seq<BookEvent>, symbol: string)
    ensures BookOf(AbsorbAll(f, evs).books, symbol) == Replay(BookOf(f.books, symbol), Of(evs, symbol))
    decreases |evs|
  {
    if evs != [] {
      hide Replay, ApplyEvent;
      var init, ev := evs[..|evs| - 1], evs[|evs| - 1];
      ShareOf(f, init, symbol);
      ReplayPush(BookOf(f.books, symbol), Of(init, symbol), ev);
      assert Of(init, symbol) + [] == Of(init, symbol);
    } else {
      assert Replay(BookOf(f.books, symbol), []) == BookOf(f.books, symbol);
    }
  }

  // ------------------------------------------------------------------ gaps

  /** Sequence numbers `from + 1, from + 2, ...` without a hole. */
  ghost predicate Consecutive(evs: seq<BookEvent>, from: nat) {
    forall i :: 0 <= i < |evs| ==> evs[i].seqNo == from + 1 + i
  }

  ghost predicate Increasing(evs: seq<BookEvent>) {
    forall i, j :: 0 <= i < j < |evs| ==> evs[i].seqNo < evs[j].seqNo
  }

  lemma {:induction false} LastSeen(evs: seq<BookEvent>)
    requires evs != [] && Increasing(evs) && evs[0].seqNo > 0
    ensures AbsorbAll(NO_FEED, evs).lastSeq == evs[|evs| - 1].seqNo
    decreases |evs|
  {
    hide ApplyEvent;
    var init := evs[..|evs| - 1];
    if init != [] {
      LastSeen(init);
    }
  }

  /** No gap is counted exactly when the sequence numbers have no hole. */
  lemma {:induction false} NoGapsIff(evs: seq<BookEvent>)
    requires evs != [] && Increasing(evs) && evs[0].seqNo > 0
    ensures AbsorbAll(NO_FEED, evs).gaps == 0 <==> Consecutive(evs, evs[0].seqNo - 1)
    decreases |evs|
  {
    hide ApplyEvent;
    var init := evs[..|evs| - 1];
    if init == [] {
      assert AbsorbAll(NO_FEED, init) == NO_FEED;
    } else {
      LastSeen(init);
      NoGapsIff(init);
      assert forall i :: 0 <= i < |init| ==> init[i] == evs[i];
    }
  }

  // ------------------------------------------------------------- the object

  /** The highest bid or lowest ask of a depth map. */
  ghost predicate IsTop(m: Depth, side: Side, p: int) {
    p in m && forall x :: x in m ==> !side.Better(x, p)
  }

  /** The levels of `m`, best first, at most `max` of them (0: all). */
  ghost predicate IsDepth(m: Depth, side: Side, max: nat, out: seq<(int, int)>) {
    && |out| == (if max == 0 then |m| else Min(max, |m|))
    && (forall i :: 0 <= i < |out| ==> out[i].0 in m && out[i].1 == m[out[i].0])
    && (forall i, j :: 0 <= i < j < |out| ==> side.Better(out[i].0, out[j].0))
    && (forall p, i :: p in m && 0 <= i < |out| && (forall j :: 0 <= j < |out| ==> out[j].0 != p) ==>
          side.Better(out[i].0, p))
  }

  method TopOf(prices: set<int>, side: Side) returns (p: int)
    requires prices != {}
    ensures p in prices && forall x :: x in prices ==> !side.Better(x, p)
  {
    Auctions.SomePrice(prices);
    p :| p in prices;
    var left := prices - {p};
    while left != {}
      invariant left <= prices && p in prices && forall x :: x in prices && x !in left ==> !side.Better(x, p)
      decreases |left|
    {
      Auctions.SomePrice(left);
      var x :| x in left;
      left := left - {x};
      if side.Better(x, p) {
        p := x;
      }
    }
  }

  class BookReplica {
    var books: map<string, SymBook>
    var lastSeq: SeqNo
    var gaps: nat

    ghost function Value(): Feed
      reads this
    {
      Feed(books, lastSeq, gaps)
    }

    constructor ()
      ensures Value() == NO_FEED
    {
      books, lastSeq, gaps := map[], 0, 0;
    }

    /** Apply one event; true if the sequence number jumped (apply). */
    method Apply(ev: BookEvent) returns (gap: bool)
      modifies this
      ensures Value() == Absorb(old(Value()), ev) && gap == Jumps(old(Value()), ev)
    {
      gap := false;
      if lastSeq != 0 && ev.seqNo != 0 && ev.seqNo != lastSeq + 1 {
        gap := true;
        gaps := gaps + 1;
      }
      if ev.seqNo > lastSeq {
        lastSeq := ev.seqNo;
      }
      var b := EditBook(BookOf(books, ev.symbol), ev);
      books := books[ev.symbol := b];
    }

    /** A repriced order leaves its level and joins another. */
    static method MoveView(b0: SymBook, v0: OrderView, ev: BookEvent) returns (b: SymBook)
      ensures b == b0.BumpBoth(v0.side, v0.price, -v0.qty, -v0.displayed)
                     .BumpBoth(v0.side, ev.price, v0.qty, ev.displayed)
                     .(orders := b0.orders[ev.id := v0.(price := ev.price, displayed := ev.displayed)])
    {
      hide Bump;
      var v := v0;
      b := b0.SetSide(v.side, Bump(b0.SideMap(v.side), v.price, -v.qty));
      b := b.SetDisp(v.side, Bump(b.DispMap(v.side), v.price, -v.displayed));
      v := v.(price := ev.price, displayed := ev.displayed);
      b := b.(orders := b.orders[ev.id := v]);
      b := b.SetSide(v.side, Bump(b.SideMap(v.side), v.price, v.qty));
      b := b.SetDisp(v.side, Bump(b.DispMap(v.side), v.price, v.displayed));
    }

    /** A traded maker shrinks, and leaves once nothing is left of it. */
    static method FillView(b0: SymBook, v0: OrderView, ev: BookEvent) returns (b: SymBook)
      ensures var v := v0.(qty := v0.qty - ev.qty, displayed := v0.displayed - ev.displayed);
        b == b0.BumpBoth(v.side, v.price, -ev.qty, -ev.displayed)
               .(orders := if v.qty <= 0 then b0.orders - {ev.id} else b0.orders[ev.id := v])
    {
      hide Bump;
      var v := v0.(qty := v0.qty - ev.qty, displayed := v0.displayed - ev.displayed);
      b := b0.(orders := b0.orders[ev.id := v]);
      b := b.SetSide(v.side, Bump(b.SideMap(v.side), v.price, -ev.qty));
      b := b.SetDisp(v.side, Bump(b.DispMap(v.side), v.price, -ev.displayed));
      if v.qty <= 0 {
        b := b.(orders := b.orders - {ev.id});
        assert b.orders == b0.orders - {ev.id};
      }
    }

    /** The edits one event makes to its symbol's book. */
    static method EditBook(b0: SymBook, ev: BookEvent) returns (b: SymBook)
      ensures b == ApplyEvent(b0, ev)
    {
      hide Bump;
      b := b0;
      match ev.typ {
        case EvAdd =>
          b := b.(orders := b.orders[ev.id := OrderView(ev.id, ev.side, ev.price, ev.qty, ev.displayed)]);
          b := b.SetSide(ev.side, Bump(b.SideMap(ev.side), ev.price, ev.qty));
          b := b.SetDisp(ev.side, Bump(b.DispMap(ev.side), ev.price, ev.displayed));
        case EvCancel =>
          if ev.id in b.orders {
            var v := b.orders[ev.id];
            b := b.SetSide(v.side, Bump(b.SideMap(v.side), v.price, -v.qty));
            b := b.SetDisp(v.side, Bump(b.DispMap(v.side), v.price, -v.displayed));
            b := b.(orders := b.orders - {ev.id});
          }
        case EvTrade =>
          if ev.id in b.orders {
            b := FillView(b, b.orders[ev.id], ev);
          }
        case EvReprice =>
          if ev.id in b.orders {
            b := MoveView(b, b.orders[ev.id], ev);
          }
        case EvReplenish =>
          if ev.id in b.orders {
            var v := b.orders[ev.id];
            b := b.(orders := b.orders[ev.id := v.(displayed := v.displayed + ev.displayed)]);
            b := b.SetDisp(v.side, Bump(b.DispMap(v.side), v.price, ev.displayed));
          }
        case EvTrigger =>
      }
    }

    function MapOf(symbol: string, side: Side, displayed: bool): Depth
      reads this
    {
      var b := BookOf(books, symbol);
      if displayed then b.DispMap(side) else b.SideMap(side)
    }

    /** The best price of a side and its quantity (best_of). */
    method BestOf(symbol: string, side: Side, displayed: bool) returns (r: Option<(int, int)>)
      ensures var m := MapOf(symbol, side, displayed);
        if r.None? then m == map[] else IsTop(m, side, r.value.0) && r.value.1 == m[r.value.0]
    {
      var m := MapOf(symbol, side, displayed);
      if m == map[] {
        return None;
      }
      assert m.Keys != {};
      var p := TopOf(m.Keys, side);
      r := Some((p, m[p]));
    }

    /** The depth of a side, best price first, at most `max` levels (depth_of). */
    method DepthOf(symbol: string, side: Side, displayed: bool, max: nat) returns (out: seq<(int, int)>)
      ensures IsDepth(MapOf(symbol, side, displayed), side, max, out)
    {
      var m := MapOf(symbol, side, displayed);
      out := [];
      var left := m.Keys;
      while left != {} && (max == 0 || |out| < max)
        invariant left <= m.Keys && |out| + |left| == |m.Keys| && (max != 0 ==> |out| <= max)
        invariant forall i :: 0 <= i < |out| ==> out[i].0 in m && out[i].0 !in left && out[i].1 == m[out[i].0]
        invariant forall p :: p in m && p !in left ==> exists i :: 0 <= i < |out| && out[i].0 == p
        invariant forall i, j :: 0 <= i < j < |out| ==> side.Better(out[i].0, out[j].0)
        invariant forall i, p :: 0 <= i < |out| && p in left ==> side.Better(out[i].0, p)
        decreases |left|
      {
        var p := TopOf(left, side);
        ghost var was := out;
        out := out + [(p, m[p])];
        left := left - {p};
        assert out[|was|].0 == p;
        assert forall i :: 0 <= i < |was| ==> out[i] == was[i];
      }
      assert |m| == |m.Keys|;
      assert left == {} ==> |left| == 0;
    }
  }
}
