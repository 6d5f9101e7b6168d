/** The resting book as an object: two price ladders, the id index, the pegged set and the positions
    (src/core/order_book.cc, OrderBook::Impl).  The ghost field `c` is the value of the book as module
    BookCore sees it; every method states what it does to that value. */
module RestingBooks {
  import opened OrderTypes
  import opened BookSums
  import opened BookCore
  import opened Matching
  import opened Liquidity
  import opened Ladders
  import Pegs
  import Ordering
  import Sessions

  /** Level `l` of the ladder shows exactly slot `s` of the book. */
  ghost predicate LevelOk(l: Level, c: Core, s: Slot) {
    l.fifo == Fifo(c.q, s) && l.total == Total(c, s) && l.displayed == Disp(c.disp, s)
  }

  /** The level after a fill of `x` from maker `m` at position `i`. */
  function HitLevel(l: Level, m: Maker, x: int, i: nat): Level
    requires i < |l.fifo|
  {
    var m1 := Filled(m, x);
    var l1 := l.(total := l.total - x, displayed := l.displayed - LitFill(m, x));
    if m1.o.leaves == 0 then l1.(fifo := Cut(l.fifo, i))
    else if m.o.IsIceberg() && m1.slice == 0 then
      l1.(displayed := l1.displayed + Min(m1.o.displayQty, m1.o.leaves), fifo := Cut(l.fifo, i) + [l.fifo[i]])
    else l1
  }

  lemma HitSlot(c: Core, o: Order, x: int, l: Level, i: nat, s: Slot)
    requires Inv(c) && LevelOk(l, c, s) && i < |l.fifo| && l.fifo[i] in c.orders && SlotOf(c.orders[l.fifo[i]]) == s
    ensures LevelOk(HitLevel(l, c.orders[l.fifo[i]], x, i), Hit(c, o, l.fifo[i], x), s)
  {
    HitTotals(c, o, l.fifo[i], x);
    assert NoDup(Fifo(c.q, s));
    CutIsWithout(l.fifo, i);
  }

  function WithdrawLevel(l: Level, m: Maker, i: nat): Level
    requires i < |l.fifo|
  {
    Level(l.total - m.o.leaves, l.displayed - m.Lit(), Cut(l.fifo, i))
  }

  lemma WithdrawSlot(c: Core, l: Level, i: nat, s: Slot)
    requires Inv(c) && LevelOk(l, c, s) && i < |l.fifo| && l.fifo[i] in c.orders && SlotOf(c.orders[l.fifo[i]]) == s
    ensures LevelOk(WithdrawLevel(l, c.orders[l.fifo[i]], i), Withdraw(c, l.fifo[i]), s)
  {
    WithdrawTotals(c, l.fifo[i]);
    assert NoDup(Fifo(c.q, s));
    CutIsWithout(l.fifo, i);
  }

  /** The level after maker `m` joined its back. */
  function AddLevel(l: Level, m: Maker): Level {
    Level(l.total + m.o.leaves, l.displayed + m.Lit(), l.fifo + [m.o.id])
  }

  lemma Located(c: Core, id: OrderId)
    requires Inv(c) && id in c.orders
    ensures id in Fifo(c.q, SlotOf(c.orders[id]))
  {
  }

  lemma RestLevel(c: Core, o: Order, l: Level)
    requires Inv(c) && o.id !in c.orders && o.leaves > 0 && LevelOk(l, c, Slot(o.side, o.price))
    ensures LevelOk(AddLevel(l, Maker(o, o.FreshSlice())), Rest(c, o), Slot(o.side, o.price))
    ensures Total(Rest(c, o), Slot(o.side, o.price)) > 0
  {
    RestTotals(c, o);
    TotalPositive(c, Slot(o.side, o.price));
  }

  /** The level a moved order left. */
  lemma MoveFrom(c: Core, price: int, l: Level, i: nat, s: Slot)
    requires Inv(c) && LevelOk(l, c, s) && i < |l.fifo| && l.fifo[i] in c.orders && SlotOf(c.orders[l.fifo[i]]) == s
    requires s.price != price
    ensures LevelOk(WithdrawLevel(l, c.orders[l.fifo[i]], i), Move(c, l.fifo[i], price), s)
    ensures Total(Move(c, l.fifo[i], price), s) >= 0
  {
    MoveInv(c, l.fifo[i], price);
    TotalPositive(Move(c, l.fifo[i], price), s);
    MoveTotals(c, l.fifo[i], price);
    assert NoDup(Fifo(c.q, s));
    CutIsWithout(l.fifo, i);
  }

  /** The level a moved order joined. */
  lemma MoveTo(c: Core, id: OrderId, price: int, l: Level)
    requires Inv(c) && id in c.orders && c.orders[id].o.price != price
    requires LevelOk(l, c, Slot(c.orders[id].o.side, price))
    ensures LevelOk(AddLevel(l, c.orders[id]), Move(c, id, price), Slot(c.orders[id].o.side, price))
    ensures Total(Move(c, id, price), Slot(c.orders[id].o.side, price)) > 0
  {
    MoveTotals(c, id, price);
    TotalPositive(c, Slot(c.orders[id].o.side, price));
  }

  lemma StaysRestable(o0: Order, o: Order, n0: SeqNo, n: SeqNo, born: map<SeqNo, OrderId>)
    requires Restable(o0, n0, born) && SameTerms(o0, o) && o.leaves > 0 && n0 <= n
    ensures Restable(o, n, born)
  {
  }

  lemma MakerKnown(c: Core, id: OrderId)
    requires Inv(c) && id in c.orders
    ensures c.orders[id].o.id == id
  {
  }

  class RestingBook {
    const symbol: string
    const stp: StpPolicy
    const bids: Ladder
    const asks: Ladder
    var orders: map<OrderId, Maker>
    var pegged: set<OrderId>
    var positions: map<ClientId, Position>
    var haveLast: bool
    var lastPrice: int
    var nextSeq: SeqNo
    var requeued: seq<Order>
    var events: seq<BookEvent>
    ghost var c: Core

    function LadderOf(s: Side): Ladder {
      if s == Buy then bids else asks
    }

    /** The ladder of side `s` shows book `k`. */
    ghost predicate Shows(s: Side, k: Core)
      reads LadderOf(s)`levels, LadderOf(s)`base, LadderOf(s)`hasBase
    {
      forall p :: LevelOk(LadderOf(s).At(p), k, Slot(s, p))
    }

    /** The concrete fields other than the ladders agree with `c`. */
    ghost predicate FieldsOk()
      reads this
    {
      && c.symbol == symbol && c.stp == stp
      && c.orders == orders && c.pegged == pegged && c.positions == positions
      && c.last == (if haveLast then Some(lastPrice) else None)
      && c.nextSeq == nextSeq && c.requeued == requeued && c.events == events
    }

    ghost predicate Couples()
      reads this, bids, asks
    {
      && bids != asks && bids.side == Buy && asks.side == Sell
      && FieldsOk() && Shows(Buy, c) && Shows(Sell, c)
      && Inv(c)
    }

    ghost predicate Valid()
      reads this, bids, asks
    {
      Couples() && bids.Valid() && asks.Valid()
    }

    constructor (symbol: string, stp: StpPolicy)
      ensures Valid() && c == EmptyCore(symbol, stp)
      ensures fresh(bids) && fresh(asks)
    {
      this.symbol := symbol;
      this.stp := stp;
      bids := new Ladder(Buy);
      asks := new Ladder(Sell);
      orders, pegged, positions := map[], {}, map[];
      haveLast, lastPrice, nextSeq := false, 0, 1;
      requeued, events := [], [];
      c := EmptyCore(symbol, stp);
    }

    /** A side none of whose levels changed still shows the book. */
    lemma StillShows(s: Side, c0: Core, ex: set<Slot>)
      requires Shows(s, c0) && SameExcept(c0, c, ex) && forall t :: t in ex ==> t.side != s
      ensures Shows(s, c)
    {
      forall p ensures LevelOk(LadderOf(s).At(p), c, Slot(s, p)) {
        assert SameLevel(c0, c, Slot(s, p));
      }
    }

    /** Write back the level at `p` after the book changed from `c0` to `c` at that level only. */
    method PutLevel(s: Side, p: int, l: Level, ghost c0: Core)
      requires Shows(s, c0) && SameExcept(c0, c, {Slot(s, p)}) && LevelOk(l, c, Slot(s, p))
      requires LadderOf(s).Shaped() && LadderOf(s).Covers(p)
      modifies LadderOf(s)`levels
      ensures Shows(s, c) && LadderOf(s).Shaped() && |LadderOf(s).levels| == old(|LadderOf(s).levels|)
      ensures forall x :: LadderOf(s).Covers(x) == old(LadderOf(s).Covers(x))
      ensures old(LadderOf(s).ValidBut(p)) && (l.total > 0 ==> old(LadderOf(s).At(p).total) > 0) ==>
                LadderOf(s).ValidBut(p)
      ensures forall x :: x != p ==> LadderOf(s).At(x) == old(LadderOf(s).At(x))
    {
      LadderOf(s).Store(p, l);
      forall x ensures LevelOk(LadderOf(s).At(x), c, Slot(s, x)) {
        assert SameLevel(c0, c, Slot(s, x)) || x == p;
      }
    }

    /** Print the execution: trade event, last price, both accounts' positions, reservation. */
    method PrintTrade(o: Order, me: Maker, fill: int) returns (t: Trade)
      requires FieldsOk()
      modifies this`events, this`haveLast, this`lastPrice, this`positions, this`c
      ensures FieldsOk()
      ensures c == Print(old(c), o, me, fill) && t == Trade(o.id, me.o.id, o.side, me.o.price, fill)
    {
      t := Trade(o.id, me.o.id, o.side, me.o.price, fill);
      events := events + [TradeEvent(symbol, t, if me.o.Has(Hidden) then 0 else fill)];
      lastPrice := me.o.price;
      haveLast := true;
      positions := ApplyFill(positions, o.client, o.side, fill);
      positions := ApplyFill(positions, me.o.client, me.o.side, fill);
      positions := Release(positions, me.o, fill);
      c := Print(c, o, me, fill);
    }

    /** The maker's own entry after a fill: erased, replenished with a fresh rank, or updated. */
    method SettleMaker(mid: OrderId, me: Maker)
      requires FieldsOk() && mid in orders
      modifies this`orders, this`pegged, this`nextSeq, this`requeued, this`events, this`c
      ensures FieldsOk()
      ensures c == (if me.o.leaves == 0 then DropMaker(old(c), mid)
                    else if me.o.IsIceberg() && me.slice == 0 then RequeueMaker(old(c), mid, me)
                    else old(c).(orders := old(c).orders[mid := me]))
    {
      if me.o.leaves == 0 {
        orders := orders - {mid};
        pegged := pegged - {mid};
        c := DropMaker(c, mid);
      } else if me.o.IsIceberg() && me.slice == 0 {
        var me' := Maker(me.o.(rank := nextSeq), Min(me.o.displayQty, me.o.leaves));
        nextSeq := nextSeq + 1;
        requeued := requeued + [me'.o];
        events := events + [OrderEvent(symbol, EvReplenish, me'.o, me'.slice, me'.slice)];
        orders := orders[mid := me'];
        c := RequeueMaker(c, mid, me);
      } else {
        orders := orders[mid := me];
        c := c.(orders := c.orders[mid := me]);
      }
    }

    /** An execution as the index sees it: the print and the maker's entry, without the level. */
    method ExecuteEntry(o: Order, mid: OrderId) returns (o': Order, t: Trade)
      requires FieldsOk() && mid in orders && orders[mid].o.id == mid
      modifies this
      ensures FieldsOk()
      ensures var x := FillSize(o, old(c.orders[mid]));
        && c == Hit(old(c), o, mid, x)
        && o' == AfterFill(o, x) && t == Trade(o.id, mid, o.side, old(c.orders[mid].o.price), x)
    {
      var me := orders[mid];
      var iceberg := me.o.IsIceberg();
      var fill := Min(o.leaves, if iceberg then me.slice else me.o.leaves);
      t := PrintTrade(o, me, fill);
      o' := o.(leaves := o.leaves - fill, filled := o.filled + fill);
      me := Maker(me.o.(leaves := me.o.leaves - fill, filled := me.o.filled + fill),
                  if iceberg then me.slice - fill else me.slice);
      SettleMaker(mid, me);
    }

    /** One execution of `o` against the maker at position `it` of the level at `p`. */
    method Execute(o: Order, p: int, it: nat) returns (o': Order, t: Trade, it': nat)
      requires Couples() && o.leaves > 0
      requires LadderOf(o.side.Opposite()).ValidBut(p)
      requires it < |Fifo(c.q, Contra(o, p))|
      modifies this, LadderOf(o.side.Opposite())`levels
      ensures Couples()
      ensures LadderOf(o.side.Opposite()).ValidBut(p)
      ensures |LadderOf(o.side.Opposite()).levels| == old(|LadderOf(o.side.Opposite()).levels|)
      ensures var mid := old(Fifo(c.q, Contra(o, p))[it]);
        && mid in old(c.orders)
        && var me := old(c.orders[mid]);
           var x := FillSize(o, me);
        && c == Hit(old(c), o, mid, x)
        && o' == AfterFill(o, x) && t == Trade(o.id, mid, o.side, p, x)
        && it' == CursorAfter(me, x, it, |old(Fifo(c.q, Contra(o, p)))|)
    {
      hide Inv;
      ghost var c0 := c;
      var lvl := LadderOf(o.side.Opposite()).At(p);
      var mid := lvl.fifo[it];
      SlotMember(c, Contra(o, p), it);
      TotalPositive(c, Contra(o, p));
      var me := orders[mid];
      HitInv(c, o, mid, FillSize(o, me));
      HitSlot(c, o, FillSize(o, me), lvl, it, Contra(o, p));
      HitSame(c, o, mid, FillSize(o, me));
      o', t := ExecuteEntry(o, mid);
      PutLevel(o.side.Opposite(), p, HitLevel(lvl, me, t.qty, it), c0);
      StillShows(o.side, c0, {Contra(o, p)});
      it' := CursorAfter(me, t.qty, it, |lvl.fifo|);
    }

    /** The index part of taking an order out of the book. */
    method EraseEntry(id: OrderId)
      requires FieldsOk() && id in orders
      modifies this`orders, this`pegged, this`positions, this`events, this`c
      ensures FieldsOk() && c == Withdraw(old(c), id)
    {
      var me := orders[id];
      orders := orders - {id};
      pegged := pegged - {id};
      positions := Release(positions, me.o, me.o.leaves);
      events := events + [OrderEvent(symbol, EvCancel, me.o, me.o.leaves, me.Lit())];
      c := Withdraw(c, id);
    }

    /** Take the maker at position `it` of the level at `p` out of the book without a fill. */
    method TakeOut(s: Side, p: int, it: nat)
      requires Couples() && LadderOf(s).ValidBut(p)
      requires it < |Fifo(c.q, Slot(s, p))|
      modifies this, LadderOf(s)`levels
      ensures Couples() && LadderOf(s).ValidBut(p)
      ensures |LadderOf(s).levels| == old(|LadderOf(s).levels|)
      ensures var id := old(Fifo(c.q, Slot(s, p))[it]); id in old(c.orders) && c == Withdraw(old(c), id)
    {
      hide Inv;
      ghost var c0 := c;
      var lvl := LadderOf(s).At(p);
      var id := lvl.fifo[it];
      SlotMember(c, Slot(s, p), it);
      TotalPositive(c, Slot(s, p));
      var me := orders[id];
      WithdrawInv(c, id);
      WithdrawSlot(c, lvl, it, Slot(s, p));
      WithdrawSame(c, id);
      EraseEntry(id);
      PutLevel(s, p, WithdrawLevel(lvl, me, it), c0);
      StillShows(s.Opposite(), c0, {Slot(s, p)});
    }

    /** Act on the maker at position `it`: self-trade prevention or an execution. */
    method ActOn(o: Order, p: int, it: nat, trades: seq<Trade>)
      returns (o': Order, trades': seq<Trade>, halted: bool, it': nat)
      requires Couples() && o.leaves > 0
      requires LadderOf(o.side.Opposite()).ValidBut(p)
      requires it < |Fifo(c.q, Contra(o, p))|
      modifies this, LadderOf(o.side.Opposite())`levels
      ensures Couples()
      ensures LadderOf(o.side.Opposite()).ValidBut(p)
      ensures |LadderOf(o.side.Opposite()).levels| == old(|LadderOf(o.side.Opposite()).levels|)
      ensures var mid := old(Fifo(c.q, Contra(o, p))[it]);
        && mid in old(c.orders)
        && Match(c, o', trades', halted) == Act(Match(old(c), o, trades, false), mid)
        && it' == Cursor(Match(old(c), o, trades, false), mid, it, |old(Fifo(c.q, Contra(o, p)))|)
    {
      hide Inv;
      SlotMember(c, Contra(o, p), it);
      var me := orders[LadderOf(o.side.Opposite()).At(p).fifo[it]];
      if stp != StpNone && o.client != 0 && me.o.client == o.client {
        o', trades', it' := o, trades, it;
        if stp.Resting() {
          TakeOut(o.side.Opposite(), p, it);
        }
        halted := stp.Aggressor();
      } else {
        var t;
        o', t, it' := Execute(o, p, it);
        trades' := trades + [t];
        halted := false;
      }
    }

    /** One iteration of the level loop at a maker: pass over a blocked one, act on any other. */
    method Visit(o: Order, p: int, it: nat, trades: seq<Trade>)
      returns (o': Order, trades': seq<Trade>, halted: bool, it': nat, acted: bool)
      requires Couples() && LadderOf(o.side.Opposite()).ValidBut(p)
      requires o.leaves > 0 && o.Accepts(p) && BetterBlocked(c, o, p)
      requires it < |Fifo(c.q, Contra(o, p))| && AllBlocked(c, o, Fifo(c.q, Contra(o, p))[..it])
      modifies this, LadderOf(o.side.Opposite())`levels
      ensures Couples() && LadderOf(o.side.Opposite()).ValidBut(p)
      ensures |LadderOf(o.side.Opposite()).levels| == old(|LadderOf(o.side.Opposite()).levels|)
      ensures SameTerms(o, o') && it' <= |Fifo(c.q, Contra(o, p))|
      ensures MatchAll(Match(c, o', trades', halted)) == MatchAll(Match(old(c), o, trades, false))
      ensures if acted then Work(Match(c, o', trades', halted)) < Work(Match(old(c), o, trades, false))
              else c == old(c) && o' == o && trades' == trades && !halted && it' == it + 1
      ensures !halted && o'.leaves > 0 ==>
        && BetterBlocked(c, o', p)
        && ((acted && it' == |Fifo(c.q, Contra(o, p))|) || AllBlocked(c, o', Fifo(c.q, Contra(o, p))[..it']))
    {
      hide Inv, MatchAll, BetterBlocked;
      SlotMember(c, Contra(o, p), it);
      var f := LadderOf(o.side.Opposite()).At(p).fifo;
      var me := orders[f[it]];
      var self := stp != StpNone && o.client != 0 && me.o.client == o.client;
      if !self && me.o.Has(Aon) && o.leaves < me.o.leaves {
        PrefixBlocked(c, o, f, it);
        o', trades', halted, it', acted := o, trades, false, it + 1, false;
      } else {
        ActStep(Match(c, o, trades, false), p, it);
        o', trades', halted, it' := ActOn(o, p, it, trades);
        acted := true;
      }
    }

    /** The loop of match_level: passes over the queue until nothing more can be done at this price. */
    method WalkLevel(o0: Order, p: int, trades0: seq<Trade>) returns (o: Order, trades: seq<Trade>, halted: bool)
      requires Couples() && LadderOf(o0.side.Opposite()).ValidBut(p)
      requires o0.leaves > 0 && o0.Accepts(p) && BetterBlocked(c, o0, p)
      modifies this, LadderOf(o0.side.Opposite())`levels
      ensures Couples() && LadderOf(o0.side.Opposite()).ValidBut(p)
      ensures |LadderOf(o0.side.Opposite()).levels| == old(|LadderOf(o0.side.Opposite()).levels|)
      ensures SameTerms(o0, o)
      ensures MatchAll(Match(c, o, trades, halted)) == MatchAll(Match(old(c), o0, trades0, false))
      ensures !halted && o.leaves > 0 ==>
                BetterBlocked(c, o, p) && AllBlocked(c, o, Fifo(c.q, Contra(o, p)))
    {
      hide Inv, MatchAll, BetterBlocked;
      o, trades, halted := o0, trades0, false;
      var opp := LadderOf(o0.side.Opposite());
      var it: nat, progressed := 0, false;
      while o.leaves > 0 && !halted
        invariant Couples() && opp.ValidBut(p)
        invariant |opp.levels| == old(|opp.levels|)
        invariant SameTerms(o0, o)
        invariant it <= |Fifo(c.q, Contra(o0, p))|
        invariant o.leaves > 0 && !halted ==>
          && BetterBlocked(c, o, p)
          && ((it == |Fifo(c.q, Contra(o0, p))| && progressed) || AllBlocked(c, o, Fifo(c.q, Contra(o0, p))[..it]))
        invariant MatchAll(Match(c, o, trades, halted)) == MatchAll(Match(old(c), o0, trades0, false))
        decreases Work(Match(c, o, trades, halted)), progressed, |Fifo(c.q, Contra(o0, p))| - it
      {
        if it == |opp.At(p).fifo| {
          if !progressed {
            break;
          }
          it, progressed := 0, false;
        } else {
          var acted;
          o, trades, halted, it, acted := Visit(o, p, it, trades);
          progressed := progressed || acted;
        }
      }
    }

    /** Match aggressor `o0` against one price level (match_level). */
    method MatchLevel(o0: Order, p: int, trades0: seq<Trade>) returns (o: Order, trades: seq<Trade>, halted: bool)
      requires Couples() && LadderOf(o0.side.Opposite()).Valid()
      requires o0.leaves > 0 && o0.Accepts(p) && BetterBlocked(c, o0, p)
      modifies this, LadderOf(o0.side.Opposite())`levels, LadderOf(o0.side.Opposite())`bestValid
      ensures Couples() && LadderOf(o0.side.Opposite()).Valid()
      ensures |LadderOf(o0.side.Opposite()).levels| == old(|LadderOf(o0.side.Opposite()).levels|)
      ensures SameTerms(o0, o)
      ensures MatchAll(Match(c, o, trades, halted)) == MatchAll(Match(old(c), o0, trades0, false))
      ensures !halted && o.leaves > 0 ==>
                BetterBlocked(c, o, p) && AllBlocked(c, o, Fifo(c.q, Contra(o, p)))
    {
      hide Inv, MatchAll, BetterBlocked, AllBlocked;
      var opp := LadderOf(o0.side.Opposite());
      o, trades, halted := WalkLevel(o0, p, trades0);
      TotalPositive(c, Contra(o, p));
      if opp.At(p).total == 0 {
        opp.OnRemoved(p);
      }
    }

    // ------------------------------------------------------------ whole sides

    /** Stepping to the next price: what was blocked at `p` joins the blocked better prices. */
    lemma StepBlocked(o: Order, k: nat)
      requires k < |LadderOf(o.side.Opposite()).levels| && LadderOf(o.side.Opposite()).side == o.side.Opposite()
      requires var p := LadderOf(o.side.Opposite()).Nth(k);
        BetterBlocked(c, o, p) && (o.Accepts(p) ==> AllBlocked(c, o, Fifo(c.q, Contra(o, p))))
      ensures BetterBlocked(c, o, LadderOf(o.side.Opposite()).Nth(k + 1))
    {
      hide AllBlocked;
    }

    lemma EmptyBlocked(o: Order, p: int)
      requires Couples() && LadderOf(o.side.Opposite()).At(p).total == 0
      ensures AllBlocked(c, o, Fifo(c.q, Contra(o, p)))
    {
      hide Inv;
      TotalPositive(c, Contra(o, p));
    }

    /** Past the last level, or at an unacceptable price, nothing is left to match. */
    lemma WalkDone(o: Order, k: nat, trades: seq<Trade>)
      requires Couples() && LadderOf(o.side.Opposite()).Shaped() && k <= |LadderOf(o.side.Opposite()).levels|
      requires var opp := LadderOf(o.side.Opposite());
        BetterBlocked(c, o, opp.Nth(k)) && (k < |opp.levels| ==> !o.Accepts(opp.Nth(k)))
      ensures MatchAll(Match(c, o, trades, false)) == Match(c, o, trades, false)
    {
      hide Inv, AllBlocked;
      var opp := LadderOf(o.side.Opposite());
      forall x | o.Accepts(x) ensures AllBlocked(c, o, Fifo(c.q, Contra(o, x))) {
        if !opp.side.Better(x, opp.Nth(k)) {
          assert k == |opp.levels|;
          assert opp.At(x) == EMPTY;
          EmptyBlocked(o, x);
        }
      }
      MatchAllDone(Match(c, o, trades, false));
    }

    /** Match aggressor `o0` against the opposite side, best price first (match). */
    method MatchSide(o0: Order, trades0: seq<Trade>) returns (o: Order, trades: seq<Trade>, halted: bool)
      requires Valid()
      modifies this, LadderOf(o0.side.Opposite())`levels, LadderOf(o0.side.Opposite())`bestValid
      ensures Valid()
      ensures Match(c, o, trades, halted) == MatchAll(Match(old(c), o0, trades0, false))
    {
      hide Inv, MatchAll, BetterBlocked, AllBlocked;
      o, trades, halted := o0, trades0, false;
      var opp := LadderOf(o0.side.Opposite());
      var k := 0;
      NothingBetter(o);
      while k < |opp.levels| && o.leaves > 0
        invariant Valid() && 0 <= k <= |opp.levels| == old(|opp.levels|) && SameTerms(o0, o) && !halted
        invariant o.leaves > 0 ==> BetterBlocked(c, o, opp.Nth(k))
        invariant MatchAll(Match(c, o, trades, false)) == MatchAll(Match(old(c), o0, trades0, false))
      {
        var p := opp.Nth(k);
        if opp.At(p).total == 0 {
          EmptyBlocked(o, p);
        } else if !o.Accepts(p) {
          break;
        } else {
          o, trades, halted := MatchLevel(o, p, trades);
          if halted {
            HaltedDone(o, trades);
            return;
          }
        }
        if o.leaves > 0 { StepBlocked(o, k); }
        k := k + 1;
      }
      if o.leaves > 0 {
        WalkDone(o, k, trades);
      } else {
        SpentDone(o, trades);
      }
    }

    lemma HaltedDone(o: Order, trades: seq<Trade>)
      requires Inv(c)
      ensures MatchAll(Match(c, o, trades, true)) == Match(c, o, trades, true)
    {
    }

    lemma SpentDone(o: Order, trades: seq<Trade>)
      requires Inv(c) && o.leaves <= 0
      ensures MatchAll(Match(c, o, trades, false)) == Match(c, o, trades, false)
    {
    }

    lemma NothingBetter(o: Order)
      requires Couples() && LadderOf(o.side.Opposite()).Shaped()
      ensures BetterBlocked(c, o, LadderOf(o.side.Opposite()).Nth(0))
    {
      hide Inv, AllBlocked;
      var opp := LadderOf(o.side.Opposite());
      forall x | o.Accepts(x) && o.side.Opposite().Better(x, opp.Nth(0))
        ensures AllBlocked(c, o, Fifo(c.q, Contra(o, x)))
      {
        assert opp.At(x) == EMPTY;
        EmptyBlocked(o, x);
      }
    }

    // -------------------------------------------------------- available_fill

    lemma ReachStep(o: Order, k: nat)
      requires Couples() && LadderOf(o.side.Opposite()).Shaped() && k < |LadderOf(o.side.Opposite()).levels|
      ensures var opp := LadderOf(o.side.Opposite());
        var p := opp.Nth(k);
        Sum(c.orders, ReachBefore(o, opp.Nth(k + 1)))
          == Sum(c.orders, ReachBefore(o, p)) + if o.Accepts(p) then opp.At(p).total else 0
    {
      hide Inv;
      var opp := LadderOf(o.side.Opposite());
      var p := opp.Nth(k);
      if o.Accepts(p) {
        SumSplit(c.orders, ReachBefore(o, opp.Nth(k + 1)), ReachBefore(o, p), LeavesAt(opp.side, p));
      } else {
        SumLeq(c.orders, ReachBefore(o, opp.Nth(k + 1)), ReachBefore(o, p));
        SumLeq(c.orders, ReachBefore(o, p), ReachBefore(o, opp.Nth(k + 1)));
      }
    }

    /** Nothing rests before the first level, and nothing acceptable rests beyond the stopping point. */
    lemma ReachEnds(o: Order, k: nat)
      requires Couples() && LadderOf(o.side.Opposite()).Shaped() && k <= |LadderOf(o.side.Opposite()).levels|
      ensures var opp := LadderOf(o.side.Opposite());
        && Sum(c.orders, ReachBefore(o, opp.Nth(0))) == 0
        && 0 <= Sum(c.orders, ReachBefore(o, opp.Nth(k))) <= Reach(c, o)
        && (k == |opp.levels| || !o.Accepts(opp.Nth(k)) ==> Sum(c.orders, ReachBefore(o, opp.Nth(k))) == Reach(c, o))
    {
      var opp := LadderOf(o.side.Opposite());
      forall id | id in c.orders && c.orders[id].o.side == opp.side ensures opp.Covers(c.orders[id].o.price) {
        assert id in Fifo(c.q, SlotOf(c.orders[id]));
      }
      SumZero(c.orders, ReachBefore(o, opp.Nth(0)));
      SumZero(c.orders, ReachBefore(o, opp.Nth(k)));
      SumLeq(c.orders, ReachBefore(o, opp.Nth(k)), ReachOf(o));
      if k == |opp.levels| || !o.Accepts(opp.Nth(k)) {
        SumLeq(c.orders, ReachOf(o), ReachBefore(o, opp.Nth(k)));
      }
    }

    /** The crossable resting quantity, capped at the order's remainder (available_fill). */
    method AvailableFill(o: Order) returns (r: int)
      requires Valid()
      ensures r == Available(c, o)
    {
      hide Inv;
      var opp := LadderOf(o.side.Opposite());
      var avail, k := 0, 0;
      ReachEnds(o, 0);
      while k < |opp.levels| && avail < o.leaves
        invariant 0 <= k <= |opp.levels| && avail == Sum(c.orders, ReachBefore(o, opp.Nth(k)))
      {
        var p := opp.Nth(k);
        ReachStep(o, k);
        if opp.At(p).total > 0 && o.Accepts(p) {
          avail := avail + opp.At(p).total;
        } else if opp.At(p).total > 0 {
          ReachEnds(o, k);
          return Min(avail, o.leaves);
        } else {
          TotalPositive(c, Contra(o, p));
        }
        k := k + 1;
      }
      ReachEnds(o, k);
      r := Min(avail, o.leaves);
    }

    /** Whether a marketable order would cross the opposite side (crosses). */
    method WouldCross(o: Order) returns (b: bool)
      requires Valid()
      modifies LadderOf(o.side.Opposite())`bestValid, LadderOf(o.side.Opposite())`bestPrice
      ensures Valid() && b == Sessions.Crosses(c, o)
    {
      hide Inv;
      var opp := LadderOf(o.side.Opposite());
      var best := opp.Best();
      b := best.Some? && o.Accepts(best.value);
      CrossesIs(o, best);
    }

    lemma CrossesIs(o: Order, best: Option<int>)
      requires Couples()
      requires best.Some? ==> LadderOf(o.side.Opposite()).IsBest(best.value)
      requires best.None? ==> forall p :: LadderOf(o.side.Opposite()).At(p).total <= 0
      ensures Sessions.Crosses(c, o) <==> best.Some? && o.Accepts(best.value)
    {
      var opp := LadderOf(o.side.Opposite());
      if best.Some? {
        TotalPositive(c, Contra(o, best.value));
        SlotMember(c, Contra(o, best.value), 0);
      }
      forall id | id in c.orders && c.orders[id].o.side == opp.side
        ensures opp.At(c.orders[id].o.price).total > 0
      {
        assert id in Fifo(c.q, SlotOf(c.orders[id]));
        TotalPositive(c, SlotOf(c.orders[id]));
      }
    }

    // ------------------------------------------------------ resting, erasing

    /** The index part of resting an order. */
    method InsertEntry(o: Order)
      requires FieldsOk()
      modifies this`orders, this`positions, this`events, this`c
      ensures FieldsOk() && c == Rest(old(c), o)
    {
      var m := Maker(o, o.FreshSlice());
      orders := orders[o.id := m];
      positions := Reserve(positions, o, o.leaves);
      events := events + [OrderEvent(symbol, EvAdd, o, o.leaves, m.Lit())];
      c := Rest(c, o);
    }

    /** Maker `m` has joined the back of level `p`: write that level. */
    method GrowLevel(s: Side, p: int, m: Maker, ghost c0: Core)
      requires Shows(s, c0) && SameExcept(c0, c, {Slot(s, p)})
      requires LevelOk(AddLevel(LadderOf(s).At(p), m), c, Slot(s, p)) && Total(c, Slot(s, p)) > 0
      requires LadderOf(s).Valid()
      modifies LadderOf(s)
      ensures Shows(s, c) && LadderOf(s).Valid()
    {
      LadderOf(s).Grow(p, AddLevel(LadderOf(s).At(p), m));
      forall x ensures LevelOk(LadderOf(s).At(x), c, Slot(s, x)) {
        assert SameLevel(c0, c, Slot(s, x)) || x == p;
      }
    }

    /** Rest the remainder of `o` at the back of its level (rest, unbounded window). */
    method RestOrder(o: Order)
      requires Valid() && o.id !in orders && Restable(o, c.nextSeq, c.born)
      modifies this, LadderOf(o.side)
      ensures Valid() && c == Rest(old(c), o)
    {
      hide Inv, Rest;
      ghost var c0 := c;
      RestInv(c, o);
      RestLevel(c, o, LadderOf(o.side).At(o.price));
      RestSame(c, o);
      InsertEntry(o);
      GrowLevel(o.side, o.price, Maker(o, o.FreshSlice()), c0);
      StillShows(o.side.Opposite(), c0, {Slot(o.side, o.price)});
    }

    /** Take order `id` out of the book (the resting branch of cancel). */
    method Erase(id: OrderId)
      requires Valid() && id in orders
      modifies this, LadderOf(orders[id].o.side)`levels, LadderOf(orders[id].o.side)`bestValid
      ensures Valid() && c == Withdraw(old(c), id)
    {
      hide Inv, Withdraw;
      ghost var c0 := c;
      var me := orders[id];
      var s, p := me.o.side, me.o.price;
      Located(c, id);
      var lvl := LadderOf(s).At(p);
      var it := IndexOf(lvl.fifo, id);
      WithdrawInv(c, id);
      WithdrawSlot(c, lvl, it, Slot(s, p));
      WithdrawSame(c, id);
      TotalPositive(c, Slot(s, p));
      EraseEntry(id);
      ShrinkLevel(s, p, WithdrawLevel(lvl, me, it), c0);
      StillShows(s.Opposite(), c0, {Slot(s, p)});
    }

    /** Level `p` has lost a maker: write that level. */
    method ShrinkLevel(s: Side, p: int, l: Level, ghost c0: Core)
      requires Shows(s, c0) && SameExcept(c0, c, {Slot(s, p)}) && LevelOk(l, c, Slot(s, p)) && Inv(c)
      requires LadderOf(s).Valid() && LadderOf(s).At(p).total > 0
      modifies LadderOf(s)`levels, LadderOf(s)`bestValid
      ensures Shows(s, c) && LadderOf(s).Valid()
    {
      hide Inv;
      TotalPositive(c, Slot(s, p));
      LadderOf(s).Shrink(p, l);
      forall x ensures LevelOk(LadderOf(s).At(x), c, Slot(s, x)) {
        assert SameLevel(c0, c, Slot(s, x)) || x == p;
      }
    }

    // ------------------------------------------------------------------- pegs

    /** The index part of moving a pegged order. */
    method MoveEntry(id: OrderId, price: int)
      requires FieldsOk() && id in orders
      modifies this`orders, this`nextSeq, this`requeued, this`events, this`c
      ensures FieldsOk() && c == Move(old(c), id, price)
    {
      var m := orders[id];
      var m' := m.(o := m.o.(price := price, rank := nextSeq));
      orders := orders[id := m'];
      nextSeq := nextSeq + 1;
      requeued := requeued + [m'.o];
      events := events + [RepriceEvent(symbol, m'.o, m.o.price, m'.o.leaves, m'.Lit())];
      c := Move(c, id, price);
    }

    /** Both levels of a move, written back one after the other. */
    method MoveLevels(m: Maker, price: int, ghost c0: Core)
      requires Inv(c0) && m.o.id in c0.orders && c0.orders[m.o.id] == m && m.o.price != price
      requires c == Move(c0, m.o.id, price)
      requires Shows(m.o.side, c0) && LadderOf(m.o.side).Valid()
      modifies LadderOf(m.o.side)
      ensures Shows(m.o.side, c) && LadderOf(m.o.side).Valid()
    {
      hide Inv, Move, Ladder.Valid;
      var s, p := m.o.side, m.o.price;
      var own := LadderOf(s);
      Located(c0, m.o.id);
      TotalPositive(c0, Slot(s, p));
      var from, to := own.At(p), own.At(price);
      var it := IndexOf(from.fifo, m.o.id);
      MoveFrom(c0, price, from, it, Slot(s, p));
      MoveTo(c0, m.o.id, price, to);
      MoveSame(c0, m.o.id, price);
      own.Shrink(p, WithdrawLevel(from, m, it));
      own.Grow(price, AddLevel(to, m));
      forall x ensures LevelOk(own.At(x), c, Slot(s, x)) {
        assert SameLevel(c0, c, Slot(s, x)) || x == p || x == price;
      }
    }

    /** Move a resting pegged order to another price, at the back of that level (move_pegged). */
    method MovePegged(id: OrderId, price: int)
      requires Valid() && id in orders && orders[id].o.price != price
      modifies this, LadderOf(orders[id].o.side)
      ensures Valid() && c == Move(old(c), id, price)
    {
      hide Inv, Move;
      ghost var c0 := c;
      var m := orders[id];
      MakerKnown(c, id);
      MoveInv(c, id, price);
      MoveSame(c, id, price);
      MoveEntry(id, price);
      MoveLevels(m, price, c0);
      StillShows(m.o.side.Opposite(), c0, {SlotOf(m), Slot(m.o.side, price)});
    }

    /** Whether a non-pegged order rests at `p` (the inner scan of reference_best). */
    method HasNonPeg(s: Side, p: int) returns (b: bool)
      requires Couples()
      ensures b == Pegs.NonPegAt(c, Slot(s, p))
    {
      hide Inv;
      var f := LadderOf(s).At(p).fifo;
      for i := 0 to |f|
        invariant forall j :: 0 <= j < i ==> f[j] in orders && orders[f[j]].o.peg.Some?
      {
        SlotMember(c, Slot(s, p), i);
        if orders[f[i]].o.peg.None? {
          assert f[i] in Fifo(c.q, Slot(s, p));
          return true;
        }
      }
      b := false;
    }

    /** The best price of a side over non-pegged orders (reference_best). */
    method FindReference(s: Side) returns (r: Option<int>)
      requires Valid()
      ensures r == Pegs.ReferenceBest(c, s)
    {
      hide Inv, Pegs.NonPegAt;
      var own := LadderOf(s);
      var k := 0;
      OutsideNonPeg(s);
      while k < |own.levels|
        invariant 0 <= k <= |own.levels|
        invariant forall x :: s.Better(x, own.Nth(k)) ==> !Pegs.NonPegAt(c, Slot(s, x))
      {
        var p := own.Nth(k);
        var here := HasNonPeg(s, p);
        if own.At(p).total > 0 && here {
          Pegs.ReferenceIs(c, s, Some(p));
          return Some(p);
        }
        if own.At(p).total <= 0 { EmptyNonPeg(s, p); }
        k := k + 1;
      }
      r := None;
      Pegs.ReferenceIs(c, s, None);
    }

    lemma EmptyNonPeg(s: Side, p: int)
      requires Couples() && LadderOf(s).At(p).total <= 0
      ensures !Pegs.NonPegAt(c, Slot(s, p))
    {
      TotalPositive(c, Slot(s, p));
    }

    lemma OutsideNonPeg(s: Side)
      requires Couples()
      ensures forall x :: !LadderOf(s).Covers(x) ==> !Pegs.NonPegAt(c, Slot(s, x))
    {
      forall x | !LadderOf(s).Covers(x) ensures !Pegs.NonPegAt(c, Slot(s, x)) {
        EmptyNonPeg(s, x);
      }
    }

    /** A pegged order's price from the reference prices (compute_peg_price). */
    method ComputePegPrice(o: Order) returns (r: Option<int>)
      requires Valid()
      ensures r == Pegs.PegPrice(c, o)
    {
      hide Pegs.ReferenceBest, Inv;
      if o.peg.None? {
        return None;
      }
      var rb := FindReference(Buy);
      var ra := FindReference(Sell);
      hide Pegs.PegWith, RestingBook.Valid;
      r := PegFromReferences(rb, ra, o);
    }

    /** The peg price from the two reference prices. */
    static method PegFromReferences(rb: Option<int>, ra: Option<int>, o: Order) returns (r: Option<int>)
      requires o.peg.Some?
      ensures r == Pegs.PegWith(rb, ra, o)
    {
      var peg := o.peg.value;
      var ref;
      match peg.ref {
        case Primary =>
          ref := if o.side == Buy then rb else ra;
        case MarketPeg =>
          ref := if o.side == Buy then ra else rb;
        case Midpoint =>
          ref := if rb.None? || ra.None? then None else Some(HalfTrunc(rb.value + ra.value));
      }
      if ref.None? {
        return None;
      }
      var price := ref.value + peg.offset;
      if peg.capLimit > 0 {
        price := if o.side == Buy then Min(price, peg.capLimit) else Max(price, peg.capLimit);
      }
      r := if price <= 0 then None else Some(price);
    }

    /** One pegged order: recompute its price and move it there. */
    method RepriceEntry(id: OrderId)
      requires Valid() && id in pegged
      modifies this, bids, asks
      ensures Valid() && c == Pegs.RepriceOne(old(c), id)
    {
      hide Inv, Move, Pegs.PegPrice;
      Pegs.PegMember(c, id);
      var np := ComputePegPrice(orders[id].o);
      if np.Some? && np.value != orders[id].o.price {
        MovePegged(id, np.value);
      }
    }

    /** Recompute and re-place every pegged order, in arrival order (reprice_pegs). */
    method RepricePegs()
      requires Valid()
      modifies this, bids, asks
      ensures Valid() && c == Pegs.RepriceAll(old(c))
    {
      hide Inv, Pegs.RepriceOne;
      ghost var c0 := c;
      Pegs.PegsKeyed(c);
      var ids := Ordering.Sort(Ordering.ByArrival(map id | id in orders :: orders[id].o.seqNo), pegged);
      Ordering.SortedIs(Pegs.Arrival(c), pegged, ids);
      hide Ordering.SortedBy, Ordering.TotalOn;
      for i := 0 to |ids|
        invariant Valid() && pegged == c0.pegged
        invariant Pegs.Reprice(c, ids[i..]) == Pegs.Reprice(c0, ids)
      {
        assert ids[i] in ids;
        Pegs.RepriceOneInv(c, ids[i]);
        RepriceEntry(ids[i]);
        assert ids[i..][1..] == ids[i + 1..];
      }
    }

    /** Announce that a stop fired. */
    method Emit(o: Order)
      requires Valid()
      modifies this`events, this`c
      ensures Valid() && c == Sessions.Announce(old(c), o)
    {
      Sessions.AnnounceInv(c, o);
      hide Inv;
      ghost var c0 := c;
      events := events + [OrderEvent(symbol, EvTrigger, o, o.leaves, 0)];
      c := Sessions.Announce(c, o);
      StillShows(Buy, c0, {});
      StillShows(Sell, c0, {});
    }

    /** The quantity a reduce-only order may still execute (reduce_only_capacity). */
    method ReduceOnlyCapacity(o: Order) returns (cap: int)
      requires Valid()
      ensures cap == Sessions.Capacity(c, o)
    {
      if o.client !in positions {
        return 0;
      }
      var p := positions[o.client];
      cap := if o.side == Sell then p.net - p.reservedSell else -p.net - p.reservedBuy;
    }

    // --------------------------------------------------------------- inject

    /** Match an activated order and rest its remainder (inject). */
    method Inject(o0: Order, trades0: seq<Trade>) returns (o: Order, trades: seq<Trade>)
      requires Valid() && o0.id !in orders && Restable(o0, c.nextSeq, c.born)
      modifies this, bids, asks
      ensures Valid()
      ensures var m := Sessions.Inject(old(c), o0, trades0); c == m.c && o == m.o && trades == m.trades
    {
      hide Inv, Restable, MatchAll;
      MatchAllEvolves(Match(c, o0, trades0, false));
      ghost var c0 := c;
      var halted;
      o, trades, halted := MatchSide(o0, trades0);
      if o.leaves > 0 && o.typ != Market && o.tif != IOC {
        StaysRestable(o0, o, c0.nextSeq, c.nextSeq, c.born);
        RestOrder(o);
      }
    }

    /** Match a submitted order and rest its remainder, unless self-trade prevention cancelled it. */
    method MatchAndRest(o0: Order) returns (o: Order, trades: seq<Trade>, rests: bool)
      requires Valid() && o0.id !in orders && Restable(o0, c.nextSeq, c.born)
      modifies this, bids, asks
      ensures Valid()
      ensures var m := MatchAll(Match(old(c), o0, [], false));
        && o == m.o && trades == m.trades && (rests <==> m.o.leaves > 0 && !m.halted && !m.o.Discards())
        && c == if rests then Rest(m.c, m.o) else m.c
    {
      hide Inv, Restable, MatchAll;
      MatchAllEvolves(Match(c, o0, [], false));
      ghost var c0 := c;
      var halted;
      o, trades, halted := MatchSide(o0, []);
      rests := false;
      if o.leaves > 0 && !halted {
        rests := !(o.typ == Market || o.tif == IOC);
        if rests {
          StaysRestable(o0, o, c0.nextSeq, c.nextSeq, c.born);
          RestOrder(o);
        }
      }
    }

    /** The book shows `c` after a change that left every level and the index alone. */
    lemma KeepsShowing(c0: Core)
      requires Shows(Buy, c0) && Shows(Sell, c0) && c.orders == c0.orders && c.q == c0.q && c.disp == c0.disp
      ensures Shows(Buy, c) && Shows(Sell, c)
    {
      assert SameExcept(c0, c, {});
      StillShows(Buy, c0, {});
      StillShows(Sell, c0, {});
    }

    /** Rest a pegged order at its computed price and remember it for repricing. */
    method RestPegged(o: Order)
      requires Valid() && o.id !in orders && Restable(o, c.nextSeq, c.born) && o.peg.Some?
      modifies this, LadderOf(o.side)
      ensures Valid() && c == (var c1 := Rest(old(c), o); c1.(pegged := c1.pegged + {o.id}))
    {
      Sessions.PegRestInv(c, o);
      hide Inv, Rest, Valid;
      RestOrder(o);
      MarkPegged(o.id);
    }

    method MarkPegged(id: OrderId)
      requires Valid() && Inv(c.(pegged := c.pegged + {id}))
      modifies this`pegged, this`c
      ensures Valid() && c == old(c).(pegged := old(c).pegged + {id})
    {
      hide Inv;
      ghost var c0 := c;
      pegged := pegged + {id};
      c := c.(pegged := c.pegged + {id});
      KeepsShowing(c0);
    }

    /** Hand out the next arrival number. */
    method TakeSeq(id: OrderId) returns (n: SeqNo)
      requires Valid() && Inv(Sessions.StampCore(c, id))
      modifies this`nextSeq, this`c
      ensures Valid() && n == old(c.nextSeq) && c == Sessions.StampCore(old(c), id)
    {
      hide Inv;
      ghost var c0 := c;
      n := nextSeq;
      nextSeq := nextSeq + 1;
      c := Sessions.StampCore(c, id);
      KeepsShowing(c0);
    }

    method SeedPosition(client: ClientId, net: int)
      requires Valid()
      modifies this`positions, this`c
      ensures Valid() && c == Sessions.Seed(old(c), client, net)
    {
      if client == 0 {
        return;
      }
      ghost var c0 := c;
      c := Sessions.Seed(c, client, net);
      Sessions.AccountsInv(c0, c);
      hide Inv;
      positions := positions[client := PositionOf(positions, client).(net := net)];
      KeepsShowing(c0);
    }

    method SetNextSeq(next: SeqNo)
      requires Valid()
      modifies this`nextSeq, this`c
      ensures Valid() && c == if next > old(c).nextSeq then old(c).(nextSeq := next) else old(c)
    {
      if next > nextSeq {
        ghost var c0 := c;
        nextSeq := next;
        c := c.(nextSeq := next);
        KeepsShowing(c0);
      }
    }

    /** Drain the orders that moved to the back of a level. */
    method TakeRequeued() returns (moved: seq<Order>)
      requires Valid()
      modifies this`requeued, this`c
      ensures Valid() && moved == old(c.requeued) && c == old(c).(requeued := [])
    {
      ghost var c0 := c;
      moved := requeued;
      requeued := [];
      c := c.(requeued := []);
      KeepsShowing(c0);
    }

    /** One auction execution: both positions and the trade event. */
    method PrintCross(bo: Order, so: Order, t: Trade)
      requires Valid()
      modifies this`positions, this`events, this`c
      ensures Valid()
      ensures c == old(c).(
        positions := ApplyFill(ApplyFill(old(c).positions, bo.client, Buy, t.qty), so.client, Sell, t.qty),
        events := old(c).events + [TradeEvent(old(c).symbol, t, if so.Has(Hidden) then 0 else t.qty)])
    {
      hide Inv, LevelOk;
      ghost var c0 := c;
      events := events + [TradeEvent(symbol, t, if so.Has(Hidden) then 0 else t.qty)];
      positions := ApplyFill(positions, bo.client, Buy, t.qty);
      positions := ApplyFill(positions, so.client, Sell, t.qty);
      c := c.(positions := positions, events := events);
      Sessions.AccountsInv(c0, c);
      KeepsShowing(c0);
    }

    method SetLast(p: int)
      requires Valid()
      modifies this`haveLast, this`lastPrice, this`c
      ensures Valid() && c == old(c).(last := Some(p))
    {
      ghost var c0 := c;
      haveLast, lastPrice := true, p;
      c := c.(last := Some(p));
      Sessions.AccountsInv(c0, c);
      hide Inv;
      KeepsShowing(c0);
    }
  }
}
