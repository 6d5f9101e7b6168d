/** What matching leaves of an aggressor, computed from quantities alone: level by level, best price
    first, and within a level first come, first served, an iceberg going to the back whenever its
    slice is used up.  The walk is proved to predict every match, whatever mixture of all-or-none
    makers, icebergs and own orders it meets (src/core/order_book.cc, match and match_level). */
module Walks {
  import opened OrderTypes
  import opened BookCore
  import opened Matching

  /** A resting order as an aggressor meets it. */
  datatype Offer = Offer(own: bool, aon: bool, iceberg: bool, display: int, leaves: int, slice: int) {
    function Shown(): int {
      if iceberg then slice else leaves
    }

    predicate Sound() {
      0 < Shown() <= leaves && (iceberg ==> display > 0)
    }

    /** Too large for what is left of the aggressor. */
    predicate TooLarge(r: int) {
      !own && aon && r < leaves
    }

    /** An iceberg whose slice is used up shows the next one. */
    function Renewed(): Offer {
      this.(leaves := leaves - slice, slice := Min(display, leaves - slice))
    }
  }

  /** What is left of the aggressor, and whether meeting its own order cancelled it. */
  datatype Left = Left(qty: nat, halted: bool)

  ghost predicate AllSound(f: seq<Offer>) {
    forall m :: m in f ==> m.Sound()
  }

  /** What one level leaves of `r`. */
  ghost function WalkLevel(stp: StpPolicy, f: seq<Offer>, r: nat): (l: Left)
    requires AllSound(f)
    ensures l.qty <= r && (l.halted ==> l.qty > 0)
    decreases r, |f|
  {
    if r == 0 || f == [] then Left(r, false)
    else
      assert f[0] in f && forall m :: m in f[1..] ==> m in f;
      if f[0].own && stp.Aggressor() then Left(r, true)
      else if f[0].own || f[0].TooLarge(r) then WalkLevel(stp, f[1..], r)
      else
        var x := Min(r, f[0].Shown());
        if f[0].iceberg && x == f[0].slice < f[0].leaves then WalkLevel(stp, f[1..] + [f[0].Renewed()], r - x)
        else WalkLevel(stp, f[1..], r - x)
  }

  function OfferOf(c: Core, o: Order, m: Maker): Offer {
    Offer(StpHit(c, o, m), m.o.Has(Aon), m.o.IsIceberg(), m.o.displayQty, m.o.leaves, m.slice)
  }

  ghost predicate Known(c: Core, f: seq<OrderId>) {
    forall i :: 0 <= i < |f| ==> f[i] in c.orders
  }

  ghost function Offers(c: Core, o: Order, f: seq<OrderId>): (g: seq<Offer>)
    requires Known(c, f)
    ensures |g| == |f|
  {
    seq(|f|, i requires 0 <= i < |f| => OfferOf(c, o, c.orders[f[i]]))
  }

  lemma LevelKnown(c: Core, o: Order, s: Slot)
    requires Inv(c)
    ensures Known(c, Fifo(c.q, s)) && AllSound(Offers(c, o, Fifo(c.q, s)))
  {
    forall i | 0 <= i < |Fifo(c.q, s)|
      ensures Fifo(c.q, s)[i] in c.orders && OfferOf(c, o, c.orders[Fifo(c.q, s)[i]]).Sound()
    {
      SlotMember(c, s, i);
    }
  }

  /** The best of a set of prices. */
  ghost function BestOf(side: Side, ps: set<int>): (p: int)
    requires ps != {}
    ensures p in ps && forall y :: y in ps ==> !side.Better(y, p)
  {
    assert exists x :: x in ps by { assert (forall x :: x !in ps) ==> ps == {}; }
    var x :| x in ps;
    BestPriceExists(side, ps, x);
    var p :| p in ps && forall y :: y in ps ==> !side.Better(y, p);
    p
  }

  /** What the levels at prices `ps` leave of `r`, best price first. */
  ghost function WalkPrices(c: Core, o: Order, ps: set<int>, r: nat): (l: Left)
    requires Inv(c)
    ensures l.qty <= r && (l.halted ==> l.qty > 0)
    decreases |ps|
  {
    if ps == {} then Left(r, false)
    else
      var p := BestOf(o.side.Opposite(), ps);
      LevelKnown(c, o, Contra(o, p));
      var l := WalkLevel(c.stp, Offers(c, o, Fifo(c.q, Contra(o, p))), r);
      if l.halted then l else WalkPrices(c, o, ps - {p}, l.qty)
  }

  /** The populated contra prices `o` accepts. */
  ghost function PricesFor(c: Core, o: Order): set<int> {
    set s | s in c.q && s.side == o.side.Opposite() && o.Accepts(s.price) :: s.price
  }

  /** What the book leaves of `o`. */
  ghost function Walk(c: Core, o: Order): (l: Left)
    requires Inv(c) && o.leaves >= 0
    ensures l.qty <= o.leaves && (l.halted ==> l.qty > 0)
  {
    WalkPrices(c, o, PricesFor(c, o), o.leaves)
  }

  // ----------------------------------------------------------- one level

  lemma {:induction false} SkipTooLarge(stp: StpPolicy, f: seq<Offer>, i: nat, r: nat)
    requires AllSound(f) && i <= |f| && forall k :: 0 <= k < i ==> f[k].TooLarge(r)
    ensures AllSound(f[i..]) && WalkLevel(stp, f, r) == WalkLevel(stp, f[i..], r)
    decreases i
  {
    if i == 0 || r == 0 {
      assert i == 0 ==> f[i..] == f;
    } else {
      assert f[1..][i - 1..] == f[i..];
      SkipTooLarge(stp, f[1..], i - 1, r);
    }
  }

  /** Taking `x` from the first open offer of a level, on quantities. */
  lemma TakeLevel(stp: StpPolicy, g: seq<Offer>, g': seq<Offer>, i: nat, r: nat, x: nat)
    requires AllSound(g) && AllSound(g') && i < |g| && forall k :: 0 <= k < i ==> g[k].TooLarge(r)
    requires !g[i].own && !g[i].TooLarge(r) && x == Min(r, g[i].Shown())
    requires r == x || g' == g[..i] + g[i + 1..] + if x < g[i].leaves then [g[i].Renewed()] else []
    ensures WalkLevel(stp, g, r) == WalkLevel(stp, g', r - x)
  {
    SkipTooLarge(stp, g, i, r);
    assert g[i..][1..] == g[i + 1..];
    if r > x {
      assert forall k :: 0 <= k < i ==> g'[k] == g[k];
      SkipTooLarge(stp, g', i, r - x);
      if x < g[i].leaves {
        assert g'[i..] == g[i..][1..] + [g[i..][0].Renewed()];
      } else {
        assert g'[i..] == g[i..][1..];
      }
    }
  }

  /** The aggressor's own order is passed over (it is withdrawn) or cancels the aggressor. */
  lemma OwnLevel(stp: StpPolicy, g: seq<Offer>, g': seq<Offer>, i: nat, r: nat)
    requires AllSound(g) && AllSound(g') && i < |g| && r > 0 && forall k :: 0 <= k < i ==> g[k].TooLarge(r)
    requires g[i].own && (stp.Aggressor() || g' == g[..i] + g[i + 1..])
    ensures WalkLevel(stp, g, r) == if stp.Aggressor() then Left(r, true) else WalkLevel(stp, g', r)
  {
    SkipTooLarge(stp, g, i, r);
    assert g[i..][1..] == g[i + 1..];
    if !stp.Aggressor() {
      assert forall k :: 0 <= k < i ==> g'[k] == g[k];
      SkipTooLarge(stp, g', i, r);
      assert g'[i..] == g[i + 1..];
    }
  }

  // ----------------------------------------------------------- one action

  /** The acted-on maker's queue afterwards. */
  lemma ActFifo(m: Match, s: Slot, i: nat)
    requires Inv(m.c) && m.o.leaves > 0 && i < |Fifo(m.c.q, s)|
    ensures var f := Fifo(m.c.q, s);
      var m' := Act(m, f[i]);
      var mk := m.c.orders[f[i]];
      var f' := Fifo(m'.c.q, s);
      f[i] in m.c.orders &&
      if StpHit(m.c, m.o, mk) then (m.c.stp.Resting() ==> f' == Cut(f, i))
      else
        var x := FillSize(m.o, mk);
        if x == mk.o.leaves then f' == Cut(f, i)
        else if mk.o.IsIceberg() && x == mk.slice then f' == Cut(f, i) + [f[i]]
        else f' == f && x == m.o.leaves
  {
    SlotMember(m.c, s, i);
    assert NoDup(Fifo(m.c.q, s));
    CutIsWithout(Fifo(m.c.q, s), i);
    MakerSound(m.c, Fifo(m.c.q, s)[i]);
  }

  /** Offers are the same wherever the makers and the policy are. */
  lemma SameOffers(c: Core, o: Order, c': Core, o': Order, f: seq<OrderId>)
    requires Known(c, f) && Known(c', f) && c'.stp == c.stp && o'.client == o.client
    requires forall i :: 0 <= i < |f| ==> c'.orders[f[i]] == c.orders[f[i]]
    ensures Offers(c', o', f) == Offers(c, o, f)
  {
  }

  lemma CutOffers(c: Core, o: Order, f: seq<OrderId>, i: nat)
    requires Known(c, f) && i < |f|
    ensures Known(c, Cut(f, i)) && Offers(c, o, Cut(f, i)) == Offers(c, o, f)[..i] + Offers(c, o, f)[i + 1..]
  {
  }

  lemma PushOffers(c: Core, o: Order, f: seq<OrderId>, id: OrderId)
    requires Known(c, f) && id in c.orders
    ensures Known(c, f + [id]) && Offers(c, o, f + [id]) == Offers(c, o, f) + [OfferOf(c, o, c.orders[id])]
  {
  }

  lemma RenewedMaker(c: Core, o: Order, o': Order, id: OrderId, x: int)
    requires id in c.orders && o'.client == o.client && c.orders[id].o.IsIceberg()
    requires x == c.orders[id].slice < c.orders[id].o.leaves
    ensures id in Hit(c, o, id, x).orders
    ensures OfferOf(Hit(c, o, id, x), o', Hit(c, o, id, x).orders[id]) == OfferOf(c, o, c.orders[id]).Renewed()
  {
  }

  /** The other makers of a level, as offers, after an action on one of them. */
  lemma CutAfter(m: Match, s: Slot, i: nat)
    requires Inv(m.c) && m.o.leaves > 0 && i < |Fifo(m.c.q, s)|
    ensures var f := Fifo(m.c.q, s);
      && Known(m.c, f) && f[i] in m.c.orders && Known(Act(m, f[i]).c, Cut(f, i))
      && var g := Offers(m.c, m.o, f);
        Offers(Act(m, f[i]).c, Act(m, f[i]).o, Cut(f, i)) == g[..i] + g[i + 1..]
  {
    var f := Fifo(m.c.q, s);
    LevelKnown(m.c, m.o, s);
    ActTerms(m, f[i]);
    ActOthers(m, f[i]);
    CutOffers(m.c, m.o, f, i);
    assert NoDup(f);
    assert forall k :: 0 <= k < |f| - 1 ==> Cut(f, i)[k] != f[i];
    hide Inv, Act, Offers;
    SameOffers(m.c, m.o, Act(m, f[i]).c, Act(m, f[i]).o, Cut(f, i));
  }

  /** The next maker of a level, as an offer behind offers that are too large. */
  lemma NextOffer(c: Core, o: Order, s: Slot, i: nat)
    requires Inv(c) && i < |Fifo(c.q, s)|
    requires var f := Fifo(c.q, s);
      AllBlocked(c, o, f[..i]) && f[i] in c.orders && !Blocked(c, o, c.orders[f[i]])
    ensures Known(c, Fifo(c.q, s)) && AllSound(Offers(c, o, Fifo(c.q, s)))
    ensures var g := Offers(c, o, Fifo(c.q, s));
      && (forall k :: 0 <= k < i ==> g[k].TooLarge(o.leaves))
      && g[i] == OfferOf(c, o, c.orders[Fifo(c.q, s)[i]]) && !g[i].TooLarge(o.leaves)
  {
    LevelKnown(c, o, s);
    var f := Fifo(c.q, s);
    forall k | 0 <= k < i ensures Blocked(c, o, c.orders[f[k]]) {
      assert f[..i][k] in f[..i];
    }
  }

  /** The offers of the level after an execution that leaves something of the aggressor. */
  lemma TakenOffers(m: Match, s: Slot, i: nat)
    requires Inv(m.c) && !m.halted && m.o.leaves > 0 && i < |Fifo(m.c.q, s)| && Fifo(m.c.q, s)[i] in m.c.orders
    requires var mk := m.c.orders[Fifo(m.c.q, s)[i]]; !StpHit(m.c, m.o, mk) && FillSize(m.o, mk) < m.o.leaves
    ensures var f := Fifo(m.c.q, s);
      var mk := m.c.orders[f[i]];
      var m' := Act(m, f[i]);
      && Known(m.c, f) && Known(m'.c, Fifo(m'.c.q, s))
      && var g := Offers(m.c, m.o, f);
        Offers(m'.c, m'.o, Fifo(m'.c.q, s))
        == g[..i] + g[i + 1..] + if FillSize(m.o, mk) < g[i].leaves then [g[i].Renewed()] else []
  {
    var f := Fifo(m.c.q, s);
    var m' := Act(m, f[i]);
    ActFifo(m, s, i);
    CutAfter(m, s, i);
    var x := FillSize(m.o, m.c.orders[f[i]]);
    assert Offers(m.c, m.o, f)[i] == OfferOf(m.c, m.o, m.c.orders[f[i]]);
    if x < m.c.orders[f[i]].o.leaves {
      RenewedMaker(m.c, m.o, m'.o, f[i], x);
      PushOffers(m'.c, m'.o, Cut(f, i), f[i]);
    } else {
      var g := Offers(m.c, m.o, f);
      assert g[..i] + g[i + 1..] + [] == g[..i] + g[i + 1..];
    }
  }

  ghost predicate Acted(m: Match, s: Slot, i: nat)
    requires Inv(m.c)
  {
    && !m.halted && m.o.leaves > 0 && i < |Fifo(m.c.q, s)|
    && var f := Fifo(m.c.q, s);
      AllBlocked(m.c, m.o, f[..i]) && f[i] in m.c.orders && !Blocked(m.c, m.o, m.c.orders[f[i]])
  }

  /** What level `s` leaves of the aggressor. */
  ghost function LevelLeft(m: Match, s: Slot): Left
    requires Inv(m.c) && m.o.leaves >= 0
  {
    LevelKnown(m.c, m.o, s);
    if m.halted then Left(m.o.leaves, true) else WalkLevel(m.c.stp, Offers(m.c, m.o, Fifo(m.c.q, s)), m.o.leaves)
  }

  lemma OwnStep(m: Match, s: Slot, i: nat)
    requires Inv(m.c) && Acted(m, s, i) && StpHit(m.c, m.o, m.c.orders[Fifo(m.c.q, s)[i]])
    ensures var m' := Act(m, Fifo(m.c.q, s)[i]);
      Inv(m'.c) && m'.o.leaves >= 0 && LevelLeft(m, s) == LevelLeft(m', s)
  {
    var f := Fifo(m.c.q, s);
    var m' := Act(m, f[i]);
    ActInv(m, f[i]);
    NextOffer(m.c, m.o, s, i);
    ActFifo(m, s, i);
    CutAfter(m, s, i);
    LevelKnown(m'.c, m'.o, s);
    hide Inv, AllBlocked, AllSound, Offers, Known, Cut;
    OwnLevel(m.c.stp, Offers(m.c, m.o, f), Offers(m'.c, m'.o, Fifo(m'.c.q, s)), i, m.o.leaves);
  }

  lemma ActTakes(m: Match, id: OrderId)
    requires id in m.c.orders && !StpHit(m.c, m.o, m.c.orders[id])
    ensures var m' := Act(m, id);
      m'.o.leaves == m.o.leaves - FillSize(m.o, m.c.orders[id]) && m'.c.stp == m.c.stp && !m'.halted
  {
  }

  lemma TakeStep(m: Match, s: Slot, i: nat)
    requires Inv(m.c) && Acted(m, s, i) && !StpHit(m.c, m.o, m.c.orders[Fifo(m.c.q, s)[i]])
    ensures var m' := Act(m, Fifo(m.c.q, s)[i]);
      Inv(m'.c) && m'.o.leaves >= 0 && LevelLeft(m, s) == LevelLeft(m', s)
  {
    hide Inv, AllBlocked, AllSound, Offers, Known, Cut, Act, WalkLevel;
    var f := Fifo(m.c.q, s);
    var m' := Act(m, f[i]);
    var x := FillSize(m.o, m.c.orders[f[i]]);
    ActInv(m, f[i]);
    ActTakes(m, f[i]);
    NextOffer(m.c, m.o, s, i);
    LevelKnown(m'.c, m'.o, s);
    SlotMember(m.c, s, i);
    if x < m.o.leaves { TakenOffers(m, s, i); }
    TakeLevel(m.c.stp, Offers(m.c, m.o, f), Offers(m'.c, m'.o, Fifo(m'.c.q, s)), i, m.o.leaves, x);
  }

  lemma LevelStep(m: Match, s: Slot, i: nat)
    requires Inv(m.c) && Acted(m, s, i)
    ensures var m' := Act(m, Fifo(m.c.q, s)[i]);
      Inv(m'.c) && m'.o.leaves >= 0 && LevelLeft(m, s) == LevelLeft(m', s)
  {
    hide Inv, Acted, Act, LevelLeft;
    assert Fifo(m.c.q, s)[i] in m.c.orders by { ActedKnown(m, s, i); }
    if StpHit(m.c, m.o, m.c.orders[Fifo(m.c.q, s)[i]]) {
      OwnStep(m, s, i);
    } else {
      TakeStep(m, s, i);
    }
  }

  lemma ActedKnown(m: Match, s: Slot, i: nat)
    requires Inv(m.c) && Acted(m, s, i)
    ensures i < |Fifo(m.c.q, s)| && Fifo(m.c.q, s)[i] in m.c.orders && m.o.leaves > 0
  {
  }

  // ------------------------------------------------------------- all levels

  /** A level of makers that are all too large leaves the aggressor as it is. */
  lemma BlockedLevel(m: Match, s: Slot)
    requires Inv(m.c) && !m.halted && m.o.leaves >= 0 && AllBlocked(m.c, m.o, Fifo(m.c.q, s))
    ensures LevelLeft(m, s) == Left(m.o.leaves, false)
  {
    LevelKnown(m.c, m.o, s);
    var f := Fifo(m.c.q, s);
    var g := Offers(m.c, m.o, f);
    assert forall k :: 0 <= k < |f| ==> f[k] in f && g[k].TooLarge(m.o.leaves);
    SkipTooLarge(m.c.stp, g, |g|, m.o.leaves);
  }

  /** What the levels at `ps` leave of the aggressor. */
  ghost function BookLeft(m: Match, ps: set<int>): Left
    requires Inv(m.c) && m.o.leaves >= 0
  {
    if m.halted then Left(m.o.leaves, true) else WalkPrices(m.c, m.o, ps, m.o.leaves)
  }

  lemma {:induction false} NothingLeft(c: Core, o: Order, ps: set<int>)
    requires Inv(c)
    ensures WalkPrices(c, o, ps, 0) == Left(0, false)
    decreases |ps|
  {
    hide Inv;
    if ps != {} { NothingLeft(c, o, ps - {BestOf(o.side.Opposite(), ps)}); }
  }

  lemma {:induction false} AllBlockedLeft(m: Match, ps: set<int>)
    requires Inv(m.c) && !m.halted && m.o.leaves >= 0
    requires forall p :: p in ps ==> AllBlocked(m.c, m.o, Fifo(m.c.q, Contra(m.o, p)))
    ensures BookLeft(m, ps) == Left(m.o.leaves, false)
    decreases |ps|
  {
    hide Inv, AllBlocked;
    if ps != {} {
      var p := BestOf(m.o.side.Opposite(), ps);
      BlockedLevel(m, Contra(m.o, p));
      AllBlockedLeft(m, ps - {p});
    }
  }

  /** Acting on a maker does not change the other levels' offers. */
  lemma {:induction false} OtherPrices(m: Match, id: OrderId, ps: set<int>, r: nat)
    requires Inv(m.c) && !m.halted && m.o.leaves > 0 && id in m.c.orders && Inv(Act(m, id).c)
    requires forall p :: p in ps ==> Contra(m.o, p) != SlotOf(m.c.orders[id])
    ensures WalkPrices(Act(m, id).c, Act(m, id).o, ps, r) == WalkPrices(m.c, m.o, ps, r)
    decreases |ps|
  {
    ActTerms(m, id);
    hide Inv, Act;
    if ps != {} {
      var p := BestOf(m.o.side.Opposite(), ps);
      OtherOffers(m, id, Contra(m.o, p));
      forall x: nat ensures WalkPrices(Act(m, id).c, Act(m, id).o, ps - {p}, x) == WalkPrices(m.c, m.o, ps - {p}, x) {
        OtherPrices(m, id, ps - {p}, x);
      }
    }
  }

  lemma OtherOffers(m: Match, id: OrderId, s: Slot)
    requires Inv(m.c) && !m.halted && m.o.leaves > 0 && id in m.c.orders && Inv(Act(m, id).c)
    requires s != SlotOf(m.c.orders[id])
    ensures var f, m' := Fifo(m.c.q, s), Act(m, id);
      && Fifo(m'.c.q, s) == f && m'.c.stp == m.c.stp && Known(m.c, f) && Known(m'.c, f)
      && AllSound(Offers(m.c, m.o, f)) && Offers(m'.c, m'.o, f) == Offers(m.c, m.o, f)
  {
    var f, m' := Fifo(m.c.q, s), Act(m, id);
    ActOthers(m, id);
    ActTerms(m, id);
    LevelKnown(m.c, m.o, s);
    LevelKnown(m'.c, m'.o, s);
    forall i | 0 <= i < |f| ensures f[i] != id {
      SlotMember(m.c, s, i);
    }
    hide Inv, Act;
    SameOffers(m.c, m.o, m'.c, m'.o, f);
  }

  /** Every populated acceptable contra price is in `ps`, and only acceptable prices are. */
  ghost predicate Covers(c: Core, o: Order, ps: set<int>) {
    && (forall p :: p in ps ==> o.Accepts(p))
    && (forall p :: o.Accepts(p) && Fifo(c.q, Contra(o, p)) != [] ==> p in ps)
  }

  /** A level whose makers are all too large is passed, and nothing is lost by an action elsewhere. */
  lemma PassLevel(m: Match, ps: set<int>, b: int)
    requires Inv(m.c) && !m.halted && m.o.leaves >= 0 && ps != {} && b == BestOf(m.o.side.Opposite(), ps)
    requires AllBlocked(m.c, m.o, Fifo(m.c.q, Contra(m.o, b)))
    ensures BookLeft(m, ps) == BookLeft(m, ps - {b})
  {
    hide Inv, AllBlocked;
    BlockedLevel(m, Contra(m.o, b));
  }

  /** Acting on the next maker changes nothing in what the book will have left in the end. */
  lemma {:induction false} PricesStep(m: Match, p: int, i: nat, ps: set<int>)
    requires Inv(m.c) && Acted(m, Contra(m.o, p), i) && BetterBlocked(m.c, m.o, p)
    requires p in ps && forall x :: x in ps ==> m.o.Accepts(x)
    ensures var m' := Act(m, Fifo(m.c.q, Contra(m.o, p))[i]);
      Inv(m'.c) && m'.o.leaves >= 0 && BookLeft(m, ps) == BookLeft(m', ps)
    decreases |ps|
  {
    hide Inv, Act, AllBlocked, Blocked;
    var s := Contra(m.o, p);
    var id := Fifo(m.c.q, s)[i];
    var m' := Act(m, id);
    LevelStep(m, s, i);
    SlotMember(m.c, s, i);
    ActTerms(m, id);
    var b := BestOf(m.o.side.Opposite(), ps);
    if b == p {
      HereStep(m, s, id, ps, b);
    } else {
      ActBetterBlocked(m, id, p);
      PassLevel(m, ps, b);
      if !m'.halted { PassLevel(m', ps, b); }
      PricesStep(m, p, i, ps - {b});
    }
  }

  lemma HereStep(m: Match, s: Slot, id: OrderId, ps: set<int>, p: int)
    requires Inv(m.c) && !m.halted && m.o.leaves > 0 && id in m.c.orders && SlotOf(m.c.orders[id]) == s
    requires ps != {} && p == BestOf(m.o.side.Opposite(), ps) && s == Contra(m.o, p)
    requires var m' := Act(m, id); Inv(m'.c) && m'.o.leaves >= 0 && LevelLeft(m, s) == LevelLeft(m', s)
    ensures BookLeft(m, ps) == BookLeft(Act(m, id), ps)
  {
    hide Inv, Act;
    ActTerms(m, id);
    var l := LevelLeft(m, s);
    if !l.halted {
      OtherPrices(m, id, ps - {p}, l.qty);
    }
  }

  lemma CoversStay(m: Match, id: OrderId, ps: set<int>)
    requires Inv(m.c) && m.o.leaves > 0 && id in m.c.orders && Covers(m.c, m.o, ps)
    ensures Covers(Act(m, id).c, Act(m, id).o, ps)
  {
    ActTerms(m, id);
    ActOthers(m, id);
    var s := SlotOf(m.c.orders[id]);
    assert id in Fifo(m.c.q, s);
    hide Inv, Act;
  }

  /** The walk predicts the match: what is left, and whether it was cancelled. */
  lemma {:induction false} WalkPredicts(m: Match, ps: set<int>)
    requires Inv(m.c) && m.o.leaves >= 0 && Covers(m.c, m.o, ps)
    ensures BookLeft(m, ps).qty == MatchAll(m).o.leaves && BookLeft(m, ps).halted == MatchAll(m).halted
    decreases Work(m)
  {
    hide Inv, Act, Blocked, Work;
    if m.halted {
    } else if m.o.leaves == 0 {
      NothingLeft(m.c, m.o, ps);
    } else if Next(m.c, m.o).None? {
      forall p | p in ps ensures AllBlocked(m.c, m.o, Fifo(m.c.q, Contra(m.o, p))) {
        assert !Live(m.c, m.o, p);
      }
      hide AllBlocked;
      AllBlockedLeft(m, ps);
    } else {
      NextActed(m, ps);
      var p := NextPrice(m.c, m.o);
      var i := FirstOpen(m.c, m.o, Fifo(m.c.q, Contra(m.o, p)));
      var id := Next(m.c, m.o).value;
      hide AllBlocked, Acted, Covers, BetterBlocked, FirstOpen;
      ActInv(m, id);
      PricesStep(m, p, i, ps);
      CoversStay(m, id, ps);
      WalkPredicts(Act(m, id), ps);
    }
  }

  lemma NextActed(m: Match, ps: set<int>)
    requires Inv(m.c) && !m.halted && m.o.leaves > 0 && Next(m.c, m.o).Some? && Covers(m.c, m.o, ps)
    ensures var p := NextPrice(m.c, m.o);
      var f := Fifo(m.c.q, Contra(m.o, p));
      var i := FirstOpen(m.c, m.o, f);
      && Acted(m, Contra(m.o, p), i) && f[i] == Next(m.c, m.o).value && BetterBlocked(m.c, m.o, p) && p in ps
      && f[i] in m.c.orders
  {
    OpenSound(m.c, m.o, NextPrice(m.c, m.o));
  }

  /** For every book and every aggressor, matching leaves exactly what the walk computes. */
  lemma MatchLeaves(c: Core, o: Order)
    requires Inv(c) && o.leaves >= 0
    ensures var r := MatchAll(Match(c, o, [], false)); Walk(c, o).qty == r.o.leaves && Walk(c, o).halted == r.halted
  {
    var ps := PricesFor(c, o);
    forall p | o.Accepts(p) && Fifo(c.q, Contra(o, p)) != [] ensures p in ps {
      assert Contra(o, p) in c.q;
    }
    hide Inv;
    WalkPredicts(Match(c, o, [], false), ps);
  }

  // ------------------------------------- a level's remainder in closed form

  /** One look at every offer in turn, counting what it shows. */
  ghost function OnePass(f: seq<Offer>, r: nat): (q: nat)
    requires AllSound(f)
    ensures q <= r
    decreases |f|
  {
    if f == [] then r
    else
      assert f[0] in f && forall m :: m in f[1..] ==> m in f;
      OnePass(f[1..], if f[0].own || f[0].TooLarge(r) then r else r - Min(r, f[0].Shown()))
  }

  /** What the icebergs hold back. */
  ghost function Reserves(f: seq<Offer>): (q: int)
    requires AllSound(f)
    ensures q >= 0
    decreases |f|
  {
    if f == [] then 0
    else
      assert f[0] in f && forall m :: m in f[1..] ==> m in f;
      Reserves(f[1..]) + if f[0].own then 0 else f[0].leaves - f[0].Shown()
  }

  lemma {:induction false} PassPush(f: seq<Offer>, m: Offer, r: nat)
    requires AllSound(f) && m.Sound() && !m.own && !m.aon
    ensures AllSound(f + [m])
    ensures OnePass(f + [m], r) == OnePass(f, r) - Min(OnePass(f, r), m.Shown())
    ensures Reserves(f + [m]) == Reserves(f) + m.leaves - m.Shown()
    decreases |f|
  {
    if f == [] {
      assert f + [m] == [m] && [m][1..] == [];
    } else {
      assert f[0] in f && forall x :: x in f[1..] ==> x in f;
      assert (f + [m])[1..] == f[1..] + [m];
      PassPush(f[1..], m, if f[0].own || f[0].TooLarge(r) then r else r - Min(r, f[0].Shown()));
      PassPush(f[1..], m, r);
    }
  }

  lemma {:induction false} PassNothing(f: seq<Offer>)
    requires AllSound(f)
    ensures OnePass(f, 0) == 0
    decreases |f|
  {
    if f != [] {
      assert f[0] in f && forall x :: x in f[1..] ==> x in f;
      PassNothing(f[1..]);
    }
  }

  ghost predicate OthersOnly(f: seq<Offer>) {
    forall m :: m in f ==> !m.own
  }

  ghost predicate NoAonIceberg(f: seq<Offer>) {
    forall m :: m in f ==> !(m.aon && m.iceberg)
  }

  /** What the first offer contributes. */
  lemma HeadOffer(f: seq<Offer>, r: nat)
    requires AllSound(f) && NoAonIceberg(f) && f != []
    ensures AllSound(f[1..]) && NoAonIceberg(f[1..]) && f[0].Sound() && !(f[0].aon && f[0].iceberg)
    ensures OnePass(f, r) == OnePass(f[1..], if f[0].own || f[0].TooLarge(r) then r else r - Min(r, f[0].Shown()))
    ensures Reserves(f) == Reserves(f[1..]) + if f[0].own then 0 else f[0].leaves - f[0].Shown()
    ensures f[0].iceberg && f[0].slice < f[0].leaves ==> NoAonIceberg(f[1..] + [f[0].Renewed()])
  {
    assert f[0] in f && forall m :: m in f[1..] ==> m in f;
  }

  /** Showing a slice in the pass or keeping it in reserve comes to the same. */
  lemma ReserveServes(q: int, shown: int, leaves: int, rest: int)
    requires 0 <= q && 0 < shown <= leaves && rest >= 0
    ensures Max(0, q - Min(q, shown) - (rest + leaves - shown)) == Max(0, q - (rest + leaves))
  {
  }

  predicate Renews(m: Offer, r: nat) {
    m.iceberg && m.slice <= r && m.slice < m.leaves
  }

  /** One step of the walk over a level. */
  lemma WalkHead(stp: StpPolicy, f: seq<Offer>, r: nat)
    requires AllSound(f) && f != [] && r > 0 && !(f[0].own && stp.Aggressor())
    ensures f[0].Sound() && AllSound(f[1..]) && (Renews(f[0], r) ==> AllSound(f[1..] + [f[0].Renewed()]))
    ensures WalkLevel(stp, f, r) ==
      if f[0].own || f[0].TooLarge(r) then WalkLevel(stp, f[1..], r)
      else if Renews(f[0], r) then WalkLevel(stp, f[1..] + [f[0].Renewed()], r - f[0].slice)
      else WalkLevel(stp, f[1..], r - Min(r, f[0].Shown()))
  {
    assert f[0] in f && forall m :: m in f[1..] ==> m in f;
  }

  /** What the pass and then the reserves leave. */
  ghost function PassLeft(f: seq<Offer>, r: nat): (q: nat)
    requires AllSound(f)
  {
    Max(0, OnePass(f, r) - Reserves(f))
  }

  lemma PassRenews(f: seq<Offer>, r: nat)
    requires AllSound(f) && NoAonIceberg(f) && f != [] && !f[0].own && Renews(f[0], r)
    ensures var g := f[1..] + [f[0].Renewed()];
      AllSound(g) && NoAonIceberg(g) && PassLeft(f, r) == PassLeft(g, r - f[0].slice)
  {
    hide AllSound, OnePass, Reserves, NoAonIceberg;
    HeadOffer(f, r);
    var m := f[0].Renewed();
    PassPush(f[1..], m, r - f[0].slice);
    ReserveServes(OnePass(f[1..], r - f[0].slice), m.Shown(), m.leaves, Reserves(f[1..]));
  }

  lemma PassMovesOn(f: seq<Offer>, r: nat)
    requires AllSound(f) && NoAonIceberg(f) && f != [] && (f[0].own || f[0].TooLarge(r) || !Renews(f[0], r))
    ensures AllSound(f[1..]) && NoAonIceberg(f[1..])
    ensures PassLeft(f, r) ==
      PassLeft(f[1..], if f[0].own || f[0].TooLarge(r) then r else r - Min(r, f[0].Shown()))
  {
    hide AllSound, OnePass, Reserves, NoAonIceberg;
    HeadOffer(f, r);
    if f[0].Sound() && r <= f[0].Shown() { PassNothing(f[1..]); }
  }

  /** Where no all-or-none order is an iceberg and no own order cancels the aggressor, one pass decides
      every all-or-none maker: it trades exactly if it fits when its turn comes, before any iceberg
      shows a second slice.  What the pass leaves is then served from the icebergs' reserves. */
  lemma {:induction false} LevelInOnePass(stp: StpPolicy, f: seq<Offer>, r: nat)
    requires AllSound(f) && NoAonIceberg(f) && (stp.Aggressor() ==> OthersOnly(f))
    ensures WalkLevel(stp, f, r) == Left(PassLeft(f, r), false)
    decreases r, |f|
  {
    if r == 0 {
      PassNothing(f);
    } else if f != [] {
      hide AllSound, NoAonIceberg, WalkLevel, PassLeft;
      assert f[0] in f && forall m :: m in f[1..] ==> m in f;
      WalkHead(stp, f, r);
      if f[0].own || f[0].TooLarge(r) {
        PassMovesOn(f, r);
        LevelInOnePass(stp, f[1..], r);
      } else if Renews(f[0], r) {
        PassRenews(f, r);
        LevelInOnePass(stp, f[1..] + [f[0].Renewed()], r - f[0].slice);
      } else {
        PassMovesOn(f, r);
        LevelInOnePass(stp, f[1..], r - Min(r, f[0].Shown()));
      }
    }
  }

  /** Where meeting an own order cancels the aggressor, it has until the first own order of the level,
      and each offer before that shows once: what one pass over them leaves is cancelled. */
  lemma {:induction false} LevelHalts(stp: StpPolicy, f: seq<Offer>, i: nat, r: nat)
    requires AllSound(f) && stp.Aggressor() && i < |f| && f[i].own && forall k :: 0 <= k < i ==> !f[k].own
    ensures AllSound(f[..i]) && WalkLevel(stp, f, r) == Left(OnePass(f[..i], r), OnePass(f[..i], r) > 0)
    decreases i
  {
    assert AllSound(f[..i]);
    if r == 0 {
      PassNothing(f[..i]);
    } else if i > 0 {
      assert f[0] in f && forall m :: m in f[1..] ==> m in f;
      assert f[..i][1..] == f[1..][..i - 1] && f[..i][0] == f[0];
      var x := if f[0].TooLarge(r) then 0 else Min(r, f[0].Shown());
      if !f[0].TooLarge(r) && f[0].iceberg && x == f[0].slice < f[0].leaves {
        var g := f[1..] + [f[0].Renewed()];
        assert g[..i - 1] == f[1..][..i - 1];
        LevelHalts(stp, g, i - 1, r - x);
      } else {
        LevelHalts(stp, f[1..], i - 1, r - x);
      }
    }
  }
}
