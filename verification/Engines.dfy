/** The per-symbol registry of books with its one global event clock (src/core/matching_engine.cc),
    and the agreement of a feed replica with every book. */
module Engines {
  import opened OrderTypes
  import opened BookCore
  import opened Sessions
  import opened Traces
  import opened OpTraces
  import opened Replica
  import opened Runs
  import opened FeedReplicas
  import opened FeedWire
  import opened FeedStreams

  // -------------------------------------------------- events carry the symbol

  /** From `c` to `c'` events were only added, unnumbered and under the book's own symbol. */
  ghost predicate Grows(c: Core, c': Core) {
    && c'.symbol == c.symbol && c.events <= c'.events
    && (forall i :: |c.events| <= i < |c'.events| ==> c'.events[i].symbol == c.symbol && c'.events[i].seqNo == 0)
  }

  lemma DoGrows(k: Kind, c: Core, a: Atom)
    requires AtomOk(k, c, a)
    ensures Grows(c, Do(c, a))
  {
    hide Restable, GoodOrder, Foreign, RankLast, NoCross, AddDisp, Reserve, ApplyFill, Attach, Detach;
  }

  lemma GrowsTrans(c: Core, c1: Core, c2: Core)
    requires Grows(c, c1) && Grows(c1, c2)
    ensures Grows(c, c2)
  {
    forall i | |c.events| <= i < |c2.events| ensures c2.events[i].symbol == c.symbol && c2.events[i].seqNo == 0 {
      if i < |c1.events| { assert c2.events[i] == c1.events[i]; }
    }
  }

  lemma {:induction false} PathGrows(k: Kind, c: Core, path: seq<Atom>)
    requires Fits(k, c, path)
    ensures Grows(c, After(k, c, path))
    decreases |path|
  {
    hide Grows;
    if path == [] {
      assert Grows(c, c) by { GrowsSame(c); }
    } else {
      DoGrows(k, c, path[0]);
      PathGrows(k, Do(c, path[0]), path[1..]);
      GrowsTrans(c, Do(c, path[0]), After(k, c, path));
    }
  }

  lemma GrowsSame(c: Core)
    ensures Grows(c, c)
  {
  }

  lemma StepsGrows(k: Kind, c: Core, c': Core)
    requires Steps(k, c, c')
    ensures Grows(c, c')
  {
    hide Grows;
    var path :| Fits(k, c, path) && After(k, c, path) == c';
    PathGrows(k, c, path);
  }

  // ------------------------------------------------------------- the engine

  /** The registry as a value; `feed` is everything forwarded so far, so its length is the clock. */
  datatype Engine = Engine(stp: StpPolicy, books: map<string, State>, seqBase: SeqNo, feed: seq<BookEvent>)

  function NoBooks(stp: StpPolicy): Engine {
    Engine(stp, map[], 1, [])
  }

  /** Operations on an unknown symbol either create its book or do nothing. */
  predicate Creates(op: Op) {
    op.OpSubmit? || op.OpSeed? || op.OpAuction?
  }

  /** A new book starts counting above anything restored from storage. */
  ghost function BookFor(e: Engine, symbol: string): State {
    if symbol in e.books then e.books[symbol]
    else
      var s := EmptyState(symbol, e.stp);
      s.(c := s.c.(nextSeq := if e.seqBase > 1 then e.seqBase else 1))
  }

  /** Number events `from + 1, from + 2, ...`. */
  function StampAll(evs: seq<BookEvent>, from: nat): (r: seq<BookEvent>)
    ensures |r| == |evs|
  {
    seq(|evs|, i requires 0 <= i < |evs| => evs[i].(seqNo := from + 1 + i))
  }

  /** The events an operation added, numbered by the global clock. */
  ghost function Forwarded(e: Engine, c: Core, c': Core): seq<BookEvent>
    requires c.events <= c'.events
  {
    StampAll(c'.events[|c.events|..], |e.feed|)
  }

  ghost predicate Answers(e: Engine, symbol: string, op: Op) {
    symbol in e.books || Creates(op)
  }

  /** Every book is well formed. */
  ghost predicate BooksInv(e: Engine) {
    forall symbol :: symbol in e.books ==> StateInv(e.books[symbol])
  }

  lemma BookForInv(e: Engine, symbol: string)
    requires BooksInv(e)
    ensures StateInv(BookFor(e, symbol))
  {
  }

  ghost predicate LegalCall(e: Engine, symbol: string, op: Op)
    requires BooksInv(e)
  {
    BookForInv(e, symbol);
    Answers(e, symbol, op) ==> Legal(BookFor(e, symbol), op)
  }

  /** Route an operation to a symbol's book and forward its events. */
  ghost function Call(e: Engine, symbol: string, op: Op): (e': Engine)
    requires BooksInv(e) && LegalCall(e, symbol, op)
    ensures BooksInv(e')
  {
    if !Answers(e, symbol, op) then e
    else
      BookForInv(e, symbol);
      var s := BookFor(e, symbol);
      ApplyInv(s, op);
      var s' := Apply(s, op);
      ApplyGrows(s, op);
      e.(books := e.books[symbol := s'], feed := e.feed + Forwarded(e, s.c, s'.c))
  }

  /** What a call reports back. */
  ghost function Reply(e: Engine, symbol: string, op: Op): Option<Outcome>
    requires BooksInv(e) && LegalCall(e, symbol, op)
  {
    BookForInv(e, symbol);
    if Answers(e, symbol, op) then OutcomeOf(BookFor(e, symbol), op) else None
  }

  lemma AnyGood(s: State)
    ensures GoodState(ANY, s)
  {
  }

  lemma ApplyGrows(s: State, op: Op)
    requires StateInv(s) && Legal(s, op)
    ensures Grows(s.c, Apply(s, op).c)
  {
    AnyGood(s);
    assert GoodOp(ANY, op);
    hide StateInv, GoodState, Steps, Apply, Grows;
    ApplySteps(ANY, s, op);
    StepsGrows(ANY, s.c, Apply(s, op).c);
  }

  // -------------------------------------------------------- projections

  function Unnumbered(evs: seq<BookEvent>): (r: seq<BookEvent>)
    ensures |r| == |evs|
  {
    seq(|evs|, i requires 0 <= i < |evs| => evs[i].(seqNo := 0))
  }

  lemma {:induction false} OfAppend(p: seq<BookEvent>, q: seq<BookEvent>, symbol: string)
    ensures Of(p + q, symbol) == Of(p, symbol) + Of(q, symbol)
    decreases |q|
  {
    if q == [] {
      assert p + q == p;
    } else {
      var init := q[..|q| - 1];
      assert (p + q)[..|p + q| - 1] == p + init && (p + q)[|p + q| - 1] == q[|q| - 1];
      OfAppend(p, init, symbol);
    }
  }

  lemma {:induction false} OfTagged(evs: seq<BookEvent>, own: string, symbol: string)
    requires forall i :: 0 <= i < |evs| ==> evs[i].symbol == own
    ensures Of(evs, symbol) == if symbol == own then evs else []
    decreases |evs|
  {
    if evs != [] {
      OfTagged(evs[..|evs| - 1], own, symbol);
      assert evs == evs[..|evs| - 1] + [evs[|evs| - 1]];
    }
  }

  /** Forwarding changes nothing but the numbers. */
  lemma ForwardedOf(e: Engine, c: Core, c': Core, symbol: string)
    requires Grows(c, c')
    ensures Unnumbered(Of(Forwarded(e, c, c'), symbol)) == if symbol == c.symbol then c'.events[|c.events|..] else []
  {
    var evs := Forwarded(e, c, c');
    OfTagged(evs, c.symbol, symbol);
  }

  lemma ApplyUnnumbered(b: SymBook, ev: BookEvent)
    ensures ApplyEvent(b, ev.(seqNo := 0)) == ApplyEvent(b, ev)
  {
    hide SymBook.BumpBoth, Bump;
  }

  lemma {:induction false} ReplayUnnumbered(b: SymBook, evs: seq<BookEvent>)
    ensures Replay(b, Unnumbered(evs)) == Replay(b, evs)
    decreases |evs|
  {
    hide ApplyEvent;
    if evs != [] {
      ApplyUnnumbered(b, evs[0]);
      assert Unnumbered(evs)[1..] == Unnumbered(evs[1..]);
      ReplayUnnumbered(ApplyEvent(b, evs[0]), evs[1..]);
    }
  }

  // ------------------------------------------------------------ invariants

  /** The kind of a run: any at all, or one without hidden icebergs. */
  function LitIf(full: bool): Kind {
    if full then LIT else ANY
  }

  /** A book is well formed and its own stream replays to it, displayed quantities included in a run
      without hidden icebergs. */
  ghost predicate BookOk(full: bool, s: State, symbol: string) {
    && StateInv(s) && GoodState(LitIf(full), s) && s.c.symbol == symbol
    && Agrees(full, Replay(EMPTY_BOOK, s.c.events), s.c.orders)
  }

  /** The feed is consecutively numbered, and one symbol's share of it is that book's own stream. */
  ghost predicate FeedOk(e: Engine) {
    && Consecutive(e.feed, 0)
    && (forall symbol :: Unnumbered(Of(e.feed, symbol)) == if symbol in e.books then e.books[symbol].c.events else [])
  }

  ghost predicate EngineOk(full: bool, e: Engine) {
    FeedOk(e) && forall symbol :: symbol in e.books ==> BookOk(full, e.books[symbol], symbol)
  }

  lemma NoBooksOk(full: bool, stp: StpPolicy)
    ensures EngineOk(full, NoBooks(stp))
  {
  }

  lemma NewBookOk(full: bool, e: Engine, symbol: string)
    requires symbol !in e.books
    ensures BookOk(full, BookFor(e, symbol), symbol) && BookFor(e, symbol).c.events == []
  {
    EmptyGood(LitIf(full), symbol, e.stp);
  }

  lemma ReplayStays(k: Kind, c: Core, c': Core)
    requires Inv(c) && GoodCore(k, c) && Steps(k, c, c') && Agrees(k.lit, Replay(EMPTY_BOOK, c.events), c.orders)
    ensures Agrees(k.lit, Replay(EMPTY_BOOK, c'.events), c'.orders)
  {
    hide Inv, Steps, Agrees, GoodCore, Replay;
    StepsAgree(k, Replay(EMPTY_BOOK, c.events), c, c');
    ReplayAppend(EMPTY_BOOK, c.events, c'.events[|c.events|..]);
    assert c'.events == c.events + c'.events[|c.events|..];
  }

  lemma BookStays(full: bool, s: State, op: Op, symbol: string)
    requires BookOk(full, s, symbol) && Legal(s, op) && GoodOp(LitIf(full), op)
    ensures BookOk(full, Apply(s, op), symbol)
  {
    hide StateInv, GoodState, Steps, Apply, Agrees, GoodCore, Replay, GoodOp, Legal;
    ApplyInv(s, op);
    ApplySteps(LitIf(full), s, op);
    GoodParts(LitIf(full), s);
    ApplyGrows(s, op);
    ReplayStays(LitIf(full), s.c, Apply(s, op).c);
  }

  lemma ShareStays(e: Engine, c: Core, c': Core, symbol: string)
    requires Grows(c, c')
    ensures Unnumbered(Of(e.feed + Forwarded(e, c, c'), symbol))
      == Unnumbered(Of(e.feed, symbol)) + if symbol == c.symbol then c'.events[|c.events|..] else []
  {
    OfAppend(e.feed, Forwarded(e, c, c'), symbol);
    ForwardedOf(e, c, c', symbol);
    hide Of, Grows, Forwarded;
    var p, q := Of(e.feed, symbol), Of(Forwarded(e, c, c'), symbol);
    assert Unnumbered(p + q) == Unnumbered(p) + Unnumbered(q);
  }

  lemma FeedStays(e: Engine, symbol: string, s: State, s': State)
    requires FeedOk(e) && s == BookFor(e, symbol) && Grows(s.c, s'.c) && s.c.symbol == symbol
    requires symbol !in e.books ==> s.c.events == []
    ensures FeedOk(e.(books := e.books[symbol := s'], feed := e.feed + Forwarded(e, s.c, s'.c)))
  {
    var e' := e.(books := e.books[symbol := s'], feed := e.feed + Forwarded(e, s.c, s'.c));
    assert Consecutive(e'.feed, 0);
    EventsSplit(s.c, s'.c);
    hide Of, Grows, Forwarded, Unnumbered, Consecutive;
    forall x ensures Unnumbered(Of(e'.feed, x)) == if x in e'.books then e'.books[x].c.events else [] {
      ShareStays(e, s.c, s'.c, x);
    }
  }

  lemma EventsSplit(c: Core, c': Core)
    requires Grows(c, c')
    ensures c'.events == c.events + c'.events[|c.events|..]
  {
  }

  lemma BookForOk(full: bool, e: Engine, symbol: string)
    requires EngineOk(full, e)
    ensures var s := BookFor(e, symbol);
      BookOk(full, s, symbol) && s.c.symbol == symbol && (symbol !in e.books ==> s.c.events == [])
  {
    hide FeedOk, StateInv, GoodState, Agrees, Replay;
    if symbol !in e.books { NewBookOk(full, e, symbol); }
  }

  /** Every call keeps the feed consecutively numbered, each symbol's share of it that book's own
      stream, and each stream replaying to its book. */
  lemma CallOk(full: bool, e: Engine, symbol: string, op: Op)
    requires EngineOk(full, e) && BooksInv(e) && LegalCall(e, symbol, op) && GoodOp(LitIf(full), op)
    ensures EngineOk(full, Call(e, symbol, op))
  {
    hide FeedOk, BookOk, Apply, Grows, StateInv, BookFor, GoodOp, Forwarded, Legal;
    if Answers(e, symbol, op) {
      BookForOk(full, e, symbol);
      BookForInv(e, symbol);
      var s := BookFor(e, symbol);
      BookStays(full, s, op, symbol);
      ApplyGrows(s, op);
      FeedStays(e, symbol, s, Apply(s, op));
    }
  }

  // ------------------------------------------------------------ whole runs

  datatype Request = Route(symbol: string, op: Op) | Rebase(base: SeqNo)

  lemma RebasedInv(e: Engine, base: SeqNo)
    requires BooksInv(e)
    ensures forall symbol :: symbol in e.books ==> StateInv(Apply(e.books[symbol], OpSetSeq(base)))
  {
    hide StateInv, Apply;
    forall symbol | symbol in e.books ensures StateInv(Apply(e.books[symbol], OpSetSeq(base))) {
      ApplyInv(e.books[symbol], OpSetSeq(base));
    }
  }

  ghost function RebaseAll(e: Engine, base: SeqNo): (e': Engine)
    requires BooksInv(e)
    ensures BooksInv(e')
  {
    RebasedInv(e, base);
    e.(seqBase := base, books := map symbol | symbol in e.books :: Apply(e.books[symbol], OpSetSeq(base)))
  }

  ghost predicate LegalRequest(e: Engine, r: Request)
    requires BooksInv(e)
  {
    r.Route? ==> LegalCall(e, r.symbol, r.op)
  }

  ghost function Serve(e: Engine, r: Request): (e': Engine)
    requires BooksInv(e) && LegalRequest(e, r)
    ensures BooksInv(e')
  {
    match r
    case Route(symbol, op) => Call(e, symbol, op)
    case Rebase(base) => RebaseAll(e, base)
  }

  ghost predicate LegalRequests(e: Engine, rs: seq<Request>)
    requires BooksInv(e)
    decreases |rs|
  {
    rs != [] ==> LegalRequest(e, rs[0]) && LegalRequests(Serve(e, rs[0]), rs[1..])
  }

  ghost function ServeAll(e: Engine, rs: seq<Request>): Engine
    requires BooksInv(e) && LegalRequests(e, rs)
    decreases |rs|
  {
    if rs == [] then e else ServeAll(Serve(e, rs[0]), rs[1..])
  }

  predicate GoodRequest(full: bool, r: Request) {
    r.Route? ==> GoodOp(LitIf(full), r.op)
  }

  lemma RebaseBook(full: bool, s: State, base: SeqNo, symbol: string)
    requires BookOk(full, s, symbol)
    ensures StateInv(s) && BookOk(full, Apply(s, OpSetSeq(base)), symbol)
    ensures Apply(s, OpSetSeq(base)).c.events == s.c.events
  {
    BookStays(full, s, OpSetSeq(base), symbol);
    hide StateInv, GoodState, Agrees, Replay;
  }

  lemma RebaseOk(full: bool, e: Engine, base: SeqNo)
    requires EngineOk(full, e)
    ensures BooksInv(e) && EngineOk(full, RebaseAll(e, base))
  {
    hide BookOk, StateInv, Of, Unnumbered, Consecutive, Apply;
    forall symbol | symbol in e.books
      ensures StateInv(e.books[symbol]) && BookOk(full, Apply(e.books[symbol], OpSetSeq(base)), symbol)
      ensures Apply(e.books[symbol], OpSetSeq(base)).c.events == e.books[symbol].c.events
    {
      RebaseBook(full, e.books[symbol], base, symbol);
    }
    assert RebaseAll(e, base).books.Keys == e.books.Keys;
  }

  lemma {:induction false} ServeAllOk(full: bool, e: Engine, rs: seq<Request>)
    requires EngineOk(full, e) && BooksInv(e) && LegalRequests(e, rs)
    requires forall r :: r in rs ==> GoodRequest(full, r)
    ensures EngineOk(full, ServeAll(e, rs))
    decreases |rs|
  {
    hide EngineOk, BooksInv;
    if rs != [] {
      assert rs[0] in rs && forall r :: r in rs[1..] ==> r in rs;
      match rs[0] {
        case Route(symbol, op) => CallOk(full, e, symbol, op);
        case Rebase(base) => RebaseOk(full, e, base);
      }
      ServeAllOk(full, Serve(e, rs[0]), rs[1..]);
    }
  }

  /** A replica that has applied the whole feed agrees with every book. */
  lemma ReplicaAgrees(full: bool, e: Engine, symbol: string)
    requires EngineOk(full, e) && symbol in e.books
    ensures Agrees(full, BookOf(AbsorbAll(NO_FEED, e.feed).books, symbol), e.books[symbol].c.orders)
  {
    hide Agrees, AbsorbAll, Replay, Of;
    ShareOf(NO_FEED, e.feed, symbol);
    ReplayUnnumbered(EMPTY_BOOK, Of(e.feed, symbol));
    assert BookOk(full, e.books[symbol], symbol);
  }

  /** What a subscriber received: it began at event one, missed nothing and has reached the clock. */
  ghost predicate CaughtUp(e: Engine, survivors: seq<BookEvent>, chunks: seq<seq<Byte>>) {
    var a := TakeAll(chunks).events;
    var f := AbsorbAll(NO_FEED, a);
    && Selected(survivors, e.feed) && WireOk(survivors) && Concat(chunks) <= EncodeAll(survivors)
    && a != [] && a[0].seqNo == 1 && f.gaps == 0 && f.lastSeq == |e.feed|
  }

  /** Book to replica, end to end: after any run of the engine, whatever the publisher dropped and
      however the bytes were cut, a replica whose first event is number one, that counted no gap and
      that has reached the engine's clock shows every book's orders and matchable depth; and the
      displayed quantities too when no order was both hidden and iceberg. */
  lemma BookToReplica(stp: StpPolicy, rs: seq<Request>, survivors: seq<BookEvent>, chunks: seq<seq<Byte>>,
                      symbol: string)
    requires LegalRequests(NoBooks(stp), rs)
    requires var e := ServeAll(NoBooks(stp), rs); symbol in e.books && CaughtUp(e, survivors, chunks)
    ensures var orders := ServeAll(NoBooks(stp), rs).books[symbol].c.orders;
      var b := BookOf(AbsorbAll(NO_FEED, TakeAll(chunks).events).books, symbol);
      Agrees(false, b, orders) && ((forall r :: r in rs ==> GoodRequest(true, r)) ==> Agrees(true, b, orders))
  {
    hide Agrees, AbsorbAll, TakeAll, CaughtUp, ServeAll, GoodRequest;
    assert forall r :: r in rs ==> GoodRequest(false, r) by { AllRequests(rs); }
    StreamToReplica(false, stp, rs, survivors, chunks, symbol);
    if forall r :: r in rs ==> GoodRequest(true, r) {
      StreamToReplica(true, stp, rs, survivors, chunks, symbol);
    }
  }

  lemma AllRequests(rs: seq<Request>)
    ensures forall r :: r in rs ==> GoodRequest(false, r)
  {
  }

  lemma StreamToReplica(full: bool, stp: StpPolicy, rs: seq<Request>, survivors: seq<BookEvent>,
                        chunks: seq<seq<Byte>>, symbol: string)
    requires LegalRequests(NoBooks(stp), rs) && forall r :: r in rs ==> GoodRequest(full, r)
    requires var e := ServeAll(NoBooks(stp), rs); symbol in e.books && CaughtUp(e, survivors, chunks)
    ensures var orders := ServeAll(NoBooks(stp), rs).books[symbol].c.orders;
      Agrees(full, BookOf(AbsorbAll(NO_FEED, TakeAll(chunks).events).books, symbol), orders)
  {
    hide Agrees, AbsorbAll, TakeAll, Selected, WireOk, ServeAll, Concat, EncodeAll, BookOk, Of;
    NoBooksOk(full, stp);
    ServeAllOk(full, NoBooks(stp), rs);
    var e := ServeAll(NoBooks(stp), rs);
    StreamEndToEnd(e.feed, survivors, chunks);
    assert e.feed[..|e.feed|] == e.feed;
    hide EngineOk;
    ReplicaAgrees(full, e, symbol);
  }
}
