/** The registry object (src/core/matching_engine.cc): books created on first use, every book's events
    numbered by one clock and forwarded. */
module MatchingEngines {
  import opened OrderTypes
  import opened BookCore
  import opened Sessions
  import opened OrderBooks
  import opened Engines

  class MatchingEngine {
    const stp: StpPolicy
    var books: map<string, OrderBook>
    var seqBase: SeqNo
    var eventSeq: nat
    var feed: seq<BookEvent>

    ghost var repr: set<object>

    /** The registry owns its books, and no two share anything. */
    ghost predicate Separate()
      reads this
    {
      && this !in repr
      && (forall s :: s in books ==> books[s].Footprint() <= repr)
      && (forall a, b :: a in books && b in books && a != b ==> books[a].Footprint() !! books[b].Footprint())
    }

    ghost predicate Valid()
      reads this, repr
    {
      && Separate() && eventSeq == |feed|
      && (forall symbol :: symbol in books ==> books[symbol].Valid())
    }

    ghost function Books(): map<string, State>
      requires Separate()
      reads this, repr
    {
      map symbol | symbol in books :: books[symbol].S()
    }

    /** The registry as a value. */
    ghost function Value(): (e: Engine)
      requires Valid()
      reads this, repr
      ensures BooksInv(e)
    {
      AllInv(this);
      Engine(stp, Books(), seqBase, feed)
    }

    constructor (stp: StpPolicy)
      ensures Valid() && Value() == NoBooks(stp) && repr == {}
    {
      this.stp := stp;
      books, seqBase, eventSeq, feed, repr := map[], 1, 0, [], {};
    }

    /** Number and forward the events a book emitted (on_book_event). */
    method Forward(evs: seq<BookEvent>)
      requires eventSeq == |feed|
      modifies this`eventSeq, this`feed
      ensures eventSeq == |feed| && feed == old(feed) + StampAll(evs, |old(feed)|)
    {
      for i := 0 to |evs|
        invariant eventSeq == |feed| == |old(feed)| + i
        invariant feed == old(feed) + StampAll(evs, |old(feed)|)[..i]
      {
        eventSeq := eventSeq + 1;
        feed := feed + [evs[i].(seqNo := eventSeq)];
      }
    }

    /** A book for a symbol, created on first use (book_for). */
    method NewBook(symbol: string) returns (b: OrderBook)
      requires symbol !in books
      ensures b.Valid() && b.S() == BookFor(Engine(stp, map[], seqBase, []), symbol)
      ensures fresh(b.Footprint())
    {
      b := new OrderBook(symbol, stp);
      b.SetNextSeq(seqBase);
    }

    /** Register a new book. */
    method AddBook(symbol: string, b: OrderBook)
      requires Valid() && symbol !in books && b.Valid() && this !in b.Footprint() && b.Footprint() !! repr
      modifies this`books, this`repr
      ensures Valid() && books == old(books)[symbol := b] && repr == old(repr) + b.Footprint()
      ensures Value() == old(Value()).(books := old(Books())[symbol := b.S()])
    {
      hide BooksInv, OrderBook.Valid, OrderBook.S, OrderBook.Footprint;
      books := books[symbol := b];
      repr := repr + b.Footprint();
    }

    /** Make sure a symbol has its book (book_for). */
    method EnsureBook(symbol: string)
      requires Valid()
      modifies this`books, this`repr
      ensures Valid() && symbol in books && fresh(repr - old(repr))
      ensures Value() == WithBook(old(Value()), symbol)
    {
      hide BooksInv, OrderBook.Valid, OrderBook.S;
      if symbol in books {
        KnownBook(Value(), symbol);
      } else {
        var b := NewBook(symbol);
        AddBook(symbol, b);
      }
    }

    /** Run an operation on one book; `evs` are the events it emitted. */
    static method Step(b: OrderBook, op: Op) returns (r: Option<Outcome>, evs: seq<BookEvent>)
      requires b.Valid() && Legal(b.S(), op)
      modifies b.Footprint()
      ensures b.Valid() && StateInv(old(b.S())) && b.S() == Apply(old(b.S()), op)
      ensures r == OutcomeOf(old(b.S()), op)
      ensures old(b.S()).c.events <= b.S().c.events && evs == b.S().c.events[|old(b.S()).c.events|..]
    {
      BookParts(b);
      ApplyGrows(b.S(), op);
      hide StateInv, Apply, OrderBook.Valid, Legal, OutcomeOf;
      var before := |b.book.events|;
      r := b.Perform(op);
      BookParts(b);
      evs := b.book.events[before..];
    }

    /** Run an operation on a known symbol's book; the other books are untouched. */
    method Advance(symbol: string, op: Op) returns (r: Option<Outcome>, evs: seq<BookEvent>)
      requires Valid() && symbol in books && Legal(books[symbol].S(), op)
      modifies repr
      ensures Valid() && StateInv(old(books[symbol].S()))
      ensures var s, s' := old(books[symbol].S()), Apply(old(books[symbol].S()), op);
        && Books() == old(Books())[symbol := s']
        && s.c.events <= s'.c.events && evs == s'.c.events[|s.c.events|..]
      ensures r == OutcomeOf(old(books[symbol].S()), op)
    {
      hide BooksInv, OrderBook.Valid, Apply, Legal, StateInv, OrderBook.S, OutcomeOf;
      var b := books[symbol];
      r, evs := Step(b, op);
    }

    /** Route an operation to a symbol's book and forward its events. */
    method Route(symbol: string, op: Op) returns (r: Option<Outcome>)
      requires Valid() && symbol in books && LegalCall(Value(), symbol, op)
      modifies this`eventSeq, this`feed, repr
      ensures Valid() && Value() == Call(old(Value()), symbol, op)
      ensures StateInv(old(Books())[symbol]) && Legal(old(Books())[symbol], op)
      ensures r == OutcomeOf(old(Books())[symbol], op)
    {
      hide BooksInv, OrderBook.Valid, Apply, Legal, StateInv, OrderBook.S, OutcomeOf, OrderBook.Footprint, StampAll;
      var evs;
      r, evs := Advance(symbol, op);
      Forward(evs);
    }

    /** Submit, cancel, expire, seed or run an auction for a symbol. */
    method Perform(symbol: string, op: Op) returns (r: Option<Outcome>)
      requires Valid() && LegalCall(Value(), symbol, op)
      modifies this, repr
      ensures Valid() && Value() == Call(old(Value()), symbol, op) && fresh(repr - old(repr))
      ensures r == Reply(old(Value()), symbol, op)
    {
      hide BooksInv, OrderBook.Valid, OrderBook.S, Call, LegalCall, BookFor;
      hide StateInv, Legal, OutcomeOf, OrderBook.Footprint;
      if symbol !in books && !(op.OpSubmit? || op.OpSeed? || op.OpAuction?) {
        UnknownSymbol(Value(), symbol, op);
        return None;
      }
      WithBookCall(Value(), symbol, op);
      EnsureBook(symbol);
      r := Route(symbol, op);
    }

    /** Whether an order rests in a symbol's book (find). */
    method Contains(symbol: string, id: OrderId) returns (b: bool)
      requires Valid()
      ensures b == (id in BookFor(Value(), symbol).c.orders)
    {
      if symbol !in books {
        return false;
      }
      BookOrders(books[symbol]);
      hide OrderBook.Valid;
      b := id in books[symbol].book.orders;
    }

    /** Raise one book's numbering. */
    method RebaseBook(symbol: string, base: SeqNo)
      requires Valid() && symbol in books
      modifies repr
      ensures Valid() && symbol in old(Books()) && StateInv(old(Books())[symbol])
      ensures Books() == old(Books())[symbol := Apply(old(Books())[symbol], OpSetSeq(base))]
    {
      hide BooksInv, OrderBook.Valid, OrderBook.S, Apply, StateInv, OrderBook.Footprint;
      var r, evs := Advance(symbol, OpSetSeq(base));
    }

    /** Raise every book's numbering. */
    method RebaseBooks(base: SeqNo)
      requires Valid()
      modifies repr
      ensures Valid() && (forall s :: s in old(Books()) ==> StateInv(old(Books())[s]))
      ensures Books() == map s | s in old(Books()) :: Apply(old(Books())[s], OpSetSeq(base))
    {
      hide BooksInv, OrderBook.Valid, OrderBook.S, Apply, StateInv, OrderBook.Footprint;
      ghost var was := Books();
      AllInv(this);
      var left := books.Keys;
      ghost var now := Books();
      while left != {}
        invariant Valid() && left <= books.Keys && now == Books() && now.Keys == was.Keys
        invariant forall s :: s in was ==> now[s] == if s in left then was[s] else Apply(was[s], OpSetSeq(base))
        decreases |left|
      {
        var symbol :| symbol in left;
        left := left - {symbol};
        RebaseBook(symbol, base);
        now := Books();
      }
    }

    /** Start every book's numbering above `base`, and that of books still to come (set_seq_base). */
    method SetSeqBase(base: SeqNo)
      requires Valid()
      modifies this`seqBase, repr
      ensures Valid() && (forall s :: s in old(Books()) ==> StateInv(old(Books())[s]))
      ensures Value() == RebaseAll(old(Value()), base) && repr == old(repr)
    {
      hide BooksInv, OrderBook.Valid, OrderBook.S, Apply, StateInv, OrderBook.Footprint;
      RebaseBooks(base);
      seqBase := base;
    }
  }

  lemma AllInv(m: MatchingEngine)
    requires m.Valid()
    ensures forall s :: s in m.Books() ==> StateInv(m.Books()[s])
  {
  }

  /** The engine once `symbol` has its book. */
  ghost function WithBook(e: Engine, symbol: string): Engine {
    e.(books := e.books[symbol := BookFor(e, symbol)])
  }

  lemma KnownBook(e: Engine, symbol: string)
    requires symbol in e.books
    ensures WithBook(e, symbol) == e
  {
    assert e.books[symbol := e.books[symbol]] == e.books;
  }

  lemma UnknownSymbol(e: Engine, symbol: string, op: Op)
    requires symbol !in e.books && !Creates(op) && BooksInv(e) && LegalCall(e, symbol, op)
    ensures Call(e, symbol, op) == e && Reply(e, symbol, op) == None
  {
  }

  /** Creating the book first does not change what a call does. */
  lemma WithBookCall(e: Engine, symbol: string, op: Op)
    requires BooksInv(e) && LegalCall(e, symbol, op) && Answers(e, symbol, op)
    ensures BooksInv(WithBook(e, symbol)) && LegalCall(WithBook(e, symbol), symbol, op)
    ensures Call(WithBook(e, symbol), symbol, op) == Call(e, symbol, op)
    ensures StateInv(BookFor(e, symbol)) && Legal(BookFor(e, symbol), op)
    ensures Reply(e, symbol, op) == OutcomeOf(BookFor(e, symbol), op)
  {
    hide StateInv, Apply, Legal, Forwarded, OutcomeOf;
    BookForInv(e, symbol);
    var s := BookFor(e, symbol);
    ApplyGrows(s, op);
    assert WithBook(e, symbol).books[symbol := Apply(s, op)] == e.books[symbol := Apply(s, op)];
    SameForward(e, WithBook(e, symbol), s.c, Apply(s, op).c);
  }

  lemma SameForward(e: Engine, e': Engine, c: Core, c': Core)
    requires c.events <= c'.events && e'.feed == e.feed
    ensures Forwarded(e', c, c') == Forwarded(e, c, c')
  {
  }

  lemma BookOrders(b: OrderBook)
    requires b.Valid()
    ensures b.book.orders == b.S().c.orders
  {
  }

  lemma BookParts(b: OrderBook)
    requires b.Valid()
    ensures b.book.events == b.S().c.events && StateInv(b.S())
  {
  }
}
