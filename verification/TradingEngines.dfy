/** The trading engine object (src/engine/trading_engine.cc, unbounded window).  Each method is one
    step of the protocol in module Trading, carried out on the real matching engine. */
module TradingEngines {
  import opened OrderTypes
  import opened Sessions
  import opened Engines
  import opened MatchingEngines
  import T = Trading

  datatype CancelResult = Cancelled | NotFound | Forbidden

  class TradingEngine {
    const matching: MatchingEngine
    var pending: map<SeqNo, T.Pending>
    var reg: T.Registry
    var clients: map<string, ClientId>
    var loaded: set<T.Key>
    var loading: set<T.Key>
    var nextAssign: SeqNo
    var nextPlace: SeqNo
    var nextOrder: OrderId
    var nextClient: ClientId
    ghost var h: T.History

    ghost predicate Separate()
      reads this, matching, matching.repr
    {
      this !in matching.repr && matching.Valid()
    }

    /** The engine as a value. */
    ghost function Value(): T.Trader
      requires Separate()
      reads this, matching, matching.repr
    {
      T.Trader(
        matching.Value(), pending, reg, clients, loaded, loading, nextAssign, nextPlace, nextOrder, nextClient, h)
    }

    ghost predicate Valid()
      reads this, matching, matching.repr
    {
      Separate() && T.Sound(Value())
    }

    constructor (stp: StpPolicy)
      ensures Valid() && T.Quiet(Value()) && Value() == T.Start(stp)
      ensures fresh(matching) && fresh(matching.repr)
    {
      matching := new MatchingEngine(stp);
      pending, reg, clients := map[], T.Registry(map[], map[]), map[];
      loaded, loading := {}, {};
      nextAssign, nextPlace, nextOrder, nextClient := 1, 1, 1, 1;
      h := T.History([], [], {}, [], map[], map[]);
      new;
    }

    /** Report an order and queue it for placement (submit). */
    method Submit(symbol: string, owner: string, order: Order, uuid: string)
      requires Valid() && T.ClientsSound(Value()) && T.LegalStep(Value(), T.Arrive(symbol, owner, order, uuid))
      modifies this
      ensures Valid() && Value() == T.Advance(old(Value()), T.Arrive(symbol, owner, order, uuid))
    {
      hide MatchingEngine.Valid, MatchingEngine.Value, T.Sound, T.Advance, T.ClientsSound;
      T.ArrivedSound(Value(), symbol, owner, order, uuid);
      T.AdvanceArrive(Value(), symbol, owner, order, uuid);
      var id := order.id;
      if id == 0 {
        id := nextOrder;
        nextOrder := nextOrder + 1;
      }
      var client := 0;
      if owner != "" {
        if owner in clients {
          client := clients[owner];
        } else {
          client := nextClient;
          nextClient := nextClient + 1;
          clients := clients[owner := client];
        }
      }
      var ready := EnsurePosition(symbol, client);
      var o := order.(id := id, client := client);
      pending := pending[nextAssign := T.Pending(symbol, owner, uuid, o, client, false, false, ready)];
      nextAssign := nextAssign + 1;
    }

    /** Whether the account's position is loaded; if it is not, a pull is or becomes outstanding
        (ensure_position). */
    method EnsurePosition(symbol: string, client: ClientId) returns (ready: bool)
      modifies this`loading
      ensures ready == (client == 0 || (symbol, client) in loaded)
      ensures loading == if ready then old(loading) else old(loading) + {(symbol, client)}
    {
      if client == 0 || (symbol, client) in loaded {
        return true;
      }
      if (symbol, client) !in loading {
        loading := loading + {(symbol, client)};
      }
      ready := false;
    }

    /** The storage verdict on arrival `n`. */
    method OnAck(n: SeqNo, ok: bool)
      requires Valid()
      modifies this, matching, matching.repr
      ensures Valid() && Value() == T.Advance(old(Value()), T.Ack(n, ok)) && fresh(matching.repr - old(matching.repr))
    {
      hide MatchingEngine.Valid, MatchingEngine.Value, T.Sound, T.Drain, T.Advance;
      T.AdvanceAck(Value(), n, ok);
      if n !in pending {
        return;
      }
      T.AckedSound(Value(), n, ok);
      pending := pending[n := pending[n].(acked := true, ok := ok)];
      h := h.(acked := if ok then h.acked + {n} else h.acked);
      Drain();
    }

    /** Place ready heads in arrival order until the next one must wait (drain). */
    method Drain()
      requires Valid()
      modifies this, matching, matching.repr
      ensures Valid() && Value() == T.Drain(old(Value())) && fresh(matching.repr - old(matching.repr))
    {
      hide MatchingEngine.Valid, MatchingEngine.Value, T.Sound, T.Place;
      ghost var t0 := Value();
      while nextPlace in pending && pending[nextPlace].acked && pending[nextPlace].posReady
        invariant Valid() && T.Drain(Value()) == T.Drain(t0) && fresh(matching.repr - old(matching.repr))
        decreases |pending|
      {
        T.PlaceSound(Value());
        PlaceHead();
      }
    }

    /** One turn of drain. */
    method PlaceHead()
      requires Valid() && T.Ready(Value())
      modifies this, matching, matching.repr
      ensures Valid() && Value() == T.Place(old(Value())) && fresh(matching.repr - old(matching.repr))
    {
      hide MatchingEngine.Valid, MatchingEngine.Value, T.Sound, T.Enter;
      T.PlaceSound(Value());
      var n := nextPlace;
      var p := pending[n];
      if p.ok {
        EnterHead(p);
      }
      pending := pending - {n};
      nextPlace := n + 1;
      h := h.(called := h.called + [(n, p.ok)]);
    }

    /** The head order reaches its book; handles are registered and pruned. */
    method EnterHead(p: T.Pending)
      requires Valid() && nextPlace in pending && p == pending[nextPlace]
      modifies this`reg, this`h, matching, matching.repr
      ensures Separate() && Value() == T.Enter(old(Value())) && fresh(matching.repr - old(matching.repr))
    {
      hide MatchingEngine.Valid, MatchingEngine.Value, T.Sound, Call, LegalCall;
      hide Reply, T.BooksSound, StateInv, Admissible;
      ghost var t0 := Value();
      T.EnterLegal(t0);
      ghost var h1 := T.Own(h, p.symbol, p.order.id, p.client);
      var r := matching.Perform(p.symbol, OpSubmit(p.order));
      OutcomeKnown(t0.e, p.symbol, p.order);
      if r.value.rested {
        reg := T.Registry(
          if p.uuid in reg.handles then reg.handles else reg.handles[p.uuid := T.Handle(p.symbol, p.order.id, p.owner)],
          if p.order.id in reg.uuids then reg.uuids else reg.uuids[p.order.id := p.uuid]);
      }
      T.NeutralLegal(matching.Value(), h1, p.symbol, OpTakeRequeued);
      var moved := matching.Perform(p.symbol, OpTakeRequeued);
      PruneFilled(p.symbol, r.value.trades);
      h := h1.(placed := h1.placed + [nextPlace]);
    }

    /** Drop the handles of makers that are gone (prune_filled). */
    method PruneFilled(symbol: string, trades: seq<Trade>)
      requires Separate()
      modifies this`reg
      ensures Separate() && reg == T.Prune(old(reg), trades, BookFor(matching.Value(), symbol).c.orders.Keys)
    {
      hide MatchingEngine.Valid, MatchingEngine.Value, BookFor;
      ghost var live := BookFor(matching.Value(), symbol).c.orders.Keys;
      for i := 0 to |trades|
        invariant Separate() && T.Prune(reg, trades[i..], live) == T.Prune(old(reg), trades, live)
        invariant live == BookFor(matching.Value(), symbol).c.orders.Keys
      {
        assert trades[i..][0] == trades[i] && trades[i..][1..] == trades[i + 1..];
        var there := matching.Contains(symbol, trades[i].maker);
        if !there && trades[i].maker in reg.uuids {
          reg := T.Registry(reg.handles - {reg.uuids[trades[i].maker]}, reg.uuids - {trades[i].maker});
        }
      }
    }

    /** An account's position arrived from storage, or the pull failed (the reply of ensure_position). */
    method OnPosition(symbol: string, client: ClientId, ok: bool, net: int)
      requires Valid() && (symbol, client) in loading
      modifies this, matching, matching.repr
      ensures Valid() && fresh(matching.repr - old(matching.repr))
      ensures Value() == T.Advance(old(Value()), T.PositionReply(symbol, client, ok, net))
    {
      hide MatchingEngine.Valid, MatchingEngine.Value, T.Sound, T.Drain, T.Advance;
      hide T.MarkReady, Call, LegalCall, T.BooksSound;
      ghost var t0 := Value();
      T.AdvancePosition(t0, symbol, client, ok, net);
      if ok {
        T.PositionedSeed(t0, symbol, client, net);
        var r := matching.Perform(symbol, OpSeed(client, net));
        h := T.Seeded(h, symbol, client, net);
      }
      MarkLoaded(symbol, client);
      Drain();
    }

    /** The account's position counts as loaded in that symbol. */
    method MarkLoaded(symbol: string, client: ClientId)
      requires Separate()
      modifies this`loading, this`loaded, this`pending
      ensures Separate() && Value() == T.MarkReady(old(Value()), symbol, client)
    {
      hide MatchingEngine.Valid, MatchingEngine.Value;
      loading := loading - {(symbol, client)};
      loaded := loaded + {(symbol, client)};
      ReadyPending(symbol, client);
    }

    /** The account's waiting orders in that symbol become ready. */
    method ReadyPending(symbol: string, client: ClientId)
      modifies this`pending
      ensures pending == map n | n in old(pending) :: T.MadeReady(old(pending)[n], symbol, client)
    {
      var left := pending.Keys;
      while left != {}
        invariant left <= pending.Keys == old(pending).Keys
        invariant forall n ::
          n in pending ==>
            pending[n] == if n in left then old(pending)[n] else T.MadeReady(old(pending)[n], symbol, client)
        decreases |left|
      {
        SomeKey(left);
        var n :| n in left;
        left := left - {n};
        if pending[n].client == client && pending[n].symbol == symbol {
          pending := pending[n := pending[n].(posReady := true)];
        }
      }
    }

    /** An operation on a book followed by the report of the orders it moved. */
    method OperateAndReport(symbol: string, op: Op)
      requires Valid() && T.Neutral(op)
      modifies matching, matching.repr
      ensures Separate() && T.BooksSound(old(Value()).e, h) && fresh(matching.repr - old(matching.repr))
      ensures matching.Value() == T.CallTwice(old(Value()).e, h, symbol, op)
    {
      hide MatchingEngine.Valid, MatchingEngine.Value, T.Sound, Call, LegalCall, T.BooksSound, BooksInv, Reply;
      T.SoundBooks(Value());
      T.NeutralLegal(matching.Value(), h, symbol, op);
      var r := matching.Perform(symbol, op);
      T.NeutralLegal(matching.Value(), h, symbol, OpTakeRequeued);
      r := matching.Perform(symbol, OpTakeRequeued);
    }

    /** Cancel a resting order by its handle, if the requester owns it (cancel). */
    method Cancel(uuid: string, requester: string) returns (r: CancelResult)
      requires Valid()
      modifies this`reg, matching, matching.repr
      ensures Valid() && Value() == T.Cancelled(old(Value()), uuid, requester)
      ensures fresh(matching.repr - old(matching.repr))
      ensures r == (if uuid !in old(reg).handles then NotFound
                    else if old(reg).handles[uuid].owner != requester then Forbidden else Cancelled)
    {
      hide MatchingEngine.Valid, MatchingEngine.Value, T.Sound, T.CallTwice, T.BooksSound;
      T.CancelledSound(Value(), uuid, requester);
      if uuid !in reg.handles {
        return NotFound;
      }
      var hd := reg.handles[uuid];
      if hd.owner != requester {
        return Forbidden;
      }
      OperateAndReport(hd.symbol, OpCancel(hd.id));
      reg := T.Registry(reg.handles - {uuid}, reg.uuids - {hd.id});
      r := Cancelled;
    }

    /** Run a session auction (run_auction). */
    method RunAuction(symbol: string, open: bool)
      requires Valid()
      modifies matching, matching.repr
      ensures Valid() && fresh(matching.repr - old(matching.repr))
      ensures Value() == T.Auctioned(old(Value()), symbol, open)
    {
      hide MatchingEngine.Valid, MatchingEngine.Value, T.Sound, T.CallTwice, T.BooksSound;
      T.AuctionedSound(Value(), symbol, open);
      OperateAndReport(symbol, OpAuction(open));
    }

    /** The boot high-water marks arrived (the reply of seed_from_storage). */
    method OnWatermarks(ok: bool, maxId: OrderId, maxRank: SeqNo)
      requires Valid()
      modifies this`nextOrder, matching, matching.repr
      ensures Valid() && Value() == T.Watermarked(old(Value()), ok, maxId, maxRank)
      ensures matching.repr == old(matching.repr)
    {
      hide MatchingEngine.Valid, MatchingEngine.Value, T.Sound, RebaseAll;
      T.WatermarkedSound(Value(), ok, maxId, maxRank);
      if ok {
        if maxId + 1 > nextOrder {
          nextOrder := maxId + 1;
        }
        matching.SetSeqBase(maxRank + 1);
      }
    }
  }

  lemma SomeKey(keys: set<SeqNo>)
    requires keys != {}
    ensures exists n :: n in keys
  {
    assert (forall n :: n !in keys) ==> keys == {};
  }

  lemma OutcomeKnown(e: Engine, symbol: string, o: Order)
    requires BooksInv(e) && LegalCall(e, symbol, OpSubmit(o))
    ensures Reply(e, symbol, OpSubmit(o)).Some?
  {
  }
}
