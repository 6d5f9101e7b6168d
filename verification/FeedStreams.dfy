/** The event stream from publisher to replica: whole events may be dropped by the publisher, the
    surviving bytes travel in arbitrary pieces, and the reader decodes exactly the surviving events
    (src/feed/feed_publisher.cc, src/feed/feed_wire.cc, tools/feed_helper/main.cc). */
module FeedStreams {
  import opened OrderTypes
  import opened FeedWire
  import opened Buffers
  import opened FeedReplicas

  // --------------------------------------------------------------- parsing

  /** What a reader has made of its bytes: the decoded events and the unconsumed remainder. */
  datatype Parsed = Parsed(events: seq<BookEvent>, rest: seq<Byte>, corrupt: bool)

  lemma UsedFits(bytes: seq<Byte>)
    ensures Decode(bytes).Complete? ==> 0 < Decode(bytes).used <= |bytes|
  {
  }

  /** Decode records from the head until one is incomplete or malformed. */
  function ParseAll(bytes: seq<Byte>): Parsed
    decreases |bytes|
  {
    UsedFits(bytes);
    match Decode(bytes)
    case Incomplete => Parsed([], bytes, false)
    case Malformed => Parsed([], bytes, true)
    case Complete(ev, used) =>
      var p := ParseAll(bytes[used..]);
      p.(events := [ev] + p.events)
  }

  /** More bytes never change a decision already made. */
  lemma DecodeMore(a: seq<Byte>, b: seq<Byte>)
    ensures !Decode(a).Incomplete? ==> Decode(a + b) == Decode(a)
  {
    if |a| >= FIXED {
      hide Val, FromWord;
      SlicesAgree(a, b);
      assert SymbolLen(a + b) == SymbolLen(a);
      if |a| >= FIXED + SymbolLen(a) {
        SameRead(a, b);
      }
    }
  }

  lemma SlicesAgree(a: seq<Byte>, b: seq<Byte>)
    requires |a| >= FIXED
    ensures (a + b)[0] == a[0] && (a + b)[1] == a[1] && (a + b)[2..4] == a[2..4]
    ensures (a + b)[4..12] == a[4..12] && (a + b)[12..20] == a[12..20] && (a + b)[20..28] == a[20..28]
    ensures (a + b)[28..36] == a[28..36] && (a + b)[36..44] == a[36..44]
    ensures (a + b)[44..52] == a[44..52] && (a + b)[52..60] == a[52..60]
  {
  }

  lemma SameRead(a: seq<Byte>, b: seq<Byte>)
    requires |a| >= FIXED && SymbolLen(a + b) == SymbolLen(a) && |a| >= FIXED + SymbolLen(a)
    ensures ReadEvent(a + b) == ReadEvent(a)
  {
    SlicesAgree(a, b);
    var n := FIXED + SymbolLen(a);
    hide Val, FromWord, SymbolLen;
    assert (a + b)[FIXED..n] == a[FIXED..n];
  }

  /** Reading in two pieces is reading at once. */
  lemma {:induction false} ParseMore(a: seq<Byte>, b: seq<Byte>)
    ensures var p := ParseAll(a);
      if p.corrupt then ParseAll(a + b).corrupt && ParseAll(a + b).events == p.events
      else
        var q := ParseAll(p.rest + b);
        ParseAll(a + b) == q.(events := p.events + q.events)
    decreases |a|
  {
    hide Decode;
    DecodeMore(a, b);
    UsedFits(a);
    if Decode(a).Complete? {
      var used := Decode(a).used;
      ParseMore(a[used..], b);
      assert (a + b)[used..] == a[used..] + b;
      var p := ParseAll(a[used..]);
      var q := ParseAll(p.rest + b);
      assert [Decode(a).ev] + (p.events + q.events) == ([Decode(a).ev] + p.events) + q.events;
    } else if Decode(a).Incomplete? {
      assert [] + ParseAll(a + b).events == ParseAll(a + b).events;
    }
  }

  function Concat(chunks: seq<seq<Byte>>): seq<Byte> {
    if chunks == [] then [] else Concat(chunks[..|chunks| - 1]) + chunks[|chunks| - 1]
  }

  /** A reader handed `chunk` in state `p`. */
  function Take(p: Parsed, chunk: seq<Byte>): Parsed {
    if p.corrupt then p
    else
      var q := ParseAll(p.rest + chunk);
      q.(events := p.events + q.events)
  }

  function TakeAll(chunks: seq<seq<Byte>>): Parsed {
    if chunks == [] then Parsed([], [], false)
    else Take(TakeAll(chunks[..|chunks| - 1]), chunks[|chunks| - 1])
  }

  /** However the bytes are cut, the reader sees the events of the whole. */
  lemma {:induction false} ChunksDoNotMatter(chunks: seq<seq<Byte>>)
    ensures TakeAll(chunks).events == ParseAll(Concat(chunks)).events
    ensures TakeAll(chunks).corrupt == ParseAll(Concat(chunks)).corrupt
    ensures !TakeAll(chunks).corrupt ==> TakeAll(chunks) == ParseAll(Concat(chunks))
    decreases |chunks|
  {
    if chunks != [] {
      var init := chunks[..|chunks| - 1];
      ChunksDoNotMatter(init);
      hide ParseAll;
      ParseMore(Concat(init), chunks[|chunks| - 1]);
    }
  }

  // ------------------------------------------------------- encoded streams

  function EncodeAll(evs: seq<BookEvent>): seq<Byte> {
    if evs == [] then [] else Encode(evs[0]) + EncodeAll(evs[1..])
  }

  lemma {:induction false} EncodePush(evs: seq<BookEvent>, ev: BookEvent)
    ensures EncodeAll(evs + [ev]) == EncodeAll(evs) + Encode(ev)
    decreases |evs|
  {
    hide Encode;
    if evs == [] {
      assert evs + [ev] == [ev] && [ev][1..] == [];
      assert EncodeAll([ev]) == Encode(ev) + [] == Encode(ev);
    } else {
      assert (evs + [ev])[1..] == evs[1..] + [ev];
      EncodePush(evs[1..], ev);
    }
  }

  ghost predicate WireOk(evs: seq<BookEvent>) {
    forall i :: 0 <= i < |evs| ==> Representable(evs[i]) && |evs[i].symbol| < SYMBOL_CAP
  }

  /** Any prefix of an encoded stream decodes to a prefix of its events, and what is left over is a
      strict prefix of the next record. */
  lemma {:induction false} StreamDecodes(evs: seq<BookEvent>, k: nat)
    requires WireOk(evs) && k <= |EncodeAll(evs)|
    ensures var p := ParseAll(EncodeAll(evs)[..k]);
      && !p.corrupt && p.events <= evs
      && EncodeAll(evs)[..k] == EncodeAll(p.events) + p.rest
      && (|p.events| == |evs| ==> p.rest == [])
      && (|p.events| < |evs| ==> |p.rest| < |Encode(evs[|p.events|])| && p.rest == Encode(evs[|p.events|])[..|p.rest|])
    decreases |evs|
  {
    hide Encode, Decode, Representable;
    var all := EncodeAll(evs);
    if evs == [] {
      assert all[..k] == [];
      NothingIncomplete();
    } else if k < |Encode(evs[0])| {
      assert all[..k] == Encode(evs[0])[..k];
      PrefixIncomplete(evs[0], k);
    } else {
      var n := |Encode(evs[0])|;
      StreamStep(evs, k);
      StreamDecodes(evs[1..], k - n);
      var p := ParseAll(EncodeAll(evs[1..])[..k - n]);
      assert evs == [evs[0]] + evs[1..];
      assert ([evs[0]] + p.events)[1..] == p.events;
      assert EncodeAll([evs[0]] + p.events) == Encode(evs[0]) + EncodeAll(p.events);
    }
  }

  lemma NothingIncomplete()
    ensures Decode([]) == Incomplete
  {
  }

  lemma StreamStep(evs: seq<BookEvent>, k: nat)
    requires WireOk(evs) && evs != [] && |Encode(evs[0])| <= k <= |EncodeAll(evs)|
    ensures var n := |Encode(evs[0])|;
      var b := EncodeAll(evs)[..k];
      && b == Encode(evs[0]) + EncodeAll(evs[1..])[..k - n]
      && Decode(b) == Complete(evs[0], n) && b[n..] == EncodeAll(evs[1..])[..k - n]
  {
    hide Encode, Decode, Representable;
    var n := |Encode(evs[0])|;
    assert EncodeAll(evs)[..k] == Encode(evs[0]) + EncodeAll(evs[1..])[..k - n];
    RoundTripIff(evs[0], EncodeAll(evs[1..])[..k - n]);
  }

  // ------------------------------------------------------------ the reader

  function Prepended(evs: seq<BookEvent>, p: Parsed): Parsed {
    p.(events := evs + p.events)
  }

  lemma PrependStep(evs: seq<BookEvent>, ev: BookEvent, p: Parsed)
    ensures Prepended(evs, Prepended([ev], p)) == Prepended(evs + [ev], p)
  {
    assert evs + ([ev] + p.events) == (evs + [ev]) + p.events;
  }

  class FeedReader {
    const input: Buffer

    constructor ()
      ensures fresh(input) && fresh(input.storage) && input.Valid() && input.Contents() == []
    {
      input := new Buffer();
    }

    /** Decode one record, consuming it on success (DecodeBookEvent). */
    method DecodeNext() returns (d: Decoded)
      requires input.Valid()
      modifies input, input.storage
      ensures input.Valid() && input.storage == old(input.storage)
      ensures d == Decode(old(input.Contents()))
      ensures input.Contents() ==
        if d.Complete? && d.used <= |old(input.Contents())| then old(input.Contents())[d.used..]
        else old(input.Contents())
    {
      var v := input.View();
      UsedFits(v);
      hide Decode;
      d := DecodeBookEvent(v);
      if d.Complete? {
        input.Consume(d.used);
      }
    }

    /** Buffer bytes read from the stream. */
    method Receive(chunk: seq<Byte>)
      requires input.Valid()
      modifies input, input.storage
      ensures input.Valid() && (input.storage == old(input.storage) || fresh(input.storage))
      ensures input.Contents() == old(input.Contents()) + chunk
    {
      input.ReserveTail(|chunk|);
      input.Write(chunk);
      input.Commit(|chunk|);
    }

    /** Decode until a record is incomplete or malformed. */
    method DecodeAll() returns (events: seq<BookEvent>, corrupt: bool)
      requires input.Valid()
      modifies input, input.storage
      ensures input.Valid() && input.storage == old(input.storage)
      ensures Parsed(events, input.Contents(), corrupt) == ParseAll(old(input.Contents()))
    {
      hide Decode, Buffer.Valid, Buffer.Contents;
      ghost var all := input.Contents();
      events, corrupt := [], false;
      while true
        invariant input.Valid() && !corrupt && input.storage == old(input.storage)
        invariant ParseAll(all) == Prepended(events, ParseAll(input.Contents()))
        decreases |input.Contents()|
      {
        UsedFits(input.Contents());
        ghost var before := input.Contents();
        var d := DecodeNext();
        if d.Complete? {
          PrependStep(events, d.ev, ParseAll(input.Contents()));
          events := events + [d.ev];
        } else {
          corrupt := d.Malformed?;
          assert events + [] == events;
          return;
        }
      }
    }

    /** A readable stream: buffer the bytes, then decode what is complete. */
    method OnReadable(chunk: seq<Byte>) returns (events: seq<BookEvent>, corrupt: bool)
      requires input.Valid()
      modifies input, input.storage
      ensures input.Valid() && (input.storage == old(input.storage) || fresh(input.storage))
      ensures Parsed(events, input.Contents(), corrupt) == ParseAll(old(input.Contents()) + chunk)
    {
      hide ParseAll, Buffer.Valid, Buffer.Contents;
      Receive(chunk);
      events, corrupt := DecodeAll();
    }
  }

  // --------------------------------------------------------- the publisher

  const OUT_CAP: nat := 16 * 1024 * 1024

  /** What one write attempt reports. */
  datatype WriteResult = Wrote(n: nat) | Interrupted | WouldBlock | Failed

  /** `s` is `p` with some elements left out. */
  ghost predicate Selected(s: seq<BookEvent>, p: seq<BookEvent>) {
    if p == [] then s == []
    else
      || Selected(s, p[..|p| - 1])
      || (s != [] && s[|s| - 1] == p[|p| - 1] && Selected(s[..|s| - 1], p[..|p| - 1]))
  }

  lemma SelectedPush(s: seq<BookEvent>, p: seq<BookEvent>, ev: BookEvent)
    requires Selected(s, p)
    ensures Selected(s, p + [ev]) && Selected(s + [ev], p + [ev])
  {
    assert (p + [ev])[..|p|] == p && (s + [ev])[..|s|] == s;
  }

  lemma Appended(d: seq<Byte>, c: seq<Byte>, b: seq<Byte>)
    ensures d + (c + b) == (d + c) + b && d <= (d + c) + b
  {
  }

  class FeedPublisher {
    const out: Buffer
    var dropped: nat
    var closed: bool
    ghost var published: seq<BookEvent>
    ghost var survivors: seq<BookEvent>
    ghost var delivered: seq<Byte>

    /** The delivered bytes followed by the buffered ones are the survivors' encoding; every published
        event either survived or was counted as dropped. */
    ghost predicate Valid()
      reads this, out, out.storage
    {
      && out.Valid() && |out.Contents()| <= OUT_CAP
      && Selected(survivors, published)
      && delivered <= EncodeAll(survivors)
      && (!closed ==> delivered + out.Contents() == EncodeAll(survivors))
      && (!closed ==> |published| == |survivors| + dropped)
    }

    constructor ()
      ensures Valid() && fresh(out) && fresh(out.storage) && published == [] && !closed
    {
      out := new Buffer();
      dropped, closed := 0, false;
      published, survivors, delivered := [], [], [];
    }

    /** The pipe took `m` bytes. */
    method Written(m: nat)
      requires Valid() && !closed && m <= |out.Contents()|
      modifies this`delivered, out, out.storage
      ensures Valid() && out.storage == old(out.storage) && old(delivered) <= delivered
    {
      hide EncodeAll, Selected;
      ghost var c := out.Contents();
      assert c == c[..m] + c[m..];
      delivered := delivered + c[..m];
      out.Consume(m);
      assert delivered + out.Contents() == old(delivered) + c;
    }

    /** Write out as much as the pipe takes; `results` are the outcomes of the write calls. */
    method Flush(results: seq<WriteResult>)
      requires Valid() && !closed
      modifies this`closed, this`delivered, out, out.storage
      ensures Valid() && out.storage == old(out.storage) && old(delivered) <= delivered
    {
      hide EncodeAll, Selected;
      for i := 0 to |results|
        invariant Valid() && !closed && out.storage == old(out.storage) && old(delivered) <= delivered
      {
        var n := out.Size();
        if n == 0 || results[i] == WouldBlock {
          return;
        }
        if results[i] == Failed || results[i] == Wrote(0) {
          Close();
          return;
        }
        if results[i].Wrote? {
          Written(if results[i].n < n then results[i].n else n);
        }
      }
    }

    /** The reader is gone: drop anything undrained. */
    method Close()
      requires Valid()
      modifies this`closed, out, out.storage
      ensures Valid() && closed && out.storage == old(out.storage)
    {
      closed := true;
      var n := out.Size();
      out.Consume(n);
    }

    /** The event is not sent: counted as dropped unless the reader is gone. */
    method Skip(ev: BookEvent)
      requires Valid()
      modifies this`published, this`dropped
      ensures Valid() && published == old(published) + [ev]
      ensures dropped == old(dropped) + if closed then 0 else 1
    {
      SelectedPush(survivors, published, ev);
      hide EncodeAll, Selected;
      published := published + [ev];
      if !closed {
        dropped := dropped + 1;
      }
    }

    /** The event joins the outbound buffer. */
    method Enqueue(ev: BookEvent, bytes: seq<Byte>)
      requires Valid() && !closed && bytes == Encode(ev) && |out.Contents()| + |bytes| <= OUT_CAP
      modifies this`published, this`survivors, out, out.storage
      ensures Valid() && (out.storage == old(out.storage) || fresh(out.storage))
      ensures published == old(published) + [ev] && survivors == old(survivors) + [ev]
    {
      hide EncodeAll, Encode, Selected;
      SelectedPush(survivors, published, ev);
      EncodePush(survivors, ev);
      ghost var c := out.Contents();
      out.Append(bytes);
      published, survivors := published + [ev], survivors + [ev];
      Appended(delivered, c, bytes);
    }

    /** Publish an event, or drop it whole if the buffer is full (on_book_event). */
    method OnBookEvent(ev: BookEvent, results: seq<WriteResult>)
      requires Valid()
      modifies this, out, out.storage
      ensures Valid() && (out.storage == old(out.storage) || fresh(out.storage))
      ensures published == old(published) + [ev]
      ensures survivors == if dropped == old(dropped) && !old(closed) then old(survivors) + [ev] else old(survivors)
      ensures dropped == old(dropped)
        + if !old(closed) && |old(out.Contents())| + |Encode(ev)| > OUT_CAP then 1 else 0
    {
      hide EncodeAll, Encode, Selected;
      if closed {
        Skip(ev);
        return;
      }
      var bytes := EncodeBookEvent(ev, []);
      assert [] + Encode(ev) == Encode(ev);
      var n := out.Size();
      if n + |bytes| > OUT_CAP {
        Skip(ev);
      } else {
        Enqueue(ev, bytes);
        Flush(results);
      }
    }
  }

  // ------------------------------------------------------------ end to end

  lemma {:induction false} SelectedMembers(s: seq<BookEvent>, p: seq<BookEvent>)
    requires Selected(s, p)
    ensures forall i :: 0 <= i < |s| ==> s[i] in p
    decreases |p|
  {
    if p != [] {
      var q := p[..|p| - 1];
      if Selected(s, q) {
        SelectedMembers(s, q);
      } else {
        SelectedMembers(s[..|s| - 1], q);
      }
    }
  }

  /** A selection from a consecutively numbered stream is numbered increasingly. */
  lemma {:induction false} SelectedIncreasing(s: seq<BookEvent>, p: seq<BookEvent>, from: nat)
    requires Selected(s, p) && Consecutive(p, from)
    ensures Increasing(s) && forall i :: 0 <= i < |s| ==> from < s[i].seqNo <= from + |p|
    decreases |p|
  {
    if p != [] {
      var q := p[..|p| - 1];
      if Selected(s, q) {
        SelectedIncreasing(s, q, from);
      } else {
        var t := s[..|s| - 1];
        SelectedIncreasing(t, q, from);
        assert forall i :: 0 <= i < |t| ==> t[i] == s[i];
      }
    }
  }

  lemma PrefixSelected(a: seq<BookEvent>, s: seq<BookEvent>, p: seq<BookEvent>, from: nat)
    requires a <= s && Selected(s, p) && Consecutive(p, from)
    ensures Increasing(a) && forall i :: 0 <= i < |a| ==> a[i] in p && a[i].seqNo > from
  {
    SelectedMembers(s, p);
    SelectedIncreasing(s, p, from);
  }

  /** Numbered like the stream from its start: then it is the start of the stream. */
  lemma NumberedPrefix(a: seq<BookEvent>, p: seq<BookEvent>)
    requires Consecutive(a, 0) && Consecutive(p, 0) && forall i :: 0 <= i < |a| ==> a[i] in p
    ensures a <= p
  {
    assert a != [] ==> a[|a| - 1] in p;
    forall i | 0 <= i < |a| ensures i < |p| && a[i] == p[i] {
      assert a[i] in p;
    }
  }

  lemma PrefixNumbered(a: seq<BookEvent>, p: seq<BookEvent>)
    requires a <= p && Consecutive(p, 0)
    ensures Consecutive(a, 0)
  {
  }

  /** End to end.  `published` is what the engine stamped (1, 2, 3, ...), `survivors` what the
      publisher kept, and the reader has been handed some bytes of the survivors' encoding in any
      pieces.  What the replica applied is a prefix of the survivors; and if its first event is number
      one, then it has counted no gap exactly when it applied a prefix of what was published.  In that
      case its last sequence number says how long that prefix is, so its state is that of the
      published stream at that point. */
  lemma StreamEndToEnd(published: seq<BookEvent>, survivors: seq<BookEvent>, chunks: seq<seq<Byte>>)
    requires Consecutive(published, 0) && Selected(survivors, published) && WireOk(survivors)
    requires Concat(chunks) <= EncodeAll(survivors)
    ensures var a := TakeAll(chunks).events;
      var f := AbsorbAll(NO_FEED, a);
      && !TakeAll(chunks).corrupt && a <= survivors
      && (a != [] && a[0].seqNo == 1 ==>
            && (f.gaps == 0 <==> a <= published)
            && (f.gaps == 0 ==> f.lastSeq <= |published| && f == AbsorbAll(NO_FEED, published[..f.lastSeq])))
  {
    hide AbsorbAll, TakeAll, Selected;
    Received(survivors, chunks);
    var a := TakeAll(chunks).events;
    if a != [] && a[0].seqNo == 1 {
      GapFree(published, survivors, a);
    }
  }

  lemma Received(survivors: seq<BookEvent>, chunks: seq<seq<Byte>>)
    requires WireOk(survivors) && Concat(chunks) <= EncodeAll(survivors)
    ensures !TakeAll(chunks).corrupt && TakeAll(chunks).events <= survivors
  {
    hide ParseAll, EncodeAll, TakeAll, Concat;
    ChunksDoNotMatter(chunks);
    StreamDecodes(survivors, |Concat(chunks)|);
    assert EncodeAll(survivors)[..|Concat(chunks)|] == Concat(chunks);
  }

  lemma GapFree(published: seq<BookEvent>, survivors: seq<BookEvent>, a: seq<BookEvent>)
    requires Consecutive(published, 0) && Selected(survivors, published) && a <= survivors
    requires a != [] && a[0].seqNo == 1
    ensures var f := AbsorbAll(NO_FEED, a);
      && (f.gaps == 0 <==> a <= published)
      && (f.gaps == 0 ==> f.lastSeq <= |published| && f == AbsorbAll(NO_FEED, published[..f.lastSeq]))
  {
    hide AbsorbAll, Selected;
    PrefixSelected(a, survivors, published, 0);
    NoGapsIff(a);
    LastSeen(a);
    if Consecutive(a, 0) {
      NumberedPrefix(a, published);
      assert published[..|a|] == a;
    }
    if a <= published {
      PrefixNumbered(a, published);
    }
  }
}
