/** The wire encoding of book events (src/feed/feed_wire.cc): little-endian scalars and a
    length-prefixed symbol. */
module FeedWire {
  import opened OrderTypes

  type Byte = b: int | 0 <= b < 256

  const WORD := 0x1_0000_0000_0000_0000
  const HALF := 0x8000_0000_0000_0000
  const FIXED: nat := 60
  const SYMBOL_CAP := 0x1_0000

  // --------------------------------------------------------------- scalars

  function Pow256(n: nat): (p: nat)
    ensures p > 0
  {
    if n == 0 then 1 else 256 * Pow256(n - 1)
  }

  /** `v` in `n` bytes, least significant first; higher bits are dropped. */
  function Le(v: nat, n: nat): (s: seq<Byte>)
    ensures |s| == n
    decreases n
  {
    if n == 0 then [] else [v % 256] + Le(v / 256, n - 1)
  }

  /** The value of little-endian bytes. */
  function Val(s: seq<Byte>): (v: nat)
    ensures v < Pow256(|s|)
  {
    if s == [] then 0 else s[0] + 256 * Val(s[1..])
  }

  /** Reading back what was written gives the value, as long as it fits. */
  lemma {:induction false} ValLe(v: nat, n: nat)
    requires v < Pow256(n)
    ensures Val(Le(v, n)) == v
    decreases n
  {
    if n > 0 {
      assert v / 256 < Pow256(n - 1);
      ValLe(v / 256, n - 1);
      assert Le(v, n)[1..] == Le(v / 256, n - 1);
    }
  }

  lemma Sizes()
    ensures Pow256(2) == SYMBOL_CAP && Pow256(8) == WORD
  {
    assert Pow256(1) == 256 && Pow256(2) == 65536;
    assert Pow256(4) == 256 * Pow256(3) && Pow256(3) == 256 * Pow256(2);
    assert Pow256(6) == 256 * Pow256(5) && Pow256(5) == 256 * Pow256(4);
    assert Pow256(8) == 256 * Pow256(7) && Pow256(7) == 256 * Pow256(6);
  }

  lemma ValWord(v: nat)
    requires v < WORD
    ensures Val(Le(v, 8)) == v
  {
    Sizes();
    ValLe(v, 8);
  }

  lemma ValShort(v: nat)
    requires v < SYMBOL_CAP
    ensures Val(Le(v, 2)) == v
  {
    Sizes();
    ValLe(v, 2);
  }

  /** A signed 64-bit value reinterpreted as unsigned, and back. */
  function ToWord(x: int): nat {
    x % WORD
  }

  function FromWord(u: nat): int {
    if u >= HALF then u - WORD else u
  }

  lemma WordRoundTrip(x: int)
    requires -HALF <= x < HALF
    ensures ToWord(x) < WORD && FromWord(ToWord(x)) == x
  {
    if x < 0 {
      assert x == -1 * WORD + (x + WORD);
      assert x % WORD == x + WORD;
    }
  }

  /** Append `v` in `n` bytes. */
  method PutUint(out: seq<Byte>, v: nat, n: nat) returns (r: seq<Byte>)
    ensures r == out + Le(v, n)
  {
    r := out;
    var rest := v;
    for i := 0 to n
      invariant r + Le(rest, n - i) == out + Le(v, n)
    {
      assert r + Le(rest, n - i) == (r + [rest % 256]) + Le(rest / 256, n - i - 1);
      r := r + [rest % 256];
      rest := rest / 256;
    }
  }

  lemma Scale(a: int, b: int, p: int)
    ensures 256 * (a + b * p) == 256 * a + b * (256 * p)
  {
  }

  lemma {:induction false} ValSplit(s: seq<Byte>, i: nat)
    requires i < |s|
    ensures Val(s[..i + 1]) == Val(s[..i]) + s[i] * Pow256(i)
    decreases i
  {
    if i == 0 {
      assert s[..1][1..] == [];
    } else {
      ValSplit(s[1..], i - 1);
      assert s[..i + 1][1..] == s[1..][..i] && s[..i][1..] == s[1..][..i - 1];
      Scale(Val(s[1..][..i - 1]), s[i], Pow256(i - 1));
    }
  }

  /** Read the bytes `at..at+n` as a little-endian value. */
  method GetUint(bytes: seq<Byte>, at: nat, n: nat) returns (v: nat)
    requires at + n <= |bytes|
    ensures v == Val(bytes[at..at + n])
  {
    ghost var s := bytes[at..at + n];
    v := 0;
    var scale: nat := 1;
    for i := 0 to n
      invariant scale == Pow256(i) && v == Val(s[..i])
    {
      ValSplit(s, i);
      v := v + bytes[at + i] * scale;
      scale := 256 * scale;
    }
    assert s[..n] == s;
  }

  // --------------------------------------------------------------- records

  function TypeTag(t: EventType): Byte {
    match t
    case EvAdd => 0
    case EvCancel => 1
    case EvTrade => 2
    case EvReprice => 3
    case EvReplenish => 4
    case EvTrigger => 5
  }

  function TagType(b: Byte): EventType {
    if b == 0 then EvAdd else if b == 1 then EvCancel else if b == 2 then EvTrade
    else if b == 3 then EvReprice else if b == 4 then EvReplenish else EvTrigger
  }

  const MAX_TYPE: Byte := 5

  /** The event's fields fit their C++ types. */
  ghost predicate Representable(ev: BookEvent) {
    && ev.seqNo < WORD && ev.id < WORD && ev.taker < WORD
    && -HALF <= ev.price < HALF && -HALF <= ev.prevPrice < HALF
    && -HALF <= ev.qty < HALF && -HALF <= ev.displayed < HALF
    && (forall i :: 0 <= i < |ev.symbol| ==> ev.symbol[i] as int < 256)
  }

  function SymbolBytes(s: string): (r: seq<Byte>)
    ensures |r| == |s|
  {
    seq(|s|, i requires 0 <= i < |s| => s[i] as int % 256)
  }

  function BytesSymbol(s: seq<Byte>): (r: string)
    ensures |r| == |s|
  {
    seq(|s|, i requires 0 <= i < |s| => s[i] as char)
  }

  function Head(ev: BookEvent): (r: seq<Byte>)
    ensures |r| == 4
  {
    [TypeTag(ev.typ), if ev.side == Sell then 1 else 0] + Le(|ev.symbol| % SYMBOL_CAP, 2)
  }

  function Scalars(ev: BookEvent): (r: seq<Byte>)
    ensures |r| == 56
  {
    Le(ev.seqNo, 8) + Le(ev.id, 8) + Le(ev.taker, 8) + Le(ToWord(ev.price), 8) + Le(ToWord(ev.prevPrice), 8)
    + Le(ToWord(ev.qty), 8) + Le(ToWord(ev.displayed), 8)
  }

  /** The wire record of an event. */
  function Encode(ev: BookEvent): (r: seq<Byte>)
    ensures |r| == FIXED + |ev.symbol|
  {
    Head(ev) + Scalars(ev) + SymbolBytes(ev.symbol)
  }

  datatype Decoded = Incomplete | Malformed | Complete(ev: BookEvent, used: nat)

  function SymbolLen(bytes: seq<Byte>): (n: nat)
    requires |bytes| >= FIXED
    ensures n < SYMBOL_CAP
  {
    Sizes();
    Val(bytes[2..4])
  }

  function ReadEvent(bytes: seq<Byte>): BookEvent
    requires |bytes| >= FIXED && |bytes| >= FIXED + SymbolLen(bytes)
  {
    BookEvent(
      Val(bytes[4..12]),
      BytesSymbol(bytes[FIXED..FIXED + SymbolLen(bytes)]),
      TagType(bytes[0]),
      Val(bytes[12..20]),
      Val(bytes[20..28]),
      if bytes[1] == 1 then Sell else Buy,
      FromWord(Val(bytes[28..36])),
      FromWord(Val(bytes[36..44])),
      FromWord(Val(bytes[44..52])),
      FromWord(Val(bytes[52..60])))
  }

  /** Decode the record at the head of `bytes`. */
  function Decode(bytes: seq<Byte>): Decoded {
    if |bytes| < FIXED then Incomplete
    else if bytes[0] > MAX_TYPE then Malformed
    else if |bytes| < FIXED + SymbolLen(bytes) then Incomplete
    else Complete(ReadEvent(bytes), FIXED + SymbolLen(bytes))
  }

  lemma EncodeParts(ev: BookEvent, rest: seq<Byte>)
    ensures var b := Encode(ev) + rest;
      && b[0] == TypeTag(ev.typ) && b[1] == (if ev.side == Sell then 1 else 0)
      && b[2..4] == Le(|ev.symbol| % SYMBOL_CAP, 2)
      && b[4..60] == Scalars(ev)
      && b[60..60 + |ev.symbol|] == SymbolBytes(ev.symbol)
  {
    hide Le, Scalars, SymbolBytes;
    assert (Encode(ev) + rest)[2..4] == Head(ev)[2..4] == Le(|ev.symbol| % SYMBOL_CAP, 2);
    assert (Encode(ev) + rest)[4..60] == Scalars(ev);
    assert (Encode(ev) + rest)[60..60 + |ev.symbol|] == SymbolBytes(ev.symbol);
  }

  lemma ScalarParts(ev: BookEvent)
    ensures var s := Scalars(ev);
      && s[0..8] == Le(ev.seqNo, 8) && s[8..16] == Le(ev.id, 8) && s[16..24] == Le(ev.taker, 8)
      && s[24..32] == Le(ToWord(ev.price), 8) && s[32..40] == Le(ToWord(ev.prevPrice), 8)
      && s[40..48] == Le(ToWord(ev.qty), 8) && s[48..56] == Le(ToWord(ev.displayed), 8)
  {
    hide Le;
  }

  lemma SliceOfSlice(b: seq<Byte>, s: seq<Byte>, i: nat, j: nat)
    requires |b| >= 60 && |s| == 56 && b[4..60] == s && i <= j <= 56
    ensures b[4 + i..4 + j] == s[i..j]
  {
    forall k | 0 <= k < j - i ensures b[4 + i..4 + j][k] == s[i..j][k] {
      assert b[4..60][i + k] == s[i + k];
    }
  }

  lemma ScalarsRead(ev: BookEvent, b: seq<Byte>)
    requires Representable(ev) && |b| >= 60 && b[4..60] == Scalars(ev)
    ensures Val(b[4..12]) == ev.seqNo && Val(b[12..20]) == ev.id && Val(b[20..28]) == ev.taker
    ensures FromWord(Val(b[28..36])) == ev.price && FromWord(Val(b[36..44])) == ev.prevPrice
    ensures FromWord(Val(b[44..52])) == ev.qty && FromWord(Val(b[52..60])) == ev.displayed
  {
    var s := Scalars(ev);
    ScalarParts(ev);
    hide Le, Val, Scalars, ToWord, FromWord;
    SliceOfSlice(b, s, 0, 8);
    SliceOfSlice(b, s, 8, 16);
    SliceOfSlice(b, s, 16, 24);
    SliceOfSlice(b, s, 24, 32);
    SliceOfSlice(b, s, 32, 40);
    SliceOfSlice(b, s, 40, 48);
    SliceOfSlice(b, s, 48, 56);
    ValWord(ev.seqNo);
    ValWord(ev.id);
    ValWord(ev.taker);
    SignedRead(ev.price);
    SignedRead(ev.prevPrice);
    SignedRead(ev.qty);
    SignedRead(ev.displayed);
  }

  lemma SignedRead(x: int)
    requires -HALF <= x < HALF
    ensures FromWord(Val(Le(ToWord(x), 8))) == x
  {
    WordRoundTrip(x);
    ValWord(ToWord(x));
  }

  lemma SymbolRoundTrip(s: string)
    requires forall i :: 0 <= i < |s| ==> s[i] as int < 256
    ensures BytesSymbol(SymbolBytes(s)) == s
  {
  }

  lemma LengthRead(ev: BookEvent, rest: seq<Byte>)
    ensures |Encode(ev) + rest| >= FIXED && SymbolLen(Encode(ev) + rest) == |ev.symbol| % SYMBOL_CAP
  {
    EncodeParts(ev, rest);
    ValShort(|ev.symbol| % SYMBOL_CAP);
  }

  lemma ReadsBack(ev: BookEvent, b: seq<Byte>)
    requires Representable(ev) && |ev.symbol| < SYMBOL_CAP && |b| >= FIXED + |ev.symbol|
    requires b[0] == TypeTag(ev.typ) && b[1] == (if ev.side == Sell then 1 else 0)
    requires SymbolLen(b) == |ev.symbol| && b[4..60] == Scalars(ev) && b[60..60 + |ev.symbol|] == SymbolBytes(ev.symbol)
    ensures ReadEvent(b) == ev
  {
    ScalarsRead(ev, b);
    SymbolRoundTrip(ev.symbol);
    TagRoundTrip(ev.typ);
    hide Val, FromWord, Scalars, SymbolLen, SymbolBytes, BytesSymbol, Representable, TagType, TypeTag;
  }

  lemma TagRoundTrip(t: EventType)
    ensures TagType(TypeTag(t)) == t && TypeTag(t) <= MAX_TYPE
  {
  }

  /** Round trip: an event decodes to itself, whatever follows it, exactly when its symbol is shorter
      than 65536 bytes. */
  lemma RoundTripIff(ev: BookEvent, rest: seq<Byte>)
    requires Representable(ev)
    ensures Decode(Encode(ev) + rest) == Complete(ev, |Encode(ev)|) <==> |ev.symbol| < SYMBOL_CAP
  {
    var b := Encode(ev) + rest;
    EncodeParts(ev, rest);
    LengthRead(ev, rest);
    hide Encode, Scalars, SymbolBytes, SymbolLen, ReadEvent, Representable;
    if |ev.symbol| < SYMBOL_CAP {
      ReadsBack(ev, b);
    }
  }

  lemma PrefixLength(b: seq<Byte>, k: nat)
    requires FIXED <= k <= |b|
    ensures b[..k][0] == b[0] && SymbolLen(b[..k]) == SymbolLen(b)
  {
    assert b[..k][2..4] == b[2..4];
  }

  lemma ShortIncomplete(b: seq<Byte>, k: nat)
    requires |b| >= FIXED && b[0] <= MAX_TYPE && |b| == FIXED + SymbolLen(b) && k < |b|
    ensures Decode(b[..k]) == Incomplete
  {
    hide SymbolLen, ReadEvent;
    if k >= FIXED {
      PrefixLength(b, k);
    }
  }

  lemma HeadRead(ev: BookEvent)
    ensures Encode(ev)[0] <= MAX_TYPE && SymbolLen(Encode(ev)) == |ev.symbol| % SYMBOL_CAP
  {
    hide SymbolLen, Scalars, SymbolBytes, Le;
    assert Encode(ev) + [] == Encode(ev);
    LengthRead(ev, []);
  }

  /** Every strict prefix of a record is incomplete: nothing is consumed. */
  lemma PrefixIncomplete(ev: BookEvent, k: nat)
    requires |ev.symbol| < SYMBOL_CAP && k < |Encode(ev)|
    ensures Decode(Encode(ev)[..k]) == Incomplete
  {
    HeadRead(ev);
    hide Encode, SymbolLen, Decode;
    ShortIncomplete(Encode(ev), k);
  }

  /** Append the wire record of `ev` (EncodeBookEvent). */
  method EncodeBookEvent(ev: BookEvent, out: seq<Byte>) returns (r: seq<Byte>)
    ensures r == out + Encode(ev)
  {
    hide Le, SymbolBytes;
    r := out + [TypeTag(ev.typ)];
    r := r + [if ev.side == Sell then 1 else 0];
    r := PutUint(r, |ev.symbol| % SYMBOL_CAP, 2);
    assert r == out + Head(ev);
    ghost var r0 := r;
    r := PutUint(r, ev.seqNo, 8);
    r := PutUint(r, ev.id, 8);
    r := PutUint(r, ev.taker, 8);
    r := PutUint(r, ToWord(ev.price), 8);
    r := PutUint(r, ToWord(ev.prevPrice), 8);
    r := PutUint(r, ToWord(ev.qty), 8);
    r := PutUint(r, ToWord(ev.displayed), 8);
    assert r == r0 + Scalars(ev);
    r := r + SymbolBytes(ev.symbol);
  }

  /** Decode the record at the head of `bytes` (DecodeBookEvent, before consuming). */
  method DecodeBookEvent(bytes: seq<Byte>) returns (d: Decoded)
    ensures d == Decode(bytes)
  {
    hide Val, FromWord;
    if |bytes| < FIXED {
      return Incomplete;
    }
    if bytes[0] > MAX_TYPE {
      return Malformed;
    }
    var len := GetUint(bytes, 2, 2);
    if |bytes| < FIXED + len {
      return Incomplete;
    }
    var seqNo := GetUint(bytes, 4, 8);
    var id := GetUint(bytes, 12, 8);
    var taker := GetUint(bytes, 20, 8);
    var price := GetUint(bytes, 28, 8);
    var prev := GetUint(bytes, 36, 8);
    var qty := GetUint(bytes, 44, 8);
    var displayed := GetUint(bytes, 52, 8);
    var ev := BookEvent(seqNo, BytesSymbol(bytes[FIXED..FIXED + len]), TagType(bytes[0]), id, taker,
                        if bytes[1] == 1 then Sell else Buy,
                        FromWord(price), FromWord(prev), FromWord(qty), FromWord(displayed));
    d := Complete(ev, FIXED + len);
  }
}
