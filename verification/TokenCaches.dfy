/** The time-bounded credential cache (src/auth/token_cache.cc): an intrusive doubly linked list from
    the hot head to the cold tail, a key index, and entry and byte budgets. */
module TokenCaches {
  import opened OrderTypes

  /** One cached credential. */
  datatype Entry = Entry(key: string, value: string, expiry: int)

  function EntryBytes(e: Entry): nat {
    |e.key| + |e.value|
  }

  function Bytes(es: seq<Entry>): nat {
    if es == [] then 0 else EntryBytes(es[0]) + Bytes(es[1..])
  }

  lemma {:induction false} BytesAppend(a: seq<Entry>, b: seq<Entry>)
    ensures Bytes(a + b) == Bytes(a) + Bytes(b)
    decreases |a|
  {
    if a == [] {
      assert a + b == b;
    } else {
      BytesAppend(a[1..], b);
      assert (a + b)[1..] == a[1..] + b;
    }
  }

  function Drop(es: seq<Entry>, i: nat): seq<Entry>
    requires i < |es|
  {
    es[..i] + es[i + 1..]
  }

  lemma BytesDrop(es: seq<Entry>, i: nat)
    requires i < |es|
    ensures Bytes(Drop(es, i)) == Bytes(es) - EntryBytes(es[i])
  {
    hide Bytes;
    var pre, post := es[..i], es[i + 1..];
    BytesAppend(pre, post);
    BytesAppend(pre, [es[i]] + post);
    BytesHead(es[i], post);
    assert es == pre + ([es[i]] + post);
  }

  lemma BytesHead(e: Entry, rest: seq<Entry>)
    ensures Bytes([e] + rest) == EntryBytes(e) + Bytes(rest)
  {
    assert ([e] + rest)[1..] == rest;
  }

  // ---------------------------------------------------------- specification

  /** Entry budget (0: caching disabled), byte budget (0: none), purge cap per insert (0: none). */
  datatype Limits = Limits(capacity: nat, maxBytes: nat, maxPurge: nat)

  function Last(es: seq<Entry>): Entry
    requires es != []
  {
    es[|es| - 1]
  }

  function Init(es: seq<Entry>): seq<Entry>
    requires es != []
  {
    es[..|es| - 1]
  }

  /** Expired entries leave from the cold end, at most `max` of them (0: all). */
  function Purged(es: seq<Entry>, now: int, max: nat, done: nat): seq<Entry>
    decreases |es|
  {
    if es == [] || now < Last(es).expiry then es
    else if max != 0 && done + 1 >= max then Init(es)
    else Purged(Init(es), now, max, done + 1)
  }

  predicate HasKey(es: seq<Entry>, key: string) {
    exists i :: 0 <= i < |es| && es[i].key == key
  }

  function Find(es: seq<Entry>, key: string): (i: nat)
    requires HasKey(es, key)
    ensures i < |es| && es[i].key == key && forall j :: 0 <= j < i ==> es[j].key != key
  {
    if es[0].key == key then 0 else Find(es[1..], key) + 1
  }

  /** Without the entry of `key`. */
  function Forget(es: seq<Entry>, key: string): seq<Entry> {
    if HasKey(es, key) then Drop(es, Find(es, key)) else es
  }

  /** Cold entries leave until there is room for one more. */
  function FitCount(es: seq<Entry>, capacity: nat): seq<Entry>
    decreases |es|
  {
    if es == [] || |es| < capacity then es else FitCount(Init(es), capacity)
  }

  /** Cold entries leave until `need` more bytes fit. */
  function FitBytes(es: seq<Entry>, maxBytes: nat, need: nat): seq<Entry>
    decreases |es|
  {
    if es == [] || maxBytes == 0 || Bytes(es) + need <= maxBytes then es else FitBytes(Init(es), maxBytes, need)
  }

  /** An insert that is not refused outright. */
  predicate Admits(l: Limits, now: int, e: Entry) {
    l.capacity > 0 && e.expiry > now
  }

  predicate Fits(l: Limits, e: Entry) {
    l.maxBytes == 0 || EntryBytes(e) <= l.maxBytes
  }

  /** insert. */
  function Inserted(l: Limits, es: seq<Entry>, now: int, e: Entry): seq<Entry> {
    if !Admits(l, now, e) then es
    else
      var kept := Forget(Purged(es, now, l.maxPurge, 0), e.key);
      if !Fits(l, e) then kept
      else FitBytes(FitCount(kept, l.capacity), l.maxBytes, EntryBytes(e)) + [e]
  }

  /** What lookup answers, and the list it leaves. */
  function Answer(es: seq<Entry>, now: int, key: string): Option<string> {
    if HasKey(es, key) && now < es[Find(es, key)].expiry then Some(es[Find(es, key)].value) else None
  }

  function Looked(es: seq<Entry>, now: int, key: string): seq<Entry> {
    if !HasKey(es, key) then es
    else
      var i := Find(es, key);
      if now >= es[i].expiry then Drop(es, i)
      else if i > 0 then Swapped(es, i)
      else es
  }

  // ------------------------------------------------------------- what holds

  ghost predicate UniqueKeys(es: seq<Entry>) {
    forall i, j :: 0 <= i < j < |es| ==> es[i].key != es[j].key
  }

  ghost predicate Within(l: Limits, es: seq<Entry>) {
    |es| <= l.capacity && (l.maxBytes != 0 ==> Bytes(es) <= l.maxBytes)
  }

  /** Purging takes away a suffix of expired entries. */
  lemma {:induction false} PurgedSuffix(es: seq<Entry>, now: int, max: nat, done: nat)
    ensures Purged(es, now, max, done) <= es
    ensures forall i :: |Purged(es, now, max, done)| <= i < |es| ==> es[i].expiry <= now
    decreases |es|
  {
    if es != [] && now >= Last(es).expiry && !(max != 0 && done + 1 >= max) {
      PurgedSuffix(Init(es), now, max, done + 1);
      assert forall i :: 0 <= i < |Init(es)| ==> Init(es)[i] == es[i];
    }
  }

  /** It takes away at most `max` entries in all, and stops short of that only at one that is live. */
  lemma {:induction false} PurgedExactly(es: seq<Entry>, now: int, max: nat, done: nat)
    requires max == 0 || done < max
    ensures var r := Purged(es, now, max, done);
      && |r| <= |es| && (max != 0 ==> done + |es| - |r| <= max)
      && (r != [] && r[|r| - 1].expiry <= now ==> max != 0 && done + |es| - |r| == max)
    decreases |es|
  {
    if es != [] && now >= Last(es).expiry && !(max != 0 && done + 1 >= max) {
      PurgedExactly(Init(es), now, max, done + 1);
    }
  }

  lemma {:induction false} FitCountFits(es: seq<Entry>, capacity: nat)
    requires capacity > 0
    ensures FitCount(es, capacity) <= es && |FitCount(es, capacity)| < capacity
    decreases |es|
  {
    if es != [] && |es| >= capacity {
      FitCountFits(Init(es), capacity);
    }
  }

  lemma {:induction false} FitBytesFits(es: seq<Entry>, maxBytes: nat, need: nat)
    requires maxBytes == 0 || need <= maxBytes
    ensures var r := FitBytes(es, maxBytes, need); r <= es && (maxBytes != 0 ==> Bytes(r) + need <= maxBytes)
    decreases |es|
  {
    if es != [] && maxBytes != 0 && Bytes(es) + need > maxBytes {
      FitBytesFits(Init(es), maxBytes, need);
    }
  }

  lemma {:induction false} BytesPrefix(a: seq<Entry>, b: seq<Entry>)
    requires a <= b
    ensures Bytes(a) <= Bytes(b)
  {
    BytesAppend(a, b[|a|..]);
    assert b == a + b[|a|..];
  }

  lemma DropMembers(es: seq<Entry>, i: nat)
    requires UniqueKeys(es) && i < |es|
    ensures UniqueKeys(Drop(es, i))
    ensures forall x :: x in Drop(es, i) <==> x in es && x.key != es[i].key
  {
    var d := Drop(es, i);
    forall k | 0 <= k < |d| ensures d[k] == es[if k < i then k else k + 1] && d[k].key != es[i].key {
    }
    forall x | x in es && x.key != es[i].key ensures x in d {
      var k :| 0 <= k < |es| && es[k] == x;
      assert d[if k < i then k else k - 1] == x;
    }
  }

  lemma ForgetLess(es: seq<Entry>, key: string)
    requires UniqueKeys(es)
    ensures UniqueKeys(Forget(es, key)) && !HasKey(Forget(es, key), key)
    ensures |Forget(es, key)| <= |es| && Bytes(Forget(es, key)) <= Bytes(es)
    ensures forall x :: x in Forget(es, key) <==> x in es && x.key != key
  {
    if HasKey(es, key) {
      var i := Find(es, key);
      hide Bytes, UniqueKeys, Find;
      BytesDrop(es, i);
      DropMembers(es, i);
      var d := Drop(es, i);
      hide Drop;
      forall k | 0 <= k < |d| ensures d[k].key != key {
        assert d[k] in d;
      }
    }
  }

  /** A prefix of what is left after forgetting a key is what is left of a prefix. */
  lemma PrefixForget(es: seq<Entry>, key: string, r: seq<Entry>)
    requires UniqueKeys(es) && r <= Forget(es, key)
    ensures exists k :: 0 <= k <= |es| && r == Forget(es[..k], key)
  {
    if HasKey(es, key) && |r| > Find(es, key) {
      var i, k := Find(es, key), |r| + 1;
      assert es[..k][i].key == key;
      assert HasKey(es[..k], key);
      assert Find(es[..k], key) == i;
      assert r == Drop(es[..k], i);
    } else {
      var k := |r|;
      assert r == es[..k];
      assert !HasKey(es[..k], key);
    }
  }

  /** An insert removes nothing but a suffix of the cold end and any replaced entry of its key; an
      admitted entry goes to the cold end; and both budgets hold afterwards. */
  lemma InsertKeepsPrefix(l: Limits, es: seq<Entry>, now: int, e: Entry)
    requires UniqueKeys(es) && Within(l, es)
    ensures var r := Inserted(l, es, now, e);
      && UniqueKeys(r) && Within(l, r)
      && (!Admits(l, now, e) ==> r == es)
      && (Admits(l, now, e) ==>
            exists k :: 0 <= k <= |es| && r == Forget(es[..k], e.key) + if Fits(l, e) then [e] else [])
  {
    if Admits(l, now, e) {
      var a := Purged(es, now, l.maxPurge, 0);
      PurgedSuffix(es, now, l.maxPurge, 0);
      BytesPrefix(a, es);
      var b := Forget(a, e.key);
      ForgetLess(a, e.key);
      assert a == es[..|a|];
      if Fits(l, e) {
        InsertFits(l, es, a, e);
      } else {
        assert Forget(es[..|a|], e.key) + [] == b;
      }
    }
  }

  lemma {:induction false} FitCountNeeded(es: seq<Entry>, capacity: nat)
    ensures var r := FitCount(es, capacity); r <= es && (r != es ==> |r| + 1 >= capacity)
    decreases |es|
  {
    if es != [] && |es| >= capacity { FitCountNeeded(Init(es), capacity); }
  }

  lemma {:induction false} FitBytesNeeded(es: seq<Entry>, maxBytes: nat, need: nat)
    ensures var r := FitBytes(es, maxBytes, need);
      && r <= es && (r != es ==> |r| < |es| && maxBytes != 0 && Bytes(es[..|r| + 1]) + need > maxBytes)
    decreases |es|
  {
    if es != [] && maxBytes != 0 && Bytes(es) + need > maxBytes {
      FitBytesNeeded(Init(es), maxBytes, need);
      var r := FitBytes(es, maxBytes, need);
      assert es[..|es|] == es;
      if r != Init(es) { assert Init(es)[..|r| + 1] == es[..|r| + 1]; }
    }
  }

  /** Nothing is evicted without need.  Where the cache is cut off after an insert, one entry more would
      have been expired, or one too many, or too large beside the new one. */
  lemma InsertEvictsForRoom(l: Limits, es: seq<Entry>, now: int, e: Entry)
    requires UniqueKeys(es) && Admits(l, now, e) && Fits(l, e)
    ensures exists a, d ::
      && 0 <= a <= |es| && (forall i :: a <= i < |es| ==> es[i].expiry <= now)
      && d <= Forget(es[..a], e.key) && Inserted(l, es, now, e) == d + [e]
      && (d != Forget(es[..a], e.key) ==>
            || |d| + 1 >= l.capacity
            || (l.maxBytes != 0 && Bytes(Forget(es[..a], e.key)[..|d| + 1]) + EntryBytes(e) > l.maxBytes))
  {
    hide Bytes, Forget, UniqueKeys, Purged, FitCount, FitBytes;
    var p := Purged(es, now, l.maxPurge, 0);
    PurgedSuffix(es, now, l.maxPurge, 0);
    assert p == es[..|p|];
    var b := Forget(p, e.key);
    FitCountNeeded(b, l.capacity);
    var c := FitCount(b, l.capacity);
    FitBytesNeeded(c, l.maxBytes, EntryBytes(e));
    var d := FitBytes(c, l.maxBytes, EntryBytes(e));
    if d != c { assert c[..|d| + 1] == b[..|d| + 1]; }
    assert Inserted(l, es, now, e) == d + [e];
  }

  /** The entry moves one step towards the hot end, past its neighbour; every other stays in place. */
  lemma SwappedPlaces(es: seq<Entry>, i: nat)
    requires 0 < i < |es|
    ensures var r := Swapped(es, i);
      |r| == |es| && r[i - 1] == es[i] && r[i] == es[i - 1]
      && forall k :: 0 <= k < |es| && k != i && k != i - 1 ==> r[k] == es[k]
  {
  }

  lemma InsertFits(l: Limits, es: seq<Entry>, a: seq<Entry>, e: Entry)
    requires UniqueKeys(es) && a <= es && l.capacity > 0 && Fits(l, e)
    ensures var r := FitBytes(FitCount(Forget(a, e.key), l.capacity), l.maxBytes, EntryBytes(e)) + [e];
      && UniqueKeys(r) && Within(l, r)
      && exists k :: 0 <= k <= |es| && r == Forget(es[..k], e.key) + [e]
  {
    hide FitCount, FitBytes, Forget, Bytes, UniqueKeys, HasKey;
    assert a == es[..|a|];
    PrefixUnique(es, |a|);
    ForgetLess(a, e.key);
    var b := Forget(a, e.key);
    FitCountFits(b, l.capacity);
    var c := FitCount(b, l.capacity);
    FitBytesFits(c, l.maxBytes, EntryBytes(e));
    var d := FitBytes(c, l.maxBytes, EntryBytes(e));
    assert d <= b;
    BytesAppend(d, [e]);
    BytesOne(e);
    PushUnique(b, d, e);
    ShorterPrefix(es, a, e.key, d);
    var k :| 0 <= k <= |es| && d == Forget(es[..k], e.key);
    assert d + [e] == Forget(es[..k], e.key) + [e];
  }

  lemma ShorterPrefix(es: seq<Entry>, a: seq<Entry>, key: string, d: seq<Entry>)
    requires UniqueKeys(a) && a <= es && d <= Forget(a, key)
    ensures exists k :: 0 <= k <= |es| && d == Forget(es[..k], key)
  {
    hide Forget, UniqueKeys;
    PrefixForget(a, key, d);
    var k :| 0 <= k <= |a| && d == Forget(a[..k], key);
    assert a[..k] == es[..k];
  }

  lemma BytesOne(e: Entry)
    ensures Bytes([e]) == EntryBytes(e)
  {
    assert [e][1..] == [];
  }

  lemma PushUnique(b: seq<Entry>, d: seq<Entry>, e: Entry)
    requires UniqueKeys(b) && d <= b && !HasKey(b, e.key)
    ensures UniqueKeys(d + [e])
  {
    forall i | 0 <= i < |d| ensures d[i].key != e.key {
      assert b[i] == d[i];
    }
  }

  lemma PrefixUnique(es: seq<Entry>, k: nat)
    requires UniqueKeys(es) && k <= |es|
    ensures UniqueKeys(es[..k])
  {
  }

  lemma BytesTwo(a: Entry, b: Entry, rest: seq<Entry>)
    ensures Bytes([a, b] + rest) == EntryBytes(a) + EntryBytes(b) + Bytes(rest)
  {
    assert ([a, b] + rest)[1..] == [b] + rest && ([b] + rest)[1..] == rest;
  }

  lemma SwapSplit(es: seq<Entry>, i: nat)
    requires 0 < i < |es|
    ensures es == es[..i - 1] + ([es[i - 1], es[i]] + es[i + 1..])
    ensures Swapped(es, i) == es[..i - 1] + ([es[i], es[i - 1]] + es[i + 1..])
  {
  }

  lemma SwapBytes(es: seq<Entry>, i: nat)
    requires 0 < i < |es|
    ensures Bytes(Swapped(es, i)) == Bytes(es)
  {
    hide Bytes, Swapped;
    var pre, a, b, post := es[..i - 1], es[i - 1], es[i], es[i + 1..];
    SwapSplit(es, i);
    BytesTwo(a, b, post);
    BytesTwo(b, a, post);
    BytesAppend(pre, [a, b] + post);
    BytesAppend(pre, [b, a] + post);
  }

  lemma SwapKeeps(es: seq<Entry>, i: nat)
    requires 0 < i < |es| && UniqueKeys(es)
    ensures UniqueKeys(Swapped(es, i)) && forall x :: x in Swapped(es, i) ==> x in es
  {
    var s := Swapped(es, i);
    assert forall k :: 0 <= k < |s| ==> s[k] == es[if k == i then i - 1 else if k == i - 1 then i else k];
  }

  /** A lookup never grows the cache; a hit is an adjacent swap and its entry is unexpired. */
  lemma LookupPromotes(l: Limits, es: seq<Entry>, now: int, key: string)
    requires UniqueKeys(es) && Within(l, es)
    ensures var r := Looked(es, now, key);
      && UniqueKeys(r) && Within(l, r) && (forall x :: x in r ==> x in es)
      && (Answer(es, now, key).Some? ==>
            exists i :: 0 <= i < |es| && es[i].key == key && es[i].value == Answer(es, now, key).value
                     && es[i].expiry > now && r == if i == 0 then es else Swapped(es, i))
      && (Answer(es, now, key).None? ==> r == Forget(es, key))
  {
    if HasKey(es, key) {
      ForgetLess(es, key);
      var i := Find(es, key);
      hide Bytes, HasKey, Find, UniqueKeys;
      if i > 0 {
        SwapBytes(es, i);
        SwapKeeps(es, i);
      }
    }
  }

  // ------------------------------------------------------------ whole runs

  datatype CacheOp = PutOp(e: Entry) | GetOp(key: string)

  /** The last insert of each key that was not refused as already expired. */
  function Latest(l: Limits, latest: map<string, Entry>, now: int, op: CacheOp): map<string, Entry> {
    if op.PutOp? && Admits(l, now, op.e) then latest[op.e.key := op.e] else latest
  }

  function Apply(l: Limits, es: seq<Entry>, now: int, op: CacheOp): seq<Entry> {
    match op
    case PutOp(e) => Inserted(l, es, now, e)
    case GetOp(key) => Looked(es, now, key)
  }

  function ApplyAll(l: Limits, ops: seq<(int, CacheOp)>): seq<Entry> {
    if ops == [] then []
    else
      var (now, op) := ops[|ops| - 1];
      Apply(l, ApplyAll(l, ops[..|ops| - 1]), now, op)
  }

  function LatestAll(l: Limits, ops: seq<(int, CacheOp)>): map<string, Entry> {
    if ops == [] then map[]
    else
      var (now, op) := ops[|ops| - 1];
      Latest(l, LatestAll(l, ops[..|ops| - 1]), now, op)
  }

  ghost predicate Current(es: seq<Entry>, latest: map<string, Entry>) {
    forall x :: x in es ==> x.key in latest && latest[x.key] == x
  }

  lemma PutCurrent(l: Limits, es: seq<Entry>, latest: map<string, Entry>, now: int, e: Entry)
    requires UniqueKeys(es) && Within(l, es) && Current(es, latest) && Admits(l, now, e)
    ensures Current(Inserted(l, es, now, e), latest[e.key := e])
  {
    hide Inserted, Within, Fits, Forget, UniqueKeys, Bytes, HasKey;
    InsertKeepsPrefix(l, es, now, e);
    var r := Inserted(l, es, now, e);
    var k :| 0 <= k <= |es| && r == Forget(es[..k], e.key) + if Fits(l, e) then [e] else [];
    PrefixUnique(es, k);
    ForgetLess(es[..k], e.key);
    assert forall x :: x in es[..k] ==> x in es;
  }

  lemma ApplyCurrent(l: Limits, es: seq<Entry>, latest: map<string, Entry>, now: int, op: CacheOp)
    requires UniqueKeys(es) && Within(l, es) && Current(es, latest)
    ensures var r := Apply(l, es, now, op); UniqueKeys(r) && Within(l, r) && Current(r, Latest(l, latest, now, op))
  {
    match op
    case PutOp(e) =>
      InsertKeepsPrefix(l, es, now, e);
      hide Inserted, Within, UniqueKeys, Admits, Fits, Current;
      if Admits(l, now, e) { PutCurrent(l, es, latest, now, e); }
    case GetOp(key) =>
      LookupPromotes(l, es, now, key);
      hide Looked, Within, UniqueKeys, Answer;
  }

  /** Over every run at any clock readings: keys are unique, both budgets hold, and every cached entry
      is the latest insert of its key, so a hit never returns a superseded value. */
  lemma {:induction false} CacheStaysCurrent(l: Limits, ops: seq<(int, CacheOp)>)
    ensures var es := ApplyAll(l, ops); UniqueKeys(es) && Within(l, es) && Current(es, LatestAll(l, ops))
    decreases |ops|
  {
    if ops != [] {
      CacheStaysCurrent(l, ops[..|ops| - 1]);
      var (now, op) := ops[|ops| - 1];
      ApplyCurrent(l, ApplyAll(l, ops[..|ops| - 1]), LatestAll(l, ops[..|ops| - 1]), now, op);
    }
  }

  // -------------------------------------------------------------- the object

  class Node {
    const key: string
    const value: string
    const expiry: int
    var prev: Node?
    var next: Node?

    constructor (key: string, value: string, expiry: int)
      ensures this.key == key && this.value == value && this.expiry == expiry && prev == null && next == null
    {
      this.key, this.value, this.expiry := key, value, expiry;
      prev, next := null, null;
    }

    function E(): Entry { Entry(key, value, expiry) }
  }

  function Entries(nodes: seq<Node>): (es: seq<Entry>)
    ensures |es| == |nodes| && forall i :: 0 <= i < |nodes| ==> es[i] == nodes[i].E()
  {
    seq(|nodes|, i requires 0 <= i < |nodes| => nodes[i].E())
  }

  function Cut(nodes: seq<Node>, i: nat): seq<Node>
    requires i < |nodes|
  {
    nodes[..i] + nodes[i + 1..]
  }

  /** The node at position `k`, or null beyond either end. */
  function At(nodes: seq<Node>, k: int): Node? {
    if 0 <= k < |nodes| then nodes[k] else null
  }

  lemma Apart(nodes: seq<Node>, i: nat)
    requires NoDup(nodes) && i < |nodes|
    ensures forall k :: 0 <= k < |nodes| && k != i ==> nodes[k] != nodes[i]
  {
  }

  lemma CutAt(nodes: seq<Node>, i: nat)
    requires NoDup(nodes) && i < |nodes|
    ensures NoDup(Cut(nodes, i)) && nodes[i] !in Cut(nodes, i) && |Cut(nodes, i)| == |nodes| - 1
  {
  }

  function Put(nodes: seq<Node>, j: nat, n: Node): seq<Node>
    requires j <= |nodes|
  {
    nodes[..j] + [n] + nodes[j..]
  }

  lemma PutAt(nodes: seq<Node>, j: nat, n: Node)
    requires NoDup(nodes) && j <= |nodes| && n !in nodes
    ensures NoDup(Put(nodes, j, n)) && |Put(nodes, j, n)| == |nodes| + 1
  {
  }

  /** Positions `i` and `i - 1` exchanged. */
  function Swapped<T>(s: seq<T>, i: nat): seq<T>
    requires 0 < i < |s|
  {
    s[..i - 1] + [s[i], s[i - 1]] + s[i + 1..]
  }

  lemma AtIn(nodes: seq<Node>, k: nat)
    requires k < |nodes|
    ensures At(nodes, k) == nodes[k]
  {
  }

  lemma CutAtK(nodes: seq<Node>, i: nat, k: int)
    requires i < |nodes| && k >= -1
    ensures At(Cut(nodes, i), k) == if k == -1 then null else At(nodes, if k < i then k else k + 1)
  {
  }

  lemma PutAtK(nodes: seq<Node>, j: nat, n: Node, k: int)
    requires j <= |nodes| && k >= -1
    ensures At(Put(nodes, j, n), k) ==
      if k == -1 then null else if k == j then n else At(nodes, if k < j then k else k - 1)
  {
  }

  class TokenCache {
    const capacity: nat
    const maxBytes: nat
    const maxPurge: nat
    var index: map<string, Node>
    var head: Node?
    var tail: Node?
    var bytes: nat
    ghost var nodes: seq<Node>

    ghost predicate Linked()
      reads this`head, this`tail, this`nodes, nodes
    {
      && NoDup(nodes)
      && head == At(nodes, 0) && tail == At(nodes, |nodes| - 1)
      && (forall i {:trigger nodes[i].prev} :: 0 <= i < |nodes| ==> nodes[i].prev == At(nodes, i - 1))
      && (forall i {:trigger nodes[i].next} :: 0 <= i < |nodes| ==> nodes[i].next == At(nodes, i + 1))
    }

    /** Take `n` out of the list (unlink). */
    method Unlink(n: Node, ghost i: nat)
      requires Linked() && i < |nodes| && nodes[i] == n
      modifies this`head, this`tail, this`nodes, nodes
      ensures Linked() && nodes == Cut(old(nodes), i) && n.prev == null && n.next == null
    {
      ghost var was := nodes;
      assert n.prev == At(was, i - 1) && n.next == At(was, i + 1);
      CutAt(was, i);
      Apart(was, i);
      if i > 0 { Apart(was, i - 1); }
      if i + 1 < |was| { Apart(was, i + 1); }
      hide NoDup, Cut;
      if n.prev != null {
        n.prev.next := n.next;
      } else {
        head := n.next;
      }
      if n.next != null {
        n.next.prev := n.prev;
      } else {
        tail := n.prev;
      }
      n.prev := null;
      n.next := null;
      assert Skips(i, was);
      nodes := Cut(was, i);
      Relinked(i, was);
    }

    /** The links around position `i` skip it; all others are as they were. */
    ghost predicate Skips(i: nat, was: seq<Node>)
      reads was
    {
      && i < |was|
      && (forall k {:trigger was[k].prev} :: 0 <= k < |was| && k != i && k != i + 1 ==> was[k].prev == At(was, k - 1))
      && (forall k {:trigger was[k].next} :: 0 <= k < |was| && k != i && k != i - 1 ==> was[k].next == At(was, k + 1))
      && (i + 1 < |was| ==> was[i + 1].prev == At(was, i - 1))
      && (i > 0 ==> was[i - 1].next == At(was, i + 1))
    }

    lemma RelinkedAt(i: nat, was: seq<Node>, k: nat)
      requires Skips(i, was) && k < |was| - 1 && |Cut(was, i)| == |was| - 1
      ensures Cut(was, i)[k].prev == At(Cut(was, i), k - 1) && Cut(was, i)[k].next == At(Cut(was, i), k + 1)
    {
      hide At, Cut;
      CutAtK(was, i, k);
      CutAtK(was, i, k - 1);
      CutAtK(was, i, k + 1);
      AtIn(Cut(was, i), k);
      AtIn(was, if k < i then k else k + 1);
      AtEnds(was);
    }

    /** The links after one node was taken out are the links of the shorter list. */
    lemma Relinked(i: nat, was: seq<Node>)
      requires NoDup(was) && Skips(i, was) && nodes == Cut(was, i)
      requires head == (if i == 0 then At(was, 1) else At(was, 0))
      requires tail == (if i + 1 == |was| then At(was, i - 1) else At(was, |was| - 1))
      ensures Linked()
    {
      CutAt(was, i);
      hide Cut, NoDup, At, Skips;
      CutAtK(was, i, 0);
      CutAtK(was, i, |was| - 2);
      AtEnds(was);
      forall k | 0 <= k < |nodes| ensures nodes[k].prev == At(nodes, k - 1) && nodes[k].next == At(nodes, k + 1) {
        RelinkedAt(i, was, k);
      }
    }

    static lemma AtEnds(was: seq<Node>)
      ensures At(was, -1) == null && At(was, |was|) == null
    {
    }

    /** Append `n` at the cold end (push_tail). */
    method PushTail(n: Node)
      requires Linked() && n !in nodes
      modifies this`head, this`tail, this`nodes, nodes, n
      ensures Linked() && nodes == old(nodes) + [n]
    {
      ghost var was := nodes;
      n.prev := tail;
      n.next := null;
      if tail != null {
        tail.next := n;
      } else {
        head := n;
      }
      tail := n;
      nodes := was + [n];
      forall k | 0 <= k < |nodes| ensures nodes[k].prev == At(nodes, k - 1) && nodes[k].next == At(nodes, k + 1) {
        assert k < |was| ==> nodes[k] == was[k];
      }
    }

    /** Put `n` immediately before `p`. */
    method InsertBefore(n: Node, p: Node, ghost j: nat)
      requires Linked() && n !in nodes && j < |nodes| && nodes[j] == p
      modifies this`head, this`nodes, nodes, n
      ensures Linked() && nodes == Put(old(nodes), j, n)
    {
      ghost var was := nodes;
      assert p.prev == At(was, j - 1);
      PutAt(was, j, n);
      Apart(was, j);
      if j > 0 { Apart(was, j - 1); }
      hide NoDup, Put;
      n.next := p;
      n.prev := p.prev;
      if p.prev != null {
        p.prev.next := n;
      } else {
        head := n;
      }
      p.prev := n;
      assert Takes(n, j, was);
      nodes := Put(was, j, n);
      Spliced(n, j, was);
    }

    /** The links around position `j` include `n` before it; all others are as they were. */
    ghost predicate Takes(n: Node, j: nat, was: seq<Node>)
      reads n, was
    {
      && j < |was|
      && (forall k {:trigger was[k].prev} :: 0 <= k < |was| && k != j ==> was[k].prev == At(was, k - 1))
      && (forall k {:trigger was[k].next} :: 0 <= k < |was| && k != j - 1 ==> was[k].next == At(was, k + 1))
      && was[j].prev == n && n.next == was[j] && n.prev == At(was, j - 1)
      && (j > 0 ==> was[j - 1].next == n)
    }

    lemma SplicedAt(n: Node, j: nat, was: seq<Node>, k: nat)
      requires Takes(n, j, was) && k <= |was| && |Put(was, j, n)| == |was| + 1
      ensures Put(was, j, n)[k].prev == At(Put(was, j, n), k - 1) && Put(was, j, n)[k].next == At(Put(was, j, n), k + 1)
    {
      hide At, Put;
      PutAtK(was, j, n, k);
      PutAtK(was, j, n, k - 1);
      PutAtK(was, j, n, k + 1);
      AtIn(Put(was, j, n), k);
      if k != j { AtIn(was, if k < j then k else k - 1); }
      AtIn(was, j);
      AtEnds(was);
    }

    lemma Spliced(n: Node, j: nat, was: seq<Node>)
      requires NoDup(was) && n !in was && Takes(n, j, was) && nodes == Put(was, j, n)
      requires head == (if j == 0 then n else At(was, 0)) && tail == At(was, |was| - 1)
      ensures Linked()
    {
      PutAt(was, j, n);
      hide Put, NoDup, At, Takes;
      PutAtK(was, j, n, 0);
      PutAtK(was, j, n, |was|);
      forall k | 0 <= k < |nodes| ensures nodes[k].prev == At(nodes, k - 1) && nodes[k].next == At(nodes, k + 1) {
        SplicedAt(n, j, was, k);
      }
    }

    /** Swap `n` with its predecessor (the promotion in lookup). */
    method Promote(n: Node, ghost i: nat)
      requires Linked() && 0 < i < |nodes| && nodes[i] == n
      modifies this`head, this`tail, this`nodes, nodes
      ensures Linked() && nodes == Swapped(old(nodes), i)
    {
      ghost var was := nodes;
      var p := n.prev;
      assert p == At(was, i - 1);
      CutAt(was, i);
      Unlink(n, i);
      InsertBefore(n, p, i - 1);
    }

    function L(): Limits { Limits(capacity, maxBytes, maxPurge) }

    /** The cached entries, hot end first. */
    ghost function Contents(): seq<Entry>
      reads this
    {
      Entries(nodes)
    }

    /** List and index hold the same nodes and the byte count is exact. */
    ghost predicate Coherent()
      reads this, nodes
    {
      Linked() && IndexOk(index, nodes) && bytes == Bytes(Contents())
    }

    ghost predicate Valid()
      reads this, nodes
    {
      Coherent() && UniqueKeys(Contents()) && Within(L(), Contents())
    }

    constructor (capacity: nat, maxBytes: nat, maxPurge: nat)
      ensures Valid() && Contents() == [] && L() == Limits(capacity, maxBytes, maxPurge) && nodes == []
    {
      this.capacity, this.maxBytes, this.maxPurge := capacity, maxBytes, maxPurge;
      index, head, tail, bytes, nodes := map[], null, null, 0, [];
    }

    /** Take a node out of the list and the index (erase). */
    method Erase(n: Node, ghost i: nat)
      requires Coherent() && i < |nodes| && nodes[i] == n
      modifies this, nodes
      ensures Coherent() && nodes == Cut(old(nodes), i) && Contents() == Drop(old(Contents()), i)
    {
      hide Bytes, Linked, IndexOk, Entries, Cut, Drop, NoDup;
      LinkedDistinct();
      CutEntries(nodes, i);
      IndexDrops(index, nodes, i);
      bytes := bytes - (|n.key| + |n.value|);
      Unlink(n, i);
      index := index - {n.key};
    }

    lemma LinkedDistinct()
      requires Linked()
      ensures NoDup(nodes)
    {
    }

    /** The tail node is the last one listed, with the last entry. */
    lemma TailIs()
      requires Linked()
      ensures tail == null <==> nodes == []
      ensures tail != null ==> nodes[|nodes| - 1] == tail && Contents() != [] && Last(Contents()) == tail.E()
    {
    }

    /** Erase the tail node. */
    method EraseTail()
      requires Coherent() && tail != null
      modifies this, nodes
      ensures Coherent() && old(Contents()) != [] && Contents() == Init(old(Contents()))
      ensures nodes <= old(nodes) && |nodes| == |old(nodes)| - 1
    {
      TailIs();
      InitIs(nodes);
      hide Bytes, Linked, IndexOk, Entries, Cut, Drop, Init;
      Erase(tail, |nodes| - 1);
    }

    /** Drop expired entries from the cold end (purge_expired_tail). */
    method PurgeExpiredTail(now: int)
      requires Coherent()
      modifies this, nodes
      ensures Coherent() && Contents() == Purged(old(Contents()), now, maxPurge, 0) && nodes <= old(nodes)
    {
      hide Bytes, Linked, IndexOk, Entries;
      var purged := 0;
      TailIs();
      while tail != null && now >= tail.expiry
        invariant Coherent() && nodes <= old(nodes)
        invariant tail == null <==> nodes == []
        invariant tail != null ==> Contents() != [] && Last(Contents()) == tail.E()
        invariant nodes == [] ==> Contents() == []
        invariant Purged(Contents(), now, maxPurge, purged) == Purged(old(Contents()), now, maxPurge, 0)
        decreases |nodes|
      {
        EraseTail();
        TailIs();
        purged := purged + 1;
        if maxPurge != 0 && purged >= maxPurge {
          break;
        }
      }
    }

    /** Evict from the cold end until the new entry fits both budgets. */
    method MakeRoom(need: nat)
      requires Coherent()
      modifies this, nodes
      ensures Coherent() && nodes <= old(nodes)
      ensures Contents() == FitBytes(FitCount(old(Contents()), capacity), maxBytes, need)
    {
      hide Bytes, Linked, IndexOk, Entries;
      TailIs();
      IndexSize();
      while tail != null && |index| >= capacity
        invariant Coherent() && nodes <= old(nodes) && |index| == |Contents()|
        invariant (tail == null <==> nodes == []) && (nodes == [] <==> Contents() == [])
        invariant FitCount(Contents(), capacity) == FitCount(old(Contents()), capacity)
        decreases |nodes|
      {
        EraseTail();
        TailIs();
        IndexSize();
      }
      ghost var mid := Contents();
      assert mid == FitCount(old(Contents()), capacity);
      while tail != null && maxBytes != 0 && bytes + need > maxBytes
        invariant Coherent() && nodes <= old(nodes)
        invariant (tail == null <==> nodes == []) && (nodes == [] <==> Contents() == [])
        invariant FitBytes(Contents(), maxBytes, need) == FitBytes(mid, maxBytes, need)
        decreases |nodes|
      {
        EraseTail();
        TailIs();
        IndexSize();
      }
    }

    lemma IndexSize()
      requires IndexOk(index, nodes)
      ensures |index| == |Contents()| && (nodes == [] <==> Contents() == [])
    {
    }

    /** Erase the entry of `key`, if there is one. */
    method EraseKey(key: string)
      requires Coherent() && UniqueKeys(Contents())
      modifies this, nodes
      ensures Coherent() && Contents() == Forget(old(Contents()), key)
      ensures forall n :: n in nodes ==> n in old(nodes)
    {
      KeyIndexed(key);
      hide Bytes, Linked, Entries, UniqueKeys;
      if key in index {
        ghost var i := Find(Contents(), key);
        CutWithin(nodes, i);
        Erase(index[key], i);
      }
    }

    /** The index finds exactly the listed key. */
    lemma KeyIndexed(key: string)
      requires IndexOk(index, nodes) && UniqueKeys(Contents())
      ensures key in index <==> HasKey(Contents(), key)
      ensures key in index ==> Find(Contents(), key) < |nodes| && nodes[Find(Contents(), key)] == index[key]
    {
      if key in index {
        var i :| 0 <= i < |nodes| && nodes[i] == index[key];
        assert Contents()[i].key == key;
      }
    }

    /** Link and index a new node at the cold end. */
    method Admit(e: Entry)
      requires Coherent() && !HasKey(Contents(), e.key)
      modifies this, nodes
      ensures Coherent() && Contents() == old(Contents()) + [e]
      ensures forall n :: n in nodes ==> n in old(nodes) || fresh(n)
    {
      hide Bytes, Linked, Entries, IndexOk, HasKey;
      var node := new Node(e.key, e.value, e.expiry);
      PushEntries(nodes, node);
      IndexGrows(index, nodes, node);
      index := index[e.key := node];
      bytes := bytes + |e.key| + |e.value|;
      PushTail(node);
    }

    /** Reclaim dead entries, then drop any entry of `key`. */
    method PurgeAndForget(key: string, now: int)
      requires Coherent() && UniqueKeys(Purged(Contents(), now, maxPurge, 0))
      modifies this, nodes
      ensures Coherent() && Contents() == Forget(Purged(old(Contents()), now, maxPurge, 0), key)
      ensures forall n :: n in nodes ==> n in old(nodes)
    {
      hide Coherent, Contents, UniqueKeys, Forget, Purged;
      PurgeExpiredTail(now);
      assert forall n :: n in nodes ==> n in old(nodes);
      EraseKey(key);
    }

    /** Insert or replace an entry (insert). */
    method Insert(key: string, value: string, expiry: int, now: int)
      requires Valid()
      modifies this, nodes
      ensures Valid() && Contents() == Inserted(L(), old(Contents()), now, Entry(key, value, expiry))
      ensures forall n :: n in nodes ==> n in old(nodes) || fresh(n)
    {
      hide Coherent, Contents, UniqueKeys, Within, HasKey, Forget, Purged, FitBytes, FitCount;
      InsertKeepsPrefix(L(), Contents(), now, Entry(key, value, expiry));
      PurgeForget(L(), Contents(), now, Entry(key, value, expiry));
      if capacity == 0 || expiry <= now {
        return;
      }
      PurgeAndForget(key, now);
      var need := |key| + |value|;
      if maxBytes != 0 && need > maxBytes {
        return;
      }
      ghost var before := nodes;
      assert forall i :: 0 <= i < |nodes| ==> nodes[i] in nodes;
      MakeRoom(need);
      assert forall n :: n in nodes ==> n in before;
      Admit(Entry(key, value, expiry));
    }

    /** A live entry's value, promoted one step toward the hot end (lookup). */
    method Lookup(key: string, now: int) returns (r: Option<string>)
      requires Valid()
      modifies this, nodes
      ensures Valid() && Contents() == Looked(old(Contents()), now, key) && r == Answer(old(Contents()), now, key)
      ensures forall n :: n in nodes ==> n in old(nodes)
    {
      hide Coherent, Contents, UniqueKeys, Within, HasKey, Find, Forget;
      LookupPromotes(L(), Contents(), now, key);
      Located(key);
      if key !in index {
        return None;
      }
      var n := index[key];
      ghost var i := Find(Contents(), key);
      if now >= n.expiry {
        CutWithin(nodes, i);
        hide Cut;
        Erase(n, i);
        return None;
      }
      if n.prev != null {
        PromoteEntry(n, i);
      }
      r := Some(n.value);
    }

    /** Where the entry of `key` sits, if there is one. */
    lemma Located(key: string)
      requires Coherent() && UniqueKeys(Contents())
      ensures key in index <==> HasKey(Contents(), key)
      ensures key in index ==>
        var i := Find(Contents(), key);
        && i < |nodes| == |Contents()| && nodes[i] == index[key] && Contents()[i] == nodes[i].E()
        && (nodes[i].prev == null <==> i == 0)
    {
      KeyIndexed(key);
      if key in index {
        PrevIs(Find(Contents(), key));
      }
    }

    /** A hit swaps its node with the predecessor. */
    method PromoteEntry(n: Node, ghost i: nat)
      requires Coherent() && 0 < i < |nodes| && nodes[i] == n
      modifies this`head, this`tail, this`nodes, nodes
      ensures Coherent() && |old(Contents())| == |old(nodes)| && Contents() == Swapped(old(Contents()), i)
      ensures forall x :: x in nodes ==> x in old(nodes)
    {
      hide Bytes, Linked, IndexOk, Swapped;
      SwapEntries(index, nodes, i);
      Promote(n, i);
    }

    lemma PrevIs(i: nat)
      requires Linked() && i < |nodes|
      ensures nodes[i].prev == null <==> i == 0
    {
      assert nodes[i].prev == At(nodes, i - 1);
    }
  }

  /** The index holds exactly the listed nodes, each under its key. */
  ghost predicate IndexOk(index: map<string, Node>, nodes: seq<Node>) {
    && |index| == |nodes|
    && (forall k :: k in index ==> index[k] in nodes && index[k].key == k)
    && (forall i :: 0 <= i < |nodes| ==> nodes[i].key in index && index[nodes[i].key] == nodes[i])
  }

  lemma IndexDrops(index: map<string, Node>, nodes: seq<Node>, i: nat)
    requires IndexOk(index, nodes) && NoDup(nodes) && i < |nodes|
    ensures IndexOk(index - {nodes[i].key}, Cut(nodes, i))
  {
    DropKey(index, nodes[i].key);
    var cut := Cut(nodes, i);
    forall k | 0 <= k < |cut| ensures cut[k].key != nodes[i].key && cut[k].key in index && index[cut[k].key] == cut[k] {
      assert cut[k] == nodes[if k < i then k else k + 1];
    }
    forall k | k in index && k != nodes[i].key ensures index[k] in cut {
      var j :| 0 <= j < |nodes| && nodes[j] == index[k];
      assert cut[if j < i then j else j - 1] == index[k];
    }
  }

  lemma InitIs(nodes: seq<Node>)
    requires nodes != []
    ensures Cut(nodes, |nodes| - 1) == nodes[..|nodes| - 1] && Drop(Entries(nodes), |nodes| - 1) == Init(Entries(nodes))
  {
  }

  lemma CutWithin(nodes: seq<Node>, i: nat)
    requires i < |nodes|
    ensures forall n :: n in Cut(nodes, i) ==> n in nodes
  {
  }

  lemma PushEntries(nodes: seq<Node>, n: Node)
    ensures Entries(nodes + [n]) == Entries(nodes) + [n.E()]
    ensures Bytes(Entries(nodes) + [n.E()]) == Bytes(Entries(nodes)) + |n.key| + |n.value|
  {
    BytesAppend(Entries(nodes), [n.E()]);
    assert [n.E()][1..] == [];
  }

  lemma IndexGrows(index: map<string, Node>, nodes: seq<Node>, n: Node)
    requires IndexOk(index, nodes) && !HasKey(Entries(nodes), n.key)
    ensures IndexOk(index[n.key := n], nodes + [n])
  {
    forall i | 0 <= i < |nodes| ensures nodes[i].key != n.key {
      assert Entries(nodes)[i].key == nodes[i].key;
    }
    assert n.key !in index;
    assert index[n.key := n].Keys == index.Keys + {n.key};
  }

  lemma SwappedAt<T>(s: seq<T>, i: nat)
    requires 0 < i < |s|
    ensures |Swapped(s, i)| == |s|
    ensures forall k :: 0 <= k < |s| ==> Swapped(s, i)[k] == s[if k == i then i - 1 else if k == i - 1 then i else k]
  {
  }

  lemma SwapMembers(nodes: seq<Node>, i: nat)
    requires 0 < i < |nodes|
    ensures forall n :: n in Swapped(nodes, i) <==> n in nodes
  {
    SwappedAt(nodes, i);
    var s := Swapped(nodes, i);
    hide Swapped;
    forall n | n in nodes ensures n in s {
      var k :| 0 <= k < |nodes| && nodes[k] == n;
      assert s[if k == i then i - 1 else if k == i - 1 then i else k] == n;
    }
  }

  lemma SwapIndexed(index: map<string, Node>, nodes: seq<Node>, i: nat)
    requires 0 < i < |nodes| && IndexOk(index, nodes)
    ensures IndexOk(index, Swapped(nodes, i))
  {
    SwappedAt(nodes, i);
    SwapMembers(nodes, i);
    hide Swapped;
  }

  lemma SwapEntries(index: map<string, Node>, nodes: seq<Node>, i: nat)
    requires 0 < i < |nodes| && IndexOk(index, nodes)
    ensures Entries(Swapped(nodes, i)) == Swapped(Entries(nodes), i) && IndexOk(index, Swapped(nodes, i))
    ensures Bytes(Swapped(Entries(nodes), i)) == Bytes(Entries(nodes))
    ensures forall n :: n in Swapped(nodes, i) ==> n in nodes
  {
    hide Bytes, IndexOk, Swapped;
    SwapBytes(Entries(nodes), i);
    SwapIndexed(index, nodes, i);
    SwapMembers(nodes, i);
    SwappedAt(nodes, i);
    SwappedAt(Entries(nodes), i);
  }

  /** The intermediate lists of an insert keep unique keys, and the new key is gone from them. */
  lemma PurgeForget(l: Limits, es: seq<Entry>, now: int, e: Entry)
    requires UniqueKeys(es)
    ensures var a := Purged(es, now, l.maxPurge, 0);
      var b := Forget(a, e.key);
      && UniqueKeys(a)
      && (l.capacity > 0 && Fits(l, e) ==> !HasKey(FitBytes(FitCount(b, l.capacity), l.maxBytes, EntryBytes(e)), e.key))
  {
    PurgedSuffix(es, now, l.maxPurge, 0);
    var a := Purged(es, now, l.maxPurge, 0);
    ForgetLess(a, e.key);
    var b := Forget(a, e.key);
    if l.capacity > 0 && Fits(l, e) {
      FitCountFits(b, l.capacity);
      FitBytesFits(FitCount(b, l.capacity), l.maxBytes, EntryBytes(e));
      var d := FitBytes(FitCount(b, l.capacity), l.maxBytes, EntryBytes(e));
      hide FitBytes, FitCount, Forget, Purged;
      assert d <= b;
    }
  }

  lemma CutEntries(nodes: seq<Node>, i: nat)
    requires i < |nodes|
    ensures Entries(Cut(nodes, i)) == Drop(Entries(nodes), i)
    ensures Bytes(Drop(Entries(nodes), i)) == Bytes(Entries(nodes)) - (|nodes[i].key| + |nodes[i].value|)
  {
    BytesDrop(Entries(nodes), i);
  }

  lemma DropKey(index: map<string, Node>, key: string)
    requires key in index
    ensures |index - {key}| == |index| - 1
  {
    assert (index - {key}).Keys == index.Keys - {key};
  }
}
