/** The single-flight credential resolver as a state machine (src/auth/auth_client.cc): two caches, a
    pool of helpers with a bounded number of requests each, and coalesced waiters. */
module Auth {
  import opened OrderTypes
  import opened TokenCaches

  type Callback = nat

  /** A callback that has been called, with its answer. */
  datatype Fired = Fired(cb: Callback, credential: string, ok: bool, user: string)

  /** A helper's reply; `Broken` is a transport failure or timeout. */
  datatype Reply = Broken | Message(status: Option<string>, user: Option<string>, notAfter: Option<string>)

  datatype Config = Config(depth: nat, positive: Limits, negative: Limits, positiveTtl: int, negativeTtl: int)

  /** `flying`: the helper each outstanding request was sent to; `seen`: every callback handed in. */
  datatype Resolver = Resolver(
    cfg: Config,
    pos: seq<Entry>,
    neg: seq<Entry>,
    inflight: seq<nat>,
    cursor: nat,
    waiters: map<string, seq<Callback>>,
    queue: seq<string>,
    flying: map<string, nat>,
    fired: seq<Fired>,
    seen: set<Callback>)

  function Idle(cfg: Config, helpers: nat): (s: Resolver)
    ensures Sound(s) && Saturated(s)
  {
    NoFlights();
    Resolver(cfg, [], [], seq(if helpers == 0 then 1 else helpers, i => 0), 0, map[], [], map[], [], {})
  }

  // ------------------------------------------------------------ the helpers

  /** The j-th helper from the cursor, going round. */
  function Turn(n: nat, cursor: nat, j: nat): (i: nat)
    requires n > 0
    ensures i < n
  {
    (cursor + j) % n
  }

  /** The first helper with a free slot, in round-robin order from the cursor (free_helper). */
  function Seek(inflight: seq<nat>, depth: nat, cursor: nat, k: nat): Option<nat>
    requires inflight != []
    decreases |inflight| - k
  {
    if k >= |inflight| then None
    else if inflight[Turn(|inflight|, cursor, k)] < depth then Some(Turn(|inflight|, cursor, k))
    else Seek(inflight, depth, cursor, k + 1)
  }

  lemma {:induction false} SeekFinds(inflight: seq<nat>, depth: nat, cursor: nat, k: nat)
    requires inflight != []
    ensures var r := Seek(inflight, depth, cursor, k);
      && (r.Some? ==> r.value < |inflight| && inflight[r.value] < depth)
      && (r.None? ==> forall j :: k <= j < |inflight| ==> inflight[Turn(|inflight|, cursor, j)] >= depth)
    decreases |inflight| - k
  {
    hide Turn;
    if k < |inflight| && inflight[Turn(|inflight|, cursor, k)] >= depth {
      SeekFinds(inflight, depth, cursor, k + 1);
    }
  }

  /** The helper `j` turns from the cursor has a free slot, and none from turn `k` on before it does. */
  ghost predicate FirstFree(inflight: seq<nat>, depth: nat, cursor: nat, k: nat, j: nat)
    requires inflight != []
  {
    && k <= j < |inflight| && inflight[Turn(|inflight|, cursor, j)] < depth
    && forall x :: k <= x < j ==> inflight[Turn(|inflight|, cursor, x)] >= depth
  }

  /** The helper found is the first one with a free slot, going round from the cursor. */
  lemma {:induction false} SeekFirst(inflight: seq<nat>, depth: nat, cursor: nat, k: nat) returns (j: nat)
    requires inflight != [] && Seek(inflight, depth, cursor, k).Some?
    ensures FirstFree(inflight, depth, cursor, k, j)
    ensures Seek(inflight, depth, cursor, k).value == Turn(|inflight|, cursor, j)
    decreases |inflight| - k
  {
    hide Turn;
    if inflight[Turn(|inflight|, cursor, k)] < depth {
      j := k;
    } else {
      j := SeekFirst(inflight, depth, cursor, k + 1);
    }
  }

  lemma Around(n: nat, cursor: nat, i: nat) returns (j: nat)
    requires i < n && cursor < n
    ensures j < n && Turn(n, cursor, j) == i
  {
    j := if i >= cursor then i - cursor else i + n - cursor;
    if i < cursor {
      assert cursor + j == 1 * n + i;
    }
  }

  /** No free slot is found exactly when every helper is full. */
  lemma SeekComplete(inflight: seq<nat>, depth: nat, cursor: nat)
    requires inflight != [] && cursor < |inflight|
    ensures Seek(inflight, depth, cursor, 0).None? <==> forall i :: 0 <= i < |inflight| ==> inflight[i] >= depth
    ensures Seek(inflight, depth, cursor, 0).Some? ==>
      var i := Seek(inflight, depth, cursor, 0).value; i < |inflight| && inflight[i] < depth
  {
    hide Turn, Seek;
    SeekFinds(inflight, depth, cursor, 0);
    if Seek(inflight, depth, cursor, 0).None? {
      forall i | 0 <= i < |inflight| ensures inflight[i] >= depth {
        var j := Around(|inflight|, cursor, i);
      }
    }
  }

  // --------------------------------------------------------------- the steps

  /** Send a request for `c` to helper `i` (dispatch). */
  function Dispatched(s: Resolver, i: nat, c: string): Resolver
    requires i < |s.inflight|
  {
    s.(inflight := s.inflight[i := s.inflight[i] + 1], flying := s.flying[c := i], cursor := (i + 1) % |s.inflight|)
  }

  /** Send `c` to a free helper, or queue it. */
  function Placed(s: Resolver, c: string): Resolver
    requires s.inflight != [] && s.cursor < |s.inflight|
  {
    SeekComplete(s.inflight, s.cfg.depth, s.cursor);
    var i := Seek(s.inflight, s.cfg.depth, s.cursor, 0);
    if i.None? then s.(queue := s.queue + [c]) else Dispatched(s, i.value, c)
  }

  /** resolve: answer from a cache, join the waiters of the credential, or start a request. */
  function Resolved(s: Resolver, c: string, cb: Callback, now: int): Resolver
    requires s.inflight != [] && s.cursor < |s.inflight|
  {
    var s0 := s.(seen := s.seen + {cb}, pos := Looked(s.pos, now, c));
    var hit := Answer(s.pos, now, c);
    if hit.Some? then s0.(fired := s.fired + [Fired(cb, c, true, hit.value)])
    else
      var s1 := s0.(neg := Looked(s.neg, now, c));
      if Answer(s.neg, now, c).Some? then s1.(fired := s.fired + [Fired(cb, c, false, "")])
      else if c in s.waiters then s1.(waiters := s.waiters[c := s.waiters[c] + [cb]])
      else Placed(s1.(waiters := s.waiters[c := [cb]]), c)
  }

  predicate IsHex(c: char) {
    '0' <= c <= '9' || 'a' <= c <= 'f' || 'A' <= c <= 'F'
  }

  /** Eight, four, four, four and twelve hexadecimal digits separated by dashes. */
  predicate IsUuid(s: string) {
    && |s| == 36
    && forall i :: 0 <= i < 36 ==> if i == 8 || i == 13 || i == 18 || i == 23 then s[i] == '-' else IsHex(s[i])
  }

  /** A decimal number of nanoseconds. */
  function ParseNanos(s: string): Option<nat>
    decreases |s|
  {
    if s == [] then None
    else
      var d := s[|s| - 1];
      if !('0' <= d <= '9') then None
      else if |s| == 1 then Some(d as int - '0' as int)
      else
        var rest := ParseNanos(s[..|s| - 1]);
        if rest.None? then None else Some(10 * rest.value + (d as int - '0' as int))
  }

  /** Any other character makes the text unreadable. */
  lemma {:induction false} BadDigit(s: string, i: nat)
    requires i < |s| && !('0' <= s[i] <= '9')
    ensures ParseNanos(s) == None
    decreases |s|
  {
    if i < |s| - 1 {
      BadDigit(s[..|s| - 1], i);
    }
  }

  predicate Allows(r: Reply) {
    r.Message? && r.status == Some("ok") && r.user.Some? && IsUuid(r.user.value)
  }

  /** A positive entry lives until the helper's limit, capped by the configured lifetime. */
  function PositiveExpiry(cfg: Config, r: Reply, now: int): int
    requires r.Message?
  {
    var cap := now + cfg.positiveTtl;
    if r.notAfter.Some? && ParseNanos(r.notAfter.value).Some? then Min(cap, ParseNanos(r.notAfter.value).value) else cap
  }

  /** What a reply leaves in the caches: nothing if the transport failed. */
  function Remembered(s: Resolver, c: string, r: Reply, now: int): Resolver {
    if r.Broken? then s
    else if Allows(r) then
      s.(pos := Inserted(s.cfg.positive, s.pos, now, Entry(c, r.user.value, PositiveExpiry(s.cfg, r, now))))
    else s.(neg := Inserted(s.cfg.negative, s.neg, now, Entry(c, "", now + s.cfg.negativeTtl)))
  }

  function FireAll(cbs: seq<Callback>, c: string, ok: bool, user: string): (r: seq<Fired>)
    ensures |r| == |cbs| && forall i :: 0 <= i < |cbs| ==> r[i] == Fired(cbs[i], c, ok, user)
  {
    seq(|cbs|, i requires 0 <= i < |cbs| => Fired(cbs[i], c, ok, user))
  }

  /** Every waiter on `c` is answered and forgotten (fan_out). */
  function FannedOut(s: Resolver, c: string, ok: bool, user: string): Resolver {
    if c !in s.waiters then s
    else s.(waiters := s.waiters - {c}, fired := s.fired + FireAll(s.waiters[c], c, ok, user))
  }

  /** Start queued credentials while helper slots are free (drain_pending). */
  function Drained(s: Resolver): Resolver
    requires s.inflight != [] && s.cursor < |s.inflight|
    decreases |s.queue|
  {
    SeekComplete(s.inflight, s.cfg.depth, s.cursor);
    var i := Seek(s.inflight, s.cfg.depth, s.cursor, 0);
    if s.queue == [] || i.None? then s
    else Drained(Dispatched(s.(queue := s.queue[1..]), i.value, s.queue[0]))
  }

  /** A helper replies about an outstanding credential (on_response). */
  function Responded(s: Resolver, c: string, r: Reply, now: int): Resolver
    requires c in s.flying && s.flying[c] < |s.inflight| && s.cursor < |s.inflight| && s.inflight[s.flying[c]] > 0
  {
    var i := s.flying[c];
    var s1 := s.(inflight := s.inflight[i := s.inflight[i] - 1], flying := s.flying - {c});
    var s2 := Remembered(s1, c, r, now);
    Drained(FannedOut(s2, c, Allows(r), if Allows(r) then r.user.value else ""))
  }

  // -------------------------------------------------------------- invariant

  /** Every waiting credential is queued once or in flight once, and not both. */
  ghost predicate Tracked(s: Resolver) {
    && NoDup(s.queue)
    && (forall c :: c in s.queue ==> c in s.waiters && c !in s.flying)
    && (forall c :: c in s.flying ==> c in s.waiters && s.flying[c] < |s.inflight|)
    && (forall c :: c in s.waiters ==> s.waiters[c] != [] && (c in s.queue || c in s.flying))
  }

  ghost function Flights(flying: map<string, nat>, i: nat): set<string> {
    set c | c in flying && flying[c] == i
  }

  /** Each helper's counter is its number of outstanding requests, within its depth. */
  ghost predicate Counted(s: Resolver) {
    && s.inflight != [] && s.cursor < |s.inflight|
    && (forall i :: 0 <= i < |s.inflight| ==> s.inflight[i] == |Flights(s.flying, i)| <= s.cfg.depth)
  }

  ghost predicate AllBusy(s: Resolver) {
    forall i :: 0 <= i < |s.inflight| ==> s.inflight[i] >= s.cfg.depth
  }

  /** Nothing waits in the queue while a helper has a free slot. */
  ghost predicate Saturated(s: Resolver) {
    s.queue != [] ==> AllBusy(s)
  }

  /** A waiting credential is in neither cache, and no credential is in both. */
  ghost predicate CachesApart(s: Resolver) {
    && (forall c :: c in s.waiters ==> !HasKey(s.pos, c) && !HasKey(s.neg, c))
    && (forall c :: !(HasKey(s.pos, c) && HasKey(s.neg, c)))
  }

  ghost predicate CachesOk(s: Resolver) {
    && UniqueKeys(s.pos) && Within(s.cfg.positive, s.pos)
    && UniqueKeys(s.neg) && Within(s.cfg.negative, s.neg)
  }

  /** Callbacks fire at most once: those fired are distinct, those waiting are distinct and unfired. */
  ghost predicate CallbacksOk(s: Resolver) {
    && (forall i, j :: 0 <= i < j < |s.fired| ==> s.fired[i].cb != s.fired[j].cb)
    && (forall i :: 0 <= i < |s.fired| ==> s.fired[i].cb in s.seen)
    && (forall c, i :: c in s.waiters && 0 <= i < |s.waiters[c]| ==> Waits(s, s.waiters[c][i]))
    && (forall c, i, d, j ::
          (c in s.waiters && d in s.waiters && 0 <= i < |s.waiters[c]| && 0 <= j < |s.waiters[d]| && (c != d || i != j)
          ==> s.waiters[c][i] != s.waiters[d][j]))
  }

  ghost predicate Waits(s: Resolver, cb: Callback) {
    cb in s.seen && forall i :: 0 <= i < |s.fired| ==> s.fired[i].cb != cb
  }

  ghost predicate Sound(s: Resolver) {
    Tracked(s) && Counted(s) && CachesApart(s) && CachesOk(s) && CallbacksOk(s)
  }

  /** There is a helper pool and the cursor points into it. */
  predicate Live(s: Resolver) {
    s.inflight != [] && s.cursor < |s.inflight|
  }

  lemma SoundLive(s: Resolver)
    requires Sound(s)
    ensures Live(s)
  {
  }

  lemma NoFlights()
    ensures forall i :: Flights(map[], i) == {}
  {
  }

  // ---------------------------------------------------------------- lemmas

  lemma FlightsAdd(flying: map<string, nat>, c: string, i: nat, k: nat)
    requires c !in flying
    ensures |Flights(flying[c := i], k)| == |Flights(flying, k)| + if k == i then 1 else 0
  {
    if k == i {
      assert Flights(flying[c := i], k) == Flights(flying, k) + {c};
    } else {
      assert Flights(flying[c := i], k) == Flights(flying, k);
    }
  }

  lemma FlightsDrop(flying: map<string, nat>, c: string, k: nat)
    requires c in flying
    ensures |Flights(flying - {c}, k)| == |Flights(flying, k)| - if k == flying[c] then 1 else 0
  {
    if k == flying[c] {
      assert Flights(flying, k) == Flights(flying - {c}, k) + {c};
    } else {
      assert Flights(flying - {c}, k) == Flights(flying, k);
    }
  }

  lemma DispatchCounted(s: Resolver, i: nat, c: string)
    requires Counted(s) && i < |s.inflight| && s.inflight[i] < s.cfg.depth && c !in s.flying
    ensures Counted(Dispatched(s, i, c))
  {
    var s' := Dispatched(s, i, c);
    hide Flights;
    forall k | 0 <= k < |s'.inflight| ensures s'.inflight[k] == |Flights(s'.flying, k)| <= s.cfg.depth {
      FlightsAdd(s.flying, c, i, k);
    }
  }

  /** A new credential starts: the invariant but for its own tracking, then with it. */
  lemma PlacedSound(s: Resolver, c: string)
    requires Tracked(s.(waiters := s.waiters - {c})) && c in s.waiters && s.waiters[c] != []
    requires c !in s.queue && c !in s.flying && Saturated(s)
    requires Counted(s) && CachesApart(s) && CachesOk(s) && CallbacksOk(s)
    ensures Sound(Placed(s, c)) && Saturated(Placed(s, c))
  {
    hide Tracked, CachesOk, CachesApart, CallbacksOk, Seek, Flights;
    SeekComplete(s.inflight, s.cfg.depth, s.cursor);
    var i := Seek(s.inflight, s.cfg.depth, s.cursor, 0);
    if i.Some? {
      DispatchCounted(s, i.value, c);
      DispatchTracked(s, i.value, c);
    } else {
      QueueTracked(s, c);
    }
    PlacedCaches(s, c);
  }

  lemma DispatchTracked(s: Resolver, i: nat, c: string)
    requires Tracked(s.(waiters := s.waiters - {c})) && c in s.waiters && s.waiters[c] != []
    requires c !in s.queue && i < |s.inflight|
    ensures Tracked(Dispatched(s, i, c))
  {
    assert forall x :: x in s.waiters && x != c ==> x in s.waiters - {c} && (s.waiters - {c})[x] == s.waiters[x];
  }

  lemma QueueTracked(s: Resolver, c: string)
    requires Tracked(s.(waiters := s.waiters - {c})) && c in s.waiters && s.waiters[c] != []
    requires c !in s.queue && c !in s.flying
    ensures Tracked(s.(queue := s.queue + [c]))
  {
    var q := s.queue + [c];
    assert forall x :: x in q <==> x in s.queue || x == c;
    assert forall x :: x in s.waiters && x != c ==> x in s.waiters - {c} && (s.waiters - {c})[x] == s.waiters[x];
    forall i, j | 0 <= i < j < |q| ensures q[i] != q[j] {
      assert q[i] in s.queue;
    }
  }

  lemma PlacedCaches(s: Resolver, c: string)
    requires s.inflight != [] && s.cursor < |s.inflight| && CachesOk(s) && CachesApart(s) && CallbacksOk(s)
    ensures CachesOk(Placed(s, c)) && CachesApart(Placed(s, c)) && CallbacksOk(Placed(s, c))
  {
    hide UniqueKeys, Within, HasKey;
  }

  lemma LookedKeys(l: Limits, es: seq<Entry>, now: int, c: string)
    requires UniqueKeys(es) && Within(l, es)
    ensures var r := Looked(es, now, c);
      && UniqueKeys(r) && Within(l, r)
      && (forall k :: HasKey(r, k) ==> HasKey(es, k))
      && (Answer(es, now, c).None? ==> !HasKey(r, c))
  {
    LookupPromotes(l, es, now, c);
    ForgetLess(es, c);
    hide Looked, Within, UniqueKeys, Forget, Answer;
    var r := Looked(es, now, c);
    forall k | HasKey(r, k) ensures HasKey(es, k) {
      var i :| 0 <= i < |r| && r[i].key == k;
      assert r[i] in r && r[i] in es;
    }
  }

  lemma InsertedKeys(l: Limits, es: seq<Entry>, now: int, e: Entry)
    requires UniqueKeys(es) && Within(l, es)
    ensures var r := Inserted(l, es, now, e);
      && UniqueKeys(r) && Within(l, r) && (forall k :: HasKey(r, k) ==> HasKey(es, k) || k == e.key)
  {
    InsertKeepsPrefix(l, es, now, e);
    hide Inserted, Within, Fits, UniqueKeys;
    if Admits(l, now, e) {
      var r := Inserted(l, es, now, e);
      var k :| 0 <= k <= |es| && r == Forget(es[..k], e.key) + if Fits(l, e) then [e] else [];
      forall x | HasKey(r, x) ensures HasKey(es, x) || x == e.key {
        var i :| 0 <= i < |r| && r[i].key == x;
        if i < |Forget(es[..k], e.key)| { ForgetIn(es[..k], e.key, i); }
      }
    }
  }

  lemma ForgetIn(es: seq<Entry>, key: string, i: nat)
    requires i < |Forget(es, key)|
    ensures Forget(es, key)[i] in es
  {
  }

  // ----------------------------------------------------------------- resolve

  lemma ResolvedCaches(s: Resolver, c: string, now: int)
    requires CachesOk(s) && CachesApart(s)
    ensures var p, n := Looked(s.pos, now, c), Looked(s.neg, now, c);
      && CachesOk(s.(pos := p)) && CachesApart(s.(pos := p))
      && CachesOk(s.(pos := p, neg := n)) && CachesApart(s.(pos := p, neg := n))
      && (Answer(s.pos, now, c).None? && Answer(s.neg, now, c).None? ==> !HasKey(p, c) && !HasKey(n, c))
      && (c in s.waiters ==> Answer(s.pos, now, c).None? && Answer(s.neg, now, c).None?)
  {
    LookedKeys(s.cfg.positive, s.pos, now, c);
    LookedKeys(s.cfg.negative, s.neg, now, c);
    hide Looked, UniqueKeys, Within, HasKey;
  }

  lemma FireOneOk(s: Resolver, s': Resolver, f: Fired)
    requires CallbacksOk(s) && f.cb !in s.seen
    requires s'.waiters == s.waiters && s'.seen == s.seen + {f.cb} && s'.fired == s.fired + [f]
    ensures CallbacksOk(s')
  {
    assert s'.fired[|s.fired|] == f;
    forall c, i | c in s'.waiters && 0 <= i < |s'.waiters[c]| ensures Waits(s', s'.waiters[c][i]) {
      assert Waits(s, s.waiters[c][i]);
    }
  }

  lemma JoinOk(s: Resolver, s': Resolver, c: string, cb: Callback)
    requires CallbacksOk(s) && cb !in s.seen && s'.seen == s.seen + {cb} && s'.fired == s.fired
    requires s'.waiters == s.waiters[c := if c in s.waiters then s.waiters[c] + [cb] else [cb]]
    ensures CallbacksOk(s')
  {
    forall d, i | d in s'.waiters && 0 <= i < |s'.waiters[d]| ensures Waits(s', s'.waiters[d][i]) {
      if d != c || (c in s.waiters && i < |s.waiters[c]|) { assert Waits(s, s.waiters[d][i]); }
    }
  }

  /** resolve keeps the invariant. */
  lemma ResolvedSound(s: Resolver, c: string, cb: Callback, now: int)
    requires Sound(s) && Saturated(s) && cb !in s.seen
    ensures Sound(Resolved(s, c, cb, now)) && Saturated(Resolved(s, c, cb, now))
  {
    hide CachesOk, CallbacksOk, Looked, Answer, Flights, HasKey, Placed;
    ResolvedCaches(s, c, now);
    var hit := Answer(s.pos, now, c);
    if hit.Some? {
      FireOneOk(s, Resolved(s, c, cb, now), Fired(cb, c, true, hit.value));
      SameCaches(s.(pos := Looked(s.pos, now, c)), Resolved(s, c, cb, now));
    } else if Answer(s.neg, now, c).Some? {
      FireOneOk(s, Resolved(s, c, cb, now), Fired(cb, c, false, ""));
      SameCaches(s.(pos := Looked(s.pos, now, c), neg := Looked(s.neg, now, c)), Resolved(s, c, cb, now));
    } else if c in s.waiters {
      JoinOk(s, Resolved(s, c, cb, now), c, cb);
      SameCaches(s.(pos := Looked(s.pos, now, c), neg := Looked(s.neg, now, c)), Resolved(s, c, cb, now));
    } else {
      StartedSound(s, c, cb, now);
    }
  }

  /** A credential nobody waits for and no cache holds starts a request. */
  lemma StartedSound(s: Resolver, c: string, cb: Callback, now: int)
    requires Sound(s) && Saturated(s) && cb !in s.seen && c !in s.waiters
    requires Answer(s.pos, now, c).None? && Answer(s.neg, now, c).None?
    ensures Sound(Resolved(s, c, cb, now)) && Saturated(Resolved(s, c, cb, now))
  {
    ResolvedCaches(s, c, now);
    var s0 := s.(pos := Looked(s.pos, now, c), neg := Looked(s.neg, now, c));
    var s1 := s0.(seen := s.seen + {cb}, waiters := s.waiters[c := [cb]]);
    JoinOk(s, s1, c, cb);
    hide CachesOk, CallbacksOk, Looked, Answer, Flights, HasKey, Placed;
    SameCaches(s0, s1);
    assert s1.waiters - {c} == s.waiters;
    PlacedSound(s1, c);
  }

  lemma SameCaches(s: Resolver, s': Resolver)
    requires CachesOk(s) && s'.cfg == s.cfg && s'.pos == s.pos && s'.neg == s.neg
    ensures CachesOk(s')
  {
  }

  // ---------------------------------------------------------------- response

  lemma {:induction false} DrainedSound(s: Resolver)
    requires Sound(s)
    ensures Sound(Drained(s)) && Saturated(Drained(s))
    ensures Drained(s).fired == s.fired && Drained(s).waiters == s.waiters
    ensures Drained(s).pos == s.pos && Drained(s).neg == s.neg
    decreases |s.queue|
  {
    SeekComplete(s.inflight, s.cfg.depth, s.cursor);
    hide Seek;
    var i := Seek(s.inflight, s.cfg.depth, s.cursor, 0);
    if s.queue != [] && i.Some? {
      var s1 := Dispatched(s.(queue := s.queue[1..]), i.value, s.queue[0]);
      StartSound(s, i.value);
      hide Sound;
      DrainedSound(s1);
    }
  }

  /** Queued credentials start in the order they came: those still queued are the last ones. */
  lemma {:induction false} DrainedInOrder(s: Resolver)
    requires Live(s)
    ensures |Drained(s).queue| <= |s.queue| && Drained(s).queue == s.queue[|s.queue| - |Drained(s).queue|..]
    ensures forall i :: 0 <= i < |s.queue| - |Drained(s).queue| ==> s.queue[i] in Drained(s).flying
    ensures forall c :: c in s.flying ==> c in Drained(s).flying
    decreases |s.queue|
  {
    SeekComplete(s.inflight, s.cfg.depth, s.cursor);
    hide Seek;
    var i := Seek(s.inflight, s.cfg.depth, s.cursor, 0);
    if s.queue == [] || i.None? {
      assert s.queue[0..] == s.queue;
    } else {
      var s1 := Dispatched(s.(queue := s.queue[1..]), i.value, s.queue[0]);
      DrainedInOrder(s1);
      forall k | 0 <= k < |s.queue| - |Drained(s).queue| ensures s.queue[k] in Drained(s).flying {
        if k > 0 { assert s1.queue[k - 1] == s.queue[k]; }
      }
    }
  }

  /** The head of the queue goes to a free helper. */
  lemma StartSound(s: Resolver, i: nat)
    requires Sound(s) && s.queue != [] && i < |s.inflight| && s.inflight[i] < s.cfg.depth
    ensures Sound(Dispatched(s.(queue := s.queue[1..]), i, s.queue[0]))
  {
    var c := s.queue[0];
    assert c in s.queue;
    assert forall k :: 0 <= k < |s.queue[1..]| ==> s.queue[1..][k] == s.queue[k + 1];
    assert forall x :: x in s.queue <==> x == c || x in s.queue[1..];
    DispatchCounted(s.(queue := s.queue[1..]), i, c);
    var s' := Dispatched(s.(queue := s.queue[1..]), i, c);
    assert CachesOk(s') && CachesApart(s');
    assert CallbacksOk(s') by { SameCallbacks(s, s'); }
    hide CachesOk, CachesApart, CallbacksOk, Counted;
  }

  lemma SameCallbacks(s: Resolver, s': Resolver)
    requires CallbacksOk(s) && s'.waiters == s.waiters && s'.fired == s.fired && s'.seen == s.seen
    ensures CallbacksOk(s')
  {
    forall c, i | c in s'.waiters && 0 <= i < |s'.waiters[c]| ensures Waits(s', s'.waiters[c][i]) {
      assert Waits(s, s.waiters[c][i]);
    }
  }

  /** A reply frees its helper slot. */
  lemma LandedCounted(s: Resolver, c: string)
    requires Counted(s) && c in s.flying && s.flying[c] < |s.inflight|
    ensures s.inflight[s.flying[c]] > 0
    ensures var i := s.flying[c];
      Counted(s.(inflight := s.inflight[i := s.inflight[i] - 1], flying := s.flying - {c}))
  {
    var i := s.flying[c];
    assert c in Flights(s.flying, i);
    var s' := s.(inflight := s.inflight[i := s.inflight[i] - 1], flying := s.flying - {c});
    forall k | 0 <= k < |s'.inflight| ensures s'.inflight[k] == |Flights(s'.flying, k)| <= s.cfg.depth {
      FlightsDrop(s.flying, c, k);
    }
  }

  lemma FanOutDistinct(s: Resolver, cbs: seq<Callback>, c: string, ok: bool, user: string)
    requires forall i, j :: 0 <= i < j < |s.fired| ==> s.fired[i].cb != s.fired[j].cb
    requires forall i :: 0 <= i < |cbs| ==> Waits(s, cbs[i])
    requires forall i, j :: 0 <= i < j < |cbs| ==> cbs[i] != cbs[j]
    ensures var f := s.fired + FireAll(cbs, c, ok, user);
      forall i, j :: 0 <= i < j < |f| ==> f[i].cb != f[j].cb
  {
    var f := s.fired + FireAll(cbs, c, ok, user);
    forall i, j | 0 <= i < j < |f| ensures f[i].cb != f[j].cb {
      if j >= |s.fired| {
        assert Waits(s, cbs[j - |s.fired|]);
      }
    }
  }

  lemma FanOutCallbacks(s: Resolver, s': Resolver, c: string, ok: bool, user: string)
    requires CallbacksOk(s) && c in s.waiters
    requires s'.waiters == s.waiters - {c} && s'.seen == s.seen
    requires s'.fired == s.fired + FireAll(s.waiters[c], c, ok, user)
    ensures CallbacksOk(s')
  {
    var cbs := s.waiters[c];
    forall i | 0 <= i < |cbs| ensures Waits(s, cbs[i]) && s'.fired[|s.fired| + i].cb == cbs[i] {
      assert Waits(s, s.waiters[c][i]);
    }
    FanOutDistinct(s, cbs, c, ok, user);
    forall d, i | d in s'.waiters && 0 <= i < |s'.waiters[d]| ensures Waits(s', s'.waiters[d][i]) {
      assert Waits(s, s.waiters[d][i]);
      forall k | 0 <= k < |s'.fired| ensures s'.fired[k].cb != s'.waiters[d][i] {
        if k >= |s.fired| { assert s'.fired[k].cb == s.waiters[c][k - |s.fired|]; }
      }
    }
  }

  lemma RememberedCaches(s: Resolver, c: string, r: Reply, now: int)
    requires CachesOk(s) && CachesApart(s) && c in s.waiters
    ensures var s' := Remembered(s, c, r, now);
      CachesOk(s') && CachesApart(s'.(waiters := s.waiters - {c}))
  {
    if !r.Broken? {
      if Allows(r) {
        InsertedKeys(s.cfg.positive, s.pos, now, Entry(c, r.user.value, PositiveExpiry(s.cfg, r, now)));
      } else {
        InsertedKeys(s.cfg.negative, s.neg, now, Entry(c, "", now + s.cfg.negativeTtl));
      }
    }
    hide Inserted, UniqueKeys, Within, HasKey, PositiveExpiry;
  }

  /** The reply is in, its waiters answered, the queue not yet drained. */
  ghost function Landed(s: Resolver, c: string, r: Reply, now: int): Resolver
    requires c in s.flying && s.flying[c] < |s.inflight| && s.inflight[s.flying[c]] > 0
  {
    var i := s.flying[c];
    var s1 := s.(inflight := s.inflight[i := s.inflight[i] - 1], flying := s.flying - {c});
    FannedOut(Remembered(s1, c, r, now), c, Allows(r), if Allows(r) then r.user.value else "")
  }

  lemma LandedSound(s: Resolver, c: string, r: Reply, now: int)
    requires Sound(s) && c in s.flying && s.inflight[s.flying[c]] > 0
    ensures Sound(Landed(s, c, r, now))
  {
    hide CallbacksOk, CachesOk, Inserted, Flights, HasKey, UniqueKeys, Within, IsUuid, PositiveExpiry;
    var i := s.flying[c];
    var s1 := s.(inflight := s.inflight[i := s.inflight[i] - 1], flying := s.flying - {c});
    LandedCounted(s, c);
    SameCaches(s, s1);
    RememberedCaches(s1, c, r, now);
    SameCaches(Remembered(s1, c, r, now), Landed(s, c, r, now));
    FanOutCallbacks(s, Landed(s, c, r, now), c, Allows(r), if Allows(r) then r.user.value else "");
    hide Counted, CachesApart;
    assert Tracked(Landed(s, c, r, now));
  }

  /** A helper reply keeps the invariant and leaves nothing queued beside a free slot. */
  lemma RespondedSound(s: Resolver, c: string, r: Reply, now: int)
    requires Sound(s) && c in s.flying
    ensures s.inflight[s.flying[c]] > 0
    ensures Sound(Responded(s, c, r, now)) && Saturated(Responded(s, c, r, now))
  {
    LandedCounted(s, c);
    LandedSound(s, c, r, now);
    hide Remembered, FannedOut, Allows, Drained;
    DrainedSound(Landed(s, c, r, now));
  }

  /** What handling a reply relies on, step by step. */
  lemma RespondReady(s: Resolver, c: string, r: Reply, now: int)
    requires Sound(s) && c in s.flying
    ensures Live(s) && s.flying[c] < |s.inflight| && s.inflight[s.flying[c]] > 0
    ensures Sound(Landed(s, c, r, now)) && Live(Landed(s, c, r, now))
    ensures Sound(Responded(s, c, r, now)) && Saturated(Responded(s, c, r, now))
    ensures Responded(s, c, r, now) == Drained(Landed(s, c, r, now))
  {
    LandedCounted(s, c);
    LandedSound(s, c, r, now);
    SoundLive(Landed(s, c, r, now));
    hide Remembered, FannedOut, Drained, IsUuid, CachesOk, CachesApart, CallbacksOk, Saturated;
    RespondedSound(s, c, r, now);
  }

  /** All waiters on a credential get the same answer, in the order they came, and nobody else does. */
  lemma WaitersAnsweredAlike(s: Resolver, c: string, r: Reply, now: int)
    requires Sound(s) && c in s.flying
    ensures s.inflight[s.flying[c]] > 0
    ensures var s' := Responded(s, c, r, now);
      && s'.fired == s.fired + FireAll(s.waiters[c], c, Allows(r), if Allows(r) then r.user.value else "")
      && s'.waiters == s.waiters - {c}
  {
    LandedCounted(s, c);
    LandedSound(s, c, r, now);
    DrainedSound(Landed(s, c, r, now));
    hide Drained, Allows, Inserted, PositiveExpiry, Sound;
  }

  // -------------------------------------------------------------- whole runs

  datatype Step = Ask(credential: string, cb: Callback, now: int) | Hear(credential: string, r: Reply, now: int)

  predicate LegalStep(s: Resolver, step: Step) {
    match step
    case Ask(_, cb, _) => cb !in s.seen
    case Hear(c, _, _) => c in s.flying
  }

  ghost function Next(s: Resolver, step: Step): Resolver
    requires Sound(s) && LegalStep(s, step)
  {
    match step
    case Ask(c, cb, now) => Resolved(s, c, cb, now)
    case Hear(c, r, now) =>
      LandedCounted(s, c);
      Responded(s, c, r, now)
  }

  /** Every step is possible when its turn comes; that the resolver is then sound follows. */
  ghost predicate LegalRun(s: Resolver, steps: seq<Step>)
    requires Sound(s) && Saturated(s)
    decreases |steps|
  {
    steps != [] ==>
      && LegalStep(s, steps[0])
      && (NextSound(s, steps[0]); LegalRun(Next(s, steps[0]), steps[1..]))
  }

  ghost function RunAll(s: Resolver, steps: seq<Step>): Resolver
    requires Sound(s) && Saturated(s) && LegalRun(s, steps)
    decreases |steps|
  {
    if steps == [] then s
    else
      NextSound(s, steps[0]);
      RunAll(Next(s, steps[0]), steps[1..])
  }

  lemma NextSound(s: Resolver, step: Step)
    requires Sound(s) && Saturated(s) && LegalStep(s, step)
    ensures Sound(Next(s, step)) && Saturated(Next(s, step))
  {
    hide Sound, Saturated, Resolved, Responded;
    match step
    case Ask(c, cb, now) => ResolvedSound(s, c, cb, now);
    case Hear(c, r, now) => RespondedSound(s, c, r, now);
  }

  lemma {:induction false} RunSound(s: Resolver, steps: seq<Step>)
    requires Sound(s) && Saturated(s) && LegalRun(s, steps)
    ensures Sound(RunAll(s, steps)) && Saturated(RunAll(s, steps))
    decreases |steps|
  {
    hide Sound, Saturated, Next;
    if steps != [] {
      NextSound(s, steps[0]);
      RunSound(Next(s, steps[0]), steps[1..]);
    }
  }

  /** After any run of questions and helper replies, in any order: every waiting credential is queued
      once or in flight once and in neither cache; no helper exceeds its depth; a non-empty queue means
      all helpers are full; no credential is in both caches; and no callback has fired twice. */
  lemma ResolverSafe(cfg: Config, helpers: nat, steps: seq<Step>)
    requires LegalRun(Idle(cfg, helpers), steps)
    ensures var s := RunAll(Idle(cfg, helpers), steps);
      && Tracked(s) && Counted(s) && Saturated(s) && CachesApart(s) && CachesOk(s)
      && (forall i, j :: 0 <= i < j < |s.fired| ==> s.fired[i].cb != s.fired[j].cb)
  {
    hide Saturated, Tracked, Counted, CachesApart, CachesOk;
    RunSound(Idle(cfg, helpers), steps);
  }
}
