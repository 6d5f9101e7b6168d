/** The resolver object (src/auth/auth_client.cc), on two linked-list caches.  Each method carries out
    one step of module Auth. */
module AuthClients {
  import opened OrderTypes
  import opened TokenCaches
  import A = Auth

  ghost predicate Disjoint(a: seq<Node>, b: seq<Node>) {
    forall i, j :: 0 <= i < |a| && 0 <= j < |b| ==> a[i] != b[j]
  }

  class AuthClient {
    const cfg: A.Config
    const positive: TokenCache
    const negative: TokenCache
    var inflight: seq<nat>
    var nextHelper: nat
    var waiters: map<string, seq<A.Callback>>
    var pending: seq<string>
    var fired: seq<A.Fired>
    ghost var flying: map<string, nat>
    ghost var seen: set<A.Callback>

    /** The two caches are well formed and share nothing. */
    ghost predicate Separate()
      reads this, positive, positive.nodes, negative, negative.nodes
    {
      && positive != negative && positive.Valid() && negative.Valid()
      && positive.L() == cfg.positive && negative.L() == cfg.negative
      && Disjoint(positive.nodes, negative.nodes)
    }

    /** The resolver as a value. */
    ghost function Value(): A.Resolver
      reads this, positive, negative
    {
      A.Resolver(
        cfg, positive.Contents(), negative.Contents(), inflight, nextHelper, waiters, pending, flying, fired, seen)
    }

    ghost predicate Valid()
      reads this, positive, positive.nodes, negative, negative.nodes
    {
      Separate() && A.Sound(Value())
    }

    constructor (cfg: A.Config, helpers: nat)
      ensures Valid() && A.Saturated(Value()) && Value() == A.Idle(cfg, helpers)
      ensures fresh(positive) && fresh(negative) && positive.nodes == [] && negative.nodes == []
    {
      hide A.Sound, A.Saturated, TokenCache.Valid, TokenCache.Contents, TokenCache.L;
      this.cfg := cfg;
      positive := new TokenCache(cfg.positive.capacity, cfg.positive.maxBytes, cfg.positive.maxPurge);
      negative := new TokenCache(cfg.negative.capacity, cfg.negative.maxBytes, cfg.negative.maxPurge);
      inflight := seq(if helpers == 0 then 1 else helpers, i => 0);
      nextHelper := 0;
      waiters, pending, fired := map[], [], [];
      flying, seen := map[], {};
      new;
      assert inflight == A.Idle(cfg, helpers).inflight;
      assert Value() == A.Idle(cfg, helpers);
    }

    /** A helper with a free slot, round robin; the cursor moves past it (free_helper). */
    method FreeHelper() returns (r: Option<nat>)
      requires inflight != [] && nextHelper < |inflight|
      modifies this`nextHelper
      ensures r == A.Seek(inflight, cfg.depth, old(nextHelper), 0)
      ensures r.Some? ==> r.value < |inflight| && inflight[r.value] < cfg.depth
      ensures nextHelper == (if r.Some? then (r.value + 1) % |inflight| else old(nextHelper)) < |inflight|
    {
      hide A.Turn;
      var k := 0;
      while k < |inflight|
        invariant 0 <= k <= |inflight| && nextHelper == old(nextHelper)
        invariant A.Seek(inflight, cfg.depth, nextHelper, k) == A.Seek(inflight, cfg.depth, old(nextHelper), 0)
      {
        var i := A.Turn(|inflight|, nextHelper, k);
        if inflight[i] < cfg.depth {
          nextHelper := (i + 1) % |inflight|;
          return Some(i);
        }
        k := k + 1;
      }
      r := None;
    }

    /** Send a request to helper `i` (dispatch). */
    method Dispatch(i: nat, credential: string)
      requires i < |inflight|
      modifies this`inflight, this`flying
      ensures inflight == old(inflight)[i := old(inflight)[i] + 1] && flying == old(flying)[credential := i]
    {
      inflight := inflight[i := inflight[i] + 1];
      flying := flying[credential := i];
    }

    /** Start the first queued credential, if a helper has a free slot. */
    method StartNext() returns (started: bool)
      requires Valid() && pending != [] && A.Live(Value())
      modifies this`inflight, this`flying, this`pending, this`nextHelper
      ensures Valid() && A.Live(Value())
      ensures var i := A.Seek(old(inflight), cfg.depth, old(nextHelper), 0);
        && started == i.Some?
        && (started ==> i.value < |old(inflight)| && |pending| < |old(pending)|)
        && Value() == if started
                      then A.Dispatched(old(Value()).(queue := old(pending)[1..]), i.value, old(pending)[0])
                      else old(Value())
    {
      hide A.Seek, A.Sound, TokenCache.Valid, TokenCache.Contents, TokenCache.L;
      ghost var s0 := Value();
      var i := FreeHelper();
      if i.None? {
        return false;
      }
      A.StartSound(s0, i.value);
      var credential := pending[0];
      pending := pending[1..];
      Dispatch(i.value, credential);
      started := true;
    }

    /** Start queued credentials while helper slots are free (drain_pending). */
    method DrainPending()
      requires Valid() && A.Live(Value())
      modifies this`inflight, this`flying, this`pending, this`nextHelper
      ensures Valid() && Value() == A.Drained(old(Value()))
    {
      hide A.Seek, A.Sound, TokenCache.Valid, TokenCache.Contents, TokenCache.L, A.Dispatched;
      ghost var s0 := Value();
      while pending != []
        invariant Valid() && A.Live(Value()) && A.Drained(Value()) == A.Drained(s0)
        decreases |pending|
      {
        var started := StartNext();
        if !started {
          break;
        }
      }
    }

    /** Answer every waiter on a credential (fan_out). */
    method FanOut(credential: string, ok: bool, user: string)
      modifies this`waiters, this`fired
      ensures Value() == A.FannedOut(old(Value()), credential, ok, user)
    {
      hide TokenCache.Contents;
      if credential !in waiters {
        return;
      }
      var cbs := waiters[credential];
      waiters := waiters - {credential};
      for i := 0 to |cbs|
        invariant waiters == old(waiters) - {credential}
        invariant fired == old(fired) + A.FireAll(cbs, credential, ok, user)[..i]
      {
        fired := fired + [A.Fired(cbs[i], credential, ok, user)];
      }
    }

    /** Parse a decimal nanosecond count (ParseNanos). */
    static method ReadNanos(s: string) returns (r: Option<nat>)
      ensures r == A.ParseNanos(s)
    {
      if s == [] {
        return None;
      }
      var value := 0;
      for i := 0 to |s|
        invariant if i == 0 then value == 0 else A.ParseNanos(s[..i]) == Some(value)
      {
        assert s[..i + 1][..i] == s[..i];
        if s[i] < '0' || s[i] > '9' {
          A.BadDigit(s, i);
          return None;
        }
        value := value * 10 + (s[i] as int - '0' as int);
      }
      assert s[..|s|] == s;
      r := Some(value);
    }

    /** Cache a helper's verdict (the cache part of on_response). */
    method Remember(credential: string, r: A.Reply, now: int)
      requires Separate()
      modifies positive, positive.nodes, negative, negative.nodes
      ensures Separate() && Value() == A.Remembered(old(Value()), credential, r, now)
      ensures forall n :: n in positive.nodes ==> n in old(positive.nodes) || fresh(n)
      ensures forall n :: n in negative.nodes ==> n in old(negative.nodes) || fresh(n)
    {
      hide TokenCache.Valid, TokenCache.Contents, Inserted, A.IsUuid, A.ParseNanos;
      if r.Broken? {
        return;
      }
      if r.status == Some("ok") && r.user.Some? && A.IsUuid(r.user.value) {
        var expiry := now + cfg.positiveTtl;
        if r.notAfter.Some? {
          var na := ReadNanos(r.notAfter.value);
          if na.Some? {
            expiry := Min(expiry, na.value);
          }
        }
        positive.Insert(credential, r.user.value, expiry, now);
        assert forall i :: 0 <= i < |positive.nodes| ==> positive.nodes[i] in positive.nodes;
      } else {
        negative.Insert(credential, "", now + cfg.negativeTtl, now);
        assert forall i :: 0 <= i < |negative.nodes| ==> negative.nodes[i] in negative.nodes;
      }
    }

    /** A helper replies about an outstanding credential (on_response). */
    method OnResponse(i: nat, credential: string, r: A.Reply, now: int)
      requires Valid() && credential in flying && flying[credential] == i
      modifies this, positive, positive.nodes, negative, negative.nodes
      ensures Valid() && A.Saturated(Value())
      ensures A.Live(old(Value())) && i < |old(inflight)| && old(inflight)[i] > 0
      ensures Value() == A.Responded(old(Value()), credential, r, now)
    {
      hide A.Sound, A.Saturated, TokenCache.Valid, TokenCache.Contents, TokenCache.L, A.Remembered, A.Drained, A.IsUuid;
      ghost var s0 := Value();
      A.RespondReady(s0, credential, r, now);
      inflight := inflight[i := inflight[i] - 1];
      flying := flying - {credential};
      Remember(credential, r, now);
      var allow := r.Message? && r.status == Some("ok") && r.user.Some? && A.IsUuid(r.user.value);
      FanOut(credential, allow, if allow then r.user.value else "");
      DrainPending();
    }

    /** Resolve a credential from a cache, by joining its waiters, or through a helper (resolve). */
    method Resolve(credential: string, cb: A.Callback, now: int)
      requires Valid() && A.Saturated(Value()) && cb !in seen
      modifies this, positive, positive.nodes, negative, negative.nodes
      ensures Valid() && A.Saturated(Value())
      ensures A.Live(old(Value())) && Value() == A.Resolved(old(Value()), credential, cb, now)
    {
      hide A.Sound, A.Saturated, TokenCache.Valid, TokenCache.Contents, TokenCache.L;
      hide A.Seek, Looked, Answer, A.Dispatched;
      A.SoundLive(Value());
      A.ResolvedSound(Value(), credential, cb, now);
      seen := seen + {cb};
      var hit := positive.Lookup(credential, now);
      assert forall i :: 0 <= i < |positive.nodes| ==> positive.nodes[i] in positive.nodes;
      if hit.Some? {
        fired := fired + [A.Fired(cb, credential, true, hit.value)];
        return;
      }
      var denied := negative.Lookup(credential, now);
      assert forall i :: 0 <= i < |negative.nodes| ==> negative.nodes[i] in negative.nodes;
      if denied.Some? {
        fired := fired + [A.Fired(cb, credential, false, "")];
        return;
      }
      if credential in waiters {
        waiters := waiters[credential := waiters[credential] + [cb]];
        return;
      }
      waiters := waiters[credential := [cb]];
      Place(credential);
    }

    /** Send a request to a free helper, or queue the credential for one. */
    method Place(credential: string)
      requires A.Live(Value())
      modifies this`inflight, this`flying, this`pending, this`nextHelper
      ensures Value() == A.Placed(old(Value()), credential)
    {
      hide A.Seek, TokenCache.Contents;
      var i := FreeHelper();
      if i.None? {
        pending := pending + [credential];
      } else {
        Dispatch(i.value, credential);
      }
    }
  }
}
