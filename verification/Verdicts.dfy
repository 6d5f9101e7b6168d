/** Where the resolver's answers come from: over every run of questions and helper replies, each callback
    is called with what a reply about its credential said, at that reply or from a cache while the answer
    was live (src/auth/auth_client.cc, resolve and on_response). */
module Verdicts {
  import opened OrderTypes
  import opened TokenCaches
  import opened Auth

  predicate Hears(step: Step, c: string) {
    step.Hear? && step.credential == c
  }

  /** The reply says that `c` belongs to user `u`. */
  predicate Permits(step: Step, c: string, u: string) {
    Hears(step, c) && step.r.Message? && step.r.status == Some("ok") && step.r.user == Some(u) && IsUuid(u)
  }

  /** A reply that arrived and says anything else. */
  predicate Denies(step: Step, c: string) {
    Hears(step, c) && step.r.Message?
    && (step.r.status != Some("ok") || step.r.user.None? || !IsUuid(step.r.user.value))
  }

  /** A permission is live for the configured time, but not beyond the reply's own limit if it has a
      readable one. */
  predicate LiveUntil(cfg: Config, step: Step, t: int)
    requires step.Hear? && step.r.Message?
  {
    var cap := step.now + cfg.positiveTtl;
    match step.r.notAfter
    case None => t == cap
    case Some(text) =>
      match ParseNanos(text)
      case None => t == cap
      case Some(limit) => t == if limit < cap then limit else cap
  }

  /** No reply about `c` since step `j`. */
  ghost predicate Latest(hist: seq<Step>, j: nat, c: string) {
    forall l :: j < l < |hist| ==> !Hears(hist[l], c)
  }

  /** A cached permission stems from the latest reply about its credential, step `j`. */
  ghost predicate PermitFrom(cfg: Config, hist: seq<Step>, e: Entry, j: nat) {
    && j < |hist| && Permits(hist[j], e.key, e.value) && LiveUntil(cfg, hist[j], e.expiry)
    && Latest(hist, j, e.key)
  }

  /** So does a cached denial. */
  ghost predicate DenialFrom(cfg: Config, hist: seq<Step>, e: Entry, j: nat) {
    && j < |hist| && Denies(hist[j], e.key) && e.value == "" && e.expiry == hist[j].now + cfg.negativeTtl
    && Latest(hist, j, e.key)
  }

  ghost predicate Permitted(cfg: Config, hist: seq<Step>, e: Entry) {
    exists j :: PermitFrom(cfg, hist, e, j)
  }

  ghost predicate Denied(cfg: Config, hist: seq<Step>, e: Entry) {
    exists j :: DenialFrom(cfg, hist, e, j)
  }

  ghost predicate CachesExplained(s: Resolver, hist: seq<Step>) {
    && (forall e :: e in s.pos ==> Permitted(s.cfg, hist, e))
    && (forall e :: e in s.neg ==> Denied(s.cfg, hist, e))
  }

  /** The steps behind an answer: the question, the reply, and the one at which it was given. */
  datatype Why = Why(asked: nat, heard: nat, given: nat)

  predicate InHistory(hist: seq<Step>, w: Why) {
    w.asked < |hist| && w.heard < |hist| && w.given < |hist|
  }

  predicate Asks(step: Step, c: string, cb: Callback) {
    step.Ask? && step.credential == c && step.cb == cb
  }

  /** A permission: the reply permits; it is given at the reply, or at the question from the cache, which
      then held the latest reply and was still live. */
  ghost predicate WhyPermitted(cfg: Config, hist: seq<Step>, f: Fired, w: Why)
    requires InHistory(hist, w)
  {
    && Permits(hist[w.heard], f.credential, f.user)
    && (w.given == w.asked ==>
          && Latest(hist[..w.given], w.heard, f.credential)
          && exists t :: LiveUntil(cfg, hist[w.heard], t) && hist[w.asked].now < t)
  }

  /** A denial: the reply denies, or was broken and the denial is given at once; from the cache only the
      former, while it is live. */
  ghost predicate WhyDenied(cfg: Config, hist: seq<Step>, f: Fired, w: Why)
    requires InHistory(hist, w)
  {
    && f.user == "" && Hears(hist[w.heard], f.credential)
    && (Denies(hist[w.heard], f.credential) || (hist[w.heard].r.Broken? && w.given == w.heard))
    && (w.given == w.asked ==>
          && Latest(hist[..w.given], w.heard, f.credential)
          && hist[w.asked].now < hist[w.heard].now + cfg.negativeTtl)
  }

  ghost predicate Grounded(cfg: Config, hist: seq<Step>, f: Fired, w: Why) {
    && InHistory(hist, w) && Asks(hist[w.asked], f.credential, f.cb)
    && (w.asked < w.heard == w.given || w.heard < w.asked == w.given)
    && if f.ok then WhyPermitted(cfg, hist, f, w) else WhyDenied(cfg, hist, f, w)
  }

  ghost predicate HasGrounds(cfg: Config, hist: seq<Step>, f: Fired) {
    exists w :: Grounded(cfg, hist, f, w)
  }

  ghost predicate AllGrounded(cfg: Config, hist: seq<Step>, fired: seq<Fired>) {
    forall i :: 0 <= i < |fired| ==> HasGrounds(cfg, hist, fired[i])
  }

  ghost predicate Asked(hist: seq<Step>, c: string, cb: Callback) {
    exists a :: 0 <= a < |hist| && Asks(hist[a], c, cb)
  }

  /** Whoever waits has asked. */
  ghost predicate WaitersAsked(waiters: map<string, seq<Callback>>, hist: seq<Step>) {
    forall c, i :: c in waiters && 0 <= i < |waiters[c]| ==> Asked(hist, c, waiters[c][i])
  }

  ghost predicate Answered(fired: seq<Fired>, c: string, cb: Callback) {
    exists i :: 0 <= i < |fired| && fired[i].credential == c && fired[i].cb == cb
  }

  /** Whoever has asked was answered or waits. */
  ghost predicate NobodyLost(s: Resolver, hist: seq<Step>) {
    forall a :: 0 <= a < |hist| && hist[a].Ask? ==>
      || Answered(s.fired, hist[a].credential, hist[a].cb)
      || (hist[a].credential in s.waiters && hist[a].cb in s.waiters[hist[a].credential])
  }

  ghost predicate Explained(s: Resolver, hist: seq<Step>) {
    && CachesExplained(s, hist) && AllGrounded(s.cfg, hist, s.fired)
    && WaitersAsked(s.waiters, hist) && NobodyLost(s, hist)
  }

  // ------------------------------------------------------- the history grows

  lemma GroundedStays(cfg: Config, hist: seq<Step>, step: Step, f: Fired)
    requires HasGrounds(cfg, hist, f)
    ensures HasGrounds(cfg, hist + [step], f)
  {
    var w :| Grounded(cfg, hist, f, w);
    assert (hist + [step])[..w.given] == hist[..w.given];
    assert Grounded(cfg, hist + [step], f, w);
  }

  lemma AskedStays(hist: seq<Step>, step: Step, c: string, cb: Callback)
    requires Asked(hist, c, cb)
    ensures Asked(hist + [step], c, cb)
  {
    var a :| 0 <= a < |hist| && Asks(hist[a], c, cb);
    assert Asks((hist + [step])[a], c, cb);
  }

  lemma AllStay(s: Resolver, hist: seq<Step>, step: Step)
    requires AllGrounded(s.cfg, hist, s.fired) && WaitersAsked(s.waiters, hist)
    ensures AllGrounded(s.cfg, hist + [step], s.fired) && WaitersAsked(s.waiters, hist + [step])
  {
    hide HasGrounds, Asked;
    forall i | 0 <= i < |s.fired| ensures HasGrounds(s.cfg, hist + [step], s.fired[i]) {
      GroundedStays(s.cfg, hist, step, s.fired[i]);
    }
    forall c, i | c in s.waiters && 0 <= i < |s.waiters[c]| ensures Asked(hist + [step], c, s.waiters[c][i]) {
      AskedStays(hist, step, c, s.waiters[c][i]);
    }
  }

  /** Cached answers keep their grounds while no reply about their credential comes in. */
  lemma PermitStays(cfg: Config, hist: seq<Step>, step: Step, e: Entry)
    requires Permitted(cfg, hist, e) && !Hears(step, e.key)
    ensures Permitted(cfg, hist + [step], e)
  {
    var j: nat :| PermitFrom(cfg, hist, e, j);
    assert PermitFrom(cfg, hist + [step], e, j);
  }

  lemma DenialStays(cfg: Config, hist: seq<Step>, step: Step, e: Entry)
    requires Denied(cfg, hist, e) && !Hears(step, e.key)
    ensures Denied(cfg, hist + [step], e)
  {
    var j: nat :| DenialFrom(cfg, hist, e, j);
    assert DenialFrom(cfg, hist + [step], e, j);
  }

  lemma CachesStay(s: Resolver, s': Resolver, hist: seq<Step>, step: Step)
    requires CachesExplained(s, hist) && s'.cfg == s.cfg
    requires forall e :: e in s'.pos ==> e in s.pos && !Hears(step, e.key)
    requires forall e :: e in s'.neg ==> e in s.neg && !Hears(step, e.key)
    ensures CachesExplained(s', hist + [step])
  {
    hide Permitted, Denied, Hears;
    forall e | e in s'.pos ensures Permitted(s'.cfg, hist + [step], e) {
      PermitStays(s.cfg, hist, step, e);
    }
    forall e | e in s'.neg ensures Denied(s'.cfg, hist + [step], e) {
      DenialStays(s.cfg, hist, step, e);
    }
  }

  // -------------------------------------------------------------- a question

  lemma LookedLess(l: Limits, es: seq<Entry>, now: int, c: string)
    requires UniqueKeys(es) && Within(l, es)
    ensures forall e :: e in Looked(es, now, c) ==> e in es
    ensures Answer(es, now, c).Some? ==>
      exists e :: e in es && e.key == c && e.value == Answer(es, now, c).value && now < e.expiry
  {
    LookupPromotes(l, es, now, c);
    hide Looked, Answer, UniqueKeys;
    if Answer(es, now, c).Some? {
      var i :| 0 <= i < |es| && es[i].key == c && es[i].value == Answer(es, now, c).value && es[i].expiry > now;
      assert es[i] in es;
    }
  }

  /** An answer from the cache is grounded in the reply the entry stems from. */
  lemma HitGrounded(cfg: Config, hist: seq<Step>, c: string, cb: Callback, now: int, e: Entry)
    requires Permitted(cfg, hist, e) && e.key == c && now < e.expiry
    ensures HasGrounds(cfg, hist + [Ask(c, cb, now)], Fired(cb, c, true, e.value))
  {
    var j: nat :| PermitFrom(cfg, hist, e, j);
    var hist' := hist + [Ask(c, cb, now)];
    var w := Why(|hist|, j, |hist|);
    assert hist'[..|hist|] == hist && hist'[|hist|] == Ask(c, cb, now) && hist'[j] == hist[j];
    assert Grounded(cfg, hist', Fired(cb, c, true, e.value), w);
  }

  lemma MissGrounded(cfg: Config, hist: seq<Step>, c: string, cb: Callback, now: int, e: Entry)
    requires Denied(cfg, hist, e) && e.key == c && now < e.expiry
    ensures HasGrounds(cfg, hist + [Ask(c, cb, now)], Fired(cb, c, false, ""))
  {
    var j: nat :| DenialFrom(cfg, hist, e, j);
    var hist' := hist + [Ask(c, cb, now)];
    var w := Why(|hist|, j, |hist|);
    assert hist'[..|hist|] == hist && hist'[|hist|] == Ask(c, cb, now) && hist'[j] == hist[j];
    assert Grounded(cfg, hist', Fired(cb, c, false, ""), w);
  }

  lemma ResolvedParts(s: Resolver, c: string, cb: Callback, now: int)
    requires Live(s)
    ensures var s' := Resolved(s, c, cb, now);
      && s'.cfg == s.cfg && s'.pos == Looked(s.pos, now, c) && (s'.neg == s.neg || s'.neg == Looked(s.neg, now, c))
      && (if Answer(s.pos, now, c).Some? then
            s'.waiters == s.waiters && s'.fired == s.fired + [Fired(cb, c, true, Answer(s.pos, now, c).value)]
          else if Answer(s.neg, now, c).Some? then
            s'.waiters == s.waiters && s'.fired == s.fired + [Fired(cb, c, false, "")]
          else
            && s'.fired == s.fired
            && s'.waiters == s.waiters[c := (if c in s.waiters then s.waiters[c] else []) + [cb]])
  {
    hide Looked, Answer, Seek;
    assert [] + [cb] == [cb];
  }

  lemma AskCaches(s: Resolver, hist: seq<Step>, c: string, cb: Callback, now: int)
    requires Sound(s) && CachesExplained(s, hist)
    ensures CachesExplained(Resolved(s, c, cb, now), hist + [Ask(c, cb, now)])
  {
    hide Resolved, CachesExplained, Looked, Answer;
    ResolvedParts(s, c, cb, now);
    LookedLess(s.cfg.positive, s.pos, now, c);
    LookedLess(s.cfg.negative, s.neg, now, c);
    CachesStay(s, Resolved(s, c, cb, now), hist, Ask(c, cb, now));
  }

  lemma AskGrounded(s: Resolver, hist: seq<Step>, c: string, cb: Callback, now: int)
    requires Sound(s) && CachesExplained(s, hist) && AllGrounded(s.cfg, hist, s.fired) && WaitersAsked(s.waiters, hist)
    ensures AllGrounded(s.cfg, hist + [Ask(c, cb, now)], Resolved(s, c, cb, now).fired)
  {
    SoundLive(s);
    hide Resolved, Looked, Answer, HasGrounds, Permitted, Denied, Tracked, Counted, CachesApart, CallbacksOk;
    ResolvedParts(s, c, cb, now);
    LookedLess(s.cfg.positive, s.pos, now, c);
    LookedLess(s.cfg.negative, s.neg, now, c);
    AllStay(s, hist, Ask(c, cb, now));
    if Answer(s.pos, now, c).Some? {
      var e :| e in s.pos && e.key == c && e.value == Answer(s.pos, now, c).value && now < e.expiry;
      HitGrounded(s.cfg, hist, c, cb, now, e);
    } else if Answer(s.neg, now, c).Some? {
      var e :| e in s.neg && e.key == c && e.value == Answer(s.neg, now, c).value && now < e.expiry;
      MissGrounded(s.cfg, hist, c, cb, now, e);
    }
  }

  lemma AskWaiters(s: Resolver, hist: seq<Step>, c: string, cb: Callback, now: int)
    requires Live(s) && WaitersAsked(s.waiters, hist) && AllGrounded(s.cfg, hist, s.fired)
    ensures WaitersAsked(Resolved(s, c, cb, now).waiters, hist + [Ask(c, cb, now)])
  {
    hide Resolved, Looked, Answer, HasGrounds;
    ResolvedParts(s, c, cb, now);
    AllStay(s, hist, Ask(c, cb, now));
    var hist' := hist + [Ask(c, cb, now)];
    assert Asks(hist'[|hist|], c, cb);
  }

  lemma AskLoses(s: Resolver, hist: seq<Step>, c: string, cb: Callback, now: int)
    requires Live(s) && NobodyLost(s, hist)
    ensures NobodyLost(Resolved(s, c, cb, now), hist + [Ask(c, cb, now)])
  {
    hide Resolved, Looked, Answer;
    ResolvedParts(s, c, cb, now);
    var s', hist' := Resolved(s, c, cb, now), hist + [Ask(c, cb, now)];
    if s'.fired != s.fired {
      assert s'.fired[|s.fired|].cb == cb && s'.fired[|s.fired|].credential == c;
    }
    forall a | 0 <= a < |hist'| && hist'[a].Ask?
      ensures Answered(s'.fired, hist'[a].credential, hist'[a].cb)
           || (hist'[a].credential in s'.waiters && hist'[a].cb in s'.waiters[hist'[a].credential])
    {
      if a < |hist| {
        assert hist'[a] == hist[a];
        if Answered(s.fired, hist[a].credential, hist[a].cb) {
          MoreAnswered(s.fired, s'.fired, hist[a].credential, hist[a].cb);
        }
      }
    }
  }

  lemma MoreAnswered(fired: seq<Fired>, fired': seq<Fired>, c: string, cb: Callback)
    requires Answered(fired, c, cb) && fired <= fired'
    ensures Answered(fired', c, cb)
  {
    var i :| 0 <= i < |fired| && fired[i].credential == c && fired[i].cb == cb;
    assert fired'[i] == fired[i];
  }

  // ----------------------------------------------------------------- a reply

  /** The state after a reply, from the reply's own fields. */
  lemma RespondedParts(s: Resolver, c: string, r: Reply, now: int)
    requires Sound(s) && c in s.flying
    ensures s.inflight[s.flying[c]] > 0 && c in s.waiters
    ensures var s' := Responded(s, c, r, now);
      var yes := r.Message? && r.status == Some("ok") && r.user.Some? && IsUuid(r.user.value);
      && s'.cfg == s.cfg && s'.waiters == s.waiters - {c}
      && s'.fired == s.fired + FireAll(s.waiters[c], c, yes, if yes then r.user.value else "")
      && s'.pos == (if !yes then s.pos
                    else Inserted(s.cfg.positive, s.pos, now, Entry(c, r.user.value, PositiveExpiry(s.cfg, r, now))))
      && s'.neg == (if r.Broken? || yes then s.neg
                    else Inserted(s.cfg.negative, s.neg, now, Entry(c, "", now + s.cfg.negativeTtl)))
  {
    WaitersAnsweredAlike(s, c, r, now);
    LandedSound(s, c, r, now);
    DrainedSound(Landed(s, c, r, now));
    DrainedConfig(Landed(s, c, r, now));
    hide Drained, Inserted, PositiveExpiry, IsUuid, Sound, FireAll;
  }

  lemma {:induction false} DrainedConfig(s: Resolver)
    requires Live(s)
    ensures Drained(s).cfg == s.cfg
    decreases |s.queue|
  {
    SeekComplete(s.inflight, s.cfg.depth, s.cursor);
    hide Seek;
    var i := Seek(s.inflight, s.cfg.depth, s.cursor, 0);
    if s.queue != [] && i.Some? {
      DrainedConfig(Dispatched(s.(queue := s.queue[1..]), i.value, s.queue[0]));
    }
  }

  lemma InsertedFrom(l: Limits, es: seq<Entry>, now: int, e: Entry)
    requires UniqueKeys(es) && Within(l, es)
    ensures forall x :: x in Inserted(l, es, now, e) ==> x in es || x == e
  {
    InsertKeepsPrefix(l, es, now, e);
    if Admits(l, now, e) {
      var r := Inserted(l, es, now, e);
      hide Inserted, Fits, UniqueKeys, Forget;
      var k :| 0 <= k <= |es| && r == Forget(es[..k], e.key) + if Fits(l, e) then [e] else [];
      forall x | x in r ensures x in es || x == e {
        if x in Forget(es[..k], e.key) { ForgetMember(es[..k], e.key, x); }
      }
    }
  }

  lemma ForgetMember(es: seq<Entry>, key: string, x: Entry)
    requires x in Forget(es, key)
    ensures x in es
  {
    var i :| 0 <= i < |Forget(es, key)| && Forget(es, key)[i] == x;
    ForgetIn(es, key, i);
  }

  /** The reply's own entry is grounded in the reply. */
  lemma NewPermit(cfg: Config, hist: seq<Step>, c: string, r: Reply, now: int)
    requires r.Message? && r.status == Some("ok") && r.user.Some? && IsUuid(r.user.value)
    ensures Permitted(cfg, hist + [Hear(c, r, now)], Entry(c, r.user.value, PositiveExpiry(cfg, r, now)))
  {
    var hist' := hist + [Hear(c, r, now)];
    assert hist'[|hist|] == Hear(c, r, now);
    assert PermitFrom(cfg, hist', Entry(c, r.user.value, PositiveExpiry(cfg, r, now)), |hist|);
  }

  lemma NewDenial(cfg: Config, hist: seq<Step>, c: string, r: Reply, now: int)
    requires r.Message? && (r.status != Some("ok") || r.user.None? || !IsUuid(r.user.value))
    ensures Denied(cfg, hist + [Hear(c, r, now)], Entry(c, "", now + cfg.negativeTtl))
  {
    var hist' := hist + [Hear(c, r, now)];
    assert hist'[|hist|] == Hear(c, r, now);
    assert DenialFrom(cfg, hist', Entry(c, "", now + cfg.negativeTtl), |hist|);
  }

  /** A credential that is being asked about is in neither cache. */
  lemma Uncached(s: Resolver, c: string)
    requires Sound(s) && c in s.flying
    ensures forall e :: e in s.pos ==> e.key != c
    ensures forall e :: e in s.neg ==> e.key != c
  {
    hide Counted, CachesOk, CallbacksOk;
    assert !HasKey(s.pos, c) && !HasKey(s.neg, c);
  }

  lemma HearCaches(s: Resolver, hist: seq<Step>, c: string, r: Reply, now: int)
    requires Sound(s) && c in s.flying && CachesExplained(s, hist)
    ensures s.inflight[s.flying[c]] > 0
    ensures CachesExplained(Responded(s, c, r, now), hist + [Hear(c, r, now)])
  {
    RespondedParts(s, c, r, now);
    Uncached(s, c);
    var step := Hear(c, r, now);
    CachesStay(s, s, hist, step);
    var p := if r.Message? && r.status == Some("ok") && r.user.Some? && IsUuid(r.user.value)
             then Entry(c, r.user.value, PositiveExpiry(s.cfg, r, now)) else Entry(c, "", now + s.cfg.negativeTtl);
    InsertedFrom(s.cfg.positive, s.pos, now, p);
    InsertedFrom(s.cfg.negative, s.neg, now, p);
    if r.Message? && r.status == Some("ok") && r.user.Some? && IsUuid(r.user.value) {
      NewPermit(s.cfg, hist, c, r, now);
    } else if r.Message? {
      NewDenial(s.cfg, hist, c, r, now);
    }
    hide Responded, Inserted, PositiveExpiry, IsUuid, Sound, Permitted, Denied;
  }

  /** Every waiter is answered with what the reply says. */
  lemma ReplyGrounded(cfg: Config, hist: seq<Step>, c: string, cb: Callback, r: Reply, now: int)
    requires Asked(hist, c, cb)
    ensures var yes := r.Message? && r.status == Some("ok") && r.user.Some? && IsUuid(r.user.value);
      HasGrounds(cfg, hist + [Hear(c, r, now)], Fired(cb, c, yes, if yes then r.user.value else ""))
  {
    var yes := r.Message? && r.status == Some("ok") && r.user.Some? && IsUuid(r.user.value);
    var a: nat :| 0 <= a < |hist| && Asks(hist[a], c, cb);
    var hist' := hist + [Hear(c, r, now)];
    assert hist'[|hist|] == Hear(c, r, now) && hist'[a] == hist[a];
    assert Grounded(cfg, hist', Fired(cb, c, yes, if yes then r.user.value else ""), Why(a, |hist|, |hist|));
  }

  lemma HearGrounded(s: Resolver, hist: seq<Step>, c: string, r: Reply, now: int)
    requires Sound(s) && c in s.flying && AllGrounded(s.cfg, hist, s.fired) && WaitersAsked(s.waiters, hist)
    ensures s.inflight[s.flying[c]] > 0
    ensures var s' := Responded(s, c, r, now);
      AllGrounded(s.cfg, hist + [Hear(c, r, now)], s'.fired) && WaitersAsked(s'.waiters, hist + [Hear(c, r, now)])
  {
    RespondedParts(s, c, r, now);
    hide Responded, Inserted, PositiveExpiry, IsUuid, Sound, HasGrounds, Asked;
    AllStay(s, hist, Hear(c, r, now));
    var s', hist' := Responded(s, c, r, now), hist + [Hear(c, r, now)];
    forall i | 0 <= i < |s'.fired| ensures HasGrounds(s.cfg, hist', s'.fired[i]) {
      if i >= |s.fired| { ReplyGrounded(s.cfg, hist, c, s.waiters[c][i - |s.fired|], r, now); }
    }
  }

  lemma HearLoses(s: Resolver, hist: seq<Step>, c: string, r: Reply, now: int)
    requires Sound(s) && c in s.flying && NobodyLost(s, hist)
    ensures s.inflight[s.flying[c]] > 0
    ensures NobodyLost(Responded(s, c, r, now), hist + [Hear(c, r, now)])
  {
    RespondedParts(s, c, r, now);
    hide Responded, Inserted, PositiveExpiry, IsUuid, Sound;
    var s', hist' := Responded(s, c, r, now), hist + [Hear(c, r, now)];
    forall a | 0 <= a < |hist'| && hist'[a].Ask?
      ensures Answered(s'.fired, hist'[a].credential, hist'[a].cb)
           || (hist'[a].credential in s'.waiters && hist'[a].cb in s'.waiters[hist'[a].credential])
    {
      assert hist'[a] == hist[a];
      var d, cb := hist[a].credential, hist[a].cb;
      if Answered(s.fired, d, cb) {
        MoreAnswered(s.fired, s'.fired, d, cb);
      } else if d == c {
        var i :| 0 <= i < |s.waiters[c]| && s.waiters[c][i] == cb;
        assert s'.fired[|s.fired| + i].cb == cb;
      }
    }
  }

  // -------------------------------------------------------------- whole runs

  lemma NextExplained(s: Resolver, hist: seq<Step>, step: Step)
    requires Sound(s) && LegalStep(s, step) && Explained(s, hist)
    ensures Explained(Next(s, step), hist + [step]) && Next(s, step).cfg == s.cfg
  {
    SoundLive(s);
    hide Sound, CachesExplained, AllGrounded, WaitersAsked, NobodyLost, Resolved, Responded;
    match step
    case Ask(c, cb, now) =>
      AskCaches(s, hist, c, cb, now);
      AskGrounded(s, hist, c, cb, now);
      AskWaiters(s, hist, c, cb, now);
      AskLoses(s, hist, c, cb, now);
      ResolvedParts(s, c, cb, now);
    case Hear(c, r, now) =>
      HearCaches(s, hist, c, r, now);
      HearGrounded(s, hist, c, r, now);
      HearLoses(s, hist, c, r, now);
      RespondedParts(s, c, r, now);
  }

  lemma {:induction false} RunExplained(s: Resolver, hist: seq<Step>, steps: seq<Step>)
    requires Sound(s) && Saturated(s) && LegalRun(s, steps) && Explained(s, hist)
    ensures Explained(RunAll(s, steps), hist + steps) && RunAll(s, steps).cfg == s.cfg
    decreases |steps|
  {
    hide Sound, Saturated, Next, Explained;
    if steps == [] {
      assert hist + steps == hist;
    } else {
      NextSound(s, steps[0]);
      NextExplained(s, hist, steps[0]);
      RunExplained(Next(s, steps[0]), hist + [steps[0]], steps[1..]);
      assert hist + [steps[0]] + steps[1..] == hist + steps;
    }
  }

  /** After any run of questions and replies from an idle resolver: every callback called with a
      permission for user `u` was so because a reply about its credential had status ok and that user,
      a UUID; it was called at that reply, or on asking while that reply was the latest and live.  Every
      other was denied because of a reply that said something else, or a broken one just then.  The
      caches hold the latest replies only, and nobody who asked is forgotten. */
  lemma AnswersComeFromReplies(cfg: Config, helpers: nat, steps: seq<Step>)
    requires LegalRun(Idle(cfg, helpers), steps)
    ensures var s := RunAll(Idle(cfg, helpers), steps);
      && s.cfg == cfg && AllGrounded(cfg, steps, s.fired) && CachesExplained(s, steps) && NobodyLost(s, steps)
  {
    var s := Idle(cfg, helpers);
    assert Explained(s, []);
    hide Sound, Saturated, LegalRun, RunAll, CachesExplained, AllGrounded, WaitersAsked, NobodyLost;
    RunExplained(s, [], steps);
    assert [] + steps == steps;
  }

  // ----------------------------------------------------------- the time limit

  /** A number in decimal digits, without leading zeros. */
  function Decimal(n: nat): string {
    (if n < 10 then "" else Decimal(n / 10)) + ["0123456789"[n % 10]]
  }

  /** Reading the decimal text of a number gives the number. */
  lemma {:induction false} NanosRoundTrip(n: nat)
    ensures Decimal(n) != "" && ParseNanos(Decimal(n)) == Some(n)
  {
    var d := "0123456789"[n % 10];
    assert d as int - '0' as int == n % 10;
    assert Decimal(n)[|Decimal(n)| - 1] == d;
    if n >= 10 {
      NanosRoundTrip(n / 10);
      assert Decimal(n)[..|Decimal(n)| - 1] == Decimal(n / 10);
    }
  }
}
