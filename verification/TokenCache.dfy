/** The claims cache in front of the JWT verifier (src/interceptors/auth.rs:213-232, 431-465). Times are
    milliseconds; what a provider makes of a token, keys and signature included, is an input. */
module TokenCache {
  import opened Wrappers
  import opened Lru

  type Token = string
  type Claims = string
  type Instant = nat

  const TTL: nat := 60_000
  const CLOCK_SKEW_SECS: int := 60
  const I64_MAX: int := 0x7fff_ffff_ffff_ffff
  const I64_MIN: int := -0x8000_0000_0000_0000

  type I64 = i: int | -0x8000_0000_0000_0000 <= i <= 0x7fff_ffff_ffff_ffff

  /** A correctly signed payload; `exp` and `nbf` are there when they are integers. */
  datatype Payload = Payload(claims: Claims, exp: Option<I64>, nbf: Option<I64>)

  datatype CachedAuth = CachedAuth(claims: Claims, expiresAt: Instant)
  datatype Answer = Granted(claims: Claims) | NotConfigured | Refused

  type Provider = Token -> Option<Payload>

  // ---------------------------------------------------------------- the time checks

  function SaturatingAdd(a: I64, b: I64): I64 {
    if a + b > I64_MAX then I64_MAX else if a + b < I64_MIN then I64_MIN else a + b
  }

  /** The wall clock in whole seconds; no clock comes near the limit. */
  function Seconds(at: Instant): I64 { if at / 1000 > I64_MAX then I64_MAX else at / 1000 }

  predicate InTime(p: Payload, at: Instant) {
    && !(p.exp.Some? && Seconds(at) > SaturatingAdd(p.exp.value, CLOCK_SKEW_SECS))
    && !(p.nbf.Some? && SaturatingAdd(Seconds(at), CLOCK_SKEW_SECS) < p.nbf.value)
  }

  /** Saturation never decides: the checks are those of unbounded integers. */
  lemma SaturationIsHarmless(p: Payload, at: Instant)
    ensures InTime(p, at) <==>
              (p.exp.Some? ==> Seconds(at) <= p.exp.value + CLOCK_SKEW_SECS) &&
              (p.nbf.Some? ==> p.nbf.value - CLOCK_SKEW_SECS <= Seconds(at))
  {}

  function Verified(provider: Provider, token: Token, at: Instant): Option<Claims> {
    var p := provider(token);
    if p.Some? && InTime(p.value, at) then Some(p.value.claims) else None
  }

  // ---------------------------------------------------------------- one caller at a time

  predicate Hit(cache: Cache<Token, CachedAuth>, token: Token, now: Instant) {
    token in Contents(cache) && now < Contents(cache)[token].expiresAt
  }

  /** The answer without a cache. */
  function Uncached(provider: Option<Provider>, token: Token, at: Instant): Answer {
    if provider.None? then NotConfigured
    else
      var claims := Verified(provider.value, token, at);
      if claims.Some? then Granted(claims.value) else Refused
  }

  function Resolved(cache: Cache<Token, CachedAuth>, capacity: nat, provider: Option<Provider>, token: Token, now: Instant, at: Instant)
    : (Cache<Token, CachedAuth>, Answer)
  {
    var touched := Promoted(cache, token);
    if Hit(cache, token, now) then (touched, Granted(Contents(cache)[token].claims))
    else
      var answer := Uncached(provider, token, at);
      (if answer.Granted? then Put(touched, token, CachedAuth(answer.claims, now + TTL), capacity) else touched, answer)
  }

  /** The answer in numbers: an entry of the cache until the millisecond it expires at; else what the
      provider makes of the token, if its `exp` is at most 60 whole seconds past and its `nbf` at most 60
      ahead of the wall clock; and a token that is accepted is cached for 60 000 ms from the lookup. */
  ghost predicate AnsweredInNumbers(
      before: map<Token, CachedAuth>, provider: Option<Provider>, token: Token, now: Instant, at: Instant, after: map<Token, CachedAuth>, answer: Answer)
  {
    if token in before && now < before[token].expiresAt then answer == Granted(before[token].claims) && after == before
    else if provider.None? then answer == NotConfigured && after == before
    else
      var p := provider.value(token);
      if p.Some? && (p.value.exp.Some? ==> at / 1000 <= p.value.exp.value + 60) && (p.value.nbf.Some? ==> p.value.nbf.value - 60 <= at / 1000)
      then answer == Granted(p.value.claims) && token in after && after[token] == CachedAuth(p.value.claims, now + 60_000)
      else answer == Refused && after == before
  }

  lemma ResolvedInNumbers(cache: Cache<Token, CachedAuth>, capacity: nat, provider: Option<Provider>, token: Token, now: Instant, at: Instant)
    requires Distinct(cache) && 1 <= capacity && at / 1000 <= I64_MAX
    ensures var (after, answer) := Resolved(cache, capacity, provider, token, now, at);
            AnsweredInNumbers(Contents(cache), provider, token, now, at, Contents(after), answer)
  {
    PromotedContents(cache, token);
    if provider.Some? && provider.value(token).Some? {
      var p := provider.value(token).value;
      SaturationIsHarmless(p, at);
      PutContents(Promoted(cache, token), token, CachedAuth(p.claims, now + TTL), capacity);
    }
  }

  class RbacRequestInterceptor {
    const provider: Option<Provider>
    const capacity: nat
    var l1Cache: Cache<Token, CachedAuth>

    ghost predicate Valid()
      reads this
    {
      capacity >= 1 && Distinct(l1Cache) && |l1Cache| <= capacity
    }

    constructor (provider: Option<Provider>, capacity: nat)
      requires capacity >= 1
      ensures Valid() && l1Cache == [] && this.provider == provider && this.capacity == capacity
    {
      this.provider, this.capacity, l1Cache := provider, capacity, [];
    }

    method ResolveClaimsFromToken(token: Token, now: Instant, at: Instant) returns (answer: Answer)
      requires Valid()
      modifies this
      ensures Valid()
      ensures (l1Cache, answer) == Resolved(old(l1Cache), capacity, provider, token, now, at)
      ensures at / 1000 <= I64_MAX ==>
                AnsweredInNumbers(old(Contents(l1Cache)), provider, token, now, at, Contents(l1Cache), answer)
    {
      if at / 1000 <= I64_MAX { ResolvedInNumbers(l1Cache, capacity, provider, token, now, at); }
      PromotedContents(l1Cache, token);
      if token in Contents(l1Cache) {
        var cached := Contents(l1Cache)[token];
        l1Cache := Promoted(l1Cache, token);
        if now < cached.expiresAt { return Granted(cached.claims); }
      }
      if provider.None? { return NotConfigured; }
      var claims := Verified(provider.value, token, at);
      if claims.None? { return Refused; }
      PutContents(l1Cache, token, CachedAuth(claims.value, now + TTL), capacity);
      l1Cache := Put(l1Cache, token, CachedAuth(claims.value, now + TTL), capacity);
      answer := Granted(claims.value);
    }
  }

  /** Every entry that would be served at this moment says what the verifier says. */
  ghost predicate Truthful(cache: Cache<Token, CachedAuth>, provider: Option<Provider>, now: Instant, at: Instant) {
    && Distinct(cache)
    && forall token :: Hit(cache, token, now) ==> Uncached(provider, token, at) == Granted(Contents(cache)[token].claims)
  }

  function AllResolved(cache: Cache<Token, CachedAuth>, capacity: nat, provider: Option<Provider>, tokens: seq<Token>, now: Instant, at: Instant)
    : (Cache<Token, CachedAuth>, seq<Answer>)
  {
    if tokens == [] then (cache, [])
    else
      var (c, answers) := AllResolved(cache, capacity, provider, tokens[..|tokens| - 1], now, at);
      var (c', answer) := Resolved(c, capacity, provider, tokens[|tokens| - 1], now, at);
      (c', answers + [answer])
  }

  lemma ResolvedIsTruthful(cache: Cache<Token, CachedAuth>, capacity: nat, provider: Option<Provider>, token: Token, now: Instant, at: Instant)
    requires Truthful(cache, provider, now, at) && 1 <= capacity && |cache| <= capacity
    ensures var (c, answer) := Resolved(cache, capacity, provider, token, now, at);
            Truthful(c, provider, now, at) && |c| <= capacity && answer == Uncached(provider, token, at)
  {
    PromotedContents(cache, token);
    var touched := Promoted(cache, token);
    var answer := Uncached(provider, token, at);
    if !Hit(cache, token, now) && answer.Granted? {
      var entry := CachedAuth(answer.claims, now + TTL);
      PutContents(touched, token, entry, capacity);
      var c := Put(touched, token, entry, capacity);
      forall t | Hit(c, t, now)
        ensures Uncached(provider, t, at) == Granted(Contents(c)[t].claims)
      {
        if t != token { assert Hit(cache, t, now); }
      }
    }
  }

  /** With time and keys standing still the cache cannot be told from the verifier, whatever is looked
      up, evicted and looked up again; and it never grows past its capacity. */
  lemma {:induction false} CacheIsTransparent(
      cache: Cache<Token, CachedAuth>, capacity: nat, provider: Option<Provider>, tokens: seq<Token>, now: Instant, at: Instant)
    requires Truthful(cache, provider, now, at) && 1 <= capacity && |cache| <= capacity
    ensures var (c, answers) := AllResolved(cache, capacity, provider, tokens, now, at);
            && Truthful(c, provider, now, at) && |c| <= capacity && |answers| == |tokens|
            && forall i :: 0 <= i < |tokens| ==> answers[i] == Uncached(provider, tokens[i], at)
  {
    if tokens != [] {
      var n := |tokens| - 1;
      CacheIsTransparent(cache, capacity, provider, tokens[..n], now, at);
      var (c, answers) := AllResolved(cache, capacity, provider, tokens[..n], now, at);
      ResolvedIsTruthful(c, capacity, provider, tokens[n], now, at);
    }
  }

  // ---------------------------------------------------------------- any number of callers

  type ThreadId = nat

  /** Both clocks at one moment: the cache reads the monotonic one, the verifier the wall clock. */
  datatype Moment = Moment(mono: Instant, wall: Instant)

  /** A caller that missed the cache at `begun`: at the verifier, or back from it. */
  datatype Pending = Verifying(token: Token, begun: Instant) | Storing(token: Token, begun: Instant, claims: Claims)

  datatype State = State(cache: Cache<Token, CachedAuth>, pending: map<ThreadId, Pending>)

  /** The cache is locked for the lookup and again for the store, not in between; keys may change
      from one verification to the next, so each brings its own answer. */
  datatype Event =
    | LookUp(thread: ThreadId, token: Token, t: Moment)
    | Verify(thread: ThreadId, t: Moment, signed: Option<Payload>)
    | Store(thread: ThreadId)

  predicate VerifyPasses(st: State, e: Event) {
    && e.Verify? && e.thread in st.pending && st.pending[e.thread].Verifying?
    && e.signed.Some? && InTime(e.signed.value, e.t.wall)
  }

  predicate Stores(st: State, e: Event) { e.Store? && e.thread in st.pending && st.pending[e.thread].Storing? }

  function Step(capacity: nat, st: State, e: Event): State {
    match e
    case LookUp(thread, token, t) =>
      if thread in st.pending then st
      else State(Promoted(st.cache, token),
                 if Hit(st.cache, token, t.mono) then st.pending else st.pending[thread := Verifying(token, t.mono)])
    case Verify(thread, _, signed) =>
      if thread !in st.pending || !st.pending[thread].Verifying? then st
      else if VerifyPasses(st, e) then
        st.(pending := st.pending[thread := Storing(st.pending[thread].token, st.pending[thread].begun, signed.value.claims)])
      else st.(pending := st.pending - {thread})
    case Store(thread) =>
      if !Stores(st, e) then st
      else
        var p := st.pending[thread];
        State(Put(st.cache, p.token, CachedAuth(p.claims, p.begun + TTL), capacity), st.pending - {thread})
  }

  function Run(capacity: nat, log: seq<Event>): State {
    if log == [] then State([], map[]) else Step(capacity, Run(capacity, log[..|log| - 1]), log[|log| - 1])
  }

  /** A token accepted at an event: out of the cache, or by the verifier. */
  datatype Acceptance = Acceptance(token: Token, claims: Claims, time: Moment)

  function AcceptedBy(st: State, e: Event): Option<Acceptance> {
    match e
    case LookUp(thread, token, t) =>
      if thread !in st.pending && Hit(st.cache, token, t.mono) then Some(Acceptance(token, Contents(st.cache)[token].claims, t)) else None
    case Verify(thread, t, signed) =>
      if VerifyPasses(st, e) then Some(Acceptance(st.pending[thread].token, signed.value.claims, t)) else None
    case Store(_) => None
  }

  /** One call of `resolve_claims_from_token` is one caller's lookup, verification and store: the same
      answer, and the same cache in the end. */
  lemma CallIsOneCaller(
      capacity: nat, st: State, thread: ThreadId, provider: Provider, token: Token, begun: Moment, verified: Moment)
    requires thread !in st.pending
    ensures var (cache, answer) := Resolved(st.cache, capacity, Some(provider), token, begun.mono, verified.wall);
            var look, verify := LookUp(thread, token, begun), Verify(thread, verified, provider(token));
            var looked := Step(capacity, st, look);
            && Step(capacity, Step(capacity, looked, verify), Store(thread)) == State(cache, st.pending)
            && (answer.Granted? <==> AcceptedBy(st, look).Some? || AcceptedBy(looked, verify).Some?)
            && (AcceptedBy(st, look).Some? ==> AcceptedBy(st, look).value.claims == answer.claims)
            && (AcceptedBy(looked, verify).Some? ==> AcceptedBy(looked, verify).value.claims == answer.claims)
  {
    var looked := Step(capacity, st, LookUp(thread, token, begun));
    var checked := Step(capacity, looked, Verify(thread, verified, provider(token)));
    assert looked.pending - {thread} == st.pending;
    assert checked.pending - {thread} == st.pending;
  }

  // ---------------------------------------------------------------- where an answer comes from

  /** The verifications, by their place in the log, behind what each caller is about to store and behind
      what was last stored for each token. */
  datatype Origins = Origins(storing: map<ThreadId, nat>, stored: map<Token, nat>)

  function OriginsAfter(st: State, o: Origins, e: Event, place: nat): Origins {
    if VerifyPasses(st, e) then o.(storing := o.storing[e.thread := place])
    else if Stores(st, e) && e.thread in o.storing then o.(stored := o.stored[st.pending[e.thread].token := o.storing[e.thread]])
    else o
  }

  function OriginsOf(capacity: nat, log: seq<Event>): Origins {
    if log == [] then Origins(map[], map[])
    else
      var n := |log| - 1;
      OriginsAfter(Run(capacity, log[..n]), OriginsOf(capacity, log[..n]), log[n], n)
  }

  /** Event `j` of the log verified the token, for a caller that began at `begun`. */
  ghost predicate VerifiedThen(capacity: nat, log: seq<Event>, j: nat, token: Token, claims: Claims, begun: Instant) {
    && j < |log|
    && var st := Run(capacity, log[..j]);
       && VerifyPasses(st, log[j])
       && st.pending[log[j].thread] == Verifying(token, begun)
       && log[j].signed.value.claims == claims
  }

  ghost predicate CacheBacked(capacity: nat, log: seq<Event>, cache: Cache<Token, CachedAuth>, stored: map<Token, nat>) {
    && Distinct(cache) && |cache| <= capacity
    && (forall token :: token in Contents(cache) ==>
          token in stored && EntryBacked(capacity, log, token, Contents(cache)[token], stored[token]))
  }

  /** The entry lasts a TTL from the moment at which the caller that had it verified began. */
  ghost predicate EntryBacked(capacity: nat, log: seq<Event>, token: Token, entry: CachedAuth, j: nat) {
    entry.expiresAt >= TTL && VerifiedThen(capacity, log, j, token, entry.claims, entry.expiresAt - TTL)
  }

  ghost predicate PendingBacked(capacity: nat, log: seq<Event>, pending: map<ThreadId, Pending>, storing: map<ThreadId, nat>) {
    forall th :: th in pending && pending[th].Storing? ==>
      th in storing && VerifiedThen(capacity, log, storing[th], pending[th].token, pending[th].claims, pending[th].begun)
  }

  ghost predicate AllBacked(capacity: nat, log: seq<Event>, st: State, o: Origins) {
    CacheBacked(capacity, log, st.cache, o.stored) && PendingBacked(capacity, log, st.pending, o.storing)
  }

  lemma VerifiedLonger(capacity: nat, log: seq<Event>, e: Event, j: nat, token: Token, claims: Claims, begun: Instant)
    requires VerifiedThen(capacity, log, j, token, claims, begun)
    ensures VerifiedThen(capacity, log + [e], j, token, claims, begun)
  {
    assert (log + [e])[..j] == log[..j];
  }

  lemma StaysBacked(capacity: nat, log: seq<Event>, e: Event, st: State, o: Origins)
    requires AllBacked(capacity, log, st, o)
    ensures AllBacked(capacity, log + [e], st, o)
  {
    forall token | token in Contents(st.cache)
      ensures EntryBacked(capacity, log + [e], token, Contents(st.cache)[token], o.stored[token])
    {
      var entry := Contents(st.cache)[token];
      assert EntryBacked(capacity, log, token, entry, o.stored[token]);
      VerifiedLonger(capacity, log, e, o.stored[token], token, entry.claims, entry.expiresAt - TTL);
    }
    forall th | th in st.pending && st.pending[th].Storing?
      ensures VerifiedThen(capacity, log + [e], o.storing[th], st.pending[th].token, st.pending[th].claims, st.pending[th].begun)
    {
      VerifiedLonger(capacity, log, e, o.storing[th], st.pending[th].token, st.pending[th].claims, st.pending[th].begun);
    }
  }

  lemma LookUpBacked(capacity: nat, log: seq<Event>, st: State, o: Origins, e: Event)
    requires AllBacked(capacity, log, st, o) && e.LookUp?
    ensures AllBacked(capacity, log, Step(capacity, st, e), o)
  {
    PromotedContents(st.cache, e.token);
  }

  lemma VerifyBacked(capacity: nat, log: seq<Event>, st: State, o: Origins, e: Event, place: nat)
    requires AllBacked(capacity, log, st, o) && e.Verify?
    requires VerifyPasses(st, e) ==>
               VerifiedThen(capacity, log, place, st.pending[e.thread].token, e.signed.value.claims, st.pending[e.thread].begun)
    ensures AllBacked(capacity, log, Step(capacity, st, e), OriginsAfter(st, o, e, place))
  {}

  lemma PutBacked(capacity: nat, log: seq<Event>, cache: Cache<Token, CachedAuth>, stored: map<Token, nat>, token: Token, entry: CachedAuth, j: nat)
    requires 1 <= capacity && CacheBacked(capacity, log, cache, stored) && EntryBacked(capacity, log, token, entry, j)
    ensures CacheBacked(capacity, log, Put(cache, token, entry, capacity), stored[token := j])
  {
    PutContents(cache, token, entry, capacity);
    var after := Contents(Put(cache, token, entry, capacity));
    assert forall t :: t in after && t != token ==> t in Contents(cache) && after[t] == Contents(cache)[t];
  }

  lemma StoreBacked(capacity: nat, log: seq<Event>, st: State, o: Origins, e: Event, place: nat)
    requires 1 <= capacity && AllBacked(capacity, log, st, o) && e.Store?
    ensures AllBacked(capacity, log, Step(capacity, st, e), OriginsAfter(st, o, e, place))
  {
    if Stores(st, e) {
      var p := st.pending[e.thread];
      PutBacked(capacity, log, st.cache, o.stored, p.token, CachedAuth(p.claims, p.begun + TTL), o.storing[e.thread]);
    }
  }

  lemma StepBacked(capacity: nat, log: seq<Event>, e: Event)
    requires 1 <= capacity && AllBacked(capacity, log, Run(capacity, log), OriginsOf(capacity, log))
    ensures AllBacked(capacity, log + [e], Run(capacity, log + [e]), OriginsOf(capacity, log + [e]))
  {
    var st, o, log' := Run(capacity, log), OriginsOf(capacity, log), log + [e];
    assert log'[..|log|] == log;
    StaysBacked(capacity, log, e, st, o);
    match e
    case LookUp(_, _, _) => LookUpBacked(capacity, log', st, o, e);
    case Verify(thread, _, signed) =>
      if VerifyPasses(st, e) {
        assert VerifiedThen(capacity, log', |log|, st.pending[thread].token, signed.value.claims, st.pending[thread].begun);
      }
      VerifyBacked(capacity, log', st, o, e, |log|);
    case Store(_) => StoreBacked(capacity, log', st, o, e, |log|);
  }

  /** The cache keeps within its capacity in every interleaving, and every entry in it was verified, for
      its token and with its claims, by the verification that it is traced to. */
  lemma {:induction false} AlwaysBacked(capacity: nat, log: seq<Event>)
    requires 1 <= capacity
    ensures AllBacked(capacity, log, Run(capacity, log), OriginsOf(capacity, log))
  {
    if log != [] {
      AlwaysBacked(capacity, log[..|log| - 1]);
      StepBacked(capacity, log[..|log| - 1], log[|log| - 1]);
      assert log == log[..|log| - 1] + [log[|log| - 1]];
    }
  }

  /** Where the claims accepted at `e` were verified. */
  function Origin(capacity: nat, log: seq<Event>, e: Event): nat {
    if e.LookUp? && e.token in OriginsOf(capacity, log).stored then OriginsOf(capacity, log).stored[e.token] else |log|
  }

  lemma HitOrigin(capacity: nat, log: seq<Event>, e: Event)
    requires 1 <= capacity && e.LookUp? && AcceptedBy(Run(capacity, log), e).Some?
    ensures var a, entry := AcceptedBy(Run(capacity, log), e).value, Contents(Run(capacity, log).cache)[e.token];
            && a.time.mono < entry.expiresAt
            && EntryBacked(capacity, log, a.token, entry, Origin(capacity, log, e)) && a.claims == entry.claims
  {
    AlwaysBacked(capacity, log);
  }

  // ---------------------------------------------------------------- how old an answer is

  predicate Timed(e: Event) { e.LookUp? || e.Verify? }

  /** No caller's verification comes, on the monotonic clock, before its lookup. */
  ghost predicate ClocksAdvance(capacity: nat, log: seq<Event>) {
    forall j, th :: 0 <= j < |log| && log[j].Verify? && th == log[j].thread && th in Run(capacity, log[..j]).pending
      ==> Run(capacity, log[..j]).pending[th].begun <= log[j].t.mono
  }

  /** The log is in the order of the monotonic clock. */
  ghost predicate Chronological(log: seq<Event>) {
    forall i, j :: 0 <= i < j < |log| && Timed(log[i]) && Timed(log[j]) ==> log[i].t.mono <= log[j].t.mono
  }

  /** Whoever is accepted, at any moment of any interleaving, gets the claims of a verification of the
      same token that passed at most, and less than, a minute before. */
  lemma AcceptedClaimsWereVerified(capacity: nat, log: seq<Event>, e: Event)
    requires 1 <= capacity && ClocksAdvance(capacity, log)
    requires AcceptedBy(Run(capacity, log), e).Some?
    ensures var a, j, log' := AcceptedBy(Run(capacity, log), e).value, Origin(capacity, log, e), log + [e];
            && j < |log'| && VerifyPasses(Run(capacity, log'[..j]), log'[j])
            && Run(capacity, log'[..j]).pending[log'[j].thread].token == a.token
            && log'[j].signed.value.claims == a.claims
            && a.time.mono < log'[j].t.mono + TTL
            && (Chronological(log') ==> log'[j].t.mono <= a.time.mono)
  {
    var j := Origin(capacity, log, e);
    if e.Verify? {
      assert (log + [e])[..j] == log;
    } else {
      HitOrigin(capacity, log, e);
      assert (log + [e])[..j] == log[..j];
      assert (log + [e])[|log|] == e;
    }
  }

  /** Between two readings of the log the wall clock gains at most `gain` on the monotonic one. */
  ghost predicate GainsAtMost(log: seq<Event>, gain: nat) {
    forall i, j :: 0 <= i < j < |log| && Timed(log[i]) && Timed(log[j]) ==>
      log[j].t.wall - log[i].t.wall <= log[j].t.mono - log[i].t.mono + gain
  }

  lemma MinuteLater(p: Payload, at: Instant, time: Instant, gain: nat)
    requires InTime(p, at) && time < at + TTL + gain && p.exp.Some?
    ensures Seconds(time) <= p.exp.value + 2 * CLOCK_SKEW_SECS + (gain + 998) / 1000
  {
    SaturationIsHarmless(p, at);
    var limit: int := p.exp.value + CLOCK_SKEW_SECS;
    if at / 1000 <= limit {
      assert at <= 1000 * limit + 999;
      assert time <= 1000 * (limit + CLOCK_SKEW_SECS) + (998 + gain);
      FloorOfSum(time, limit + CLOCK_SKEW_SECS, 998 + gain);
    }
  }

  lemma FloorOfSum(time: nat, seconds: int, rest: nat)
    requires time <= 1000 * seconds + rest
    ensures time / 1000 <= seconds + rest / 1000
  {}

  /** An accepted token expired at most two skews ago by the wall clock's whole seconds, and by what that
      clock has gained on the monotonic one. */
  lemma AcceptedTokensAreRecent(capacity: nat, log: seq<Event>, e: Event, gain: nat)
    requires 1 <= capacity && ClocksAdvance(capacity, log) && GainsAtMost(log + [e], gain)
    requires AcceptedBy(Run(capacity, log), e).Some?
    ensures Origin(capacity, log, e) <= |log|
    ensures var a, v := AcceptedBy(Run(capacity, log), e).value, (log + [e])[Origin(capacity, log, e)];
            v.Verify? && v.signed.Some? &&
            (v.signed.value.exp.Some? ==>
               Seconds(a.time.wall) <= v.signed.value.exp.value + 2 * CLOCK_SKEW_SECS + (gain + 998) / 1000)
  {
    AcceptedClaimsWereVerified(capacity, log, e);
    var a, j, log' := AcceptedBy(Run(capacity, log), e).value, Origin(capacity, log, e), log + [e];
    if log'[j].signed.value.exp.Some? {
      assert log'[|log|] == e && Timed(e) && Timed(log'[j]);
      MinuteLater(log'[j].signed.value, log'[j].t.wall, a.time.wall, gain);
    }
  }

  // ---------------------------------------------------------------- two minutes, to the millisecond

  predicate WithinTwoMinutes(exp: I64, time: Instant) { time < 1000 * (exp + 120) }

  /** The two clocks advance together, the wall clock showing `offset` more. */
  ghost predicate InStep(log: seq<Event>, offset: int) {
    forall i :: 0 <= i < |log| && Timed(log[i]) ==> log[i].t.wall == log[i].t.mono + offset
  }

  /** Accepted out of the cache, from what event `j` verified. */
  ghost predicate ServedFrom(capacity: nat, log: seq<Event>, e: Event, j: nat) {
    e.LookUp? && AcceptedBy(Run(capacity, log), e).Some? && Origin(capacity, log, e) == j
  }

  /** However the run goes on, what the last event of the log verified is never served later than two
      minutes after `exp`. */
  ghost predicate AlwaysWithinTwoMinutes(capacity: nat, log: seq<Event>, exp: I64, offset: int)
    requires log != []
  {
    forall longer: seq<Event>, e: Event ::
      log <= longer && InStep(longer + [e], offset) && ServedFrom(capacity, longer, e, |log| - 1) ==>
        WithinTwoMinutes(exp, e.t.wall)
  }

  /** Counted in milliseconds the two minutes hold for everything served out of a verification if and only
      if its caller began no later than a skew after `exp`: the verifier drops the fraction of its second. */
  lemma TwoMinutesHoldIff(capacity: nat, log: seq<Event>, v: Event, offset: int)
    requires 1 <= capacity && InStep(log + [v], offset)
    requires VerifyPasses(Run(capacity, log), v) && v.signed.value.exp.Some?
    ensures var exp, begun := v.signed.value.exp.value, Run(capacity, log).pending[v.thread].begun;
            AlwaysWithinTwoMinutes(capacity, log + [v], exp, offset) <==> begun + offset <= 1000 * (exp + CLOCK_SKEW_SECS)
  {
    var exp, begun := v.signed.value.exp.value, Run(capacity, log).pending[v.thread].begun;
    if begun + offset <= 1000 * (exp + CLOCK_SKEW_SECS) {
      forall longer: seq<Event>, e: Event | log + [v] <= longer && InStep(longer + [e], offset) && ServedFrom(capacity, longer, e, |log|)
        ensures WithinTwoMinutes(exp, e.t.wall)
      {
        HitOrigin(capacity, longer, e);
        assert longer[..|log|] == (log + [v])[..|log|] == log;
        assert (longer + [e])[|longer|] == e;
      }
    } else {
      SaturationIsHarmless(v.signed.value, v.t.wall);
      LateService(capacity, log, v, offset);
    }
  }

  /** A caller that stores what it verified, and the last moment at which that is served. */
  lemma LateService(capacity: nat, log: seq<Event>, v: Event, offset: int)
    requires 1 <= capacity && InStep(log + [v], offset)
    requires VerifyPasses(Run(capacity, log), v) && v.signed.value.exp.Some?
    requires var begun := Run(capacity, log).pending[v.thread].begun;
             begun + offset > 1000 * (v.signed.value.exp.value + CLOCK_SKEW_SECS) && v.signed.value.exp.value + CLOCK_SKEW_SECS >= 0
    ensures !AlwaysWithinTwoMinutes(capacity, log + [v], v.signed.value.exp.value, offset)
  {
    var p := Run(capacity, log).pending[v.thread];
    var mono := p.begun + TTL - 1;
    var longer, e := log + [v] + [Store(v.thread)], LookUp(v.thread, p.token, Moment(mono, mono + offset));
    StoredIsServed(capacity, log, v, e);
    assert InStep(longer + [e], offset) by {
      assert forall i :: 0 <= i < |log + [v]| ==> (longer + [e])[i] == (log + [v])[i];
    }
    assert ServedFrom(capacity, longer, e, |log|);
  }

  lemma RunAppends(capacity: nat, log: seq<Event>, e: Event)
    ensures Run(capacity, log + [e]) == Step(capacity, Run(capacity, log), e)
    ensures OriginsOf(capacity, log + [e]) == OriginsAfter(Run(capacity, log), OriginsOf(capacity, log), e, |log|)
  {
    assert (log + [e])[..|log|] == log;
  }

  /** What `place` verified can be stored, and is then served to whoever asks in time. */
  lemma StoreServes(capacity: nat, st: State, o: Origins, thread: ThreadId, now: Instant, place: nat)
    requires 1 <= capacity && Distinct(st.cache) && Stores(st, Store(thread)) && thread in o.storing
    requires now < st.pending[thread].begun + TTL
    ensures var p, st' := st.pending[thread], Step(capacity, st, Store(thread));
            thread !in st'.pending && Hit(st'.cache, p.token, now)
    ensures var p, o' := st.pending[thread], OriginsAfter(st, o, Store(thread), place);
            p.token in o'.stored && o'.stored[p.token] == o.storing[thread]
  {
    var p := st.pending[thread];
    PutContents(st.cache, p.token, CachedAuth(p.claims, p.begun + TTL), capacity);
  }

  lemma StoredIsServed(capacity: nat, log: seq<Event>, v: Event, e: Event)
    requires 1 <= capacity && VerifyPasses(Run(capacity, log), v)
    requires var p := Run(capacity, log).pending[v.thread];
             e.LookUp? && e.thread == v.thread && e.token == p.token && e.t.mono < p.begun + TTL
    ensures ServedFrom(capacity, log + [v] + [Store(v.thread)], e, |log|)
  {
    var verified := log + [v];
    RunAppends(capacity, log, v);
    RunAppends(capacity, verified, Store(v.thread));
    AlwaysBacked(capacity, verified);
    StoreServes(capacity, Run(capacity, verified), OriginsOf(capacity, verified), v.thread, e.t.mono, |verified|);
  }

  /** A token that expired at second 100, looked up and verified at 160.999 s, is still served at 220.998 s. */
  lemma TwoMinutesCanBeExceeded()
    ensures var t, p, late := Moment(160_999, 160_999), Payload("alice", Some(100), None), Moment(220_998, 220_998);
            && AcceptedBy(Run(1, [LookUp(0, "t", t), Verify(0, t, Some(p)), Store(0)]), LookUp(1, "t", late)) ==
                 Some(Acceptance("t", "alice", late))
            && !WithinTwoMinutes(100, late.wall)
  {
    var t, p := Moment(160_999, 160_999), Payload("alice", Some(100), None);
    var e0, e1, e2 := LookUp(0, "t", t), Verify(0, t, Some(p)), Store(0);
    var log := [e0, e1, e2];
    assert log[..2] == [e0, e1] && [e0, e1][..1] == [e0] && [e0][..0] == [];
    assert Run(1, [e0]) == State([], map[0 := Verifying("t", 160_999)]);
    assert InTime(p, 160_999);
    assert Run(1, [e0, e1]) == State([], map[0 := Storing("t", 160_999, "alice")]);
    assert Run(1, log).cache == [("t", CachedAuth("alice", 220_999))];
    assert Contents([("t", CachedAuth("alice", 220_999))][1..]) == map[];
  }
}
