/** The request lifecycle and the engine together: requests that settle only what they hold keep the
    engine's lock exclusive (src/gateway/composite_service.rs, src/idempotency/mod.rs). */
module GatewayExclusion {
  import Idempotency
  import Lifecycle
  import opened IdempotencyLocks
  import opened IdempotencyExclusion

  type Key = Idempotency.Key

  /** The part of a request that its keys depend on: each key granted to it and each key it settled. */
  datatype Call = Grant(key: Key) | Settle(key: Key)

  function WithCall(calls: seq<Call>, e: Lifecycle.Effect): seq<Call> {
    match e
    case Checked(key, answer) => if answer.New? then calls + [Grant(key)] else calls
    case CompletedKey(key) => calls + [Settle(key)]
    case RemovedKey(key) => calls + [Settle(key)]
    case _ => calls
  }

  function CallsOf(effects: seq<Lifecycle.Effect>): seq<Call> {
    if effects == [] then [] else WithCall(CallsOf(effects[..|effects| - 1]), effects[|effects| - 1])
  }

  function WithHappening(calls: seq<Call>, h: Happening, request: nat): seq<Call> {
    match h
    case Acquired(t, key, _) => if t == request then calls + [Grant(key)] else calls
    case Finished(t, key, _, _, _) => if t == request then calls + [Settle(key)] else calls
    case Removed(t, key) => if t == request then calls + [Settle(key)] else calls
    case _ => calls
  }

  /** The same, as the engine saw it: the calls of one request among everybody's. */
  function CallsIn(log: seq<Happening>, request: nat): seq<Call> {
    if log == [] then [] else WithHappening(CallsIn(log[..|log| - 1], request), log[|log| - 1], request)
  }

  function HeldAfterCalls(calls: seq<Call>): set<Key> {
    if calls == [] then {}
    else
      var (before, c) := (HeldAfterCalls(calls[..|calls| - 1]), calls[|calls| - 1]);
      if c.Grant? then before + {c.key} else before - {c.key}
  }

  predicate SettlesOnlyHeld(calls: seq<Call>) {
    calls == [] ||
    var (before, c) := (calls[..|calls| - 1], calls[|calls| - 1]);
    SettlesOnlyHeld(before) && (c.Settle? ==> c.key in HeldAfterCalls(before))
  }

  lemma Snoc(calls: seq<Call>, c: Call)
    ensures (calls + [c])[..|calls + [c]| - 1] == calls
    ensures HeldAfterCalls(calls + [c]) == if c.Grant? then HeldAfterCalls(calls) + {c.key} else HeldAfterCalls(calls) - {c.key}
    ensures SettlesOnlyHeld(calls + [c]) <==> SettlesOnlyHeld(calls) && (c.Settle? ==> c.key in HeldAfterCalls(calls))
  {
    assert (calls + [c])[..|calls|] == calls;
  }

  ghost predicate BooksMatch(l: Lifecycle.Ledger, calls: seq<Call>) {
    l.held == HeldAfterCalls(calls) && (l.orderly <==> SettlesOnlyHeld(calls))
  }

  lemma EntryMatches(l: Lifecycle.Ledger, calls: seq<Call>, e: Lifecycle.Effect)
    requires BooksMatch(l, calls)
    ensures BooksMatch(Lifecycle.Entered(l, e), WithCall(calls, e))
  {
    match e
    case Checked(key, answer) => if answer.New? { Snoc(calls, Grant(key)); }
    case CompletedKey(key) => Snoc(calls, Settle(key));
    case RemovedKey(key) => Snoc(calls, Settle(key));
    case _ =>
  }

  /** The books of a request are orderly exactly when its calls settle only held keys. */
  lemma {:induction false} BooksFollowCalls(effects: seq<Lifecycle.Effect>)
    ensures BooksMatch(Lifecycle.Account(effects), CallsOf(effects))
  {
    if effects != [] {
      var before := effects[..|effects| - 1];
      BooksFollowCalls(before);
      EntryMatches(Lifecycle.Account(before), CallsOf(before), effects[|effects| - 1]);
    }
  }

  lemma HoldingStep(calls: seq<Call>, h: Happening, request: nat, key: Key)
    ensures key in HeldAfterCalls(WithHappening(calls, h, request)) <==>
              if Changes(h, key) && !h.Lost? && h.thread == request then h.Acquired? else key in HeldAfterCalls(calls)
  {
    match h
    case Acquired(t, k, _) => Snoc(calls, Grant(k));
    case Finished(t, k, _, _, _) => Snoc(calls, Settle(k));
    case Removed(t, k) => Snoc(calls, Settle(k));
    case _ =>
  }

  lemma {:induction false} HoldsFollowsCalls(log: seq<Happening>, request: nat, key: Key)
    ensures Holds(log, request, key) <==> key in HeldAfterCalls(CallsIn(log, request))
  {
    if log != [] {
      var before := log[..|log| - 1];
      HoldsFollowsCalls(before, request, key);
      HoldingStep(CallsIn(before, request), log[|log| - 1], request, key);
    }
  }

  lemma {:induction false} PrefixSettlesOnlyHeld(calls: seq<Call>, prefix: seq<Call>)
    requires prefix <= calls && SettlesOnlyHeld(calls)
    ensures SettlesOnlyHeld(prefix)
  {
    if |prefix| < |calls| {
      PrefixSettlesOnlyHeld(calls[..|calls| - 1], prefix);
    } else {
      assert prefix == calls;
    }
  }

  // ---------------------------------------------------------------- requests that follow their lifecycle

  /** A request, the effects of handling it, and how many of them it has got to. */
  datatype Served = Served(req: Lifecycle.Request, effects: seq<Lifecycle.Effect>, done: nat) {
    ghost predicate Valid() { req.Valid() && Lifecycle.HandledAs(req, effects) && done <= |effects| }

    function SoFar(): Lifecycle.Ledger
      requires done <= |effects|
    {
      Lifecycle.Account(effects[..done])
    }
  }

  /** The engine's log is the work of these requests, numbered from zero, each somewhere in its lifecycle. */
  ghost predicate WorkOf(log: seq<Happening>, served: seq<Served>) {
    && (forall r :: 0 <= r < |served| ==> served[r].Valid())
    && (forall request: nat :: CallsIn(log, request) ==
          if request < |served| then CallsOf(served[request].effects[..served[request].done]) else [])
  }

  lemma {:induction false} PrefixCalls(effects: seq<Lifecycle.Effect>, done: nat)
    requires done <= |effects|
    ensures CallsOf(effects[..done]) <= CallsOf(effects)
  {
    if done < |effects| {
      var init := effects[..|effects| - 1];
      assert init[..done] == effects[..done];
      PrefixCalls(init, done);
    } else {
      assert effects[..done] == effects;
    }
  }

  lemma ServedSettleOnlyHeld(log: seq<Happening>, served: seq<Served>, request: nat)
    requires WorkOf(log, served)
    ensures SettlesOnlyHeld(CallsIn(log, request))
  {
    if request < |served| {
      var sv := served[request];
      PrefixCalls(sv.effects, sv.done);
      BooksFollowCalls(sv.effects);
      PrefixSettlesOnlyHeld(CallsOf(sv.effects), CallsOf(sv.effects[..sv.done]));
    } else {
      assert CallsIn(log, request) == [];
    }
  }

  /** The key was never found expired and never evicted. */
  ghost predicate KeptAlive(log: seq<Happening>, key: Key) {
    forall i :: 0 <= i < |log| && log[i].key == key ==> !log[i].Lost? && !(log[i].Acquired? && log[i].overExpired)
  }

  lemma {:induction false} OrderlyRequestsLeaveUndisturbed(log: seq<Happening>, key: Key)
    requires KeptAlive(log, key)
    requires forall request: nat :: SettlesOnlyHeld(CallsIn(log, request))
    ensures Undisturbed(log, key)
  {
    if log != [] {
      var (before, h) := (log[..|log| - 1], log[|log| - 1]);
      forall request: nat
        ensures SettlesOnlyHeld(CallsIn(before, request))
      {
        assert SettlesOnlyHeld(CallsIn(log, request));
        PrefixSettlesOnlyHeld(CallsIn(log, request), CallsIn(before, request));
      }
      OrderlyRequestsLeaveUndisturbed(before, key);
      if Changes(h, key) && !h.Acquired? {
        assert log[|log| - 1].key == key;
        HoldsFollowsCalls(before, h.thread, key);
        assert SettlesOnlyHeld(CallsIn(log, h.thread));
        Snoc(CallsIn(before, h.thread), Settle(key));
      }
    }
  }

  /** Exclusion through the gateway: when every request follows its lifecycle, a key that neither
      expires nor is evicted is held by at most one request at a time, in every interleaving, and is
      granted at most once more often than it was removed. */
  lemma GatewayExcludes(cfg: Idempotency.Config, events: seq<Event>, served: seq<Served>, key: Key)
    requires KeptAlive(Run(cfg, events).log, key) && WorkOf(Run(cfg, events).log, served)
    ensures Exclusive(cfg, Run(cfg, events), key)
    ensures Count(Run(cfg, events).log, Acquisition, key) <= 1 + Count(Run(cfg, events).log, Removal, key)
  {
    var log := Run(cfg, events).log;
    forall request: nat
      ensures SettlesOnlyHeld(CallsIn(log, request))
    {
      ServedSettleOnlyHeld(log, served, request);
    }
    OrderlyRequestsLeaveUndisturbed(log, key);
    AtMostOneHolder(cfg, events, key);
    AtMostOnce(cfg, events, key);
    NothingLost(log, key);
  }

  lemma {:induction false} NothingLost(log: seq<Happening>, key: Key)
    requires KeptAlive(log, key)
    ensures Count(log, Loss, key) == 0 && Count(log, ExpiredTakeover, key) == 0
  {
    if log != [] {
      NothingLost(log[..|log| - 1], key);
      assert log[|log| - 1].key == key ==> !log[|log| - 1].Lost?;
    }
  }

  // ---------------------------------------------------------------- executions

  lemma {:induction false} AcquiredIsGranted(effects: seq<Lifecycle.Effect>, key: Key)
    ensures key in Lifecycle.Account(effects).acquired <==> Grant(key) in CallsOf(effects)
  {
    if effects != [] {
      var before, e := effects[..|effects| - 1], effects[|effects| - 1];
      AcquiredIsGranted(before, key);
      EntryIsGranted(Lifecycle.Account(before), CallsOf(before), e, key);
    }
  }

  lemma EntryIsGranted(l: Lifecycle.Ledger, calls: seq<Call>, e: Lifecycle.Effect, key: Key)
    requires key in l.acquired <==> Grant(key) in calls
    ensures key in Lifecycle.Entered(l, e).acquired <==> Grant(key) in WithCall(calls, e)
  {}

  ghost predicate AcquiredBy(log: seq<Happening>, request: nat, key: Key) {
    exists i :: 0 <= i < |log| && log[i].Acquired? && log[i].thread == request && log[i].key == key
  }

  lemma {:induction false} GrantedWasAcquired(log: seq<Happening>, request: nat, key: Key)
    requires Grant(key) in CallsIn(log, request)
    ensures AcquiredBy(log, request, key)
  {
    var before, h := log[..|log| - 1], log[|log| - 1];
    if Grant(key) in CallsIn(before, request) {
      GrantedWasAcquired(before, request, key);
      var i :| 0 <= i < |before| && before[i].Acquired? && before[i].thread == request && before[i].key == key;
      assert log[i] == before[i];
    } else {
      assert h.Acquired? && h.thread == request && h.key == key;
    }
  }

  lemma {:induction false} AcquirersAreCounted(log: seq<Happening>, key: Key, acquirers: set<nat>)
    requires forall request :: request in acquirers ==> AcquiredBy(log, request, key)
    ensures |acquirers| <= Count(log, Acquisition, key)
  {
    if log == [] {
      assert forall request :: AcquiredBy(log, request, key) ==> 0 < |log|;
      assert acquirers == {};
    } else {
      var before, h := log[..|log| - 1], log[|log| - 1];
      var others := if Is(Acquisition, h, key) then acquirers - {h.thread} else acquirers;
      forall request | request in others
        ensures AcquiredBy(before, request, key)
      {
        assert AcquiredBy(log, request, key);
        var i :| 0 <= i < |log| && log[i].Acquired? && log[i].thread == request && log[i].key == key;
        assert before[i] == log[i];
      }
      AcquirersAreCounted(before, key, others);
    }
  }

  /** What an execution was covered by had been acquired, and there is one cover for each. */
  ghost predicate CoverIsAcquired(l: Lifecycle.Ledger) {
    && |l.coveredBy| == l.executed
    && (forall key :: key in l.held ==> key in l.acquired)
    && (forall i, key :: 0 <= i < |l.coveredBy| && key in l.coveredBy[i] ==> key in l.acquired)
  }

  lemma {:induction false} CoversAreAcquired(effects: seq<Lifecycle.Effect>)
    ensures CoverIsAcquired(Lifecycle.Account(effects))
  {
    if effects != [] {
      CoversAreAcquired(effects[..|effects| - 1]);
      EntryKeepsCover(Lifecycle.Account(effects[..|effects| - 1]), effects[|effects| - 1]);
    }
  }

  lemma EntryKeepsCover(l: Lifecycle.Ledger, e: Lifecycle.Effect)
    requires CoverIsAcquired(l)
    ensures CoverIsAcquired(Lifecycle.Entered(l, e)) && l.coveredBy <= Lifecycle.Entered(l, e).coveredBy
  {}

  lemma {:induction false} PrefixCovers(effects: seq<Lifecycle.Effect>, done: nat)
    requires done <= |effects|
    ensures Lifecycle.Account(effects[..done]).coveredBy <= Lifecycle.Account(effects).coveredBy
  {
    if done < |effects| {
      var init := effects[..|effects| - 1];
      assert init[..done] == effects[..done];
      PrefixCovers(init, done);
      CoversAreAcquired(init);
      EntryKeepsCover(Lifecycle.Account(init), effects[|effects| - 1]);
    } else {
      assert effects[..done] == effects;
    }
  }

  /** Whoever has executed an operation had acquired the key that guards it. */
  lemma ExecutorsHadAcquired(log: seq<Happening>, served: seq<Served>, request: nat, key: Key)
    requires WorkOf(log, served) && request < |served|
    requires served[request].req.GuardingKey() == [key] && served[request].SoFar().executed > 0
    ensures served[request].SoFar().executed == 1 && AcquiredBy(log, request, key)
  {
    var sv := served[request];
    var prefix := sv.effects[..sv.done];
    CoversAreAcquired(prefix);
    CoversAreAcquired(sv.effects);
    PrefixCovers(sv.effects, sv.done);
    assert sv.Valid();
    assert key in Lifecycle.Members([key]);
    assert key in sv.SoFar().coveredBy[0];
    AcquiredIsGranted(prefix, key);
    GrantedWasAcquired(log, request, key);
  }

  /** What one request adds to the executions of the operations guarded by the key. */
  function Share(sv: Served, key: Key): nat
    requires sv.done <= |sv.effects|
  {
    if sv.req.GuardingKey() == [key] then sv.SoFar().executed else 0
  }

  function SumOf(shares: seq<nat>): nat {
    if shares == [] then 0 else SumOf(shares[..|shares| - 1]) + shares[|shares| - 1]
  }

  /** How often the requests guarded by the key have been executed, by the broker or upstream. */
  function Executions(served: seq<Served>, key: Key): nat
    requires forall r :: 0 <= r < |served| ==> served[r].done <= |served[r].effects|
  {
    SumOf(seq(|served|, r requires 0 <= r < |served| => Share(served[r], key)))
  }

  lemma {:induction false} FlagsAreCounted(shares: seq<nat>) returns (raised: set<nat>)
    requires forall r :: 0 <= r < |shares| ==> shares[r] <= 1
    ensures SumOf(shares) == |raised| && forall r :: r in raised ==> r < |shares| && shares[r] == 1
  {
    raised := {};
    if shares != [] {
      var init, last := shares[..|shares| - 1], shares[|shares| - 1];
      raised := FlagsAreCounted(init);
      assert |init| !in raised;
      if last == 1 { raised := raised + {|init|}; }
    }
  }

  lemma ShareIsAcquired(log: seq<Happening>, served: seq<Served>, request: nat, key: Key)
    requires WorkOf(log, served) && request < |served|
    ensures served[request].done <= |served[request].effects| && Share(served[request], key) <= 1
    ensures Share(served[request], key) == 1 ==> AcquiredBy(log, request, key)
  {
    assert served[request].Valid();
    if Share(served[request], key) > 0 { ExecutorsHadAcquired(log, served, request, key); }
  }

  lemma ExecutorsAreCounted(log: seq<Happening>, served: seq<Served>, key: Key) returns (executors: set<nat>)
    requires WorkOf(log, served)
    ensures Executions(served, key) == |executors|
    ensures forall request :: request in executors ==> AcquiredBy(log, request, key)
  {
    var shares := seq(|served|, r requires 0 <= r < |served| => Share(served[r], key));
    forall r: nat | r < |served|
      ensures shares[r] <= 1 && (shares[r] == 1 ==> AcquiredBy(log, r, key))
    {
      ShareIsAcquired(log, served, r, key);
    }
    executors := FlagsAreCounted(shares);
  }

  /** At-most-once execution: at any moment of any interleaving, the operations guarded by a key that
      neither expired nor was evicted have been executed at most once more than the key was removed. */
  lemma ExecutionsAreBounded(cfg: Idempotency.Config, events: seq<Event>, served: seq<Served>, key: Key)
    requires KeptAlive(Run(cfg, events).log, key) && WorkOf(Run(cfg, events).log, served)
    ensures Executions(served, key) <= 1 + Count(Run(cfg, events).log, Removal, key)
  {
    var log := Run(cfg, events).log;
    var executors := ExecutorsAreCounted(log, served, key);
    AcquirersAreCounted(log, key, executors);
    AtMostOnce(cfg, events, key);
    NothingLost(log, key);
  }
}
