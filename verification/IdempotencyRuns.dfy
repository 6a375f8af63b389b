/** Runs of the engine that reach what its theorems warn of (src/idempotency/mod.rs:133-345): an
    overcount, two holders of one key, and as many records as the bound allows. */
module IdempotencyRuns {
  import opened Timestamps
  import opened Lru
  import opened Wrappers
  import opened Idempotency
  import opened IdempotencyRefinement
  import opened IdempotencyLocks
  import opened IdempotencyAlone
  import opened IdempotencyExclusion
  import opened IdempotencyCapacity

  const SOME_TIME := HlcTimestamp(0, 0)
  const SOME_RESPONSE := Response(200, [], "")

  // ---------------------------------------------------------------- an overcount

  /** A completion whose record was evicted from a shard that is full again is counted twice. */
  lemma OvercountIsReached(cfg: Config, a: Key, b: Key)
    requires cfg.maxCapacity == 1 && a != b && cfg.shardOf(a) == cfg.shardOf(b)
    ensures var st := EngineRun(cfg, Empty(), [Check(a, 0, SOME_TIME), Check(b, 0, SOME_TIME), Complete(a, 0, SOME_TIME, SOME_RESPONSE)]);
            st.len == 2 && Total(st.shards) == 1
  {
    var ops := [Check(a, 0, SOME_TIME), Check(b, 0, SOME_TIME), Complete(a, 0, SOME_TIME, SOME_RESPONSE)];
    assert ops[..2] == [ops[0], ops[1]] && ops[..2][..1] == [ops[0]] && ops[..2][..1][..0] == [];
    CapacityHolds(cfg, ops[..1]);
    CapacityHolds(cfg, ops[..2]);
    var first, second := EngineRun(cfg, Empty(), ops[..1]), EngineRun(cfg, Empty(), ops[..2]);
    GrantedIsFound(cfg, first, b);
    var own := cfg.shardOf(b);
    ShardWithinTotal(second.shards, own);
    LoneEntry(second.shards[own], b);
    InsertedKeeps(cfg, second, a, Completed(SOME_TIME, SOME_RESPONSE, 0));
  }

  lemma LoneEntry(c: Cache<Key, Record>, key: Key)
    requires |c| <= 1 && key in Contents(c)
    ensures |c| == 1 && forall other :: other in Contents(c) ==> other == key
  {
    assert c[1..] == [];
  }

  lemma GrantedIsFound(cfg: Config, st: Store, key: Key)
    requires Coherent(cfg, st)
    ensures Find(cfg, AfterCheck(cfg, st, key, 0, SOME_TIME).shards, key).Some?
  {
    TouchedKeeps(cfg, st, key);
    MadeRoomKeeps(cfg, Touched(cfg, st, key), cfg.shardOf(key));
    InsertedKeeps(cfg, MadeRoom(cfg, Touched(cfg, st, key), cfg.shardOf(key)), key, InProgress(SOME_TIME, 0));
  }

  // ---------------------------------------------------------------- two holders

  lemma RunAppends(cfg: Config, events: seq<Event>, e: Event)
    ensures Run(cfg, events + [e]) == Step(cfg, Run(cfg, events), e)
  {
    assert (events + [e])[..|events|] == events;
  }

  function Grant(t: nat, key: Key, nowSecs: nat): seq<Event> {
    [Start(t, Check(key, nowSecs, SOME_TIME)), Advance(t), Advance(t), Advance(t)]
  }

  function Granted(cfg: Config, s: Shared, t: nat, key: Key, nowSecs: nat): (s': Shared)
    requires Shaped(s)
    ensures Shaped(s')
  {
    Step(cfg, Step(cfg, Step(cfg, Step(cfg, s, Start(t, Check(key, nowSecs, SOME_TIME))), Advance(t)), Advance(t)), Advance(t))
  }

  lemma RunGrant(cfg: Config, events: seq<Event>, t: nat, key: Key, nowSecs: nat)
    ensures Run(cfg, events + Grant(t, key, nowSecs)) == Granted(cfg, Run(cfg, events), t, key, nowSecs)
  {
    var g := Grant(t, key, nowSecs);
    RunAppends(cfg, events, g[0]);
    RunAppends(cfg, events + [g[0]], g[1]);
    RunAppends(cfg, events + [g[0]] + [g[1]], g[2]);
    RunAppends(cfg, events + [g[0]] + [g[1]] + [g[2]], g[3]);
    assert events + [g[0]] + [g[1]] + [g[2]] + [g[3]] == events + g;
  }

  lemma StartsAlone(cfg: Config, s: Shared, t: nat, key: Key, nowSecs: nat)
    requires Idle(cfg, s) && Answer(cfg, Find(cfg, s.shards, key), nowSecs).New?
    ensures var s' := Step(cfg, s, Start(t, Check(key, nowSecs, SOME_TIME)));
            && s'.pcs == map[t := Deciding(key, nowSecs, SOME_TIME)] && s'.log == s.log && s'.len == s.len
            && Find(cfg, s'.shards, key) == Find(cfg, s.shards, key)
            && |s'.shards[cfg.shardOf(key)]| == |s.shards[cfg.shardOf(key)]|
  {
    assert s.locks[cfg.shardOf(key)].None?;
    PromotedContents(s.shards[cfg.shardOf(key)], key);
  }

  lemma DecidesAlone(cfg: Config, s: Shared, t: nat, key: Key, nowSecs: nat)
    requires Structured(cfg, s) && s.pcs == map[t := Deciding(key, nowSecs, SOME_TIME)] && s.len < cfg.maxCapacity
    ensures var s' := Step(cfg, s, Advance(t));
            s'.pcs == map[t := Inserting(key, nowSecs, SOME_TIME)] && s'.shards == s.shards && s'.log == s.log && s'.len == s.len
  {
    assert t in s.pcs;
  }

  lemma InsertsAlone(cfg: Config, s: Shared, t: nat, key: Key, nowSecs: nat)
    requires Structured(cfg, s) && s.pcs == map[t := Inserting(key, nowSecs, SOME_TIME)]
    requires var found := Find(cfg, s.shards, key);
             (found.Some? ==> !Fresh(cfg, found.value, nowSecs)) && (found.None? ==> |s.shards[cfg.shardOf(key)]| < cfg.ShardCapacity())
    ensures var found, s' := Find(cfg, s.shards, key), Step(cfg, s, Advance(t));
            && s'.pcs == (if found.Some? then map[] else map[t := Counting(key)])
            && s'.log == s.log + [Acquired(t, key, found.Some?)] && s'.len == s.len
            && Find(cfg, s'.shards, key) == Some(InProgress(SOME_TIME, nowSecs))
  {
    assert t in s.pcs;
    PutContents(s.shards[cfg.shardOf(key)], key, InProgress(SOME_TIME, nowSecs), cfg.ShardCapacity());
    assert [] + [Acquired(t, key, Find(cfg, s.shards, key).Some?)] == [Acquired(t, key, Find(cfg, s.shards, key).Some?)];
  }

  lemma CountsAlone(cfg: Config, s: Shared, t: nat, key: Key)
    requires Structured(cfg, s) && (s.pcs == map[] || s.pcs == map[t := Counting(key)])
    ensures var s' := Step(cfg, s, Advance(t));
            && s'.pcs == map[] && s'.shards == s.shards && s'.log == s.log
            && s'.len == s.len + if s.pcs == map[] then 0 else 1
  {
    if s.pcs != map[] {
      assert t in s.pcs;
      assert s.log + [] == s.log;
    }
  }

  /** A thread alone with the engine is granted a key that is not held alive, while there is room. */
  lemma AloneIsGranted(cfg: Config, s: Shared, t: nat, key: Key, nowSecs: nat)
    requires Idle(cfg, s) && s.len < cfg.maxCapacity
    requires var found := Find(cfg, s.shards, key);
             (found.Some? ==> !Fresh(cfg, found.value, nowSecs)) && (found.None? ==> |s.shards[cfg.shardOf(key)]| < cfg.ShardCapacity())
    ensures var found, s' := Find(cfg, s.shards, key), Granted(cfg, s, t, key, nowSecs);
            && Idle(cfg, s') && s'.log == s.log + [Acquired(t, key, found.Some?)]
            && s'.len == s.len + (if found.Some? then 0 else 1)
            && Find(cfg, s'.shards, key) == Some(InProgress(SOME_TIME, nowSecs))
  {
    var e := Start(t, Check(key, nowSecs, SOME_TIME));
    var s1 := Step(cfg, s, e);
    var s2 := Step(cfg, s1, Advance(t));
    var s3 := Step(cfg, s2, Advance(t));
    StepStructured(cfg, s, e);
    StepStructured(cfg, s1, Advance(t));
    StepStructured(cfg, s2, Advance(t));
    StepStructured(cfg, s3, Advance(t));
    StartsAlone(cfg, s, t, key, nowSecs);
    DecidesAlone(cfg, s1, t, key, nowSecs);
    InsertsAlone(cfg, s2, t, key, nowSecs);
    CountsAlone(cfg, s3, t, key);
  }

  lemma FirstGrant(cfg: Config, key: Key)
    requires cfg.maxCapacity >= 2
    ensures var s := Run(cfg, [] + Grant(0, key, 0));
            && Idle(cfg, s) && s.log == [Acquired(0, key, false)] && s.len == 1
            && Find(cfg, s.shards, key) == Some(InProgress(SOME_TIME, 0))
  {
    AlwaysStructured(cfg, []);
    RunGrant(cfg, [], 0, key, 0);
    var s := Run(cfg, []);
    assert s.shards[cfg.shardOf(key)] == [] && s.log == [];
    AloneIsGranted(cfg, s, 0, key, 0);
  }

  lemma TwoGrantsTwoHolders(key: Key)
    ensures var log := [Acquired(0, key, false), Acquired(1, key, true)];
            Holds(log, 0, key) && Holds(log, 1, key)
  {
    assert [Acquired(0, key, false), Acquired(1, key, true)][..1] == [Acquired(0, key, false)];
  }

  /** A key that expires while it is held is granted again: nobody settled it and nothing was evicted,
      and two threads hold it. */
  lemma ExpiryMakesTwoHolders(cfg: Config, key: Key)
    requires cfg.maxCapacity >= 2
    ensures var log := Run(cfg, [] + Grant(0, key, 0) + Grant(1, key, cfg.Ttl())).log;
            && log == [Acquired(0, key, false), Acquired(1, key, true)]
            && Holds(log, 0, key) && Holds(log, 1, key)
  {
    FirstGrant(cfg, key);
    var first := [] + Grant(0, key, 0);
    RunGrant(cfg, first, 1, key, cfg.Ttl());
    AloneIsGranted(cfg, Run(cfg, first), 1, key, cfg.Ttl());
    TwoGrantsTwoHolders(key);
  }

  // ---------------------------------------------------------------- the bound on records

  /** One key for each shard. */
  ghost predicate OneKeyEach(cfg: Config, keys: seq<Key>) {
    |keys| == NUM_MEMORY_SHARDS && forall i :: 0 <= i < |keys| ==> cfg.shardOf(keys[i]) == i
  }

  /** The first `n` threads are past the capacity check, and the first `m` of them have inserted. */
  ghost predicate Advanced(s: Shared, keys: seq<Key>, n: nat, m: nat)
    requires |keys| == NUM_MEMORY_SHARDS && m <= n <= NUM_MEMORY_SHARDS
  {
    && Shaped(s) && s.len == 0
    && (forall i :: 0 <= i < NUM_MEMORY_SHARDS ==>
          s.locks[i] == (if i < n then Some(i) else None) &&
          s.shards[i] == if i < m then [(keys[i], InProgress(SOME_TIME, 0))] else [])
    && (forall t: nat :: t in s.pcs <==> t < n)
    && (forall t: nat :: t < n ==> s.pcs[t] == if t < m then Counting(keys[t]) else Inserting(keys[t], 0, SOME_TIME))
  }

  function Crowd(keys: seq<Key>, n: nat, m: nat): seq<Event>
    requires n <= |keys|
    decreases n + m
  {
    if m > 0 then Crowd(keys, n, m - 1) + [Advance(m - 1)]
    else if n > 0 then Crowd(keys, n - 1, 0) + [Start(n - 1, Check(keys[n - 1], 0, SOME_TIME))] + [Advance(n - 1)]
    else []
  }

  lemma EntersCrowd(cfg: Config, s: Shared, keys: seq<Key>, t: nat)
    requires cfg.maxCapacity == 1 && OneKeyEach(cfg, keys) && t < NUM_MEMORY_SHARDS && Advanced(s, keys, t, 0)
    ensures Advanced(Step(cfg, Step(cfg, s, Start(t, Check(keys[t], 0, SOME_TIME))), Advance(t)), keys, t + 1, 0)
  {
    assert s.shards[t] == [] && Promoted(s.shards[t], keys[t]) == [];
    var s1 := Step(cfg, s, Start(t, Check(keys[t], 0, SOME_TIME)));
    assert s1.shards == s.shards && s1.pcs == s.pcs[t := Deciding(keys[t], 0, SOME_TIME)] && s1.len == 0;
  }

  lemma InsertsInCrowd(cfg: Config, s: Shared, keys: seq<Key>, t: nat)
    requires cfg.maxCapacity == 1 && OneKeyEach(cfg, keys) && t < NUM_MEMORY_SHARDS && Advanced(s, keys, NUM_MEMORY_SHARDS, t)
    ensures Advanced(Step(cfg, s, Advance(t)), keys, NUM_MEMORY_SHARDS, t + 1)
  {
    assert s.shards[t] == [] && s.pcs[t] == Inserting(keys[t], 0, SOME_TIME);
  }

  lemma LateAppends(cfg: Config, events: seq<Event>, e: Event)
    requires e.Start? ==> e.request.Check?
    ensures LateCompletions(cfg, events + [e]) == LateCompletions(cfg, events)
  {
    assert (events + [e])[..|events|] == events;
  }

  lemma {:induction false} CrowdEnters(cfg: Config, keys: seq<Key>, n: nat)
    requires cfg.maxCapacity == 1 && OneKeyEach(cfg, keys) && n <= NUM_MEMORY_SHARDS
    ensures Advanced(Run(cfg, Crowd(keys, n, 0)), keys, n, 0) && LateCompletions(cfg, Crowd(keys, n, 0)) == 0
  {
    if n > 0 {
      var before, e := Crowd(keys, n - 1, 0), Start(n - 1, Check(keys[n - 1], 0, SOME_TIME));
      CrowdEnters(cfg, keys, n - 1);
      RunAppends(cfg, before, e);
      RunAppends(cfg, before + [e], Advance(n - 1));
      LateAppends(cfg, before, e);
      LateAppends(cfg, before + [e], Advance(n - 1));
      EntersCrowd(cfg, Run(cfg, before), keys, n - 1);
    }
  }

  lemma {:induction false} CrowdInserts(cfg: Config, keys: seq<Key>, m: nat)
    requires cfg.maxCapacity == 1 && OneKeyEach(cfg, keys) && m <= NUM_MEMORY_SHARDS
    ensures var events := Crowd(keys, NUM_MEMORY_SHARDS, m);
            Advanced(Run(cfg, events), keys, NUM_MEMORY_SHARDS, m) && LateCompletions(cfg, events) == 0
  {
    if m == 0 {
      CrowdEnters(cfg, keys, NUM_MEMORY_SHARDS);
    } else {
      var before := Crowd(keys, NUM_MEMORY_SHARDS, m - 1);
      CrowdInserts(cfg, keys, m - 1);
      RunAppends(cfg, before, Advance(m - 1));
      LateAppends(cfg, before, Advance(m - 1));
      InsertsInCrowd(cfg, Run(cfg, before), keys, m - 1);
    }
  }

  lemma {:induction false} OneRecordEach(shards: Shards, n: nat)
    requires n <= |shards| && forall i :: 0 <= i < |shards| ==> |shards[i]| == 1
    ensures Total(shards[..n]) == n
  {
    if n > 0 {
      OneRecordEach(shards, n - 1);
      assert shards[..n] == shards[..n - 1] + [shards[n - 1]];
      TotalAppend(shards[..n - 1], shards[n - 1]);
    }
  }

  /** At capacity one, 32 callers that all pass the check before any of them inserts leave 32 records. */
  lemma BoundIsReached(cfg: Config, keys: seq<Key>)
    requires cfg.maxCapacity == 1 && OneKeyEach(cfg, keys)
    ensures var events := Crowd(keys, NUM_MEMORY_SHARDS, NUM_MEMORY_SHARDS);
            LateCompletions(cfg, events) == 0 && Total(Run(cfg, events).shards) == cfg.ShardCapacity() + NUM_MEMORY_SHARDS - 1
  {
    CrowdInserts(cfg, keys, NUM_MEMORY_SHARDS);
    var s := Run(cfg, Crowd(keys, NUM_MEMORY_SHARDS, NUM_MEMORY_SHARDS));
    OneRecordEach(s.shards, NUM_MEMORY_SHARDS);
    assert s.shards[..NUM_MEMORY_SHARDS] == s.shards;
  }
}
