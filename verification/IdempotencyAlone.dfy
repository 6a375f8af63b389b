/** The two accounts of the engine agree (src/idempotency/mod.rs:133-345): a call that runs through its
    lock sections undisturbed leaves exactly the shards and the counter that the whole operation does. */
module IdempotencyAlone {
  import opened Timestamps
  import opened Lru
  import opened Wrappers
  import opened Idempotency
  import opened IdempotencyRefinement
  import opened IdempotencyLocks

  ghost predicate Idle(cfg: Config, s: Shared) { Structured(cfg, s) && s.pcs == map[] }

  /** Nobody but the thread is in the engine. */
  ghost predicate AloneAt(cfg: Config, s: Shared, t: nat, pc: Pc) { Structured(cfg, s) && s.pcs == map[t := pc] }

  function Steps(cfg: Config, s: Shared, t: nat, n: nat): (s': Shared)
    requires Shaped(s)
    ensures Shaped(s')
    decreases n
  {
    if n == 0 then s else Steps(cfg, Step(cfg, s, Advance(t)), t, n - 1)
  }

  lemma {:induction false} StepsAdd(cfg: Config, s: Shared, t: nat, m: nat, n: nat)
    requires Shaped(s)
    ensures Steps(cfg, s, t, m + n) == Steps(cfg, Steps(cfg, s, t, m), t, n)
    decreases m
  {
    if m > 0 { StepsAdd(cfg, Step(cfg, s, Advance(t)), t, m - 1, n); }
  }

  function StoreOf(s: Shared): Store { Store(s.shards, s.len) }

  // ---------------------------------------------------------------- the single steps

  lemma ScanPasses(cfg: Config, s: Shared, t: nat, key: Key, nowSecs: nat, hlc: HlcTimestamp, next: nat)
    requires AloneAt(cfg, s, t, Scanning(key, nowSecs, hlc, next)) && next < NUM_MEMORY_SHARDS && s.shards[next] == []
    ensures var s' := Step(cfg, s, Advance(t));
            AloneAt(cfg, s', t, Scanning(key, nowSecs, hlc, next + 1)) && StoreOf(s') == StoreOf(s)
  {
    StepStructured(cfg, s, Advance(t));
    assert t in s.pcs;
  }

  /** A store without the oldest entry of a shard. */
  function Popped(st: Store, v: nat): Store
    requires v < |st.shards| && st.shards[v] != []
  {
    Store(st.shards[v := st.shards[v][1..]], st.len - 1)
  }

  lemma OnlyOwnLock(cfg: Config, s: Shared, t: nat, pc: Pc, i: nat)
    requires AloneAt(cfg, s, t, pc) && i < NUM_MEMORY_SHARDS && i !in Footprint(cfg, pc)
    ensures s.locks[i].None?
  {}

  lemma ScanPops(cfg: Config, s: Shared, t: nat, key: Key, nowSecs: nat, hlc: HlcTimestamp, next: nat)
    requires AloneAt(cfg, s, t, Scanning(key, nowSecs, hlc, next)) && next < NUM_MEMORY_SHARDS
    requires s.shards[next] != [] && next != cfg.shardOf(key)
    ensures var s' := Step(cfg, s, Advance(t));
            && AloneAt(cfg, s', t, EvictedOther(key, nowSecs, hlc, next))
            && s'.shards == s.shards[next := s.shards[next][1..]] && s'.len == s.len
  {
    OnlyOwnLock(cfg, s, t, Scanning(key, nowSecs, hlc, next), next);
    StepStructured(cfg, s, Advance(t));
    assert t in s.pcs;
  }

  lemma PopCounts(cfg: Config, s: Shared, t: nat, pc: Pc)
    requires AloneAt(cfg, s, t, pc) && (pc.Evicted? || pc.EvictedOther?)
    ensures var s' := Step(cfg, s, Advance(t));
            AloneAt(cfg, s', t, Inserting(pc.key, pc.nowSecs, pc.hlc)) && s'.shards == s.shards && s'.len == s.len - 1
  {
    StepStructured(cfg, s, Advance(t));
    assert t in s.pcs;
    assert pc.EvictedOther? ==> pc.victim in Footprint(cfg, pc);
  }

  lemma ScanEnds(cfg: Config, s: Shared, t: nat, key: Key, nowSecs: nat, hlc: HlcTimestamp)
    requires AloneAt(cfg, s, t, Scanning(key, nowSecs, hlc, NUM_MEMORY_SHARDS))
    ensures var s' := Step(cfg, s, Advance(t)); AloneAt(cfg, s', t, Inserting(key, nowSecs, hlc)) && StoreOf(s') == StoreOf(s)
  {
    StepStructured(cfg, s, Advance(t));
    assert t in s.pcs;
  }

  /** After `n` steps of its own the thread is at `pc`, alone, and the store is `st`. */
  ghost predicate Leads(cfg: Config, s: Shared, t: nat, n: nat, pc: Pc, st: Store)
    requires Shaped(s)
  {
    AloneAt(cfg, Steps(cfg, s, t, n), t, pc) && StoreOf(Steps(cfg, s, t, n)) == st
  }

  lemma LeadsOn(cfg: Config, s: Shared, t: nat, n: nat, pc: Pc, st: Store)
    requires Shaped(s) && Leads(cfg, Step(cfg, s, Advance(t)), t, n, pc, st)
    ensures Leads(cfg, s, t, n + 1, pc, st)
  {}

  lemma ArrivedAt(cfg: Config, s: Shared, t: nat, pc: Pc, st: Store)
    requires AloneAt(cfg, s, t, pc) && StoreOf(s) == st
    ensures Leads(cfg, s, t, 0, pc, st)
  {}

  function Scavenged(st: Store, next: nat): Store
    requires next <= |st.shards|
  {
    FirstNonEmptyFinds(st.shards, next);
    var v := FirstNonEmpty(st.shards, next);
    if v.Some? then Popped(st, v.value) else st
  }

  lemma ScavengedFrom(st: Store, next: nat)
    requires next <= |st.shards|
    ensures Scavenged(st, next) ==
              if next == |st.shards| then st else if st.shards[next] == [] then Scavenged(st, next + 1) else Popped(st, next)
  {}

  lemma ScanEvicts(cfg: Config, s: Shared, t: nat, key: Key, nowSecs: nat, hlc: HlcTimestamp, next: nat)
    requires AloneAt(cfg, s, t, Scanning(key, nowSecs, hlc, next)) && next < NUM_MEMORY_SHARDS
    requires s.shards[next] != [] && next != cfg.shardOf(key)
    ensures Leads(cfg, s, t, 2, Inserting(key, nowSecs, hlc), Popped(StoreOf(s), next))
  {
    var s1, goal := Step(cfg, s, Advance(t)), Inserting(key, nowSecs, hlc);
    ScanPops(cfg, s, t, key, nowSecs, hlc, next);
    PopCounts(cfg, s1, t, EvictedOther(key, nowSecs, hlc, next));
    ArrivedAt(cfg, Step(cfg, s1, Advance(t)), t, goal, Popped(StoreOf(s), next));
    LeadsOn(cfg, s1, t, 0, goal, Popped(StoreOf(s), next));
    LeadsOn(cfg, s, t, 1, goal, Popped(StoreOf(s), next));
  }

  /** The scan takes the oldest entry of the first shard that has one. */
  lemma {:induction false} ScanAlone(cfg: Config, s: Shared, t: nat, key: Key, nowSecs: nat, hlc: HlcTimestamp, next: nat) returns (n: nat)
    requires AloneAt(cfg, s, t, Scanning(key, nowSecs, hlc, next)) && next <= NUM_MEMORY_SHARDS && s.shards[cfg.shardOf(key)] == []
    ensures Leads(cfg, s, t, n, Inserting(key, nowSecs, hlc), Scavenged(StoreOf(s), next))
    decreases NUM_MEMORY_SHARDS - next
  {
    ScavengedFrom(StoreOf(s), next);
    if next == NUM_MEMORY_SHARDS {
      ScanEnds(cfg, s, t, key, nowSecs, hlc);
      ArrivedAt(cfg, Step(cfg, s, Advance(t)), t, Inserting(key, nowSecs, hlc), StoreOf(s));
      LeadsOn(cfg, s, t, 0, Inserting(key, nowSecs, hlc), StoreOf(s));
      n := 1;
    } else if s.shards[next] == [] {
      ScanPasses(cfg, s, t, key, nowSecs, hlc, next);
      n := ScanAlone(cfg, Step(cfg, s, Advance(t)), t, key, nowSecs, hlc, next + 1);
      LeadsOn(cfg, s, t, n, Inserting(key, nowSecs, hlc), Scavenged(StoreOf(s), next));
      n := n + 1;
    } else {
      ScanEvicts(cfg, s, t, key, nowSecs, hlc, next);
      n := 2;
    }
  }

  lemma DecidesRoom(cfg: Config, s: Shared, t: nat, key: Key, nowSecs: nat, hlc: HlcTimestamp)
    requires AloneAt(cfg, s, t, Deciding(key, nowSecs, hlc)) && s.len < cfg.maxCapacity
    ensures var s' := Step(cfg, s, Advance(t)); AloneAt(cfg, s', t, Inserting(key, nowSecs, hlc)) && StoreOf(s') == StoreOf(s)
  {
    StepStructured(cfg, s, Advance(t));
    assert t in s.pcs;
  }

  lemma DecidesOwn(cfg: Config, s: Shared, t: nat, key: Key, nowSecs: nat, hlc: HlcTimestamp)
    requires AloneAt(cfg, s, t, Deciding(key, nowSecs, hlc)) && s.len >= cfg.maxCapacity && s.shards[cfg.shardOf(key)] != []
    ensures var s', own := Step(cfg, s, Advance(t)), cfg.shardOf(key);
            AloneAt(cfg, s', t, Evicted(key, nowSecs, hlc)) && s'.shards == s.shards[own := s.shards[own][1..]] && s'.len == s.len
  {
    StepStructured(cfg, s, Advance(t));
    assert t in s.pcs;
  }

  lemma DecidesScan(cfg: Config, s: Shared, t: nat, key: Key, nowSecs: nat, hlc: HlcTimestamp)
    requires AloneAt(cfg, s, t, Deciding(key, nowSecs, hlc)) && s.len >= cfg.maxCapacity && s.shards[cfg.shardOf(key)] == []
    ensures var s' := Step(cfg, s, Advance(t)); AloneAt(cfg, s', t, Scanning(key, nowSecs, hlc, 0)) && StoreOf(s') == StoreOf(s)
  {
    StepStructured(cfg, s, Advance(t));
    assert t in s.pcs;
  }

  lemma RoomAlone(cfg: Config, s: Shared, t: nat, key: Key, nowSecs: nat, hlc: HlcTimestamp) returns (n: nat)
    requires AloneAt(cfg, s, t, Deciding(key, nowSecs, hlc))
    ensures Leads(cfg, s, t, n, Inserting(key, nowSecs, hlc), MadeRoom(cfg, StoreOf(s), cfg.shardOf(key)))
  {
    var s1 := Step(cfg, s, Advance(t));
    var goal, own := Inserting(key, nowSecs, hlc), cfg.shardOf(key);
    var room := MadeRoom(cfg, StoreOf(s), own);
    if s.len < cfg.maxCapacity {
      DecidesRoom(cfg, s, t, key, nowSecs, hlc);
      ArrivedAt(cfg, s1, t, goal, room);
      n := 0;
    } else if s.shards[own] != [] {
      DecidesOwn(cfg, s, t, key, nowSecs, hlc);
      PopCounts(cfg, s1, t, Evicted(key, nowSecs, hlc));
      ArrivedAt(cfg, Step(cfg, s1, Advance(t)), t, goal, room);
      LeadsOn(cfg, s1, t, 0, goal, room);
      n := 1;
    } else {
      DecidesScan(cfg, s, t, key, nowSecs, hlc);
      n := ScanAlone(cfg, s1, t, key, nowSecs, hlc, 0);
      assert Scavenged(StoreOf(s), 0) == room;
    }
    LeadsOn(cfg, s, t, n, goal, room);
    n := n + 1;
  }

  lemma InsertAlone(cfg: Config, s: Shared, t: nat, key: Key, nowSecs: nat, hlc: HlcTimestamp)
    requires AloneAt(cfg, s, t, Inserting(key, nowSecs, hlc))
    ensures var s' := Step(cfg, Step(cfg, s, Advance(t)), Advance(t));
            Idle(cfg, s') && StoreOf(s') == Inserted(cfg, StoreOf(s), key, InProgress(hlc, nowSecs))
  {
    var s1 := Step(cfg, s, Advance(t));
    StepStructured(cfg, s, Advance(t));
    StepStructured(cfg, s1, Advance(t));
    assert t in s.pcs;
    FinishAlone(cfg, s1, t);
  }

  /** A thread that has only its change of the counter left, or nothing. */
  lemma FinishAlone(cfg: Config, s: Shared, t: nat)
    requires Structured(cfg, s) && s.pcs.Keys <= {t} && forall u :: u in s.pcs ==> s.pcs[u].Counting? || s.pcs[u].Removing?
    ensures var s' := Step(cfg, s, Advance(t));
            && Idle(cfg, s') && s'.shards == s.shards
            && s'.len == s.len + if t !in s.pcs then 0 else if s.pcs[t].Counting? then 1 else -1
  {
    StepStructured(cfg, s, Advance(t));
    assert t !in s.pcs ==> s.pcs == map[];
    assert Step(cfg, s, Advance(t)).pcs == map[];
  }

  // ---------------------------------------------------------------- whole calls

  lemma StartsIdle(cfg: Config, s: Shared, t: nat, request: Request)
    requires Idle(cfg, s)
    ensures s.locks[cfg.shardOf(request.key)].None? && t !in s.pcs
    ensures Structured(cfg, Step(cfg, s, Start(t, request)))
  {
    StepStructured(cfg, s, Start(t, request));
  }

  lemma SettlesAlone(cfg: Config, s: Shared, t: nat, request: Request)
    requires Idle(cfg, s) && !request.Check?
    ensures var s' := Step(cfg, Step(cfg, s, Start(t, request)), Advance(t));
            Idle(cfg, s') && StoreOf(s') == EngineStep(cfg, StoreOf(s), request)
  {
    StartsIdle(cfg, s, t, request);
    var s1 := Step(cfg, s, Start(t, request));
    FinishAlone(cfg, s1, t);
    if request.Remove? { AbsentIsKept(s.shards, cfg.shardOf(request.key), request.key); }
  }

  lemma AbsentIsKept(shards: Shards, own: nat, key: Key)
    requires own < |shards|
    ensures key !in Contents(shards[own]) ==> shards[own := Without(shards[own], key)] == shards
  {
    if key !in Contents(shards[own]) { WithoutAbsent(shards[own], key); }
  }

  lemma {:induction false} WithoutAbsent(c: Cache<Key, Record>, key: Key)
    requires key !in Contents(c)
    ensures Without(c, key) == c
  {
    if c != [] { WithoutAbsent(c[1..], key); }
  }

  lemma ChecksAlone(cfg: Config, s: Shared, t: nat, request: Request) returns (n: nat)
    requires Idle(cfg, s) && request.Check?
    ensures var s' := Steps(cfg, Step(cfg, s, Start(t, request)), t, n);
            Idle(cfg, s') && StoreOf(s') == EngineStep(cfg, StoreOf(s), request)
  {
    StartsIdle(cfg, s, t, request);
    var s1 := Step(cfg, s, Start(t, request));
    assert StoreOf(s1) == Touched(cfg, StoreOf(s), request.key);
    if Answer(cfg, Find(cfg, s.shards, request.key), request.nowSecs).New? {
      n := RoomAlone(cfg, s1, t, request.key, request.nowSecs, request.hlc);
      var s2 := Steps(cfg, s1, t, n);
      InsertAlone(cfg, s2, t, request.key, request.nowSecs, request.hlc);
      StepsAdd(cfg, s1, t, n, 2);
      assert Steps(cfg, s2, t, 2) == Step(cfg, Step(cfg, s2, Advance(t)), Advance(t)) by {
        assert Steps(cfg, Step(cfg, Step(cfg, s2, Advance(t)), Advance(t)), t, 0) == Step(cfg, Step(cfg, s2, Advance(t)), Advance(t));
      }
      n := n + 2;
    } else {
      n := 0;
    }
  }

  /** Run by itself, every call takes the lock-granular engine to where the whole operation takes it. */
  lemma CallAloneIsOneStep(cfg: Config, s: Shared, t: nat, request: Request) returns (n: nat)
    requires Idle(cfg, s)
    ensures var s' := Steps(cfg, Step(cfg, s, Start(t, request)), t, n);
            Idle(cfg, s') && StoreOf(s') == EngineStep(cfg, StoreOf(s), request)
  {
    if request.Check? {
      n := ChecksAlone(cfg, s, t, request);
    } else {
      SettlesAlone(cfg, s, t, request);
      n := 1;
      assert Steps(cfg, Step(cfg, Step(cfg, s, Start(t, request)), Advance(t)), t, 0) == Step(cfg, Step(cfg, s, Start(t, request)), Advance(t));
    }
  }
}
