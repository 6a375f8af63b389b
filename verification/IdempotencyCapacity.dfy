/** How many records the engine can hold under every interleaving (src/idempotency/mod.rs:133-345). The
    capacity check, the eviction and the insertion are separate steps, and the scan for a victim skips
    the shards that others have locked, so the capacity can be overrun; by how much is bounded by the
    number of shards. The bound comes from a weight that only the capacity check itself can raise. */
module IdempotencyCapacity {
  import opened Lru
  import opened Wrappers
  import opened Idempotency
  import opened IdempotencyLocks
  import opened IdempotencyCounter

  /** The thread is past the capacity check and has yet to insert into shard `i`. */
  predicate AboutToFill(cfg: Config, pc: Option<Pc>, i: nat) {
    pc.Some? && pc.value.WillInsert() && !pc.value.Deciding? && cfg.shardOf(pc.value.key) == i
  }

  /** A shard weighs its records, and one more when it is empty or about to be filled. */
  function WeightOf(c: Cache<Key, Record>, aboutToFill: bool): nat {
    |c| + if c == [] || aboutToFill then 1 else 0
  }

  function Weight(cfg: Config, s: Shared, i: nat): nat
    requires Shaped(s) && i < NUM_MEMORY_SHARDS
  {
    WeightOf(s.shards[i], s.locks[i].Some? && AboutToFill(cfg, PcOf(s, s.locks[i].value), i))
  }

  function WeightUpTo(cfg: Config, s: Shared, n: nat): nat
    requires Shaped(s) && n <= NUM_MEMORY_SHARDS
  {
    if n == 0 then 0 else WeightUpTo(cfg, s, n - 1) + Weight(cfg, s, n - 1)
  }

  lemma {:induction false} RecordsWithinWeight(cfg: Config, s: Shared, n: nat)
    requires Shaped(s) && n <= NUM_MEMORY_SHARDS
    ensures Total(s.shards[..n]) <= WeightUpTo(cfg, s, n)
  {
    if n > 0 {
      RecordsWithinWeight(cfg, s, n - 1);
      assert s.shards[..n] == s.shards[..n - 1] + [s.shards[n - 1]];
      TotalAppend(s.shards[..n - 1], s.shards[n - 1]);
    }
  }

  // ---------------------------------------------------------------- the weight against the counter

  lemma ShardWithinCount(cfg: Config, s: Shared, i: nat)
    requires CounterExact(cfg, s) && i < NUM_MEMORY_SHARDS
    ensures Weight(cfg, s, i) <= Counted(cfg, s, i) + 1
  {
    if s.locks[i].Some? {
      var t := s.locks[i].value;
      assert t in s.pcs && i in Footprint(cfg, s.pcs[t]);
    }
  }

  /** At every moment the weight exceeds the counter by at most one for each shard. */
  lemma {:induction false} WeightWithinCount(cfg: Config, s: Shared, n: nat)
    requires CounterExact(cfg, s) && n <= NUM_MEMORY_SHARDS
    ensures WeightUpTo(cfg, s, n) <= CountedUpTo(cfg, s, n) + n
  {
    if n > 0 {
      WeightWithinCount(cfg, s, n - 1);
      ShardWithinCount(cfg, s, n - 1);
    }
  }

  // ---------------------------------------------------------------- one step

  /** The step adds at most `gain` to the weight of its shard, and none to any other. */
  ghost predicate WeightKept(cfg: Config, s: Shared, f: Effect, gain: nat)
    requires Shaped(s) && f.shard < NUM_MEMORY_SHARDS
  {
    && WeightOf(f.cache, AboutToFill(cfg, f.pc, f.shard)) <=
         WeightOf(s.shards[f.shard], AboutToFill(cfg, PcOf(s, f.thread), f.shard)) + gain
    && (forall i :: 0 <= i < NUM_MEMORY_SHARDS && i != f.shard && AboutToFill(cfg, f.pc, i) ==> AboutToFill(cfg, PcOf(s, f.thread), i))
  }

  lemma WeightByThread(cfg: Config, s: Shared, t: nat, i: nat)
    requires Shaped(s) && LocksMatch(cfg, s) && i < NUM_MEMORY_SHARDS
    requires s.locks[i].None? || s.locks[i] == Some(t)
    ensures Weight(cfg, s, i) == WeightOf(s.shards[i], AboutToFill(cfg, PcOf(s, t), i))
  {
    assert t in s.pcs ==> cfg.shardOf(s.pcs[t].key) in Footprint(cfg, s.pcs[t]);
  }

  lemma ShardWeightFollows(cfg: Config, s: Shared, f: Effect, gain: nat, i: nat)
    requires InOrder(cfg, s, f) && WeightKept(cfg, s, f, gain) && i < NUM_MEMORY_SHARDS
    ensures Weight(cfg, Apply(cfg, s, f), i) <= Weight(cfg, s, i) + (if i == f.shard then gain else 0)
  {
    var s' := Apply(cfg, s, f);
    if s.locks[i].None? || s.locks[i] == Some(f.thread) {
      ApplyLocks(cfg, s, f);
      WeightByThread(cfg, s, f.thread, i);
      WeightByThread(cfg, s', f.thread, i);
      assert PcOf(s', f.thread) == f.pc;
    } else {
      assert s'.locks[i] == s.locks[i] && i != f.shard;
      assert PcOf(s', s.locks[i].value) == PcOf(s, s.locks[i].value);
    }
  }

  lemma {:induction false} WeightFollows(cfg: Config, s: Shared, f: Effect, gain: nat, n: nat)
    requires InOrder(cfg, s, f) && WeightKept(cfg, s, f, gain) && n <= NUM_MEMORY_SHARDS
    ensures WeightUpTo(cfg, Apply(cfg, s, f), n) <= WeightUpTo(cfg, s, n) + (if f.shard < n then gain else 0)
  {
    if n > 0 {
      WeightFollows(cfg, s, f, gain, n - 1);
      ShardWeightFollows(cfg, s, f, gain, n - 1);
    }
  }

  /** A completion that takes effect and finds no record of its key. */
  predicate CompletesLate(cfg: Config, s: Shared, e: Event)
    requires Shaped(s)
  {
    e.Start? && e.request.Complete? && EffectOf(cfg, s, e).Some? && Find(cfg, s.shards, e.request.key).None?
  }

  lemma StartWeight(cfg: Config, s: Shared, t: nat, request: Request)
    requires Structured(cfg, s) && StartEffect(cfg, s, t, request).Some?
    ensures WeightKept(cfg, s, StartEffect(cfg, s, t, request).value, if CompletesLate(cfg, s, Start(t, request)) then 1 else 0)
  {
    var c := s.shards[cfg.shardOf(request.key)];
    assert PcOf(s, t) == None;
    match request {
      case Check(key, _, _) => PromotedContents(c, key);
      case Complete(key, nowSecs, hlc, response) => PutContents(c, key, Completed(hlc, response, nowSecs), cfg.ShardCapacity());
      case Remove(key) => WithoutContents(c, key);
    }
  }

  lemma InsertWeight(cfg: Config, s: Shared, t: nat)
    requires Structured(cfg, s) && t in s.pcs && s.pcs[t].Inserting?
    ensures WeightKept(cfg, s, AdvanceEffect(cfg, s, t).value, 0)
  {
    var Inserting(key, nowSecs, hlc) := s.pcs[t];
    PutContents(s.shards[cfg.shardOf(key)], key, InProgress(hlc, nowSecs), cfg.ShardCapacity());
    assert PcOf(s, t) == Some(s.pcs[t]);
  }

  lemma EvictionWeight(cfg: Config, s: Shared, t: nat)
    requires Structured(cfg, s) && t in s.pcs && (s.pcs[t].Scanning? || (s.pcs[t].Deciding? && s.len >= cfg.maxCapacity))
    ensures WeightKept(cfg, s, AdvanceEffect(cfg, s, t).value, 0)
  {
    assert PcOf(s, t) == Some(s.pcs[t]);
  }

  lemma CountingWeight(cfg: Config, s: Shared, t: nat)
    requires Structured(cfg, s) && t in s.pcs && AdvanceEffect(cfg, s, t).Some?
    requires !s.pcs[t].Deciding? && !s.pcs[t].Scanning? && !s.pcs[t].Inserting?
    ensures WeightKept(cfg, s, AdvanceEffect(cfg, s, t).value, 0)
  {
    assert PcOf(s, t) == Some(s.pcs[t]);
  }

  /** The thread finds the counter below the capacity. */
  predicate FindsRoom(cfg: Config, s: Shared, e: Event) {
    e.Advance? && e.thread in s.pcs && s.pcs[e.thread].Deciding? && s.len < cfg.maxCapacity
  }

  lemma StepWeight(cfg: Config, s: Shared, e: Event)
    requires Structured(cfg, s) && EffectOf(cfg, s, e).Some? && !FindsRoom(cfg, s, e)
    ensures WeightKept(cfg, s, EffectOf(cfg, s, e).value, if CompletesLate(cfg, s, e) then 1 else 0)
  {
    match e
    case Start(t, request) => StartWeight(cfg, s, t, request);
    case Advance(t) =>
      if s.pcs[t].Inserting? {
        InsertWeight(cfg, s, t);
      } else if s.pcs[t].Deciding? || s.pcs[t].Scanning? {
        EvictionWeight(cfg, s, t);
      } else {
        CountingWeight(cfg, s, t);
      }
  }

  // ---------------------------------------------------------------- whole runs

  function LateCompletions(cfg: Config, events: seq<Event>): nat {
    if events == [] then 0
    else
      var n := |events| - 1;
      LateCompletions(cfg, events[..n]) + if CompletesLate(cfg, Run(cfg, events[..n]), events[n]) then 1 else 0
  }

  lemma {:induction false} InitialWeight(cfg: Config, n: nat)
    requires n <= NUM_MEMORY_SHARDS
    ensures WeightUpTo(cfg, Initial(), n) == n
  {
    if n > 0 { InitialWeight(cfg, n - 1); }
  }

  lemma {:induction false} WeightIsBounded(cfg: Config, events: seq<Event>)
    requires CompletionsFit(Run(cfg, events).log)
    ensures WeightUpTo(cfg, Run(cfg, events), NUM_MEMORY_SHARDS) <=
              cfg.ShardCapacity() + NUM_MEMORY_SHARDS - 1 + LateCompletions(cfg, events)
    decreases |events|
  {
    if events == [] {
      InitialWeight(cfg, NUM_MEMORY_SHARDS);
    } else {
      var n := |events| - 1;
      var before, e, s := Run(cfg, events[..n]), events[n], Run(cfg, events);
      LogGrows(cfg, before, e);
      WeightIsBounded(cfg, events[..n]);
      AlwaysStructured(cfg, events[..n]);
      if FindsRoom(cfg, before, e) {
        AlwaysExact(cfg, events);
        WeightWithinCount(cfg, s, NUM_MEMORY_SHARDS);
      } else if EffectOf(cfg, before, e).Some? {
        StepStructured(cfg, before, e);
        StepWeight(cfg, before, e);
        WeightFollows(cfg, before, EffectOf(cfg, before, e).value, if CompletesLate(cfg, before, e) then 1 else 0, NUM_MEMORY_SHARDS);
      }
    }
  }

  lemma LogGrows(cfg: Config, s: Shared, e: Event)
    requires Shaped(s) && CompletionsFit(Step(cfg, s, e).log)
    ensures CompletionsFit(s.log)
  {
    var log := Step(cfg, s, e).log;
    assert forall i :: 0 <= i < |s.log| ==> log[i] == s.log[i];
  }

  /** In every interleaving the engine holds at most its capacity (or one, when that is zero), one record
      more for each shard but one, and one for each completion that found no record of its key. */
  lemma RecordsAreBounded(cfg: Config, events: seq<Event>)
    requires CompletionsFit(Run(cfg, events).log)
    ensures Total(Run(cfg, events).shards) <=
              (if cfg.maxCapacity == 0 then 1 else cfg.maxCapacity) + 31 + LateCompletions(cfg, events)
  {
    var s := Run(cfg, events);
    RecordsWithinWeight(cfg, s, NUM_MEMORY_SHARDS);
    assert s.shards[..NUM_MEMORY_SHARDS] == s.shards;
    WeightIsBounded(cfg, events);
  }
}
