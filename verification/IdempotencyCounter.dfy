/** The record counter under every interleaving (src/idempotency/mod.rs): it differs from the number
    of records by exactly the changes that the threads in between still owe it. */
module IdempotencyCounter {
  import opened Lru
  import opened Wrappers
  import opened Idempotency
  import opened IdempotencyLocks

  /** What a thread at `pc` still owes the counter for shard `i`: records popped but not yet
      subtracted, less records put but not yet added. */
  function Owed(cfg: Config, pc: Option<Pc>, i: nat): int {
    match pc
    case None => 0
    case Some(p) =>
      match p
      case Evicted(key, _, _) => if cfg.shardOf(key) == i then 1 else 0
      case EvictedOther(_, _, _, victim) => if victim == i then 1 else 0
      case Counting(key) => if cfg.shardOf(key) == i then -1 else 0
      case Removing(key) => if cfg.shardOf(key) == i then 1 else 0
      case _ => 0
  }

  function PcOf(s: Shared, t: nat): Option<Pc> {
    if t in s.pcs then Some(s.pcs[t]) else None
  }

  /** What the counter currently counts for shard `i`: its size, when nobody holds its lock. */
  function Counted(cfg: Config, s: Shared, i: nat): int
    requires Shaped(s) && i < NUM_MEMORY_SHARDS
  {
    |s.shards[i]| + (if s.locks[i].Some? then Owed(cfg, PcOf(s, s.locks[i].value), i) else 0)
  }

  function CountedUpTo(cfg: Config, s: Shared, n: nat): int
    requires Shaped(s) && n <= NUM_MEMORY_SHARDS
  {
    if n == 0 then 0 else CountedUpTo(cfg, s, n - 1) + Counted(cfg, s, n - 1)
  }

  /** No completion found its key gone and its shard full: what `complete` needs, since it never evicts. */
  ghost predicate CompletionsFit(log: seq<Happening>) {
    forall i :: 0 <= i < |log| && log[i].Finished? ==> log[i].fits
  }

  ghost predicate RoomKept(cfg: Config, s: Shared)
    requires Shaped(s)
  {
    forall t :: t in s.pcs ==>
      var size := |s.shards[cfg.shardOf(s.pcs[t].key)]|;
      && (s.pcs[t].Counting? ==> size > 0)
      && (s.pcs[t].WillInsert() && !s.pcs[t].Deciding? ==> size < cfg.ShardCapacity())
  }

  ghost predicate CounterExact(cfg: Config, s: Shared) {
    Structured(cfg, s) && RoomKept(cfg, s) && s.len == CountedUpTo(cfg, s, NUM_MEMORY_SHARDS)
  }

  /** The step changes what is counted for its shard by as much as it changes the counter. */
  ghost predicate Balanced(cfg: Config, s: Shared, f: Effect)
    requires Shaped(s) && f.shard < NUM_MEMORY_SHARDS
  {
    && |f.cache| + Owed(cfg, f.pc, f.shard) - f.len == |s.shards[f.shard]| + Owed(cfg, PcOf(s, f.thread), f.shard) - s.len
    && (forall i :: 0 <= i < NUM_MEMORY_SHARDS && i != f.shard ==> Owed(cfg, f.pc, i) == Owed(cfg, PcOf(s, f.thread), i))
  }

  lemma OwesOnlyHeldShards(cfg: Config, pc: Pc, i: nat)
    requires i !in Footprint(cfg, pc)
    ensures Owed(cfg, Some(pc), i) == 0
  {}

  lemma CountedByThread(cfg: Config, s: Shared, t: nat, i: nat)
    requires Shaped(s) && LocksMatch(cfg, s) && i < NUM_MEMORY_SHARDS
    requires s.locks[i].None? || s.locks[i] == Some(t)
    ensures Counted(cfg, s, i) == |s.shards[i]| + Owed(cfg, PcOf(s, t), i)
  {
    if s.locks[i].None? && t in s.pcs {
      OwesOnlyHeldShards(cfg, s.pcs[t], i);
    }
  }

  lemma CountedElsewhere(cfg: Config, s: Shared, f: Effect, i: nat)
    requires InOrder(cfg, s, f) && Balanced(cfg, s, f) && i < NUM_MEMORY_SHARDS
    ensures Counted(cfg, Apply(cfg, s, f), i) ==
              Counted(cfg, s, i) + (if i == f.shard then f.len - s.len else 0)
  {
    var s' := Apply(cfg, s, f);
    if s.locks[i].None? || s.locks[i] == Some(f.thread) {
      ApplyLocks(cfg, s, f);
      CountedByThread(cfg, s, f.thread, i);
      CountedByThread(cfg, s', f.thread, i);
      assert PcOf(s', f.thread) == f.pc;
    } else {
      assert s'.locks[i] == s.locks[i] && i != f.shard;
      assert PcOf(s', s.locks[i].value) == PcOf(s, s.locks[i].value);
    }
  }

  lemma {:induction false} SumFollows(cfg: Config, s: Shared, f: Effect, n: nat)
    requires InOrder(cfg, s, f) && Balanced(cfg, s, f) && n <= NUM_MEMORY_SHARDS
    ensures CountedUpTo(cfg, Apply(cfg, s, f), n) == CountedUpTo(cfg, s, n) + (if f.shard < n then f.len - s.len else 0)
  {
    if n > 0 {
      SumFollows(cfg, s, f, n - 1);
      CountedElsewhere(cfg, s, f, n - 1);
    }
  }

  lemma CountedNonNegative(cfg: Config, s: Shared, i: nat)
    requires CounterExact(cfg, s) && i < NUM_MEMORY_SHARDS
    ensures Counted(cfg, s, i) >= 0
  {
    if s.locks[i].Some? {
      var t := s.locks[i].value;
      assert t in s.pcs;
    }
  }

  lemma {:induction false} CountedWithinSum(cfg: Config, s: Shared, i: nat, n: nat)
    requires CounterExact(cfg, s) && n <= NUM_MEMORY_SHARDS
    ensures CountedUpTo(cfg, s, n) >= 0
    ensures i < n ==> Counted(cfg, s, i) <= CountedUpTo(cfg, s, n)
  {
    if n > 0 {
      CountedWithinSum(cfg, s, i, n - 1);
      CountedNonNegative(cfg, s, n - 1);
    }
  }

  lemma ApplyRoom(cfg: Config, s: Shared, f: Effect)
    requires InOrder(cfg, s, f) && RoomKept(cfg, s)
    requires f.pc.Some? ==>
               var size := |s.shards[f.shard := f.cache][cfg.shardOf(f.pc.value.key)]|;
               && (f.pc.value.Counting? ==> size > 0)
               && (f.pc.value.WillInsert() && !f.pc.value.Deciding? ==> size < cfg.ShardCapacity())
    ensures RoomKept(cfg, Apply(cfg, s, f))
  {
    var s' := Apply(cfg, s, f);
    forall t | t in s'.pcs
      ensures var size := |s'.shards[cfg.shardOf(s'.pcs[t].key)]|;
              && (s'.pcs[t].Counting? ==> size > 0)
              && (s'.pcs[t].WillInsert() && !s'.pcs[t].Deciding? ==> size < cfg.ShardCapacity())
    {
      if t != f.thread {
        assert s.pcs[t] == s'.pcs[t];
        OthersKeepTheirShard(cfg, s, f, t);
      }
    }
  }

  lemma StartBalanced(cfg: Config, s: Shared, t: nat, request: Request)
    requires Structured(cfg, s) && StartEffect(cfg, s, t, request).Some?
    requires CompletionsFit(StartEffect(cfg, s, t, request).value.news)
    ensures Balanced(cfg, s, StartEffect(cfg, s, t, request).value)
  {
    var f := StartEffect(cfg, s, t, request).value;
    var c := s.shards[cfg.shardOf(request.key)];
    assert PcOf(s, t) == None;
    match request {
      case Check(key, _, _) => PromotedContents(c, key);
      case Complete(key, nowSecs, hlc, response) =>
        assert f.news[|f.news| - 1].fits;
        PutContents(c, key, Completed(hlc, response, nowSecs), cfg.ShardCapacity());
      case Remove(key) => WithoutContents(c, key);
    }
  }

  lemma StartRoom(cfg: Config, s: Shared, t: nat, request: Request)
    requires Structured(cfg, s) && RoomKept(cfg, s) && StartEffect(cfg, s, t, request).Some?
    ensures RoomKept(cfg, Apply(cfg, s, StartEffect(cfg, s, t, request).value))
  {
    StartInOrder(cfg, s, t, request);
    if request.Complete? {
      PutContents(s.shards[cfg.shardOf(request.key)], request.key, Completed(request.hlc, request.response, request.nowSecs), cfg.ShardCapacity());
    }
    ApplyRoom(cfg, s, StartEffect(cfg, s, t, request).value);
  }

  lemma InsertBalanced(cfg: Config, s: Shared, t: nat)
    requires Structured(cfg, s) && RoomKept(cfg, s) && t in s.pcs && s.pcs[t].Inserting?
    ensures Balanced(cfg, s, AdvanceEffect(cfg, s, t).value)
  {
    var Inserting(key, nowSecs, hlc) := s.pcs[t];
    var own := cfg.shardOf(key);
    PutContents(s.shards[own], key, InProgress(hlc, nowSecs), cfg.ShardCapacity());
    var f := AdvanceEffect(cfg, s, t).value;
    assert f.shard == own && |f.cache| == (if f.pc.None? then |s.shards[own]| else |s.shards[own]| + 1);
  }

  lemma EvictionBalanced(cfg: Config, s: Shared, t: nat)
    requires Structured(cfg, s) && t in s.pcs && (s.pcs[t].Deciding? || s.pcs[t].Scanning?)
    ensures Balanced(cfg, s, AdvanceEffect(cfg, s, t).value)
  {
    var f := AdvanceEffect(cfg, s, t).value;
    assert PcOf(s, t) == Some(s.pcs[t]);
    if f.news == [] {
      assert f.cache == s.shards[f.shard] && f.len == s.len;
      assert forall i :: 0 <= i < NUM_MEMORY_SHARDS ==> Owed(cfg, f.pc, i) == 0 == Owed(cfg, PcOf(s, t), i);
    } else {
      assert |f.cache| == |s.shards[f.shard]| - 1 && f.len == s.len;
      assert forall i :: 0 <= i < NUM_MEMORY_SHARDS ==> Owed(cfg, f.pc, i) == if i == f.shard then 1 else 0;
    }
  }

  lemma SettlementBalanced(cfg: Config, s: Shared, t: nat)
    requires Structured(cfg, s) && t in s.pcs
    requires s.pcs[t].Evicted? || s.pcs[t].EvictedOther? || s.pcs[t].Counting? || s.pcs[t].Removing?
    ensures AdvanceEffect(cfg, s, t).Some? && Balanced(cfg, s, AdvanceEffect(cfg, s, t).value)
  {
    assert s.pcs[t].EvictedOther? ==> s.pcs[t].victim in Footprint(cfg, s.pcs[t]);
    var f := AdvanceEffect(cfg, s, t).value;
    assert PcOf(s, t) == Some(s.pcs[t]);
    assert f.cache == s.shards[f.shard];
    assert forall i :: 0 <= i < NUM_MEMORY_SHARDS ==> Owed(cfg, f.pc, i) == 0;
    assert forall i :: 0 <= i < NUM_MEMORY_SHARDS ==> Owed(cfg, PcOf(s, t), i) == if i == f.shard then s.len - f.len else 0;
  }

  lemma AdvanceBalanced(cfg: Config, s: Shared, t: nat)
    requires Structured(cfg, s) && RoomKept(cfg, s) && AdvanceEffect(cfg, s, t).Some?
    ensures Balanced(cfg, s, AdvanceEffect(cfg, s, t).value)
  {
    var pc := s.pcs[t];
    if pc.Inserting? {
      InsertBalanced(cfg, s, t);
    } else if pc.Deciding? || pc.Scanning? {
      EvictionBalanced(cfg, s, t);
    } else {
      SettlementBalanced(cfg, s, t);
    }
  }

  lemma DecidingRoom(cfg: Config, s: Shared, t: nat)
    requires CounterExact(cfg, s) && t in s.pcs && s.pcs[t].Deciding?
    ensures RoomKept(cfg, Apply(cfg, s, AdvanceEffect(cfg, s, t).value))
  {
    var own := cfg.shardOf(s.pcs[t].key);
    assert own in Footprint(cfg, s.pcs[t]);
    CountedWithinSum(cfg, s, own, NUM_MEMORY_SHARDS);
    CountedByThread(cfg, s, t, own);
    EvictionInOrder(cfg, s, t);
    ApplyRoom(cfg, s, AdvanceEffect(cfg, s, t).value);
  }

  lemma InsertRoom(cfg: Config, s: Shared, t: nat)
    requires CounterExact(cfg, s) && t in s.pcs && s.pcs[t].Inserting?
    ensures RoomKept(cfg, Apply(cfg, s, AdvanceEffect(cfg, s, t).value))
  {
    var pc := s.pcs[t];
    PutContents(s.shards[cfg.shardOf(pc.key)], pc.key, InProgress(pc.hlc, pc.nowSecs), cfg.ShardCapacity());
    InsertionInOrder(cfg, s, t);
    ApplyRoom(cfg, s, AdvanceEffect(cfg, s, t).value);
  }

  lemma ScanningRoom(cfg: Config, s: Shared, t: nat, f: Effect)
    requires InOrder(cfg, s, f) && RoomKept(cfg, s) && t in s.pcs && s.pcs[t].Scanning? && AdvanceEffect(cfg, s, t) == Some(f)
    ensures RoomKept(cfg, Apply(cfg, s, f))
  {
    var own := cfg.shardOf(s.pcs[t].key);
    assert s.shards[f.shard := f.cache][own] == s.shards[own];
    assert f.pc.Some? && f.pc.value.key == s.pcs[t].key && !f.pc.value.Counting?;
    ApplyRoom(cfg, s, f);
  }

  /** The steps that only change the counter. */
  lemma CountingRoom(cfg: Config, s: Shared, t: nat, f: Effect)
    requires InOrder(cfg, s, f) && RoomKept(cfg, s) && t in s.pcs && AdvanceEffect(cfg, s, t) == Some(f)
    requires !s.pcs[t].Deciding? && !s.pcs[t].Scanning? && !s.pcs[t].Inserting?
    ensures RoomKept(cfg, Apply(cfg, s, f))
  {
    assert s.shards[f.shard := f.cache] == s.shards;
    assert f.pc.Some? ==> s.pcs[t].WillInsert() && f.pc.value.key == s.pcs[t].key && f.pc.value.Inserting?;
    ApplyRoom(cfg, s, f);
  }

  lemma AdvanceRoom(cfg: Config, s: Shared, t: nat)
    requires CounterExact(cfg, s) && AdvanceEffect(cfg, s, t).Some?
    ensures RoomKept(cfg, Apply(cfg, s, AdvanceEffect(cfg, s, t).value))
  {
    var pc := s.pcs[t];
    if pc.Deciding? {
      DecidingRoom(cfg, s, t);
    } else if pc.Inserting? {
      InsertRoom(cfg, s, t);
    } else if pc.Scanning? {
      EvictionInOrder(cfg, s, t);
      ScanningRoom(cfg, s, t, AdvanceEffect(cfg, s, t).value);
    } else {
      AdvanceInOrder(cfg, s, t);
      CountingRoom(cfg, s, t, AdvanceEffect(cfg, s, t).value);
    }
  }

  lemma NewsFit(log: seq<Happening>, news: seq<Happening>)
    requires CompletionsFit(log + news)
    ensures CompletionsFit(news)
  {
    forall i | 0 <= i < |news| && news[i].Finished?
      ensures news[i].fits
    {
      assert (log + news)[|log| + i] == news[i];
    }
  }

  lemma ApplyExact(cfg: Config, s: Shared, f: Effect)
    requires CounterExact(cfg, s) && InOrder(cfg, s, f) && Balanced(cfg, s, f)
    requires Structured(cfg, Apply(cfg, s, f)) && RoomKept(cfg, Apply(cfg, s, f))
    ensures CounterExact(cfg, Apply(cfg, s, f))
  {
    SumFollows(cfg, s, f, NUM_MEMORY_SHARDS);
  }

  lemma EffectBalanced(cfg: Config, s: Shared, e: Event)
    requires CounterExact(cfg, s) && EffectOf(cfg, s, e).Some?
    requires CompletionsFit(EffectOf(cfg, s, e).value.news)
    ensures Balanced(cfg, s, EffectOf(cfg, s, e).value)
  {
    match e
    case Start(t, request) => StartBalanced(cfg, s, t, request);
    case Advance(t) => AdvanceBalanced(cfg, s, t);
  }

  lemma EffectRoom(cfg: Config, s: Shared, e: Event)
    requires CounterExact(cfg, s) && EffectOf(cfg, s, e).Some?
    ensures RoomKept(cfg, Apply(cfg, s, EffectOf(cfg, s, e).value))
  {
    match e
    case Start(t, request) => StartRoom(cfg, s, t, request);
    case Advance(t) => AdvanceRoom(cfg, s, t);
  }

  lemma StepExact(cfg: Config, s: Shared, e: Event)
    requires CounterExact(cfg, s) && CompletionsFit(Step(cfg, s, e).log)
    ensures CounterExact(cfg, Step(cfg, s, e))
  {
    StepStructured(cfg, s, e);
    var f := EffectOf(cfg, s, e);
    if f.Some? {
      NewsFit(s.log, f.value.news);
      EffectBalanced(cfg, s, e);
      EffectRoom(cfg, s, e);
      ApplyExact(cfg, s, f.value);
    }
  }

  lemma {:induction false} InitialExact(cfg: Config, n: nat)
    requires n <= NUM_MEMORY_SHARDS
    ensures CountedUpTo(cfg, Initial(), n) == 0
  {
    if n > 0 { InitialExact(cfg, n - 1); }
  }

  /** In every reachable state of every interleaving whose completions fit, the counter is the sum of
      what it counts for each shard, and an insertion that is under way has room in its shard. */
  lemma {:induction false} AlwaysExact(cfg: Config, events: seq<Event>)
    requires CompletionsFit(Run(cfg, events).log)
    ensures CounterExact(cfg, Run(cfg, events))
    decreases |events|
  {
    if events == [] {
      InitialExact(cfg, NUM_MEMORY_SHARDS);
      AlwaysStructured(cfg, events);
    } else {
      var n := |events| - 1;
      var before, s := Run(cfg, events[..n]), Run(cfg, events);
      assert s == Step(cfg, before, events[n]);
      assert forall i :: 0 <= i < |before.log| ==> s.log[i] == before.log[i];
      AlwaysExact(cfg, events[..n]);
      StepExact(cfg, before, events[n]);
    }
  }

  /** The counter is the sum of what it counts for each shard and never negative, and no insertion by a
      request ever drops a record from a full shard. */
  lemma CounterCoherence(cfg: Config, events: seq<Event>)
    requires CompletionsFit(Run(cfg, events).log)
    ensures var s := Run(cfg, events);
            && 0 <= s.len == CountedUpTo(cfg, s, NUM_MEMORY_SHARDS)
            && (forall t :: t in s.pcs && s.pcs[t].Inserting? ==> Dropped(cfg, s.shards[cfg.shardOf(s.pcs[t].key)], s.pcs[t].key) == [])
  {
    AlwaysExact(cfg, events);
    CountedWithinSum(cfg, Run(cfg, events), 0, NUM_MEMORY_SHARDS);
  }

  /** The calls that have changed a shard and not yet the counter. */
  function Debtors(s: Shared): set<nat> {
    set t | t in s.pcs && (s.pcs[t].Evicted? || s.pcs[t].EvictedOther? || s.pcs[t].Counting? || s.pcs[t].Removing?)
  }

  lemma {:induction false} DebtUpTo(cfg: Config, s: Shared, n: nat) returns (debtors: set<nat>)
    requires Structured(cfg, s) && n <= NUM_MEMORY_SHARDS
    ensures debtors <= Debtors(s)
    ensures forall t :: t in debtors ==> exists i: nat :: i < n && Owed(cfg, Some(s.pcs[t]), i) != 0
    ensures -|debtors| <= CountedUpTo(cfg, s, n) - Total(s.shards[..n]) <= |debtors|
  {
    debtors := {};
    if n > 0 {
      debtors := DebtUpTo(cfg, s, n - 1);
      assert s.shards[..n] == s.shards[..n - 1] + [s.shards[n - 1]];
      TotalAppend(s.shards[..n - 1], s.shards[n - 1]);
      if Counted(cfg, s, n - 1) != |s.shards[n - 1]| {
        var t := s.locks[n - 1].value;
        assert t in s.pcs && Owed(cfg, Some(s.pcs[t]), n - 1) != 0;
        assert t !in debtors;
        debtors := debtors + {t};
      }
    }
  }

  /** At every moment the counter is off the true number of records by at most one for each call between
      its change of a shard and its change of the counter. */
  lemma CounterIsOffByDebtors(cfg: Config, events: seq<Event>)
    requires CompletionsFit(Run(cfg, events).log)
    ensures var s := Run(cfg, events);
            -|Debtors(s)| <= s.len - Total(s.shards) <= |Debtors(s)|
  {
    var s := Run(cfg, events);
    AlwaysExact(cfg, events);
    var debtors := DebtUpTo(cfg, s, NUM_MEMORY_SHARDS);
    assert s.shards[..NUM_MEMORY_SHARDS] == s.shards;
    SubsetSize(debtors, Debtors(s));
  }

  /** Once every call has returned, `active_record_count` is the exact number of records. */
  lemma QuiescentCountIsExact(cfg: Config, events: seq<Event>)
    requires CompletionsFit(Run(cfg, events).log) && Run(cfg, events).pcs == map[]
    ensures Run(cfg, events).len == Total(Run(cfg, events).shards)
  {
    CounterIsOffByDebtors(cfg, events);
    assert Debtors(Run(cfg, events)) == {};
  }

  // ---------------------------------------------------------------- progress

  /** An upper bound on the steps a thread still takes before it releases its locks. */
  function StepsLeft(pc: Pc): nat {
    match pc
    case Deciding(_, _, _) => 40
    case Scanning(_, _, _, next) => if next < NUM_MEMORY_SHARDS then 4 + NUM_MEMORY_SHARDS - next else 4
    case EvictedOther(_, _, _, _) => 3
    case Evicted(_, _, _) => 3
    case Inserting(_, _, _) => 2
    case Counting(_) => 1
    case Removing(_) => 1
  }

  lemma OnlyItselfMoves(cfg: Config, s: Shared, e: Event, t: nat)
    requires Shaped(s) && t in s.pcs && e != Advance(t)
    ensures PcOf(Step(cfg, s, e), t) == Some(s.pcs[t])
  {
    var f := EffectOf(cfg, s, e);
    assert f.Some? ==> f.value.thread == e.thread && e.thread != t;
  }

  lemma AdvanceDescends(cfg: Config, s: Shared, t: nat)
    requires Structured(cfg, s) && t in s.pcs
    ensures var f := AdvanceEffect(cfg, s, t);
            f.Some? && (f.value.pc.Some? ==> StepsLeft(f.value.pc.value) < StepsLeft(s.pcs[t]))
  {
    var pc := s.pcs[t];
    assert pc.EvictedOther? ==> pc.victim in Footprint(cfg, pc);
  }

  /** No deadlock: a thread that holds a lock is never blocked, each of its own steps brings it closer
      to releasing, and nobody else moves it; so every waiting call can get its lock. */
  lemma HoldersProgress(cfg: Config, s: Shared, t: nat, e: Event)
    requires Structured(cfg, s) && t in s.pcs
    ensures var next := PcOf(Step(cfg, s, e), t);
            if e == Advance(t) then next.Some? ==> StepsLeft(next.value) < StepsLeft(s.pcs[t])
            else next == Some(s.pcs[t])
  {
    if e == Advance(t) {
      AdvanceDescends(cfg, s, t);
      var f := AdvanceEffect(cfg, s, t).value;
      assert f.thread == t;
      assert PcOf(Apply(cfg, s, f), t) == f.pc;
    } else {
      OnlyItselfMoves(cfg, s, e, t);
    }
  }
}
