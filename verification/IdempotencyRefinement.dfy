/** With fewer distinct keys than the capacity, sharding, recency order and the counter are
    invisible: the engine answers every request as one plain map with expiry would
    (src/idempotency/mod.rs). */
module IdempotencyRefinement {
  import opened Timestamps
  import opened Lru
  import opened Wrappers
  import opened Idempotency

  // ---------------------------------------------------------------- the plain map

  type PlainMap = map<Key, Record>

  function Lookup(m: PlainMap, key: Key): Option<Record> {
    if key in m then Some(m[key]) else None
  }

  function PlainOutcome(cfg: Config, m: PlainMap, op: Request): Option<Outcome> {
    if op.Check? then Some(Answer(cfg, Lookup(m, op.key), op.nowSecs)) else None
  }

  function PlainStep(cfg: Config, m: PlainMap, op: Request): PlainMap {
    match op
    case Check(key, nowSecs, hlc) =>
      if Answer(cfg, Lookup(m, key), nowSecs).New? then m[key := InProgress(hlc, nowSecs)] else m
    case Complete(key, nowSecs, hlc, response) => m[key := Completed(hlc, response, nowSecs)]
    case Remove(key) => m - {key}
  }

  // ---------------------------------------------------------------- the engine

  function EngineOutcome(cfg: Config, st: Store, op: Request): Option<Outcome>
    requires |st.shards| == NUM_MEMORY_SHARDS
  {
    if op.Check? then Some(Answer(cfg, Find(cfg, st.shards, op.key), op.nowSecs)) else None
  }

  function EngineStep(cfg: Config, st: Store, op: Request): (st': Store)
    requires |st.shards| == NUM_MEMORY_SHARDS
    ensures |st'.shards| == NUM_MEMORY_SHARDS
  {
    match op
    case Check(key, nowSecs, hlc) => AfterCheck(cfg, st, key, nowSecs, hlc)
    case Complete(key, nowSecs, hlc, response) => Inserted(cfg, st, key, Completed(hlc, response, nowSecs))
    case Remove(key) => AfterRemove(cfg, st, key)
  }

  function Empty(): Store {
    Store(seq(NUM_MEMORY_SHARDS, i => []), 0)
  }

  function EngineOutcomes(cfg: Config, st: Store, ops: seq<Request>): seq<Option<Outcome>>
    requires |st.shards| == NUM_MEMORY_SHARDS
    decreases |ops|
  {
    if ops == [] then []
    else [EngineOutcome(cfg, st, ops[0])] + EngineOutcomes(cfg, EngineStep(cfg, st, ops[0]), ops[1..])
  }

  function PlainOutcomes(cfg: Config, m: PlainMap, ops: seq<Request>): seq<Option<Outcome>>
    decreases |ops|
  {
    if ops == [] then []
    else [PlainOutcome(cfg, m, ops[0])] + PlainOutcomes(cfg, PlainStep(cfg, m, ops[0]), ops[1..])
  }

  // ---------------------------------------------------------------- sizes

  function KeysUpTo(shards: Shards, n: nat): set<Key>
    requires n <= |shards|
  {
    if n == 0 then {} else KeysUpTo(shards, n - 1) + Contents(shards[n - 1]).Keys
  }

  lemma {:induction false} KeysUpToMembers(shards: Shards, n: nat, key: Key)
    requires n <= |shards| && key in KeysUpTo(shards, n)
    ensures exists i :: 0 <= i < n && key in Contents(shards[i])
  {
    if key in Contents(shards[n - 1]) { } else { KeysUpToMembers(shards, n - 1, key); }
  }

  /** Distinct keys and one shard per key: the total is the number of keys. */
  lemma {:induction false} TotalCountsKeys(cfg: Config, shards: Shards, n: nat)
    requires WellPlaced(cfg, shards) && n <= |shards|
    ensures Total(shards[..n]) == |KeysUpTo(shards, n)|
  {
    if n > 0 {
      TotalCountsKeys(cfg, shards, n - 1);
      assert shards[..n] == shards[..n - 1] + [shards[n - 1]];
      TotalAppend(shards[..n - 1], shards[n - 1]);
      ContentsSize(shards[n - 1]);
      var (rest, mine) := (KeysUpTo(shards, n - 1), Contents(shards[n - 1]).Keys);
      forall key | key in rest
        ensures key !in mine
      {
        KeysUpToMembers(shards, n - 1, key);
        var i :| 0 <= i < n - 1 && key in Contents(shards[i]);
        assert cfg.shardOf(key) == i;
      }
      assert rest !! mine;
      assert |Contents(shards[n - 1])| == |mine|;
    }
  }

  ghost predicate KeysWithin(cfg: Config, st: Store, universe: set<Key>)
    requires |st.shards| == NUM_MEMORY_SHARDS
  {
    forall key :: Find(cfg, st.shards, key).Some? ==> key in universe
  }

  lemma LenWithinUniverse(cfg: Config, st: Store, universe: set<Key>)
    requires Coherent(cfg, st) && KeysWithin(cfg, st, universe)
    ensures st.len <= |universe|
  {
    TotalCountsKeys(cfg, st.shards, NUM_MEMORY_SHARDS);
    assert st.shards[..NUM_MEMORY_SHARDS] == st.shards;
    forall key | key in KeysUpTo(st.shards, NUM_MEMORY_SHARDS)
      ensures key in universe
    {
      KeysUpToMembers(st.shards, NUM_MEMORY_SHARDS, key);
      assert Find(cfg, st.shards, key).Some?;
    }
    SubsetSize(KeysUpTo(st.shards, NUM_MEMORY_SHARDS), universe);
  }

  // ---------------------------------------------------------------- simulation

  ghost predicate Agrees(cfg: Config, st: Store, m: PlainMap)
    requires |st.shards| == NUM_MEMORY_SHARDS
  {
    forall key :: Find(cfg, st.shards, key) == Lookup(m, key)
  }

  lemma InsertAgrees(cfg: Config, st: Store, m: PlainMap, key: Key, r: Record)
    requires Coherent(cfg, st) && Agrees(cfg, st, m)
    requires Find(cfg, st.shards, key).Some? || |st.shards[cfg.shardOf(key)]| < cfg.ShardCapacity()
    ensures Coherent(cfg, Inserted(cfg, st, key, r)) && Agrees(cfg, Inserted(cfg, st, key, r), m[key := r])
  {
    InsertedKeeps(cfg, st, key, r);
    var st' := Inserted(cfg, st, key, r);
    forall k
      ensures Find(cfg, st'.shards, k) == Lookup(m[key := r], k)
    {
      assert Find(cfg, st.shards, k) == Lookup(m, k);
    }
  }

  lemma StepAgrees(cfg: Config, st: Store, m: PlainMap, op: Request, universe: set<Key>)
    requires Coherent(cfg, st) && Agrees(cfg, st, m) && KeysWithin(cfg, st, universe)
    requires op.key in universe && |universe| < cfg.maxCapacity
    ensures EngineOutcome(cfg, st, op) == PlainOutcome(cfg, m, op)
    ensures var st' := EngineStep(cfg, st, op);
            Coherent(cfg, st') && Agrees(cfg, st', PlainStep(cfg, m, op)) && KeysWithin(cfg, st', universe)
  {
    LenWithinUniverse(cfg, st, universe);
    ShardWithinTotal(st.shards, cfg.shardOf(op.key));
    assert Find(cfg, st.shards, op.key) == Lookup(m, op.key);
    match op
    case Check(key, nowSecs, hlc) =>
      TouchedKeeps(cfg, st, key);
      var touched := Touched(cfg, st, key);
      assert forall k :: Find(cfg, touched.shards, k) == Find(cfg, st.shards, k);
      InsertAgrees(cfg, touched, m, key, InProgress(hlc, nowSecs));
    case Complete(key, nowSecs, hlc, response) =>
      InsertAgrees(cfg, st, m, key, Completed(hlc, response, nowSecs));
    case Remove(key) =>
      RemovedKeeps(cfg, st, key);
  }

  lemma {:induction false} RunAgrees(cfg: Config, st: Store, m: PlainMap, ops: seq<Request>, universe: set<Key>)
    requires Coherent(cfg, st) && Agrees(cfg, st, m) && KeysWithin(cfg, st, universe)
    requires (forall op :: op in ops ==> op.key in universe) && |universe| < cfg.maxCapacity
    ensures EngineOutcomes(cfg, st, ops) == PlainOutcomes(cfg, m, ops)
    decreases |ops|
  {
    if ops != [] {
      assert ops[0] in ops;
      StepAgrees(cfg, st, m, ops[0], universe);
      RunAgrees(cfg, EngineStep(cfg, st, ops[0]), PlainStep(cfg, m, ops[0]), ops[1..], universe);
    }
  }

  /** For every sequence of operations on fewer keys than the capacity, with any clock readings,
      backward ones included, every outcome is the plain map's. */
  lemma RefinesPlainMap(cfg: Config, ops: seq<Request>, universe: set<Key>)
    requires (forall op :: op in ops ==> op.key in universe) && |universe| < cfg.maxCapacity
    ensures EngineOutcomes(cfg, Empty(), ops) == PlainOutcomes(cfg, map[], ops)
  {
    EmptyTotal(NUM_MEMORY_SHARDS);
    RunAgrees(cfg, Empty(), map[], ops, universe);
  }

  // ---------------------------------------------------------------- capacity

  function EngineRun(cfg: Config, st: Store, ops: seq<Request>): (st': Store)
    requires |st.shards| == NUM_MEMORY_SHARDS
    ensures |st'.shards| == NUM_MEMORY_SHARDS
  {
    if ops == [] then st else EngineStep(cfg, EngineRun(cfg, st, ops[..|ops| - 1]), ops[|ops| - 1])
  }

  /** Every completion finds its key still cached. */
  ghost predicate CompletesCachedKeys(cfg: Config, ops: seq<Request>) {
    forall i :: 0 <= i < |ops| && ops[i].Complete? ==>
      Find(cfg, EngineRun(cfg, Empty(), ops[..i]).shards, ops[i].key).Some?
  }

  /** Run one operation after another, the engine never holds more records than its capacity (or one,
      when that is zero), whatever the keys and the clock readings, and always counts them exactly. */
  lemma {:induction false} CapacityHolds(cfg: Config, ops: seq<Request>)
    requires CompletesCachedKeys(cfg, ops)
    ensures var st := EngineRun(cfg, Empty(), ops);
            Coherent(cfg, st) && Total(st.shards) == st.len <= if cfg.maxCapacity == 0 then 1 else cfg.maxCapacity
  {
    if ops == [] {
      EmptyTotal(NUM_MEMORY_SHARDS);
    } else {
      var n := |ops| - 1;
      assert forall i :: 0 <= i <= n ==> ops[..n][..i] == ops[..i];
      CapacityHolds(cfg, ops[..n]);
      StepWithinCapacity(cfg, EngineRun(cfg, Empty(), ops[..n]), ops[n]);
    }
  }

  lemma StepWithinCapacity(cfg: Config, st: Store, op: Request)
    requires Coherent(cfg, st) && st.len <= cfg.ShardCapacity()
    requires op.Complete? ==> Find(cfg, st.shards, op.key).Some?
    ensures Coherent(cfg, EngineStep(cfg, st, op)) && EngineStep(cfg, st, op).len <= cfg.ShardCapacity()
  {
    match op
    case Check(key, nowSecs, hlc) => CheckKeeps(cfg, st, key, nowSecs, hlc);
    case Complete(key, nowSecs, hlc, response) => InsertedKeeps(cfg, st, key, Completed(hlc, response, nowSecs));
    case Remove(key) => RemovedKeeps(cfg, st, key);
  }
}
