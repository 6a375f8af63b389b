/** Exactly when sharding and recency order are invisible (src/idempotency/mod.rs:133-345): every
    sequence of calls on a set of keys is answered as one plain map would answer it if and only if the
    keys are fewer than the capacity, or fit it one to a shard. */
module IdempotencyBoundary {
  import opened Timestamps
  import opened Lru
  import opened Wrappers
  import opened Idempotency
  import opened IdempotencyRefinement

  ghost predicate KeysOver(ops: seq<Request>, universe: set<Key>) {
    forall i :: 0 <= i < |ops| ==> ops[i].key in universe
  }

  ghost predicate Refines(cfg: Config, universe: set<Key>) {
    forall ops: seq<Request> :: KeysOver(ops, universe) ==>
      EngineOutcomes(cfg, Empty(), ops) == PlainOutcomes(cfg, map[], ops)
  }

  /** No two of the keys share a shard. */
  ghost predicate Separate(cfg: Config, universe: set<Key>) {
    forall a, b :: a in universe && b in universe && a != b ==> cfg.shardOf(a) != cfg.shardOf(b)
  }

  // ---------------------------------------------------------------- one key to a shard

  lemma LoneKey(cfg: Config, st: Store, universe: set<Key>, key: Key)
    requires WellPlaced(cfg, st.shards) && KeysWithin(cfg, st, universe) && Separate(cfg, universe) && key in universe
    ensures var c := st.shards[cfg.shardOf(key)];
            c == if key in Contents(c) then [(key, Contents(c)[key])] else []
  {
    var c := st.shards[cfg.shardOf(key)];
    forall k | k in Contents(c)
      ensures k == key
    {
      assert cfg.shardOf(k) == cfg.shardOf(key);
      assert Find(cfg, st.shards, k).Some?;
    }
    ContentsSize(c);
    SubsetSize(Contents(c).Keys, {key});
    assert |Contents(c)| == |Contents(c).Keys|;
    if c != [] { assert c[0].0 in Contents(c); }
  }

  lemma RenewalAgrees(cfg: Config, st: Store, m: PlainMap, key: Key, r: Record, universe: set<Key>)
    requires Coherent(cfg, st) && Agrees(cfg, st, m) && KeysWithin(cfg, st, universe)
    requires key in universe && Separate(cfg, universe) && |universe| <= cfg.ShardCapacity()
    ensures var st' := Inserted(cfg, MadeRoom(cfg, st, cfg.shardOf(key)), key, r);
            Coherent(cfg, st') && Agrees(cfg, st', m[key := r])
  {
    var own := cfg.shardOf(key);
    LoneKey(cfg, st, universe, key);
    MadeRoomKeeps(cfg, st, own);
    if st.len >= cfg.maxCapacity && st.shards[own] != [] {
      var room := MadeRoom(cfg, st, own);
      assert room == Store(st.shards[own := []], st.len - 1);
      forall k
        ensures Find(cfg, room.shards, k) == Lookup(m - {key}, k)
      {
        assert Find(cfg, st.shards, k) == Lookup(m, k);
      }
      InsertAgrees(cfg, room, m - {key}, key, r);
      assert (m - {key})[key := r] == m[key := r];
    } else {
      if st.len >= cfg.maxCapacity { AbsentKeyLeavesRoom(cfg, st, universe, key); }
      InsertAgrees(cfg, st, m, key, r);
    }
  }

  lemma CheckAloneAgrees(cfg: Config, st: Store, m: PlainMap, key: Key, nowSecs: nat, hlc: HlcTimestamp, universe: set<Key>)
    requires Coherent(cfg, st) && Agrees(cfg, st, m) && KeysWithin(cfg, st, universe)
    requires key in universe && Separate(cfg, universe) && |universe| <= cfg.ShardCapacity()
    ensures var op := Check(key, nowSecs, hlc);
            Coherent(cfg, EngineStep(cfg, st, op)) && Agrees(cfg, EngineStep(cfg, st, op), PlainStep(cfg, m, op))
  {
    assert Find(cfg, st.shards, key) == Lookup(m, key);
    TouchedKeeps(cfg, st, key);
    var touched := Touched(cfg, st, key);
    assert forall k :: Find(cfg, touched.shards, k) == Find(cfg, st.shards, k);
    RenewalAgrees(cfg, touched, m, key, InProgress(hlc, nowSecs), universe);
  }

  /** Where the key is missing, a full engine is an empty one of capacity zero. */
  lemma AbsentKeyLeavesRoom(cfg: Config, st: Store, universe: set<Key>, key: Key)
    requires Coherent(cfg, st) && KeysWithin(cfg, st, universe) && key in universe
    requires Find(cfg, st.shards, key) == None && |universe| <= cfg.ShardCapacity() && st.len >= cfg.maxCapacity
    ensures MadeRoom(cfg, st, cfg.shardOf(key)) == st
  {
    assert |universe - {key}| == |universe| - 1;
    LenWithinUniverse(cfg, st, universe - {key});
    var v := Victim(st.shards, cfg.shardOf(key));
    if v.Some? { ShardWithinTotal(st.shards, v.value); }
  }

  lemma StepAloneAgrees(cfg: Config, st: Store, m: PlainMap, op: Request, universe: set<Key>)
    requires Coherent(cfg, st) && Agrees(cfg, st, m) && KeysWithin(cfg, st, universe)
    requires op.key in universe && Separate(cfg, universe) && |universe| <= cfg.ShardCapacity()
    ensures EngineOutcome(cfg, st, op) == PlainOutcome(cfg, m, op)
    ensures var st' := EngineStep(cfg, st, op);
            Coherent(cfg, st') && Agrees(cfg, st', PlainStep(cfg, m, op)) && KeysWithin(cfg, st', universe)
  {
    assert Find(cfg, st.shards, op.key) == Lookup(m, op.key);
    match op {
      case Check(key, nowSecs, hlc) => CheckAloneAgrees(cfg, st, m, key, nowSecs, hlc, universe);
      case Complete(key, nowSecs, hlc, response) =>
        LoneKey(cfg, st, universe, key);
        InsertAgrees(cfg, st, m, key, Completed(hlc, response, nowSecs));
      case Remove(key) => RemovedKeeps(cfg, st, key);
    }
    var st' := EngineStep(cfg, st, op);
    forall k | Find(cfg, st'.shards, k).Some?
      ensures k in universe
    {
      assert Find(cfg, st'.shards, k) == Lookup(PlainStep(cfg, m, op), k);
      assert Find(cfg, st.shards, k) == Lookup(m, k);
    }
  }

  lemma {:induction false} RunAloneAgrees(cfg: Config, st: Store, m: PlainMap, ops: seq<Request>, universe: set<Key>)
    requires Coherent(cfg, st) && Agrees(cfg, st, m) && KeysWithin(cfg, st, universe)
    requires KeysOver(ops, universe) && Separate(cfg, universe) && |universe| <= cfg.ShardCapacity()
    ensures EngineOutcomes(cfg, st, ops) == PlainOutcomes(cfg, m, ops)
    decreases |ops|
  {
    if ops != [] {
      StepAloneAgrees(cfg, st, m, ops[0], universe);
      RunAloneAgrees(cfg, EngineStep(cfg, st, ops[0]), PlainStep(cfg, m, ops[0]), ops[1..], universe);
    }
  }

  // ---------------------------------------------------------------- a key that went missing

  function PlainRun(cfg: Config, m: PlainMap, ops: seq<Request>): PlainMap {
    if ops == [] then m else PlainStep(cfg, PlainRun(cfg, m, ops[..|ops| - 1]), ops[|ops| - 1])
  }

  lemma {:induction false} EngineRunFromHead(cfg: Config, st: Store, ops: seq<Request>)
    requires |st.shards| == NUM_MEMORY_SHARDS && ops != []
    ensures EngineRun(cfg, st, ops) == EngineRun(cfg, EngineStep(cfg, st, ops[0]), ops[1..])
  {
    var init, tail := ops[..|ops| - 1], ops[1..];
    if |ops| == 1 {
      assert init == [] && tail == [];
    } else {
      EngineRunFromHead(cfg, st, init);
      assert tail[..|tail| - 1] == init[1..] && tail[|tail| - 1] == ops[|ops| - 1];
    }
  }

  lemma {:induction false} PlainRunFromHead(cfg: Config, m: PlainMap, ops: seq<Request>)
    requires ops != []
    ensures PlainRun(cfg, m, ops) == PlainRun(cfg, PlainStep(cfg, m, ops[0]), ops[1..])
  {
    var init, tail := ops[..|ops| - 1], ops[1..];
    if |ops| == 1 {
      assert init == [] && tail == [];
    } else {
      PlainRunFromHead(cfg, m, init);
      assert tail[..|tail| - 1] == init[1..] && tail[|tail| - 1] == ops[|ops| - 1];
    }
  }

  lemma {:induction false} LastOutcome(cfg: Config, st: Store, m: PlainMap, ops: seq<Request>, op: Request)
    requires |st.shards| == NUM_MEMORY_SHARDS
    ensures var e, p := EngineOutcomes(cfg, st, ops + [op]), PlainOutcomes(cfg, m, ops + [op]);
            && |e| == |p| == |ops| + 1
            && e[|ops|] == EngineOutcome(cfg, EngineRun(cfg, st, ops), op)
            && p[|ops|] == PlainOutcome(cfg, PlainRun(cfg, m, ops), op)
    decreases |ops|
  {
    var all := ops + [op];
    if ops == [] {
      assert all[1..] == [];
    } else {
      assert all[0] == ops[0] && all[1..] == ops[1..] + [op];
      EngineRunFromHead(cfg, st, ops);
      PlainRunFromHead(cfg, m, ops);
      LastOutcome(cfg, EngineStep(cfg, st, ops[0]), PlainStep(cfg, m, ops[0]), ops[1..], op);
    }
  }

  /** A key that the engine has lost while it is live is granted a second time. */
  lemma LostKeyShows(cfg: Config, universe: set<Key>, ops: seq<Request>, key: Key, nowSecs: nat)
    requires KeysOver(ops, universe) && key in universe
    requires Find(cfg, EngineRun(cfg, Empty(), ops).shards, key) == None
    requires var found := Lookup(PlainRun(cfg, map[], ops), key); found.Some? && Fresh(cfg, found.value, nowSecs)
    ensures !Refines(cfg, universe)
  {
    var op := Check(key, nowSecs, HlcTimestamp(0, 0));
    LastOutcome(cfg, Empty(), map[], ops, op);
    assert KeysOver(ops + [op], universe);
    assert EngineOutcomes(cfg, Empty(), ops + [op]) != PlainOutcomes(cfg, map[], ops + [op]);
  }

  lemma {:induction false} CachedIsCounted(shards: Shards, n: nat, i: nat, key: Key)
    requires i < n <= |shards| && key in Contents(shards[i])
    ensures key in KeysUpTo(shards, n)
  {
    if i < n - 1 { CachedIsCounted(shards, n - 1, i, key); }
  }

  lemma SomeKeyIsMissing(cfg: Config, st: Store, universe: set<Key>) returns (key: Key)
    requires WellPlaced(cfg, st.shards) && Total(st.shards) < |universe|
    ensures key in universe && Find(cfg, st.shards, key) == None
  {
    var cached := KeysUpTo(st.shards, NUM_MEMORY_SHARDS);
    TotalCountsKeys(cfg, st.shards, NUM_MEMORY_SHARDS);
    assert st.shards[..NUM_MEMORY_SHARDS] == st.shards;
    if universe <= cached { SubsetSize(universe, cached); }
    key :| key in universe && key !in cached;
    if Find(cfg, st.shards, key).Some? { CachedIsCounted(st.shards, NUM_MEMORY_SHARDS, cfg.shardOf(key), key); }
  }

  // ---------------------------------------------------------------- filling the engine

  /** Checks of keys that are all different. */
  ghost predicate FirstChecks(ops: seq<Request>) {
    && (forall i :: 0 <= i < |ops| ==> ops[i].Check?)
    && (forall i, j :: 0 <= i < j < |ops| ==> ops[i].key != ops[j].key)
  }

  lemma {:induction false} PlainFill(cfg: Config, ops: seq<Request>)
    requires FirstChecks(ops)
    ensures var m := PlainRun(cfg, map[], ops);
            && (forall i :: 0 <= i < |ops| ==> Lookup(m, ops[i].key) == Some(InProgress(ops[i].hlc, ops[i].nowSecs)))
            && (forall key :: key in m ==> exists i :: 0 <= i < |ops| && ops[i].key == key)
  {
    if ops != [] {
      var init := ops[..|ops| - 1];
      PlainFill(cfg, init);
      assert forall i :: 0 <= i < |init| ==> init[i] == ops[i];
      assert ops[|ops| - 1].key !in PlainRun(cfg, map[], init);
    }
  }

  lemma FillStep(cfg: Config, st: Store, m: PlainMap, op: Request)
    requires Coherent(cfg, st) && Agrees(cfg, st, m) && st.len < cfg.maxCapacity && op.Check? && op.key !in m
    ensures var st' := EngineStep(cfg, st, op);
            Coherent(cfg, st') && st'.len == st.len + 1 && Agrees(cfg, st', PlainStep(cfg, m, op))
  {
    assert Find(cfg, st.shards, op.key) == Lookup(m, op.key);
    TouchedKeeps(cfg, st, op.key);
    var touched := Touched(cfg, st, op.key);
    assert forall k :: Find(cfg, touched.shards, k) == Find(cfg, st.shards, k);
    ShardWithinTotal(touched.shards, cfg.shardOf(op.key));
    InsertAgrees(cfg, touched, m, op.key, InProgress(op.hlc, op.nowSecs));
  }

  /** Up to the capacity the engine keeps them all. */
  lemma {:induction false} EngineFill(cfg: Config, ops: seq<Request>)
    requires FirstChecks(ops) && |ops| <= cfg.maxCapacity
    ensures var st := EngineRun(cfg, Empty(), ops);
            Coherent(cfg, st) && st.len == |ops| && Agrees(cfg, st, PlainRun(cfg, map[], ops))
  {
    if ops == [] {
      EmptyTotal(NUM_MEMORY_SHARDS);
    } else {
      var init, op := ops[..|ops| - 1], ops[|ops| - 1];
      EngineFill(cfg, init);
      PlainFill(cfg, init);
      assert forall i :: 0 <= i < |init| ==> init[i] == ops[i];
      FillStep(cfg, EngineRun(cfg, Empty(), init), PlainRun(cfg, map[], init), op);
    }
  }

  lemma {:induction false} Listed(keys: set<Key>) returns (list: seq<Key>)
    ensures |list| == |keys| && (forall i :: 0 <= i < |list| ==> list[i] in keys)
    ensures forall i, j :: 0 <= i < j < |list| ==> list[i] != list[j]
    ensures forall key :: key in keys ==> key in list
  {
    list := [];
    if keys != {} {
      var key :| key in keys;
      var rest := Listed(keys - {key});
      list := [key] + rest;
    }
  }

  /** One check of each key: of `first` at time zero, of the others at `later`. */
  function Checks(keys: seq<Key>, first: Key, later: nat): seq<Request> {
    seq(|keys|, i requires 0 <= i < |keys| => Check(keys[i], if keys[i] == first then 0 else later, HlcTimestamp(0, 0)))
  }

  /** More keys than the engine can ever hold. */
  lemma TooManyKeys(cfg: Config, universe: set<Key>)
    requires |universe| > cfg.ShardCapacity()
    ensures !Refines(cfg, universe)
  {
    var list := Listed(universe);
    var ops := Checks(list, "", 0);
    PlainFill(cfg, ops);
    CapacityHolds(cfg, ops);
    var st := EngineRun(cfg, Empty(), ops);
    var key := SomeKeyIsMissing(cfg, st, universe);
    var i :| 0 <= i < |list| && list[i] == key;
    assert ops[i].key == key;
    LostKeyShows(cfg, universe, ops, key, 0);
  }

  /** In a full engine the renewal of an expired key evicts another key of its shard. */
  lemma RenewalEvicts(cfg: Config, st: Store, key: Key, other: Key, nowSecs: nat, hlc: HlcTimestamp)
    requires Coherent(cfg, st) && st.len == cfg.maxCapacity
    requires key != other && cfg.shardOf(key) == cfg.shardOf(other) && Find(cfg, st.shards, other).Some?
    requires Find(cfg, st.shards, key).Some? && Answer(cfg, Find(cfg, st.shards, key), nowSecs).New?
    ensures var st' := EngineStep(cfg, st, Check(key, nowSecs, hlc));
            Coherent(cfg, st') && st'.len == st.len - 1 && Find(cfg, st'.shards, key).Some?
  {
    var own := cfg.shardOf(key);
    var c := st.shards[own];
    TouchedKeeps(cfg, st, key);
    var touched := Touched(cfg, st, key);
    ShardWithinTotal(touched.shards, own);
    MadeRoomKeeps(cfg, touched, own);
    var room := MadeRoom(cfg, touched, own);
    InsertedKeeps(cfg, room, key, InProgress(hlc, nowSecs));
    OldestIsAnother(c, key, other);
    PopOldestContents(Promoted(c, key));
    assert key in Contents(room.shards[own]);
  }

  lemma OldestIsAnother(c: Cache<Key, Record>, key: Key, other: Key)
    requires Distinct(c) && key in Contents(c) && other in Contents(c) && key != other
    ensures Promoted(c, key) != [] && Promoted(c, key)[0].0 != key
    ensures Distinct(Promoted(c, key)) && Contents(Promoted(c, key)) == Contents(c)
  {
    PromotedContents(c, key);
    WithoutContents(c, key);
    var rest := Without(c, key);
    assert other in Contents(rest);
    assert rest[0].0 in Contents(rest);
  }

  /** A full engine in which `first` has just expired and every other key has just been granted. */
  lemma FillUp(cfg: Config, universe: set<Key>, first: Key) returns (ops: seq<Request>)
    requires |universe| == cfg.maxCapacity && first in universe
    ensures KeysOver(ops, universe)
    ensures var st, m := EngineRun(cfg, Empty(), ops), PlainRun(cfg, map[], ops);
            && Coherent(cfg, st) && st.len == cfg.maxCapacity && Agrees(cfg, st, m)
            && forall key :: key in universe ==> Lookup(m, key) == Some(InProgress(HlcTimestamp(0, 0), if key == first then 0 else cfg.Ttl()))
  {
    var list := Listed(universe);
    ops := Checks(list, first, cfg.Ttl());
    PlainFill(cfg, ops);
    EngineFill(cfg, ops);
    forall key | key in universe
      ensures Lookup(PlainRun(cfg, map[], ops), key) == Some(InProgress(HlcTimestamp(0, 0), if key == first then 0 else cfg.Ttl()))
    {
      var i :| 0 <= i < |list| && list[i] == key;
      assert ops[i].key == key;
    }
  }

  /** As many keys as the capacity, two of them in one shard. */
  lemma FullWithNeighbours(cfg: Config, universe: set<Key>, a: Key, b: Key)
    requires |universe| == cfg.maxCapacity && a in universe && b in universe && a != b && cfg.shardOf(a) == cfg.shardOf(b)
    ensures !Refines(cfg, universe)
  {
    var fill := FillUp(cfg, universe, a);
    var st, m := EngineRun(cfg, Empty(), fill), PlainRun(cfg, map[], fill);
    assert Find(cfg, st.shards, a) == Lookup(m, a) && Find(cfg, st.shards, b) == Lookup(m, b);
    var renewal := Check(a, cfg.Ttl(), HlcTimestamp(0, 0));
    RenewalEvicts(cfg, st, a, b, cfg.Ttl(), HlcTimestamp(0, 0));
    var ops := fill + [renewal];
    assert ops[..|fill|] == fill;
    var key := SomeKeyIsMissing(cfg, EngineStep(cfg, st, renewal), universe);
    RenewedIsLive(cfg, m, a, key);
    LostKeyShows(cfg, universe, ops, key, cfg.Ttl());
  }

  lemma RenewedIsLive(cfg: Config, m: PlainMap, a: Key, key: Key)
    requires Lookup(m, a) == Some(InProgress(HlcTimestamp(0, 0), 0))
    requires key != a ==> Lookup(m, key) == Some(InProgress(HlcTimestamp(0, 0), cfg.Ttl()))
    ensures var after := PlainStep(cfg, m, Check(a, cfg.Ttl(), HlcTimestamp(0, 0)));
            Lookup(after, key) == Some(InProgress(HlcTimestamp(0, 0), cfg.Ttl()))
  {}

  // ---------------------------------------------------------------- the boundary

  /** Sharding, recency order and the counter are invisible on a set of keys if and only if the keys are
      fewer than the capacity, or no more than it (or than one, when it is zero) and one to a shard. */
  lemma RefinesIff(cfg: Config, universe: set<Key>)
    ensures Refines(cfg, universe) <==>
              || |universe| < cfg.maxCapacity
              || (|universe| <= (if cfg.maxCapacity == 0 then 1 else cfg.maxCapacity) && Separate(cfg, universe))
  {
    if |universe| < cfg.maxCapacity {
      forall ops: seq<Request> | KeysOver(ops, universe)
        ensures EngineOutcomes(cfg, Empty(), ops) == PlainOutcomes(cfg, map[], ops)
      {
        RefinesPlainMap(cfg, ops, universe);
      }
    } else if |universe| > cfg.ShardCapacity() {
      TooManyKeys(cfg, universe);
    } else if Separate(cfg, universe) {
      forall ops: seq<Request> | KeysOver(ops, universe)
        ensures EngineOutcomes(cfg, Empty(), ops) == PlainOutcomes(cfg, map[], ops)
      {
        EmptyTotal(NUM_MEMORY_SHARDS);
        RunAloneAgrees(cfg, Empty(), map[], ops, universe);
      }
    } else {
      var a, b :| a in universe && b in universe && a != b && cfg.shardOf(a) == cfg.shardOf(b);
      SubsetSize({a, b}, universe);
      FullWithNeighbours(cfg, universe, a, b);
    }
  }
}
