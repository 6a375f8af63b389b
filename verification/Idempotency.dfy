/** The in-memory idempotency engine (src/idempotency/mod.rs): 32 shards, each a bounded LRU cache
    behind its own lock, and one counter of records that the capacity check reads. */
module Idempotency {
  import opened Timestamps
  import opened Lru
  import opened Wrappers

  const NUM_MEMORY_SHARDS: nat := 32

  type Key = string
  type ShardIndex = i: nat | i < 32

  datatype Response = Response(statusCode: nat, headers: seq<(string, string)>, body: string)

  datatype Record =
    | InProgress(hlc: HlcTimestamp, startedAtSecs: nat)
    | Completed(hlc: HlcTimestamp, response: Response, completedAtSecs: nat)

  datatype Outcome =
    | New
    | Conflict(hlc: HlcTimestamp)
    | Replay(hlc: HlcTimestamp, response: Response)

  /** A call on the engine, with the clock reading it takes. */
  datatype Request =
    | Check(key: Key, nowSecs: nat, hlc: HlcTimestamp)
    | Complete(key: Key, nowSecs: nat, hlc: HlcTimestamp, response: Response)
    | Remove(key: Key)

  /** `shardOf` stands for the hash of the key modulo the number of shards. */
  datatype Config = Config(ttlSecs: nat, maxCapacity: nat, shardOf: Key -> ShardIndex) {
    function Ttl(): nat { if ttlSecs < 1 then 1 else ttlSecs }
    function ShardCapacity(): nat { if maxCapacity < 1 then 1 else maxCapacity }
  }

  type Shards = seq<Cache<Key, Record>>

  datatype Store = Store(shards: Shards, len: int)

  function Stamp(r: Record): nat {
    if r.InProgress? then r.startedAtSecs else r.completedAtSecs
  }

  /** `now.saturating_sub(stamp) < ttl`: a clock that went backward keeps the record alive. */
  predicate Fresh(cfg: Config, r: Record, nowSecs: nat) {
    (if nowSecs < Stamp(r) then 0 else nowSecs - Stamp(r)) < cfg.Ttl()
  }

  /** What a request for the key is told when `found` is its record. */
  function Answer(cfg: Config, found: Option<Record>, nowSecs: nat): Outcome {
    match found
    case None => New
    case Some(r) =>
      if !Fresh(cfg, r, nowSecs) then New
      else if r.InProgress? then Conflict(r.hlc)
      else Replay(r.hlc, r.response)
  }

  /** The answers in numbers: a record is alive for the TTL, or for one second if that is zero, from the
      second it was made in; a clock that has gone back keeps it alive. An operation in progress is a
      conflict with the holder's timestamp, a completed one is replayed as it was stored. */
  lemma AnswerInNumbers(cfg: Config, found: Option<Record>, nowSecs: nat)
    ensures Answer(cfg, found, nowSecs) ==
              match found
              case Some(InProgress(hlc, startedAtSecs)) =>
                if nowSecs < startedAtSecs + (if cfg.ttlSecs == 0 then 1 else cfg.ttlSecs) then Conflict(hlc) else New
              case Some(Completed(hlc, response, completedAtSecs)) =>
                if nowSecs < completedAtSecs + (if cfg.ttlSecs == 0 then 1 else cfg.ttlSecs) then Replay(hlc, response) else New
              case None => New
  {}

  function Find(cfg: Config, shards: Shards, key: Key): Option<Record>
    requires |shards| == NUM_MEMORY_SHARDS
  {
    var c := Contents(shards[cfg.shardOf(key)]);
    if key in c then Some(c[key]) else None
  }

  function Total(shards: Shards): nat {
    if shards == [] then 0 else |shards[0]| + Total(shards[1..])
  }

  // ---------------------------------------------------------------- the operations on stores

  function FirstNonEmpty(shards: Shards, from: nat): Option<nat>
    decreases |shards| - from
  {
    if from >= |shards| then None
    else if shards[from] != [] then Some(from)
    else FirstNonEmpty(shards, from + 1)
  }

  /** The shard that gives up its oldest entry: the key's own one if it has any. */
  function Victim(shards: Shards, own: nat): (v: Option<nat>)
    requires own < |shards|
    ensures v.Some? ==> v.value < |shards| && shards[v.value] != []
    ensures v.None? ==> Total(shards) == 0
    ensures shards[own] != [] ==> v == Some(own)
    ensures v.Some? && v.value != own ==> forall i :: 0 <= i < v.value ==> shards[i] == []
  {
    FirstNonEmptyFinds(shards, 0);
    if shards[own] != [] then Some(own) else FirstNonEmpty(shards, 0)
  }

  lemma {:induction false} FirstNonEmptyFinds(shards: Shards, from: nat)
    requires from <= |shards|
    ensures var v := FirstNonEmpty(shards, from);
            && (v.Some? ==> from <= v.value < |shards| && shards[v.value] != [] && forall i :: from <= i < v.value ==> shards[i] == [])
            && (v.None? ==> Total(shards[from..]) == 0 && forall i :: from <= i < |shards| ==> shards[i] == [])
    decreases |shards| - from
  {
    if from < |shards| {
      FirstNonEmptyFinds(shards, from + 1);
      assert shards[from..][1..] == shards[from + 1..];
    }
    assert shards[0..] == shards;
  }

  function MadeRoom(cfg: Config, st: Store, own: nat): Store
    requires own < |st.shards|
  {
    if st.len < cfg.maxCapacity then st
    else
      match Victim(st.shards, own)
      case None => st
      case Some(v) => Store(st.shards[v := st.shards[v][1..]], st.len - 1)
  }

  function Inserted(cfg: Config, st: Store, key: Key, r: Record): Store
    requires |st.shards| == NUM_MEMORY_SHARDS
  {
    var own := cfg.shardOf(key);
    Store(st.shards[own := Put(st.shards[own], key, r, cfg.ShardCapacity())],
          if key in Contents(st.shards[own]) then st.len else st.len + 1)
  }

  function Touched(cfg: Config, st: Store, key: Key): Store
    requires |st.shards| == NUM_MEMORY_SHARDS
  {
    var own := cfg.shardOf(key);
    st.(shards := st.shards[own := Promoted(st.shards[own], key)])
  }

  function AfterCheck(cfg: Config, st: Store, key: Key, nowSecs: nat, hlc: HlcTimestamp): Store
    requires |st.shards| == NUM_MEMORY_SHARDS
  {
    var touched := Touched(cfg, st, key);
    if Answer(cfg, Find(cfg, st.shards, key), nowSecs).New? then
      Inserted(cfg, MadeRoom(cfg, touched, cfg.shardOf(key)), key, InProgress(hlc, nowSecs))
    else touched
  }

  function AfterRemove(cfg: Config, st: Store, key: Key): Store
    requires |st.shards| == NUM_MEMORY_SHARDS
  {
    var own := cfg.shardOf(key);
    if key in Contents(st.shards[own]) then Store(st.shards[own := Without(st.shards[own], key)], st.len - 1) else st
  }

  // ---------------------------------------------------------------- what every store satisfies

  /** Entries are distinct, in the shard of their key, and within each shard's capacity. */
  ghost predicate WellPlaced(cfg: Config, shards: Shards) {
    && |shards| == NUM_MEMORY_SHARDS
    && (forall i :: 0 <= i < |shards| ==> Distinct(shards[i]) && |shards[i]| <= cfg.ShardCapacity())
    && (forall i, key :: 0 <= i < |shards| && key in Contents(shards[i]) ==> cfg.shardOf(key) == i)
  }

  ghost predicate Sound(cfg: Config, st: Store) {
    WellPlaced(cfg, st.shards) && Total(st.shards) <= st.len
  }

  /** The counter is exact. */
  ghost predicate Coherent(cfg: Config, st: Store) {
    WellPlaced(cfg, st.shards) && Total(st.shards) == st.len
  }

  lemma {:induction false} TotalUpdate(shards: Shards, i: nat, c: Cache<Key, Record>)
    requires i < |shards|
    ensures Total(shards[i := c]) == Total(shards) - |shards[i]| + |c|
  {
    if i > 0 {
      assert shards[i := c][1..] == shards[1..][i - 1 := c];
      TotalUpdate(shards[1..], i - 1, c);
    } else {
      assert shards[i := c][1..] == shards[1..];
    }
  }

  lemma {:induction false} TotalAppend(shards: Shards, c: Cache<Key, Record>)
    ensures Total(shards + [c]) == Total(shards) + |c|
  {
    if shards == [] {
      var one: Shards := [c];
      assert one[1..] == [] && shards + [c] == one;
    } else {
      assert (shards + [c])[1..] == shards[1..] + [c];
      TotalAppend(shards[1..], c);
    }
  }

  lemma {:induction false} ShardWithinTotal(shards: Shards, i: nat)
    requires i < |shards|
    ensures |shards[i]| <= Total(shards)
  {
    if i > 0 { ShardWithinTotal(shards[1..], i - 1); }
  }

  lemma TouchedKeeps(cfg: Config, st: Store, key: Key)
    requires WellPlaced(cfg, st.shards)
    ensures var st' := Touched(cfg, st, key);
            && WellPlaced(cfg, st'.shards) && st'.len == st.len && Total(st'.shards) == Total(st.shards)
            && (forall i :: 0 <= i < NUM_MEMORY_SHARDS ==>
                  Contents(st'.shards[i]) == Contents(st.shards[i]) && |st'.shards[i]| == |st.shards[i]|)
  {
    var own := cfg.shardOf(key);
    PromotedContents(st.shards[own], key);
    TotalUpdate(st.shards, own, Promoted(st.shards[own], key));
  }

  lemma MadeRoomKeeps(cfg: Config, st: Store, own: nat)
    requires Sound(cfg, st) && own < NUM_MEMORY_SHARDS
    ensures var st' := MadeRoom(cfg, st, own);
            && Sound(cfg, st') && st'.len - Total(st'.shards) == st.len - Total(st.shards)
            && st'.len == (if st.len >= cfg.maxCapacity && Total(st.shards) > 0 then st.len - 1 else st.len)
            && |st'.shards[own]| < cfg.ShardCapacity()
  {
    ShardWithinTotal(st.shards, own);
    if st.len >= cfg.maxCapacity && Victim(st.shards, own).Some? {
      var v := Victim(st.shards, own).value;
      PopOldestContents(st.shards[v]);
      ShardWithinTotal(st.shards, v);
      TotalUpdate(st.shards, v, st.shards[v][1..]);
    }
  }

  /** The counter stays exact unless the insertion dropped an entry that nobody counted. */
  lemma InsertedKeeps(cfg: Config, st: Store, key: Key, r: Record)
    requires Sound(cfg, st)
    ensures var own, st' := cfg.shardOf(key), Inserted(cfg, st, key, r);
            var fits := key in Contents(st.shards[own]) || |st.shards[own]| < cfg.ShardCapacity();
            && Sound(cfg, st')
            && st'.len - Total(st'.shards) == st.len - Total(st.shards) + (if fits then 0 else 1)
            && Find(cfg, st'.shards, key) == Some(r)
            && (fits ==> Contents(st'.shards[own]) == Contents(st.shards[own])[key := r])
  {
    var own := cfg.shardOf(key);
    PutContents(st.shards[own], key, r, cfg.ShardCapacity());
    TotalUpdate(st.shards, own, Put(st.shards[own], key, r, cfg.ShardCapacity()));
  }

  lemma RemovedKeeps(cfg: Config, st: Store, key: Key)
    requires Sound(cfg, st)
    ensures var st' := AfterRemove(cfg, st, key);
            && Sound(cfg, st') && st'.len - Total(st'.shards) == st.len - Total(st.shards)
            && (forall k :: Find(cfg, st'.shards, k) == if k == key then None else Find(cfg, st.shards, k))
  {
    var own := cfg.shardOf(key);
    WithoutContents(st.shards[own], key);
    TotalUpdate(st.shards, own, Without(st.shards[own], key));
    ShardWithinTotal(st.shards, own);
  }

  /** A check keeps the counter as exact as it was, never fills a full shard, and with an exact counter
      keeps the number of records within the capacity, or one when the capacity is zero. */
  lemma CheckKeeps(cfg: Config, st: Store, key: Key, nowSecs: nat, hlc: HlcTimestamp)
    requires Sound(cfg, st)
    ensures var st' := AfterCheck(cfg, st, key, nowSecs, hlc);
            && Sound(cfg, st') && st'.len - Total(st'.shards) == st.len - Total(st.shards)
            && (Coherent(cfg, st) && st.len <= cfg.ShardCapacity() ==> Coherent(cfg, st') && st'.len <= cfg.ShardCapacity())
  {
    TouchedKeeps(cfg, st, key);
    var touched := Touched(cfg, st, key);
    MadeRoomKeeps(cfg, touched, cfg.shardOf(key));
    var room := MadeRoom(cfg, touched, cfg.shardOf(key));
    InsertedKeeps(cfg, room, key, InProgress(hlc, nowSecs));
  }

  /** A request that is told Conflict or Replay changes no record. */
  lemma AnsweredChangesNoRecord(cfg: Config, st: Store, key: Key, nowSecs: nat, hlc: HlcTimestamp)
    requires WellPlaced(cfg, st.shards)
    requires !Answer(cfg, Find(cfg, st.shards, key), nowSecs).New?
    ensures var st' := AfterCheck(cfg, st, key, nowSecs, hlc);
            st'.len == st.len && forall k :: Find(cfg, st'.shards, k) == Find(cfg, st.shards, k)
  {
    TouchedKeeps(cfg, st, key);
  }

  /** Completing keeps the counter exact exactly when the key is still cached or its shard has room. */
  lemma CompleteCoherentIff(cfg: Config, st: Store, key: Key, r: Record)
    requires Coherent(cfg, st)
    ensures Coherent(cfg, Inserted(cfg, st, key, r)) <==>
              Find(cfg, st.shards, key).Some? || |st.shards[cfg.shardOf(key)]| < cfg.ShardCapacity()
  {
    InsertedKeeps(cfg, st, key, r);
  }

  // ---------------------------------------------------------------- the engine object

  class IdempotencyEngine {
    const config: Config
    const shards: array<Cache<Key, Record>>
    var len: nat

    ghost predicate Valid() reads this, shards {
      shards.Length == NUM_MEMORY_SHARDS && Sound(config, State())
    }

    ghost function State(): Store reads this, shards {
      Store(shards[..], len)
    }

    constructor (config: Config)
      ensures Valid() && this.config == config && fresh(shards)
      ensures State() == Store(seq(NUM_MEMORY_SHARDS, i => []), 0)
    {
      this.config := config;
      shards := new Cache<Key, Record>[NUM_MEMORY_SHARDS](i => []);
      len := 0;
      new;
      assert shards[..] == seq(NUM_MEMORY_SHARDS, i => []);
      EmptyTotal(NUM_MEMORY_SHARDS);
    }

    /** Pops the oldest entry of the own shard, or of the first other shard that has one. */
    method MakeRoom(own: ShardIndex)
      requires Valid()
      modifies this`len, shards
      ensures Valid() && State() == MadeRoom(config, old(State()), own)
    {
      MadeRoomKeeps(config, State(), own);
      if len >= config.maxCapacity {
        ghost var before := shards[..];
        FirstNonEmptyFinds(before, 0);
        assert before[0..] == before;
        if shards[own] != [] {
          ShardWithinTotal(before, own);
          shards[own] := shards[own][1..];
          len := len - 1;
        } else {
          var i := 0;
          while i < NUM_MEMORY_SHARDS
            invariant 0 <= i <= NUM_MEMORY_SHARDS
            invariant shards[..] == before && len == old(len)
            invariant FirstNonEmpty(before, i) == FirstNonEmpty(before, 0)
          {
            if i != own && shards[i] != [] {
              ShardWithinTotal(before, i);
              shards[i] := shards[i][1..];
              len := len - 1;
              assert shards[..] == before[i := before[i][1..]];
              return;
            }
            i := i + 1;
          }
        }
      }
    }

    method CheckOrInsert(key: Key, nowSecs: nat, hlc: HlcTimestamp) returns (outcome: Outcome)
      requires Valid()
      modifies this`len, shards
      ensures Valid()
      ensures outcome == Answer(config, old(Find(config, shards[..], key)), nowSecs)
      ensures State() == AfterCheck(config, old(State()), key, nowSecs, hlc)
    {
      var own := config.shardOf(key);
      TouchedKeeps(config, State(), key);
      var cached := Contents(shards[own]);
      shards[own] := Promoted(shards[own], key);
      assert State() == Touched(config, old(State()), key);
      if key in cached {
        match cached[key]
        case InProgress(found, startedAtSecs) =>
          var elapsed := if nowSecs < startedAtSecs then 0 else nowSecs - startedAtSecs;
          if elapsed < config.Ttl() { return Conflict(found); }
        case Completed(found, response, completedAtSecs) =>
          var elapsed := if nowSecs < completedAtSecs then 0 else nowSecs - completedAtSecs;
          if elapsed < config.Ttl() { return Replay(found, response); }
      }
      MakeRoom(own);
      InsertedKeeps(config, State(), key, InProgress(hlc, nowSecs));
      var absent := key !in Contents(shards[own]);
      shards[own] := Put(shards[own], key, InProgress(hlc, nowSecs), config.ShardCapacity());
      if absent { len := len + 1; }
      outcome := New;
    }

    method Complete(key: Key, hlc: HlcTimestamp, response: Response, nowSecs: nat)
      requires Valid()
      modifies this`len, shards
      ensures Valid() && State() == Inserted(config, old(State()), key, Completed(hlc, response, nowSecs))
    {
      InsertedKeeps(config, State(), key, Completed(hlc, response, nowSecs));
      var own := config.shardOf(key);
      var absent := key !in Contents(shards[own]);
      shards[own] := Put(shards[own], key, Completed(hlc, response, nowSecs), config.ShardCapacity());
      if absent { len := len + 1; }
    }

    method Remove(key: Key)
      requires Valid()
      modifies this`len, shards
      ensures Valid() && State() == AfterRemove(config, old(State()), key)
    {
      RemovedKeeps(config, State(), key);
      var own := config.shardOf(key);
      if key in Contents(shards[own]) {
        shards[own] := Without(shards[own], key);
        len := len - 1;
      }
    }

    method ActiveRecordCount() returns (count: nat)
      requires Valid()
      ensures Coherent(config, State()) <==> count == Total(shards[..])
    {
      count := len;
    }
  }

  lemma {:induction false} EmptyTotal(n: nat)
    ensures Total(seq(n, i => [])) == 0
  {
    if n > 0 {
      var shards: Shards := seq(n, i => []);
      assert shards[1..] == seq(n - 1, i => []);
      EmptyTotal(n - 1);
    }
  }
}
