/** The engine under every interleaving of its callers (src/idempotency/mod.rs). A thread owns a shard
    only while it holds that shard's lock, and the counter is read and changed by separate atomic
    steps, so between a change of a shard and the matching change of the counter others may run. */
module IdempotencyLocks {
  import opened Timestamps
  import opened Lru
  import opened Wrappers
  import opened Idempotency

  /** Where a thread stands while it holds the lock of its key's shard. */
  datatype Pc =
    | Deciding(key: Key, nowSecs: nat, hlc: HlcTimestamp)
    | Evicted(key: Key, nowSecs: nat, hlc: HlcTimestamp)
    | Scanning(key: Key, nowSecs: nat, hlc: HlcTimestamp, next: nat)
    | EvictedOther(key: Key, nowSecs: nat, hlc: HlcTimestamp, victim: nat)
    | Inserting(key: Key, nowSecs: nat, hlc: HlcTimestamp)
    | Counting(key: Key)
    | Removing(key: Key)
  {
    predicate WillInsert() { !Counting? && !Removing? }
  }

  /** What happened, in the order in which the shards saw it. */
  datatype Happening =
    | Acquired(thread: nat, key: Key, overExpired: bool)
    | Refused(thread: nat, key: Key)
    | Replayed(thread: nat, key: Key, hlc: HlcTimestamp, response: Response)
    | Finished(thread: nat, key: Key, hlc: HlcTimestamp, response: Response, fits: bool)
    | Removed(thread: nat, key: Key)
    | Lost(key: Key)

  datatype Shared = Shared(shards: Shards, locks: seq<Option<nat>>, len: int, pcs: map<nat, Pc>, log: seq<Happening>)

  datatype Event =
    | Start(thread: nat, request: Request)
    | Advance(thread: nat)

  // ---------------------------------------------------------------- the machine

  /** The shards whose locks a thread holds. */
  function Footprint(cfg: Config, pc: Pc): set<nat> {
    if pc.EvictedOther? then {cfg.shardOf(pc.key), pc.victim} else {cfg.shardOf(pc.key)}
  }

  function Relocked(cfg: Config, locks: seq<Option<nat>>, t: nat, pc: Option<Pc>): seq<Option<nat>> {
    seq(|locks|, i requires 0 <= i < |locks| =>
      if pc.Some? && i in Footprint(cfg, pc.value) then Some(t)
      else if locks[i] == Some(t) then None else locks[i])
  }

  /** One atomic step: the thread leaves the shard as `cache`, moves to `pc`, and then holds exactly
      the locks that `pc` needs. */
  datatype Effect = Effect(thread: nat, shard: nat, cache: Cache<Key, Record>, pc: Option<Pc>, len: int, news: seq<Happening>)

  function Apply(cfg: Config, s: Shared, f: Effect): Shared
    requires f.shard < |s.shards|
  {
    Shared(s.shards[f.shard := f.cache], Relocked(cfg, s.locks, f.thread, f.pc), f.len,
           if f.pc.Some? then s.pcs[f.thread := f.pc.value] else s.pcs - {f.thread}, s.log + f.news)
  }

  predicate Shaped(s: Shared) {
    |s.shards| == NUM_MEMORY_SHARDS && |s.locks| == NUM_MEMORY_SHARDS
  }

  /** The entry that a `put` of an absent key drops from a full shard. */
  function Dropped(cfg: Config, c: Cache<Key, Record>, key: Key): seq<Happening> {
    if key !in Contents(c) && |c| >= cfg.ShardCapacity() && c != [] then [Lost(c[0].0)] else []
  }

  /** A call takes its shard's lock, or waits (no effect) while another thread has it; what it then does
      to the shard before touching the counter is one step. */
  function StartEffect(cfg: Config, s: Shared, t: nat, request: Request): (f: Option<Effect>)
    requires Shaped(s)
    ensures f.Some? ==> f.value.shard < NUM_MEMORY_SHARDS
  {
    var own := cfg.shardOf(request.key);
    var c := s.shards[own];
    var found := Find(cfg, s.shards, request.key);
    if t in s.pcs || s.locks[own].Some? then None
    else
      match request
      case Check(key, nowSecs, hlc) =>
        (match Answer(cfg, found, nowSecs)
         case Conflict(_) => Some(Effect(t, own, Promoted(c, key), None, s.len, [Refused(t, key)]))
         case Replay(h, response) => Some(Effect(t, own, Promoted(c, key), None, s.len, [Replayed(t, key, h, response)]))
         case New => Some(Effect(t, own, Promoted(c, key), Some(Deciding(key, nowSecs, hlc)), s.len, [])))
      case Complete(key, nowSecs, hlc, response) =>
        Some(Effect(t, own, Put(c, key, Completed(hlc, response, nowSecs), cfg.ShardCapacity()),
                    if found.Some? then None else Some(Counting(key)), s.len,
                    Dropped(cfg, c, key) + [Finished(t, key, hlc, response, found.Some? || |c| < cfg.ShardCapacity())]))
      case Remove(key) =>
        Some(Effect(t, own, Without(c, key), if found.Some? then Some(Removing(key)) else None, s.len, [Removed(t, key)]))
  }

  function AdvanceEffect(cfg: Config, s: Shared, t: nat): (f: Option<Effect>)
    requires Shaped(s)
    ensures f.Some? ==> f.value.shard < NUM_MEMORY_SHARDS
  {
    if t !in s.pcs then None
    else
      var pc := s.pcs[t];
      var own := cfg.shardOf(pc.key);
      var c := s.shards[own];
      match pc
      case Deciding(key, nowSecs, hlc) =>
        if s.len < cfg.maxCapacity then Some(Effect(t, own, c, Some(Inserting(key, nowSecs, hlc)), s.len, []))
        else if c != [] then Some(Effect(t, own, c[1..], Some(Evicted(key, nowSecs, hlc)), s.len, [Lost(c[0].0)]))
        else Some(Effect(t, own, c, Some(Scanning(key, nowSecs, hlc, 0)), s.len, []))
      case Evicted(key, nowSecs, hlc) =>
        Some(Effect(t, own, c, Some(Inserting(key, nowSecs, hlc)), s.len - 1, []))
      case Scanning(key, nowSecs, hlc, next) =>
        if next >= NUM_MEMORY_SHARDS then Some(Effect(t, own, c, Some(Inserting(key, nowSecs, hlc)), s.len, []))
        else if next == own || s.locks[next].Some? || s.shards[next] == [] then
          Some(Effect(t, own, c, Some(Scanning(key, nowSecs, hlc, next + 1)), s.len, []))
        else
          Some(Effect(t, next, s.shards[next][1..], Some(EvictedOther(key, nowSecs, hlc, next)), s.len, [Lost(s.shards[next][0].0)]))
      case EvictedOther(key, nowSecs, hlc, victim) =>
        if victim >= NUM_MEMORY_SHARDS then None
        else Some(Effect(t, victim, s.shards[victim], Some(Inserting(key, nowSecs, hlc)), s.len - 1, []))
      case Inserting(key, nowSecs, hlc) =>
        var found := Find(cfg, s.shards, key);
        Some(Effect(t, own, Put(c, key, InProgress(hlc, nowSecs), cfg.ShardCapacity()),
                    if found.Some? then None else Some(Counting(key)), s.len,
                    Dropped(cfg, c, key) + [Acquired(t, key, found.Some? && !Fresh(cfg, found.value, nowSecs))]))
      case Counting(key) => Some(Effect(t, own, c, None, s.len + 1, []))
      case Removing(key) => Some(Effect(t, own, c, None, s.len - 1, []))
  }

  function EffectOf(cfg: Config, s: Shared, e: Event): (f: Option<Effect>)
    requires Shaped(s)
    ensures f.Some? ==> f.value.shard < NUM_MEMORY_SHARDS
  {
    match e
    case Start(t, request) => StartEffect(cfg, s, t, request)
    case Advance(t) => AdvanceEffect(cfg, s, t)
  }

  function Step(cfg: Config, s: Shared, e: Event): (s': Shared)
    requires Shaped(s)
    ensures Shaped(s')
  {
    var f := EffectOf(cfg, s, e);
    if f.Some? then Apply(cfg, s, f.value) else s
  }

  function Initial(): Shared {
    Shared(seq(NUM_MEMORY_SHARDS, i => []), seq(NUM_MEMORY_SHARDS, i => None), 0, map[], [])
  }

  function Run(cfg: Config, events: seq<Event>): (s: Shared)
    ensures Shaped(s)
  {
    if events == [] then Initial() else Step(cfg, Run(cfg, events[..|events| - 1]), events[|events| - 1])
  }

  // ---------------------------------------------------------------- locks

  ghost predicate LocksMatch(cfg: Config, s: Shared)
    requires Shaped(s)
  {
    && (forall t :: t in s.pcs ==> forall i :: i in Footprint(cfg, s.pcs[t]) ==> 0 <= i < NUM_MEMORY_SHARDS && s.locks[i] == Some(t))
    && (forall i :: 0 <= i < NUM_MEMORY_SHARDS && s.locks[i].Some? ==>
          s.locks[i].value in s.pcs && i in Footprint(cfg, s.pcs[s.locks[i].value]))
    && (forall t :: t in s.pcs && s.pcs[t].EvictedOther? ==> s.pcs[t].victim != cfg.shardOf(s.pcs[t].key))
  }

  /** A thread that will insert has seen no live record for its key, and its lock keeps it so. */
  ghost predicate InsertersSawNoLiveRecord(cfg: Config, s: Shared)
    requires Shaped(s)
  {
    forall t :: t in s.pcs && s.pcs[t].WillInsert() ==>
      var found := Find(cfg, s.shards, s.pcs[t].key);
      found.Some? ==> !Fresh(cfg, found.value, s.pcs[t].nowSecs)
  }

  ghost predicate Structured(cfg: Config, s: Shared) {
    Shaped(s) && WellPlaced(cfg, s.shards) && LocksMatch(cfg, s) && InsertersSawNoLiveRecord(cfg, s)
  }

  /** An effect is in order when the thread holds or takes free locks only, and leaves a good shard. */
  ghost predicate InOrder(cfg: Config, s: Shared, f: Effect) {
    && Structured(cfg, s) && f.shard < NUM_MEMORY_SHARDS
    && (s.locks[f.shard].None? || s.locks[f.shard] == Some(f.thread))
    && (f.pc.Some? ==>
          && (forall i :: i in Footprint(cfg, f.pc.value) ==> 0 <= i < NUM_MEMORY_SHARDS && (s.locks[i].None? || s.locks[i] == Some(f.thread)))
          && (f.pc.value.EvictedOther? ==> f.pc.value.victim != cfg.shardOf(f.pc.value.key)))
    && Distinct(f.cache) && |f.cache| <= cfg.ShardCapacity()
    && (forall key :: key in Contents(f.cache) ==> cfg.shardOf(key) == f.shard)
    && (f.pc.Some? && f.pc.value.WillInsert() ==>
          var found := Find(cfg, s.shards[f.shard := f.cache], f.pc.value.key);
          found.Some? ==> !Fresh(cfg, found.value, f.pc.value.nowSecs))
  }

  lemma ApplyPlaced(cfg: Config, s: Shared, f: Effect)
    requires InOrder(cfg, s, f)
    ensures WellPlaced(cfg, Apply(cfg, s, f).shards)
  {}

  lemma ApplyLocks(cfg: Config, s: Shared, f: Effect)
    requires InOrder(cfg, s, f)
    ensures LocksMatch(cfg, Apply(cfg, s, f))
  {
    var s' := Apply(cfg, s, f);
    forall u | u in s'.pcs
      ensures forall i :: i in Footprint(cfg, s'.pcs[u]) ==> 0 <= i < NUM_MEMORY_SHARDS && s'.locks[i] == Some(u)
      ensures s'.pcs[u].EvictedOther? ==> s'.pcs[u].victim != cfg.shardOf(s'.pcs[u].key)
    {
      if u != f.thread {
        assert s.pcs[u] == s'.pcs[u];
      }
    }
    forall i | 0 <= i < NUM_MEMORY_SHARDS && s'.locks[i].Some?
      ensures s'.locks[i].value in s'.pcs && i in Footprint(cfg, s'.pcs[s'.locks[i].value])
    {}
  }

  /** A thread other than the acting one finds its shard untouched. */
  lemma OthersKeepTheirShard(cfg: Config, s: Shared, f: Effect, u: nat)
    requires InOrder(cfg, s, f) && u in s.pcs && u != f.thread
    ensures cfg.shardOf(s.pcs[u].key) != f.shard
  {
    assert cfg.shardOf(s.pcs[u].key) in Footprint(cfg, s.pcs[u]);
  }

  lemma ApplyInserters(cfg: Config, s: Shared, f: Effect)
    requires InOrder(cfg, s, f)
    ensures InsertersSawNoLiveRecord(cfg, Apply(cfg, s, f))
  {
    var s' := Apply(cfg, s, f);
    forall u | u in s'.pcs && s'.pcs[u].WillInsert()
      ensures var found := Find(cfg, s'.shards, s'.pcs[u].key);
              found.Some? ==> !Fresh(cfg, found.value, s'.pcs[u].nowSecs)
    {
      if u != f.thread {
        assert s.pcs[u] == s'.pcs[u];
        OthersKeepTheirShard(cfg, s, f, u);
      }
    }
  }

  lemma StartInOrder(cfg: Config, s: Shared, t: nat, request: Request)
    requires Structured(cfg, s) && StartEffect(cfg, s, t, request).Some?
    ensures InOrder(cfg, s, StartEffect(cfg, s, t, request).value)
  {
    var c := s.shards[cfg.shardOf(request.key)];
    match request
    case Check(key, _, _) => PromotedContents(c, key);
    case Complete(key, nowSecs, hlc, response) => PutContents(c, key, Completed(hlc, response, nowSecs), cfg.ShardCapacity());
    case Remove(key) => WithoutContents(c, key);
  }

  lemma EvictionInOrder(cfg: Config, s: Shared, t: nat)
    requires Structured(cfg, s) && t in s.pcs && (s.pcs[t].Deciding? || s.pcs[t].Scanning?)
    ensures InOrder(cfg, s, AdvanceEffect(cfg, s, t).value)
  {
    var pc := s.pcs[t];
    var own := cfg.shardOf(pc.key);
    assert own in Footprint(cfg, pc);
    if pc.Deciding? {
      if s.shards[own] != [] { PopOldestContents(s.shards[own]); }
    } else if pc.next < NUM_MEMORY_SHARDS && s.shards[pc.next] != [] {
      PopOldestContents(s.shards[pc.next]);
    }
  }

  lemma InsertionInOrder(cfg: Config, s: Shared, t: nat)
    requires Structured(cfg, s) && t in s.pcs && s.pcs[t].Inserting?
    ensures InOrder(cfg, s, AdvanceEffect(cfg, s, t).value)
  {
    var Inserting(key, nowSecs, hlc) := s.pcs[t];
    assert cfg.shardOf(key) in Footprint(cfg, s.pcs[t]);
    PutContents(s.shards[cfg.shardOf(key)], key, InProgress(hlc, nowSecs), cfg.ShardCapacity());
  }

  lemma AdvanceInOrder(cfg: Config, s: Shared, t: nat)
    requires Structured(cfg, s) && AdvanceEffect(cfg, s, t).Some?
    ensures InOrder(cfg, s, AdvanceEffect(cfg, s, t).value)
  {
    var pc := s.pcs[t];
    if pc.Deciding? || pc.Scanning? {
      EvictionInOrder(cfg, s, t);
    } else if pc.Inserting? {
      InsertionInOrder(cfg, s, t);
    } else {
      assert cfg.shardOf(pc.key) in Footprint(cfg, pc);
    }
  }

  lemma StepStructured(cfg: Config, s: Shared, e: Event)
    requires Structured(cfg, s)
    ensures Structured(cfg, Step(cfg, s, e))
    ensures EffectOf(cfg, s, e).Some? ==> InOrder(cfg, s, EffectOf(cfg, s, e).value)
  {
    var f := EffectOf(cfg, s, e);
    if f.Some? {
      match e {
        case Start(t, request) => StartInOrder(cfg, s, t, request);
        case Advance(t) => AdvanceInOrder(cfg, s, t);
      }
      ApplyPlaced(cfg, s, f.value);
      ApplyLocks(cfg, s, f.value);
      ApplyInserters(cfg, s, f.value);
    }
  }

  /** In every reachable state a shard belongs to the thread that holds its lock, entries are where
      their keys hash to, and no insertion is under way over a live record. */
  lemma {:induction false} AlwaysStructured(cfg: Config, events: seq<Event>)
    ensures Structured(cfg, Run(cfg, events))
  {
    if events != [] {
      AlwaysStructured(cfg, events[..|events| - 1]);
      StepStructured(cfg, Run(cfg, events[..|events| - 1]), events[|events| - 1]);
    }
  }
}
