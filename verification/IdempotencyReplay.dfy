/** What a client is told about a key after it was granted or completed (src/idempotency/mod.rs:132-197,
    298-345), in seconds: one call after another, and under every interleaving. */
module IdempotencyReplay {
  import opened Timestamps
  import opened Lru
  import opened Wrappers
  import opened Idempotency
  import opened IdempotencyRefinement
  import opened IdempotencyLocks
  import opened IdempotencyExclusion

  // ---------------------------------------------------------------- one call after another

  lemma PutKeepsOrDrops(c: Cache<Key, Record>, k: Key, r: Record, capacity: nat, key: Key)
    requires Distinct(c) && 1 <= capacity && key != k
    ensures var after := Contents(Put(c, k, r, capacity));
            key in after ==> key in Contents(c) && after[key] == Contents(c)[key]
  {
    PutContents(c, k, r, capacity);
  }

  lemma InsertKeepsOrDrops(cfg: Config, st: Store, k: Key, r: Record, key: Key)
    requires Sound(cfg, st) && key != k
    ensures Find(cfg, Inserted(cfg, st, k, r).shards, key).Some? ==>
              Find(cfg, Inserted(cfg, st, k, r).shards, key) == Find(cfg, st.shards, key)
  {
    PutKeepsOrDrops(st.shards[cfg.shardOf(k)], k, r, cfg.ShardCapacity(), key);
  }

  lemma RoomKeepsOrDrops(cfg: Config, st: Store, own: nat, key: Key)
    requires Sound(cfg, st) && own < NUM_MEMORY_SHARDS
    ensures Find(cfg, MadeRoom(cfg, st, own).shards, key).Some? ==>
              Find(cfg, MadeRoom(cfg, st, own).shards, key) == Find(cfg, st.shards, key)
  {
    var v := Victim(st.shards, own);
    if v.Some? { PopOldestContents(st.shards[v.value]); }
  }

  lemma CheckKeepsOrDrops(cfg: Config, st: Store, k: Key, nowSecs: nat, hlc: HlcTimestamp, key: Key)
    requires Sound(cfg, st) && key != k
    ensures var st' := AfterCheck(cfg, st, k, nowSecs, hlc);
            Find(cfg, st'.shards, key).Some? ==> Find(cfg, st'.shards, key) == Find(cfg, st.shards, key)
  {
    TouchedKeeps(cfg, st, k);
    var touched := Touched(cfg, st, k);
    MadeRoomKeeps(cfg, touched, cfg.shardOf(k));
    RoomKeepsOrDrops(cfg, touched, cfg.shardOf(k), key);
    InsertKeepsOrDrops(cfg, MadeRoom(cfg, touched, cfg.shardOf(k)), k, InProgress(hlc, nowSecs), key);
  }

  lemma StepSound(cfg: Config, st: Store, op: Request)
    requires Sound(cfg, st)
    ensures Sound(cfg, EngineStep(cfg, st, op))
  {
    match op
    case Check(key, nowSecs, hlc) => CheckKeeps(cfg, st, key, nowSecs, hlc);
    case Complete(key, nowSecs, hlc, response) => InsertedKeeps(cfg, st, key, Completed(hlc, response, nowSecs));
    case Remove(key) => RemovedKeeps(cfg, st, key);
  }

  lemma {:induction false} RunSound(cfg: Config, ops: seq<Request>)
    ensures Sound(cfg, EngineRun(cfg, Empty(), ops))
  {
    if ops == [] {
      EmptyTotal(NUM_MEMORY_SHARDS);
    } else {
      RunSound(cfg, ops[..|ops| - 1]);
      StepSound(cfg, EngineRun(cfg, Empty(), ops[..|ops| - 1]), ops[|ops| - 1]);
    }
  }

  /** The second in which a record made at `madeAt` is no longer alive. */
  function EndOf(cfg: Config, madeAt: nat): nat { madeAt + if cfg.ttlSecs == 0 then 1 else cfg.ttlSecs }

  /** The call does not settle the key, and if it checks it, it does so in time. */
  predicate LeavesAlone(cfg: Config, op: Request, key: Key, madeAt: nat) {
    op.key == key ==> op.Check? && op.nowSecs < EndOf(cfg, madeAt)
  }

  lemma StepLeavesAlone(cfg: Config, st: Store, op: Request, key: Key, r: Record)
    requires Sound(cfg, st) && Find(cfg, st.shards, key) == Some(r)
    requires LeavesAlone(cfg, op, key, MadeAt(r))
    requires Find(cfg, EngineStep(cfg, st, op).shards, key).Some?
    ensures Find(cfg, EngineStep(cfg, st, op).shards, key) == Some(r)
  {
    if op.key == key {
      AnswerInNumbers(cfg, Some(r), op.nowSecs);
      AnsweredChangesNoRecord(cfg, st, key, op.nowSecs, op.hlc);
    } else {
      match op
      case Check(k, nowSecs, hlc) => CheckKeepsOrDrops(cfg, st, k, nowSecs, hlc, key);
      case Complete(k, nowSecs, hlc, response) => InsertKeepsOrDrops(cfg, st, k, Completed(hlc, response, nowSecs), key);
      case Remove(k) => RemovedKeeps(cfg, st, k);
    }
  }

  /** From the end of `before` to the end of the run the key is cached, and left alone. */
  ghost predicate CachedThroughout(cfg: Config, before: seq<Request>, between: seq<Request>, key: Key, madeAt: nat) {
    && (forall i :: 0 <= i < |between| ==> LeavesAlone(cfg, between[i], key, madeAt))
    && (forall k :: 0 <= k <= |between| ==> Find(cfg, EngineRun(cfg, Empty(), before + between[..k]).shards, key).Some?)
  }

  lemma EngineRunAppends(cfg: Config, ops: seq<Request>, op: Request)
    ensures EngineRun(cfg, Empty(), ops + [op]) == EngineStep(cfg, EngineRun(cfg, Empty(), ops), op)
  {
    assert (ops + [op])[..|ops|] == ops;
  }

  lemma CachedShorter(cfg: Config, before: seq<Request>, init: seq<Request>, op: Request, key: Key, madeAt: nat)
    requires CachedThroughout(cfg, before, init + [op], key, madeAt)
    ensures CachedThroughout(cfg, before, init, key, madeAt) && LeavesAlone(cfg, op, key, madeAt)
    ensures Find(cfg, EngineRun(cfg, Empty(), before + init + [op]).shards, key).Some?
  {
    var between := init + [op];
    assert forall i :: 0 <= i < |init| ==> between[i] == init[i];
    assert between[|init|] == op;
    assert forall k :: 0 <= k <= |init| ==> between[..k] == init[..k];
    assert between[..|between|] == between && before + between == before + init + [op];
  }

  function MadeAt(r: Record): nat { if r.InProgress? then r.startedAtSecs else r.completedAtSecs }

  lemma RunLeavesAlone(cfg: Config, ops: seq<Request>, op: Request, key: Key, r: Record)
    requires Find(cfg, EngineRun(cfg, Empty(), ops).shards, key) == Some(r) && LeavesAlone(cfg, op, key, MadeAt(r))
    requires Find(cfg, EngineRun(cfg, Empty(), ops + [op]).shards, key).Some?
    ensures Find(cfg, EngineRun(cfg, Empty(), ops + [op]).shards, key) == Some(r)
  {
    RunSound(cfg, ops);
    EngineRunAppends(cfg, ops, op);
    StepLeavesAlone(cfg, EngineRun(cfg, Empty(), ops), op, key, r);
  }

  lemma {:induction false} RecordStays(cfg: Config, before: seq<Request>, between: seq<Request>, key: Key, r: Record)
    requires Find(cfg, EngineRun(cfg, Empty(), before).shards, key) == Some(r)
    requires CachedThroughout(cfg, before, between, key, MadeAt(r))
    ensures Find(cfg, EngineRun(cfg, Empty(), before + between).shards, key) == Some(r)
  {
    if between == [] {
      assert before + between == before;
    } else {
      var init, op := between[..|between| - 1], between[|between| - 1];
      assert between == init + [op];
      assert before + between == before + init + [op];
      CachedShorter(cfg, before, init, op, key, MadeAt(r));
      RecordStays(cfg, before, init, key, r);
      RunLeavesAlone(cfg, before + init, op, key, r);
    }
  }

  lemma MadeIsFound(cfg: Config, ops: seq<Request>, op: Request)
    requires op.Complete? || (op.Check? && EngineOutcome(cfg, EngineRun(cfg, Empty(), ops), op) == Some(New))
    ensures Find(cfg, EngineRun(cfg, Empty(), ops + [op]).shards, op.key) ==
              Some(if op.Complete? then Completed(op.hlc, op.response, op.nowSecs) else InProgress(op.hlc, op.nowSecs))
  {
    var st := EngineRun(cfg, Empty(), ops);
    EngineRunAppends(cfg, ops, op);
    RunSound(cfg, ops);
    if op.Complete? {
      InsertedKeeps(cfg, st, op.key, Completed(op.hlc, op.response, op.nowSecs));
    } else {
      TouchedKeeps(cfg, st, op.key);
      MadeRoomKeeps(cfg, Touched(cfg, st, op.key), cfg.shardOf(op.key));
      InsertedKeeps(cfg, MadeRoom(cfg, Touched(cfg, st, op.key), cfg.shardOf(op.key)), op.key, InProgress(op.hlc, op.nowSecs));
    }
  }

  /** A completed key, while it stays cached, is replayed as it was completed if and only if it is asked
      for before the TTL (or one second, if that is zero) has passed; after that it is granted anew. */
  lemma CompletedIsReplayedIff(
      cfg: Config, before: seq<Request>, key: Key, madeAt: nat, hlc: HlcTimestamp, response: Response, between: seq<Request>, nowSecs: nat, asker: HlcTimestamp)
    requires CachedThroughout(cfg, before + [Complete(key, madeAt, hlc, response)], between, key, madeAt)
    ensures var st := EngineRun(cfg, Empty(), before + [Complete(key, madeAt, hlc, response)] + between);
            EngineOutcome(cfg, st, Check(key, nowSecs, asker)) ==
              Some(if nowSecs < madeAt + (if cfg.ttlSecs == 0 then 1 else cfg.ttlSecs) then Replay(hlc, response) else New)
  {
    MadeIsFound(cfg, before, Complete(key, madeAt, hlc, response));
    RecordStays(cfg, before + [Complete(key, madeAt, hlc, response)], between, key, Completed(hlc, response, madeAt));
    AnswerInNumbers(cfg, Some(Completed(hlc, response, madeAt)), nowSecs);
  }

  /** A granted key, while it stays cached and unsettled, is refused to others with the holder's timestamp
      if and only if it is asked for in that time. */
  lemma GrantedIsRefusedIff(
      cfg: Config, before: seq<Request>, key: Key, madeAt: nat, hlc: HlcTimestamp, between: seq<Request>, nowSecs: nat, asker: HlcTimestamp)
    requires EngineOutcome(cfg, EngineRun(cfg, Empty(), before), Check(key, madeAt, hlc)) == Some(New)
    requires CachedThroughout(cfg, before + [Check(key, madeAt, hlc)], between, key, madeAt)
    ensures var st := EngineRun(cfg, Empty(), before + [Check(key, madeAt, hlc)] + between);
            EngineOutcome(cfg, st, Check(key, nowSecs, asker)) ==
              Some(if nowSecs < madeAt + (if cfg.ttlSecs == 0 then 1 else cfg.ttlSecs) then Conflict(hlc) else New)
  {
    MadeIsFound(cfg, before, Check(key, madeAt, hlc));
    RecordStays(cfg, before + [Check(key, madeAt, hlc)], between, key, InProgress(hlc, madeAt));
    AnswerInNumbers(cfg, Some(InProgress(hlc, madeAt)), nowSecs);
  }

  // ---------------------------------------------------------------- every interleaving

  /** The record that the log leaves a key with: nothing where it was never granted or completed, or lost
      or removed since; else what the latest grant or completion made. */
  ghost predicate RecordOf(change: Option<Happening>, found: Option<Record>) {
    match change
    case Some(Acquired(_, _, _)) => found.Some? && found.value.InProgress?
    case Some(Finished(_, _, hlc, response, _)) => found.Some? && found.value.Completed? && found.value.hlc == hlc && found.value.response == response
    case _ => found == None
  }

  lemma {:induction false} ChangeAppends(log: seq<Happening>, news: seq<Happening>, key: Key)
    ensures LastChange(log + news, key) == if LastChange(news, key).Some? then LastChange(news, key) else LastChange(log, key)
  {
    if news == [] {
      assert log + news == log;
    } else {
      assert (log + news)[..|log + news| - 1] == log + news[..|news| - 1];
      ChangeAppends(log, news[..|news| - 1], key);
    }
  }

  lemma {:induction false} RecordFollowsLog(cfg: Config, events: seq<Event>, key: Key)
    ensures var s := Run(cfg, events); RecordOf(LastChange(s.log, key), Find(cfg, s.shards, key))
  {
    if events != [] {
      var before, e := Run(cfg, events[..|events| - 1]), events[|events| - 1];
      RecordFollowsLog(cfg, events[..|events| - 1], key);
      AlwaysStructured(cfg, events[..|events| - 1]);
      if EffectOf(cfg, before, e).Some? {
        StepExplained(cfg, before, e, key);
        LastChangeIsLogged(EffectOf(cfg, before, e).value.news, key);
        ChangeAppends(before.log, EffectOf(cfg, before, e).value.news, key);
      }
    }
  }

  /** What the record found makes of a check at `nowSecs`: a replay, a refusal, or nothing yet, so that the
      thread goes on towards a grant. */
  function AnsweredAt(cfg: Config, found: Option<Record>, t: nat, key: Key, nowSecs: nat): seq<Happening> {
    match found
    case Some(InProgress(_, startedAtSecs)) => if nowSecs < EndOf(cfg, startedAtSecs) then [Refused(t, key)] else []
    case Some(Completed(hlc, response, completedAtSecs)) =>
      if nowSecs < EndOf(cfg, completedAtSecs) then [Replayed(t, key, hlc, response)] else []
    case None => []
  }

  /** In every interleaving a check that gets its shard's lock is answered by the latest grant or
      completion of its key: replayed, refused, or let on to be granted, by the age of the record. */
  lemma InterleavedAnswers(cfg: Config, events: seq<Event>, t: nat, key: Key, nowSecs: nat, hlc: HlcTimestamp)
    requires var s := Run(cfg, events); t !in s.pcs && s.locks[cfg.shardOf(key)].None?
    ensures var s, s' := Run(cfg, events), Run(cfg, events + [Start(t, Check(key, nowSecs, hlc))]);
            var answer := AnsweredAt(cfg, Find(cfg, s.shards, key), t, key, nowSecs);
            && RecordOf(LastChange(s.log, key), Find(cfg, s.shards, key))
            && s'.log == s.log + answer && (t in s'.pcs <==> answer == [])
  {
    var s, e := Run(cfg, events), Start(t, Check(key, nowSecs, hlc));
    RecordFollowsLog(cfg, events, key);
    assert (events + [e])[..|events|] == events;
    AnswerInNumbers(cfg, Find(cfg, s.shards, key), nowSecs);
  }
}
