/** The engine as a lock and replay cache, under every interleaving of its callers
    (src/idempotency/mod.rs): who holds a key, how often it can be acquired, and where replays come from. */
module IdempotencyExclusion {
  import opened Timestamps
  import opened Lru
  import opened Wrappers
  import opened Idempotency
  import opened IdempotencyLocks

  /** The happenings that change the record of a key. */
  predicate Changes(h: Happening, key: Key) {
    (h.Acquired? || h.Finished? || h.Removed? || h.Lost?) && h.key == key
  }

  /** The latest of them. */
  function LastChange(log: seq<Happening>, key: Key): Option<Happening> {
    if log == [] then None
    else if Changes(log[|log| - 1], key) then Some(log[|log| - 1])
    else LastChange(log[..|log| - 1], key)
  }

  // ---------------------------------------------------------------- one step, seen from one key

  /** A step changes the record of at most one other key than its own, and logs that first. */
  predicate OneChange(news: seq<Happening>) {
    |news| <= 1 || (|news| == 2 && news[0].Lost? && !news[1].Lost? && news[0].key != news[1].key)
  }

  /** What the log says of a step is what happened to the record. */
  ghost predicate Explains(change: Option<Happening>, before: Option<Record>, after: Option<Record>) {
    match change
    case None => after == before
    case Some(h) =>
      match h
      case Acquired(_, _, overExpired) => after.Some? && after.value.InProgress? && overExpired == before.Some?
      case Finished(_, _, hlc, response, _) => after.Some? && after.value.Completed? && after.value.hlc == hlc && after.value.response == response
      case _ => after == None
  }

  /** A replay repeats the record it found. */
  ghost predicate RepeatsRecord(news: seq<Happening>, key: Key, before: Option<Record>) {
    forall i :: 0 <= i < |news| && news[i].Replayed? && news[i].key == key ==>
      before.Some? && before.value.Completed? && before.value.hlc == news[i].hlc && before.value.response == news[i].response
  }

  ghost predicate Explained(cfg: Config, s: Shared, f: Effect, key: Key)
    requires Shaped(s) && f.shard < NUM_MEMORY_SHARDS
  {
    && OneChange(f.news)
    && Explains(LastChange(f.news, key), Find(cfg, s.shards, key), Find(cfg, s.shards[f.shard := f.cache], key))
    && RepeatsRecord(f.news, key, Find(cfg, s.shards, key))
  }

  lemma CheckExplained(cfg: Config, s: Shared, t: nat, request: Request, key: Key)
    requires Structured(cfg, s) && StartEffect(cfg, s, t, request).Some? && request.Check?
    ensures Explained(cfg, s, StartEffect(cfg, s, t, request).value, key)
  {
    var f := StartEffect(cfg, s, t, request).value;
    PromotedContents(s.shards[cfg.shardOf(request.key)], request.key);
    assert |f.news| == 1 ==> f.news[..0] == [];
    assert LastChange(f.news, key) == None;
  }

  lemma CompleteExplained(cfg: Config, s: Shared, t: nat, request: Request, key: Key)
    requires Structured(cfg, s) && StartEffect(cfg, s, t, request).Some? && request.Complete?
    ensures Explained(cfg, s, StartEffect(cfg, s, t, request).value, key)
  {
    var Complete(k, nowSecs, hlc, response) := request;
    var c := s.shards[cfg.shardOf(k)];
    FoundAfterPut(cfg, s.shards, k, Completed(hlc, response, nowSecs), key);
    PutNews(cfg, c, k, Finished(t, k, hlc, response, Find(cfg, s.shards, k).Some? || |c| < cfg.ShardCapacity()), key);
  }

  lemma RemoveExplained(cfg: Config, s: Shared, t: nat, request: Request, key: Key)
    requires Structured(cfg, s) && StartEffect(cfg, s, t, request).Some? && request.Remove?
    ensures Explained(cfg, s, StartEffect(cfg, s, t, request).value, key)
  {
    WithoutContents(s.shards[cfg.shardOf(request.key)], request.key);
    var f := StartEffect(cfg, s, t, request).value;
    assert f.news[..0] == [];
    assert LastChange(f.news, key) == if request.key == key then Some(Removed(t, key)) else None;
  }

  lemma PutNews(cfg: Config, c: Cache<Key, Record>, k: Key, h: Happening, key: Key)
    requires Distinct(c) && !h.Lost? && h.key == k && Changes(h, k)
    ensures var news := Dropped(cfg, c, k) + [h];
            && OneChange(news) && news[|news| - 1] == h
            && LastChange(news, key) ==
                 (if key == k then Some(h) else if Dropped(cfg, c, k) != [] && c[0].0 == key then Some(Lost(key)) else None)
  {
    var d := Dropped(cfg, c, k);
    var news := d + [h];
    assert news[..|news| - 1] == d;
    if d != [] {
      assert c[0].0 in Contents(c);
      assert d[..|d| - 1] == [];
      assert LastChange(d, key) == if c[0].0 == key then Some(Lost(key)) else None;
    }
  }

  lemma EvictionExplained(cfg: Config, s: Shared, t: nat, key: Key)
    requires Structured(cfg, s) && t in s.pcs && (s.pcs[t].Deciding? || s.pcs[t].Scanning?)
    ensures Explained(cfg, s, AdvanceEffect(cfg, s, t).value, key)
  {
    var f := AdvanceEffect(cfg, s, t).value;
    if f.news != [] {
      PopOldestContents(s.shards[f.shard]);
      assert f.news[..|f.news| - 1] == [];
      assert LastChange(f.news, key) == if f.news[0].key == key then Some(Lost(key)) else None;
    }
  }

  /** After a `put`: the record itself, the entry dropped for it, and everything else as it was. */
  lemma FoundAfterPut(cfg: Config, shards: Shards, k: Key, r: Record, key: Key)
    requires WellPlaced(cfg, shards)
    ensures var c := shards[cfg.shardOf(k)];
            Find(cfg, shards[cfg.shardOf(k) := Put(c, k, r, cfg.ShardCapacity())], key) ==
              if key == k then Some(r)
              else if Dropped(cfg, c, k) != [] && c[0].0 == key then None
              else Find(cfg, shards, key)
  {
    var c := shards[cfg.shardOf(k)];
    PutContents(c, k, r, cfg.ShardCapacity());
    if c != [] { assert c[0].0 in Contents(c); }
  }

  lemma InsertionExplained(cfg: Config, s: Shared, t: nat, key: Key)
    requires Structured(cfg, s) && t in s.pcs && s.pcs[t].Inserting?
    ensures Explained(cfg, s, AdvanceEffect(cfg, s, t).value, key)
  {
    var Inserting(k, nowSecs, hlc) := s.pcs[t];
    var c := s.shards[cfg.shardOf(k)];
    var found := Find(cfg, s.shards, k);
    FoundAfterPut(cfg, s.shards, k, InProgress(hlc, nowSecs), key);
    PutNews(cfg, c, k, Acquired(t, k, found.Some? && !Fresh(cfg, found.value, nowSecs)), key);
  }

  lemma SilenceExplained(cfg: Config, s: Shared, f: Effect, key: Key)
    requires Shaped(s) && f.shard < NUM_MEMORY_SHARDS && f.cache == s.shards[f.shard] && f.news == []
    ensures Explained(cfg, s, f, key)
  {}

  lemma AdvanceExplained(cfg: Config, s: Shared, t: nat, key: Key)
    requires Structured(cfg, s) && AdvanceEffect(cfg, s, t).Some?
    ensures Explained(cfg, s, AdvanceEffect(cfg, s, t).value, key)
  {
    var pc := s.pcs[t];
    if pc.Inserting? {
      InsertionExplained(cfg, s, t, key);
    } else if pc.Deciding? || pc.Scanning? {
      EvictionExplained(cfg, s, t, key);
    } else {
      SilenceExplained(cfg, s, AdvanceEffect(cfg, s, t).value, key);
    }
  }

  lemma StepExplained(cfg: Config, s: Shared, e: Event, key: Key)
    requires Structured(cfg, s) && EffectOf(cfg, s, e).Some?
    ensures Explained(cfg, s, EffectOf(cfg, s, e).value, key)
  {
    match e
    case Start(t, request) =>
      if request.Check? { CheckExplained(cfg, s, t, request, key); }
      else if request.Complete? { CompleteExplained(cfg, s, t, request, key); }
      else { RemoveExplained(cfg, s, t, request, key); }
    case Advance(t) => AdvanceExplained(cfg, s, t, key);
  }

  // ---------------------------------------------------------------- counting

  datatype Kind = Acquisition | ExpiredTakeover | Removal | Loss

  predicate Is(kind: Kind, h: Happening, key: Key) {
    match kind
    case Acquisition => h.Acquired? && h.key == key
    case ExpiredTakeover => h.Acquired? && h.key == key && h.overExpired
    case Removal => h.Removed? && h.key == key
    case Loss => h.Lost? && h.key == key
  }

  function Count(log: seq<Happening>, kind: Kind, key: Key): nat {
    if log == [] then 0 else Count(log[..|log| - 1], kind, key) + (if Is(kind, log[|log| - 1], key) then 1 else 0)
  }

  lemma {:induction false} CountConcat(log: seq<Happening>, news: seq<Happening>, kind: Kind, key: Key)
    ensures Count(log + news, kind, key) == Count(log, kind, key) + Count(news, kind, key)
  {
    if news == [] {
      assert log + news == log;
    } else {
      var n := |news| - 1;
      assert (log + news)[..|log + news| - 1] == log + news[..n];
      CountConcat(log, news[..n], kind, key);
    }
  }

  lemma CountOfOneChange(news: seq<Happening>, kind: Kind, key: Key)
    requires OneChange(news)
    ensures var h := LastChange(news, key);
            Count(news, kind, key) == if h.Some? && Is(kind, h.value, key) then 1 else 0
  {
    if |news| == 2 {
      assert news[..1] == [news[0]] && news[..1][..0] == [];
    } else if |news| == 1 {
      assert news[..0] == [];
    }
  }

  function Present(cfg: Config, s: Shared, key: Key): nat
    requires Shaped(s)
  {
    if Find(cfg, s.shards, key).Some? then 1 else 0
  }

  /** Acquisitions that no removal, loss or expiry has paid for. */
  function Unpaid(log: seq<Happening>, key: Key): int {
    Count(log, Acquisition, key) - Count(log, Removal, key) - Count(log, Loss, key) - Count(log, ExpiredTakeover, key)
  }

  /** Every acquisition but at most one has been paid for by a removal, a loss or an expiry. */
  ghost predicate Budgeted(cfg: Config, s: Shared, key: Key)
    requires Shaped(s)
  {
    Unpaid(s.log, key) <= Present(cfg, s, key)
  }

  lemma CountStep(log: seq<Happening>, news: seq<Happening>, kind: Kind, key: Key)
    requires OneChange(news)
    ensures var h := LastChange(news, key);
            Count(log + news, kind, key) == Count(log, kind, key) + if h.Some? && Is(kind, h.value, key) then 1 else 0
  {
    CountConcat(log, news, kind, key);
    CountOfOneChange(news, kind, key);
  }

  lemma UnpaidStep(log: seq<Happening>, news: seq<Happening>, key: Key, before: Option<Record>, after: Option<Record>)
    requires OneChange(news) && Explains(LastChange(news, key), before, after)
    requires LastChange(news, key).Some? ==> Changes(LastChange(news, key).value, key)
    ensures Unpaid(log + news, key) - (if after.Some? then 1 else 0) <= Unpaid(log, key) - (if before.Some? then 1 else 0)
  {
    CountStep(log, news, Acquisition, key);
    CountStep(log, news, Removal, key);
    CountStep(log, news, Loss, key);
    CountStep(log, news, ExpiredTakeover, key);
  }

  lemma StepBudgeted(cfg: Config, s: Shared, e: Event, key: Key)
    requires Structured(cfg, s) && Budgeted(cfg, s, key)
    ensures Budgeted(cfg, Step(cfg, s, e), key)
  {
    if EffectOf(cfg, s, e).Some? {
      var f := EffectOf(cfg, s, e).value;
      StepExplained(cfg, s, e, key);
      LastChangeIsLogged(f.news, key);
      UnpaidStep(s.log, f.news, key, Find(cfg, s.shards, key), Find(cfg, s.shards[f.shard := f.cache], key));
    }
  }

  lemma {:induction false} AlwaysBudgeted(cfg: Config, events: seq<Event>, key: Key)
    ensures Budgeted(cfg, Run(cfg, events), key)
  {
    if events != [] {
      var before := Run(cfg, events[..|events| - 1]);
      AlwaysBudgeted(cfg, events[..|events| - 1], key);
      AlwaysStructured(cfg, events[..|events| - 1]);
      StepBudgeted(cfg, before, events[|events| - 1], key);
    }
  }

  /** In every interleaving of any number of requests a key is granted at most once more often than
      it was removed, evicted, or found expired. */
  lemma AtMostOnce(cfg: Config, events: seq<Event>, key: Key)
    ensures var log := Run(cfg, events).log;
            Count(log, Acquisition, key) <=
              1 + Count(log, Removal, key) + Count(log, Loss, key) + Count(log, ExpiredTakeover, key)
  {
    AlwaysBudgeted(cfg, events, key);
  }

  // ---------------------------------------------------------------- exclusion

  /** The thread was granted the key and has not settled it since. */
  function Holds(log: seq<Happening>, t: nat, key: Key): bool {
    if log == [] then false
    else
      var h := log[|log| - 1];
      if Changes(h, key) && !h.Lost? && h.thread == t then h.Acquired?
      else Holds(log[..|log| - 1], t, key)
  }

  /** The key did not expire and was not evicted, and only its holder settled it. */
  predicate Orderly(before: seq<Happening>, change: Option<Happening>, key: Key) {
    match change
    case None => true
    case Some(h) =>
      if h.Acquired? then !h.overExpired else !h.Lost? && (h.Finished? || h.Removed? ==> Holds(before, h.thread, key))
  }

  ghost predicate Undisturbed(log: seq<Happening>, key: Key) {
    log == [] ||
    var (before, h) := (log[..|log| - 1], log[|log| - 1]);
    Undisturbed(before, key) && Orderly(before, if Changes(h, key) then Some(h) else None, key)
  }

  ghost predicate Exclusive(cfg: Config, s: Shared, key: Key)
    requires Shaped(s)
  {
    var found := Find(cfg, s.shards, key);
    && (forall t: nat :: Holds(s.log, t, key) ==> found.Some? && found.value.InProgress?)
    && (forall t: nat, u: nat :: Holds(s.log, t, key) && Holds(s.log, u, key) ==> t == u)
    && (found.Some? && found.value.InProgress? ==> exists t: nat :: Holds(s.log, t, key))
  }

  function HeldAfter(change: Option<Happening>, t: nat, held: bool): bool {
    if change.None? || change.value.Lost? || change.value.thread != t then held else change.value.Acquired?
  }

  /** The log of a step, read as one change. */
  lemma OneChangeExtends(log: seq<Happening>, news: seq<Happening>, key: Key, t: nat)
    requires OneChange(news)
    ensures Holds(log + news, t, key) == HeldAfter(LastChange(news, key), t, Holds(log, t, key))
    ensures Undisturbed(log + news, key) ==> Undisturbed(log, key) && Orderly(log, LastChange(news, key), key)
  {
    if |news| == 0 {
      assert log + news == log;
    } else if |news| == 1 {
      assert (log + news)[..|log|] == log && news[..0] == [];
    } else {
      var one := log + [news[0]];
      assert (log + news)[..|log| + 1] == one && one[..|log|] == log;
      assert news[..1] == [news[0]] && news[..1][..0] == [];
      assert one[|one| - 1] == news[0];
    }
  }

  lemma StepExclusive(cfg: Config, s: Shared, e: Event, key: Key)
    requires Structured(cfg, s)
    requires Undisturbed(s.log, key) ==> Exclusive(cfg, s, key)
    ensures Undisturbed(Step(cfg, s, e).log, key) ==> Exclusive(cfg, Step(cfg, s, e), key)
  {
    if EffectOf(cfg, s, e).Some? && Undisturbed(Step(cfg, s, e).log, key) {
      var news := EffectOf(cfg, s, e).value.news;
      var s' := Step(cfg, s, e);
      var change := LastChange(news, key);
      StepExplained(cfg, s, e, key);
      LastChangeIsLogged(news, key);
      OneChangeExtends(s.log, news, key, 0);
      assert Exclusive(cfg, s, key);
      forall t: nat
        ensures Holds(s'.log, t, key) == HeldAfter(change, t, Holds(s.log, t, key))
      {
        OneChangeExtends(s.log, news, key, t);
      }
      ChangeKeepsExclusive(cfg, s, s', change, key);
    }
  }

  lemma ChangeKeepsExclusive(cfg: Config, s: Shared, s': Shared, change: Option<Happening>, key: Key)
    requires Shaped(s) && Shaped(s') && Exclusive(cfg, s, key)
    requires change.Some? ==> Changes(change.value, key)
    requires Explains(change, Find(cfg, s.shards, key), Find(cfg, s'.shards, key)) && Orderly(s.log, change, key)
    requires forall t: nat :: Holds(s'.log, t, key) == HeldAfter(change, t, Holds(s.log, t, key))
    ensures Exclusive(cfg, s', key)
  {
    if change.None? {
      if t: nat :| Holds(s.log, t, key) { assert Holds(s'.log, t, key); }
    } else {
      var u := change.value.thread;
      assert Holds(s'.log, u, key) == change.value.Acquired?;
      forall t: nat | t != u
        ensures !Holds(s'.log, t, key)
      {
        assert Holds(s'.log, t, key) == Holds(s.log, t, key);
      }
    }
  }

  /** Exclusion: while a key does not expire and is not evicted, at most one request holds it, and one
      does exactly while its record is in progress. */
  lemma {:induction false} AtMostOneHolder(cfg: Config, events: seq<Event>, key: Key)
    requires Undisturbed(Run(cfg, events).log, key)
    ensures Exclusive(cfg, Run(cfg, events), key)
    decreases |events|
  {
    ExclusiveIfUndisturbed(cfg, events, key);
  }

  lemma {:induction false} ExclusiveIfUndisturbed(cfg: Config, events: seq<Event>, key: Key)
    ensures Undisturbed(Run(cfg, events).log, key) ==> Exclusive(cfg, Run(cfg, events), key)
  {
    if events != [] {
      ExclusiveIfUndisturbed(cfg, events[..|events| - 1], key);
      AlwaysStructured(cfg, events[..|events| - 1]);
      StepExclusive(cfg, Run(cfg, events[..|events| - 1]), events[|events| - 1], key);
    }
  }

  // ---------------------------------------------------------------- provenance of replays

  ghost predicate WasFinished(log: seq<Happening>, key: Key, hlc: HlcTimestamp, response: Response) {
    exists i :: 0 <= i < |log| && log[i].Finished? && log[i].key == key && log[i].hlc == hlc && log[i].response == response
  }

  ghost predicate RecordWasFinished(log: seq<Happening>, key: Key, found: Option<Record>) {
    found.Some? && found.value.Completed? ==> WasFinished(log, key, found.value.hlc, found.value.response)
  }

  ghost predicate RecordsWereFinished(cfg: Config, s: Shared)
    requires Shaped(s)
  {
    forall key :: RecordWasFinished(s.log, key, Find(cfg, s.shards, key))
  }

  ghost predicate ReplaysWereFinished(log: seq<Happening>) {
    forall i :: 0 <= i < |log| && log[i].Replayed? ==> WasFinished(log[..i], log[i].key, log[i].hlc, log[i].response)
  }

  lemma FinishedStays(log: seq<Happening>, news: seq<Happening>, key: Key, hlc: HlcTimestamp, response: Response)
    requires WasFinished(log, key, hlc, response)
    ensures WasFinished(log + news, key, hlc, response)
  {
    var i :| 0 <= i < |log| && log[i].Finished? && log[i].key == key && log[i].hlc == hlc && log[i].response == response;
    assert (log + news)[i] == log[i];
  }

  lemma {:induction false} LastChangeIsLogged(log: seq<Happening>, key: Key)
    ensures LastChange(log, key).Some? ==> LastChange(log, key).value in log && Changes(LastChange(log, key).value, key)
  {
    if log != [] { LastChangeIsLogged(log[..|log| - 1], key); }
  }

  lemma ChangeWasFinished(log: seq<Happening>, news: seq<Happening>, key: Key, before: Option<Record>, after: Option<Record>)
    requires RecordWasFinished(log, key, before) && Explains(LastChange(news, key), before, after)
    requires LastChange(news, key).Some? ==> Changes(LastChange(news, key).value, key) && LastChange(news, key).value in news
    ensures RecordWasFinished(log + news, key, after)
  {
    if after.Some? && after.value.Completed? {
      var change := LastChange(news, key);
      if change.Some? {
        var i :| 0 <= i < |news| && news[i] == change.value;
        assert (log + news)[|log| + i] == change.value;
      } else {
        FinishedStays(log, news, key, after.value.hlc, after.value.response);
      }
    }
  }

  lemma StepRecordsFinished(cfg: Config, s: Shared, e: Event, key: Key)
    requires Structured(cfg, s) && RecordsWereFinished(cfg, s) && EffectOf(cfg, s, e).Some?
    ensures RecordWasFinished(s.log + EffectOf(cfg, s, e).value.news, key, Find(cfg, Step(cfg, s, e).shards, key))
  {
    var f := EffectOf(cfg, s, e).value;
    StepExplained(cfg, s, e, key);
    LastChangeIsLogged(f.news, key);
    ChangeWasFinished(s.log, f.news, key, Find(cfg, s.shards, key), Find(cfg, s.shards[f.shard := f.cache], key));
  }

  lemma StepReplaysFinished(cfg: Config, s: Shared, e: Event, i: nat)
    requires Structured(cfg, s) && RecordsWereFinished(cfg, s) && EffectOf(cfg, s, e).Some?
    requires i < |EffectOf(cfg, s, e).value.news| && EffectOf(cfg, s, e).value.news[i].Replayed?
    ensures var news := EffectOf(cfg, s, e).value.news;
            WasFinished(s.log + news[..i], news[i].key, news[i].hlc, news[i].response)
  {
    var news := EffectOf(cfg, s, e).value.news;
    StepExplained(cfg, s, e, news[i].key);
    FinishedStays(s.log, news[..i], news[i].key, news[i].hlc, news[i].response);
  }

  lemma StepProvenance(cfg: Config, s: Shared, e: Event)
    requires Structured(cfg, s) && RecordsWereFinished(cfg, s) && ReplaysWereFinished(s.log)
    ensures RecordsWereFinished(cfg, Step(cfg, s, e)) && ReplaysWereFinished(Step(cfg, s, e).log)
  {
    if EffectOf(cfg, s, e).Some? {
      var news := EffectOf(cfg, s, e).value.news;
      var log' := s.log + news;
      forall key { StepRecordsFinished(cfg, s, e, key); }
      forall i | 0 <= i < |log'| && log'[i].Replayed?
        ensures WasFinished(log'[..i], log'[i].key, log'[i].hlc, log'[i].response)
      {
        if i < |s.log| {
          assert log'[..i] == s.log[..i];
        } else {
          StepReplaysFinished(cfg, s, e, i - |s.log|);
          assert log'[..i] == s.log + news[..i - |s.log|];
        }
      }
    }
  }

  /** Every replay carries what an earlier `complete` on that key stored. */
  lemma {:induction false} ReplaysComeFromCompletions(cfg: Config, events: seq<Event>)
    ensures RecordsWereFinished(cfg, Run(cfg, events)) && ReplaysWereFinished(Run(cfg, events).log)
  {
    if events != [] {
      ReplaysComeFromCompletions(cfg, events[..|events| - 1]);
      AlwaysStructured(cfg, events[..|events| - 1]);
      StepProvenance(cfg, Run(cfg, events[..|events| - 1]), events[|events| - 1]);
    }
  }
}
