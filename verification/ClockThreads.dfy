/** Any number of threads sharing one clock (src/core/clock.rs, the loops of `now` and `update`).
    A thread loads the word, computes, and compare-and-swaps; between its steps the others run. */
module ClockThreads {
  import opened Timestamps
  import opened Clock

  /** The physical reading is taken once, before the load, and may be stale or go backward. */
  datatype Operation =
    | Local(physicalNow: U64)
    | Receive(physicalNow: U64, remote: HlcTimestamp)

  datatype Attempt = Attempt(op: Operation, seen: U64)
  datatype Commit = Commit(thread: nat, op: Operation, seen: U64, result: HlcTimestamp)
  datatype Shared = Shared(word: U64, attempts: map<nat, Attempt>, log: seq<Commit>)

  datatype Event =
    | Load(thread: nat, op: Operation)
    | CompareExchange(thread: nat, spuriousFailure: bool)

  function Result(op: Operation, seen: U64): HlcTimestamp {
    match op
    case Local(physicalNow) => NextLocal(physicalNow, seen)
    case Receive(physicalNow, remote) => NextOnReceive(physicalNow, remote, seen)
  }

  function Initial(initialPhysical: U64): Shared {
    Shared(Packed(HlcTimestamp(initialPhysical, 0)), map[], [])
  }

  /** An event of a thread that is not ready for it changes nothing. */
  function Step(s: Shared, e: Event): Shared {
    match e
    case Load(thread, op) =>
      if thread in s.attempts then s else s.(attempts := s.attempts[thread := Attempt(op, s.word)])
    case CompareExchange(thread, spuriousFailure) =>
      if thread !in s.attempts then s
      else
        var a := s.attempts[thread];
        if a.seen == s.word && !spuriousFailure then
          var t := Result(a.op, a.seen);
          Shared(Packed(t), s.attempts - {thread}, s.log + [Commit(thread, a.op, a.seen, t)])
        else
          s.(attempts := s.attempts[thread := Attempt(a.op, s.word)])
  }

  function Run(initialPhysical: U64, events: seq<Event>): Shared {
    if events == [] then Initial(initialPhysical)
    else Step(Run(initialPhysical, events[..|events| - 1]), events[|events| - 1])
  }

  /** The largest physical reading so far, construction included. */
  function Reading(initialPhysical: U64, events: seq<Event>): nat {
    if events == [] then initialPhysical
    else
      var before := Reading(initialPhysical, events[..|events| - 1]);
      match events[|events| - 1]
      case Load(_, op) => Max(before, op.physicalNow)
      case CompareExchange(_, _) => before
  }

  ghost predicate ReadingsBelow(s: Shared, reading: nat) {
    forall thread :: thread in s.attempts ==> s.attempts[thread].op.physicalNow <= reading
  }

  /** However large the received timestamps are, the word stays within the drift of the readings
      plus one for each successful operation. */
  lemma {:induction false} DriftBound(initialPhysical: U64, events: seq<Event>)
    ensures var s, m := Run(initialPhysical, events), Reading(initialPhysical, events);
            s.word <= WordLimit(m, |s.log|) && ReadingsBelow(s, m)
  {
    if events == [] {
      ModAtMost(initialPhysical * TWO_16, TWO_64);
    } else {
      var n := |events| - 1;
      var before := Run(initialPhysical, events[..n]);
      var m := Reading(initialPhysical, events[..n]);
      DriftBound(initialPhysical, events[..n]);
      match events[n]
      case Load(_, _) =>
      case CompareExchange(thread, spuriousFailure) =>
        if thread in before.attempts && before.attempts[thread].seen == before.word && !spuriousFailure {
          CommitBound(before.attempts[thread].op, before.word, m);
        }
    }
  }

  lemma CommitBound(op: Operation, seen: U64, reading: nat)
    requires op.physicalNow <= reading
    ensures Word(Result(op, seen)) <= Max(WordLimit(reading, 0), seen + 1)
    ensures Packed(Result(op, seen)) <= Word(Result(op, seen))
  {
    StepBound(op.physicalNow, if op.Receive? then op.remote else HlcTimestamp(0, 0), seen, reading);
  }

  /** The word that a commit replaced: the one stored by the commit before it. */
  function Replaced(initialPhysical: U64, log: seq<Commit>, i: nat): U64
    requires i < |log|
  {
    if i == 0 then Packed(HlcTimestamp(initialPhysical, 0)) else Packed(log[i - 1].result)
  }

  ghost predicate Chained(initialPhysical: U64, log: seq<Commit>) {
    forall i :: 0 <= i < |log| ==>
      && log[i].seen == Replaced(initialPhysical, log, i)
      && log[i].result == Result(log[i].op, log[i].seen)
      && log[i].result.physical >= log[i].op.physicalNow
  }

  lemma ResultCoversReading(op: Operation, seen: U64)
    ensures Result(op, seen).physical >= op.physicalNow
  {
    LocalIsLeast(op.physicalNow, seen);
    if op.Receive? { ReceiveIsLeast(op.physicalNow, op.remote, seen); }
  }

  lemma ChainExtends(initialPhysical: U64, log: seq<Commit>, c: Commit)
    requires Chained(initialPhysical, log) && c.seen == Replaced(initialPhysical, log + [c], |log|) && c.result == Result(c.op, c.seen)
    ensures Chained(initialPhysical, log + [c])
  {
    ResultCoversReading(c.op, c.seen);
    assert forall i :: 0 <= i < |log| ==> Replaced(initialPhysical, log + [c], i) == Replaced(initialPhysical, log, i);
  }

  /** In every interleaving each operation works on exactly what the one before it stored, and its
      timestamp is no earlier than its own physical reading. */
  lemma {:induction false} CommitsChain(initialPhysical: U64, events: seq<Event>)
    ensures var s := Run(initialPhysical, events);
            && Chained(initialPhysical, s.log)
            && s.word == (if s.log == [] then Packed(HlcTimestamp(initialPhysical, 0)) else Packed(s.log[|s.log| - 1].result))
  {
    if events != [] {
      var n := |events| - 1;
      var before, e := Run(initialPhysical, events[..n]), events[n];
      CommitsChain(initialPhysical, events[..n]);
      if e.CompareExchange? && e.thread in before.attempts && before.attempts[e.thread].seen == before.word && !e.spuriousFailure {
        var a := before.attempts[e.thread];
        ChainExtends(initialPhysical, before.log, Commit(e.thread, a.op, a.seen, Result(a.op, a.seen)));
      }
    }
  }

  /** The readings leave room for every operation of the run. */
  predicate LeavesRoom(initialPhysical: U64, events: seq<Event>) {
    WordLimit(Reading(initialPhysical, events), |Run(initialPhysical, events).log|) < TWO_64
  }

  ghost predicate StrictlyIncreasing(log: seq<Commit>) {
    forall i, j :: 0 <= i < j < |log| ==> Before(log[i].result, log[j].result)
  }

  ghost predicate AllFit(log: seq<Commit>) {
    forall i :: 0 <= i < |log| ==> FitsWord(log[i].result) && Unpacked(Packed(log[i].result)) == log[i].result
  }

  /** For every interleaving the timestamps increase strictly in the order of the successful swaps,
      so no two operations ever get the same one, and what is returned is what was stored. */
  lemma {:induction false} CommitsIncrease(initialPhysical: U64, events: seq<Event>)
    requires LeavesRoom(initialPhysical, events)
    ensures var s := Run(initialPhysical, events);
            && StrictlyIncreasing(s.log) && AllFit(s.log)
            && (s.log != [] ==> s.word == Packed(s.log[|s.log| - 1].result))
    decreases |events|
  {
    if events != [] {
      var n := |events| - 1;
      var before := Run(initialPhysical, events[..n]);
      var m := Reading(initialPhysical, events[..n]);
      CommitsIncrease(initialPhysical, events[..n]);
      match events[n]
      case Load(_, _) =>
      case CompareExchange(thread, spuriousFailure) =>
        if thread in before.attempts && before.attempts[thread].seen == before.word && !spuriousFailure {
          DriftBound(initialPhysical, events[..n]);
          CommitIsLater(before, thread, m);
        }
    }
  }

  lemma CommitIsLater(s: Shared, thread: nat, reading: nat)
    requires thread in s.attempts && s.attempts[thread].seen == s.word && s.attempts[thread].op.physicalNow <= reading
    requires s.word <= WordLimit(reading, |s.log|) && WordLimit(reading, |s.log| + 1) < TWO_64
    requires StrictlyIncreasing(s.log) && AllFit(s.log) && (s.log != [] ==> s.word == Packed(s.log[|s.log| - 1].result))
    ensures var t := Result(s.attempts[thread].op, s.word);
            var log := s.log + [Commit(thread, s.attempts[thread].op, s.word, t)];
            StrictlyIncreasing(log) && AllFit(log)
  {
    var op := s.attempts[thread].op;
    var t := Result(op, s.word);
    CommitBound(op, s.word, reading);
    assert Word(t) < TWO_64;
    if op.Local? { LocalAdvances(op.physicalNow, s.word); } else { ReceiveAdvances(op.physicalNow, op.remote, s.word); }
    assert FitsWord(t) && Before(Unpacked(s.word), t);
    NewestIsLast(s.log, Commit(thread, op, s.word, t), s.word);
  }

  lemma NewestIsLast(log: seq<Commit>, c: Commit, word: U64)
    requires StrictlyIncreasing(log) && AllFit(log) && FitsWord(c.result) && Before(Unpacked(word), c.result)
    requires log != [] ==> word == Packed(log[|log| - 1].result)
    ensures StrictlyIncreasing(log + [c])
  {
    forall i, j | 0 <= i < j < |log + [c]|
      ensures Before((log + [c])[i].result, (log + [c])[j].result)
    {
      if j == |log| {
        var last := log[|log| - 1].result;
        assert Unpacked(word) == last;
        assert i < |log| - 1 ==> Before(log[i].result, last);
      }
    }
  }

  /** The compact strings of a run sort in the same strict order while the readings stay below
      ten to the thirteenth milliseconds less the drift. */
  lemma CompactStringsIncrease(initialPhysical: U64, events: seq<Event>, i: nat, j: nat)
    requires LeavesRoom(initialPhysical, events)
    requires i < j < |Run(initialPhysical, events).log|
    requires Run(initialPhysical, events).log[j].result.physical < 10_000_000_000_000
    ensures var log := Run(initialPhysical, events).log;
            LexLess(CompactString(log[i].result), CompactString(log[j].result))
  {
    CommitsIncrease(initialPhysical, events);
    var log := Run(initialPhysical, events).log;
    assert Before(log[i].result, log[j].result);
    CompactOrder(log[i].result, log[j].result);
  }
}
