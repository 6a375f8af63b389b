/** The circuit breaker around a WASM guest and the callers that ask and inform it
    (src/interceptors/evaluators/wasm.rs:57-117, 295-417). Each breaker method is one atomic step;
    every clock reading is an input. */
module Breaker {
  import opened Wrappers

  type Instant = nat

  datatype Config = Config(threshold: nat, cooloff: nat)
  datatype CircuitState = Closed | Open | HalfOpen
  datatype Permission = Allow | Probe | Denied

  const U32_RANGE: nat := 0x1_0000_0000

  ghost predicate ConfigOk(cfg: Config) { cfg.threshold < U32_RANGE }

  /** The first failure trips the breaker even when the threshold is zero. */
  function TripsAt(cfg: Config): nat { if cfg.threshold == 0 then 1 else cfg.threshold }

  /** Time since `since`, zero for a reading that lies before it. */
  function Elapsed(since: Instant, now: Instant): nat { if now < since then 0 else now - since }

  // ---------------------------------------------------------------- the breaker's methods

  datatype Value = Value(failures: nat, state: CircuitState, trippedAt: Option<Instant>)

  const FRESH: Value := Value(0, Closed, None)

  predicate CooledOff(cfg: Config, b: Value, now: Instant) {
    b.trippedAt.Some? && Elapsed(b.trippedAt.value, now) >= cfg.cooloff
  }

  function PermissionOf(cfg: Config, b: Value, now: Instant): Permission {
    match b.state
    case Closed => Allow
    case Open => if CooledOff(cfg, b, now) then Probe else Denied
    case HalfOpen => Probe
  }

  function AfterAsk(cfg: Config, b: Value, now: Instant): Value {
    if b.state.Open? && CooledOff(cfg, b, now) then b.(state := HalfOpen) else b
  }

  function AfterSuccess(b: Value): Value { b.(failures := 0, state := Closed) }

  function AfterFailure(cfg: Config, b: Value, now: Instant): Value {
    var failures := (b.failures + 1) % U32_RANGE;
    if b.state.HalfOpen? || failures >= cfg.threshold then Value(failures, Open, Some(now))
    else b.(failures := failures)
  }

  class WasmCircuitBreaker {
    const config: Config
    var failures: nat
    var state: CircuitState
    var lastTrippedAt: Option<Instant>

    ghost function Now(): Value
      reads this
    {
      Value(failures, state, lastTrippedAt)
    }

    constructor (config: Config)
      ensures this.config == config && Now() == FRESH
    {
      this.config := config;
      failures, state, lastTrippedAt := 0, Closed, None;
    }

    method CanExecute(now: Instant) returns (permission: Permission)
      modifies this
      ensures permission == PermissionOf(config, old(Now()), now) && Now() == AfterAsk(config, old(Now()), now)
    {
      match state
      case Closed => permission := Allow;
      case HalfOpen => permission := Probe;
      case Open =>
        if lastTrippedAt.Some? && Elapsed(lastTrippedAt.value, now) >= config.cooloff {
          state, permission := HalfOpen, Probe;
        } else {
          permission := Denied;
        }
    }

    method RecordSuccess()
      modifies this
      ensures Now() == AfterSuccess(old(Now()))
    {
      failures := 0;
      state := Closed;
    }

    method RecordFailure(now: Instant)
      modifies this
      ensures Now() == AfterFailure(config, old(Now()), now)
    {
      failures := (failures + 1) % U32_RANGE;
      if state == HalfOpen || failures >= config.threshold {
        state := Open;
        lastTrippedAt := Some(now);
      }
    }
  }

  // ---------------------------------------------------------------- any interleaving of the methods

  datatype Op = Ask(now: Instant) | Success | Failure(now: Instant)

  function Applied(cfg: Config, b: Value, op: Op): Value {
    match op
    case Ask(now) => AfterAsk(cfg, b, now)
    case Success => AfterSuccess(b)
    case Failure(now) => AfterFailure(cfg, b, now)
  }

  function After(cfg: Config, ops: seq<Op>): Value {
    if ops == [] then FRESH else Applied(cfg, After(cfg, ops[..|ops| - 1]), ops[|ops| - 1])
  }

  /** The number of failures recorded since the last success. */
  function TrailingFailures(ops: seq<Op>): nat {
    if ops == [] then 0
    else match ops[|ops| - 1]
      case Ask(_) => TrailingFailures(ops[..|ops| - 1])
      case Success => 0
      case Failure(_) => TrailingFailures(ops[..|ops| - 1]) + 1
  }

  /** The latest failure that opened the circuit, or opened it again: one on a half-open circuit, or one
      that the counter puts at the threshold. */
  function LatestTrip(cfg: Config, ops: seq<Op>): Option<Instant>
    decreases |ops|, 0
  {
    if ops == [] then None
    else
      var earlier, last := ops[..|ops| - 1], ops[|ops| - 1];
      if last.Failure? && (Probing(cfg, earlier) || TrailingFailures(ops) % U32_RANGE >= cfg.threshold) then Some(last.now)
      else LatestTrip(cfg, earlier)
  }

  /** The cool-off of a trip is over; a cool-off of zero always is. */
  predicate Over(cfg: Config, trip: Instant, now: Instant) { cfg.cooloff == 0 || now >= trip + cfg.cooloff }

  /** Since the latest failure someone asked after the cool-off. */
  predicate AskedInTime(cfg: Config, ops: seq<Op>)
    decreases |ops|, 0
  {
    ops != [] &&
    var earlier, last := ops[..|ops| - 1], ops[|ops| - 1];
    match last
    case Ask(now) =>
      || AskedInTime(cfg, earlier)
      || (LatestTrip(cfg, earlier).Some? && Over(cfg, LatestTrip(cfg, earlier).value, now))
    case Success => AskedInTime(cfg, earlier)
    case Failure(_) => false
  }

  predicate Probing(cfg: Config, ops: seq<Op>)
    decreases |ops|, 1
  {
    TrailingFailures(ops) >= TripsAt(cfg) && AskedInTime(cfg, ops)
  }

  /** In every interleaving of any number of callers the counter is the length of the trailing run of
      failures, reduced to 32 bits, and the circuit is closed exactly while that run is too short to
      trip it; the reduction never reopens or closes the circuit. */
  lemma {:induction false} ClosedIffRunIsShort(cfg: Config, ops: seq<Op>)
    requires ConfigOk(cfg)
    ensures After(cfg, ops).failures == TrailingFailures(ops) % 0x1_0000_0000
    ensures After(cfg, ops).state.Closed? <==> TrailingFailures(ops) < if cfg.threshold == 0 then 1 else cfg.threshold
  {
    if ops != [] {
      var earlier := ops[..|ops| - 1];
      ClosedIffRunIsShort(cfg, earlier);
      if ops[|ops| - 1].Failure? { SuccessorModulo(TrailingFailures(earlier)); }
    }
  }

  lemma SuccessorModulo(n: nat)
    ensures (n % U32_RANGE + 1) % U32_RANGE == (n + 1) % U32_RANGE
  {}

  /** The rest of the state, read off the history: the circuit is half open from the first ask after the
      cool-off, measured from the latest trip, to the next failure or success. */
  lemma {:induction false} HalfOpenIffProbing(cfg: Config, ops: seq<Op>)
    requires ConfigOk(cfg)
    ensures After(cfg, ops).trippedAt == LatestTrip(cfg, ops)
    ensures After(cfg, ops).state.HalfOpen? <==> Probing(cfg, ops)
  {
    if ops != [] {
      var earlier := ops[..|ops| - 1];
      HalfOpenIffProbing(cfg, earlier);
      ClosedIffRunIsShort(cfg, earlier);
      ClosedIffRunIsShort(cfg, ops);
    }
  }

  /** No failure has been recorded from position `j` on. */
  ghost predicate SinceFailure(ops: seq<Op>, j: int) {
    0 <= j < |ops| && forall i :: j <= i < |ops| ==> !ops[i].Failure?
  }

  lemma {:induction false} AskedInTimeIff(cfg: Config, ops: seq<Op>)
    requires ConfigOk(cfg) && TrailingFailures(ops) >= TripsAt(cfg)
    ensures LatestTrip(cfg, ops).Some?
    ensures AskedInTime(cfg, ops) <==>
              exists j :: SinceFailure(ops, j) && ops[j].Ask? && Over(cfg, LatestTrip(cfg, ops).value, ops[j].now)
  {
    TrippedRunHasTrip(cfg, ops);
    var earlier, last := ops[..|ops| - 1], ops[|ops| - 1];
    if last.Ask? {
      AskedInTimeIff(cfg, earlier);
      if j :| SinceFailure(earlier, j) && earlier[j].Ask? && Over(cfg, LatestTrip(cfg, earlier).value, earlier[j].now) {
        assert SinceFailure(ops, j) && ops[j] == earlier[j];
      }
      if j :| SinceFailure(ops, j) && ops[j].Ask? && Over(cfg, LatestTrip(cfg, ops).value, ops[j].now) {
        assert j < |earlier| ==> SinceFailure(earlier, j) && earlier[j] == ops[j];
      }
      assert SinceFailure(ops, |earlier|);
    }
  }

  /** In every interleaving a caller is turned away exactly when max(1, threshold) failures or more have
      been recorded since the last success, there is a cool-off, and neither the caller nor anyone since
      the latest failure asked at or after the end of the cool-off of the latest trip. */
  lemma DeniedIff(cfg: Config, ops: seq<Op>, now: Instant)
    requires ConfigOk(cfg)
    ensures PermissionOf(cfg, After(cfg, ops), now).Denied? <==>
              && TrailingFailures(ops) >= (if cfg.threshold == 0 then 1 else cfg.threshold)
              && cfg.cooloff > 0
              && LatestTrip(cfg, ops).Some? && now < LatestTrip(cfg, ops).value + cfg.cooloff
              && forall j :: SinceFailure(ops, j) && ops[j].Ask? ==> ops[j].now < LatestTrip(cfg, ops).value + cfg.cooloff
  {
    ClosedIffRunIsShort(cfg, ops);
    HalfOpenIffProbing(cfg, ops);
    if TrailingFailures(ops) >= TripsAt(cfg) { AskedInTimeIff(cfg, ops); }
  }

  /** A tripped breaker always recovers: whoever asks when the cool-off of the latest trip is over runs. */
  lemma RunsAfterCooloff(cfg: Config, ops: seq<Op>, now: Instant)
    requires ConfigOk(cfg)
    requires LatestTrip(cfg, ops).Some? ==> now >= LatestTrip(cfg, ops).value + cfg.cooloff
    ensures !PermissionOf(cfg, After(cfg, ops), now).Denied?
  {
    DeniedIff(cfg, ops, now);
  }

  lemma {:induction false} TrippedRunHasTrip(cfg: Config, ops: seq<Op>)
    requires ConfigOk(cfg) && TrailingFailures(ops) >= TripsAt(cfg)
    ensures LatestTrip(cfg, ops).Some?
  {
    var earlier := ops[..|ops| - 1];
    if TrailingFailures(earlier) >= TripsAt(cfg) { TrippedRunHasTrip(cfg, earlier); }
  }

  /** The time of the latest failure. */
  function LatestFailure(ops: seq<Op>): Option<Instant> {
    if ops == [] then None
    else if ops[|ops| - 1].Failure? then Some(ops[|ops| - 1].now)
    else LatestFailure(ops[..|ops| - 1])
  }

  ghost predicate CounterNeverWraps(ops: seq<Op>) {
    forall k :: 0 <= k <= |ops| ==> TrailingFailures(ops[..k]) < U32_RANGE
  }

  /** While the counter does not wrap, the cool-off of a tripped circuit runs from its latest failure. */
  lemma {:induction false} LatestTripIsLatestFailure(cfg: Config, ops: seq<Op>)
    requires ConfigOk(cfg) && CounterNeverWraps(ops) && TrailingFailures(ops) >= TripsAt(cfg)
    ensures LatestTrip(cfg, ops) == LatestFailure(ops)
  {
    var earlier, last := ops[..|ops| - 1], ops[|ops| - 1];
    assert ops[..|ops|] == ops;
    if !last.Failure? {
      assert forall k :: 0 <= k <= |earlier| ==> earlier[..k] == ops[..k];
      LatestTripIsLatestFailure(cfg, earlier);
    }
  }

  // ---------------------------------------------------------------- one caller at a time

  datatype Verdict = Pass | Reject(status: nat, code: string) | Transform(headers: seq<(string, string)>, body: Option<string>)
  datatype FailMode = FailClosed | FailOpen

  /** What the guest does with the call, if it is made. */
  datatype GuestResult = Answered(verdict: Verdict) | TimedOut | Trapped

  /** A caller asks at `asked`; a failing guest is recorded at `done`. */
  datatype Call = Call(asked: Instant, result: GuestResult, done: Instant)

  predicate Runs(cfg: Config, b: Value, call: Call) { !PermissionOf(cfg, b, call.asked).Denied? }

  function AfterCall(cfg: Config, b: Value, call: Call): Value {
    if !Runs(cfg, b, call) then b
    else if call.result.Answered? then AfterSuccess(AfterAsk(cfg, b, call.asked))
    else AfterFailure(cfg, AfterAsk(cfg, b, call.asked), call.done)
  }

  class RegisteredPlugin {
    const failMode: FailMode
    const breaker: WasmCircuitBreaker

    constructor (failMode: FailMode, breaker: WasmCircuitBreaker)
      ensures this.failMode == failMode && this.breaker == breaker
    {
      this.failMode, this.breaker := failMode, breaker;
    }

    /** A plugin that fails open never turns a request away by itself; one that fails closed never
        lets a request by that its guest did not answer. */
    method Intercept(call: Call) returns (verdict: Verdict)
      modifies breaker
      ensures breaker.Now() == AfterCall(breaker.config, old(breaker.Now()), call)
      ensures var ran := Runs(breaker.config, old(breaker.Now()), call);
              && (ran && call.result.Answered? ==> verdict == call.result.verdict)
              && (!(ran && call.result.Answered?) && failMode.FailOpen? ==> verdict == Pass)
              && (!ran && failMode.FailClosed? ==> verdict == Reject(503, "WASM_CIRCUIT_OPEN"))
              && (ran && call.result.TimedOut? && failMode.FailClosed? ==> verdict == Reject(504, "WASM_EXECUTION_TIMEOUT"))
              && (ran && call.result.Trapped? && failMode.FailClosed? ==> verdict == Reject(500, "WASM_EXECUTION_ERROR"))
    {
      var permission := breaker.CanExecute(call.asked);
      if permission.Denied? {
        return if failMode.FailOpen? then Pass else Reject(503, "WASM_CIRCUIT_OPEN");
      }
      match call.result
      case Answered(v) =>
        breaker.RecordSuccess();
        verdict := v;
      case TimedOut =>
        breaker.RecordFailure(call.done);
        verdict := if failMode.FailOpen? then Pass else Reject(504, "WASM_EXECUTION_TIMEOUT");
      case Trapped =>
        breaker.RecordFailure(call.done);
        verdict := if failMode.FailOpen? then Pass else Reject(500, "WASM_EXECUTION_ERROR");
    }
  }

  function AfterCalls(cfg: Config, calls: seq<Call>): Value {
    if calls == [] then FRESH else AfterCall(cfg, AfterCalls(cfg, calls[..|calls| - 1]), calls[|calls| - 1])
  }

  /** The history as a reader of the log would keep it: how many calls have failed in a row, and when
      the last of them was recorded. Calls that were turned away leave no trace. */
  datatype History = History(failed: nat, at: Instant)

  predicate TurnedAway(cfg: Config, h: History, asked: Instant) {
    h.failed >= TripsAt(cfg) && !Over(cfg, h.at, asked)
  }

  function HistoryOf(cfg: Config, calls: seq<Call>): History {
    if calls == [] then History(0, 0)
    else
      var h, call := HistoryOf(cfg, calls[..|calls| - 1]), calls[|calls| - 1];
      if TurnedAway(cfg, h, call.asked) then h
      else if call.result.Answered? then History(0, 0)
      else History(h.failed + 1, call.done)
  }

  /** One caller at a time, the breaker follows that history without any bound on its length. */
  lemma {:induction false} BreakerFollowsHistory(cfg: Config, calls: seq<Call>)
    requires ConfigOk(cfg)
    ensures var b, h := AfterCalls(cfg, calls), HistoryOf(cfg, calls);
            && b.failures == h.failed % U32_RANGE
            && !b.state.HalfOpen?
            && (b.state.Closed? <==> h.failed < TripsAt(cfg))
            && (b.state.Open? ==> b.trippedAt == Some(h.at))
            && (forall call :: Runs(cfg, b, call) <==> !TurnedAway(cfg, h, call.asked))
  {
    if calls != [] {
      var earlier := calls[..|calls| - 1];
      BreakerFollowsHistory(cfg, earlier);
      SuccessorModulo(HistoryOf(cfg, earlier).failed);
    }
  }

  ghost predicate Chronological(calls: seq<Call>) {
    && (forall i :: 0 <= i < |calls| ==> calls[i].asked <= calls[i].done)
    && (forall i, j :: 0 <= i < j < |calls| ==> calls[i].done <= calls[j].asked)
  }

  predicate Made(cfg: Config, calls: seq<Call>, i: nat)
    requires i < |calls|
  {
    Runs(cfg, AfterCalls(cfg, calls[..i]), calls[i])
  }

  /** How many of the calls numbered from `from` to `to` reached the guest. */
  function MadeWithin(cfg: Config, calls: seq<Call>, from: nat, to: nat): nat
    requires from <= to <= |calls|
  {
    if from == to then 0
    else MadeWithin(cfg, calls, from, to - 1) + (if Made(cfg, calls, to - 1) then 1 else 0)
  }

  ghost predicate NoneSucceeds(cfg: Config, calls: seq<Call>, from: nat, to: nat)
    requires from <= to <= |calls|
  {
    forall i :: from <= i < to && Made(cfg, calls, i) ==> !calls[i].result.Answered?
  }

  /** The least time that `k` failing calls take when the circuit trips at the `m`-th. */
  function Spacing(k: nat, m: nat, cooloff: nat): nat { if k <= m then 0 else Spacing(k - 1, m, cooloff) + cooloff }

  lemma {:induction false} SpacingIsProduct(k: nat, m: nat, cooloff: nat)
    ensures (k - m) * cooloff <= Spacing(k, m, cooloff)
  {
    if k > m {
      SpacingIsProduct(k - 1, m, cooloff);
      assert (k - m) * cooloff == (k - 1 - m) * cooloff + cooloff;
    }
  }

  ghost predicate Spaced(cfg: Config, k: nat, h: History, begin: Instant, end: Instant) {
    && k <= h.failed
    && (k > 0 ==> begin <= h.at <= end && begin + Spacing(k, TripsAt(cfg), cfg.cooloff) <= h.at)
  }

  /** One more call: it is turned away, or it fails a cool-off after the failure before it. */
  lemma OneMoreFailure(cfg: Config, k: nat, h: History, begin: Instant, end: Instant, call: Call)
    requires Spaced(cfg, k, h, begin, end)
    requires begin <= end <= call.asked <= call.done
    ensures Spaced(cfg, k, h, begin, call.done)
    ensures !TurnedAway(cfg, h, call.asked) ==> Spaced(cfg, k + 1, History(h.failed + 1, call.done), begin, call.done)
  {
    if k < TripsAt(cfg) {
      assert Spacing(k + 1, TripsAt(cfg), cfg.cooloff) == 0;
    }
  }

  lemma {:induction false} FailuresAreSpaced(cfg: Config, calls: seq<Call>, from: nat, to: nat)
    requires ConfigOk(cfg) && Chronological(calls)
    requires from < to <= |calls| && NoneSucceeds(cfg, calls, from, to)
    ensures Spaced(cfg, MadeWithin(cfg, calls, from, to), HistoryOf(cfg, calls[..to]), calls[from].asked, calls[to - 1].done)
  {
    var last := to - 1;
    var h, call := HistoryOf(cfg, calls[..last]), calls[last];
    assert calls[..to][..last] == calls[..last];
    assert calls[from].asked <= call.asked <= call.done;
    BreakerFollowsHistory(cfg, calls[..last]);
    assert Made(cfg, calls, last) <==> !TurnedAway(cfg, h, call.asked);
    if from < last {
      FailuresAreSpaced(cfg, calls, from, last);
      assert calls[last - 1].done <= call.asked;
      OneMoreFailure(cfg, MadeWithin(cfg, calls, from, last), h, calls[from].asked, calls[last - 1].done, call);
    } else {
      assert MadeWithin(cfg, calls, from, last) == 0;
      OneMoreFailure(cfg, 0, h, call.asked, call.asked, call);
    }
  }

  /** A guest that keeps failing is called at most `TripsAt` times plus once per cool-off: `k` failing
      calls without a success between them span at least `(k - TripsAt) * cooloff`. */
  lemma FailingGuestIsLimited(cfg: Config, calls: seq<Call>, from: nat, to: nat)
    requires ConfigOk(cfg) && Chronological(calls)
    requires from < to <= |calls| && NoneSucceeds(cfg, calls, from, to)
    ensures (MadeWithin(cfg, calls, from, to) - (if cfg.threshold == 0 then 1 else cfg.threshold)) * cfg.cooloff <=
              calls[to - 1].done - calls[from].asked
  {
    FailuresAreSpaced(cfg, calls, from, to);
    SpacingIsProduct(MadeWithin(cfg, calls, from, to), TripsAt(cfg), cfg.cooloff);
    if MadeWithin(cfg, calls, from, to) == 0 {
      assert Spacing(0, TripsAt(cfg), cfg.cooloff) == 0;
    }
  }
}
