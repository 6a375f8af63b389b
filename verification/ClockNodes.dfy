/** Nodes that stamp events and messages with their own clock (src/core/clock.rs): local events and
    sends call `now`, a receive calls `update` with the timestamp of the message. */
module ClockNodes {
  import opened Timestamps
  import opened Clock

  /** `from` is the position in the run of the send whose message is received. */
  datatype Event =
    | LocalEvent(node: nat, physicalNow: U64)
    | Send(node: nat, physicalNow: U64)
    | Receive(node: nat, physicalNow: U64, from: nat)

  /** One packed word per node, and the timestamp of every event so far. */
  datatype Network = Network(words: seq<U64>, stamps: seq<HlcTimestamp>)

  predicate WellFormed(nodes: nat, events: seq<Event>) {
    forall i :: 0 <= i < |events| ==>
      events[i].node < nodes && (events[i].Receive? ==> events[i].from < i && events[events[i].from].Send?)
  }

  function Stamp(net: Network, e: Event): HlcTimestamp
    requires e.node < |net.words| && (e.Receive? ==> e.from < |net.stamps|)
  {
    var word := net.words[e.node];
    match e
    case LocalEvent(_, physicalNow) => NextLocal(physicalNow, word)
    case Send(_, physicalNow) => NextLocal(physicalNow, word)
    case Receive(_, physicalNow, from) => NextOnReceive(physicalNow, net.stamps[from], word)
  }

  function Built(start: seq<U64>): seq<U64> {
    seq(|start|, (node: nat) requires node < |start| => Packed(HlcTimestamp(start[node], 0)))
  }

  /** `start` holds the physical reading that each node's clock was built from. */
  function Run(start: seq<U64>, events: seq<Event>): (net: Network)
    requires WellFormed(|start|, events)
    ensures |net.words| == |start| && |net.stamps| == |events|
  {
    if events == [] then Network(Built(start), [])
    else
      var before := Run(start, events[..|events| - 1]);
      var e := events[|events| - 1];
      var t := Stamp(before, e);
      Network(before.words[e.node := Packed(t)], before.stamps + [t])
  }

  // ---------------------------------------------------------------- happens-before

  predicate Direct(events: seq<Event>, i: nat, j: nat) {
    i < j < |events| && (events[i].node == events[j].node || (events[j].Receive? && events[j].from == i))
  }

  /** The transitive closure of program order and message delivery. */
  ghost predicate HappensBefore(events: seq<Event>, i: nat, j: nat)
    decreases j - i
  {
    i < j && (Direct(events, i, j) || exists k: nat :: i < k < j && Direct(events, i, k) && HappensBefore(events, k, j))
  }

  // ---------------------------------------------------------------- hypotheses

  /** Every reading of the run, construction included, is at most `reading`, with room for the run. */
  ghost predicate LeavesRoom(start: seq<U64>, events: seq<Event>, reading: nat) {
    && (forall node :: 0 <= node < |start| ==> start[node] <= reading)
    && (forall i :: 0 <= i < |events| ==> events[i].physicalNow <= reading)
    && WordLimit(reading, |events|) < TWO_64
  }

  /** No message is further ahead of its receiver's reading than the tolerated drift. */
  ghost predicate WithinDrift(start: seq<U64>, events: seq<Event>)
    requires WellFormed(|start|, events)
  {
    forall i :: 0 <= i < |events| && events[i].Receive? ==>
      Run(start, events).stamps[events[i].from].physical <= events[i].physicalNow + MAX_ALLOWED_CLOCK_DRIFT_MS
  }

  /** The receive at `j` comes out later than its message: that was within the drift, or the receiver's
      clock had already passed it. */
  ghost predicate Overtakes(start: seq<U64>, events: seq<Event>, j: nat)
    requires WellFormed(|start|, events) && j < |events| && events[j].Receive?
  {
    var net := Run(start, events[..j]);
    Passes(net, events[j])
  }

  predicate Passes(net: Network, e: Event)
    requires e.Receive? && e.node < |net.words| && e.from < |net.stamps|
  {
    var message := net.stamps[e.from];
    || message.physical <= e.physicalNow + MAX_ALLOWED_CLOCK_DRIFT_MS
    || Before(message, NextLocal(0, net.words[e.node]))
  }

  ghost predicate EveryReceiveOvertakes(start: seq<U64>, events: seq<Event>)
    requires WellFormed(|start|, events)
  {
    forall j :: 0 <= j < |events| && events[j].Receive? ==> Overtakes(start, events, j)
  }

  /** Whatever happens before an event carries a smaller timestamp. */
  ghost predicate TimeFollowsCause(start: seq<U64>, events: seq<Event>)
    requires WellFormed(|start|, events)
  {
    forall i: nat, j: nat :: j < |events| && HappensBefore(events, i, j) ==>
      Before(Run(start, events).stamps[i], Run(start, events).stamps[j])
  }

  // ---------------------------------------------------------------- proofs

  lemma {:induction false} StampsAreStable(start: seq<U64>, events: seq<Event>, n: nat)
    requires WellFormed(|start|, events) && n <= |events|
    ensures Run(start, events).stamps[..n] == Run(start, events[..n]).stamps
    decreases |events|
  {
    if n < |events| {
      var m := |events| - 1;
      assert events[..m][..n] == events[..n];
      StampsAreStable(start, events[..m], n);
    } else {
      assert events[..n] == events;
    }
  }

  /** No stamp is earlier than the physical reading of its event. */
  lemma StampsCoverReadings(start: seq<U64>, events: seq<Event>, i: nat)
    requires WellFormed(|start|, events) && i < |events|
    ensures Run(start, events).stamps[i].physical >= events[i].physicalNow
  {
    StampsAreStable(start, events, i + 1);
    assert Run(start, events).stamps[i] == Run(start, events).stamps[..i + 1][i];
    var net, e := Run(start, events[..i]), events[i];
    assert events[..i + 1][..i] == events[..i];
    LocalIsLeast(e.physicalNow, net.words[e.node]);
    if e.Receive? { ReceiveIsLeast(e.physicalNow, net.stamps[e.from], net.words[e.node]); }
  }

  /** One event's effect: bounded by the drift, beyond the node's word, beyond the message received. */
  lemma EventAdvances(net: Network, e: Event, reading: nat)
    requires e.node < |net.words| && (e.Receive? ==> e.from < |net.stamps|)
    requires e.physicalNow <= reading
    ensures var word, t := net.words[e.node], Stamp(net, e);
            && Word(t) <= Max(WordLimit(reading, 0), word + 1)
            && Packed(t) <= Word(t)
            && (Word(t) < TWO_64 ==> FitsWord(t) && Unpacked(Packed(t)) == t && word < Packed(t))
            && (Word(t) < TWO_64 && e.Receive? ==> (Before(net.stamps[e.from], t) <==> Passes(net, e)))
  {
    var word := net.words[e.node];
    var remote := if e.Receive? then net.stamps[e.from] else HlcTimestamp(0, 0);
    StepBound(e.physicalNow, remote, word, reading);
    LocalAdvances(e.physicalNow, word);
    ReceiveAdvances(e.physicalNow, remote, word);
  }

  /** No word passes the drift bound, so no reading of the run can make a clock wrap. */
  lemma {:induction false} NetworkBound(start: seq<U64>, events: seq<Event>, reading: nat)
    requires WellFormed(|start|, events) && LeavesRoom(start, events, reading)
    ensures forall node :: 0 <= node < |start| ==> Run(start, events).words[node] <= WordLimit(reading, |events|)
    ensures forall i :: 0 <= i < |events| ==> FitsWord(Run(start, events).stamps[i])
    decreases |events|
  {
    if events == [] {
      forall node | 0 <= node < |start|
        ensures Built(start)[node] <= WordLimit(reading, 0)
      {
        ModAtMost(start[node] * TWO_16, TWO_64);
      }
    } else {
      var n := |events| - 1;
      NetworkBound(start, events[..n], reading);
      EventAdvances(Run(start, events[..n]), events[n], reading);
    }
  }

  /** A node's word is never below the packing of a stamp it issued. */
  lemma {:induction false} WordCoversStamps(start: seq<U64>, events: seq<Event>, reading: nat, i: nat)
    requires WellFormed(|start|, events) && LeavesRoom(start, events, reading) && i < |events|
    ensures Packed(Run(start, events).stamps[i]) <= Run(start, events).words[events[i].node]
    decreases |events|
  {
    var n := |events| - 1;
    if i < n {
      WordCoversStamps(start, events[..n], reading, i);
      NetworkBound(start, events[..n], reading);
      EventAdvances(Run(start, events[..n]), events[n], reading);
    }
  }

  lemma PackedOrder(a: HlcTimestamp, b: HlcTimestamp)
    requires FitsWord(a) && FitsWord(b)
    ensures Before(a, b) <==> Packed(a) < Packed(b)
  {
    PackingIsLosslessIff(a);
    PackingIsLosslessIff(b);
    UnpackedRepacks(Packed(a));
    UnpackedRepacks(Packed(b));
    WordOrder(a, b);
  }

  /** A receive carries a later timestamp than its message exactly when it overtakes it. */
  lemma ReceiveIsLaterIff(start: seq<U64>, events: seq<Event>, reading: nat, j: nat)
    requires WellFormed(|start|, events) && LeavesRoom(start, events, reading)
    requires j < |events| && events[j].Receive?
    ensures Before(Run(start, events).stamps[events[j].from], Run(start, events).stamps[j]) <==> Overtakes(start, events, j)
  {
    StampsAreStable(start, events, j);
    StampsAreStable(start, events, j + 1);
    var stamps, before := Run(start, events).stamps, Run(start, events[..j]);
    assert events[..j + 1][..j] == events[..j];
    assert stamps[..j + 1][j] == stamps[j] && stamps[..j][events[j].from] == stamps[events[j].from];
    NetworkBound(start, events[..j], reading);
    EventAdvances(before, events[j], reading);
  }

  /** On one node later events carry later timestamps, whatever was received. */
  lemma SameNodeIsLater(start: seq<U64>, events: seq<Event>, reading: nat, i: nat, j: nat)
    requires WellFormed(|start|, events) && LeavesRoom(start, events, reading)
    requires i < j < |events| && events[i].node == events[j].node
    ensures Before(Run(start, events).stamps[i], Run(start, events).stamps[j])
  {
    StampsAreStable(start, events, j);
    StampsAreStable(start, events, j + 1);
    var stamps, before := Run(start, events).stamps, Run(start, events[..j]);
    assert events[..j + 1][..j] == events[..j];
    assert stamps[..j + 1][j] == stamps[j] && stamps[..j][i] == stamps[i];
    NetworkBound(start, events[..j], reading);
    EventAdvances(before, events[j], reading);
    WordCoversStamps(start, events[..j], reading, i);
    PackedOrder(before.stamps[i], Stamp(before, events[j]));
  }

  lemma DirectOrders(start: seq<U64>, events: seq<Event>, reading: nat, i: nat, j: nat)
    requires WellFormed(|start|, events) && LeavesRoom(start, events, reading) && EveryReceiveOvertakes(start, events)
    requires Direct(events, i, j)
    ensures Before(Run(start, events).stamps[i], Run(start, events).stamps[j])
  {
    if events[i].node == events[j].node {
      SameNodeIsLater(start, events, reading, i, j);
    } else {
      ReceiveIsLaterIff(start, events, reading, j);
    }
  }

  lemma {:induction false} PathOrders(start: seq<U64>, events: seq<Event>, reading: nat, i: nat, j: nat)
    requires WellFormed(|start|, events) && LeavesRoom(start, events, reading) && EveryReceiveOvertakes(start, events)
    requires j < |events| && HappensBefore(events, i, j)
    ensures Before(Run(start, events).stamps[i], Run(start, events).stamps[j])
    decreases j - i
  {
    if Direct(events, i, j) {
      DirectOrders(start, events, reading, i, j);
    } else {
      var k: nat :| i < k < j && Direct(events, i, k) && HappensBefore(events, k, j);
      DirectOrders(start, events, reading, i, k);
      PathOrders(start, events, reading, k, j);
    }
  }

  /** Causality, exactly: the timestamps of a run follow happens-before if and only if every message was
      within the drift of its receiver's reading or already passed by its receiver's clock. */
  lemma CausalityIff(start: seq<U64>, events: seq<Event>, reading: nat)
    requires WellFormed(|start|, events) && LeavesRoom(start, events, reading)
    ensures TimeFollowsCause(start, events) <==> EveryReceiveOvertakes(start, events)
  {
    if EveryReceiveOvertakes(start, events) {
      forall i: nat, j: nat | j < |events| && HappensBefore(events, i, j)
        ensures Before(Run(start, events).stamps[i], Run(start, events).stamps[j])
      {
        PathOrders(start, events, reading, i, j);
      }
    }
    if TimeFollowsCause(start, events) {
      forall j | 0 <= j < |events| && events[j].Receive?
        ensures Overtakes(start, events, j)
      {
        assert Direct(events, events[j].from, j);
        assert HappensBefore(events, events[j].from, j);
        ReceiveIsLaterIff(start, events, reading, j);
      }
    }
  }

  /** Causality: while no message is beyond the drift, whatever happens before an event carries a
      smaller timestamp. */
  lemma Causality(start: seq<U64>, events: seq<Event>, reading: nat)
    requires WellFormed(|start|, events) && LeavesRoom(start, events, reading) && WithinDrift(start, events)
    ensures TimeFollowsCause(start, events)
  {
    forall j | 0 <= j < |events| && events[j].Receive?
      ensures Overtakes(start, events, j)
    {
      StampsAreStable(start, events, j);
      assert Run(start, events).stamps[..j][events[j].from] == Run(start, events).stamps[events[j].from];
    }
    CausalityIff(start, events, reading);
  }

  /** Without the drift premise the order is lost: a message from an hour ahead is capped. */
  lemma DriftPremiseIsNeeded()
    ensures var start, events := [0, 0], [Send(0, 3_600_000), Receive(1, 0, 0)];
            && WellFormed(2, events) && LeavesRoom(start, events, 3_600_000) && HappensBefore(events, 0, 1)
            && !Before(Run(start, events).stamps[0], Run(start, events).stamps[1])
  {
    var start, events := [0, 0], [Send(0, 3_600_000), Receive(1, 0, 0)];
    assert Direct(events, 0, 1);
    assert events[..1] == [Send(0, 3_600_000)] && events[..1][..0] == [];
    assert Built(start) == [0, 0];
    assert Run(start, events[..1][..0]) == Network([0, 0], []);
    var first := Run(start, events[..1]);
    assert first.stamps == [HlcTimestamp(3_600_000, 0)] && first.words[1] == 0;
    assert Run(start, events).stamps == first.stamps + [Stamp(first, events[1])];
  }
}
