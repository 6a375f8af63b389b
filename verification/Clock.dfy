/** The hybrid logical clock of one process (src/core/clock.rs): 48 bits of milliseconds and
    16 bits of counter in one 64-bit word, advanced by compare-and-swap loops.

    The branches of `now` and `update` are proved against a reference that has no branches: on
    packed words the clock is a Lamport clock, the next word being one more than everything seen,
    and no less than the physical reading. */
module Clock {
  import opened Timestamps

  const TWO_48: int := 0x1_0000_0000_0000
  const MAX_ALLOWED_CLOCK_DRIFT_MS: int := 60_000
  const MAX_LOGICAL: int := 0xFFFF
  const MAX_U64: int := TWO_64 - 1

  function Max(a: int, b: int): int { if a < b then b else a }
  function Min(a: int, b: int): int { if a < b then a else b }
  function SaturatingAdd(a: U64, b: nat): U64 { Min(a + b, MAX_U64) }

  // ---------------------------------------------------------------- packing

  /** `(physical << 16) | (logical & 0xFFFF)` on 64 bits: the shift drops the top bits. */
  function Packed(t: HlcTimestamp): (w: U64) {
    (t.physical * TWO_16) % TWO_64 + t.logical % TWO_16
  }

  function Unpacked(w: U64): HlcTimestamp {
    HlcTimestamp(w / TWO_16, w % TWO_16)
  }

  /** The same word without the 64-bit limit. */
  function Word(t: HlcTimestamp): nat {
    t.physical * TWO_16 + t.logical
  }

  /** Packing loses nothing exactly when both parts fit their fields. */
  lemma PackingIsLosslessIff(t: HlcTimestamp)
    ensures Unpacked(Packed(t)) == t <==> t.physical < TWO_48 && t.logical <= MAX_LOGICAL
  {
    if t.physical < TWO_48 {
      assert (t.physical * TWO_16) % TWO_64 == t.physical * TWO_16;
    }
  }

  lemma UnpackedRepacks(w: U64)
    ensures Packed(Unpacked(w)) == w && Word(Unpacked(w)) == w
  {
    assert (w / TWO_16) * TWO_16 <= w < TWO_64;
  }

  /** Words order as timestamps do. */
  lemma WordOrder(a: HlcTimestamp, b: HlcTimestamp)
    requires a.logical < TWO_16 && b.logical < TWO_16
    ensures Before(a, b) <==> Word(a) < Word(b)
  {}

  // ---------------------------------------------------------------- the reference

  /** Splits an unbounded word; the physical part saturates as `saturating_add` does. */
  function Split(word: nat): HlcTimestamp {
    HlcTimestamp(Min(word / TWO_16, MAX_U64), word % TWO_16)
  }

  /** A full counter carries into the physical part. */
  lemma SplitWord(physical: U64, counter: nat)
    requires counter <= TWO_16
    ensures Split(physical * TWO_16 + counter) ==
              if counter < TWO_16 then HlcTimestamp(physical, counter) else HlcTimestamp(SaturatingAdd(physical, 1), 0)
  {}

  function NextLocal(physicalNow: U64, current: U64): HlcTimestamp {
    Split(Max(current + 1, physicalNow * TWO_16))
  }

  function Capped(physicalNow: U64, remotePhysical: U64): U64 {
    Min(remotePhysical, SaturatingAdd(physicalNow, MAX_ALLOWED_CLOCK_DRIFT_MS))
  }

  /** What a received timestamp counts for: its physical part capped, its counter cut to 16 bits. */
  function RemoteWord(physicalNow: U64, remote: HlcTimestamp): nat {
    Capped(physicalNow, remote.physical) * TWO_16 + Min(remote.logical, MAX_LOGICAL)
  }

  function NextOnReceive(physicalNow: U64, remote: HlcTimestamp, current: U64): HlcTimestamp {
    Split(Max(Max(current + 1, physicalNow * TWO_16), RemoteWord(physicalNow, remote) + 1))
  }

  /** The counter that goes with the new physical part: one more than those that came with that part. */
  function Counter(currPhysical: U64, currLogical: U32, safeRemote: U64, remoteLogical: U32, newPhysical: U64): nat {
    if newPhysical == currPhysical && newPhysical == safeRemote then Max(currLogical, remoteLogical) + 1
    else if newPhysical == currPhysical then currLogical + 1
    else if newPhysical == safeRemote then remoteLogical + 1
    else 0
  }

  /** The branches of `update` pick the largest of the three words. */
  lemma ReceivedWord(physicalNow: U64, remote: HlcTimestamp, current: U64)
    ensures var safeRemote := Capped(physicalNow, remote.physical);
            var newPhysical: U64 := Max(Max(physicalNow, current / TWO_16), safeRemote);
            NextOnReceive(physicalNow, remote, current) ==
              Split(newPhysical * TWO_16 +
                    Min(Counter(current / TWO_16, current % TWO_16, safeRemote, remote.logical, newPhysical), TWO_16))
  {
    assert current == (current / TWO_16) * TWO_16 + current % TWO_16;
  }

  // ---------------------------------------------------------------- what the reference means

  /** Strictly after the pair, in the order of timestamps. */
  predicate IsAfter(u: HlcTimestamp, physical: nat, logical: nat) {
    u.physical > physical || (u.physical == physical && u.logical > logical)
  }

  /** What a local event asks of its timestamp: a 16-bit counter, no earlier than the reading, and after
      the pair in the clock's word. */
  predicate SuitsLocal(u: HlcTimestamp, physicalNow: U64, current: U64) {
    u.logical <= 65535 && u.physical >= physicalNow && IsAfter(u, current / 65536, current % 65536)
  }

  /** A local event gets the least such timestamp; where the reading is ahead of the clock, the reading. */
  lemma LocalIsLeast(physicalNow: U64, current: U64)
    ensures var t := NextLocal(physicalNow, current);
            && SuitsLocal(t, physicalNow, current)
            && (forall u: HlcTimestamp :: SuitsLocal(u, physicalNow, current) ==> u == t || IsAfter(u, t.physical, t.logical))
            && (physicalNow > current / 65536 ==> t == HlcTimestamp(physicalNow, 0))
  {}

  /** A receive asks besides to come after the received pair, its physical part capped a minute ahead of
      the reading and its counter cut to 16 bits. */
  predicate SuitsReceive(u: HlcTimestamp, physicalNow: U64, remote: HlcTimestamp, current: U64) {
    && SuitsLocal(u, physicalNow, current)
    && IsAfter(u, if remote.physical > physicalNow + 60_000 then physicalNow + 60_000 else remote.physical,
               if remote.logical > 65535 then 65535 else remote.logical)
  }

  /** A receive gets the least such timestamp, while there is one. */
  lemma ReceiveIsLeast(physicalNow: U64, remote: HlcTimestamp, current: U64)
    ensures var t := NextOnReceive(physicalNow, remote, current);
            && t.physical >= physicalNow
            && (remote.physical < 0xFFFF_FFFF_FFFF_FFFF || physicalNow + 60_000 < 0xFFFF_FFFF_FFFF_FFFF ==>
                  SuitsReceive(t, physicalNow, remote, current))
            && (forall u: HlcTimestamp :: SuitsReceive(u, physicalNow, remote, current) ==> u == t || IsAfter(u, t.physical, t.logical))
  {}

  // ---------------------------------------------------------------- the clock object

  class HlcClock {
    var state: U64

    constructor (initialPhysical: U64)
      ensures state == Packed(HlcTimestamp(initialPhysical, 0))
    {
      state := (initialPhysical * TWO_16) % TWO_64;
    }

    /** `contention` holds, for each attempt whose compare-and-swap fails, the word that the attempt
        found instead: another thread's store, or the same word when the failure is spurious. */
    method Now(physicalNow: U64, contention: seq<U64>) returns (t: HlcTimestamp)
      modifies this
      ensures t == NextLocal(physicalNow, LastSeen(old(state), contention))
      ensures t.physical >= physicalNow
      ensures physicalNow > LastSeen(old(state), contention) / 0x1_0000 ==> t == HlcTimestamp(physicalNow, 0)
      ensures state == Packed(t)
    {
      var current := state;
      var attempt := 0;
      while true
        invariant 0 <= attempt <= |contention|
        invariant current == LastSeen(old(state), contention[..attempt])
        decreases |contention| - attempt
      {
        var currPhysical: U64 := current / TWO_16;
        var currLogical: U32 := current % TWO_16;
        var nextPhysical: U64, nextLogical: U32;
        if physicalNow > currPhysical {
          nextPhysical, nextLogical := physicalNow, 0;
        } else if currLogical < MAX_LOGICAL {
          nextPhysical, nextLogical := currPhysical, currLogical + 1;
        } else {
          nextPhysical, nextLogical := SaturatingAdd(currPhysical, 1), 0;
        }
        t := HlcTimestamp(nextPhysical, nextLogical);
        if attempt == |contention| {
          assert contention[..attempt] == contention;
          LocalIsLeast(physicalNow, current);
          state := Packed(t);
          return;
        }
        state := contention[attempt];
        current := state;
        attempt := attempt + 1;
      }
    }

    /** One attempt of `update`: the timestamp to swap in for the word that was seen. */
    method Merged(physicalNow: U64, remote: HlcTimestamp, current: U64) returns (t: HlcTimestamp)
      ensures t == NextOnReceive(physicalNow, remote, current)
    {
      var maxTolerated := SaturatingAdd(physicalNow, MAX_ALLOWED_CLOCK_DRIFT_MS);
      var safeRemote: U64 := if remote.physical > maxTolerated then maxTolerated else remote.physical;
      var currPhysical: U64 := current / TWO_16;
      var currLogical: U32 := current % TWO_16;
      var newPhysical: U64 := Max(Max(physicalNow, currPhysical), safeRemote);
      var counter: int := 0;
      if newPhysical == currPhysical && newPhysical == safeRemote {
        counter := Max(currLogical, remote.logical) + 1;
      } else if newPhysical == currPhysical {
        counter := currLogical + 1;
      } else if newPhysical == safeRemote {
        counter := remote.logical + 1;
      }
      assert counter == Counter(currPhysical, currLogical, safeRemote, remote.logical, newPhysical);
      ReceivedWord(physicalNow, remote, current);
      SplitWord(newPhysical, Min(counter, TWO_16));
      if counter <= MAX_LOGICAL {
        t := HlcTimestamp(newPhysical, counter);
      } else {
        t := HlcTimestamp(SaturatingAdd(newPhysical, 1), 0);
      }
    }

    method Update(physicalNow: U64, remote: HlcTimestamp, contention: seq<U64>) returns (t: HlcTimestamp)
      modifies this
      ensures t == NextOnReceive(physicalNow, remote, LastSeen(old(state), contention))
      ensures t.physical >= physicalNow
      ensures state == Packed(t)
    {
      var current := state;
      var attempt := 0;
      while true
        invariant 0 <= attempt <= |contention|
        invariant current == LastSeen(old(state), contention[..attempt])
        decreases |contention| - attempt
      {
        t := Merged(physicalNow, remote, current);
        if attempt == |contention| {
          assert contention[..attempt] == contention;
          ReceiveIsLeast(physicalNow, remote, current);
          state := Packed(t);
          return;
        }
        state := contention[attempt];
        current := state;
        attempt := attempt + 1;
      }
    }
  }

  /** The word that the successful attempt was computed from. */
  function LastSeen(first: U64, contention: seq<U64>): U64 {
    if contention == [] then first else contention[|contention| - 1]
  }

  /** The furthest word that `operations` operations can reach with readings up to `reading`. */
  function WordLimit(reading: nat, operations: nat): nat {
    (reading + MAX_ALLOWED_CLOCK_DRIFT_MS + 1) * TWO_16 + operations
  }

  // ---------------------------------------------------------------- one operation

  predicate FitsWord(t: HlcTimestamp) { t.physical < TWO_48 && t.logical <= MAX_LOGICAL }

  /** A local event is later than the clock it was drawn from, unless the word overflowed. */
  lemma LocalAdvances(physicalNow: U64, current: U64)
    ensures var t := NextLocal(physicalNow, current);
            t.physical < TWO_48 ==> FitsWord(t) && Before(Unpacked(current), t) && Unpacked(Packed(t)) == t && current < Packed(t)
  {
    var t := NextLocal(physicalNow, current);
    UnpackedRepacks(current);
    PackingIsLosslessIff(t);
    if t.physical < TWO_48 {
      WordOrder(Unpacked(current), t);
    }
  }

  /** A receive is later than the clock, and later than the received timestamp exactly when that
      was not capped or the clock had already passed it. */
  lemma ReceiveAdvances(physicalNow: U64, remote: HlcTimestamp, current: U64)
    ensures var t := NextOnReceive(physicalNow, remote, current);
            t.physical < TWO_48 ==>
              && FitsWord(t) && Before(Unpacked(current), t) && Unpacked(Packed(t)) == t && current < Packed(t)
              && (Before(remote, t) <==>
                    remote.physical <= physicalNow + MAX_ALLOWED_CLOCK_DRIFT_MS || Before(remote, NextLocal(0, current)))
  {
    var t := NextOnReceive(physicalNow, remote, current);
    UnpackedRepacks(current);
    PackingIsLosslessIff(t);
    if t.physical < TWO_48 {
      WordOrder(Unpacked(current), t);
    }
  }

  /** Neither operation can push the word further than the tolerated drift past the readings. */
  lemma StepBound(physicalNow: U64, remote: HlcTimestamp, current: U64, reading: nat)
    requires physicalNow <= reading
    ensures Word(NextLocal(physicalNow, current)) <= Max(reading * TWO_16, current + 1)
    ensures Word(NextOnReceive(physicalNow, remote, current)) <=
            Max((reading + MAX_ALLOWED_CLOCK_DRIFT_MS + 1) * TWO_16, current + 1)
    ensures Packed(NextLocal(physicalNow, current)) <= Word(NextLocal(physicalNow, current))
    ensures Packed(NextOnReceive(physicalNow, remote, current)) <= Word(NextOnReceive(physicalNow, remote, current))
  {
    SplitBelow(Max(current + 1, physicalNow * TWO_16));
    SplitBelow(Max(Max(current + 1, physicalNow * TWO_16), RemoteWord(physicalNow, remote) + 1));
  }

  lemma SplitBelow(word: nat)
    ensures Word(Split(word)) <= word && Packed(Split(word)) <= Word(Split(word))
    ensures word < TWO_64 ==> Word(Split(word)) == word && FitsWord(Split(word))
  {
    var t := Split(word);
    assert word == (word / TWO_16) * TWO_16 + word % TWO_16;
    ModAtMost(t.physical * TWO_16, TWO_64);
  }

  lemma ModAtMost(x: nat, m: nat)
    requires m > 0
    ensures x % m <= x
  {}
}
