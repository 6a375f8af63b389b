/** The hub's operations one lock section at a time (src/subscriptions/hub.rs:36-112): any number of
    operations interleave, `topics` and `connections` have a lock each, and only the closing of a
    connection holds both. The sole discipline assumed of the callers is that nothing else is in flight
    for a (connection, subscription id) while a subscribe is; removals may overlap, as the clean-ups of
    two broadcasts do. That `register` meets no held id follows from the check that precedes it
    (src/subscriptions/engine.rs:255). */
module HubSteps {
  import opened Wrappers
  import opened Hub

  type OperationId = nat

  datatype Pc =
    | SubscribeCheck(reg: Registration)
    | RegisterStart(reg: Registration)
    | RegisterTopics(reg: Registration)
    | RegisterMiddle(reg: Registration)
    | RegisterConns(reg: Registration)
    | DeregisterStart(c: ConnectionId, s: SubId)
    | DeregisterConns(c: ConnectionId, s: SubId)
    | DeregisterMiddle(c: ConnectionId, s: SubId, t: Topic)
    | DeregisterTopics(c: ConnectionId, s: SubId, t: Topic)
    | CloseStart(c: ConnectionId)
    | CloseConns(c: ConnectionId)
    | CloseMiddle(c: ConnectionId, list: seq<(SubId, Topic)>)
    | CloseTopics(c: ConnectionId, list: seq<(SubId, Topic)>)

  datatype State = State(
    topics: Topics,
    conns: Connections,
    inFlight: map<OperationId, Pc>,
    topicsLock: Option<OperationId>,
    connsLock: Option<OperationId>)

  datatype Event = Spawn(id: OperationId, start: Pc) | Advance(id: OperationId)

  // ---------------------------------------------------------------- locks

  predicate HasTopicsLock(pc: Pc) { pc.RegisterTopics? || pc.DeregisterTopics? || pc.CloseTopics? }

  predicate HasConnsLock(pc: Pc) {
    pc.RegisterConns? || pc.DeregisterConns? || pc.CloseConns? || pc.CloseMiddle? || pc.CloseTopics?
  }

  predicate AwaitsTopicsLock(pc: Pc) { pc.RegisterStart? || pc.DeregisterMiddle? || pc.CloseMiddle? }

  /** The check reads under a shared lock, which a writer's lock excludes. */
  predicate AwaitsConnsLock(pc: Pc) {
    pc.SubscribeCheck? || pc.RegisterMiddle? || pc.DeregisterStart? || pc.CloseStart?
  }

  predicate Enabled(st: State, id: OperationId) {
    && id in st.inFlight
    && (AwaitsTopicsLock(st.inFlight[id]) ==> st.topicsLock.None?)
    && (AwaitsConnsLock(st.inFlight[id]) ==> st.connsLock.None?)
  }

  // ---------------------------------------------------------------- steps

  /** What an operation does to the two maps in its next step, and where it is afterwards. */
  datatype Move = Move(topics: Topics, conns: Connections, next: Option<Pc>)

  function MoveOf(topics: Topics, conns: Connections, pc: Pc): Move {
    match pc
    case SubscribeCheck(r) =>
      Move(topics, conns, if TopicOf(Subscriptions(conns, r.connId), r.subId).Some? then None else Some(RegisterStart(r)))
    case RegisterStart(r) => Move(topics, conns, Some(RegisterTopics(r)))
    case RegisterTopics(r) => Move(AddToTopic(topics, r), conns, Some(RegisterMiddle(r)))
    case RegisterMiddle(r) => Move(topics, conns, Some(RegisterConns(r)))
    case RegisterConns(r) => Move(topics, AddToConnection(conns, r.connId, r.subId, r.topic), None)
    case DeregisterStart(c, s) => Move(topics, conns, Some(DeregisterConns(c, s)))
    case DeregisterConns(c, s) =>
      var target := TopicOf(Subscriptions(conns, c), s);
      Move(topics, RemoveFromConnection(conns, c, s),
           if target.Some? then Some(DeregisterMiddle(c, s, target.value)) else None)
    case DeregisterMiddle(c, s, t) => Move(topics, conns, Some(DeregisterTopics(c, s, t)))
    case DeregisterTopics(c, s, t) => Move(RemoveFromTopic(topics, c, s, t), conns, None)
    case CloseStart(c) => Move(topics, conns, Some(CloseConns(c)))
    case CloseConns(c) =>
      Move(topics, conns - {c}, if c in conns then Some(CloseMiddle(c, conns[c])) else None)
    case CloseMiddle(c, list) => Move(topics, conns, Some(CloseTopics(c, list)))
    case CloseTopics(c, list) =>
      if list == [] then Move(topics, conns, None)
      else Move(RemoveFromTopic(topics, c, list[0].0, list[0].1), conns, Some(CloseTopics(c, list[1..])))
  }

  function LockAfter(lock: Option<OperationId>, id: OperationId, had: bool, has: bool): Option<OperationId> {
    if !had && has then Some(id) else if had && !has then None else lock
  }

  predicate Touches(pc: Pc, c: ConnectionId, s: SubId) {
    match pc
    case SubscribeCheck(r) => r.connId == c && r.subId == s
    case RegisterStart(r) => r.connId == c && r.subId == s
    case RegisterTopics(r) => r.connId == c && r.subId == s
    case RegisterMiddle(r) => r.connId == c && r.subId == s
    case RegisterConns(r) => r.connId == c && r.subId == s
    case DeregisterStart(c', s') => c' == c && s' == s
    case DeregisterConns(c', s') => c' == c && s' == s
    case DeregisterMiddle(c', s', _) => c' == c && s' == s
    case DeregisterTopics(c', s', _) => c' == c && s' == s
    case CloseStart(c') => c' == c
    case CloseConns(c') => c' == c
    case CloseMiddle(c', _) => c' == c
    case CloseTopics(c', _) => c' == c
  }

  ghost predicate Apart(p: Pc, q: Pc) { forall c, s :: !(Touches(p, c, s) && Touches(q, c, s)) }

  predicate IsSubscribe(pc: Pc) {
    pc.SubscribeCheck? || pc.RegisterStart? || pc.RegisterTopics? || pc.RegisterMiddle? || pc.RegisterConns?
  }

  /** A subscribe has its (connection, subscription id) to itself. */
  ghost predicate Disciplined(p: Pc, q: Pc) { IsSubscribe(p) || IsSubscribe(q) ==> Apart(p, q) }

  predicate Starts(pc: Pc) { pc.SubscribeCheck? || pc.DeregisterStart? || pc.CloseStart? }

  ghost function Step(st: State, e: Event): State {
    match e
    case Spawn(id, pc) =>
      if id !in st.inFlight && Starts(pc) && (forall other :: other in st.inFlight ==> Disciplined(pc, st.inFlight[other]))
      then st.(inFlight := st.inFlight[id := pc]) else st
    case Advance(id) =>
      if !Enabled(st, id) then st
      else
        var pc := st.inFlight[id];
        var m := MoveOf(st.topics, st.conns, pc);
        State(m.topics, m.conns,
              if m.next.Some? then st.inFlight[id := m.next.value] else st.inFlight - {id},
              LockAfter(st.topicsLock, id, HasTopicsLock(pc), m.next.Some? && HasTopicsLock(m.next.value)),
              LockAfter(st.connsLock, id, HasConnsLock(pc), m.next.Some? && HasConnsLock(m.next.value)))
  }

  ghost function Run(events: seq<Event>): State {
    if events == [] then State(map[], map[], map[], None, None)
    else Step(Run(events[..|events| - 1]), events[|events| - 1])
  }

  // ---------------------------------------------------------------- the invariant

  /** The entry is in `topics` only because the operation has not finished. */
  predicate Owes(pc: Pc, c: ConnectionId, s: SubId, t: Topic) {
    match pc
    case RegisterMiddle(r) => r.connId == c && r.subId == s && r.topic == t
    case RegisterConns(r) => r.connId == c && r.subId == s && r.topic == t
    case DeregisterMiddle(c', s', t') => c' == c && s' == s && t' == t
    case DeregisterTopics(c', s', t') => c' == c && s' == s && t' == t
    case CloseMiddle(c', list) => c' == c && (s, t) in list
    case CloseTopics(c', list) => c' == c && (s, t) in list
    case _ => false
  }

  ghost predicate Owed(inFlight: map<OperationId, Pc>, c: ConnectionId, s: SubId, t: Topic) {
    exists id :: id in inFlight && Owes(inFlight[id], c, s, t)
  }

  /** Where an operation is between the check and the end, nothing it touches is held. */
  predicate FoundNothingHeld(pc: Pc) { !Starts(pc) && !pc.DeregisterConns? && !pc.CloseConns? }

  /** What an operation at `pc` knows of the entries it touches. */
  ghost predicate Settled(topics: Topics, conns: Connections, pc: Pc) {
    && (pc.CloseMiddle? || pc.CloseTopics? ==> OneTopicEach(pc.list))
    && (forall c, s, t :: Touches(pc, c, s) && FoundNothingHeld(pc) ==> !Held(conns, c, s, t))
  }

  ghost predicate Balanced(st: State) {
    forall c, s, t :: Registered(st.topics, c, s, t) <==> Held(st.conns, c, s, t) || Owed(st.inFlight, c, s, t)
  }

  ghost predicate LocksOwned(st: State) {
    forall id :: (st.topicsLock == Some(id) <==> id in st.inFlight && HasTopicsLock(st.inFlight[id]))
              && (st.connsLock == Some(id) <==> id in st.inFlight && HasConnsLock(st.inFlight[id]))
  }

  ghost predicate Invariant(st: State) {
    && GoodTopics(st.topics) && GoodConnections(st.conns)
    && Balanced(st)
    && LocksOwned(st)
    && (forall id :: id in st.inFlight ==> Settled(st.topics, st.conns, st.inFlight[id]))
    && AllDisciplined(st.inFlight) && OwedOnce(st.inFlight)
  }

  ghost predicate AllDisciplined(inFlight: map<OperationId, Pc>) {
    forall id, other :: id in inFlight && other in inFlight && id != other ==> Disciplined(inFlight[id], inFlight[other])
  }

  /** No two operations owe the same entry. */
  ghost predicate OwedOnce(inFlight: map<OperationId, Pc>) {
    forall id, other, c, s, t :: id in inFlight && other in inFlight && id != other && Owes(inFlight[id], c, s, t) ==>
      !Owes(inFlight[other], c, s, t)
  }

  // ---------------------------------------------------------------- one operation's step

  ghost predicate OwedAt(pc: Option<Pc>, c: ConnectionId, s: SubId, t: Topic) { pc.Some? && Owes(pc.value, c, s, t) }

  /** Each entry is left as it was, passed between the connection and the operation, registered and then
      owed, or unregistered by the one that owed it. */
  ghost predicate Kept(topics: Topics, conns: Connections, pc: Pc, m: Move, c: ConnectionId, s: SubId, t: Topic) {
    var before, after := Held(conns, c, s, t) || Owes(pc, c, s, t), Held(m.conns, c, s, t) || OwedAt(m.next, c, s, t);
    || ((Registered(m.topics, c, s, t) <==> Registered(topics, c, s, t)) && (after <==> before))
    || (Registered(m.topics, c, s, t) && OwedAt(m.next, c, s, t))
    || (!Registered(m.topics, c, s, t) && Owes(pc, c, s, t) && !after)
  }

  /** Only a subscribe holds or owes what was not held before, and only what it touches. */
  ghost predicate NothingFromElsewhere(conns: Connections, pc: Pc, m: Move) {
    forall c, s, t ::
      (Held(m.conns, c, s, t) ==> Held(conns, c, s, t) || (IsSubscribe(pc) && Touches(pc, c, s))) &&
      (OwedAt(m.next, c, s, t) ==> Owes(pc, c, s, t) || Held(conns, c, s, t) || (IsSubscribe(pc) && Touches(pc, c, s)))
  }

  ghost predicate Narrows(pc: Pc, next: Option<Pc>) {
    next.Some? ==> (IsSubscribe(next.value) ==> IsSubscribe(pc)) && forall c, s :: Touches(next.value, c, s) ==> Touches(pc, c, s)
  }

  ghost predicate GoodMove(topics: Topics, conns: Connections, pc: Pc, m: Move) {
    && GoodTopics(m.topics) && GoodConnections(m.conns)
    && (forall c, s, t :: Kept(topics, conns, pc, m, c, s, t))
    && NothingFromElsewhere(conns, pc, m)
    && Narrows(pc, m.next)
    && (m.next.Some? ==> Settled(m.topics, m.conns, m.next.value))
  }

  ghost predicate Ready(topics: Topics, conns: Connections, pc: Pc) {
    GoodTopics(topics) && GoodConnections(conns) && Settled(topics, conns, pc)
  }

  lemma CheckMoves(topics: Topics, conns: Connections, r: Registration)
    requires Ready(topics, conns, SubscribeCheck(r))
    ensures GoodMove(topics, conns, SubscribeCheck(r), MoveOf(topics, conns, SubscribeCheck(r)))
  {
    RemoveFromConnectionSpec(conns, r.connId, r.subId);
  }

  lemma RegisterMoves(topics: Topics, conns: Connections, pc: Pc)
    requires pc.RegisterTopics? || pc.RegisterConns?
    requires Ready(topics, conns, pc)
    ensures GoodMove(topics, conns, pc, MoveOf(topics, conns, pc))
  {
    if pc.RegisterTopics? {
      AddToTopicSpec(topics, pc.reg);
    } else {
      AddToConnectionSpec(conns, pc.reg.connId, pc.reg.subId, pc.reg.topic);
    }
  }

  lemma DeregisterMoves(topics: Topics, conns: Connections, pc: Pc)
    requires pc.DeregisterConns? || pc.DeregisterTopics?
    requires Ready(topics, conns, pc)
    ensures GoodMove(topics, conns, pc, MoveOf(topics, conns, pc))
  {
    if pc.DeregisterConns? {
      RemoveFromConnectionSpec(conns, pc.c, pc.s);
    } else {
      RemoveFromTopicSpec(topics, pc.c, pc.s, pc.t);
    }
  }

  lemma CloseConnsMoves(topics: Topics, conns: Connections, c: ConnectionId)
    requires Ready(topics, conns, CloseConns(c))
    ensures GoodMove(topics, conns, CloseConns(c), MoveOf(topics, conns, CloseConns(c)))
  {
    assert forall c', s, t :: Held(conns - {c}, c', s, t) <==> Held(conns, c', s, t) && c' != c;
    if c in conns {
      assert forall s, t :: Held(conns, c, s, t) <==> Owes(CloseMiddle(c, conns[c]), c, s, t);
    }
  }

  lemma CloseTopicsMoves(topics: Topics, conns: Connections, c: ConnectionId, list: seq<(SubId, Topic)>)
    requires Ready(topics, conns, CloseTopics(c, list))
    ensures GoodMove(topics, conns, CloseTopics(c, list), MoveOf(topics, conns, CloseTopics(c, list)))
  {
    if list != [] {
      RemoveFromTopicSpec(topics, c, list[0].0, list[0].1);
      FirstIsOnlyThere(list);
    }
  }

  lemma FirstIsOnlyThere(list: seq<(SubId, Topic)>)
    requires OneTopicEach(list) && list != []
    ensures OneTopicEach(list[1..])
    ensures forall x :: x in list[1..] <==> x in list && x != list[0]
  {
    assert list == [list[0]] + list[1..];
    assert forall i :: 0 <= i < |list[1..]| ==> list[1..][i] == list[i + 1];
  }

  /** The steps that only take a lock. */
  lemma LockingMoves(topics: Topics, conns: Connections, pc: Pc)
    requires (AwaitsTopicsLock(pc) || AwaitsConnsLock(pc)) && !pc.SubscribeCheck?
    requires Ready(topics, conns, pc)
    ensures GoodMove(topics, conns, pc, MoveOf(topics, conns, pc))
  {
    var m := MoveOf(topics, conns, pc);
    assert m.topics == topics && m.conns == conns && m.next.Some?;
    assert forall c, s, t :: OwedAt(m.next, c, s, t) <==> Owes(pc, c, s, t);
  }

  lemma MovesAreGood(topics: Topics, conns: Connections, pc: Pc)
    requires Ready(topics, conns, pc)
    ensures GoodMove(topics, conns, pc, MoveOf(topics, conns, pc))
  {
    match pc
    case SubscribeCheck(r) => CheckMoves(topics, conns, r);
    case RegisterTopics(_) => RegisterMoves(topics, conns, pc);
    case RegisterConns(_) => RegisterMoves(topics, conns, pc);
    case DeregisterConns(_, _) => DeregisterMoves(topics, conns, pc);
    case DeregisterTopics(_, _, _) => DeregisterMoves(topics, conns, pc);
    case CloseConns(c) => CloseConnsMoves(topics, conns, c);
    case CloseTopics(c, list) => CloseTopicsMoves(topics, conns, c, list);
    case _ => LockingMoves(topics, conns, pc);
  }

  lemma OwesWhatItTouches(pc: Pc, c: ConnectionId, s: SubId, t: Topic)
    ensures Owes(pc, c, s, t) ==> Touches(pc, c, s) && FoundNothingHeld(pc)
  {}

  ghost predicate OwedByOther(st: State, id: OperationId, c: ConnectionId, s: SubId, t: Topic) {
    exists other :: other in st.inFlight && other != id && Owes(st.inFlight[other], c, s, t)
  }

  lemma OthersStay(st: State, id: OperationId, other: OperationId)
    requires Enabled(st, id) && other != id
    ensures var after := Step(st, Advance(id)).inFlight;
            (other in after <==> other in st.inFlight) && (other in st.inFlight ==> after[other] == st.inFlight[other])
  {}

  /** What is owed before and after a step: by the stepping operation, or as ever by the others. */
  lemma OwedAround(st: State, id: OperationId, c: ConnectionId, s: SubId, t: Topic)
    requires Enabled(st, id)
    ensures Owed(st.inFlight, c, s, t) <==> Owes(st.inFlight[id], c, s, t) || OwedByOther(st, id, c, s, t)
    ensures Owed(Step(st, Advance(id)).inFlight, c, s, t) <==>
              OwedAt(MoveOf(st.topics, st.conns, st.inFlight[id]).next, c, s, t) || OwedByOther(st, id, c, s, t)
  {
    var next, after := MoveOf(st.topics, st.conns, st.inFlight[id]).next, Step(st, Advance(id)).inFlight;
    assert id in after <==> next.Some?;
    assert next.Some? ==> after[id] == next.value;
    forall other | other != id
      ensures other in after <==> other in st.inFlight
      ensures other in st.inFlight ==> after[other] == st.inFlight[other]
    {
      OthersStay(st, id, other);
    }
    if OwedByOther(st, id, c, s, t) {
      var other :| other in st.inFlight && other != id && Owes(st.inFlight[other], c, s, t);
      assert other in after && Owes(after[other], c, s, t);
    }
  }

  /** An entry that the stepping operation owes, or comes to owe, is owed by no other. */
  lemma NewDebtIsNew(st: State, id: OperationId, c: ConnectionId, s: SubId, t: Topic)
    requires Invariant(st) && Enabled(st, id)
    requires GoodMove(st.topics, st.conns, st.inFlight[id], MoveOf(st.topics, st.conns, st.inFlight[id]))
    requires Owes(st.inFlight[id], c, s, t) || OwedAt(MoveOf(st.topics, st.conns, st.inFlight[id]).next, c, s, t)
    ensures !OwedByOther(st, id, c, s, t)
  {
    var pc := st.inFlight[id];
    forall other | other in st.inFlight && other != id
      ensures !Owes(st.inFlight[other], c, s, t)
    {
      OwesWhatItTouches(st.inFlight[other], c, s, t);
      assert Settled(st.topics, st.conns, st.inFlight[other]);
      assert Disciplined(pc, st.inFlight[other]);
    }
  }

  lemma AdvanceBalanced(st: State, id: OperationId)
    requires Invariant(st) && Enabled(st, id)
    requires GoodMove(st.topics, st.conns, st.inFlight[id], MoveOf(st.topics, st.conns, st.inFlight[id]))
    ensures Balanced(Step(st, Advance(id)))
  {
    var st', pc, m := Step(st, Advance(id)), st.inFlight[id], MoveOf(st.topics, st.conns, st.inFlight[id]);
    forall c, s, t
      ensures Registered(st'.topics, c, s, t) <==> Held(st'.conns, c, s, t) || Owed(st'.inFlight, c, s, t)
    {
      assert Kept(st.topics, st.conns, pc, m, c, s, t);
      OwedAround(st, id, c, s, t);
      if Owes(pc, c, s, t) { NewDebtIsNew(st, id, c, s, t); }
    }
  }

  lemma AdvanceOwedOnce(st: State, id: OperationId)
    requires Invariant(st) && Enabled(st, id)
    requires GoodMove(st.topics, st.conns, st.inFlight[id], MoveOf(st.topics, st.conns, st.inFlight[id]))
    ensures OwedOnce(Step(st, Advance(id)).inFlight)
  {
    var after := Step(st, Advance(id)).inFlight;
    forall p, q, c, s, t | p in after && q in after && p != q && Owes(after[p], c, s, t)
      ensures !Owes(after[q], c, s, t)
    {
      OwedAtMostOnce(st, id, p, q, c, s, t);
    }
  }

  lemma OwedAtMostOnce(st: State, id: OperationId, p: OperationId, q: OperationId, c: ConnectionId, s: SubId, t: Topic)
    requires Invariant(st) && Enabled(st, id) && p != q
    requires GoodMove(st.topics, st.conns, st.inFlight[id], MoveOf(st.topics, st.conns, st.inFlight[id]))
    requires var after := Step(st, Advance(id)).inFlight; p in after && q in after && Owes(after[p], c, s, t)
    ensures !Owes(Step(st, Advance(id)).inFlight[q], c, s, t)
  {
    if p != id { OthersStay(st, id, p); }
    if q != id { OthersStay(st, id, q); }
    var next := MoveOf(st.topics, st.conns, st.inFlight[id]).next;
    if (p == id || q == id) && OwedAt(next, c, s, t) { NewDebtIsNew(st, id, c, s, t); }
  }

  /** An operation comes to own a lock only out of a state that awaits it. */
  lemma LocksAreAwaited(topics: Topics, conns: Connections, pc: Pc)
    ensures var next := MoveOf(topics, conns, pc).next;
            next.Some? ==>
              && (HasTopicsLock(next.value) && !HasTopicsLock(pc) ==> AwaitsTopicsLock(pc))
              && (HasConnsLock(next.value) && !HasConnsLock(pc) ==> AwaitsConnsLock(pc))
  {}

  lemma AdvanceKeepsLocks(st: State, id: OperationId)
    requires Invariant(st) && Enabled(st, id)
    ensures LocksOwned(Step(st, Advance(id)))
  {
    var pc := st.inFlight[id];
    LocksAreAwaited(st.topics, st.conns, pc);
    var st' := Step(st, Advance(id));
    assert LocksOwned(st);
    assert forall other :: other != id ==> (other in st'.inFlight <==> other in st.inFlight);
    assert forall other :: other != id && other in st.inFlight ==> st'.inFlight[other] == st.inFlight[other];
    var next := MoveOf(st.topics, st.conns, pc).next;
    assert id in st'.inFlight <==> next.Some?;
    assert next.Some? ==> st'.inFlight[id] == next.value;
    assert st.topicsLock.Some? ==> st.topicsLock.value in st.inFlight;
    OwnedAfter(st.inFlight, st'.inFlight, st.topicsLock, id, AwaitsTopicsLock(pc), HasTopicsLock);
    OwnedAfter(st.inFlight, st'.inFlight, st.connsLock, id, AwaitsConnsLock(pc), HasConnsLock);
  }

  ghost predicate OwnedBy(inFlight: map<OperationId, Pc>, lock: Option<OperationId>, has: Pc -> bool) {
    forall id :: lock == Some(id) <==> id in inFlight && has(inFlight[id])
  }

  lemma OwnedAfter(inFlight: map<OperationId, Pc>, inFlight': map<OperationId, Pc>, lock: Option<OperationId>, id: OperationId, awaited: bool, has: Pc -> bool)
    requires OwnedBy(inFlight, lock, has) && id in inFlight
    requires forall other :: other != id ==> (other in inFlight' <==> other in inFlight)
    requires forall other :: other != id && other in inFlight ==> inFlight'[other] == inFlight[other]
    requires awaited ==> lock.None?
    requires id in inFlight' && has(inFlight'[id]) && !has(inFlight[id]) ==> awaited
    ensures OwnedBy(inFlight', LockAfter(lock, id, has(inFlight[id]), id in inFlight' && has(inFlight'[id])), has)
  {}

  lemma AdvanceSettled(st: State, id: OperationId, other: OperationId)
    requires Invariant(st) && Enabled(st, id)
    requires GoodMove(st.topics, st.conns, st.inFlight[id], MoveOf(st.topics, st.conns, st.inFlight[id]))
    requires other in Step(st, Advance(id)).inFlight
    ensures var st' := Step(st, Advance(id)); Settled(st'.topics, st'.conns, st'.inFlight[other])
  {
    if other != id {
      OthersStay(st, id, other);
      assert Settled(st.topics, st.conns, st.inFlight[other]);
      assert Disciplined(st.inFlight[other], st.inFlight[id]);
    }
  }

  lemma AdvanceDisciplined(st: State, id: OperationId)
    requires Invariant(st) && Enabled(st, id)
    requires GoodMove(st.topics, st.conns, st.inFlight[id], MoveOf(st.topics, st.conns, st.inFlight[id]))
    ensures AllDisciplined(Step(st, Advance(id)).inFlight)
  {
    var after := Step(st, Advance(id)).inFlight;
    forall p, q | p in after && q in after && p != q
      ensures Disciplined(after[p], after[q])
    {
      assert Disciplined(st.inFlight[p], st.inFlight[q]);
    }
  }

  lemma StepKeepsInvariant(st: State, e: Event)
    requires Invariant(st)
    ensures Invariant(Step(st, e))
  {
    match e
    case Advance(id) =>
      if Enabled(st, id) {
        assert Settled(st.topics, st.conns, st.inFlight[id]);
        MovesAreGood(st.topics, st.conns, st.inFlight[id]);
        AdvanceBalanced(st, id);
        AdvanceKeepsLocks(st, id);
        AdvanceDisciplined(st, id);
        AdvanceOwedOnce(st, id);
        forall other | other in Step(st, e).inFlight
          ensures Settled(Step(st, e).topics, Step(st, e).conns, Step(st, e).inFlight[other])
        {
          AdvanceSettled(st, id, other);
        }
      }
    case Spawn(id, pc) =>
      var st' := Step(st, e);
      if st' != st {
        forall c, s, t
          ensures Owed(st'.inFlight, c, s, t) <==> Owed(st.inFlight, c, s, t)
        {
          if w :| w in st.inFlight && Owes(st.inFlight[w], c, s, t) { assert st'.inFlight[w] == st.inFlight[w]; }
        }
      }
  }

  // ---------------------------------------------------------------- whole runs

  lemma {:induction false} AlwaysInvariant(events: seq<Event>)
    ensures Invariant(Run(events))
  {
    if events != [] {
      AlwaysInvariant(events[..|events| - 1]);
      StepKeepsInvariant(Run(events[..|events| - 1]), events[|events| - 1]);
    }
  }

  ghost predicate IsRegistrationOf(subs: seq<Registration>, i: int, c: ConnectionId, s: SubId) {
    0 <= i < |subs| && subs[i].connId == c && subs[i].subId == s
  }

  ghost predicate OnlyRegistration(subs: seq<Registration>, i: int, c: ConnectionId, s: SubId) {
    forall j :: IsRegistrationOf(subs, j, c, s) ==> j == i
  }

  /** At every moment of every run: a held subscription has exactly one registration under its topic,
      and every other registration belongs to an operation still in flight. */
  lemma HeldIsRegisteredOnce(events: seq<Event>, c: ConnectionId, s: SubId, t: Topic)
    requires Held(Run(events).conns, c, s, t)
    ensures var topics := Run(events).topics;
            t in topics &&
            (exists i :: IsRegistrationOf(topics[t], i, c, s) && OnlyRegistration(topics[t], i, c, s))
  {
    AlwaysInvariant(events);
    var topics := Run(events).topics;
    assert Registered(topics, c, s, t);
    var i :| 0 <= i < |topics[t]| && topics[t][i].connId == c && topics[t][i].subId == s;
    assert IsRegistrationOf(topics[t], i, c, s);
  }

  lemma SurplusIsInFlight(events: seq<Event>, c: ConnectionId, s: SubId, t: Topic)
    ensures var st := Run(events);
            Registered(st.topics, c, s, t) && !Held(st.conns, c, s, t) <==> Owed(st.inFlight, c, s, t)
  {
    AlwaysInvariant(events);
    var st := Run(events);
    if id :| id in st.inFlight && Owes(st.inFlight[id], c, s, t) {
      OwesWhatItTouches(st.inFlight[id], c, s, t);
    }
  }

  /** Once nothing is in flight the two indexes are inverse relations again. */
  lemma QuiescentIndexesAgree(events: seq<Event>)
    requires Run(events).inFlight == map[]
    ensures Agree(Run(events).topics, Run(events).conns)
  {
    AlwaysInvariant(events);
  }

  /** An operation past its check holds a promise no other operation can break: the id is still free. */
  lemma RegisterMeetsNoHeldId(events: seq<Event>, id: OperationId, t: Topic)
    requires id in Run(events).inFlight
    requires var pc := Run(events).inFlight[id]; pc.RegisterStart? || pc.RegisterTopics? || pc.RegisterMiddle? || pc.RegisterConns?
    ensures var st := Run(events); !Held(st.conns, st.inFlight[id].reg.connId, st.inFlight[id].reg.subId, t)
  {
    AlwaysInvariant(events);
    assert Settled(Run(events).topics, Run(events).conns, Run(events).inFlight[id]);
  }

  /** The locks cannot deadlock: while anything is in flight, some operation can take its next step. */
  lemma SomeOperationCanStep(events: seq<Event>)
    requires Run(events).inFlight != map[]
    ensures exists id :: Enabled(Run(events), id)
  {
    AlwaysInvariant(events);
    var st := Run(events);
    if st.topicsLock.Some? {
      assert Enabled(st, st.topicsLock.value);
    } else if st.connsLock.Some? {
      assert Enabled(st, st.connsLock.value);
    } else {
      var id :| id in st.inFlight;
      assert Enabled(st, id);
    }
  }

  function Phase(pc: Pc): nat {
    match pc
    case SubscribeCheck(_) => 5
    case RegisterStart(_) => 4
    case RegisterTopics(_) => 3
    case RegisterMiddle(_) => 2
    case RegisterConns(_) => 1
    case DeregisterStart(_, _) => 4
    case DeregisterConns(_, _) => 3
    case DeregisterMiddle(_, _, _) => 2
    case DeregisterTopics(_, _, _) => 1
    case CloseStart(_) => 4
    case CloseConns(_) => 3
    case CloseMiddle(_, _) => 2
    case CloseTopics(_, _) => 1
  }

  function Remaining(pc: Pc): nat { if pc.CloseTopics? then |pc.list| else 0 }

  /** Every enabled step ends its operation or brings it closer to its end, and moves no other operation. */
  lemma StepsDescend(st: State, id: OperationId)
    requires Enabled(st, id)
    ensures var st' := Step(st, Advance(id));
            && (id in st'.inFlight ==>
                  || Phase(st'.inFlight[id]) < Phase(st.inFlight[id])
                  || (Phase(st'.inFlight[id]) == Phase(st.inFlight[id]) && Remaining(st'.inFlight[id]) < Remaining(st.inFlight[id])))
            && (forall other :: other != id ==> (other in st'.inFlight <==> other in st.inFlight))
            && (forall other :: other != id && other in st.inFlight ==> st'.inFlight[other] == st.inFlight[other])
  {}

  // ---------------------------------------------------------------- one operation by itself

  ghost predicate AtRest(st: State) { st.inFlight == map[] && st.topicsLock.None? && st.connsLock.None? }

  ghost function Advanced(st: State, id: OperationId, n: nat): State
    decreases n
  {
    if n == 0 then st else Advanced(Step(st, Advance(id)), id, n - 1)
  }

  /** Alone in the hub an operation at `pc` takes its next step. */
  lemma AdvancesAlone(topics: Topics, conns: Connections, id: OperationId, pc: Pc, topicsLock: Option<OperationId>, connsLock: Option<OperationId>)
    requires (AwaitsTopicsLock(pc) ==> topicsLock.None?) && (AwaitsConnsLock(pc) ==> connsLock.None?)
    ensures var m := MoveOf(topics, conns, pc);
            Step(State(topics, conns, map[id := pc], topicsLock, connsLock), Advance(id)) ==
              State(m.topics, m.conns, if m.next.Some? then map[id := m.next.value] else map[],
                    LockAfter(topicsLock, id, HasTopicsLock(pc), m.next.Some? && HasTopicsLock(m.next.value)),
                    LockAfter(connsLock, id, HasConnsLock(pc), m.next.Some? && HasConnsLock(m.next.value)))
  {
    var st := State(topics, conns, map[id := pc], topicsLock, connsLock);
    assert id in st.inFlight;
    assert st.inFlight - {id} == map[];
  }

  lemma RegistersAlone(topics: Topics, conns: Connections, id: OperationId, r: Registration)
    ensures Advanced(State(topics, conns, map[id := RegisterStart(r)], None, None), id, 4) ==
              State(AddToTopic(topics, r), AddToConnection(conns, r.connId, r.subId, r.topic), map[], None, None)
  {
    var topics' := AddToTopic(topics, r);
    AdvancesAlone(topics, conns, id, RegisterStart(r), None, None);
    AdvancesAlone(topics, conns, id, RegisterTopics(r), Some(id), None);
    AdvancesAlone(topics', conns, id, RegisterMiddle(r), None, None);
    AdvancesAlone(topics', conns, id, RegisterConns(r), None, Some(id));
    assert Advanced(State(topics', conns, map[id := RegisterMiddle(r)], None, None), id, 2) ==
             State(topics', AddToConnection(conns, r.connId, r.subId, r.topic), map[], None, None);
  }

  /** Run by itself a checked subscribe is `register`. */
  lemma SubscribeAlone(st: State, id: OperationId, r: Registration)
    requires AtRest(st) && TopicOf(Subscriptions(st.conns, r.connId), r.subId).None?
    ensures Advanced(Step(st, Spawn(id, SubscribeCheck(r))), id, 5) ==
              State(AddToTopic(st.topics, r), AddToConnection(st.conns, r.connId, r.subId, r.topic), map[], None, None)
  {
    AdvancesAlone(st.topics, st.conns, id, SubscribeCheck(r), None, None);
    RegistersAlone(st.topics, st.conns, id, r);
  }

  lemma RemovesOneAlone(topics: Topics, conns: Connections, id: OperationId, c: ConnectionId, s: SubId, t: Topic)
    ensures Advanced(State(topics, conns, map[id := DeregisterMiddle(c, s, t)], None, None), id, 2) ==
              State(RemoveFromTopic(topics, c, s, t), conns, map[], None, None)
  {
    AdvancesAlone(topics, conns, id, DeregisterMiddle(c, s, t), None, None);
    AdvancesAlone(topics, conns, id, DeregisterTopics(c, s, t), Some(id), None);
  }

  /** Run by itself a removal is `deregister`. */
  lemma DeregisterAlone(st: State, id: OperationId, c: ConnectionId, s: SubId)
    requires AtRest(st)
    ensures var (topics, conns) := Deregistered(st.topics, st.conns, c, s);
            Advanced(Step(st, Spawn(id, DeregisterStart(c, s))), id, 4) == State(topics, conns, map[], None, None)
  {
    var conns' := RemoveFromConnection(st.conns, c, s);
    AdvancesAlone(st.topics, st.conns, id, DeregisterStart(c, s), None, None);
    AdvancesAlone(st.topics, st.conns, id, DeregisterConns(c, s), None, Some(id));
    var target := TopicOf(Subscriptions(st.conns, c), s);
    if target.Some? {
      RemovesOneAlone(st.topics, conns', id, c, s, target.value);
    } else {
      StaysAtRest(State(st.topics, conns', map[], None, None), id, 2);
    }
  }

  lemma {:induction false} RemoveListedFromHead(topics: Topics, c: ConnectionId, list: seq<(SubId, Topic)>)
    requires list != []
    ensures RemoveListed(topics, c, list) == RemoveListed(RemoveFromTopic(topics, c, list[0].0, list[0].1), c, list[1..])
  {
    var init, tail := list[..|list| - 1], list[1..];
    if |list| == 1 {
      assert init == [] && tail == [];
    } else {
      RemoveListedFromHead(topics, c, init);
      assert tail[..|tail| - 1] == init[1..] && tail[|tail| - 1] == list[|list| - 1];
    }
  }

  lemma {:induction false} RemovesAlone(topics: Topics, conns: Connections, id: OperationId, c: ConnectionId, list: seq<(SubId, Topic)>)
    ensures Advanced(State(topics, conns, map[id := CloseTopics(c, list)], Some(id), Some(id)), id, |list| + 1) ==
              State(RemoveListed(topics, c, list), conns, map[], None, None)
    decreases |list|
  {
    AdvancesAlone(topics, conns, id, CloseTopics(c, list), Some(id), Some(id));
    if list != [] {
      RemovesAlone(RemoveFromTopic(topics, c, list[0].0, list[0].1), conns, id, c, list[1..]);
      RemoveListedFromHead(topics, c, list);
    }
  }

  lemma ClosesHeld(topics: Topics, conns: Connections, id: OperationId, c: ConnectionId)
    requires c in conns
    ensures Advanced(State(topics, conns, map[id := CloseConns(c)], None, Some(id)), id, 3 + |conns[c]|) ==
              State(RemoveListed(topics, c, conns[c]), conns - {c}, map[], None, None)
  {
    var s1 := State(topics, conns, map[id := CloseConns(c)], None, Some(id));
    var s2 := State(topics, conns - {c}, map[id := CloseMiddle(c, conns[c])], None, Some(id));
    AdvancesAlone(topics, conns, id, CloseConns(c), None, Some(id));
    AdvancesAlone(topics, conns - {c}, id, CloseMiddle(c, conns[c]), None, Some(id));
    AdvancedOnce(s1, id, 2 + |conns[c]|);
    AdvancedOnce(s2, id, 1 + |conns[c]|);
    RemovesAlone(topics, conns - {c}, id, c, conns[c]);
  }

  lemma ClosesUnheld(topics: Topics, conns: Connections, id: OperationId, c: ConnectionId)
    requires c !in conns
    ensures Advanced(State(topics, conns, map[id := CloseConns(c)], None, Some(id)), id, 3) == State(topics, conns - {c}, map[], None, None)
  {
    AdvancesAlone(topics, conns, id, CloseConns(c), None, Some(id));
    AdvancedOnce(State(topics, conns, map[id := CloseConns(c)], None, Some(id)), id, 2);
    StaysAtRest(State(topics, conns - {c}, map[], None, None), id, 2);
  }

  /** Run by itself a closing is `deregister_connection`. */
  lemma CloseAlone(st: State, id: OperationId, c: ConnectionId)
    requires AtRest(st)
    ensures var (topics, conns) := Closed(st.topics, st.conns, c);
            Advanced(Step(st, Spawn(id, CloseStart(c))), id, 4 + |Subscriptions(st.conns, c)|) == State(topics, conns, map[], None, None)
  {
    AdvancesAlone(st.topics, st.conns, id, CloseStart(c), None, None);
    AdvancedOnce(State(st.topics, st.conns, map[id := CloseStart(c)], None, None), id, 3 + |Subscriptions(st.conns, c)|);
    if c in st.conns {
      ClosesHeld(st.topics, st.conns, id, c);
    } else {
      ClosesUnheld(st.topics, st.conns, id, c);
    }
  }

  lemma AdvancedOnce(st: State, id: OperationId, n: nat)
    ensures Advanced(st, id, n + 1) == Advanced(Step(st, Advance(id)), id, n)
  {}

  lemma {:induction false} StaysAtRest(st: State, id: OperationId, n: nat)
    requires AtRest(st)
    ensures Advanced(st, id, n) == st
    decreases n
  {
    if n > 0 { StaysAtRest(st, id, n - 1); }
  }
}
