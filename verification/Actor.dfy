/** The actor of one WebSocket connection (src/subscriptions/engine.rs:141-296), run against the
    shared hub while other connections use it. The messages of the client, the outcome of each write
    and what the other connections do to the hub arrive as a sequence of events. */
module Actor {
  import opened Wrappers
  import opened Hub

  const BAD_REQUEST: nat := 4400
  const UNAUTHORIZED: nat := 4401
  const SUBSCRIBER_ALREADY_EXISTS: nat := 4409

  datatype Message =
    | ReadError
    | EndOfStream
    | CloseMessage
    | PingFrame
    | NotText
    | InvalidJson
    | ConnectionInit
    | ClientPing
    | ClientPong
    | Subscribe(id: SubId, derived: Option<(Topic, string)>)
    | Complete(completed: SubId)

  /** What another connection does to the hub; its own actor makes the check before `register`. */
  datatype HubUse =
    | OtherSubscribe(reg: Registration)
    | OtherComplete(c: ConnectionId, s: SubId)
    | OtherLeave(gone: ConnectionId)
    | Publish(topic: Topic, deliver: Registration -> Delivery)

  datatype Event =
    | Outgoing(serialized: bool, delivered: bool)
    | ChannelClosed
    | Tick(pinged: bool)
    | Incoming(message: Message)
    | Elsewhere(use: HubUse)

  datatype Frame =
    | Data
    | Ping
    | PongControl
    | Pong
    | ConnectionAck
    | ErrorFor(id: SubId)
    | Close(code: nat)

  // ---------------------------------------------------------------- the actor as it runs on the hub

  datatype Session = Session(topics: Topics, conns: Connections, initialized: bool, open: bool, sent: seq<Frame>)

  function Used(topics: Topics, conns: Connections, use: HubUse): (Topics, Connections) {
    match use
    case OtherSubscribe(r) =>
      if TopicOf(Subscriptions(conns, r.connId), r.subId).Some? then Closed(topics, conns, r.connId)
      else (AddToTopic(topics, r), AddToConnection(conns, r.connId, r.subId, r.topic))
    case OtherComplete(c, s) => Deregistered(topics, conns, c, s)
    case OtherLeave(c) => Closed(topics, conns, c)
    case Publish(topic, deliver) => DeregisteredAll(topics, conns, Gone(Subscribers(topics, topic), deliver))
  }

  function Received(me: ConnectionId, st: Session, m: Message): Session {
    match m
    case ReadError => st.(open := false)
    case EndOfStream => st.(open := false)
    case CloseMessage => st.(open := false)
    case PingFrame => st.(sent := st.sent + [PongControl])
    case NotText => st
    case InvalidJson => st.(open := false, sent := st.sent + [Close(BAD_REQUEST)])
    case ConnectionInit => st.(initialized := true, sent := st.sent + [ConnectionAck])
    case ClientPing => st.(sent := st.sent + [Pong])
    case ClientPong => st
    case Subscribe(id, derived) =>
      if !st.initialized then st.(open := false, sent := st.sent + [Close(UNAUTHORIZED)])
      else if TopicOf(Subscriptions(st.conns, me), id).Some? then
        st.(open := false, sent := st.sent + [Close(SUBSCRIBER_ALREADY_EXISTS)])
      else if derived.None? then st.(sent := st.sent + [ErrorFor(id)])
      else
        var r := Registration(me, id, derived.value.0, derived.value.1);
        st.(topics := AddToTopic(st.topics, r), conns := AddToConnection(st.conns, me, id, r.topic))
    case Complete(id) =>
      var (topics, conns) := Deregistered(st.topics, st.conns, me, id);
      st.(topics := topics, conns := conns)
  }

  function Reacted(me: ConnectionId, st: Session, e: Event): Session {
    if !st.open then st
    else match e
      case Outgoing(serialized, delivered) =>
        if !serialized then st else st.(open := delivered, sent := st.sent + [Data])
      case ChannelClosed => st.(open := false)
      case Tick(pinged) => st.(open := pinged, sent := st.sent + [Ping])
      case Incoming(m) => Received(me, st, m)
      case Elsewhere(use) =>
        var (topics, conns) := Used(st.topics, st.conns, use);
        st.(topics := topics, conns := conns)
  }

  function Played(me: ConnectionId, start: Session, events: seq<Event>): Session {
    if events == [] then start
    else Reacted(me, Played(me, start, events[..|events| - 1]), events[|events| - 1])
  }

  // ---------------------------------------------------------------- the protocol, without any hub

  /** What the client is owed by its own messages alone. */
  datatype Client = Client(initialized: bool, active: map<SubId, Topic>, open: bool, sent: seq<Frame>)

  function Protocol(cl: Client, e: Event): Client {
    if !cl.open then cl
    else match e
      case Outgoing(serialized, delivered) =>
        if !serialized then cl else cl.(open := delivered, sent := cl.sent + [Data])
      case ChannelClosed => cl.(open := false)
      case Tick(pinged) => cl.(open := pinged, sent := cl.sent + [Ping])
      case Elsewhere(_) => cl
      case Incoming(ReadError) => cl.(open := false)
      case Incoming(EndOfStream) => cl.(open := false)
      case Incoming(CloseMessage) => cl.(open := false)
      case Incoming(PingFrame) => cl.(sent := cl.sent + [PongControl])
      case Incoming(NotText) => cl
      case Incoming(InvalidJson) => cl.(open := false, sent := cl.sent + [Close(BAD_REQUEST)])
      case Incoming(ConnectionInit) => cl.(initialized := true, sent := cl.sent + [ConnectionAck])
      case Incoming(ClientPing) => cl.(sent := cl.sent + [Pong])
      case Incoming(ClientPong) => cl
      case Incoming(Subscribe(id, derived)) =>
        if !cl.initialized then cl.(open := false, sent := cl.sent + [Close(UNAUTHORIZED)])
        else if id in cl.active then cl.(open := false, sent := cl.sent + [Close(SUBSCRIBER_ALREADY_EXISTS)])
        else if derived.None? then cl.(sent := cl.sent + [ErrorFor(id)])
        else cl.(active := cl.active[id := derived.value.0])
      case Incoming(Complete(id)) => cl.(active := cl.active - {id})
  }

  function Owing(events: seq<Event>): Client {
    if events == [] then Client(false, map[], true, [])
    else Protocol(Owing(events[..|events| - 1]), events[|events| - 1])
  }

  // ---------------------------------------------------------------- one event

  /** The others act for other connections, and this connection's receiver outlives its actor. */
  ghost predicate ByOthers(me: ConnectionId, use: HubUse) {
    match use
    case OtherSubscribe(r) => r.connId != me
    case OtherComplete(c, _) => c != me
    case OtherLeave(c) => c != me
    case Publish(_, deliver) => forall r: Registration :: r.connId == me ==> !deliver(r).ReceiverGone?
  }

  ghost predicate OthersAreOthers(me: ConnectionId, events: seq<Event>) {
    forall i :: 0 <= i < |events| && events[i].Elsewhere? ==> ByOthers(me, events[i].use)
  }

  ghost predicate Matches(me: ConnectionId, st: Session, cl: Client) {
    && Agree(st.topics, st.conns)
    && st.initialized == cl.initialized && st.open == cl.open && st.sent == cl.sent
    && (forall s, t :: Held(st.conns, me, s, t) <==> s in cl.active && cl.active[s] == t)
  }

  lemma FoundIff(conns: Connections, c: ConnectionId, s: SubId)
    ensures TopicOf(Subscriptions(conns, c), s).Some? <==> exists t :: Held(conns, c, s, t)
  {
    FoundInList(Subscriptions(conns, c), s);
    assert forall t :: Held(conns, c, s, t) <==> (s, t) in Subscriptions(conns, c);
  }

  lemma {:induction false} FoundInList(list: seq<(SubId, Topic)>, s: SubId)
    ensures TopicOf(list, s).Some? <==> exists t :: (s, t) in list
  {
    if list != [] {
      assert list == [list[0]] + list[1..];
      FoundInList(list[1..], s);
      if list[0].0 == s { assert (s, list[0].1) in list; }
    }
  }

  lemma RegisterKeepsAgreement(topics: Topics, conns: Connections, r: Registration)
    requires Agree(topics, conns) && TopicOf(Subscriptions(conns, r.connId), r.subId).None?
    ensures Agree(AddToTopic(topics, r), AddToConnection(conns, r.connId, r.subId, r.topic))
    ensures forall c, s, t :: Held(AddToConnection(conns, r.connId, r.subId, r.topic), c, s, t) <==>
              Held(conns, c, s, t) || (c == r.connId && s == r.subId && t == r.topic)
  {
    FoundIff(conns, r.connId, r.subId);
    RegisterAgreesIff(topics, conns, r);
    AddToConnectionSpec(conns, r.connId, r.subId, r.topic);
  }

  /** Other connections keep the indexes in agreement and leave this connection's entries alone. */
  lemma UseKeepsMine(me: ConnectionId, topics: Topics, conns: Connections, use: HubUse)
    requires Agree(topics, conns) && ByOthers(me, use)
    ensures var (topics', conns') := Used(topics, conns, use);
            && Agree(topics', conns')
            && (forall s, t :: Held(conns', me, s, t) <==> Held(conns, me, s, t))
  {
    match use
    case OtherSubscribe(r) =>
      if TopicOf(Subscriptions(conns, r.connId), r.subId).Some? {
        CloseSpec(topics, conns, r.connId);
      } else {
        RegisterKeepsAgreement(topics, conns, r);
      }
    case OtherComplete(c, s) => DeregisterSpec(topics, conns, c, s);
    case OtherLeave(c) => CloseSpec(topics, conns, c);
    case Publish(topic, deliver) => BroadcastSpec(topics, conns, topic, deliver);
  }

  lemma ReceivedMatches(me: ConnectionId, st: Session, cl: Client, m: Message)
    requires Matches(me, st, cl) && st.open
    ensures Matches(me, Received(me, st, m), Protocol(cl, Incoming(m)))
  {
    match m
    case Subscribe(id, derived) =>
      FoundIff(st.conns, me, id);
      if id in cl.active { assert Held(st.conns, me, id, cl.active[id]); }
      if st.initialized && id !in cl.active && derived.Some? {
        RegisterKeepsAgreement(st.topics, st.conns, Registration(me, id, derived.value.0, derived.value.1));
      }
    case Complete(id) => DeregisterSpec(st.topics, st.conns, me, id);
    case _ =>
  }

  lemma ReactedMatches(me: ConnectionId, st: Session, cl: Client, e: Event)
    requires Matches(me, st, cl)
    requires e.Elsewhere? ==> ByOthers(me, e.use)
    ensures Matches(me, Reacted(me, st, e), Protocol(cl, e))
  {
    if st.open {
      match e
      case Incoming(m) => ReceivedMatches(me, st, cl, m);
      case Elsewhere(use) => UseKeepsMine(me, st.topics, st.conns, use);
      case _ =>
    }
  }

  // ---------------------------------------------------------------- whole runs

  ghost predicate FreshStart(me: ConnectionId, st: Session) {
    Agree(st.topics, st.conns) && !st.initialized && st.open && st.sent == [] && forall s, t :: !Held(st.conns, me, s, t)
  }

  /** Whatever the other connections do to the hub meanwhile, what the client is sent, when it is cut
      off and what the hub holds for it follow from its own messages; the two indexes always agree. */
  lemma {:induction false} ActorFollowsProtocol(me: ConnectionId, start: Session, events: seq<Event>)
    requires FreshStart(me, start) && OthersAreOthers(me, events)
    ensures Matches(me, Played(me, start, events), Owing(events))
  {
    if events != [] {
      var n := |events| - 1;
      ActorFollowsProtocol(me, start, events[..n]);
      ReactedMatches(me, Played(me, start, events[..n]), Owing(events[..n]), events[n]);
    }
  }

  /** The run is initialised exactly when the client sent `connection_init`. */
  lemma {:induction false} InitializedIff(events: seq<Event>)
    requires Owing(events).open
    ensures Owing(events).initialized <==> exists i :: 0 <= i < |events| && events[i] == Incoming(ConnectionInit)
  {
    if events != [] {
      var n := |events| - 1;
      InitializedIff(events[..n]);
      if i :| 0 <= i < |events| && events[i] == Incoming(ConnectionInit) {
        assert i == n || events[..n][i] == events[i];
      }
    }
  }

  lemma {:induction false} StaysClosed(events: seq<Event>, k: nat)
    requires k <= |events| && !Owing(events[..k]).open
    ensures Owing(events) == Owing(events[..k])
  {
    if k < |events| {
      var n := |events| - 1;
      assert events[..n][..k] == events[..k];
      StaysClosed(events[..n], k);
    } else {
      assert events[..k] == events;
    }
  }

  ghost predicate InitBefore(events: seq<Event>, k: nat) {
    exists i :: 0 <= i < k && i < |events| && events[i] == Incoming(ConnectionInit)
  }

  /** A subscription asked for before `connection_init` ends the run with 4401, on any hub. */
  lemma SubscribeBeforeInitIsRefused(me: ConnectionId, start: Session, events: seq<Event>, k: nat, id: SubId, derived: Option<(Topic, string)>)
    requires FreshStart(me, start) && OthersAreOthers(me, events)
    requires k < |events| && events[k] == Incoming(Subscribe(id, derived)) && !InitBefore(events, k)
    requires Played(me, start, events[..k]).open
    ensures var st := Played(me, start, events);
            && !st.open
            && st.sent == Played(me, start, events[..k]).sent + [Close(4401)]
            && forall s, t :: !Held(st.conns, me, s, t)
  {
    ActorFollowsProtocol(me, start, events);
    ActorFollowsProtocol(me, start, events[..k]);
    InitializedIff(events[..k]);
    assert events[..k + 1][..k] == events[..k];
    StaysClosed(events, k + 1);
    NothingBeforeInit(events[..k]);
  }

  lemma {:induction false} NothingBeforeInit(events: seq<Event>)
    ensures !Owing(events).initialized ==> Owing(events).active == map[]
  {
    if events != [] { NothingBeforeInit(events[..|events| - 1]); }
  }

  /** A second subscription under an id that is still active ends the run with 4409, exactly then. */
  lemma DuplicateIsRefusedIff(me: ConnectionId, start: Session, events: seq<Event>, id: SubId, derived: Option<(Topic, string)>)
    requires FreshStart(me, start) && OthersAreOthers(me, events)
    requires Played(me, start, events).open && Owing(events).initialized
    ensures var st := Played(me, start, events + [Incoming(Subscribe(id, derived))]);
            !st.open <==> id in Owing(events).active
    ensures var st := Played(me, start, events + [Incoming(Subscribe(id, derived))]);
            !st.open <==> st.sent == Played(me, start, events).sent + [Close(4409)]
  {
    ActorFollowsProtocol(me, start, events);
    var e := Incoming(Subscribe(id, derived));
    assert (events + [e])[..|events|] == events;
    ReactedMatches(me, Played(me, start, events), Owing(events), e);
    var before := Played(me, start, events).sent;
    assert (before + [ErrorFor(id)])[|before|] != (before + [Close(SUBSCRIBER_ALREADY_EXISTS)])[|before|];
    assert |before| != |before + [Close(SUBSCRIBER_ALREADY_EXISTS)]|;
  }

  /** The subscription at `i` is the latest word on its id. */
  ghost predicate LatestFor(events: seq<Event>, i: nat, id: SubId, topic: Topic) {
    && i < |events| && events[i].Incoming? && events[i].message.Subscribe?
    && events[i].message.id == id && events[i].message.derived.Some? && events[i].message.derived.value.0 == topic
    && (forall j :: i < j < |events| ==> events[j] != Incoming(Complete(id)))
  }

  /** On a connection that is still open an id is active, under a topic, exactly when the client subscribed
      to it, that topic was derived, and it has not been completed since. */
  lemma {:induction false} ActiveIff(events: seq<Event>, id: SubId, topic: Topic)
    requires Owing(events).open
    ensures id in Owing(events).active && Owing(events).active[id] == topic <==> exists i: nat :: LatestFor(events, i, id, topic)
  {
    if events != [] {
      var n := |events| - 1;
      var init, e := events[..n], events[n];
      ActiveIff(init, id, topic);
      if i: nat :| LatestFor(init, i, id, topic) && e != Incoming(Complete(id)) {
        assert LatestFor(events, i, id, topic);
      }
      if i: nat :| LatestFor(events, i, id, topic) {
        if i < n { assert LatestFor(init, i, id, topic); }
      }
      if id in Owing(events).active && Owing(events).active[id] == topic && !(id in Owing(init).active && Owing(init).active[id] == topic) {
        ProtocolAdds(Owing(init), e, id, topic);
        assert LatestFor(events, n, id, topic);
      }
    }
  }

  /** What an event makes the connection write while it stays open. */
  function ReplyTo(e: Event): seq<Frame> {
    match e
    case Outgoing(serialized, _) => if serialized then [Data] else []
    case Tick(_) => [Ping]
    case Incoming(PingFrame) => [PongControl]
    case Incoming(ConnectionInit) => [ConnectionAck]
    case Incoming(ClientPing) => [Pong]
    case Incoming(Subscribe(id, None)) => [ErrorFor(id)]
    case _ => []
  }

  function RepliesTo(events: seq<Event>): seq<Frame> {
    if events == [] then [] else RepliesTo(events[..|events| - 1]) + ReplyTo(events[|events| - 1])
  }

  lemma EventIsAnswered(cl: Client, e: Event)
    requires Protocol(cl, e).open
    ensures cl.open && Protocol(cl, e).sent == cl.sent + ReplyTo(e)
  {
    assert cl.sent + [] == cl.sent;
  }

  /** Everything an open connection has been sent, in order: an acknowledgement for each
      `connection_init`, a pong for each ping, an error for each subscription without a topic, the
      messages of the hub and the heartbeats. */
  lemma {:induction false} OpenIsAnswered(events: seq<Event>)
    requires Owing(events).open
    ensures Owing(events).sent == RepliesTo(events)
  {
    if events != [] {
      OpenIsAnswered(events[..|events| - 1]);
      EventIsAnswered(Owing(events[..|events| - 1]), events[|events| - 1]);
    }
  }

  /** What ends a connection. */
  lemma StaysOpenIff(events: seq<Event>, e: Event)
    requires Owing(events).open
    ensures Owing(events + [e]).open <==>
              match e
              case Outgoing(serialized, delivered) => serialized ==> delivered
              case ChannelClosed => false
              case Tick(pinged) => pinged
              case Elsewhere(_) => true
              case Incoming(Subscribe(id, _)) => InitBefore(events, |events|) && id !in Owing(events).active
              case Incoming(m) => m != ReadError && m != EndOfStream && m != CloseMessage && m != InvalidJson
  {
    assert (events + [e])[..|events|] == events;
    InitializedIff(events);
  }

  /** A message that is not valid JSON is answered with 4400. */
  lemma InvalidJsonIsRefused(me: ConnectionId, start: Session, events: seq<Event>)
    requires Played(me, start, events).open
    ensures var st := Played(me, start, events + [Incoming(InvalidJson)]);
            !st.open && st.sent == Played(me, start, events).sent + [Close(4400)]
  {
    assert (events + [Incoming(InvalidJson)])[..|events|] == events;
  }

  lemma ProtocolAdds(cl: Client, e: Event, s: SubId, t: Topic)
    requires var after := Protocol(cl, e).active; s in after && after[s] == t
    requires !(s in cl.active && cl.active[s] == t)
    ensures cl.open && cl.initialized && s !in cl.active
    ensures e.Incoming? && e.message.Subscribe? && e.message.id == s && e.message.derived.Some? && e.message.derived.value.0 == t
  {}

  /** What is registered is the connection, the client's id, the derived topic and its root field. */
  lemma RegisteredWhole(me: ConnectionId, st: Session, id: SubId, topic: Topic, rootField: string)
    requires Agree(st.topics, st.conns) && st.open && st.initialized && forall t :: !Held(st.conns, me, id, t)
    ensures var st' := Reacted(me, st, Incoming(Subscribe(id, Some((topic, rootField)))));
            topic in st'.topics && Registration(me, id, topic, rootField) in st'.topics[topic] && Held(st'.conns, me, id, topic)
  {
    FoundIff(st.conns, me, id);
    RegisteredAsGiven(st.topics, Registration(me, id, topic, rootField));
    AddToConnectionSpec(st.conns, me, id, topic);
  }

  /** The hub takes an entry for the connection only from an initialised client's `subscribe`, and
      only under an id it does not hold under any topic. */
  lemma RegisteredOnlyAfterInitAndOnce(me: ConnectionId, start: Session, events: seq<Event>, e: Event, s: SubId, t: Topic)
    requires FreshStart(me, start) && OthersAreOthers(me, events + [e])
    requires Held(Played(me, start, events + [e]).conns, me, s, t) && !Held(Played(me, start, events).conns, me, s, t)
    ensures InitBefore(events, |events|)
    ensures e.Incoming? && e.message.Subscribe? && e.message.id == s && e.message.derived.Some? && e.message.derived.value.0 == t
    ensures forall t' :: !Held(Played(me, start, events).conns, me, s, t')
  {
    assert (events + [e])[..|events|] == events;
    assert OthersAreOthers(me, events) by {
      assert forall i :: 0 <= i < |events| ==> (events + [e])[i] == events[i];
    }
    ActorFollowsProtocol(me, start, events);
    ActorFollowsProtocol(me, start, events + [e]);
    assert Owing(events + [e]) == Protocol(Owing(events), e);
    ProtocolAdds(Owing(events), e, s, t);
    InitializedIff(events);
  }

  /** What the actor itself does to the hub, its clean-up included, concerns no other connection. */
  lemma OthersAreUntouched(me: ConnectionId, st: Session, e: Event)
    requires Agree(st.topics, st.conns) && !e.Elsewhere?
    ensures var st' := Reacted(me, st, e);
            && Agree(st'.topics, st'.conns)
            && (forall c, s, t :: c != me ==> (Held(st'.conns, c, s, t) <==> Held(st.conns, c, s, t)))
    ensures forall c, s, t :: c != me ==> (Held(Closed(st.topics, st.conns, me).1, c, s, t) <==> Held(st.conns, c, s, t))
  {
    CloseSpec(st.topics, st.conns, me);
    if st.open && e.Incoming? {
      match e.message
      case Subscribe(id, derived) =>
        if TopicOf(Subscriptions(st.conns, me), id).None? && derived.Some? {
          RegisterKeepsAgreement(st.topics, st.conns, Registration(me, id, derived.value.0, derived.value.1));
        }
      case Complete(id) => DeregisterSpec(st.topics, st.conns, me, id);
      case _ =>
    }
  }

  // ---------------------------------------------------------------- the actor object

  class ConnectionActor {
    const connId: ConnectionId
    const hub: SubscriptionHub

    constructor (connId: ConnectionId, hub: SubscriptionHub)
      ensures this.connId == connId && this.hub == hub
    {
      this.connId, this.hub := connId, hub;
    }

    ghost function Start(): Session
      reads hub
    {
      Session(hub.topics, hub.connections, false, true, [])
    }

    method Perform(use: HubUse)
      modifies hub
      ensures (hub.topics, hub.connections) == Used(old(hub.topics), old(hub.connections), use)
    {
      match use {
        case OtherSubscribe(r) =>
          var has := hub.HasSubscription(r.connId, r.subId);
          FoundIff(hub.connections, r.connId, r.subId);
          if has { hub.DeregisterConnection(r.connId); } else { hub.Register(r); }
        case OtherComplete(c, s) => hub.Deregister(c, s);
        case OtherLeave(c) => hub.DeregisterConnection(c);
        case Publish(topic, deliver) => var _ := hub.Broadcast(topic, deliver);
      }
    }

    /** Handles one client message; `open` says whether the loop goes on. */
    method Receive(m: Message, initialized: bool) returns (nowInitialized: bool, open: bool, sent: seq<Frame>)
      modifies hub
      ensures forall before: seq<Frame> ::
                Received(connId, Session(old(hub.topics), old(hub.connections), initialized, true, before), m)
                == Session(hub.topics, hub.connections, nowInitialized, open, before + sent)
    {
      nowInitialized, open, sent := initialized, true, [];
      ghost var topics, conns := hub.topics, hub.connections;
      match m {
        case ReadError => open := false;
        case EndOfStream => open := false;
        case CloseMessage => open := false;
        case PingFrame => sent := [PongControl];
        case NotText =>
        case InvalidJson => open, sent := false, [Close(BAD_REQUEST)];
        case ConnectionInit => nowInitialized, sent := true, [ConnectionAck];
        case ClientPing => sent := [Pong];
        case ClientPong =>
        case Subscribe(id, derived) =>
          if !initialized {
            open, sent := false, [Close(UNAUTHORIZED)];
          } else {
            var has := hub.HasSubscription(connId, id);
            FoundIff(hub.connections, connId, id);
            if has {
              open, sent := false, [Close(SUBSCRIBER_ALREADY_EXISTS)];
            } else if derived.Some? {
              hub.Register(Registration(connId, id, derived.value.0, derived.value.1));
            } else {
              sent := [ErrorFor(id)];
            }
          }
        case Complete(id) => hub.Deregister(connId, id);
      }
      assert forall before: seq<Frame> :: before + [] == before;
    }

    /** The actor's loop: it ends where the events say so, or with the stream, and then cleans up. */
    method Run(events: seq<Event>) returns (sent: seq<Frame>)
      modifies hub
      ensures var last := Played(connId, old(Start()), events);
              sent == last.sent && (hub.topics, hub.connections) == Closed(last.topics, last.conns, connId)
    {
      var initialized, open := false, true;
      sent := [];
      var i := 0;
      while open && i < |events|
        invariant i <= |events|
        invariant Played(connId, old(Start()), events[..i]) == Session(hub.topics, hub.connections, initialized, open, sent)
      {
        assert events[..i + 1][..i] == events[..i];
        match events[i] {
          case Outgoing(serialized, delivered) =>
            if serialized { open, sent := delivered, sent + [Data]; }
          case ChannelClosed => open := false;
          case Tick(pinged) => open, sent := pinged, sent + [Ping];
          case Incoming(m) =>
            var more;
            initialized, open, more := Receive(m, initialized);
            sent := sent + more;
          case Elsewhere(use) => Perform(use);
        }
        i := i + 1;
      }
      StaysEnded(connId, old(Start()), events, i);
      hub.DeregisterConnection(connId);
    }
  }

  lemma {:induction false} StaysEnded(me: ConnectionId, start: Session, events: seq<Event>, k: nat)
    requires k <= |events|
    requires k == |events| || !Played(me, start, events[..k]).open
    ensures Played(me, start, events) == Played(me, start, events[..k])
  {
    if k < |events| {
      var n := |events| - 1;
      assert events[..n][..k] == events[..k];
      if k == n { assert events[..n] == events[..k]; }
      StaysEnded(me, start, events[..n], k);
    } else {
      assert events[..k] == events;
    }
  }

  /** When the loop has exited the hub holds nothing for the connection, in either index. */
  lemma ExitLeavesNothing(me: ConnectionId, start: Session, events: seq<Event>)
    requires FreshStart(me, start) && OthersAreOthers(me, events)
    ensures var last := Played(me, start, events);
            var (topics, conns) := Closed(last.topics, last.conns, me);
            && Agree(topics, conns)
            && me !in conns
            && (forall t, i :: t in topics && 0 <= i < |topics[t]| ==> topics[t][i].connId != me)
            && (forall c, s, t :: c != me ==> (Held(conns, c, s, t) <==> Held(last.conns, c, s, t)))
  {
    ActorFollowsProtocol(me, start, events);
    var last := Played(me, start, events);
    CloseSpec(last.topics, last.conns, me);
    var (topics, conns) := Closed(last.topics, last.conns, me);
    forall t, i | t in topics && 0 <= i < |topics[t]|
      ensures topics[t][i].connId != me
    {
      var r := topics[t][i];
      assert Registered(topics, r.connId, r.subId, t);
      assert Held(conns, r.connId, r.subId, t);
    }
  }
}
