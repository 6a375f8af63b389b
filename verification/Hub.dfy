/** The subscription hub (src/subscriptions/hub.rs): an index from topics to subscribers for
    broadcasting, and an index from connections to their subscriptions for cleanup. */
module Hub {
  import opened Wrappers

  type ConnectionId = nat
  type SubId = string
  type Topic = string

  datatype Registration = Registration(connId: ConnectionId, subId: SubId, topic: Topic, rootField: string)

  type Topics = map<Topic, seq<Registration>>
  type Connections = map<ConnectionId, seq<(SubId, Topic)>>

  // ---------------------------------------------------------------- what the two indexes say

  ghost predicate Registered(topics: Topics, c: ConnectionId, s: SubId, t: Topic) {
    t in topics && exists i :: 0 <= i < |topics[t]| && topics[t][i].connId == c && topics[t][i].subId == s
  }

  ghost predicate Held(conns: Connections, c: ConnectionId, s: SubId, t: Topic) {
    c in conns && (s, t) in conns[c]
  }

  /** One registration per subscription, filed under its own topic; no empty list is kept. */
  ghost predicate WellFiled(subs: seq<Registration>, t: Topic) {
    && (forall i :: 0 <= i < |subs| ==> subs[i].topic == t)
    && (forall i, j :: 0 <= i < j < |subs| ==> !(subs[i].connId == subs[j].connId && subs[i].subId == subs[j].subId))
  }

  ghost predicate GoodTopics(topics: Topics) {
    forall t :: t in topics ==> topics[t] != [] && WellFiled(topics[t], t)
  }

  ghost predicate OneTopicEach(list: seq<(SubId, Topic)>) {
    forall i, j :: 0 <= i < j < |list| ==> list[i].0 != list[j].0
  }

  ghost predicate GoodConnections(conns: Connections) {
    forall c :: c in conns ==> OneTopicEach(conns[c])
  }

  /** The two indexes are inverse relations. */
  ghost predicate Agree(topics: Topics, conns: Connections) {
    && GoodTopics(topics) && GoodConnections(conns)
    && (forall c, s, t :: Registered(topics, c, s, t) <==> Held(conns, c, s, t))
  }

  // ---------------------------------------------------------------- the half-steps

  function Retain(subs: seq<Registration>, c: ConnectionId, s: SubId): seq<Registration> {
    if subs == [] then []
    else if subs[0].connId == c && subs[0].subId == s then Retain(subs[1..], c, s)
    else [subs[0]] + Retain(subs[1..], c, s)
  }

  function RetainOthers(list: seq<(SubId, Topic)>, s: SubId): seq<(SubId, Topic)> {
    if list == [] then []
    else if list[0].0 == s then RetainOthers(list[1..], s)
    else [list[0]] + RetainOthers(list[1..], s)
  }

  function Subscribers(topics: Topics, t: Topic): seq<Registration> { if t in topics then topics[t] else [] }
  function Subscriptions(conns: Connections, c: ConnectionId): seq<(SubId, Topic)> { if c in conns then conns[c] else [] }

  function AddToTopic(topics: Topics, r: Registration): Topics {
    topics[r.topic := Retain(Subscribers(topics, r.topic), r.connId, r.subId) + [r]]
  }

  function AddToConnection(conns: Connections, c: ConnectionId, s: SubId, t: Topic): Connections {
    conns[c := RetainOthers(Subscriptions(conns, c), s) + [(s, t)]]
  }

  function RemoveFromTopic(topics: Topics, c: ConnectionId, s: SubId, t: Topic): Topics {
    if t !in topics then topics
    else
      var subs := Retain(topics[t], c, s);
      if subs == [] then topics - {t} else topics[t := subs]
  }

  function RemoveListed(topics: Topics, c: ConnectionId, list: seq<(SubId, Topic)>): Topics {
    if list == [] then topics
    else RemoveFromTopic(RemoveListed(topics, c, list[..|list| - 1]), c, list[|list| - 1].0, list[|list| - 1].1)
  }

  /** The topic under which a connection holds a subscription id. */
  function TopicOf(list: seq<(SubId, Topic)>, s: SubId): Option<Topic> {
    if list == [] then None else if list[0].0 == s then Some(list[0].1) else TopicOf(list[1..], s)
  }

  function WithoutFirst(list: seq<(SubId, Topic)>, s: SubId): seq<(SubId, Topic)> {
    if list == [] then [] else if list[0].0 == s then list[1..] else [list[0]] + WithoutFirst(list[1..], s)
  }

  function RemoveFromConnection(conns: Connections, c: ConnectionId, s: SubId): Connections {
    if c in conns && TopicOf(conns[c], s).Some? then conns[c := WithoutFirst(conns[c], s)] else conns
  }

  // ---------------------------------------------------------------- what the half-steps do

  lemma {:induction false} RetainSpec(subs: seq<Registration>, c: ConnectionId, s: SubId, t: Topic)
    requires WellFiled(subs, t)
    ensures WellFiled(Retain(subs, c, s), t)
    ensures forall r :: r in Retain(subs, c, s) <==> r in subs && !(r.connId == c && r.subId == s)
  {
    if subs != [] {
      assert subs == [subs[0]] + subs[1..];
      RetainSpec(subs[1..], c, s, t);
      var kept := Retain(subs[1..], c, s);
      forall i | 0 <= i < |kept|
        ensures !(subs[0].connId == kept[i].connId && subs[0].subId == kept[i].subId)
      {
        assert kept[i] in subs[1..];
        var j :| 0 <= j < |subs[1..]| && subs[1..][j] == kept[i];
        assert subs[j + 1] == kept[i];
      }
    }
  }

  /** `retain` keeps every other registration, and keeps them in order. */
  lemma {:induction false} RetainAppends(a: seq<Registration>, b: seq<Registration>, c: ConnectionId, s: SubId)
    ensures Retain(a + b, c, s) == Retain(a, c, s) + Retain(b, c, s)
    ensures forall r: Registration :: Retain([r], c, s) == if r.connId == c && r.subId == s then [] else [r]
  {
    if a == [] {
      assert a + b == b;
    } else {
      assert (a + b)[1..] == a[1..] + b;
      RetainAppends(a[1..], b, c, s);
    }
  }

  /** The registration is stored as it was given, last in its topic; the other registrations, whole, and
      the other topics stay as they were. */
  lemma RegisteredAsGiven(topics: Topics, r: Registration)
    requires GoodTopics(topics)
    ensures var after := AddToTopic(topics, r);
            && r.topic in after && after[r.topic] != [] && after[r.topic][|after[r.topic]| - 1] == r
            && (forall x :: x in after[r.topic] <==>
                  x == r || (x in Subscribers(topics, r.topic) && !(x.connId == r.connId && x.subId == r.subId)))
            && (forall t :: t != r.topic ==> (t in after <==> t in topics) && (t in topics ==> after[t] == topics[t]))
  {
    RetainSpec(Subscribers(topics, r.topic), r.connId, r.subId, r.topic);
  }

  /** Only registrations of that subscription go, and only from that topic; an emptied topic goes too. */
  lemma UnregisteredOnly(topics: Topics, c: ConnectionId, s: SubId, t: Topic)
    requires GoodTopics(topics)
    ensures var after := RemoveFromTopic(topics, c, s, t);
            && (forall x :: x in Subscribers(after, t) <==> x in Subscribers(topics, t) && !(x.connId == c && x.subId == s))
            && (t in after ==> after[t] != [])
            && (forall t' :: t' != t ==> (t' in after <==> t' in topics) && (t' in topics ==> after[t'] == topics[t']))
  {
    if t in topics { RetainSpec(topics[t], c, s, t); }
  }

  lemma RegisteredIsIn(topics: Topics, c: ConnectionId, s: SubId, t: Topic)
    ensures Registered(topics, c, s, t) <==> t in topics && exists r :: r in topics[t] && r.connId == c && r.subId == s
  {}

  lemma AddToTopicSpec(topics: Topics, r: Registration)
    requires GoodTopics(topics)
    ensures var after := AddToTopic(topics, r);
            && GoodTopics(after)
            && (forall c, s, t :: Registered(after, c, s, t) <==>
                  (c == r.connId && s == r.subId && t == r.topic) || Registered(topics, c, s, t))
  {
    var after := AddToTopic(topics, r);
    var subs := Subscribers(topics, r.topic);
    RetainSpec(subs, r.connId, r.subId, r.topic);
    var kept := Retain(subs, r.connId, r.subId);
    forall i | 0 <= i < |kept|
      ensures !(kept[i].connId == r.connId && kept[i].subId == r.subId)
    {
      assert kept[i] in kept;
    }
    assert WellFiled(kept + [r], r.topic);
    forall c, s, t
      ensures Registered(after, c, s, t) <==> (c == r.connId && s == r.subId && t == r.topic) || Registered(topics, c, s, t)
    {
      RegisteredIsIn(topics, c, s, t);
      RegisteredIsIn(after, c, s, t);
      if t == r.topic {
        assert forall x :: x in after[t] <==> x in kept || x == r;
      }
    }
  }

  lemma RemoveFromTopicSpec(topics: Topics, c: ConnectionId, s: SubId, t: Topic)
    requires GoodTopics(topics)
    ensures var after := RemoveFromTopic(topics, c, s, t);
            && GoodTopics(after)
            && (forall c', s', t' :: Registered(after, c', s', t') <==>
                  Registered(topics, c', s', t') && !(c' == c && s' == s && t' == t))
  {
    var after := RemoveFromTopic(topics, c, s, t);
    if t in topics {
      RetainSpec(topics[t], c, s, t);
      forall c', s', t'
        ensures Registered(after, c', s', t') <==> Registered(topics, c', s', t') && !(c' == c && s' == s && t' == t)
      {
        RegisteredIsIn(topics, c', s', t');
        RegisteredIsIn(after, c', s', t');
      }
    }
  }

  lemma {:induction false} RemoveListedSpec(topics: Topics, c: ConnectionId, list: seq<(SubId, Topic)>)
    requires GoodTopics(topics)
    ensures var after := RemoveListed(topics, c, list);
            && GoodTopics(after)
            && (forall c', s', t' :: Registered(after, c', s', t') <==>
                  Registered(topics, c', s', t') && !(c' == c && (s', t') in list))
  {
    if list != [] {
      var n := |list| - 1;
      assert list == list[..n] + [list[n]];
      RemoveListedSpec(topics, c, list[..n]);
      RemoveFromTopicSpec(RemoveListed(topics, c, list[..n]), c, list[n].0, list[n].1);
    }
  }

  lemma {:induction false} RetainOthersSpec(list: seq<(SubId, Topic)>, s: SubId)
    requires OneTopicEach(list)
    ensures OneTopicEach(RetainOthers(list, s))
    ensures forall x :: x in RetainOthers(list, s) <==> x in list && x.0 != s
  {
    if list != [] {
      assert list == [list[0]] + list[1..];
      RetainOthersSpec(list[1..], s);
      var kept := RetainOthers(list[1..], s);
      forall i | 0 <= i < |kept|
        ensures list[0].0 != kept[i].0
      {
        assert kept[i] in list[1..];
        var j :| 0 <= j < |list[1..]| && list[1..][j] == kept[i];
        assert list[j + 1] == kept[i];
      }
    }
  }

  lemma AddToConnectionSpec(conns: Connections, c: ConnectionId, s: SubId, t: Topic)
    requires GoodConnections(conns)
    ensures var after := AddToConnection(conns, c, s, t);
            && GoodConnections(after)
            && (forall c', s', t' :: Held(after, c', s', t') <==>
                  if c' == c && s' == s then t' == t else Held(conns, c', s', t'))
  {
    var kept := RetainOthers(Subscriptions(conns, c), s);
    RetainOthersSpec(Subscriptions(conns, c), s);
    forall i | 0 <= i < |kept|
      ensures kept[i].0 != s
    {
      assert kept[i] in kept;
    }
    assert OneTopicEach(kept + [(s, t)]);
  }

  lemma {:induction false} TopicOfSpec(list: seq<(SubId, Topic)>, s: SubId)
    requires OneTopicEach(list)
    ensures forall t :: (s, t) in list <==> TopicOf(list, s) == Some(t)
    ensures OneTopicEach(WithoutFirst(list, s))
    ensures forall x :: x in WithoutFirst(list, s) <==> x in list && x.0 != s
  {
    if list != [] {
      assert list == [list[0]] + list[1..];
      assert forall i :: 0 <= i < |list[1..]| ==> list[1..][i] == list[i + 1];
      TopicOfSpec(list[1..], s);
      if list[0].0 != s {
        var rest := WithoutFirst(list[1..], s);
        forall i | 0 <= i < |rest|
          ensures list[0].0 != rest[i].0
        {
          assert rest[i] in list[1..];
          var j :| 0 <= j < |list[1..]| && list[1..][j] == rest[i];
        }
      }
    }
  }

  lemma RemoveFromConnectionSpec(conns: Connections, c: ConnectionId, s: SubId)
    requires GoodConnections(conns)
    ensures var after := RemoveFromConnection(conns, c, s);
            && GoodConnections(after)
            && (forall c', s', t' :: Held(after, c', s', t') <==> Held(conns, c', s', t') && !(c' == c && s' == s))
            && (forall t :: Held(conns, c, s, t) <==> TopicOf(Subscriptions(conns, c), s) == Some(t))
  {
    if c in conns {
      TopicOfSpec(conns[c], s);
    }
  }

  // ---------------------------------------------------------------- whole operations

  function Deregistered(topics: Topics, conns: Connections, c: ConnectionId, s: SubId): (Topics, Connections) {
    var target := TopicOf(Subscriptions(conns, c), s);
    (if target.Some? then RemoveFromTopic(topics, c, s, target.value) else topics, RemoveFromConnection(conns, c, s))
  }

  function Closed(topics: Topics, conns: Connections, c: ConnectionId): (Topics, Connections) {
    (RemoveListed(topics, c, Subscriptions(conns, c)), conns - {c})
  }

  /** `register` alone keeps the indexes inverse exactly when the id is not held under another topic. */
  lemma RegisterAgreesIff(topics: Topics, conns: Connections, r: Registration)
    requires Agree(topics, conns)
    ensures Agree(AddToTopic(topics, r), AddToConnection(conns, r.connId, r.subId, r.topic)) <==>
              forall t :: Held(conns, r.connId, r.subId, t) ==> t == r.topic
  {
    AddToTopicSpec(topics, r);
    AddToConnectionSpec(conns, r.connId, r.subId, r.topic);
    var topics', conns' := AddToTopic(topics, r), AddToConnection(conns, r.connId, r.subId, r.topic);
    if t :| Held(conns, r.connId, r.subId, t) && t != r.topic {
      assert Registered(topics', r.connId, r.subId, t) && !Held(conns', r.connId, r.subId, t);
    }
  }

  lemma DeregisterSpec(topics: Topics, conns: Connections, c: ConnectionId, s: SubId)
    requires Agree(topics, conns)
    ensures var (topics', conns') := Deregistered(topics, conns, c, s);
            && Agree(topics', conns')
            && (forall c', s', t :: Held(conns', c', s', t) <==> Held(conns, c', s', t) && !(c' == c && s' == s))
  {
    RemoveFromConnectionSpec(conns, c, s);
    var target := TopicOf(Subscriptions(conns, c), s);
    if target.Some? {
      RemoveFromTopicSpec(topics, c, s, target.value);
    }
  }

  lemma CloseSpec(topics: Topics, conns: Connections, c: ConnectionId)
    requires Agree(topics, conns)
    ensures var (topics', conns') := Closed(topics, conns, c);
            && Agree(topics', conns')
            && (forall c', s, t :: Held(conns', c', s, t) <==> Held(conns, c', s, t) && c' != c)
  {
    RemoveListedSpec(topics, c, Subscriptions(conns, c));
  }

  // ---------------------------------------------------------------- broadcast

  datatype Delivery = Sent | ReceiverGone | BufferFull

  function SentCount(subs: seq<Registration>, deliver: Registration -> Delivery): nat {
    if subs == [] then 0
    else SentCount(subs[..|subs| - 1], deliver) + (if deliver(subs[|subs| - 1]).Sent? then 1 else 0)
  }

  function Gone(subs: seq<Registration>, deliver: Registration -> Delivery): seq<Registration> {
    if subs == [] then []
    else Gone(subs[..|subs| - 1], deliver) + (if deliver(subs[|subs| - 1]).ReceiverGone? then [subs[|subs| - 1]] else [])
  }

  function DeregisteredAll(topics: Topics, conns: Connections, dead: seq<Registration>): (Topics, Connections) {
    if dead == [] then (topics, conns)
    else
      var (topics', conns') := DeregisteredAll(topics, conns, dead[..|dead| - 1]);
      Deregistered(topics', conns', dead[|dead| - 1].connId, dead[|dead| - 1].subId)
  }

  function SentTo(subs: seq<Registration>, deliver: Registration -> Delivery): set<int> {
    set i | 0 <= i < |subs| && deliver(subs[i]).Sent?
  }

  lemma SentToOneMore(init: seq<Registration>, r: Registration, deliver: Registration -> Delivery)
    ensures SentTo(init + [r], deliver) == SentTo(init, deliver) + if deliver(r).Sent? then {|init|} else {}
  {
    var all := init + [r];
    assert forall i :: 0 <= i < |init| ==> all[i] == init[i];
    assert all[|init|] == r;
  }

  /** What is returned is the number of subscribers that were sent the event. */
  lemma {:induction false} SentCountIs(subs: seq<Registration>, deliver: Registration -> Delivery)
    ensures SentCount(subs, deliver) == |SentTo(subs, deliver)|
  {
    if subs != [] {
      var init, r := subs[..|subs| - 1], subs[|subs| - 1];
      SentCountIs(init, deliver);
      SentToOneMore(init, r, deliver);
      assert init + [r] == subs && |init| !in SentTo(init, deliver);
    }
  }

  lemma {:induction false} GoneMembers(subs: seq<Registration>, deliver: Registration -> Delivery)
    ensures forall r :: r in Gone(subs, deliver) <==> r in subs && deliver(r).ReceiverGone?
  {
    if subs != [] {
      GoneMembers(subs[..|subs| - 1], deliver);
      assert subs == subs[..|subs| - 1] + [subs[|subs| - 1]];
    }
  }

  lemma {:induction false} DeregisterAllSpec(topics: Topics, conns: Connections, dead: seq<Registration>)
    requires Agree(topics, conns)
    ensures var (topics', conns') := DeregisteredAll(topics, conns, dead);
            && Agree(topics', conns')
            && (forall c, s, t :: Held(conns', c, s, t) <==>
                  Held(conns, c, s, t) && forall r :: r in dead ==> !(r.connId == c && r.subId == s))
  {
    if dead != [] {
      var n := |dead| - 1;
      assert dead == dead[..n] + [dead[n]];
      DeregisterAllSpec(topics, conns, dead[..n]);
      var (topics', conns') := DeregisteredAll(topics, conns, dead[..n]);
      DeregisterSpec(topics', conns', dead[n].connId, dead[n].subId);
    }
  }

  /** A broadcast drops exactly the subscriptions of the topic whose receiver is gone. */
  lemma BroadcastSpec(topics: Topics, conns: Connections, topic: Topic, deliver: Registration -> Delivery)
    requires Agree(topics, conns)
    ensures var (topics', conns') := DeregisteredAll(topics, conns, Gone(Subscribers(topics, topic), deliver));
            && Agree(topics', conns')
            && (forall c, s, t :: Held(conns', c, s, t) <==>
                  Held(conns, c, s, t) &&
                  !(t == topic && exists r :: r in Subscribers(topics, topic) && r.connId == c && r.subId == s && deliver(r).ReceiverGone?))
  {
    var subs := Subscribers(topics, topic);
    var dead := Gone(subs, deliver);
    GoneMembers(subs, deliver);
    DeregisterAllSpec(topics, conns, dead);
    forall c, s, t | Held(conns, c, s, t)
      ensures (exists r :: r in dead && r.connId == c && r.subId == s) <==>
                t == topic && exists r :: r in subs && r.connId == c && r.subId == s && deliver(r).ReceiverGone?
    {
      if r :| r in dead && r.connId == c && r.subId == s {
        RegisteredIsIn(topics, c, s, topic);
        assert Held(conns, c, s, topic);
        HeldUnderOneTopic(conns, c, s, t, topic);
      }
    }
  }

  lemma HeldUnderOneTopic(conns: Connections, c: ConnectionId, s: SubId, t: Topic, t': Topic)
    requires GoodConnections(conns) && Held(conns, c, s, t) && Held(conns, c, s, t')
    ensures t == t'
  {
    var i :| 0 <= i < |conns[c]| && conns[c][i] == (s, t);
    var j :| 0 <= j < |conns[c]| && conns[c][j] == (s, t');
  }

  // ---------------------------------------------------------------- the hub object

  class SubscriptionHub {
    var topics: Topics
    var connections: Connections

    constructor ()
      ensures topics == map[] && connections == map[] && Agree(topics, connections)
    {
      topics, connections := map[], map[];
    }

    method Register(r: Registration)
      modifies this
      ensures topics == AddToTopic(old(topics), r)
      ensures connections == AddToConnection(old(connections), r.connId, r.subId, r.topic)
    {
      topics := topics[r.topic := Retain(Subscribers(topics, r.topic), r.connId, r.subId)];
      topics := topics[r.topic := topics[r.topic] + [r]];
      var list := RetainOthers(Subscriptions(connections, r.connId), r.subId);
      connections := connections[r.connId := list + [(r.subId, r.topic)]];
    }

    method Deregister(c: ConnectionId, s: SubId)
      modifies this
      ensures (topics, connections) == Deregistered(old(topics), old(connections), c, s)
    {
      var target: Option<Topic> := None;
      if c in connections {
        target := TopicOf(connections[c], s);
        if target.Some? { connections := connections[c := WithoutFirst(connections[c], s)]; }
      }
      if target.Some? && target.value in topics {
        var subs := Retain(topics[target.value], c, s);
        topics := if subs == [] then topics - {target.value} else topics[target.value := subs];
      }
    }

    method DeregisterConnection(c: ConnectionId)
      modifies this
      ensures (topics, connections) == Closed(old(topics), old(connections), c)
    {
      if c in connections {
        var list := connections[c];
        connections := connections - {c};
        for i := 0 to |list|
          invariant topics == RemoveListed(old(topics), c, list[..i])
          invariant connections == old(connections) - {c}
        {
          var (s, t) := list[i];
          assert list[..i + 1][..i] == list[..i];
          if t in topics {
            var subs := Retain(topics[t], c, s);
            topics := if subs == [] then topics - {t} else topics[t := subs];
          }
        }
        assert list[..|list|] == list;
      } else {
        assert old(connections) - {c} == old(connections);
      }
    }

    method HasSubscription(c: ConnectionId, s: SubId) returns (has: bool)
      ensures has <==> exists t :: Held(connections, c, s, t)
    {
      has := false;
      if c in connections {
        var list := connections[c];
        for i := 0 to |list|
          invariant has <==> exists j :: 0 <= j < i && list[j].0 == s
        {
          if list[i].0 == s { has := true; }
        }
        if has {
          var j :| 0 <= j < |list| && list[j].0 == s;
          assert Held(connections, c, s, list[j].1);
        }
      }
    }

    /** Offers the event to every subscriber of the topic and drops those whose receiver is gone. */
    method Broadcast(topic: Topic, deliver: Registration -> Delivery) returns (sent: nat)
      modifies this
      ensures sent == SentCount(Subscribers(old(topics), topic), deliver)
      ensures (topics, connections) ==
                DeregisteredAll(old(topics), old(connections), Gone(Subscribers(old(topics), topic), deliver))
    {
      var subs := Subscribers(topics, topic);
      var dead: seq<Registration> := [];
      sent := 0;
      for i := 0 to |subs|
        invariant sent == SentCount(subs[..i], deliver) && dead == Gone(subs[..i], deliver)
        invariant topics == old(topics) && connections == old(connections)
      {
        assert subs[..i + 1][..i] == subs[..i];
        match deliver(subs[i])
        case Sent => sent := sent + 1;
        case ReceiverGone => dead := dead + [subs[i]];
        case BufferFull =>
      }
      assert subs[..|subs|] == subs;
      for i := 0 to |dead|
        invariant (topics, connections) == DeregisteredAll(old(topics), old(connections), dead[..i])
      {
        assert dead[..i + 1][..i] == dead[..i];
        Deregister(dead[i].connId, dead[i].subId);
      }
      assert dead[..|dead|] == dead;
    }
  }
}
