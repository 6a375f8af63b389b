/** One request through the gateway, from the idempotency check to the logging phase
    (src/gateway/composite_service.rs and src/gateway/filters/): who settles the key, when, and which
    events are emitted. The engine's answers, the interceptors' verdict, the broker and the upstream
    are inputs; every call that the request makes on the engine, the broker or the upstream is recorded. */
module Lifecycle {
  import opened Wrappers
  import opened Idempotency

  // ---------------------------------------------------------------- the request and its surroundings

  datatype Method = Post | OptionsOrHead | OtherMethod
  datatype DispatchPolicy = ResponseWithFailure | ResponseOnly | RawAudit | NoDispatch
  datatype Operation = Operation(name: Option<string>, isMutation: bool)

  /** `built` and `written` say whether a response header could be built and the response written. */
  datatype BodyRead = ReadError | TooLarge(built: bool, written: bool) | Body(nonEmpty: bool)
  datatype Verdict = Pass | Audit | Reject(built: bool) | Transform

  /** `baseTopic` is the broker topic of the decoded request. */
  datatype Decoded = Decoded(baseTopic: string, gql: Option<Operation>)
  datatype Route = Route(enabled: bool, asyncEdgeCommand: bool, policy: Option<DispatchPolicy>)

  /** What came back from upstream: the status once a response header arrived, and whether the
      connection failed or the client went away at any point. */
  datatype Upstream = Upstream(status: Option<nat>, connectionError: bool)

  datatype Request = Request(
    verb: Method,
    explicitKey: Option<Key>,
    explicitAnswer: Outcome,
    answerBuilt: bool,
    body: BodyRead,
    utf8: bool,
    hasService: bool,
    decoded: Option<Decoded>,
    appPrefix: Option<string>,
    verdict: Verdict,
    fingerprint: Key,
    fingerprintAnswer: Outcome,
    route: Option<Route>,
    disabledBuilt: bool,
    dispatchOk: bool,
    receiptBuilt: bool,
    defaultPolicy: DispatchPolicy,
    upstream: Upstream
  ) {
    /** The topic resolver always joins two parts with a dot (src/telemetry/topic.rs). */
    predicate Valid() {
      decoded.Some? ==> '.' in decoded.value.baseTopic
    }

    /** The request has a body that the configured protocol can decode. */
    predicate BodyDecodes() {
      verb.Post? && body.Body? && body.nonEmpty && utf8 && hasService && decoded.Some?
    }

    /** The body was too large and the client received the 413 answer. */
    predicate AnsweredTooLarge() {
      verb.Post? && body.TooLarge? && body.built && body.written
    }

    /** The operation has an enabled route that ends at the edge (Mode B). */
    predicate RoutedAway() {
      route.Some? && route.value.enabled && route.value.asyncEdgeCommand
    }

    predicate IsMutation() { decoded.Some? && decoded.value.gql.Some? && decoded.value.gql.value.isMutation }

    /** The key that guards the operation: the client's own, or for a decoded mutation its fingerprint. */
    function GuardingKey(): seq<Key> {
      if explicitKey.Some? then [explicitKey.value]
      else if BodyDecodes() && IsMutation() then [fingerprint]
      else []
    }

    /** The engine answers the request's key, or its fingerprint, with Conflict or Replay. */
    predicate Refused() {
      if explicitKey.Some? then !explicitAnswer.New? else BodyDecodes() && IsMutation() && !fingerprintAnswer.New?
    }

    /** The key that the engine grants the request: its own, or the fingerprint of a decoded mutation that
        no interceptor rejects. */
    function Granted(): seq<Key> {
      if explicitKey.Some? then (if explicitAnswer.New? then [explicitKey.value] else [])
      else if BodyDecodes() && !verdict.Reject? && IsMutation() && fingerprintAnswer.New? then [fingerprint]
      else []
    }

    /** The operation goes to the broker or upstream. */
    predicate Executes() {
      && !Refused()
      && (verb.Post? ==> body.Body?)
      && (BodyDecodes() ==> !verdict.Reject? && (route.Some? ==> route.value.enabled))
    }

    /** The command was committed to the broker, or the upstream answered without error. */
    predicate Succeeded() {
      if BodyDecodes() && RoutedAway() then dispatchOk
      else !upstream.connectionError && upstream.status.Some? && !IsHttpError(upstream.status.value)
    }

    /** The body is decoded: not before the request's own key, if it has one, is granted. */
    predicate Decodes() { BodyDecodes() && (explicitKey.Some? ==> explicitAnswer.New?) }

    /** A decoded mutation is answered from the cache. */
    predicate ReplaysFingerprint() {
      Decodes() && explicitKey.None? && !verdict.Reject? && IsMutation() && fingerprintAnswer.Replay? && answerBuilt
    }

    /** The dispatch policy in force: the route's, where the request gets as far as its route. */
    function Policy(): DispatchPolicy {
      if Decodes() && Executes() && !RoutedAway() && route.Some? && route.value.policy.Some? then route.value.policy.value else defaultPolicy
    }

    /** What is said of the request before it is executed. */
    function Audits(): seq<Effect> {
      if Decodes() && verdict.Reject? && verdict.built then [AuditedRejection]
      else if Decodes() && Executes() && !RoutedAway() && Policy().RawAudit? then [AuditedRequest]
      else []
    }

    /** The terminal event: none for a request that was not decoded, was replayed, or ended at the edge;
        else one that says whether it was executed and succeeded, on the request's topic or on that
        topic with `.failed`, where the policy lets that kind out. */
    function Terminals(): seq<Effect> {
      if !Decodes() || ReplaysFingerprint() || (Executes() && RoutedAway()) then []
      else
        var topic := RequestTopic(appPrefix, decoded.value.baseTopic);
        if Executes() && Succeeded() then (if Policy().NoDispatch? then [] else [Terminal(topic, true)])
        else if Policy().NoDispatch? || Policy().ResponseOnly? then []
        else [Terminal(topic + ".failed", false)]
    }
  }

  predicate IsHttpError(status: nat) { 400 <= status < 600 }

  // ---------------------------------------------------------------- what a request does

  datatype Effect =
    | Checked(key: Key, answer: Outcome)
    | CompletedKey(key: Key)
    | RemovedKey(key: Key)
    | Commanded
    | Forwarded
    | AuditedRequest
    | AuditedRejection
    | Terminal(topic: string, success: bool)

  /** What a list of effects amounts to: the keys acquired, settled and completed, in order; how often
      the operation was executed, and how often of those by the broker; the keys held at each execution, and still held; what was said of the
      request, in order; and whether every key that was completed or removed was held at that point. */
  datatype Ledger = Ledger(
    acquired: seq<Key>,
    settled: seq<Key>,
    completed: seq<Key>,
    executed: nat,
    commanded: nat,
    coveredBy: seq<set<Key>>,
    notices: seq<Effect>,
    held: set<Key>,
    orderly: bool)

  function Entered(l: Ledger, e: Effect): Ledger {
    match e
    case Checked(key, answer) => if answer.New? then l.(acquired := l.acquired + [key], held := l.held + {key}) else l
    case CompletedKey(key) =>
      l.(settled := l.settled + [key], completed := l.completed + [key], held := l.held - {key}, orderly := l.orderly && key in l.held)
    case RemovedKey(key) => l.(settled := l.settled + [key], held := l.held - {key}, orderly := l.orderly && key in l.held)
    case Commanded => l.(executed := l.executed + 1, commanded := l.commanded + 1, coveredBy := l.coveredBy + [l.held])
    case Forwarded => l.(executed := l.executed + 1, coveredBy := l.coveredBy + [l.held])
    case _ => l.(notices := l.notices + [e])
  }

  function Account(effects: seq<Effect>): Ledger {
    if effects == [] then Ledger([], [], [], 0, 0, [], [], {}, true)
    else Entered(Account(effects[..|effects| - 1]), effects[|effects| - 1])
  }

  function Members(keys: seq<Key>): set<Key> { set key | key in keys }

  /** The effects of a whole request. It acquires exactly the key that the engine grants it; that key is
      settled exactly once exactly when the body decoded or the client was told that it is too large,
      and never otherwise; nothing else is ever completed or removed; the key is completed exactly when
      the operation was executed and succeeded; the operation is executed exactly once or, when something
      stops the request, not at all, and only while its key is held; the events that go out are exactly
      the audits and then the terminal event; and a request that was told Conflict or Replay acquires,
      settles and executes nothing. */
  ghost predicate HandledAs(req: Request, effects: seq<Effect>) { Concluded(req, Account(effects)) }

  ghost predicate Concluded(req: Request, l: Ledger) {
    && l.orderly
    && l.acquired == req.Granted()
    && l.executed == (if req.Executes() then 1 else 0)
    && l.commanded == (if req.Decodes() && req.Executes() && req.RoutedAway() then 1 else 0)
    && l.settled == (if req.BodyDecodes() || req.AnsweredTooLarge() then l.acquired else [])
    && l.completed == (if req.Executes() && req.Succeeded() then l.settled else [])
    && (req.Executes() ==> l.acquired == req.GuardingKey() && l.coveredBy == [Members(req.GuardingKey())])
    && l.notices == req.Audits() + req.Terminals()
    && (req.Refused() ==> l.acquired == [] && l.settled == [] && l.completed == [] && l.executed == 0)
  }

  /** A key is acquired and left to its TTL exactly when it was granted and neither the body decoded nor
      the client was told that it is too large. */
  lemma LeftToItsTtlIff(req: Request, effects: seq<Effect>)
    requires HandledAs(req, effects)
    ensures Account(effects).acquired != [] && Account(effects).settled == [] <==>
              req.Granted() != [] && !req.BodyDecodes() && !req.AnsweredTooLarge()
  {}

  /** For one, any request that is not a POST and brings a fresh key of its own: it goes upstream under
      the key, and the key is never settled, not even when the upstream answers. */
  lemma BodylessRequestKeepsItsKey(req: Request, effects: seq<Effect>)
    requires HandledAs(req, effects)
    requires !req.verb.Post? && req.explicitKey.Some? && req.explicitAnswer.New?
    ensures var l := Account(effects);
            l.acquired == [req.explicitKey.value] && l.executed == 1 && l.settled == [] && l.completed == []
  {}

  /** A plain POST mutation without a key of its own, not rejected and without a route: it is executed
      upstream under its fingerprint, and a status below 400 or from 600 completes the key. What goes
      out then follows the dispatch policy. */
  lemma PlainMutation(req: Request, effects: seq<Effect>, decoded: Decoded, status: nat)
    requires HandledAs(req, effects)
    requires req.verb.Post? && req.body == Body(true) && req.utf8 && req.hasService && req.decoded == Some(decoded)
    requires decoded.gql.Some? && decoded.gql.value.isMutation && req.explicitKey.None? && req.fingerprintAnswer.New?
    requires req.verdict.Pass? && req.route.None? && req.upstream == Upstream(Some(status), false)
    ensures var l, topic := Account(effects), RequestTopic(req.appPrefix, decoded.baseTopic);
            var ok, audit := status < 400 || status >= 600, if req.defaultPolicy.RawAudit? then [AuditedRequest] else [];
            && l.acquired == [req.fingerprint] && l.settled == [req.fingerprint] && l.executed == 1
            && l.completed == (if ok then [req.fingerprint] else [])
            && l.notices == audit + (
                 if ok then (if req.defaultPolicy == NoDispatch then [] else [Terminal(topic, true)])
                 else if req.defaultPolicy == NoDispatch || req.defaultPolicy == ResponseOnly then []
                 else [Terminal(topic + ".failed", false)])
  {}

  // ---------------------------------------------------------------- topics

  function SplitAt(s: string, c: char): Option<(string, string)> {
    if s == [] then None
    else if s[0] == c then Some(([], s[1..]))
    else
      match SplitAt(s[1..], c)
      case None => None
      case Some((a, b)) => Some(([s[0]] + a, b))
  }

  predicate StartsWith(s: string, p: string) { |p| <= |s| && s[..|p|] == p }

  /** `trim_start_matches`: drops the prefix as often as it repeats. */
  function TrimStartMatches(s: string, p: string): string
    requires p != []
  {
    if StartsWith(s, p) then TrimStartMatches(s[|p|..], p) else s
  }

  function RequestTopic(prefix: Option<string>, base: string): string {
    match prefix
    case None => base
    case Some(p) =>
      match SplitAt(base, '.')
      case None => p + "." + base
      case Some((kind, op)) =>
        if kind == "query" && StartsWith(p, "mutation.") then "query." + TrimStartMatches(p, "mutation.") + "." + op
        else if kind == "subscription" && StartsWith(p, "mutation.") then
          "subscription." + TrimStartMatches(p, "mutation.") + "." + op
        else p + "." + op
  }

  /** Once decoded, a request never keeps the placeholder topic that suppresses logging. */
  lemma DecodedTopicIsNoPlaceholder(prefix: Option<string>, base: string)
    requires '.' in base
    ensures RequestTopic(prefix, base) != "spectra"
  {
    assert '.' !in "spectra";
    assert '.' in RequestTopic(prefix, base) by {
      if prefix.Some? {
        assert '.' in ".";
        assert "query."[5] == '.' && "subscription."[12] == '.';
      }
    }
  }

  lemma {:induction false} SplitsAtFirst(a: string, b: string, c: char)
    requires c !in a
    ensures SplitAt(a + [c] + b, c) == Some((a, b))
  {
    var s := a + [c] + b;
    if a == [] {
      assert s[1..] == b;
    } else {
      assert s[1..] == a[1..] + [c] + b;
      SplitsAtFirst(a[1..], b, c);
      assert [a[0]] + a[1..] == a;
    }
  }

  /** The topic of an operation: the application's prefix takes the place of the kind, except that a
      `mutation.` prefix gives way to the kind of a query or a subscription. */
  lemma TopicParts(prefix: string, kind: string, op: string)
    requires '.' !in kind
    ensures RequestTopic(None, kind + "." + op) == kind + "." + op
    ensures !("mutation." <= prefix) ==> RequestTopic(Some(prefix), kind + "." + op) == prefix + "." + op
    ensures !("mutation." <= prefix) ==>
              RequestTopic(Some("mutation." + prefix), kind + "." + op) ==
                if kind == "query" || kind == "subscription" then kind + "." + prefix + "." + op else "mutation." + prefix + "." + op
  {
    SplitsAtFirst(kind, op, '.');
    assert kind + ['.'] + op == kind + "." + op;
    var long := "mutation." + prefix;
    assert long[..9] == "mutation." && long[9..] == prefix;
    assert "query" + "." == "query." && "subscription" + "." == "subscription.";
    assert "query" != "subscription" by { assert "query"[0] != "subscription"[0]; }
  }

  // ---------------------------------------------------------------- the request context

  datatype Intercept = Answered(replay: bool) | NewKey(key: Key) | InterceptFailed
  datatype FilterResult = Responded | ToUpstream | Failed

  /** A success goes out unless the policy is none; a failure, only under the policies that report it. */
  function TerminalFor(topic: string, success: bool, policy: DispatchPolicy): seq<Effect> {
    match policy
    case NoDispatch => []
    case ResponseOnly => if success then [Terminal(topic, true)] else []
    case _ => if success then [Terminal(topic, true)] else [Terminal(topic + ".failed", false)]
  }

  /** A request that reaches the logging phase unsettled, and what that phase does for it. */
  lemma LoggedConcludes(req: Request, b: Ledger, a: Ledger, hadKey: bool, ok: bool)
    requires req.Decodes() && !(req.Executes() && req.RoutedAway()) && !req.ReplaysFingerprint()
    requires b.acquired == req.Granted() && b.executed == (if req.Executes() then 1 else 0) && b.commanded == 0 && b.notices == req.Audits()
    requires req.Executes() ==> b.acquired == req.GuardingKey() && b.coveredBy == [Members(req.GuardingKey())] && (hadKey || b.acquired == [])
    requires a.acquired == b.acquired && a.executed == b.executed && a.commanded == b.commanded && a.coveredBy == b.coveredBy && a.orderly && a.settled == a.acquired
    requires a.notices == b.notices + TerminalFor(RequestTopic(req.appPrefix, req.decoded.value.baseTopic), ok, req.Policy())
    requires a.completed == (if ok && hadKey then a.settled else []) && (ok <==> req.Executes() && req.Succeeded())
    ensures Concluded(req, a)
  {}

  class ProxyContext {
    var idempotencyKey: Option<Key>
    var isReplay: bool
    var isModeBTerminated: bool
    var requestInfo: Option<Option<Operation>>
    var requestTopic: string
    var activeOperation: Option<string>
    var dispatchPolicy: DispatchPolicy
    var responseStatus: Option<nat>
    var effects: seq<Effect>

    constructor (policy: DispatchPolicy)
      ensures Unused() && dispatchPolicy == policy
    {
      idempotencyKey, isReplay, isModeBTerminated, requestInfo := None, false, false, None;
      requestTopic, activeOperation, dispatchPolicy, responseStatus, effects := "spectra", None, policy, None, [];
    }

    ghost predicate Unused() reads this {
      && idempotencyKey == None && !isReplay && !isModeBTerminated && requestInfo == None
      && requestTopic == "spectra" && activeOperation == None && responseStatus == None && effects == []
    }

    function Books(): Ledger reads this`effects { Account(effects) }

    /** The context's key is the one that is held, unless Mode B has settled it, and a key that is no
        longer held was settled exactly once. */
    ghost predicate Balanced() reads this {
      var l := Books();
      && l.orderly && |l.acquired| <= 1
      && l.held == (if idempotencyKey.Some? && !isModeBTerminated then {idempotencyKey.value} else {})
      && (idempotencyKey.Some? ==> l.acquired == [idempotencyKey.value])
      && l.settled == (if l.held == {} then l.acquired else [])
    }

    lemma UnsettledKeysAreHeld()
      requires Balanced() && !isModeBTerminated && Books().settled == []
      ensures Books().held == Members(Books().acquired)
    {
      if idempotencyKey.Some? { assert Books().acquired == [idempotencyKey.value]; }
    }

    method Record(e: Effect)
      modifies this`effects
      ensures effects == old(effects) + [e] && Books() == Entered(old(Books()), e)
    {
      effects := effects + [e];
      assert effects[..|effects| - 1] == old(effects);
    }

    /** `handle_explicit_key` and `handle_fingerprint`: one check, and what it means for the request. */
    method CheckKey(key: Key, answer: Outcome, built: bool) returns (r: Intercept)
      modifies this`effects
      ensures Books() == Entered(old(Books()), Checked(key, answer))
      ensures r == if answer.New? then NewKey(key) else if built then Answered(answer.Replay?) else InterceptFailed
    {
      Record(Checked(key, answer));
      match answer
      case Conflict(_) =>
        if !built { return InterceptFailed; }
        r := Answered(false);
      case Replay(_, _) =>
        if !built { return InterceptFailed; }
        r := Answered(true);
      case New => r := NewKey(key);
    }

    /** `idempotency_key.take()` and the `remove` that follows it. */
    method TakeAndRemoveKey()
      requires Balanced() && !isModeBTerminated
      modifies this`idempotencyKey, this`effects
      ensures Balanced() && idempotencyKey == None
      ensures Books() == old(Books()).(settled := Books().acquired, held := {})
    {
      if idempotencyKey.Some? {
        var key := idempotencyKey.value;
        idempotencyKey := None;
        Record(RemovedKey(key));
      }
    }

    /** Mode B: commit the command to the broker, then complete the key or release it for a retry. */
    method HandleModeBEdge(req: Request) returns (r: FilterResult)
      requires Balanced() && !isModeBTerminated && Books().completed == []
      modifies this`isModeBTerminated, this`effects
      ensures Balanced() && isModeBTerminated && r != ToUpstream
      ensures var (b, a) := (old(Books()), Books());
              && a.acquired == b.acquired && a.executed == b.executed + 1 && a.notices == b.notices
              && a.commanded == b.commanded + 1 && a.coveredBy == b.coveredBy + [b.held]
              && a.completed == (if req.dispatchOk && idempotencyKey.Some? then a.settled else [])
    {
      Record(Commanded);
      if req.dispatchOk {
        if idempotencyKey.Some? { Record(CompletedKey(idempotencyKey.value)); }
      } else {
        if idempotencyKey.Some? { Record(RemovedKey(idempotencyKey.value)); }
      }
      isModeBTerminated := true;
      r := if req.receiptBuilt then Responded else Failed;
    }

    /** What the request phase has done so far: nothing reported, and executed only by Mode B. */
    ghost predicate Filtered(req: Request) reads this {
      var l := Books();
      && Balanced() && responseStatus == None
      && l.executed == l.commanded == (if isModeBTerminated then 1 else 0)
      && l.coveredBy == (if isModeBTerminated then [Members(l.acquired)] else [])
      && l.completed == (if isModeBTerminated && req.Succeeded() then l.settled else [])
      && (isReplay ==> l.acquired == [] && !isModeBTerminated)
    }

    /** The interceptors' verdict, and the fingerprint of a mutation without a key of its own.
        `None` lets the request go on to routing. */
    method GuardDecoded(req: Request) returns (r: Option<FilterResult>)
      requires Filtered(req) && !isModeBTerminated && !isReplay && Books().settled == [] && Books().notices == []
      requires idempotencyKey == req.explicitKey && req.BodyDecodes() && (req.explicitKey.Some? ==> req.explicitAnswer.New?)
      requires Books().acquired == if req.explicitKey.Some? then [req.explicitKey.value] else []
      modifies this`idempotencyKey, this`isReplay, this`effects
      ensures Filtered(req) && r != Some(ToUpstream)
      ensures Books().acquired == req.Granted()
      ensures r.Some? <==> req.verdict.Reject? || req.Refused()
      ensures Books().notices == if req.verdict.Reject? && req.verdict.built then [AuditedRejection] else []
      ensures isReplay <==> req.ReplaysFingerprint()
      ensures r.None? ==> !isReplay && Books().settled == [] && Books().acquired == req.GuardingKey()
      ensures req.Refused() ==> r.Some? && Books().acquired == []
    {
      if req.verdict.Reject? {
        TakeAndRemoveKey();
        if !req.verdict.built { return Some(Failed); }
        Record(AuditedRejection);
        return Some(Responded);
      }
      var gql := req.decoded.value.gql;
      if idempotencyKey.None? && gql.Some? && gql.value.isMutation {
        var intercept := CheckKey(req.fingerprint, req.fingerprintAnswer, req.answerBuilt);
        match intercept {
          case InterceptFailed => return Some(Failed);
          case Answered(replay) =>
            isReplay := replay;
            return Some(Responded);
          case NewKey(key) => idempotencyKey := Some(key);
        }
      }
      r := None;
    }

    /** Everything after a successful decode: interceptors, fingerprint, routes, Mode A and Mode B. */
    method FilterDecoded(req: Request, decoded: Decoded) returns (r: FilterResult)
      requires '.' in decoded.baseTopic && req.BodyDecodes() && req.decoded == Some(decoded) && dispatchPolicy == req.defaultPolicy
      requires Filtered(req) && !isModeBTerminated && !isReplay && Books().settled == [] && Books().notices == []
      requires idempotencyKey == req.explicitKey && (req.explicitKey.Some? ==> req.explicitAnswer.New?)
      requires Books().acquired == if req.explicitKey.Some? then [req.explicitKey.value] else []
      modifies this
      ensures Filtered(req) && requestTopic == RequestTopic(req.appPrefix, decoded.baseTopic) && requestTopic != "spectra"
      ensures dispatchPolicy == req.Policy() && Books().notices == req.Audits()
      ensures isReplay <==> req.ReplaysFingerprint()
      ensures Books().acquired == req.Granted()
      ensures r == ToUpstream || isModeBTerminated <==> req.Executes()
      ensures r == ToUpstream ==> !isModeBTerminated && !isReplay && Books().settled == [] && !req.RoutedAway()
      ensures r == ToUpstream || isModeBTerminated ==> Books().acquired == req.GuardingKey()
      ensures isModeBTerminated ==> req.RoutedAway()
      ensures req.Refused() ==> r != ToUpstream && !isModeBTerminated && Books().acquired == []
    {
      requestTopic := RequestTopic(req.appPrefix, decoded.baseTopic);
      DecodedTopicIsNoPlaceholder(req.appPrefix, decoded.baseTopic);
      requestInfo := Some(decoded.gql);
      activeOperation := if decoded.gql.Some? then decoded.gql.value.name else None;

      var answered := GuardDecoded(req);
      if answered.Some? { return answered.value; }

      r := RouteDecoded(req);
    }

    /** Route overrides: a disabled operation is refused, Mode B ends at the edge, Mode A goes upstream. */
    method RouteDecoded(req: Request) returns (r: FilterResult)
      requires req.Decodes() && !req.verdict.Reject? && !req.Refused() && dispatchPolicy == req.defaultPolicy
      requires Filtered(req) && !isModeBTerminated && !isReplay && Books().settled == [] && Books().notices == []
      requires Books().acquired == req.GuardingKey()
      modifies this`dispatchPolicy, this`isModeBTerminated, this`effects
      ensures Filtered(req) && !isReplay && dispatchPolicy == req.Policy() && Books().notices == req.Audits()
      ensures r == ToUpstream || isModeBTerminated <==> req.Executes()
      ensures r == ToUpstream ==> !isModeBTerminated && Books().settled == [] && !req.RoutedAway()
      ensures isModeBTerminated ==> req.RoutedAway()
      ensures Books().acquired == req.GuardingKey()
    {
      if req.route.Some? {
        var route := req.route.value;
        if !route.enabled {
          return if req.disabledBuilt then Responded else Failed;
        }
        if route.asyncEdgeCommand {
          UnsettledKeysAreHeld();
          r := HandleModeBEdge(req);
          return;
        }
        if route.policy.Some? { dispatchPolicy := route.policy.value; }
      }
      if dispatchPolicy.RawAudit? { Record(AuditedRequest); }
      r := ToUpstream;
    }

    /** The request phase. Afterwards the key is settled, or still held by this context. */
    method RequestFilter(req: Request) returns (r: FilterResult)
      requires Unused() && req.Valid() && dispatchPolicy == req.defaultPolicy
      modifies this
      ensures Filtered(req) && Books().notices == req.Audits()
      ensures req.Decodes() ==> (isReplay <==> req.ReplaysFingerprint()) && dispatchPolicy == req.Policy()
      ensures Books().acquired == req.Granted()
      ensures r == ToUpstream || isModeBTerminated <==> req.Executes()
      ensures r == ToUpstream ==> !isModeBTerminated && !isReplay && Books().settled == [] && (req.BodyDecodes() ==> !req.RoutedAway())
      ensures isModeBTerminated ==> req.BodyDecodes() && req.RoutedAway()
      ensures r == ToUpstream || isModeBTerminated ==> Books().acquired == req.GuardingKey()
      ensures req.Refused() ==> r != ToUpstream && !isModeBTerminated && Books().acquired == [] && Books().settled == []
      ensures Books().settled != [] ==> req.BodyDecodes() || req.AnsweredTooLarge()
      ensures req.AnsweredTooLarge() ==> Books().settled == Books().acquired
      ensures if req.Decodes() then requestTopic == RequestTopic(req.appPrefix, req.decoded.value.baseTopic) && requestTopic != "spectra"
              else requestTopic == "spectra" && requestInfo == None && activeOperation == None
    {
      if req.explicitKey.Some? {
        var intercept := CheckKey(req.explicitKey.value, req.explicitAnswer, req.answerBuilt);
        match intercept {
          case InterceptFailed => return Failed;
          case Answered(replay) =>
            isReplay := replay;
            return Responded;
          case NewKey(key) => idempotencyKey := Some(key);
        }
      }

      var nonEmpty := false;
      if req.verb.Post? {
        match req.body {
          case ReadError => return Failed;
          case TooLarge(built, written) =>
            if !built { return Failed; }
            if !written { return Responded; }
            TakeAndRemoveKey();
            return Responded;
          case Body(some) => nonEmpty := some;
        }
      }

      if nonEmpty {
        if !req.utf8 { return ToUpstream; }
        if !req.hasService { return ToUpstream; }
        if req.decoded.Some? {
          r := FilterDecoded(req, req.decoded.value);
          return;
        }
      }
      r := ToUpstream;
    }

    /** Logging is skipped for replays, Mode B, transport checks, and when no topic was resolved. */
    predicate SkipsLogging(verb: Method) reads this {
      isReplay || isModeBTerminated || verb.OptionsOrHead?
      || (requestTopic == "spectra" && activeOperation.None? && (requestInfo.None? || requestInfo.value.None?))
    }

    /** A key that is still held is completed or removed. */
    method SettleKey(completes: bool)
      requires Balanced() && !isModeBTerminated
      modifies this`effects
      ensures var (b, a) := (old(Books()), Books());
              && a.orderly && a.held == {} && a.settled == a.acquired == b.acquired
              && a.executed == b.executed && a.commanded == b.commanded && a.coveredBy == b.coveredBy && a.notices == b.notices
              && a.completed == b.completed + (if completes && idempotencyKey.Some? then a.settled else [])
    {
      if idempotencyKey.Some? {
        Record(if completes then CompletedKey(idempotencyKey.value) else RemovedKey(idempotencyKey.value));
      }
    }

    /** The terminal event, unless the dispatch policy suppresses it. */
    method Report(topic: string, success: bool, suppressed: bool)
      modifies this`effects
      ensures Books() == old(Books()).(notices := old(Books()).notices + if suppressed then [] else [Terminal(topic, success)])
    {
      if !suppressed { Record(Terminal(topic, success)); }
    }

    /** The logging phase settles a key that is still held and reports the outcome at most once. */
    method DispatchLogging(verb: Method, hasError: bool)
      requires SkipsLogging(verb) || (Balanced() && Books().completed == [])
      modifies this
      ensures old(SkipsLogging(verb)) ==> Books() == old(Books())
      ensures !old(SkipsLogging(verb)) ==>
                var (b, a) := (old(Books()), Books());
                var ok := !hasError && old(responseStatus).Some? && !IsHttpError(old(responseStatus).value);
                && a.acquired == b.acquired && a.executed == b.executed && a.commanded == b.commanded && a.coveredBy == b.coveredBy
                && (old(requestTopic) != "spectra" ==> a.notices == b.notices + TerminalFor(old(requestTopic), ok, old(dispatchPolicy)))
                && a.orderly && a.held == {} && a.settled == a.acquired
                && a.completed == (if ok && old(idempotencyKey).Some? then a.settled else [])
    {
      if isReplay { return; }
      if isModeBTerminated { return; }
      if verb.OptionsOrHead? { return; }
      var gql := if requestInfo.Some? then requestInfo.value else None;
      requestInfo := None;
      if requestTopic == "spectra" {
        if activeOperation.Some? {
          requestTopic := "operation." + activeOperation.value;
        } else if gql.Some? {
          requestTopic := "operation";
        } else {
          return;
        }
      }
      if hasError {
        SettleKey(false);
        Report(requestTopic + ".failed", false, dispatchPolicy.ResponseOnly? || dispatchPolicy.NoDispatch?);
      } else {
        var hasUpstreamResponse := responseStatus.Some?;
        var isHttpError := if hasUpstreamResponse then IsHttpError(responseStatus.value) else true;
        if isHttpError || !hasUpstreamResponse {
          SettleKey(false);
          Report(requestTopic + ".failed", false, dispatchPolicy.ResponseOnly? || dispatchPolicy.NoDispatch?);
        } else {
          SettleKey(true);
          Report(requestTopic, true, dispatchPolicy.NoDispatch?);
        }
      }
    }

    /** Where a request stands when its logging phase begins. */
    ghost predicate Proxied(req: Request, hasError: bool) reads this {
      var l := Books();
      && l.acquired == req.Granted() && l.notices == req.Audits()
      && l.executed == (if req.Executes() then 1 else 0) && l.commanded == (if isModeBTerminated then 1 else 0)
      && (req.Executes() ==> l.acquired == req.GuardingKey() && l.coveredBy == [Members(req.GuardingKey())])
      && Balanced()
      && (isModeBTerminated <==> req.Decodes() && req.Executes() && req.RoutedAway())
      && l.completed == (if isModeBTerminated && req.Succeeded() then l.settled else [])
      && (l.settled != [] ==> req.BodyDecodes() || req.AnsweredTooLarge()) && (req.AnsweredTooLarge() ==> l.settled == l.acquired)
      && (if req.Decodes() then
            && requestTopic == RequestTopic(req.appPrefix, req.decoded.value.baseTopic) && requestTopic != "spectra"
            && dispatchPolicy == req.Policy() && (isReplay <==> req.ReplaysFingerprint())
          else requestTopic == "spectra" && requestInfo == None && activeOperation == None)
      && (isReplay ==> l.acquired == [])
      && (req.Executes() && !isModeBTerminated ==> l.settled == [])
      && (if req.Executes() && !isModeBTerminated then responseStatus == req.upstream.status && hasError == req.upstream.connectionError
          else responseStatus == None)
    }

    /** The request phase, and the exchange with the upstream where it comes to that. */
    method Proxy(req: Request) returns (hasError: bool)
      requires Unused() && req.Valid() && dispatchPolicy == req.defaultPolicy
      modifies this
      ensures Proxied(req, hasError)
    {
      var r := RequestFilter(req);
      hasError := r.Failed?;
      if r.ToUpstream? {
        UnsettledKeysAreHeld();
        Record(Forwarded);
        responseStatus := req.upstream.status;
        hasError := req.upstream.connectionError;
      }
    }

    /** The whole lifecycle, from the check of the key to the end of the logging phase. */
    method Handle(req: Request)
      requires Unused() && req.Valid() && dispatchPolicy == req.defaultPolicy
      modifies this
      ensures HandledAs(req, effects)
    {
      var hasError := Proxy(req);
      SkipsLoggingIff(req, hasError);
      if req.hasService {
        ghost var before, hadKey := Books(), idempotencyKey.Some?;
        ghost var ok := !hasError && responseStatus.Some? && !IsHttpError(responseStatus.value);
        ghost var skips := SkipsLogging(req.verb);
        DispatchLogging(req.verb, hasError);
        if !skips { LoggedConcludes(req, before, Books(), hadKey, ok); }
      }
    }

    /** Logging is skipped exactly where there is nothing left to settle or to tell. */
    lemma SkipsLoggingIff(req: Request, hasError: bool)
      requires Proxied(req, hasError)
      ensures SkipsLogging(req.verb) <==> !req.Decodes() || isReplay || isModeBTerminated
      ensures SkipsLogging(req.verb) || !req.hasService ==> Concluded(req, Books())
      ensures !SkipsLogging(req.verb) && req.Executes() ==> idempotencyKey.Some? || Books().acquired == []
    {}
  }
}
