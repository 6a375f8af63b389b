/** The interceptor pipelines (src/interceptors/response.rs:100-173, src/interceptors/request.rs:226-281)
    and their composition, global before route (src/interceptors/manager.rs:341-375). An interceptor
    is any function of what it is shown; the response pipeline threads bodies, the request pipeline
    stops at the first transformation. */
module Pipelines {
  import opened Wrappers

  type Headers = seq<(string, string)>

  datatype Rejection = Rejection(status: nat, code: string, message: string)

  datatype Verdict =
    | Pass
    | Reject(rejection: Rejection)
    | Transform(headers: Option<Headers>, body: Option<Bytes>)
    | Audit(ruleName: string, tag: Option<string>, reason: string)

  datatype ResponseParts = ResponseParts(status: nat, headers: Headers)

  /** The verdict, and the parts as the interceptor left them. */
  type ResponseInterceptor = (ResponseParts, Bytes) -> (Verdict, ResponseParts)

  // ---------------------------------------------------------------- the algebra of response verdicts

  /** A transformation of nothing is no transformation. */
  predicate Canonical(v: Verdict) { v.Transform? ==> v.headers.Some? || v.body.Some? }

  function Canon(v: Verdict): Verdict { if Canonical(v) then v else Pass }

  function Later<T>(first: Option<T>, second: Option<T>): Option<T> { if second.Some? then second else first }

  /** The verdict of two stages one after the other. */
  function Combine(v: Verdict, w: Verdict): Verdict {
    if v.Reject? then v
    else if w.Reject? then w
    else if Canon(v).Transform? && Canon(w).Transform? then Transform(Later(v.headers, w.headers), Later(v.body, w.body))
    else if Canon(v).Transform? then v
    else if Canon(w).Pass? then Canon(v)
    else w
  }

  /** The body the next stage is shown. */
  function Effective(v: Verdict, body: Bytes): Bytes {
    if v.Transform? && v.body.Some? then v.body.value else body
  }

  function Through(stages: seq<ResponseInterceptor>, parts: ResponseParts, body: Bytes): (Verdict, ResponseParts) {
    if stages == [] then (Pass, parts)
    else
      var (v, parts') := stages[0](parts, body);
      if v.Reject? then (v, parts')
      else
        var (w, parts'') := Through(stages[1..], parts', Effective(v, body));
        (Combine(v, w), parts'')
  }

  /** Canonical verdicts are a monoid under `Combine`, with `Pass` as unit. */
  lemma CombineIsAssociative(u: Verdict, v: Verdict, w: Verdict)
    ensures Combine(Combine(u, v), w) == Combine(u, Combine(v, w))
    ensures Canonical(Combine(u, v))
    ensures Combine(Pass, u) == Combine(u, Pass) == Canon(u)
  {}

  lemma EffectiveComposes(v: Verdict, w: Verdict, body: Bytes)
    requires !v.Reject? && !w.Reject?
    ensures Effective(Combine(v, w), body) == Effective(w, Effective(v, body))
  {}

  lemma {:induction false} ResultIsCanonical(stages: seq<ResponseInterceptor>, parts: ResponseParts, body: Bytes)
    ensures Canonical(Through(stages, parts, body).0)
  {
    if stages != [] {
      var (v, parts') := stages[0](parts, body);
      ResultIsCanonical(stages[1..], parts', Effective(v, body));
    }
  }

  lemma {:induction false} ExtendThreads(first: seq<ResponseInterceptor>, second: seq<ResponseInterceptor>, parts: ResponseParts, body: Bytes)
    ensures var (v, parts') := Through(first, parts, body);
            Through(first + second, parts, body) ==
              if v.Reject? then (v, parts')
              else
                var (w, parts'') := Through(second, parts', Effective(v, body));
                (Combine(v, w), parts'')
  {
    if first == [] {
      assert first + second == second;
      ResultIsCanonical(second, parts, body);
    } else {
      assert (first + second)[1..] == first[1..] + second;
      var (v, parts') := first[0](parts, body);
      if !v.Reject? {
        ExtendThreads(first[1..], second, parts', Effective(v, body));
        var (v2, parts2) := Through(first[1..], parts', Effective(v, body));
        if !v2.Reject? {
          EffectiveComposes(v, v2, body);
          CombineIsAssociative(v, v2, Through(second, parts2, Effective(v2, Effective(v, body))).0);
        }
      }
    }
  }

  // ---------------------------------------------------------------- what the result means

  /** The verdicts actually given, in order: each stage is shown the latest body, none runs after a
      rejection. */
  function Given(stages: seq<ResponseInterceptor>, parts: ResponseParts, body: Bytes): seq<Verdict> {
    if stages == [] then []
    else
      var (v, parts') := stages[0](parts, body);
      [v] + if v.Reject? then [] else Given(stages[1..], parts', Effective(v, body))
  }

  /** The last body that any of the verdicts sets, and likewise for headers and audits. */
  function LastBody(given: seq<Verdict>): Option<Bytes> {
    if given == [] then None
    else
      var v := given[|given| - 1];
      if v.Transform? && v.body.Some? then v.body else LastBody(given[..|given| - 1])
  }

  function LastHeaders(given: seq<Verdict>): Option<Headers> {
    if given == [] then None
    else
      var v := given[|given| - 1];
      if v.Transform? && v.headers.Some? then v.headers else LastHeaders(given[..|given| - 1])
  }

  function LastAudit(given: seq<Verdict>): Option<Verdict> {
    if given == [] then None
    else if given[|given| - 1].Audit? then Some(given[|given| - 1])
    else LastAudit(given[..|given| - 1])
  }

  function Settle(headers: Option<Headers>, body: Option<Bytes>, audit: Option<Verdict>): Verdict {
    if body.Some? || headers.Some? then Transform(headers, body)
    else if audit.Some? then audit.value
    else Pass
  }

  function Summary(given: seq<Verdict>): Verdict {
    if given != [] && given[|given| - 1].Reject? then given[|given| - 1]
    else Settle(LastHeaders(given), LastBody(given), LastAudit(given))
  }

  predicate SetsBody(v: Verdict) { v.Transform? && v.body.Some? }
  predicate SetsHeaders(v: Verdict) { v.Transform? && v.headers.Some? }

  // What "last" means: set at `k`, and not after.

  lemma {:induction false} LastBodyIsLast(given: seq<Verdict>)
    ensures forall k :: 0 <= k < |given| && SetsBody(given[k]) && (forall j :: k < j < |given| ==> !SetsBody(given[j])) ==>
              LastBody(given) == given[k].body
    ensures LastBody(given).Some? <==> exists k :: 0 <= k < |given| && SetsBody(given[k])
  {
    if given != [] {
      var init := given[..|given| - 1];
      LastBodyIsLast(init);
      assert forall k :: 0 <= k < |init| ==> init[k] == given[k];
    }
  }

  lemma {:induction false} LastHeadersAreLast(given: seq<Verdict>)
    ensures forall k :: 0 <= k < |given| && SetsHeaders(given[k]) && (forall j :: k < j < |given| ==> !SetsHeaders(given[j])) ==>
              LastHeaders(given) == given[k].headers
    ensures LastHeaders(given).Some? <==> exists k :: 0 <= k < |given| && SetsHeaders(given[k])
  {
    if given != [] {
      var init := given[..|given| - 1];
      LastHeadersAreLast(init);
      assert forall k :: 0 <= k < |init| ==> init[k] == given[k];
    }
  }

  lemma {:induction false} LastAuditIsLast(given: seq<Verdict>)
    ensures forall k :: 0 <= k < |given| && given[k].Audit? && (forall j :: k < j < |given| ==> !given[j].Audit?) ==>
              LastAudit(given) == Some(given[k])
    ensures LastAudit(given).Some? <==> exists k :: 0 <= k < |given| && given[k].Audit?
  {
    if given != [] {
      var init := given[..|given| - 1];
      LastAuditIsLast(init);
      assert forall k :: 0 <= k < |init| ==> init[k] == given[k];
    }
  }

  /** The kind of the result: a rejection if the last verdict is one; else a transformation if any verdict
      sets headers or a body; else an audit if there is any; else a pass. */
  lemma ResultKind(given: seq<Verdict>)
    ensures var r := Summary(given);
            if given != [] && given[|given| - 1].Reject? then r == given[|given| - 1]
            else if exists k :: 0 <= k < |given| && (SetsBody(given[k]) || SetsHeaders(given[k])) then
              r == Transform(LastHeaders(given), LastBody(given))
            else if exists k :: 0 <= k < |given| && given[k].Audit? then Some(r) == LastAudit(given)
            else r == Pass
  {
    LastBodyIsLast(given);
    LastHeadersAreLast(given);
    LastAuditIsLast(given);
  }

  lemma {:induction false} LastsExtend(v: Verdict, rest: seq<Verdict>)
    ensures LastBody([v] + rest) == Later(if v.Transform? then v.body else None, LastBody(rest))
    ensures LastHeaders([v] + rest) == Later(if v.Transform? then v.headers else None, LastHeaders(rest))
    ensures LastAudit([v] + rest) == Later(if v.Audit? then Some(v) else None, LastAudit(rest))
    ensures LastAudit(rest).Some? ==> LastAudit(rest).value.Audit?
  {
    if rest != [] {
      assert ([v] + rest)[..|rest|] == [v] + rest[..|rest| - 1];
      LastsExtend(v, rest[..|rest| - 1]);
    }
  }

  lemma SummaryExtends(v: Verdict, rest: seq<Verdict>)
    requires !v.Reject?
    ensures Summary([v] + rest) == Combine(v, Summary(rest))
  {
    LastsExtend(v, rest);
    if rest != [] {
      assert ([v] + rest)[|rest|] == rest[|rest| - 1];
    }
  }

  /** The response pipeline rejects with the one rejection given; else it transforms to the last
      headers and the last body set by anyone; else it reports the last audit; else it passes. */
  lemma {:induction false} ResultSummarizesStages(stages: seq<ResponseInterceptor>, parts: ResponseParts, body: Bytes)
    ensures Through(stages, parts, body).0 == Summary(Given(stages, parts, body))
  {
    if stages != [] {
      var (v, parts') := stages[0](parts, body);
      if !v.Reject? {
        ResultSummarizesStages(stages[1..], parts', Effective(v, body));
        SummaryExtends(v, Given(stages[1..], parts', Effective(v, body)));
      }
    }
  }

  // ---------------------------------------------------------------- what the stages are shown

  function ShownBody(earlier: seq<Verdict>, body: Bytes): Bytes {
    if LastBody(earlier).Some? then LastBody(earlier).value else body
  }

  /** The stages run one after another until one rejects: each is shown the last body that a verdict
      before it set, or the original, and the parts as the one before it left them. */
  ghost predicate RunsInOrder(stages: seq<ResponseInterceptor>, body: Bytes, given: seq<Verdict>, parts: seq<ResponseParts>) {
    && |parts| == |given| + 1
    && (|given| == |stages| || (|given| < |stages| && given != [] && given[|given| - 1].Reject?))
    && (forall i :: 0 <= i < |given| ==>
          && stages[i](parts[i], ShownBody(given[..i], body)) == (given[i], parts[i + 1])
          && (i < |given| - 1 ==> !given[i].Reject?))
  }

  function PartsLeft(stages: seq<ResponseInterceptor>, parts: ResponseParts, body: Bytes): seq<ResponseParts> {
    if stages == [] then [parts]
    else
      var (v, parts') := stages[0](parts, body);
      [parts] + if v.Reject? then [parts'] else PartsLeft(stages[1..], parts', Effective(v, body))
  }

  lemma ShownAfter(v: Verdict, rest: seq<Verdict>, i: nat, body: Bytes)
    requires i <= |rest|
    ensures ([v] + rest)[..i + 1] == [v] + rest[..i]
    ensures ShownBody(([v] + rest)[..i + 1], body) == ShownBody(rest[..i], Effective(v, body))
  {
    LastsExtend(v, rest[..i]);
  }

  lemma {:induction false} StagesRunInOrder(stages: seq<ResponseInterceptor>, parts: ResponseParts, body: Bytes)
    ensures var given, left := Given(stages, parts, body), PartsLeft(stages, parts, body);
            && RunsInOrder(stages, body, given, left)
            && left[0] == parts && left[|left| - 1] == Through(stages, parts, body).1
  {
    if stages != [] {
      var (v, parts') := stages[0](parts, body);
      var given, left := Given(stages, parts, body), PartsLeft(stages, parts, body);
      assert given[..0] == [];
      if !v.Reject? {
        var body' := Effective(v, body);
        StagesRunInOrder(stages[1..], parts', body');
        var rest, restLeft := Given(stages[1..], parts', body'), PartsLeft(stages[1..], parts', body');
        forall i | 0 < i < |given|
          ensures stages[i](left[i], ShownBody(given[..i], body)) == (given[i], left[i + 1])
          ensures i < |given| - 1 ==> !given[i].Reject?
        {
          ShownAfter(v, rest, i - 1, body);
          assert stages[i] == stages[1..][i - 1] && given[i] == rest[i - 1] && left[i] == restLeft[i - 1] && left[i + 1] == restLeft[i];
        }
      }
    }
  }

  /** Some such run begins with these parts and ends with these, and the verdict sums it up. */
  ghost predicate ResultOfRun(stages: seq<ResponseInterceptor>, parts: ResponseParts, body: Bytes, verdict: Verdict, parts': ResponseParts) {
    exists given, left :: RunsInOrder(stages, body, given, left) && left[0] == parts && left[|left| - 1] == parts' && verdict == Summary(given)
  }

  lemma ThroughIsRun(stages: seq<ResponseInterceptor>, parts: ResponseParts, body: Bytes)
    ensures ResultOfRun(stages, parts, body, Through(stages, parts, body).0, Through(stages, parts, body).1)
  {
    StagesRunInOrder(stages, parts, body);
    ResultSummarizesStages(stages, parts, body);
  }

  /** Running `first` extended by `second` is running `first`, and `second` on the last body set in
      `first`, or the original, and the parts that `first` leaves; after a rejection `second` is not
      consulted. */
  lemma ExtendComposes(first: seq<ResponseInterceptor>, second: seq<ResponseInterceptor>, parts: ResponseParts, body: Bytes)
    ensures var (v, parts') := Through(first, parts, body);
            Through(first + second, parts, body) ==
              if v.Reject? then (v, parts')
              else
                var (w, parts'') := Through(second, parts', ShownBody(Given(first, parts, body), body));
                (Combine(v, w), parts'')
  {
    ExtendThreads(first, second, parts, body);
    ResultSummarizesStages(first, parts, body);
    LastAuditIsAudit(Given(first, parts, body));
  }

  lemma {:induction false} LastAuditIsAudit(given: seq<Verdict>)
    ensures LastAudit(given).Some? ==> LastAudit(given).value.Audit?
  {
    if given != [] { LastAuditIsAudit(given[..|given| - 1]); }
  }

  // ---------------------------------------------------------------- request pipelines

  /** The context that the interceptors of a request share and write to. */
  datatype Shared = Shared(claims: Option<string>, headers: Headers)

  type RequestInterceptor = (Shared, string) -> (Verdict, Shared)

  /** A rejection and a transformation both end the scan. */
  predicate EndsScan(v: Verdict) { v.Reject? || v.Transform? }

  function CombineRequest(v: Verdict, w: Verdict): Verdict {
    if EndsScan(v) || w.Pass? then v else w
  }

  function Scan(stages: seq<RequestInterceptor>, shared: Shared, body: string): (Verdict, Shared) {
    if stages == [] then (Pass, shared)
    else
      var (v, shared') := stages[0](shared, body);
      if EndsScan(v) then (v, shared')
      else
        var (w, shared'') := Scan(stages[1..], shared', body);
        (CombineRequest(v, w), shared'')
  }

  lemma CombineRequestIsAssociative(u: Verdict, v: Verdict, w: Verdict)
    ensures CombineRequest(CombineRequest(u, v), w) == CombineRequest(u, CombineRequest(v, w))
    ensures CombineRequest(Pass, u) == CombineRequest(u, Pass) == u
  {}

  lemma {:induction false} ExtendScans(first: seq<RequestInterceptor>, second: seq<RequestInterceptor>, shared: Shared, body: string)
    ensures var (v, shared') := Scan(first, shared, body);
            Scan(first + second, shared, body) ==
              if EndsScan(v) then (v, shared')
              else
                var (w, shared'') := Scan(second, shared', body);
                (CombineRequest(v, w), shared'')
  {
    if first == [] {
      assert first + second == second;
    } else {
      assert (first + second)[1..] == first[1..] + second;
      var (v, shared') := first[0](shared, body);
      if !EndsScan(v) { ExtendScans(first[1..], second, shared', body); }
    }
  }

  /** The stages run one after another on the same body, sharing the context, until one rejects or
      transforms. */
  ghost predicate ScansInOrder(stages: seq<RequestInterceptor>, body: string, given: seq<Verdict>, shared: seq<Shared>) {
    && |shared| == |given| + 1
    && (|given| == |stages| || (|given| < |stages| && given != [] && (given[|given| - 1].Reject? || given[|given| - 1].Transform?)))
    && (forall i :: 0 <= i < |given| ==>
          && stages[i](shared[i], body) == (given[i], shared[i + 1])
          && (i < |given| - 1 ==> !given[i].Reject? && !given[i].Transform?))
  }

  function Scanned(stages: seq<RequestInterceptor>, shared: Shared, body: string): (seq<Verdict>, seq<Shared>) {
    if stages == [] then ([], [shared])
    else
      var (v, shared') := stages[0](shared, body);
      if EndsScan(v) then ([v], [shared, shared'])
      else
        var (given, left) := Scanned(stages[1..], shared', body);
        ([v] + given, [shared] + left)
  }

  /** The verdict that ended the scan, else the last audit, else a pass. */
  function ScanSummary(given: seq<Verdict>): Verdict {
    if given != [] && (given[|given| - 1].Reject? || given[|given| - 1].Transform?) then given[|given| - 1]
    else if LastAudit(given).Some? then LastAudit(given).value
    else Pass
  }

  lemma {:induction false} ScanRunsInOrder(stages: seq<RequestInterceptor>, shared: Shared, body: string)
    ensures var (given, left) := Scanned(stages, shared, body);
            && ScansInOrder(stages, body, given, left)
            && left[0] == shared && Scan(stages, shared, body) == (ScanSummary(given), left[|left| - 1])
  {
    if stages != [] {
      var (v, shared') := stages[0](shared, body);
      var (given, left) := Scanned(stages, shared, body);
      if !EndsScan(v) {
        ScanRunsInOrder(stages[1..], shared', body);
        var (rest, restLeft) := Scanned(stages[1..], shared', body);
        LastsExtend(v, rest);
        forall i | 0 < i < |given|
          ensures stages[i](left[i], body) == (given[i], left[i + 1])
          ensures i < |given| - 1 ==> !given[i].Reject? && !given[i].Transform?
        {
          assert stages[i] == stages[1..][i - 1] && given[i] == rest[i - 1] && left[i] == restLeft[i - 1] && left[i + 1] == restLeft[i];
        }
        if rest != [] { assert given[|given| - 1] == rest[|rest| - 1]; }
      }
    }
  }

  ghost predicate ResultOfScan(stages: seq<RequestInterceptor>, shared: Shared, body: string, verdict: Verdict, shared': Shared) {
    exists given, left :: ScansInOrder(stages, body, given, left) && left[0] == shared && left[|left| - 1] == shared' && verdict == ScanSummary(given)
  }

  lemma ScanIsRun(stages: seq<RequestInterceptor>, shared: Shared, body: string)
    ensures ResultOfScan(stages, shared, body, Scan(stages, shared, body).0, Scan(stages, shared, body).1)
  {
    ScanRunsInOrder(stages, shared, body);
  }

  // ---------------------------------------------------------------- the pipeline objects

  class ResponseInterceptorPipeline {
    var interceptors: seq<ResponseInterceptor>

    constructor ()
      ensures interceptors == []
    {
      interceptors := [];
    }

    method Extend(other: ResponseInterceptorPipeline)
      modifies this
      ensures interceptors == old(interceptors) + old(other.interceptors)
    {
      interceptors := interceptors + other.interceptors;
    }

    method InterceptResponse(parts: ResponseParts, body: Bytes) returns (verdict: Verdict, parts': ResponseParts)
      ensures (verdict, parts') == Through(interceptors, parts, body)
      ensures ResultOfRun(interceptors, parts, body, verdict, parts')
    {
      ThroughIsRun(interceptors, parts, body);
      var currentBody: Option<Bytes>, currentHeaders: Option<Headers>, audit: Option<Verdict> := None, None, None;
      parts' := parts;
      for i := 0 to |interceptors|
        invariant audit.Some? ==> audit.value.Audit?
        invariant Through(interceptors[..i], parts, body) == (Settle(currentHeaders, currentBody, audit), parts')
      {
        var effective := if currentBody.Some? then currentBody.value else body;
        ghost var before, stage := parts', interceptors[i];
        assert interceptors[..i + 1] == interceptors[..i] + [stage];
        ExtendThreads(interceptors[..i], [stage], parts, body);
        SingleStage(stage, before, effective);
        ghost var rest := interceptors[i + 1..];
        assert interceptors == interceptors[..i + 1] + rest;
        verdict, parts' := interceptors[i](parts', effective).0, interceptors[i](parts', effective).1;
        match verdict
        case Pass =>
        case Reject(_) =>
          ExtendThreads(interceptors[..i + 1], rest, parts, body);
          return;
        case Transform(headers, newBody) =>
          if headers.Some? { currentHeaders := headers; }
          if newBody.Some? { currentBody := newBody; }
        case Audit(_, _, _) => audit := Some(verdict);
      }
      assert interceptors[..|interceptors|] == interceptors;
      verdict := Settle(currentHeaders, currentBody, audit);
    }
  }

  lemma SingleStage(stage: ResponseInterceptor, parts: ResponseParts, body: Bytes)
    ensures Through([stage], parts, body) == (Canon(stage(parts, body).0), stage(parts, body).1)
  {
    var (v, parts') := stage(parts, body);
    assert Through([stage][1..], parts', Effective(v, body)) == (Pass, parts');
  }

  class RequestInterceptorPipeline {
    var interceptors: seq<RequestInterceptor>

    constructor ()
      ensures interceptors == []
    {
      interceptors := [];
    }

    method Extend(other: RequestInterceptorPipeline)
      modifies this
      ensures interceptors == old(interceptors) + old(other.interceptors)
    {
      interceptors := interceptors + other.interceptors;
    }

    method InterceptRequest(shared: Shared, body: string) returns (verdict: Verdict, shared': Shared)
      ensures (verdict, shared') == Scan(interceptors, shared, body)
      ensures ResultOfScan(interceptors, shared, body, verdict, shared')
    {
      ScanIsRun(interceptors, shared, body);
      var audit: Option<Verdict> := None;
      shared' := shared;
      for i := 0 to |interceptors|
        invariant audit.Some? ==> audit.value.Audit?
        invariant Scan(interceptors[..i], shared, body) == (Settle(None, None, audit), shared')
      {
        ghost var stage := interceptors[i];
        assert interceptors[..i + 1] == interceptors[..i] + [stage];
        ExtendScans(interceptors[..i], [stage], shared, body);
        assert Scan([stage][1..], stage(shared', body).1, body) == (Pass, stage(shared', body).1);
        assert interceptors == interceptors[..i + 1] + interceptors[i + 1..];
        verdict, shared' := interceptors[i](shared', body).0, interceptors[i](shared', body).1;
        match verdict
        case Pass =>
        case Audit(_, _, _) => audit := Some(verdict);
        case _ =>
          ExtendScans(interceptors[..i + 1], interceptors[i + 1..], shared, body);
          return;
      }
      assert interceptors[..|interceptors|] == interceptors;
      verdict := Settle(None, None, audit);
    }
  }

  // ---------------------------------------------------------------- global before route

  class InterceptorManager {
    const globalRequest: RequestInterceptorPipeline
    const globalResponse: ResponseInterceptorPipeline
    const routeRequest: map<string, RequestInterceptorPipeline>
    const routeResponse: map<string, ResponseInterceptorPipeline>

    constructor (
      globalRequest: RequestInterceptorPipeline, globalResponse: ResponseInterceptorPipeline,
      routeRequest: map<string, RequestInterceptorPipeline>, routeResponse: map<string, ResponseInterceptorPipeline>)
    {
      this.globalRequest, this.globalResponse := globalRequest, globalResponse;
      this.routeRequest, this.routeResponse := routeRequest, routeResponse;
    }

    ghost function RouteResponse(operation: Option<string>): seq<ResponseInterceptor>
      reads routeResponse.Values
    {
      if operation.Some? && operation.value in routeResponse then routeResponse[operation.value].interceptors else []
    }

    ghost function RouteRequest(operation: Option<string>): seq<RequestInterceptor>
      reads routeRequest.Values
    {
      if operation.Some? && operation.value in routeRequest then routeRequest[operation.value].interceptors else []
    }

    method GetRequestPipeline(operation: Option<string>) returns (pipeline: RequestInterceptorPipeline)
      ensures fresh(pipeline)
      ensures pipeline.interceptors == globalRequest.interceptors + RouteRequest(operation)
    {
      pipeline := new RequestInterceptorPipeline();
      pipeline.Extend(globalRequest);
      if operation.Some? && operation.value in routeRequest {
        pipeline.Extend(routeRequest[operation.value]);
      }
    }

    method GetResponsePipeline(operation: Option<string>) returns (pipeline: ResponseInterceptorPipeline)
      ensures fresh(pipeline)
      ensures pipeline.interceptors == globalResponse.interceptors + RouteResponse(operation)
    {
      pipeline := new ResponseInterceptorPipeline();
      pipeline.Extend(globalResponse);
      if operation.Some? && operation.value in routeResponse {
        pipeline.Extend(routeResponse[operation.value]);
      }
    }

    /** The fast check agrees with the composed pipeline. */
    method HasResponseInterceptors(operation: Option<string>) returns (has: bool)
      ensures has <==> globalResponse.interceptors + RouteResponse(operation) != []
    {
      if globalResponse.interceptors != [] { return true; }
      if operation.Some? && operation.value in routeResponse {
        return routeResponse[operation.value].interceptors != [];
      }
      return false;
    }
  }

  /** A global rejection, and for requests a global transformation too, shuts out every route. */
  lemma GlobalShutsOutRoute(
      globalResponse: seq<ResponseInterceptor>, routeResponse: seq<ResponseInterceptor>, parts: ResponseParts, bytes: Bytes,
      globalRequest: seq<RequestInterceptor>, routeRequest: seq<RequestInterceptor>, shared: Shared, body: string)
    ensures Through(globalResponse, parts, bytes).0.Reject? ==>
              Through(globalResponse + routeResponse, parts, bytes) == Through(globalResponse, parts, bytes)
    ensures EndsScan(Scan(globalRequest, shared, body).0) ==>
              Scan(globalRequest + routeRequest, shared, body) == Scan(globalRequest, shared, body)
  {
    ExtendComposes(globalResponse, routeResponse, parts, bytes);
    ExtendScans(globalRequest, routeRequest, shared, body);
  }
}
