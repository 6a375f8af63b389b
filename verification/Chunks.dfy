/** The response side of the gateway (src/gateway/composite_service.rs:1304-1472): chunks stream
    through and are captured up to a limit, or are held back until the end of the stream so that the
    response pipeline sees the whole body. */
module Chunks {
  import opened Wrappers
  import opened Pipelines
  import Lifecycle

  const MAX_TELEMETRY_RESPONSE_BYTES: nat := 65536

  /** What one response is handled under: the configuration in force, the preview limit of the
      configuration at start-up, and the text codecs. */
  datatype Setting = Setting(
    captureErrors: bool,
    maxBodyBytes: nat,
    previewBytes: nat,
    policy: Lifecycle.DispatchPolicy,
    decode: Bytes -> Option<string>,
    decodeLossy: Bytes -> string,
    render: Rejection -> Bytes)

  /** The response fields of the request's context. */
  datatype Context = Context(
    buffer: Bytes,
    intercepted: bool,
    parts: Option<ResponseParts>,
    errorPreview: Option<string>,
    responseBody: Option<(Headers, string)>,
    auditRule: Option<string>,
    auditTag: Option<string>,
    responsePreview: Option<string>)

  function IsError(ctx: Context): bool { ctx.parts.Some? && 400 <= ctx.parts.value.status < 600 }

  /** How much of the body the fast path keeps. */
  function Limit(cfg: Setting, ctx: Context): nat {
    if IsError(ctx) && cfg.captureErrors then cfg.maxBodyBytes
    else if cfg.policy.ResponseOnly? || cfg.policy.NoDispatch? then 0
    else MAX_TELEMETRY_RESPONSE_BYTES
  }

  function FirstBytes(limit: nat, bytes: Bytes): Bytes { if |bytes| <= limit then bytes else bytes[..limit] }

  function PartsShown(ctx: Context): ResponseParts { if ctx.parts.Some? then ctx.parts.value else ResponseParts(200, []) }
  function HeadersShown(ctx: Context): Headers { if ctx.parts.Some? then ctx.parts.value.headers else [] }
  function Text(cfg: Setting, bytes: Bytes): string { if cfg.decode(bytes).Some? then cfg.decode(bytes).value else "" }

  function FinalBytes(cfg: Setting, verdict: Verdict, whole: Bytes): Bytes {
    match verdict
    case Transform(_, Some(body)) => body
    case Reject(rejection) => cfg.render(rejection)
    case _ => whole
  }

  function Preview(cfg: Setting, whole: Bytes): string {
    cfg.decodeLossy(FirstBytes(cfg.previewBytes, whole)) + (if |whole| > cfg.previewBytes then "... [truncated]" else "")
  }

  // ---------------------------------------------------------------- one chunk

  class ResponseContext {
    var buffer: Bytes
    var intercepted: bool
    var parts: Option<ResponseParts>
    var errorPreview: Option<string>
    var responseBody: Option<(Headers, string)>
    var auditRule: Option<string>
    var auditTag: Option<string>
    var responsePreview: Option<string>

    ghost function Now(): Context
      reads this
    {
      Context(buffer, intercepted, parts, errorPreview, responseBody, auditRule, auditTag, responsePreview)
    }

    constructor ()
      ensures Now() == Context([], false, None, None, None, None, None, None)
    {
      buffer, intercepted, parts := [], false, None;
      errorPreview, responseBody, auditRule, auditTag, responsePreview := None, None, None, None, None;
    }

    method ResponseFilter(resp: ResponseParts, manager: InterceptorManager, operation: Option<string>) returns (keepsLength: bool)
      modifies this
      ensures Now() == Filtered(old(Now()), resp, AllStages(manager, operation))
      ensures buffer == [] && parts == Some(resp) && (intercepted <==> old(intercepted) || !keepsLength)
      ensures keepsLength <==> AllStages(manager, operation) == []
    {
      buffer := [];
      parts := Some(resp);
      var has := manager.HasResponseInterceptors(operation);
      if has { intercepted := true; }
      keepsLength := !has;
    }

    method ResponseBodyFilter(cfg: Setting, manager: InterceptorManager, operation: Option<string>, body: Option<Bytes>, endOfStream: bool)
        returns (forward: Option<Bytes>)
      modifies this
      ensures (Now(), forward) == AfterChunk(cfg, AllStages(manager, operation), old(Now()), body, endOfStream)
    {
      if !intercepted {
        ghost var before := Now();
        assert body.None? ==> Captured(Limit(cfg, before), buffer, []) == buffer;
        var isErr := parts.Some? && 400 <= parts.value.status < 600;
        if body.Some? {
          var b := body.value;
          if isErr && cfg.captureErrors {
            if |buffer| < cfg.maxBodyBytes {
              var toTake := if cfg.maxBodyBytes - |buffer| < |b| then cfg.maxBodyBytes - |buffer| else |b|;
              assert b[..toTake] == FirstBytes(Limit(cfg, before) - |buffer|, b);
              buffer := buffer + b[..toTake];
            }
          } else if !cfg.policy.ResponseOnly? && !cfg.policy.NoDispatch? {
            if |buffer| < MAX_TELEMETRY_RESPONSE_BYTES {
              var toTake := if MAX_TELEMETRY_RESPONSE_BYTES - |buffer| < |b| then MAX_TELEMETRY_RESPONSE_BYTES - |buffer| else |b|;
              assert b[..toTake] == FirstBytes(Limit(cfg, before) - |buffer|, b);
              buffer := buffer + b[..toTake];
            }
          }
        }
        assert buffer == Captured(Limit(cfg, before), before.buffer, if body.Some? then body.value else []);
        if endOfStream {
          var text := Text(cfg, buffer);
          if isErr && cfg.captureErrors { errorPreview := Some(text); }
          responseBody := Some((if parts.Some? then parts.value.headers else [], text));
          buffer := [];
        }
        return body;
      }
      if body.Some? { buffer := buffer + body.value; }
      assert buffer == old(buffer) + if body.Some? then body.value else [];
      forward := None;
      if endOfStream {
        ghost var stages := AllStages(manager, operation);
        var pipeline := manager.GetResponsePipeline(operation);
        assert pipeline.interceptors == stages;
        var finalBytes := Conclude(cfg, pipeline);
        forward := Some(finalBytes);
      }
    }

    /** The held-back body meets the pipeline. */
    method Conclude(cfg: Setting, pipeline: ResponseInterceptorPipeline) returns (finalBytes: Bytes)
      modifies this
      ensures (Now(), finalBytes) == Concluded(cfg, pipeline.interceptors, old(Now()), old(buffer))
    {
      var shown := if parts.Some? then parts.value else ResponseParts(200, []);
      var verdict, _ := pipeline.InterceptResponse(shown, buffer);
      match verdict {
        case Pass => finalBytes := buffer;
        case Transform(_, newBody) => finalBytes := if newBody.Some? then newBody.value else buffer;
        case Reject(rejection) =>
          errorPreview := Some(rejection.code + ": " + rejection.message);
          finalBytes := cfg.render(rejection);
        case Audit(ruleName, tag, _) =>
          auditTag, auditRule := tag, Some(ruleName);
          var previewLen := if |buffer| < cfg.previewBytes then |buffer| else cfg.previewBytes;
          assert buffer[..previewLen] == FirstBytes(cfg.previewBytes, buffer);
          var preview := cfg.decodeLossy(buffer[..previewLen]);
          preview := preview + if |buffer| > cfg.previewBytes then "... [truncated]" else "";
          responsePreview := Some(preview);
          finalBytes := buffer;
      }
      responseBody := Some((if parts.Some? then parts.value.headers else [], Text(cfg, finalBytes)));
      buffer := [];
    }
  }

  ghost function AllStages(manager: InterceptorManager, operation: Option<string>): seq<ResponseInterceptor>
    reads manager.globalResponse, manager.routeResponse.Values
  {
    manager.globalResponse.interceptors + manager.RouteResponse(operation)
  }

  function Filtered(ctx: Context, resp: ResponseParts, stages: seq<ResponseInterceptor>): Context {
    ctx.(buffer := [], parts := Some(resp), intercepted := ctx.intercepted || stages != [])
  }

  /** The room left in the buffer decides how much of a chunk is captured. */
  function Captured(limit: nat, buffer: Bytes, chunk: Bytes): Bytes {
    if |buffer| >= limit then buffer else buffer + FirstBytes(limit - |buffer|, chunk)
  }

  /** The end of an intercepted stream whose body is `whole`. */
  function Concluded(cfg: Setting, stages: seq<ResponseInterceptor>, ctx: Context, whole: Bytes): (Context, Bytes) {
    var verdict := Through(stages, PartsShown(ctx), whole).0;
    var bytes := FinalBytes(cfg, verdict, whole);
    var noted := match verdict
      case Reject(rejection) => ctx.(errorPreview := Some(rejection.code + ": " + rejection.message))
      case Audit(ruleName, tag, _) =>
        ctx.(auditRule := Some(ruleName), auditTag := tag, responsePreview := Some(Preview(cfg, whole)))
      case _ => ctx;
    (noted.(responseBody := Some((HeadersShown(ctx), Text(cfg, bytes))), buffer := []), bytes)
  }

  /** The end of a stream that was passed on as it came, of which `kept` was captured. */
  function Closed(cfg: Setting, ctx: Context, kept: Bytes): Context {
    ctx.(errorPreview := if IsError(ctx) && cfg.captureErrors then Some(Text(cfg, kept)) else ctx.errorPreview,
         responseBody := Some((HeadersShown(ctx), Text(cfg, kept))), buffer := [])
  }

  function AfterChunk(cfg: Setting, stages: seq<ResponseInterceptor>, ctx: Context, body: Option<Bytes>, endOfStream: bool): (Context, Option<Bytes>) {
    var chunk := if body.Some? then body.value else [];
    if !ctx.intercepted then
      var kept := Captured(Limit(cfg, ctx), ctx.buffer, chunk);
      (if endOfStream then Closed(cfg, ctx, kept) else ctx.(buffer := kept), body)
    else
      var whole := ctx.buffer + chunk;
      if endOfStream then
        var (ctx', bytes) := Concluded(cfg, stages, ctx, whole);
        (ctx', Some(bytes))
      else (ctx.(buffer := whole), None)
  }

  // ---------------------------------------------------------------- whole streams

  type Stream = seq<Option<Bytes>>

  function Silence(n: nat): Stream { seq(n, _ => None) }

  function Whole(stream: Stream): Bytes {
    if stream == [] then []
    else Whole(stream[..|stream| - 1]) + (if stream[|stream| - 1].Some? then stream[|stream| - 1].value else [])
  }

  /** Feeds the chunks; `ends` marks the last of them as the end of the stream. */
  function Fed(cfg: Setting, stages: seq<ResponseInterceptor>, ctx: Context, stream: Stream, ends: bool): (Context, Stream) {
    if stream == [] then (ctx, [])
    else
      var (ctx', out) := Fed(cfg, stages, ctx, stream[..|stream| - 1], false);
      var (ctx'', forward) := AfterChunk(cfg, stages, ctx', stream[|stream| - 1], ends);
      (ctx'', out + [forward])
  }

  lemma CaptureAppends(limit: nat, bytes: Bytes, chunk: Bytes)
    ensures Captured(limit, FirstBytes(limit, bytes), chunk) == FirstBytes(limit, bytes + chunk)
  {}

  /** Before the end, the fast path has forwarded every chunk and kept the first bytes of them all. */
  lemma {:induction false} FastPathKeepsPrefix(cfg: Setting, stages: seq<ResponseInterceptor>, ctx: Context, stream: Stream)
    requires !ctx.intercepted && ctx.buffer == []
    ensures Fed(cfg, stages, ctx, stream, false) == (ctx.(buffer := FirstBytes(Limit(cfg, ctx), Whole(stream))), stream)
  {
    if stream == [] {
      assert ctx == ctx.(buffer := []);
    } else {
      var n := |stream| - 1;
      FastPathKeepsPrefix(cfg, stages, ctx, stream[..n]);
      var chunk := if stream[n].Some? then stream[n].value else [];
      CaptureAppends(Limit(cfg, ctx), Whole(stream[..n]), chunk);
      assert stream == stream[..n] + [stream[n]];
    }
  }

  /** An intercepted stream is held back whole. */
  lemma {:induction false} InterceptedIsHeld(cfg: Setting, stages: seq<ResponseInterceptor>, ctx: Context, stream: Stream)
    requires ctx.intercepted && ctx.buffer == []
    ensures Fed(cfg, stages, ctx, stream, false) == (ctx.(buffer := Whole(stream)), Silence(|stream|))
  {
    if stream == [] {
      assert ctx == ctx.(buffer := []);
    } else {
      var n := |stream| - 1;
      InterceptedIsHeld(cfg, stages, ctx, stream[..n]);
      assert Silence(|stream|) == Silence(n) + [None];
    }
  }

  /** Fast path: every chunk goes out as it came in, and what is recorded at the end is the first
      bytes of the body, up to the error limit, 64 KB or nothing. */
  lemma FastPathStreams(cfg: Setting, stages: seq<ResponseInterceptor>, ctx: Context, stream: Stream)
    requires !ctx.intercepted && ctx.buffer == [] && stream != []
    ensures Fed(cfg, stages, ctx, stream, true) == (Closed(cfg, ctx, FirstBytes(Limit(cfg, ctx), Whole(stream))), stream)
  {
    var n := |stream| - 1;
    FastPathKeepsPrefix(cfg, stages, ctx, stream[..n]);
    var chunk := if stream[n].Some? then stream[n].value else [];
    CaptureAppends(Limit(cfg, ctx), Whole(stream[..n]), chunk);
    assert stream == stream[..n] + [stream[n]];
  }

  /** In numbers: what is recorded of a streamed body is a prefix of it, of at most the error limit for a
      captured error response, of nothing under the policies that do not report responses, and else of
      65 536 bytes; the error preview is that prefix, for captured errors only. */
  lemma CaptureInNumbers(cfg: Setting, stages: seq<ResponseInterceptor>, ctx: Context, stream: Stream)
    requires !ctx.intercepted && ctx.buffer == [] && stream != []
    ensures var ctx', whole := Fed(cfg, stages, ctx, stream, true).0, Whole(stream);
            var captured := cfg.captureErrors && ctx.parts.Some? && 400 <= ctx.parts.value.status <= 599;
            var limit: nat := if captured then cfg.maxBodyBytes
                              else if cfg.policy.ResponseOnly? || cfg.policy.NoDispatch? then 0 else 65536;
            var kept := if |whole| <= limit then whole else whole[..limit];
            var text := if cfg.decode(kept).Some? then cfg.decode(kept).value else "";
            && ctx'.buffer == []
            && ctx'.responseBody == Some((if ctx.parts.Some? then ctx.parts.value.headers else [], text))
            && ctx'.errorPreview == (if captured then Some(text) else ctx.errorPreview)
            && ctx'.auditRule == ctx.auditRule && ctx'.auditTag == ctx.auditTag && ctx'.responsePreview == ctx.responsePreview
  {
    FastPathStreams(cfg, stages, ctx, stream);
  }

  /** What is noted of an intercepted response: the rejection's code and message; the audit's rule, tag
      and a preview of the body up to the limit at start-up; and in every case the body that went out. */
  lemma ConclusionInWords(cfg: Setting, stages: seq<ResponseInterceptor>, ctx: Context, stream: Stream)
    requires ctx.intercepted && ctx.buffer == [] && stream != []
    ensures var ctx', whole := Fed(cfg, stages, ctx, stream, true).0, Whole(stream);
            var verdict := Through(stages, if ctx.parts.Some? then ctx.parts.value else ResponseParts(200, []), whole).0;
            var out := Whole(Fed(cfg, stages, ctx, stream, true).1);
            var kept := if |whole| <= cfg.previewBytes then whole else whole[..cfg.previewBytes];
            && ctx'.buffer == []
            && ctx'.responseBody == Some((if ctx.parts.Some? then ctx.parts.value.headers else [], if cfg.decode(out).Some? then cfg.decode(out).value else ""))
            && ctx'.errorPreview == (if verdict.Reject? then Some(verdict.rejection.code + ": " + verdict.rejection.message) else ctx.errorPreview)
            && ctx'.auditRule == (if verdict.Audit? then Some(verdict.ruleName) else ctx.auditRule)
            && ctx'.auditTag == (if verdict.Audit? then verdict.tag else ctx.auditTag)
            && ctx'.responsePreview == (
                 if !verdict.Audit? then ctx.responsePreview
                 else if |whole| <= cfg.previewBytes then Some(cfg.decodeLossy(kept))
                 else Some(cfg.decodeLossy(kept) + "... [truncated]"))
  {
    InterceptedConcludes(cfg, stages, ctx, stream);
    NothingForwarded(|stream| - 1, Some(Concluded(cfg, stages, ctx, Whole(stream)).1));
    assert cfg.decodeLossy(Whole(stream)) + "" == cfg.decodeLossy(Whole(stream));
  }

  /** Intercepted path: nothing goes out before the end, and what goes out then is decided by the whole
      body alone. */
  lemma InterceptedConcludes(cfg: Setting, stages: seq<ResponseInterceptor>, ctx: Context, stream: Stream)
    requires ctx.intercepted && ctx.buffer == [] && stream != []
    ensures var (ctx', bytes) := Concluded(cfg, stages, ctx, Whole(stream));
            Fed(cfg, stages, ctx, stream, true) == (ctx', Silence(|stream| - 1) + [Some(bytes)])
  {
    var n := |stream| - 1;
    InterceptedIsHeld(cfg, stages, ctx, stream[..n]);
  }

  lemma {:induction false} NothingForwarded(n: nat, last: Option<Bytes>)
    ensures Whole(Silence(n) + [last]) == if last.Some? then last.value else []
  {
    assert (Silence(n) + [last])[..n] == Silence(n);
    if n > 0 {
      assert Silence(n) == Silence(n - 1) + [None];
      NothingForwarded(n - 1, None);
    }
  }

  /** Two chunkings of one body leave the same record and send the client the same bytes. */
  lemma ChunkingDoesNotMatter(cfg: Setting, stages: seq<ResponseInterceptor>, ctx: Context, one: Stream, other: Stream)
    requires ctx.buffer == [] && one != [] && other != [] && Whole(one) == Whole(other)
    ensures var (ctx1, out1) := Fed(cfg, stages, ctx, one, true);
            var (ctx2, out2) := Fed(cfg, stages, ctx, other, true);
            ctx1 == ctx2 && Whole(out1) == Whole(out2)
  {
    if ctx.intercepted {
      InterceptedConcludes(cfg, stages, ctx, one);
      InterceptedConcludes(cfg, stages, ctx, other);
      var bytes := Concluded(cfg, stages, ctx, Whole(one)).1;
      NothingForwarded(|one| - 1, Some(bytes));
      NothingForwarded(|other| - 1, Some(bytes));
    } else {
      FastPathStreams(cfg, stages, ctx, one);
      FastPathStreams(cfg, stages, ctx, other);
    }
  }

  /** The client is sent the body itself unless the pipeline rejects it or sets another body; a
      pipeline that only passes or audits therefore never alters a byte. */
  lemma BodySurvivesUnless(cfg: Setting, stages: seq<ResponseInterceptor>, ctx: Context, stream: Stream)
    requires ctx.buffer == [] && stream != []
    ensures var verdict := Through(stages, PartsShown(ctx), Whole(stream)).0;
            Whole(Fed(cfg, stages, ctx, stream, true).1) ==
              if ctx.intercepted && verdict.Reject? then cfg.render(verdict.rejection)
              else if ctx.intercepted && verdict.Transform? && verdict.body.Some? then verdict.body.value
              else Whole(stream)
  {
    if ctx.intercepted {
      InterceptedConcludes(cfg, stages, ctx, stream);
      NothingForwarded(|stream| - 1, Some(Concluded(cfg, stages, ctx, Whole(stream)).1));
    } else {
      FastPathStreams(cfg, stages, ctx, stream);
    }
  }
}
