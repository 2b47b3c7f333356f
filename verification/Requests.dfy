/** What the middleware does once the handler has returned, in the order the router fixes. */
module Requests {
  import opened Http
  import opened Options
  import opened Writers

  datatype Level = Info | Warn | Error

  datatype Attribute = Int(i: int) | Str(s: string)

  const STATUS_CODE := "http.status_code"
  const ERROR_KIND := "error.kind"

  /** An "http.error" event on the server span. */
  datatype ErrorEvent = ErrorEvent(status: Code, body: Option<seq<Byte>>)

  datatype Line =
    | RequestLine(level: Level, status: Code)
    | ErrorLine(level: Level, status: Code, body: seq<Byte>)

  /** The server span and the log, as the middleware leaves them. */
  datatype Trail = Trail(
    valid: bool,
    attributes: map<string, Attribute>,
    errored: bool,
    events: seq<ErrorEvent>,
    lines: seq<Line>
  )

  function Untouched(valid: bool): Trail {
    Trail(valid, map[], false, [], [])
  }

  function Annotate(t: Trail, key: string, value: Attribute): Trail {
    if t.valid then t.(attributes := t.attributes[key := value]) else t
  }

  function Severity(status: Code): Level {
    if status >= 500 then Error else if status >= 400 then Warn else Info
  }

  /** The request logger writes its JSON line only outside debug mode. */
  function AfterLogger(t: Trail, status: Code, debug: bool): Trail {
    var t := Annotate(t, STATUS_CODE, Int(status));
    if debug then t else t.(lines := t.lines + [RequestLine(Severity(status), status)])
  }

  function AfterTraceErrors(t: Trail, status: Code, body: seq<Byte>): Trail {
    if !t.valid then t
    else
      var t := Annotate(t, STATUS_CODE, Int(status));
      if status < 400 then t
      else
        var t := t.(events := t.events + [ErrorEvent(status, if body != [] then Some(body) else None)],
                    lines := t.lines + [ErrorLine(Severity(status), status, body)]);
        if status >= 500 then t.(errored := true) else Annotate(t, ERROR_KIND, Str("client"))
  }

  /** A handler run: the calls it makes on its writer, and whether it then panics. */
  datatype Handler = Handler(calls: seq<Call>, panics: bool)

  datatype Layer =
    | OtelChi
    | TraceErrors
    | RequestID
    | RealIP
    | RequestLogger(debug: bool)
    | Recoverer
    | SecurityHeaders
    | CORS

  /** What a layer hands to the layer around it: calls passed on, a panic under way, the trail. */
  datatype Outcome = Outcome(calls: seq<Call>, panicking: bool, trail: Trail)

  function After(layer: Layer, o: Outcome): Outcome {
    match layer
    case TraceErrors =>
      Outcome(CaptureForward(o.calls), o.panicking,
              if o.panicking then o.trail else AfterTraceErrors(o.trail, FirstCall(o.calls), Captured(o.calls)))
    case RequestLogger(debug) =>
      Outcome(LoggerForward(o.calls), o.panicking,
              if o.panicking then o.trail else AfterLogger(o.trail, FirstHeader(o.calls), debug))
    case Recoverer =>
      Outcome(if o.panicking then o.calls + [WriteHeader(INTERNAL_SERVER_ERROR)] else o.calls, false, o.trail)
    case _ => o
  }

  /**
   * A request through a stack of layers, outermost first. Otelchi opens a server span for a traced
   * request; only the layers inside it find that span in their context.
   */
  function Serve(stack: seq<Layer>, h: Handler, traced: bool, trail: Trail): Outcome {
    if stack == [] then Outcome(h.calls, h.panics, trail)
    else if stack[0].OtelChi? then
      Leaving(Serve(stack[1..], h, traced, Within(traced, trail)), trail.valid)
    else After(stack[0], Serve(stack[1..], h, traced, trail))
  }

  function Within(traced: bool, trail: Trail): Trail {
    trail.(valid := trail.valid || traced)
  }

  function Leaving(o: Outcome, valid: bool): Outcome {
    o.(trail := o.trail.(valid := valid))
  }

  function RouterStack(debug: bool): seq<Layer> {
    [OtelChi, TraceErrors, RequestID, RealIP, RequestLogger(debug), Recoverer, SecurityHeaders, CORS]
  }

  /** Health probes get no server span. */
  predicate Traced(path: string) {
    path != "/healthz" && path != "/livez" && path != "/readyz"
  }

  class Router {
    var stack: seq<Layer>

    constructor ()
      ensures stack == []
    {
      stack := [];
    }

    method Use(layer: Layer)
      modifies this
      ensures stack == old(stack) + [layer]
    {
      stack := stack + [layer];
    }
  }

  method NewRouter(debug: bool) returns (r: Router)
    ensures fresh(r) && r.stack == RouterStack(debug)
    ensures r.stack == [OtelChi, TraceErrors, RequestID, RealIP, RequestLogger(debug), Recoverer, SecurityHeaders, CORS]
  {
    r := new Router();
    r.Use(OtelChi);
    r.Use(TraceErrors);
    r.Use(RequestID);
    r.Use(RealIP);
    r.Use(RequestLogger(debug));
    r.Use(Recoverer);
    r.Use(SecurityHeaders);
    r.Use(CORS);
  }

  /** The span that otelchi opened for the request, if it did, and the log beside it. */
  class ServerSpan {
    const valid: bool
    var attributes: map<string, Attribute>
    var errored: bool
    var events: seq<ErrorEvent>
    var lines: seq<Line>

    constructor (valid: bool)
      ensures Record() == Untouched(valid)
    {
      this.valid := valid;
      attributes, errored, events, lines := map[], false, [], [];
    }

    function Record(): Trail
      reads this
    {
      Trail(valid, attributes, errored, events, lines)
    }

    method SetAttribute(key: string, value: Attribute)
      modifies this
      ensures Record() == Annotate(old(Record()), key, value)
    {
      if valid {
        attributes := attributes[key := value];
      }
    }

    method AddEvent(event: ErrorEvent)
      modifies this
      ensures Record() == if valid then old(Record()).(events := old(events) + [event]) else old(Record())
    {
      if valid {
        events := events + [event];
      }
    }

    method SetError()
      modifies this
      ensures Record() == if valid then old(Record()).(errored := true) else old(Record())
    {
      if valid {
        errored := true;
      }
    }

    method Log(line: Line)
      modifies this
      ensures Record() == old(Record()).(lines := old(lines) + [line])
    {
      lines := lines + [line];
    }
  }

  method FinishRequestLogger(wrapped: LoggingWriter, span: ServerSpan, debug: bool)
    requires wrapped.Valid()
    modifies span
    ensures span.Record() == AfterLogger(old(span.Record()), FirstHeader(wrapped.calls), debug)
  {
    var status := wrapped.Status();
    span.SetAttribute(STATUS_CODE, Int(wrapped.status));
    if !debug {
      var level := Info;
      if status >= 500 {
        level := Error;
      } else if status >= 400 {
        level := Warn;
      }
      span.Log(RequestLine(level, status));
    }
  }

  method FinishTraceErrors(cw: CaptureWriter, span: ServerSpan)
    requires cw.Valid()
    modifies span
    ensures span.Record() == AfterTraceErrors(old(span.Record()), FirstCall(cw.calls), Captured(cw.calls))
  {
    if !span.valid {
      return;
    }
    span.SetAttribute(STATUS_CODE, Int(cw.status));
    if cw.status >= 400 {
      var body := cw.buf;
      span.AddEvent(ErrorEvent(cw.status, if body != [] then Some(body) else None));
      var level := Warn;
      if cw.status >= 500 {
        level := Error;
        span.SetError();
      } else {
        span.SetAttribute(ERROR_KIND, Str("client"));
      }
      span.Log(ErrorLine(level, cw.status, body));
    }
  }

  /** The handler's calls, and the recoverer's 500 if it panics. */
  method RunHandler(h: Handler, wrapped: LoggingWriter)
    requires wrapped.Valid() && wrapped.calls == []
    modifies wrapped, wrapped.next, wrapped.next.next
    ensures wrapped.Valid() && wrapped.calls == Settle(h)
  {
    var i := 0;
    while i < |h.calls|
      invariant 0 <= i <= |h.calls|
      invariant wrapped.Valid() && wrapped.calls == h.calls[..i]
    {
      assert h.calls[..i + 1] == h.calls[..i] + [h.calls[i]];
      match h.calls[i] {
        case WriteHeader(code) => wrapped.WriteHeader(code);
        case Write(data) => var _ := wrapped.Write(data);
      }
      i := i + 1;
    }
    assert h.calls[..i] == h.calls;
    if h.panics {
      wrapped.WriteHeader(INTERNAL_SERVER_ERROR);
    }
  }

  /** One request through the mounts that NewRouter makes, from the handler's calls to the annotated span. */
  method ServeRequest(r: Router, path: string, tracing: bool, h: Handler, debug: bool)
    returns (w: BaseWriter, span: ServerSpan)
    requires r.stack == RouterStack(debug)
    ensures fresh(w) && w.Valid() && fresh(span)
    ensures Leaving(Outcome(w.calls, false, span.Record()), false) ==
            Serve(r.stack, h, tracing && Traced(path), Untouched(false))
  {
    RouterServes(h, debug, tracing && Traced(path), Untouched(false));
    StackedIsCapture(Settle(h));
    w := new BaseWriter();
    span := new ServerSpan(tracing && Traced(path));
    var cw := new CaptureWriter(w);
    var wrapped := new LoggingWriter(cw);
    RunHandler(h, wrapped);
    FinishRequestLogger(wrapped, span, debug);
    FinishTraceErrors(cw, span);
  }

  /** The calls the logging writer receives, with the recoverer's 500 after a panic. */
  function Settle(h: Handler): seq<Call> {
    if h.panics then h.calls + [WriteHeader(INTERNAL_SERVER_ERROR)] else h.calls
  }

  lemma RouterServes(h: Handler, debug: bool, traced: bool, trail: Trail)
    ensures Serve(RouterStack(debug), h, traced, trail) ==
            var calls := Settle(h);
            var logged := AfterLogger(Within(traced, trail), FirstHeader(calls), debug);
            Leaving(Outcome(Stacked(calls), false, AfterTraceErrors(logged, FirstCall(calls), Captured(calls))), trail.valid)
  {
    var stack := RouterStack(debug);
    assert stack[1..] == [TraceErrors, RequestID, RealIP, RequestLogger(debug), Recoverer, SecurityHeaders, CORS];
    InsideServes(h, debug, traced, Within(traced, trail));
  }

  /** A layer that hands on whatever it is handed. */
  predicate Passive(layer: Layer) {
    layer.RequestID? || layer.RealIP? || layer.SecurityHeaders? || layer.CORS?
  }

  lemma ServePassive(a: Layer, b: Layer, rest: seq<Layer>, h: Handler, traced: bool, trail: Trail)
    requires Passive(a) && Passive(b)
    ensures Serve([a, b] + rest, h, traced, trail) == Serve(rest, h, traced, trail)
  {
    ServeFirst(b, rest, h, traced, trail);
    ServeFirst(a, [b] + rest, h, traced, trail);
    assert [a] + ([b] + rest) == [a, b] + rest;
  }

  /** The layers inside otelchi. */
  lemma InsideServes(h: Handler, debug: bool, traced: bool, trail: Trail)
    ensures Serve([TraceErrors, RequestID, RealIP, RequestLogger(debug), Recoverer, SecurityHeaders, CORS], h, traced, trail) ==
            var calls := Settle(h);
            var logged := AfterLogger(trail, FirstHeader(calls), debug);
            Outcome(Stacked(calls), false, AfterTraceErrors(logged, FirstCall(calls), Captured(calls)))
  {
    var logger := RequestLogger(debug);
    var s4 := [Recoverer] + ([SecurityHeaders, CORS] + []);
    var s3 := [logger] + s4;
    var s1 := [RequestID, RealIP] + s3;
    ServePassive(SecurityHeaders, CORS, [], h, traced, trail);
    ServeFirst(Recoverer, [SecurityHeaders, CORS] + [], h, traced, trail);
    ServeFirst(logger, s4, h, traced, trail);
    ServePassive(RequestID, RealIP, s3, h, traced, trail);
    ServeFirst(TraceErrors, s1, h, traced, trail);
    assert [TraceErrors] + s1 == [TraceErrors, RequestID, RealIP, logger, Recoverer, SecurityHeaders, CORS];
    StackedIsCapture(Settle(h));
  }

  lemma ServeFirst(layer: Layer, rest: seq<Layer>, h: Handler, traced: bool, trail: Trail)
    requires !layer.OtelChi?
    ensures Serve([layer] + rest, h, traced, trail) == After(layer, Serve(rest, h, traced, trail))
  {
    assert ([layer] + rest)[1..] == rest;
  }

  predicate Silent(layers: seq<Layer>) {
    forall i :: 0 <= i < |layers| ==> !layers[i].TraceErrors? && !layers[i].RequestLogger?
  }

  /** Whether the layers inside `outer` find a server span. */
  predicate SpanInside(outer: seq<Layer>, traced: bool, trail: Trail) {
    trail.valid || (traced && OtelChi in outer)
  }

  /** Layers that never touch the span leave its last annotation standing. */
  lemma {:induction false} SilentKeepsTrail(outer: seq<Layer>, inner: seq<Layer>, h: Handler, traced: bool, trail: Trail)
    requires Silent(outer)
    ensures var o := Serve(inner, h, traced, trail.(valid := SpanInside(outer, traced, trail)));
            var whole := Serve(outer + inner, h, traced, trail);
            && whole.trail == o.trail.(valid := trail.valid)
            && (!o.panicking ==> whole == Leaving(o, trail.valid))
  {
    if outer == [] {
      assert outer + inner == inner;
      KeepsValid(inner, h, traced, trail);
    } else {
      assert (outer + inner)[1..] == outer[1..] + inner;
      assert outer == [outer[0]] + outer[1..];
      SilentKeepsTrail(outer[1..], inner, h, traced, if outer[0].OtelChi? then Within(traced, trail) else trail);
    }
  }

  /**
   * Mounted outside every request logger, TraceErrors has the last word on http.status_code, and
   * that word is the client's status exactly when the run did not open with an interim code.
   */
  lemma OutermostTraceErrorsDecides(outer: seq<Layer>, inner: seq<Layer>, h: Handler, traced: bool, trail: Trail)
    requires Silent(outer) && SpanInside(outer, traced, trail)
    requires !Serve(inner, h, traced, trail.(valid := true)).panicking
    ensures var seen := Serve(inner, h, traced, trail.(valid := true)).calls;
            var o := Serve(outer + [TraceErrors] + inner, h, traced, trail);
            && STATUS_CODE in o.trail.attributes
            && (o.trail.attributes[STATUS_CODE] == Int(Received(o.calls).status) <==> !StartsInterim(seen))
  {
    var within := trail.(valid := true);
    KeepsValid(inner, h, traced, within);
    ServeFirst(TraceErrors, inner, h, traced, within);
    assert outer + [TraceErrors] + inner == outer + ([TraceErrors] + inner);
    SilentKeepsTrail(outer, [TraceErrors] + inner, h, traced, trail);
    CaptureReply(Serve(inner, h, traced, within).calls);
  }

  /** Mounted where no span is open yet, TraceErrors leaves no mark at all: it belongs inside otelchi. */
  lemma TraceErrorsOutsideTracing(inner: seq<Layer>, h: Handler, traced: bool, trail: Trail)
    requires !trail.valid
    ensures Serve([TraceErrors] + inner, h, traced, trail).trail == Serve(inner, h, traced, trail).trail
  {
    ServeFirst(TraceErrors, inner, h, traced, trail);
    KeepsValid(inner, h, traced, trail);
  }

  lemma {:induction false} KeepsValid(stack: seq<Layer>, h: Handler, traced: bool, trail: Trail)
    ensures Serve(stack, h, traced, trail).trail.valid == trail.valid
  {
    if stack != [] && !stack[0].OtelChi? {
      KeepsValid(stack[1..], h, traced, trail);
    }
  }

  /**
   * With the mounts swapped the capturing writer would filter what the logger sees, so span and
   * request log could not disagree, and both would carry the client's status unless the run opened
   * with an interim code: the mount order is what lets the log line part from the client.
   */
  lemma SwappedMountsAgree(outer: seq<Layer>, inner: seq<Layer>, h: Handler, traced: bool, trail: Trail)
    requires Silent(outer) && SpanInside(outer, traced, trail)
    requires !Serve(inner, h, traced, trail.(valid := true)).panicking
    ensures var seen := Serve(inner, h, traced, trail.(valid := true)).calls;
            var o := Serve(outer + [RequestLogger(false), TraceErrors] + inner, h, traced, trail);
            && STATUS_CODE in o.trail.attributes
            && o.trail.attributes[STATUS_CODE] == Int(FirstCall(seen))
            && o.trail.lines != []
            && o.trail.lines[|o.trail.lines| - 1].RequestLine?
            && o.trail.lines[|o.trail.lines| - 1].status == FirstCall(seen)
            && (FirstCall(seen) == Received(o.calls).status <==> !StartsInterim(seen))
  {
    var within := trail.(valid := true);
    var seen := Serve(inner, h, traced, within).calls;
    var pair := [RequestLogger(false)] + ([TraceErrors] + inner);
    SwappedPair(inner, h, traced, within);
    Adjacent(outer, RequestLogger(false), TraceErrors, inner);
    SilentKeepsTrail(outer, pair, h, traced, trail);
    CaptureReply(seen);
  }

  /** The reply through the capturing writer alone. */
  lemma CaptureReply(seen: seq<Call>)
    ensures FirstCall(seen) == Received(CaptureForward(seen)).status <==> !StartsInterim(seen)
  {
    StackedIsCapture(seen);
    StackedReply(seen);
  }

  lemma Adjacent(outer: seq<Layer>, a: Layer, b: Layer, inner: seq<Layer>)
    ensures outer + [a, b] + inner == outer + ([a] + ([b] + inner))
  {
  }

  /** The two swapped layers by themselves. */
  lemma SwappedPair(inner: seq<Layer>, h: Handler, traced: bool, trail: Trail)
    requires trail.valid && !Serve(inner, h, traced, trail).panicking
    ensures var seen := Serve(inner, h, traced, trail).calls;
            var o := Serve([RequestLogger(false)] + ([TraceErrors] + inner), h, traced, trail);
            && o.calls == CaptureForward(seen) && !o.panicking
            && STATUS_CODE in o.trail.attributes && o.trail.attributes[STATUS_CODE] == Int(FirstCall(seen))
            && o.trail.lines != [] && o.trail.lines[|o.trail.lines| - 1].RequestLine?
            && o.trail.lines[|o.trail.lines| - 1].status == FirstCall(seen)
  {
    var seen := Serve(inner, h, traced, trail).calls;
    var marked := AfterTraceErrors(Serve(inner, h, traced, trail).trail, FirstCall(seen), Captured(seen));
    KeepsValid(inner, h, traced, trail);
    ServeFirst(TraceErrors, inner, h, traced, trail);
    ServeFirst(RequestLogger(false), [TraceErrors] + inner, h, traced, trail);
    FirstHeaderAfterCapture(seen);
    LoggerAfterCapture(seen);
    LoggedLast(marked, FirstCall(seen));
  }

  /** The request logger's mark on a span: the status attribute and the last line. */
  lemma LoggedLast(t: Trail, status: Code)
    requires t.valid
    ensures var o := AfterLogger(t, status, false);
            && STATUS_CODE in o.attributes && o.attributes[STATUS_CODE] == Int(status)
            && o.lines != [] && o.lines[|o.lines| - 1].RequestLine? && o.lines[|o.lines| - 1].status == status
  {
  }

  lemma FirstHeaderAfterCapture(seen: seq<Call>)
    ensures FirstHeader(CaptureForward(seen)) == FirstCall(seen)
  {
    if seen != [] && seen[0].Write? {
      WritesAreWrites(seen[1..]);
      assert !HasHeader(CaptureForward(seen));
      NoHeader(CaptureForward(seen));
    }
  }

  /** Without the capturing writer, the request logger alone would misreport a late header. */
  lemma LoggerAloneMisleads()
    ensures var o := Serve([OtelChi, RequestLogger(false)], Handler([Write([1]), WriteHeader(500)], false), true, Untouched(false));
            && STATUS_CODE in o.trail.attributes
            && o.trail.attributes[STATUS_CODE] == Int(500)
            && Received(o.calls).status == OK
  {
    var calls: seq<Call> := [Write([1]), WriteHeader(500)];
    var h := Handler(calls, false);
    assert [RequestLogger(false)][1..] == [];
    assert [OtelChi, RequestLogger(false)][1..] == [RequestLogger(false)];
    assert Serve([RequestLogger(false)], h, true, Untouched(true)).calls == LoggerForward(calls);
    assert calls[1..] == [WriteHeader(500)];
    FirstThenWrites(FRESH, Write([1]), LoggerForward(calls[1..]));
    CommittedIsFinal(Step(FRESH, Write([1])), LoggerForward(calls[1..]));
  }

  /**
   * What TraceErrors records, against the reply the client got, for every handler run, recovered
   * panics and interim codes included.
   */
  lemma AnnotationClasses(h: Handler, debug: bool)
    ensures var o := Serve(RouterStack(debug), h, true, Untouched(false));
            var client := Received(o.calls);
            && (o.trail.errored <==> client.status >= 500)
            && (ERROR_KIND in o.trail.attributes <==> 400 <= client.status < 500)
            && (ERROR_KIND in o.trail.attributes ==> o.trail.attributes[ERROR_KIND] == Str("client"))
            && (if client.status < 400 then o.trail.events == []
                else o.trail.events == [ErrorEvent(client.status, ErrorBody(client.body))])
  {
    var calls := Settle(h);
    RouterServes(h, debug, true, Untouched(false));
    StackedReply(calls);
  }

  /** The body attribute of an error event: the first 4096 bytes of the reply, absent when empty. */
  function ErrorBody(body: seq<Byte>): Option<seq<Byte>> {
    if body == [] then None else if |body| <= 4096 then Some(body) else Some(body[..4096])
  }

  /** With tracing on, a request is recorded on a server span exactly when its path is not a health probe's. */
  lemma OnlyProbesAreUntraced(path: string, tracing: bool, h: Handler, debug: bool)
    ensures var o := Serve(RouterStack(debug), h, tracing && Traced(path), Untouched(false));
            "http.status_code" in o.trail.attributes <==> tracing && path !in {"/healthz", "/livez", "/readyz"}
  {
    RouterServes(h, debug, tracing && Traced(path), Untouched(false));
  }

  /** A health probe leaves no mark on any span and no error line, only the request line. */
  lemma ProbesAreUnmarked(path: string, tracing: bool, h: Handler, debug: bool)
    requires path in {"/healthz", "/livez", "/readyz"}
    ensures var o := Serve(RouterStack(debug), h, tracing && Traced(path), Untouched(false));
            && o.trail.(lines := []) == Untouched(false)
            && (debug ==> o.trail.lines == [])
            && (!debug ==> |o.trail.lines| == 1 && o.trail.lines[0].RequestLine?)
  {
    RouterServes(h, debug, false, Untouched(false));
  }

  /** On the router's span the last http.status_code is the client's status, unless the run opened with an interim code. */
  lemma SpanStatusIsClientStatus(h: Handler, debug: bool)
    ensures var o := Serve(RouterStack(debug), h, true, Untouched(false));
            && STATUS_CODE in o.trail.attributes
            && (o.trail.attributes[STATUS_CODE] == Int(Received(o.calls).status) <==> !StartsInterim(Settle(h)))
  {
    RouterServes(h, debug, true, Untouched(false));
    StackedReply(Settle(h));
  }

  /** Error from 500 on, Warn from 400 on, Info below. */
  predicate Graded(level: Level, status: Code) {
    && (level == Error <==> status >= 500)
    && (level == Warn <==> 400 <= status < 500)
    && (level == Info <==> status < 400)
  }

  /** The error line on a reply: at Error from 500 on and at Warn below, with the first 4096 bytes of the body. */
  predicate Reports(line: Line, client: Reply) {
    && line.ErrorLine? && line.status == client.status && Graded(line.level, client.status)
    && line.body == if |client.body| <= 4096 then client.body else client.body[..4096]
  }

  /**
   * The request line is graded by the status that the logging writer latched, the error line by the
   * client's; whenever TraceErrors logs, both agree. The converse fails exactly on a late error
   * header: a request line at Warn or above stands alone if and only if a body write preceded the
   * first header.
   */
  lemma LevelsMatch(h: Handler)
    ensures var o := Serve(RouterStack(false), h, true, Untouched(false));
            var calls, lines, client := Settle(h), o.trail.lines, Received(o.calls);
            && 1 <= |lines| <= 2
            && lines[0].RequestLine? && lines[0].status == FirstHeader(calls) && Graded(lines[0].level, FirstHeader(calls))
            && (|lines| == 2 ==> Reports(lines[1], client) && lines[1].status == lines[0].status && lines[1].level == lines[0].level)
            && (|lines| == 2 <==> client.status >= 400)
            && (|lines| == 1 && lines[0].level != Info <==> FirstHeader(calls) >= 400 && calls[0].Write?)
  {
    var calls := Settle(h);
    RouterServes(h, false, true, Untouched(false));
    StackedReply(calls);
    if calls != [] && calls[0].WriteHeader? {
      assert FirstHeader(calls) == FirstCall(calls);
    }
  }

  /** In debug mode the request line goes to the terminal, and the error line stands alone. */
  lemma DebugKeepsErrorLines(h: Handler)
    ensures var o := Serve(RouterStack(true), h, true, Untouched(false));
            var lines, client := o.trail.lines, Received(o.calls);
            if client.status >= 400 then |lines| == 1 && Reports(lines[0], client) else lines == []
  {
    RouterServes(h, true, true, Untouched(false));
    StackedReply(Settle(h));
  }

  /** Panicking before any header or write is reported as 500 by the client, the span and the log alike. */
  lemma CleanRecovery(debug: bool)
    ensures var o := Serve(RouterStack(debug), Handler([], true), true, Untouched(false));
            && Received(o.calls) == Reply([], INTERNAL_SERVER_ERROR, [])
            && o.trail.errored
            && STATUS_CODE in o.trail.attributes && o.trail.attributes[STATUS_CODE] == Int(500)
  {
    var h := Handler([], true);
    RouterServes(h, debug, true, Untouched(false));
    assert Settle(h) == [WriteHeader(INTERNAL_SERVER_ERROR)];
    StackedReply(Settle(h));
    assert Body(Settle(h)) == [];
  }
}
