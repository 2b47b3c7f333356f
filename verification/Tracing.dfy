/** The span executor `child`, run on scenario trees over a clock, a word of events and a span log. */
module Tracing {
  import opened Options

  type Error = string

  const DEBUG := -4
  const INFO := 0
  const WARN := 4
  const ERROR := 8

  datatype Status = Unset | Failed(error: Error)

  /**
   * A finished span. Parent 0 stands for "none"; times and durations count nanoseconds; `exception`
   * says that an exception event was recorded on it.
   */
  datatype Span = Span(
    trace: nat, id: nat, parent: nat, name: string,
    start: int, end: int, status: Status, sleepMs: Option<int>, exception: bool)
  {
    function Duration(): int { end - start }
  }

  /**
   * A `child` call asks for a sleep. A handler opens its own span, does not sleep, and may mark
   * that span as failed before it ends.
   */
  datatype Kind = Child(sleep: int) | Handler(failure: Option<Error>)

  datatype Node = Node(kind: Kind, name: string, fn: Option<Callback>)

  /** How a call ends: it returns nil, returns an error, or panics. */
  datatype Result = Fine | Err(error: Error) | Panic

  /** A callback takes its steps and then ends with `ret`, unless a step ended it earlier. */
  datatype Callback = Callback(steps: Steps, ret: Result)

  datatype Steps =
    | Done
    | Emit(level: int, text: string, rest: Steps)
    | Call(call: Node, use: Use, rest: Steps)

  /** What a callback makes of a call that does not return nil. */
  datatype Use =
    | Discarded   // _ = child(...)
    | HandedOn    // if err := child(...); err != nil { return err }
    | Inspected(pick: Result -> nat, branches: seq<Callback>)   // a branch for some errors or panics, the rest handed on

  function Discard(call: Node, rest: Steps): Steps {
    Call(call, Discarded, rest)
  }

  /** How a callback goes on after its first call has ended with `r`; None when it ends with `r` too. */
  function Resume(f: Callback, r: Result): (next: Option<Callback>)
    requires f.steps.Call?
    ensures next.Some? ==> next.value.steps < f.steps
  {
    var use := f.steps.use;
    if r.Fine? || (r.Err? && use.Discarded?) then Some(f.(steps := f.steps.rest))
    else if use.Inspected? && use.pick(r) < |use.branches| then Some(use.branches[use.pick(r)])
    else None
  }

  datatype SpanContext = SpanContext(trace: nat, span: nat) {
    predicate IsValid() { trace != 0 && span != 0 }
  }

  datatype Message = SpanStart(name: string) | SpanEnd(name: string) | Text(level: int, text: string)

  datatype Line = Line(message: Message, attrs: map<string, nat>)

  const TRACE_ID := "trace_id"
  const SPAN_ID := "span_id"

  /** TraceHandler.Handle: the ids of the active span, if there is one, join the line. */
  function Correlate(ctx: SpanContext, line: Line): Line {
    if ctx.IsValid() then line.(attrs := line.attrs[TRACE_ID := ctx.trace][SPAN_ID := ctx.span]) else line
  }

  datatype Event = Start(id: nat, parent: nat) | End(id: nat) | Log(line: Line)

  /** What the run cannot choose: the trace, the log level, and how much longer each step takes than asked. */
  datatype Env = Env(trace: nat, minLevel: int, jitter: nat -> nat)

  datatype World = World(now: int, tick: nat, next: nat, word: seq<Event>, spans: seq<Span>)

  function Max(a: int, b: int): int {
    if a < b then b else a
  }

  /** time.Sleep returns at once on a non-positive duration and never early on a positive one. */
  function Wait(env: Env, w: World, asked: int): World {
    w.(now := w.now + Max(asked, 0) + env.jitter(w.tick), tick := w.tick + 1)
  }

  function Open(env: Env, w: World, parent: nat): World {
    var w := Wait(env, w, 0);
    w.(next := w.next + 1, word := w.word + [Start(w.next, parent)])
  }

  function Close(env: Env, w: World, span: Span): World {
    var w := Wait(env, w, 0);
    w.(word := w.word + [End(span.id)], spans := w.spans + [span.(end := w.now)])
  }

  function Say(env: Env, w: World, span: nat, level: int, message: Message): World {
    if level < env.minLevel then w
    else w.(word := w.word + [Log(Correlate(SpanContext(env.trace, span), Line(message, map[])))])
  }

  /** Duration.Milliseconds truncates toward zero. */
  function Milliseconds(d: int): int {
    if d >= 0 then d / 1_000_000 else -((-d) / 1_000_000)
  }

  /** A failed callback marks its span; a handler marks its own at its end; a panic marks neither. */
  function StatusOf(n: Node, body: Result): Status {
    if n.kind.Child? then if body.Err? then Failed(body.error) else Unset
    else if n.kind.failure.Some? && !body.Panic? then Failed(n.kind.failure.value) else Unset
  }

  /** RecordError, or the deferred End that a panic passes through. */
  predicate HasException(n: Node, body: Result) {
    body.Panic? || if n.kind.Child? then body.Err? else n.kind.failure.Some?
  }

  /** A handler returns nothing; a panic goes through every call. */
  function Passed(n: Node, body: Result): Result {
    if n.kind.Child? || body.Panic? then body else Fine
  }

  function Asked(n: Node): int {
    if n.kind.Child? then n.kind.sleep else 0
  }

  /** The world in which the callback starts: span open, entry logged, sleep over. */
  function Entered(env: Env, w: World, parent: nat, n: Node): World {
    var begun := Open(env, w, parent);
    if n.kind.Child? then Wait(env, Say(env, begun, w.next, DEBUG, SpanStart(n.name)), n.kind.sleep) else begun
  }

  /** The span as it stands just before it ends. */
  function Pending(env: Env, w: World, parent: nat, n: Node, body: Result): Span {
    var start := Open(env, w, parent).now;
    Span(env.trace, w.next, parent, n.name, start, start, StatusOf(n, body),
         if n.kind.Child? then Some(Milliseconds(n.kind.sleep)) else None, HasException(n, body))
  }

  function Leave(env: Env, w: World, id: nat, n: Node, body: Result): World {
    if n.kind.Child? && body.Fine? then Say(env, w, id, DEBUG, SpanEnd(n.name)) else w
  }

  /** The callback, if there is one. */
  function RunBody(env: Env, w: World, parent: nat, n: Node): (World, Result)
    decreases n, 0
  {
    var entered := Entered(env, w, parent, n);
    if n.fn.None? then (entered, Fine) else RunSteps(env, entered, w.next, n.fn.value)
  }

  function Run(env: Env, w: World, parent: nat, n: Node): (World, Result)
    decreases n, 1
  {
    var (after, body) := RunBody(env, w, parent, n);
    (Close(env, Leave(env, after, w.next, n, body), Pending(env, w, parent, n, body)), Passed(n, body))
  }

  function RunSteps(env: Env, w: World, id: nat, f: Callback): (World, Result)
    decreases f.steps
  {
    match f.steps
    case Done => (w, f.ret)
    case Emit(level, text, rest) => RunSteps(env, Say(env, w, id, level, Text(level, text)), id, f.(steps := rest))
    case Call(call, _, _) =>
      var (after, r) := Run(env, w, id, call);
      match Resume(f, r)
      case None => (after, r)
      case Some(next) => RunSteps(env, after, id, next)
  }

  /** The tracer, its exporter's queue, the log and the clock, as one process sees them. */
  class Tracer {
    const env: Env
    var now: int
    var tick: nat
    var next: nat
    var word: seq<Event>
    var spans: seq<Span>

    constructor (env: Env, now: int)
      ensures this.env == env && State() == World(now, 0, 1, [], [])
    {
      this.env := env;
      this.now, tick, next, word, spans := now, 0, 1, [], [];
    }

    function State(): World
      reads this
    {
      World(now, tick, next, word, spans)
    }

    method Sleep(asked: int)
      modifies this
      ensures State() == Wait(env, old(State()), asked)
      ensures now >= old(now) && now >= old(now) + asked
    {
      now := now + Max(asked, 0) + env.jitter(tick);
      tick := tick + 1;
    }

    method StartSpan(parent: nat) returns (id: nat)
      modifies this
      ensures State() == Open(env, old(State()), parent) && id == old(next)
    {
      Sleep(0);
      id := next;
      next := next + 1;
      word := word + [Start(id, parent)];
    }

    method EndSpan(span: Span)
      modifies this
      ensures State() == Close(env, old(State()), span)
    {
      Sleep(0);
      word := word + [End(span.id)];
      spans := spans + [span.(end := now)];
    }

    /** slog at some level, through the trace-aware handler. */
    method Handle(span: nat, level: int, message: Message)
      modifies this
      ensures State() == Say(env, old(State()), span, level, message)
    {
      if level >= env.minLevel {
        var line := Line(message, map[]);
        if SpanContext(env.trace, span).IsValid() {
          line := line.(attrs := line.attrs[TRACE_ID := env.trace]);
          line := line.(attrs := line.attrs[SPAN_ID := span]);
        }
        word := word + [Log(line)];
      }
    }

    /** `child`, or a handler around its calls. The deferred End closes the span on return and on panic. */
    method Execute(parent: nat, n: Node) returns (r: Result)
      modifies this
      ensures (State(), r) == Run(env, old(State()), parent, n)
      decreases n
    {
      var id := StartSpan(parent);
      var span := Span(env.trace, id, parent, n.name, now, now, Unset, None, false);
      if n.kind.Child? {
        span := span.(sleepMs := Some(Milliseconds(n.kind.sleep)));
        Handle(id, DEBUG, SpanStart(n.name));
        Sleep(n.kind.sleep);
      }
      r := Fine;
      if n.fn.Some? {
        r := Call(id, n.fn.value);
      }
      if r.Panic? {
        span := span.(exception := true);
      } else if n.kind.Handler? {
        if n.kind.failure.Some? {
          span := span.(exception := true, status := Failed(n.kind.failure.value));
        }
        r := Fine;
      } else if r.Err? {
        span := span.(exception := true, status := Failed(r.error));
      } else {
        Handle(id, DEBUG, SpanEnd(n.name));
      }
      EndSpan(span);
    }

    method Call(id: nat, f: Callback) returns (r: Result)
      modifies this
      ensures (State(), r) == RunSteps(env, old(State()), id, f)
      decreases f.steps
    {
      match f.steps
      case Done =>
        r := f.ret;
      case Emit(level, text, rest) =>
        Handle(id, level, Text(level, text));
        r := Call(id, f.(steps := rest));
      case Call(call, _, _) =>
        r := Execute(id, call);
        var next := Resume(f, r);
        if next.Some? {
          r := Call(id, next.value);
        }
    }
  }
}
