/** The four test endpoints: the trees they run and what those add up to. */
module Scenarios {
  import opened Options
  import opened Tracing
  import opened Records
  import opened Sampling
  import opened Rebuild

  datatype Endpoint = Success | Failure | Latency | Heavy

  function Millis(ms: nat): int {
    ms * 1_000_000
  }

  function Timed(name: string, ms: nat, steps: Steps, ret: Result): Node {
    Node(Child(Millis(ms)), name, Some(Callback(steps, ret)))
  }

  function Leaf(name: string, ms: nat): Node {
    Timed(name, ms, Done, Fine)
  }

  function Bare(name: string, ms: nat): Node {
    Node(Child(Millis(ms)), name, None)
  }

  const DB_ERROR := "dial tcp 10.0.1.42:5432: connect: connection refused"

  // Each handler's calls, between its first log line and the one with which it is `done`.

  function SuccessCalls(done: Steps): Steps {
    Discard(Leaf("cache.lookup", 4),
    Discard(Leaf("store.user.fetch", 12),
    Discard(Bare("response.encode", 2), done)))
  }

  function FailureCalls(done: Steps): Steps {
    Discard(Timed("cache.lookup", 3, Emit(WARN, "cache miss, falling through to primary store", Done), Fine),
    Discard(Timed("store.user.fetch", 35, Emit(ERROR, "primary database unreachable", Done), Err(DB_ERROR)), done))
  }

  function LatencyCalls(done: Steps): Steps {
    Discard(Leaf("auth.validate", 30),
    Discard(Timed("upstream.search", 1400, Emit(WARN, "upstream call exceeded SLO", Done), Fine),
    Discard(Bare("response.encode", 50), done)))
  }

  function HeavyCalls(done: Steps): Steps {
    Lookups(Enrich(Finish(done)))
  }

  function Lookups(rest: Steps): Steps {
    Discard(Leaf("auth.token.validate", 8),
    Discard(Leaf("db.user.fetch", 14),
    Discard(Leaf("db.permissions.fetch", 11),
    Discard(Leaf("cache.user.write", 3), rest))))
  }

  function Enrich(rest: Steps): Steps {
    Discard(Timed("http.downstream.enrich", 38, Discard(Leaf("http.downstream.retry", 18), Done), Fine), rest)
  }

  function Finish(rest: Steps): Steps {
    Discard(Leaf("business.rules.evaluate", 5),
    Discard(Leaf("db.audit.insert", 9),
    Discard(Leaf("queue.job.enqueue", 6), rest)))
  }

  function Calls(e: Endpoint, done: Steps): Steps {
    match e
    case Success => SuccessCalls(done)
    case Failure => FailureCalls(done)
    case Latency => LatencyCalls(done)
    case Heavy => HeavyCalls(done)
  }

  function FirstLine(e: Endpoint): string {
    match e
    case Success => "handling success request"
    case Failure => "handling failure request"
    case Latency => "handling latency request"
    case Heavy => "handling heavy request"
  }

  function HandlerSteps(e: Endpoint, done: Steps): Steps {
    Emit(INFO, FirstLine(e), Calls(e, done))
  }

  function LastLine(e: Endpoint): Steps {
    match e
    case Success => Emit(INFO, "success request handled", Done)
    case Failure => Emit(ERROR, "failure request returning 500", Done)
    case Latency => Emit(INFO, "latency request handled", Done)
    case Heavy => Emit(INFO, "heavy request handled", Done)
  }

  function Title(e: Endpoint): string {
    match e
    case Success => "trace-test.success"
    case Failure => "trace-test.failure"
    case Latency => "trace-test.latency"
    case Heavy => "trace-test.heavy"
  }

  /** Failure marks its own span; the others leave theirs alone. */
  function Scenario(e: Endpoint): Node {
    Node(Handler(if e.Failure? then Some("primary database unreachable") else None), Title(e),
         Some(Callback(HandlerSteps(e, LastLine(e)), Fine)))
  }

  function SleepMs(e: Endpoint): nat {
    match e
    case Success => 18
    case Failure => 38
    case Latency => 1480
    case Heavy => 112
  }

  function SpanCount(e: Endpoint): nat {
    match e
    case Success => 4
    case Failure => 3
    case Latency => 4
    case Heavy => 10
  }

  // ---------- The trees that the handlers' comments draw ----------

  /** The record of a call without calls of its own. */
  function Slept(name: string, ms: nat, r: Result): Shape {
    Shape(name, Millis(ms), Some(ms), if r.Err? then Failed(r.error) else Unset, !r.Fine?, [])
  }

  function FinishKids(): seq<Shape> {
    [Slept("business.rules.evaluate", 5, Fine), Slept("db.audit.insert", 9, Fine), Slept("queue.job.enqueue", 6, Fine)]
  }

  function EnrichKid(): Shape {
    Slept("http.downstream.enrich", 38, Fine).(kids := [Slept("http.downstream.retry", 18, Fine)])
  }

  function LookupKids(rest: seq<Shape>): seq<Shape> {
    [Slept("auth.token.validate", 8, Fine), Slept("db.user.fetch", 14, Fine)] +
    ([Slept("db.permissions.fetch", 11, Fine), Slept("cache.user.write", 3, Fine)] + rest)
  }

  function Kids(e: Endpoint): seq<Shape> {
    match e
    case Success => [Slept("cache.lookup", 4, Fine), Slept("store.user.fetch", 12, Fine), Slept("response.encode", 2, Fine)]
    case Failure =>
      [Slept("cache.lookup", 3, Fine),
       Slept("store.user.fetch", 35, Err("dial tcp 10.0.1.42:5432: connect: connection refused"))]
    case Latency => [Slept("auth.validate", 30, Fine), Slept("upstream.search", 1400, Fine), Slept("response.encode", 50, Fine)]
    case Heavy => LookupKids([EnrichKid()] + FinishKids())
  }

  // ---------- Sums over a callback's calls ----------

  /** The calls sleep `ms` milliseconds in all, over `spans` spans; some call fails or none does; each one sleeps. */
  predicate Sums(ss: seq<Shape>, ms: nat, fails: bool, spans: nat) {
    Totals(ss) == Millis(ms) && AnyFails(ss) == fails && AllSpans(ss) == spans && AllSeparated(ss)
  }

  lemma {:induction false} SumsFirst(s: Shape, ss: seq<Shape>, x: nat, ms: nat, fails: bool, spans: nat)
    requires Sums(ss, ms, fails, spans) && Total(s) == Millis(x) && x > 0 && Separated(s)
    ensures Sums([s] + ss, x + ms, Fails(s) || fails, Spans(s) + spans)
  {
    assert ([s] + ss)[1..] == ss;
  }

  /** Steps that end without an error, the calls they execute, and what those add up to. */
  predicate Does(steps: Steps, ss: seq<Shape>, ms: nat, fails: bool, spans: nat) {
    var f := Callback(steps, Fine);
    StepsOutcome(f).Fine? && ExecutedSteps(f) == ss && Sums(ss, ms, fails, spans)
  }

  lemma {:induction false} DoesFirst(call: Node, x: nat, rest: Steps, ss: seq<Shape>, ms: nat, fails: bool, spans: nat)
    requires Does(rest, ss, ms, fails, spans) && !Outcome(call).Panic?
    requires Total(Executed(call)) == Millis(x) && x > 0 && Separated(Executed(call))
    ensures var s := Executed(call); Does(Discard(call, rest), [s] + ss, x + ms, Fails(s) || fails, Spans(s) + spans)
  {
    var f, next := Callback(Discard(call, rest), Fine), Callback(rest, Fine);
    assert Resume(f, Outcome(call)) == Some(next);
    assert ExecutedSteps(f) == [Executed(call)] + ExecutedSteps(next);
    SumsFirst(Executed(call), ss, x, ms, fails, spans);
  }

  lemma {:induction false} DoesEmit(level: int, text: string, rest: Steps, ss: seq<Shape>, ms: nat, fails: bool, spans: nat)
    requires Does(rest, ss, ms, fails, spans)
    ensures Does(Emit(level, text, rest), ss, ms, fails, spans)
  {
    var f := Callback(Emit(level, text, rest), Fine);
    assert f.(steps := rest) == Callback(rest, Fine);
  }

  /** A call without calls of its own. */
  predicate Simple(call: Node, ms: nat) {
    ms > 0 && call.kind == Child(Millis(ms)) && !Returned(call).Panic? && (call.fn.None? || Quiet(call.fn.value.steps))
  }

  predicate Quiet(steps: Steps) {
    steps.Done? || (steps.Emit? && steps.rest.Done?)
  }

  function Returned(call: Node): Result {
    if call.fn.None? then Fine else call.fn.value.ret
  }

  lemma {:induction false} QuietSteps(f: Callback)
    requires Quiet(f.steps)
    ensures ExecutedSteps(f) == [] && StepsOutcome(f) == f.ret
  {
    var last := f.(steps := Done);
    assert ExecutedSteps(last) == [] && StepsOutcome(last) == f.ret;
    if f.steps.Emit? {
      assert f.(steps := f.steps.rest) == last;
    }
  }

  lemma {:induction false} SimpleCall(call: Node, x: nat)
    requires Simple(call, x)
    ensures var s := Executed(call);
            && s == Slept(call.name, x, Returned(call))
            && Total(s) == Millis(x) && Fails(s) == Returned(call).Err? && Separated(s) && Spans(s) == 1
    ensures Outcome(call) == Returned(call)
  {
    if call.fn.Some? {
      QuietSteps(call.fn.value);
    }
    assert Executed(call).kids == [];
    assert Milliseconds(Millis(x)) == x;
  }

  lemma {:induction false} Then(call: Node, x: nat, rest: Steps, ss: seq<Shape>, ms: nat, fails: bool, spans: nat)
    requires Simple(call, x) && Does(rest, ss, ms, fails, spans)
    ensures Does(Discard(call, rest), [Slept(call.name, x, Returned(call))] + ss, x + ms, Returned(call).Err? || fails, 1 + spans)
  {
    SimpleCall(call, x);
    DoesFirst(call, x, rest, ss, ms, fails, spans);
  }

  lemma {:induction false} Then2(a: Node, x: nat, b: Node, y: nat, rest: Steps, ss: seq<Shape>, ms: nat, fails: bool, spans: nat)
    requires Simple(a, x) && Simple(b, y) && Does(rest, ss, ms, fails, spans)
    ensures var kids := [Slept(a.name, x, Returned(a)), Slept(b.name, y, Returned(b))] + ss;
            Does(Discard(a, Discard(b, rest)), kids, x + y + ms, Returned(a).Err? || Returned(b).Err? || fails, 2 + spans)
  {
    var s, t := Slept(a.name, x, Returned(a)), Slept(b.name, y, Returned(b));
    Then(b, y, rest, ss, ms, fails, spans);
    Then(a, x, Discard(b, rest), [t] + ss, y + ms, Returned(b).Err? || fails, 1 + spans);
    assert [s] + ([t] + ss) == [s, t] + ss;
  }

  lemma {:induction false} Then3(a: Node, x: nat, b: Node, y: nat, c: Node, z: nat, rest: Steps)
    requires Simple(a, x) && Simple(b, y) && Simple(c, z) && Does(rest, [], 0, false, 0)
    ensures var fails := Returned(a).Err? || Returned(b).Err? || Returned(c).Err?;
            var kids := [Slept(a.name, x, Returned(a)), Slept(b.name, y, Returned(b)), Slept(c.name, z, Returned(c))];
            Does(Discard(a, Discard(b, Discard(c, rest))), kids, x + y + z, fails, 3)
  {
    var s, t, u := Slept(a.name, x, Returned(a)), Slept(b.name, y, Returned(b)), Slept(c.name, z, Returned(c));
    Then(c, z, rest, [], 0, false, 0);
    Then2(a, x, b, y, Discard(c, rest), [u] + [], z, Returned(c).Err?, 1);
    assert [s, t] + ([u] + []) == [s, t, u];
  }

  /** A call around one discarded call. */
  lemma {:induction false} ThenAround(call: Node, x: nat, inner: Node, y: nat, rest: Steps, ss: seq<Shape>, ms: nat, fails: bool, spans: nat)
    requires x > 0 && call.kind == Child(Millis(x)) && call.fn == Some(Callback(Discard(inner, Done), Fine))
    requires Simple(inner, y) && Returned(inner).Fine? && Does(rest, ss, ms, fails, spans)
    ensures var kid := Slept(call.name, x, Fine).(kids := [Slept(inner.name, y, Fine)]);
            Does(Discard(call, rest), [kid] + ss, x + y + ms, fails, 2 + spans)
  {
    QuietSteps(Callback(Done, Fine));
    Then(inner, y, Done, [], 0, false, 0);
    assert [Slept(inner.name, y, Fine)] + [] == [Slept(inner.name, y, Fine)];
    assert Milliseconds(Millis(x)) == x;
    assert Executed(call) == Slept(call.name, x, Fine).(kids := [Slept(inner.name, y, Fine)]);
    DoesFirst(call, x + y, rest, ss, ms, fails, spans);
  }

  lemma {:induction false} SuccessDoes(done: Steps)
    requires Does(done, [], 0, false, 0)
    ensures Does(SuccessCalls(done), Kids(Success), 18, false, 3)
  {
    Then3(Leaf("cache.lookup", 4), 4, Leaf("store.user.fetch", 12), 12, Bare("response.encode", 2), 2, done);
  }

  lemma {:induction false} FailureDoes(done: Steps)
    requires Does(done, [], 0, false, 0)
    ensures Does(FailureCalls(done), Kids(Failure), 38, true, 2)
  {
    var lookup := Timed("cache.lookup", 3, Emit(WARN, "cache miss, falling through to primary store", Done), Fine);
    var fetch := Timed("store.user.fetch", 35, Emit(ERROR, "primary database unreachable", Done), Err(DB_ERROR));
    Then2(lookup, 3, fetch, 35, done, [], 0, false, 0);
    assert Kids(Failure) + [] == Kids(Failure);
  }

  lemma {:induction false} LatencyDoes(done: Steps)
    requires Does(done, [], 0, false, 0)
    ensures Does(LatencyCalls(done), Kids(Latency), 1480, false, 3)
  {
    var search := Timed("upstream.search", 1400, Emit(WARN, "upstream call exceeded SLO", Done), Fine);
    Then3(Leaf("auth.validate", 30), 30, search, 1400, Bare("response.encode", 50), 50, done);
  }

  lemma {:induction false} HeavyDoes(done: Steps)
    requires Does(done, [], 0, false, 0)
    ensures Does(HeavyCalls(done), Kids(Heavy), 112, false, 9)
  {
    FinishDoes(done);
    EnrichedDoes(Finish(done), FinishKids());
  }

  lemma {:induction false} EnrichedDoes(rest: Steps, ss: seq<Shape>)
    requires Does(rest, ss, 20, false, 3)
    ensures Does(Lookups(Enrich(rest)), LookupKids([EnrichKid()] + ss), 112, false, 9)
  {
    EnrichDoes(rest, ss);
    LookupsDo(Enrich(rest), [EnrichKid()] + ss);
  }

  lemma {:induction false} FinishDoes(rest: Steps)
    requires Does(rest, [], 0, false, 0)
    ensures Does(Finish(rest), FinishKids(), 20, false, 3)
  {
    Then3(Leaf("business.rules.evaluate", 5), 5, Leaf("db.audit.insert", 9), 9, Leaf("queue.job.enqueue", 6), 6, rest);
  }

  lemma {:induction false} EnrichDoes(rest: Steps, ss: seq<Shape>)
    requires Does(rest, ss, 20, false, 3)
    ensures Does(Enrich(rest), [EnrichKid()] + ss, 76, false, 5)
  {
    var retry := Leaf("http.downstream.retry", 18);
    ThenAround(Timed("http.downstream.enrich", 38, Discard(retry, Done), Fine), 38, retry, 18, rest, ss, 20, false, 3);
  }

  lemma {:induction false} LookupsDo(rest: Steps, ss: seq<Shape>)
    requires Does(rest, ss, 76, false, 5)
    ensures Does(Lookups(rest), LookupKids(ss), 112, false, 9)
  {
    var stores := Discard(Leaf("db.permissions.fetch", 11), Discard(Leaf("cache.user.write", 3), rest));
    var kids := [Slept("db.permissions.fetch", 11, Fine), Slept("cache.user.write", 3, Fine)] + ss;
    Then2(Leaf("db.permissions.fetch", 11), 11, Leaf("cache.user.write", 3), 3, rest, ss, 76, false, 5);
    Then2(Leaf("auth.token.validate", 8), 8, Leaf("db.user.fetch", 14), 14, stores, kids, 90, false, 7);
  }

  lemma {:induction false} HandlerDoes(e: Endpoint, done: Steps)
    requires Does(done, [], 0, false, 0)
    ensures Does(HandlerSteps(e, done), Kids(e), SleepMs(e), e.Failure?, SpanCount(e) - 1)
  {
    DoCalls(e, done);
    DoesEmit(INFO, FirstLine(e), Calls(e, done), Kids(e), SleepMs(e), e.Failure?, SpanCount(e) - 1);
  }

  lemma {:induction false} DoCalls(e: Endpoint, done: Steps)
    requires Does(done, [], 0, false, 0)
    ensures Does(Calls(e, done), Kids(e), SleepMs(e), e.Failure?, SpanCount(e) - 1)
  {
    match e
    case Success => SuccessDoes(done);
    case Failure => FailureDoes(done);
    case Latency => LatencyDoes(done);
    case Heavy => HeavyDoes(done);
  }

  lemma {:induction false} HandlerFacts(e: Endpoint, title: string, failure: Option<Error>, done: Steps)
    requires Quiet(done) && (failure.Some? <==> e.Failure?)
    ensures var s := Executed(Node(Handler(failure), title, Some(Callback(HandlerSteps(e, done), Fine))));
            && Total(s) == Millis(SleepMs(e)) && Spans(s) == SpanCount(e)
            && (Fails(s) <==> e.Failure?) && (s.status.Failed? <==> e.Failure?) && Separated(s)
            && s == Shape(title, 0, None, if failure.Some? then Failed(failure.value) else Unset, failure.Some?, Kids(e))
  {
    QuietSteps(Callback(done, Fine));
    HandlerDoes(e, done);
  }

  /** Each endpoint's executed tree: total sleep, whether anything fails, and its number of spans. */
  lemma {:induction false} ScenarioFacts(e: Endpoint)
    ensures var s := Executed(Scenario(e));
            && Total(s) == Millis(SleepMs(e)) && Spans(s) == SpanCount(e)
            && (Fails(s) <==> e.Failure?) && (s.status.Failed? <==> e.Failure?) && Separated(s)
  {
    var failure := Scenario(e).kind.failure;
    assert failure.Some? <==> e.Failure?;
    assert Quiet(LastLine(e));
    HandlerFacts(e, Title(e), failure, LastLine(e));
  }

  /** Name by name: what each endpoint executes, what nests in what, and which call fails with what. */
  lemma {:induction false} ScenarioTree(e: Endpoint)
    ensures var s := Executed(Scenario(e));
            && s.name == (match e
                          case Success => "trace-test.success"
                          case Failure => "trace-test.failure"
                          case Latency => "trace-test.latency"
                          case Heavy => "trace-test.heavy")
            && s.kids == Kids(e) && s.asked == 0
            && s.status == (if e.Failure? then Failed("primary database unreachable") else Unset)
            && s.exception == e.Failure?
  {
    var failure := Scenario(e).kind.failure;
    assert failure.Some? <==> e.Failure?;
    assert Quiet(LastLine(e));
    HandlerFacts(e, Title(e), failure, LastLine(e));
  }
}
