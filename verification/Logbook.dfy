/** What each endpoint writes to the log at level INFO. */
module Logbook {
  import opened Options
  import opened Tracing
  import opened Records
  import opened Transcripts
  import opened Scenarios

  /** The lines of an endpoint whose span is number `id`; its calls are numbered from there on. */
  function Lines(e: Endpoint, id: nat): seq<Act> {
    match e
    case Success =>
      [Says(0, Text(0, "handling success request"), id), Says(0, Text(0, "success request handled"), id)]
    case Failure =>
      [Says(0, Text(0, "handling failure request"), id),
       Says(4, Text(4, "cache miss, falling through to primary store"), id + 1),
       Says(8, Text(8, "primary database unreachable"), id + 2),
       Says(8, Text(8, "failure request returning 500"), id)]
    case Latency =>
      [Says(0, Text(0, "handling latency request"), id), Says(4, Text(4, "upstream call exceeded SLO"), id + 2),
       Says(0, Text(0, "latency request handled"), id)]
    case Heavy =>
      [Says(0, Text(0, "handling heavy request"), id), Says(0, Text(0, "heavy request handled"), id)]
  }

  /** What steps that end without an error tell at level INFO. */
  predicate Tells(id: nat, next: nat, steps: Steps, told: seq<Act>) {
    Told(0, StepsActs(id, next, Callback(steps, Fine))) == told
  }

  lemma {:induction false} TellsEmit(id: nat, next: nat, level: nat, text: string, rest: Steps, told: seq<Act>)
    requires Tells(id, next, rest, told)
    ensures Tells(id, next, Emit(level, text, rest), [Says(level, Text(level, text), id)] + told)
  {
    var f, said := Callback(Emit(level, text, rest), Fine), Says(level, Text(level, text), id);
    var more := StepsActs(id, next, Callback(rest, Fine));
    assert f.(steps := rest) == Callback(rest, Fine);
    assert ([said] + more)[1..] == more;
  }

  lemma {:induction false} TellsDone(id: nat, next: nat)
    ensures Tells(id, next, Done, [])
  {
  }

  /** A discarded call tells what its callback does. */
  lemma {:induction false} TellsCall(id: nat, next: nat, call: Node, count: nat, rest: Steps, heard: seq<Act>, told: seq<Act>)
    requires call.kind.Child? && !Outcome(call).Panic? && Spans(Executed(call)) == count
    requires heard == if call.fn.None? then [] else Told(0, StepsActs(next, next + 1, call.fn.value))
    requires Tells(id, next + count, rest, told)
    ensures Tells(id, next, Discard(call, rest), heard + told)
  {
    var f, more := Callback(Discard(call, rest), Fine), Callback(rest, Fine);
    assert Resume(f, Outcome(call)) == Some(more);
    FramesSayNothing(next, id, call, 0);
    var acts, after := Acts(next, id, call), StepsActs(id, next + count, more);
    assert StepsActs(id, next, f) == acts + after;
    ToldAppend(0, acts, after);
  }

  /** What a call without calls of its own tells. */
  function Heard(call: Node, id: nat): seq<Act> {
    if call.fn.None? || call.fn.value.steps.Done? || !call.fn.value.steps.Emit? || call.fn.value.steps.level < 0 then []
    else [Says(call.fn.value.steps.level, Text(call.fn.value.steps.level, call.fn.value.steps.text), id)]
  }

  lemma {:induction false} TellsSimple(id: nat, next: nat, call: Node, x: nat, rest: Steps, told: seq<Act>)
    requires Simple(call, x) && Tells(id, next + 1, rest, told)
    ensures Tells(id, next, Discard(call, rest), Heard(call, next) + told)
  {
    SimpleCall(call, x);
    if call.fn.Some? {
      QuietTells(next, next + 1, call.fn.value);
    }
    TellsCall(id, next, call, 1, rest, Heard(call, next), told);
  }

  lemma {:induction false} QuietTells(id: nat, next: nat, f: Callback)
    requires Quiet(f.steps)
    ensures Told(0, StepsActs(id, next, f)) ==
            if f.steps.Emit? && f.steps.level >= 0 then [Says(f.steps.level, Text(f.steps.level, f.steps.text), id)] else []
  {
    var last := f.(steps := Done);
    assert StepsActs(id, next, last) == [];
    if f.steps.Emit? {
      var said := Says(f.steps.level, Text(f.steps.level, f.steps.text), id);
      assert f.(steps := f.steps.rest) == last;
      assert StepsActs(id, next, f) == [said] + [] == [said];
      assert [said][1..] == [];
    }
  }

  lemma {:induction false} TellThree(id: nat, next: nat, a: Node, x: nat, b: Node, y: nat, c: Node, z: nat, rest: Steps, told: seq<Act>)
    requires Simple(a, x) && Simple(b, y) && Simple(c, z) && Tells(id, next + 3, rest, told)
    ensures Tells(id, next, Discard(a, Discard(b, Discard(c, rest))), Heard(a, next) + (Heard(b, next + 1) + (Heard(c, next + 2) + told)))
  {
    TellsSimple(id, next + 2, c, z, rest, told);
    TellsSimple(id, next + 1, b, y, Discard(c, rest), Heard(c, next + 2) + told);
    TellsSimple(id, next, a, x, Discard(b, Discard(c, rest)), Heard(b, next + 1) + (Heard(c, next + 2) + told));
  }

  lemma {:induction false} AroundCounts(call: Node, inner: Node, y: nat)
    requires call.kind.Child? && call.fn == Some(Callback(Discard(inner, Done), Fine))
    requires Simple(inner, y) && Returned(inner).Fine?
    ensures Outcome(call).Fine? && Spans(Executed(call)) == 2
  {
    var f, last := call.fn.value, Callback(Done, Fine);
    SimpleCall(inner, y);
    assert Resume(f, Outcome(inner)) == Some(last);
    assert ExecutedSteps(f) == [Executed(inner)] + [] == [Executed(inner)];
    assert ExecutedSteps(f)[1..] == [];
    assert StepsOutcome(last).Fine? && StepsOutcome(f) == StepsOutcome(last);
  }

  /** A call around one discarded call that tells nothing. */
  lemma {:induction false} TellAround(id: nat, next: nat, call: Node, inner: Node, y: nat, rest: Steps, told: seq<Act>)
    requires call.kind.Child? && call.fn == Some(Callback(Discard(inner, Done), Fine))
    requires Simple(inner, y) && Returned(inner).Fine? && Heard(inner, next + 1) == [] && Tells(id, next + 2, rest, told)
    ensures Tells(id, next, Discard(call, rest), told)
  {
    AroundCounts(call, inner, y);
    TellsDone(next, next + 2);
    TellsSimple(next, next + 1, inner, y, Done, []);
    TellsCall(id, next, call, 2, rest, [], told);
    assert [] + told == told;
  }

  /** What an endpoint's calls tell between its own lines. */
  function Between(e: Endpoint, id: nat): seq<Act> {
    match e
    case Failure =>
      [Says(4, Text(4, "cache miss, falling through to primary store"), id + 1),
       Says(8, Text(8, "primary database unreachable"), id + 2)]
    case Latency => [Says(4, Text(4, "upstream call exceeded SLO"), id + 2)]
    case _ => []
  }

  lemma {:induction false} CallsTell(e: Endpoint, id: nat, done: Steps, told: seq<Act>)
    requires Tells(id, id + SpanCount(e), done, told)
    ensures Tells(id, id + 1, Calls(e, done), Between(e, id) + told)
  {
    match e
    case Success =>
      MiddleTells(id, id + 1, Leaf("cache.lookup", 4), 4, Leaf("store.user.fetch", 12), 12, Bare("response.encode", 2), 2, done, told);
    case Failure => FailureTells(id, done, told);
    case Latency => LatencyTells(id, done, told);
    case Heavy => HeavyTells(id, done, told);
  }

  lemma {:induction false} FailureTells(id: nat, done: Steps, told: seq<Act>)
    requires Tells(id, id + 3, done, told)
    ensures Tells(id, id + 1, FailureCalls(done), Between(Failure, id) + told)
  {
    var lookup := Timed("cache.lookup", 3, Emit(WARN, "cache miss, falling through to primary store", Done), Fine);
    var fetch := Timed("store.user.fetch", 35, Emit(ERROR, "primary database unreachable", Done), Err(DB_ERROR));
    TellsSimple(id, id + 2, fetch, 35, done, told);
    TellsSimple(id, id + 1, lookup, 3, Discard(fetch, done), Heard(fetch, id + 2) + told);
    assert Heard(lookup, id + 1) + Heard(fetch, id + 2) == Between(Failure, id);
    Regroup(Heard(lookup, id + 1), Heard(fetch, id + 2), told);
  }

  lemma {:induction false} LatencyTells(id: nat, done: Steps, told: seq<Act>)
    requires Tells(id, id + 4, done, told)
    ensures Tells(id, id + 1, LatencyCalls(done), Between(Latency, id) + told)
  {
    var search := Timed("upstream.search", 1400, Emit(WARN, "upstream call exceeded SLO", Done), Fine);
    MiddleTells(id, id + 1, Leaf("auth.validate", 30), 30, search, 1400, Bare("response.encode", 50), 50, done, told);
  }

  lemma {:induction false} MiddleTells(id: nat, next: nat, a: Node, x: nat, b: Node, y: nat, c: Node, z: nat, rest: Steps, told: seq<Act>)
    requires Simple(a, x) && Simple(b, y) && Simple(c, z) && Tells(id, next + 3, rest, told)
    requires Heard(a, next) == [] && Heard(c, next + 2) == []
    ensures Tells(id, next, Discard(a, Discard(b, Discard(c, rest))), Heard(b, next + 1) + told)
  {
    TellThree(id, next, a, x, b, y, c, z, rest, told);
    assert [] + (Heard(b, next + 1) + ([] + told)) == Heard(b, next + 1) + told;
  }

  lemma {:induction false} HeavyTells(id: nat, done: Steps, told: seq<Act>)
    requires Tells(id, id + 10, done, told)
    ensures Tells(id, id + 1, HeavyCalls(done), [] + told)
  {
    var retry := Leaf("http.downstream.retry", 18);
    FinishTells(id, id + 7, done, told);
    TellAround(id, id + 5, Timed("http.downstream.enrich", 38, Discard(retry, Done), Fine), retry, 18, Finish(done), told);
    LookupsTell(id, id + 1, Enrich(Finish(done)), told);
    assert [] + told == told;
  }

  lemma {:induction false} FinishTells(id: nat, next: nat, rest: Steps, told: seq<Act>)
    requires Tells(id, next + 3, rest, told)
    ensures Tells(id, next, Finish(rest), told)
  {
    MiddleTells(id, next, Leaf("business.rules.evaluate", 5), 5, Leaf("db.audit.insert", 9), 9, Leaf("queue.job.enqueue", 6), 6, rest, told);
    assert [] + told == told;
  }

  lemma {:induction false} LookupsTell(id: nat, next: nat, rest: Steps, told: seq<Act>)
    requires Tells(id, next + 4, rest, told)
    ensures Tells(id, next, Lookups(rest), told)
  {
    var last := Discard(Leaf("cache.user.write", 3), rest);
    TellsSimple(id, next + 3, Leaf("cache.user.write", 3), 3, rest, told);
    MiddleTells(id, next, Leaf("auth.token.validate", 8), 8, Leaf("db.user.fetch", 14), 14, Leaf("db.permissions.fetch", 11), 11, last, [] + told);
    assert [] + ([] + told) == told;
  }

  lemma {:induction false} LastLineTells(e: Endpoint, id: nat, next: nat)
    ensures var last := LastLine(e);
            last.Emit? && last.level >= 0 && Tells(id, next, last, [Says(last.level, Text(last.level, last.text), id)])
  {
    QuietTells(id, next, Callback(LastLine(e), Fine));
  }

  lemma {:induction false} LinesParts(e: Endpoint, id: nat)
    ensures var last := LastLine(e);
            last.Emit? && Lines(e, id) ==
            [Says(0, Text(0, FirstLine(e)), id)] + (Between(e, id) + [Says(last.level, Text(last.level, last.text), id)])
  {
  }

  /** A handler around its first line, its calls and its last line. */
  lemma {:induction false} HandlerTells(id: nat, parent: nat, n: Node, first: string, calls: Steps, told: seq<Act>)
    requires n.kind.Handler? && n.fn == Some(Callback(Emit(0, first, calls), Fine)) && Tells(id, id + 1, calls, told)
    ensures Told(0, Acts(id, parent, n)) == [Says(0, Text(0, first), id)] + told
  {
    TellsEmit(id, id + 1, 0, first, calls, told);
    FramesSayNothing(id, parent, n, 0);
  }

  lemma {:induction false} EndpointTells(e: Endpoint, id: nat, parent: nat)
    ensures Told(0, Acts(id, parent, Scenario(e))) == Lines(e, id)
  {
    var last := LastLine(e);
    LastLineTells(e, id, id + SpanCount(e));
    var lastSays := [Says(last.level, Text(last.level, last.text), id)];
    CallsTell(e, id, last, lastSays);
    HandlerTells(id, parent, Scenario(e), FirstLine(e), Calls(e, last), Between(e, id) + lastSays);
    LinesParts(e, id);
  }

  /** At level INFO an endpoint writes exactly these lines, each with the ids of the span it was written in. */
  lemma {:induction false} EndpointLog(env: Env, w: World, parent: nat, e: Endpoint)
    requires env.minLevel == 0
    ensures Logs(Run(env, w, parent, Scenario(e)).0.word) == Logs(w.word) + LinesOf(env.trace, Lines(e, w.next))
  {
    EndpointTells(e, w.next, parent);
    RunLogIsTold(env, w, parent, Scenario(e));
  }
}
