/** Everything a run writes, read off the scenario: its events and its log lines, in order. */
module Transcripts {
  import opened Tracing
  import opened Records

  /** What a scenario does that can be seen from outside, at every level. */
  datatype Act = Opens(id: nat, parent: nat) | Says(level: int, message: Message, id: nat) | Closes(id: nat)

  /** The acts of a call whose span is number `id`; its own calls are numbered from there on. */
  function Acts(id: nat, parent: nat, n: Node): seq<Act>
    decreases n
  {
    var body := if n.fn.None? then [] else StepsActs(id, id + 1, n.fn.value);
    if n.kind.Handler? then [Opens(id, parent)] + body + [Closes(id)]
    else [Opens(id, parent), Says(-4, SpanStart(n.name), id)] + body +
         (if BodyOutcome(n).Fine? then [Says(-4, SpanEnd(n.name), id)] else []) + [Closes(id)]
  }

  function StepsActs(id: nat, next: nat, f: Callback): seq<Act>
    decreases f.steps
  {
    match f.steps
    case Done => []
    case Emit(level, text, rest) => [Says(level, Text(level, text), id)] + StepsActs(id, next, f.(steps := rest))
    case Call(call, _, _) =>
      Acts(next, id, call) +
      match Resume(f, Outcome(call))
      case None => []
      case Some(more) => StepsActs(id, next + Spans(Executed(call)), more)
  }

  /** The line for a message of a span: trace and span id join it when both are valid. */
  function LineOf(trace: nat, message: Message, id: nat): Line {
    Line(message, if trace != 0 && id != 0 then map["trace_id" := trace, "span_id" := id] else map[])
  }

  /** The events of an act: an enabled message becomes a line, a disabled one leaves no trace. */
  function EventsOf(env: Env, act: Act): seq<Event> {
    match act
    case Opens(id, parent) => [Start(id, parent)]
    case Says(level, message, id) => if level >= env.minLevel then [Log(LineOf(env.trace, message, id))] else []
    case Closes(id) => [End(id)]
  }

  function Word(env: Env, acts: seq<Act>): seq<Event> {
    if acts == [] then [] else EventsOf(env, acts[0]) + Word(env, acts[1..])
  }

  lemma {:induction false} Regroup<T>(a: seq<T>, b: seq<T>, c: seq<T>)
    ensures (a + b) + c == a + (b + c)
  {
  }

  lemma {:induction false} WordAppend(env: Env, a: seq<Act>, b: seq<Act>)
    ensures Word(env, a + b) == Word(env, a) + Word(env, b)
  {
    if a == [] {
      assert a + b == b;
    } else {
      assert (a + b)[1..] == a[1..] + b;
      WordAppend(env, a[1..], b);
      Regroup(EventsOf(env, a[0]), Word(env, a[1..]), Word(env, b));
    }
  }

  lemma {:induction false} WordOne(env: Env, act: Act)
    ensures Word(env, [act]) == EventsOf(env, act)
  {
    assert [act][1..] == [];
  }

  ghost predicate Wrote(env: Env, w: World, after: World, acts: seq<Act>) {
    after.word == w.word + Word(env, acts)
  }

  lemma {:induction false} WroteBoth(env: Env, w: World, mid: World, after: World, a: seq<Act>, b: seq<Act>)
    requires Wrote(env, w, mid, a) && Wrote(env, mid, after, b)
    ensures Wrote(env, w, after, a + b)
  {
    WordAppend(env, a, b);
    Regroup(w.word, Word(env, a), Word(env, b));
  }

  lemma {:induction false} WroteNothing(env: Env, w: World, after: World)
    requires after.word == w.word
    ensures Wrote(env, w, after, [])
  {
    assert w.word + [] == w.word;
  }

  lemma {:induction false} SayWrites(env: Env, w: World, id: nat, level: int, message: Message)
    ensures Wrote(env, w, Say(env, w, id, level, message), [Says(level, message, id)])
  {
    WordOne(env, Says(level, message, id));
    assert w.word + [] == w.word;
  }

  lemma {:induction false} EnterWrites(env: Env, w: World, parent: nat, n: Node)
    ensures Wrote(env, w, Entered(env, w, parent, n),
                  [Opens(w.next, parent)] + if n.kind.Child? then [Says(-4, SpanStart(n.name), w.next)] else [])
  {
    var begun := Open(env, w, parent);
    WordOne(env, Opens(w.next, parent));
    assert Wrote(env, w, begun, [Opens(w.next, parent)]);
    if n.kind.Child? {
      SayWrites(env, begun, w.next, -4, SpanStart(n.name));
      WroteBoth(env, w, begun, Entered(env, w, parent, n), [Opens(w.next, parent)], [Says(-4, SpanStart(n.name), w.next)]);
    } else {
      assert [Opens(w.next, parent)] + [] == [Opens(w.next, parent)];
    }
  }

  lemma {:induction false} LeaveWrites(env: Env, w: World, n: Node, body: Result, span: Span)
    ensures Wrote(env, w, Close(env, Leave(env, w, span.id, n, body), span),
                  (if n.kind.Child? && body.Fine? then [Says(-4, SpanEnd(n.name), span.id)] else []) + [Closes(span.id)])
  {
    var left := Leave(env, w, span.id, n, body);
    var said := if n.kind.Child? && body.Fine? then [Says(-4, SpanEnd(n.name), span.id)] else [];
    if n.kind.Child? && body.Fine? {
      SayWrites(env, w, span.id, -4, SpanEnd(n.name));
    } else {
      WroteNothing(env, w, left);
    }
    WordOne(env, Closes(span.id));
    WroteBoth(env, w, left, Close(env, left, span), said, [Closes(span.id)]);
  }

  /** A run takes as many identifiers as it executes calls. */
  lemma {:induction false} RunCounts(env: Env, w: World, parent: nat, n: Node)
    ensures Run(env, w, parent, n).0.next == w.next + Spans(Executed(n))
    decreases n
  {
    if n.fn.Some? {
      StepsCount(env, Entered(env, w, parent, n), w.next, n.fn.value);
    }
  }

  lemma {:induction false} StepsCount(env: Env, w: World, id: nat, f: Callback)
    ensures RunSteps(env, w, id, f).0.next == w.next + AllSpans(ExecutedSteps(f))
    decreases f.steps
  {
    match f.steps
    case Done =>
    case Emit(level, text, rest) => StepsCount(env, Say(env, w, id, level, Text(level, text)), id, f.(steps := rest));
    case Call(call, _, _) =>
      var next := Resume(f, Outcome(call));
      RunCounts(env, w, id, call);
      RunReturns(env, w, id, call);
      if next.Some? {
        StepsCount(env, Run(env, w, id, call).0, id, next.value);
      }
      assert ExecutedSteps(f)[1..] == if next.None? then [] else ExecutedSteps(next.value);
  }

  /** The whole word of a run, event by event, is the one that the scenario prescribes. */
  lemma {:induction false} RunWrites(env: Env, w: World, parent: nat, n: Node)
    ensures Wrote(env, w, Run(env, w, parent, n).0, Acts(w.next, parent, n))
    decreases n
  {
    var entered, body := Entered(env, w, parent, n), RunBody(env, w, parent, n);
    var enter := [Opens(w.next, parent)] + if n.kind.Child? then [Says(-4, SpanStart(n.name), w.next)] else [];
    var inner := if n.fn.None? then [] else StepsActs(w.next, w.next + 1, n.fn.value);
    var leave := (if n.kind.Child? && body.1.Fine? then [Says(-4, SpanEnd(n.name), w.next)] else []) + [Closes(w.next)];
    EnterWrites(env, w, parent, n);
    if n.fn.Some? {
      StepsWrite(env, entered, w.next, n.fn.value);
    } else {
      WroteNothing(env, entered, body.0);
    }
    LeaveWrites(env, body.0, n, body.1, Pending(env, w, parent, n, body.1));
    WroteBoth(env, w, entered, body.0, enter, inner);
    WroteBoth(env, w, body.0, Run(env, w, parent, n).0, enter + inner, leave);
    RunReturns(env, w, parent, n);
    ActsParts(w.next, parent, n);
  }

  lemma {:induction false} ActsParts(id: nat, parent: nat, n: Node)
    ensures Acts(id, parent, n) ==
            ([Opens(id, parent)] + if n.kind.Child? then [Says(-4, SpanStart(n.name), id)] else []) +
            (if n.fn.None? then [] else StepsActs(id, id + 1, n.fn.value)) +
            ((if n.kind.Child? && BodyOutcome(n).Fine? then [Says(-4, SpanEnd(n.name), id)] else []) + [Closes(id)])
  {
  }

  lemma {:induction false} StepsWrite(env: Env, w: World, id: nat, f: Callback)
    ensures Wrote(env, w, RunSteps(env, w, id, f).0, StepsActs(id, w.next, f))
    decreases f.steps
  {
    match f.steps
    case Done => WroteNothing(env, w, w);
    case Emit(level, text, rest) =>
      var said, more := Say(env, w, id, level, Text(level, text)), f.(steps := rest);
      SayWrites(env, w, id, level, Text(level, text));
      StepsWrite(env, said, id, more);
      WroteBoth(env, w, said, RunSteps(env, said, id, more).0, [Says(level, Text(level, text), id)], StepsActs(id, w.next, more));
    case Call(call, _, _) =>
      var mid, next := Run(env, w, id, call).0, Resume(f, Outcome(call));
      RunWrites(env, w, id, call);
      RunCounts(env, w, id, call);
      RunReturns(env, w, id, call);
      if next.Some? {
        StepsWrite(env, mid, id, next.value);
        WroteBoth(env, w, mid, RunSteps(env, mid, id, next.value).0, Acts(w.next, id, call), StepsActs(id, mid.next, next.value));
      } else {
        assert Acts(w.next, id, call) + [] == Acts(w.next, id, call);
      }
  }

  // ---------- The log alone ----------

  function Logs(word: seq<Event>): seq<Line> {
    if word == [] then []
    else if word[0].Log? then [word[0].line] + Logs(word[1..])
    else Logs(word[1..])
  }

  /** The messages at or above a level, in order. */
  function Told(minLevel: int, acts: seq<Act>): seq<Act> {
    if acts == [] then []
    else if acts[0].Says? && acts[0].level >= minLevel then [acts[0]] + Told(minLevel, acts[1..])
    else Told(minLevel, acts[1..])
  }

  function LinesOf(trace: nat, told: seq<Act>): seq<Line> {
    if told == [] then []
    else if told[0].Says? then [LineOf(trace, told[0].message, told[0].id)] + LinesOf(trace, told[1..])
    else LinesOf(trace, told[1..])
  }

  lemma {:induction false} LogsAppend(a: seq<Event>, b: seq<Event>)
    ensures Logs(a + b) == Logs(a) + Logs(b)
  {
    if a == [] {
      assert a + b == b;
    } else {
      assert (a + b)[1..] == a[1..] + b;
      LogsAppend(a[1..], b);
      if a[0].Log? {
        Regroup([a[0].line], Logs(a[1..]), Logs(b));
      }
    }
  }

  lemma {:induction false} ToldAppend(minLevel: int, a: seq<Act>, b: seq<Act>)
    ensures Told(minLevel, a + b) == Told(minLevel, a) + Told(minLevel, b)
  {
    if a == [] {
      assert a + b == b;
    } else {
      assert (a + b)[1..] == a[1..] + b;
      ToldAppend(minLevel, a[1..], b);
      Regroup([a[0]], Told(minLevel, a[1..]), Told(minLevel, b));
    }
  }

  lemma {:induction false} LinesAppend(trace: nat, a: seq<Act>, b: seq<Act>)
    ensures LinesOf(trace, a + b) == LinesOf(trace, a) + LinesOf(trace, b)
  {
    if a == [] {
      assert a + b == b;
    } else {
      assert (a + b)[1..] == a[1..] + b;
      LinesAppend(trace, a[1..], b);
      if a[0].Says? {
        Regroup([LineOf(trace, a[0].message, a[0].id)], LinesOf(trace, a[1..]), LinesOf(trace, b));
      }
    }
  }

  lemma {:induction false} OneIsTold(env: Env, act: Act)
    ensures Logs(EventsOf(env, act)) == LinesOf(env.trace, Told(env.minLevel, [act]))
  {
    assert [act][1..] == [];
    var events := EventsOf(env, act);
    if events != [] {
      assert events[1..] == [];
    }
  }

  lemma {:induction false} LogsAreTold(env: Env, acts: seq<Act>)
    ensures Logs(Word(env, acts)) == LinesOf(env.trace, Told(env.minLevel, acts))
  {
    if acts != [] {
      var one, rest := [acts[0]], acts[1..];
      assert acts == one + rest;
      OneIsTold(env, acts[0]);
      LogsAreTold(env, rest);
      LogsAppend(EventsOf(env, acts[0]), Word(env, rest));
      ToldAppend(env.minLevel, one, rest);
      LinesAppend(env.trace, Told(env.minLevel, one), Told(env.minLevel, rest));
    }
  }

  /**
   * The log of a run is exactly the scenario's messages at or above the level, in their order, each
   * with the ids of the span that wrote it.
   */
  lemma {:induction false} RunLogIsTold(env: Env, w: World, parent: nat, n: Node)
    ensures Logs(Run(env, w, parent, n).0.word) ==
            Logs(w.word) + LinesOf(env.trace, Told(env.minLevel, Acts(w.next, parent, n)))
  {
    var acts := Acts(w.next, parent, n);
    RunWrites(env, w, parent, n);
    LogsAppend(w.word, Word(env, acts));
    LogsAreTold(env, acts);
  }

  /** Above DEBUG only what callbacks emit is left: no span.start and no span.end. */
  lemma {:induction false} OnlyTextAboveDebug(id: nat, parent: nat, n: Node, minLevel: int)
    requires minLevel > -4
    ensures AllText(Told(minLevel, Acts(id, parent, n)))
    decreases n
  {
    if n.fn.Some? {
      OnlyTextInSteps(id, id + 1, n.fn.value, minLevel);
    }
    FramesSayNothing(id, parent, n, minLevel);
  }

  predicate AllText(told: seq<Act>) {
    forall i :: 0 <= i < |told| ==> told[i].Says? && told[i].message.Text?
  }

  /** Above DEBUG a call adds nothing to what its callback tells. */
  lemma {:induction false} FramesSayNothing(id: nat, parent: nat, n: Node, minLevel: int)
    requires minLevel > -4
    ensures Told(minLevel, Acts(id, parent, n)) ==
            if n.fn.None? then [] else Told(minLevel, StepsActs(id, id + 1, n.fn.value))
  {
    var enter := [Opens(id, parent)] + if n.kind.Child? then [Says(-4, SpanStart(n.name), id)] else [];
    var inner := if n.fn.None? then [] else StepsActs(id, id + 1, n.fn.value);
    var leave := (if n.kind.Child? && BodyOutcome(n).Fine? then [Says(-4, SpanEnd(n.name), id)] else []) + [Closes(id)];
    ActsParts(id, parent, n);
    ToldAppend(minLevel, enter + inner, leave);
    ToldAppend(minLevel, enter, inner);
    Untold(minLevel, enter);
    Untold(minLevel, leave);
    assert [] + Told(minLevel, inner) + [] == Told(minLevel, inner);
  }

  lemma {:induction false} Untold(minLevel: int, acts: seq<Act>)
    requires forall i :: 0 <= i < |acts| ==> acts[i].Says? ==> acts[i].level < minLevel
    ensures Told(minLevel, acts) == []
  {
    if acts != [] {
      Untold(minLevel, acts[1..]);
    }
  }

  lemma {:induction false} OnlyTextInSteps(id: nat, next: nat, f: Callback, minLevel: int)
    requires minLevel > -4
    ensures AllText(Told(minLevel, StepsActs(id, next, f)))
    decreases f.steps
  {
    match f.steps
    case Done =>
    case Emit(level, text, rest) =>
      var more := StepsActs(id, next, f.(steps := rest));
      OnlyTextInSteps(id, next, f.(steps := rest), minLevel);
      assert ([Says(level, Text(level, text), id)] + more)[1..] == more;
    case Call(call, _, _) =>
      var goes := Resume(f, Outcome(call));
      OnlyTextAboveDebug(next, id, call, minLevel);
      if goes.Some? {
        var after := next + Spans(Executed(call));
        OnlyTextInSteps(id, after, goes.value, minLevel);
        ToldAppend(minLevel, Acts(next, id, call), StepsActs(id, after, goes.value));
      } else {
        assert Acts(next, id, call) + [] == Acts(next, id, call);
      }
  }
}
