/** Start and End events as brackets, and the log lines between them. */
module Brackets {
  import opened Options
  import opened Tracing
  import opened Records

  function Top(open: seq<nat>): nat
    requires open != []
  {
    open[|open| - 1]
  }

  /** A line carries the ids of the innermost open span, or none when that is no valid span context. */
  predicate Correlated(line: Line, trace: nat, span: nat) {
    line.attrs == if SpanContext(trace, span).IsValid() then map[TRACE_ID := trace, SPAN_ID := span] else map[]
  }

  /** One event against the stack of open spans; None when the event does not fit. */
  function Fit(trace: nat, open: seq<nat>, event: Event): Option<seq<nat>> {
    if open == [] then None
    else match event
      case Start(id, parent) => if parent == Top(open) then Some(open + [id]) else None
      case End(id) => if id == Top(open) then Some(open[..|open| - 1]) else None
      case Log(line) => if Correlated(line, trace, Top(open)) then Some(open) else None
  }

  function Replay(trace: nat, base: seq<nat>, word: seq<Event>): Option<seq<nat>> {
    if word == [] then Some(base)
    else
      var before := Replay(trace, base, word[..|word| - 1]);
      if before.None? then None else Fit(trace, before.value, word[|word| - 1])
  }

  lemma {:induction false} ReplaySnoc(trace: nat, base: seq<nat>, word: seq<Event>, event: Event)
    ensures var before := Replay(trace, base, word);
            Replay(trace, base, word + [event]) == if before.None? then None else Fit(trace, before.value, event)
  {
    assert (word + [event])[..|word|] == word;
  }

  ghost predicate OpenAre(env: Env, base: seq<nat>, w: World, open: seq<nat>) {
    Replay(env.trace, base, w.word) == Some(open)
  }

  lemma {:induction false} SayFits(env: Env, base: seq<nat>, w: World, open: seq<nat>, level: int, message: Message)
    requires OpenAre(env, base, w, open) && open != []
    ensures OpenAre(env, base, Say(env, w, Top(open), level, message), open)
  {
    var line := Correlate(SpanContext(env.trace, Top(open)), Line(message, map[]));
    assert Correlated(line, env.trace, Top(open));
    ReplaySnoc(env.trace, base, w.word, Log(line));
  }

  /**
   * Whatever a call does inside, it leaves the stack of open spans as it found it; on the way every
   * span started under the innermost open one, and every line carried that one's ids.
   */
  lemma {:induction false} RunIsBracketed(env: Env, base: seq<nat>, w: World, open: seq<nat>, n: Node)
    requires OpenAre(env, base, w, open) && open != []
    ensures OpenAre(env, base, Run(env, w, Top(open), n).0, open)
    decreases n
  {
    var parent := Top(open);
    var entered, body := Entered(env, w, parent, n), RunBody(env, w, parent, n);
    var inner := open + [w.next];
    EnterPushes(env, base, w, open, n);
    if n.fn.Some? {
      StepsAreBracketed(env, base, entered, inner, n.fn.value);
    }
    assert OpenAre(env, base, body.0, inner);
    LeavePops(env, base, body.0, open, w.next, n, body.1, Pending(env, w, parent, n, body.1));
  }

  lemma {:induction false} EnterPushes(env: Env, base: seq<nat>, w: World, open: seq<nat>, n: Node)
    requires OpenAre(env, base, w, open) && open != []
    ensures OpenAre(env, base, Entered(env, w, Top(open), n), open + [w.next])
  {
    ReplaySnoc(env.trace, base, w.word, Start(w.next, Top(open)));
    SayFits(env, base, Open(env, w, Top(open)), open + [w.next], DEBUG, SpanStart(n.name));
  }

  lemma {:induction false} LeavePops(env: Env, base: seq<nat>, w: World, open: seq<nat>, id: nat,
                                     n: Node, body: Result, span: Span)
    requires OpenAre(env, base, w, open + [id]) && span.id == id
    ensures OpenAre(env, base, Close(env, Leave(env, w, id, n, body), span), open)
  {
    var inner := open + [id];
    SayFits(env, base, w, inner, DEBUG, SpanEnd(n.name));
    ReplaySnoc(env.trace, base, Leave(env, w, id, n, body).word, End(id));
    assert inner[..|inner| - 1] == open;
  }

  lemma {:induction false} StepsAreBracketed(env: Env, base: seq<nat>, w: World, open: seq<nat>, f: Callback)
    requires OpenAre(env, base, w, open) && open != []
    ensures OpenAre(env, base, RunSteps(env, w, Top(open), f).0, open)
    decreases f.steps
  {
    match f.steps
    case Done =>
    case Emit(level, text, rest) =>
      SayFits(env, base, w, open, level, Text(level, text));
      StepsAreBracketed(env, base, Say(env, w, Top(open), level, Text(level, text)), open, f.(steps := rest));
    case Call(call, _, _) =>
      var (mid, r) := Run(env, w, Top(open), call);
      RunIsBracketed(env, base, w, open, call);
      var next := Resume(f, r);
      if next.Some? {
        StepsAreBracketed(env, base, mid, open, next.value);
      }
  }

  // ---------- Entry and exit lines ----------

  function Entries(word: seq<Event>, id: nat): nat {
    if word == [] then 0
    else Entries(word[..|word| - 1], id) + if IsEntry(word[|word| - 1], id) then 1 else 0
  }

  function Exits(word: seq<Event>, id: nat): nat {
    if word == [] then 0
    else Exits(word[..|word| - 1], id) + if IsExit(word[|word| - 1], id) then 1 else 0
  }

  predicate IsEntry(e: Event, id: nat) {
    e.Log? && e.line.message.SpanStart? && SPAN_ID in e.line.attrs && e.line.attrs[SPAN_ID] == id
  }

  predicate IsExit(e: Event, id: nat) {
    e.Log? && e.line.message.SpanEnd? && SPAN_ID in e.line.attrs && e.line.attrs[SPAN_ID] == id
  }

  /** The spans of `child` calls are those that carry a sleep attribute. */
  function Children(spans: seq<Span>, id: nat): nat {
    if spans == [] then 0
    else Children(spans[..|spans| - 1], id) + if IsChild(spans[|spans| - 1], id) then 1 else 0
  }

  /** Those among them that returned no error and did not panic. */
  function Succeeded(spans: seq<Span>, id: nat): nat {
    if spans == [] then 0
    else Succeeded(spans[..|spans| - 1], id) + if HasSucceeded(spans[|spans| - 1], id) then 1 else 0
  }

  predicate IsChild(span: Span, id: nat) {
    span.id == id && span.sleepMs.Some?
  }

  predicate HasSucceeded(span: Span, id: nat) {
    IsChild(span, id) && !span.exception
  }

  /** Lines written for `id` beyond the finished spans that account for them. */
  function EntrySurplus(w: World, id: nat): int {
    Entries(w.word, id) - Children(w.spans, id)
  }

  function ExitSurplus(w: World, id: nat): int {
    Exits(w.word, id) - Succeeded(w.spans, id)
  }

  ghost predicate SameSurplus(w: World, after: World, id: nat) {
    EntrySurplus(after, id) == EntrySurplus(w, id) && ExitSurplus(after, id) == ExitSurplus(w, id)
  }

  lemma {:induction false} WordSnoc(word: seq<Event>, e: Event, id: nat)
    ensures Entries(word + [e], id) == Entries(word, id) + if IsEntry(e, id) then 1 else 0
    ensures Exits(word + [e], id) == Exits(word, id) + if IsExit(e, id) then 1 else 0
  {
    assert (word + [e])[..|word|] == word;
  }

  lemma {:induction false} SpansSnoc(spans: seq<Span>, span: Span, id: nat)
    ensures Children(spans + [span], id) == Children(spans, id) + if IsChild(span, id) then 1 else 0
    ensures Succeeded(spans + [span], id) == Succeeded(spans, id) + if HasSucceeded(span, id) then 1 else 0
  {
    assert (spans + [span])[..|spans|] == spans;
  }

  lemma {:induction false} SayCounts(env: Env, w: World, span: nat, level: int, message: Message, id: nat)
    requires env.minLevel <= level && env.trace != 0 && span != 0
    ensures var after := Say(env, w, span, level, message);
            && EntrySurplus(after, id) == EntrySurplus(w, id) + (if message.SpanStart? && span == id then 1 else 0)
            && ExitSurplus(after, id) == ExitSurplus(w, id) + (if message.SpanEnd? && span == id then 1 else 0)
  {
    WordSnoc(w.word, Log(Correlate(SpanContext(env.trace, span), Line(message, map[]))), id);
  }

  lemma {:induction false} SayOther(env: Env, w: World, span: nat, level: int, text: string, id: nat)
    ensures var after := Say(env, w, span, level, Text(level, text));
            SameSurplus(w, after, id)
  {
    WordSnoc(w.word, Log(Correlate(SpanContext(env.trace, span), Line(Text(level, text), map[]))), id);
  }

  lemma {:induction false} OpenCounts(env: Env, w: World, parent: nat, id: nat)
    ensures var after := Open(env, w, parent);
            SameSurplus(w, after, id)
  {
    WordSnoc(w.word, Start(w.next, parent), id);
  }

  lemma {:induction false} CloseCounts(env: Env, w: World, span: Span, id: nat)
    ensures var after := Close(env, w, span);
            && EntrySurplus(after, id) == EntrySurplus(w, id) - (if IsChild(span, id) then 1 else 0)
            && ExitSurplus(after, id) == ExitSurplus(w, id) - (if HasSucceeded(span, id) then 1 else 0)
  {
    WordSnoc(w.word, End(span.id), id);
    SpansSnoc(w.spans, span.(end := Close(env, w, span).now), id);
  }

  /** With debug logging on, a run writes as many entry and exit lines as its finished spans call for. */
  lemma {:induction false} RunLogs(env: Env, w: World, parent: nat, n: Node, id: nat)
    requires env.minLevel <= DEBUG && env.trace != 0 && w.next != 0
    ensures var after := Run(env, w, parent, n).0;
            SameSurplus(w, after, id) && after.next != 0
    decreases n
  {
    var entered, body := Entered(env, w, parent, n), RunBody(env, w, parent, n);
    EnterCounts(env, w, parent, n, id);
    if n.fn.Some? {
      StepsLog(env, entered, w.next, n.fn.value, id);
    }
    LeaveCounts(env, body.0, Pending(env, w, parent, n, body.1), n, body.1, id);
    SurplusReturns(w, entered, body.0, Run(env, w, parent, n).0, id, if n.kind.Child? && w.next == id then 1 else 0);
  }

  /** What the entry line adds, the finished span takes away. */
  lemma {:induction false} SurplusReturns(w: World, entered: World, left: World, after: World, id: nat, one: int)
    requires Extra(w, entered, id, one) && SameSurplus(entered, left, id) && Extra(left, after, id, -one)
    ensures SameSurplus(w, after, id)
  {
  }

  ghost predicate Extra(w: World, after: World, id: nat, entries: int) {
    EntrySurplus(after, id) == EntrySurplus(w, id) + entries && ExitSurplus(after, id) == ExitSurplus(w, id)
  }

  lemma {:induction false} EnterCounts(env: Env, w: World, parent: nat, n: Node, id: nat)
    requires env.minLevel <= DEBUG && env.trace != 0 && w.next != 0
    ensures var entered := Entered(env, w, parent, n);
            Extra(w, entered, id, if n.kind.Child? && w.next == id then 1 else 0) && entered.next != 0
  {
    OpenCounts(env, w, parent, id);
    SayCounts(env, Open(env, w, parent), w.next, DEBUG, SpanStart(n.name), id);
  }

  lemma {:induction false} LeaveCounts(env: Env, w: World, span: Span, n: Node, body: Result, id: nat)
    requires env.minLevel <= DEBUG && env.trace != 0 && span.id != 0
    requires span.sleepMs.Some? <==> n.kind.Child?
    requires n.kind.Child? ==> (span.exception <==> !body.Fine?)
    ensures var after := Close(env, Leave(env, w, span.id, n, body), span);
            Extra(w, after, id, if n.kind.Child? && span.id == id then -1 else 0) && after.next == w.next
  {
    SayCounts(env, w, span.id, DEBUG, SpanEnd(n.name), id);
    CloseCounts(env, Leave(env, w, span.id, n, body), span, id);
  }

  lemma {:induction false} StepsLog(env: Env, w: World, span: nat, f: Callback, id: nat)
    requires env.minLevel <= DEBUG && env.trace != 0 && w.next != 0
    ensures var after := RunSteps(env, w, span, f).0;
            SameSurplus(w, after, id) && after.next != 0
    decreases f.steps
  {
    match f.steps
    case Done =>
    case Emit(level, text, rest) =>
      SayOther(env, w, span, level, text, id);
      StepsLog(env, Say(env, w, span, level, Text(level, text)), span, f.(steps := rest), id);
    case Call(call, _, _) =>
      var (mid, r) := Run(env, w, span, call);
      RunLogs(env, w, span, call, id);
      var next := Resume(f, r);
      if next.Some? {
        StepsLog(env, mid, span, next.value, id);
      }
  }

  // ---------- Identifiers are unique ----------

  function SpanIds(spans: seq<Span>): seq<nat> {
    seq(|spans|, i requires 0 <= i < |spans| => spans[i].id)
  }

  lemma {:induction false} SameIds(t: Tree)
    ensures multiset(SpanIds(PostOrder(t))) == multiset(Ids(t))
    decreases t
  {
    AllSameIds(t.kids);
    assert SpanIds(PostOrder(t)) == SpanIds(PostOrders(t.kids)) + [t.span.id];
  }

  lemma {:induction false} AllSameIds(ts: seq<Tree>)
    ensures multiset(SpanIds(PostOrders(ts))) == multiset(AllIds(ts))
    decreases ts
  {
    if ts != [] {
      var a, b := PostOrder(ts[0]), PostOrders(ts[1..]);
      SameIds(ts[0]);
      AllSameIds(ts[1..]);
      assert SpanIds(a + b) == SpanIds(a) + SpanIds(b);
      assert multiset(SpanIds(a + b)) == multiset(SpanIds(a)) + multiset(SpanIds(b));
    }
  }

  lemma {:induction false} Once<T>(s: seq<T>, x: T)
    requires forall i, j :: 0 <= i < j < |s| ==> s[i] != s[j]
    ensures multiset(s)[x] <= 1
  {
    if s != [] {
      var front, last := s[..|s| - 1], s[|s| - 1];
      assert s == front + [last];
      Once(front, x);
      if x == last {
        assert x !in front;
      }
    }
  }

  /** Span identifiers of one run never repeat. */
  lemma {:induction false} UniqueIds(env: Env, w: World, parent: nat, n: Node, i: nat, j: nat)
    requires var spans := PostOrder(TreeOf(env, w, parent, n)); i < j < |spans|
    ensures var spans := PostOrder(TreeOf(env, w, parent, n)); spans[i].id != spans[j].id
  {
    var t := TreeOf(env, w, parent, n);
    var ids := SpanIds(PostOrder(t));
    RunRecords(env, w, parent, n);
    SameIds(t);
    Once(Ids(t), ids[i]);
    if ids[i] == ids[j] {
      Twice(ids, i, j);
    }
  }

  lemma {:induction false} Twice<T>(s: seq<T>, i: nat, j: nat)
    requires i < j < |s| && s[i] == s[j]
    ensures multiset(s)[s[i]] >= 2
  {
    assert s == s[..j] + [s[j]] + s[j + 1..];
    assert s[..j][i] == s[j];
  }

  lemma {:induction false} ScenarioIds(env: Env, now: int, parent: nat, n: Node)
    ensures var spans := Run(env, World(now, 0, 1, [], []), parent, n).0.spans;
            && spans == PostOrder(TreeOf(env, World(now, 0, 1, [], []), parent, n))
            && forall i, j :: 0 <= i < j < |spans| ==> spans[i].id != spans[j].id
  {
    var w := World(now, 0, 1, [], []);
    RunRecords(env, w, parent, n);
    var spans := PostOrder(TreeOf(env, w, parent, n));
    forall i, j | 0 <= i < j < |spans| ensures spans[i].id != spans[j].id {
      UniqueIds(env, w, parent, n, i, j);
    }
  }

  lemma {:induction false} CountsAreOne(spans: seq<Span>, k: nat)
    requires k < |spans| && spans[k].sleepMs.Some?
    requires forall i, j :: 0 <= i < j < |spans| ==> spans[i].id != spans[j].id
    ensures Children(spans, spans[k].id) == 1
    ensures Succeeded(spans, spans[k].id) == if spans[k].exception then 0 else 1
  {
    var front, id := spans[..|spans| - 1], spans[k].id;
    if k == |spans| - 1 {
      CountsAreZero(front, id);
    } else {
      CountsAreOne(front, k);
    }
  }

  lemma {:induction false} CountsAreZero(spans: seq<Span>, id: nat)
    requires forall i :: 0 <= i < |spans| ==> spans[i].id != id
    ensures Children(spans, id) == 0 && Succeeded(spans, id) == 0
  {
    if spans != [] {
      CountsAreZero(spans[..|spans| - 1], id);
    }
  }

  /** From an empty log, lines are as many as the finished spans call for. */
  lemma {:induction false} FreshSurplus(w: World, after: World, id: nat)
    requires w.word == [] && w.spans == [] && SameSurplus(w, after, id)
    ensures Entries(after.word, id) == Children(after.spans, id) && Exits(after.word, id) == Succeeded(after.spans, id)
  {
  }

  lemma {:induction false} FreshReplay(env: Env, w: World, parent: nat, n: Node)
    requires w.word == []
    ensures Replay(env.trace, [parent], Run(env, w, parent, n).0.word) == Some([parent])
  {
    assert Top([parent]) == parent;
    RunIsBracketed(env, [parent], w, [parent], n);
  }

  /**
   * A scenario run by a fresh tracer with debug logging: the word is well bracketed, and every
   * `child` span has exactly one entry line, and one exit line exactly when its callback neither
   * returned an error nor panicked.
   */
  lemma {:induction false} EveryChildIsLogged(env: Env, now: int, parent: nat, n: Node, k: nat)
    requires env.minLevel <= DEBUG && env.trace != 0
    requires var spans := Run(env, World(now, 0, 1, [], []), parent, n).0.spans;
             k < |spans| && spans[k].sleepMs.Some?
    ensures var after := Run(env, World(now, 0, 1, [], []), parent, n).0;
            var span := after.spans[k];
            && Replay(env.trace, [parent], after.word) == Some([parent])
            && Entries(after.word, span.id) == 1
            && Exits(after.word, span.id) == (if span.exception then 0 else 1)
  {
    var w := World(now, 0, 1, [], []);
    var after := Run(env, w, parent, n).0;
    FreshReplay(env, w, parent, n);
    ScenarioIds(env, now, parent, n);
    CountsAreOne(after.spans, k);
    RunLogs(env, w, parent, n, after.spans[k].id);
    FreshSurplus(w, after, after.spans[k].id);
  }
}
