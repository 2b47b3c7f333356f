/** The tree that a run records: its spans, their nesting in time, and where errors are placed. */
module Records {
  import opened Options
  import opened Tracing

  datatype Tree = Tree(span: Span, kids: seq<Tree>)

  function SpanOf(env: Env, w: World, parent: nat, n: Node): Span {
    Pending(env, w, parent, n, BodyOutcome(n)).(end := Run(env, w, parent, n).0.now)
  }

  function TreeOf(env: Env, w: World, parent: nat, n: Node): Tree
    decreases n
  {
    Tree(SpanOf(env, w, parent, n),
         if n.fn.None? then [] else ForestOf(env, Entered(env, w, parent, n), w.next, n.fn.value))
  }

  function ForestOf(env: Env, w: World, id: nat, f: Callback): seq<Tree>
    decreases f.steps
  {
    match f.steps
    case Done => []
    case Emit(level, text, rest) => ForestOf(env, Say(env, w, id, level, Text(level, text)), id, f.(steps := rest))
    case Call(call, _, _) =>
      [TreeOf(env, w, id, call)] +
      match Resume(f, Outcome(call))
      case None => []
      case Some(next) => ForestOf(env, Run(env, w, id, call).0, id, next)
  }

  /** How a call ends, read off the scenario alone. */
  function Outcome(n: Node): Result
    decreases n, 1
  {
    Passed(n, BodyOutcome(n))
  }

  function BodyOutcome(n: Node): Result
    decreases n, 0
  {
    if n.fn.None? then Fine else StepsOutcome(n.fn.value)
  }

  function StepsOutcome(f: Callback): Result
    decreases f.steps
  {
    match f.steps
    case Done => f.ret
    case Emit(_, _, rest) => StepsOutcome(f.(steps := rest))
    case Call(call, _, _) =>
      match Resume(f, Outcome(call))
      case None => Outcome(call)
      case Some(next) => StepsOutcome(next)
  }

  lemma {:induction false} RunReturns(env: Env, w: World, parent: nat, n: Node)
    ensures Run(env, w, parent, n).1 == Outcome(n) && RunBody(env, w, parent, n).1 == BodyOutcome(n)
    decreases n
  {
    if n.fn.Some? {
      StepsReturn(env, Entered(env, w, parent, n), w.next, n.fn.value);
    }
  }

  lemma {:induction false} StepsReturn(env: Env, w: World, id: nat, f: Callback)
    ensures RunSteps(env, w, id, f).1 == StepsOutcome(f)
    decreases f.steps
  {
    match f.steps
    case Done =>
    case Emit(level, text, rest) => StepsReturn(env, Say(env, w, id, level, Text(level, text)), id, f.(steps := rest));
    case Call(call, _, _) =>
      RunReturns(env, w, id, call);
      var next := Resume(f, Outcome(call));
      if next.Some? {
        StepsReturn(env, Run(env, w, id, call).0, id, next.value);
      }
  }

  // ---------- Export order and identifiers ----------

  function PostOrder(t: Tree): seq<Span> {
    PostOrders(t.kids) + [t.span]
  }

  function PostOrders(ts: seq<Tree>): seq<Span> {
    if ts == [] then [] else PostOrder(ts[0]) + PostOrders(ts[1..])
  }

  function Ids(t: Tree): seq<nat> {
    [t.span.id] + AllIds(t.kids)
  }

  function AllIds(ts: seq<Tree>): seq<nat> {
    if ts == [] then [] else Ids(ts[0]) + AllIds(ts[1..])
  }

  predicate Linked(t: Tree, parent: nat) {
    t.span.parent == parent && AllLinked(t.kids, t.span.id)
  }

  predicate AllLinked(ts: seq<Tree>, parent: nat) {
    ts == [] || (Linked(ts[0], parent) && AllLinked(ts[1..], parent))
  }

  function Interval(lo: nat, hi: nat): seq<nat>
    requires lo <= hi
  {
    seq(hi - lo, i requires 0 <= i => lo + i)
  }

  /**
   * A run exports its tree child first, hands out identifiers parent first, and names the
   * enclosing call as every span's parent.
   */
  lemma {:induction false} RunRecords(env: Env, w: World, parent: nat, n: Node)
    ensures var after, t := Run(env, w, parent, n).0, TreeOf(env, w, parent, n);
            && after.spans == w.spans + PostOrder(t)
            && w.next <= after.next && Ids(t) == Interval(w.next, after.next)
            && Linked(t, parent)
    decreases n
  {
    RunReturns(env, w, parent, n);
    if n.fn.Some? {
      StepsRecord(env, Entered(env, w, parent, n), w.next, n.fn.value);
    }
  }

  lemma {:induction false} StepsRecord(env: Env, w: World, id: nat, f: Callback)
    ensures var after, ts := RunSteps(env, w, id, f).0, ForestOf(env, w, id, f);
            && after.spans == w.spans + PostOrders(ts)
            && w.next <= after.next && AllIds(ts) == Interval(w.next, after.next)
            && AllLinked(ts, id)
    decreases f.steps
  {
    match f.steps
    case Done =>
    case Emit(level, text, rest) => StepsRecord(env, Say(env, w, id, level, Text(level, text)), id, f.(steps := rest));
    case Call(call, _, _) =>
      var mid, next := Run(env, w, id, call).0, Resume(f, Outcome(call));
      RunRecords(env, w, id, call);
      RunReturns(env, w, id, call);
      if next.Some? {
        StepsRecord(env, mid, id, next.value);
        JoinRecords(TreeOf(env, w, id, call), ForestOf(env, mid, id, next.value), id, w, mid, RunSteps(env, mid, id, next.value).0);
      } else {
        JoinRecords(TreeOf(env, w, id, call), [], id, w, mid, mid);
      }
  }

  lemma {:induction false} JoinRecords(t: Tree, ts: seq<Tree>, id: nat, w: World, mid: World, after: World)
    requires mid.spans == w.spans + PostOrder(t) && after.spans == mid.spans + PostOrders(ts)
    requires w.next <= mid.next && Ids(t) == Interval(w.next, mid.next)
    requires mid.next <= after.next && AllIds(ts) == Interval(mid.next, after.next)
    requires Linked(t, id) && AllLinked(ts, id)
    ensures after.spans == w.spans + PostOrders([t] + ts)
    ensures AllIds([t] + ts) == Interval(w.next, after.next)
    ensures AllLinked([t] + ts, id)
  {
    assert ([t] + ts)[1..] == ts;
    assert Interval(w.next, mid.next) + Interval(mid.next, after.next) == Interval(w.next, after.next);
    assert (w.spans + PostOrder(t)) + PostOrders(ts) == w.spans + (PostOrder(t) + PostOrders(ts));
  }

  /** Every span of a run carries the run's trace id. */
  lemma {:induction false} RunIsOneTrace(env: Env, w: World, parent: nat, n: Node)
    ensures forall i :: 0 <= i < |PostOrder(TreeOf(env, w, parent, n))| ==> PostOrder(TreeOf(env, w, parent, n))[i].trace == env.trace
    decreases n
  {
    if n.fn.Some? {
      StepsAreOneTrace(env, Entered(env, w, parent, n), w.next, n.fn.value);
    }
  }

  lemma {:induction false} StepsAreOneTrace(env: Env, w: World, id: nat, f: Callback)
    ensures forall i :: 0 <= i < |PostOrders(ForestOf(env, w, id, f))| ==> PostOrders(ForestOf(env, w, id, f))[i].trace == env.trace
    decreases f.steps
  {
    match f.steps
    case Done =>
    case Emit(level, text, rest) => StepsAreOneTrace(env, Say(env, w, id, level, Text(level, text)), id, f.(steps := rest));
    case Call(call, _, _) =>
      var next := Resume(f, Outcome(call));
      RunIsOneTrace(env, w, id, call);
      if next.Some? {
        StepsAreOneTrace(env, Run(env, w, id, call).0, id, next.value);
      }
      assert ForestOf(env, w, id, f)[1..] == if next.None? then [] else ForestOf(env, Run(env, w, id, call).0, id, next.value);
  }

  // ---------- Time ----------

  /** Children run one after another inside their parent. */
  predicate Nested(t: Tree) {
    t.span.start <= t.span.end && InOrder(t.kids, t.span.start, t.span.end)
  }

  predicate InOrder(ts: seq<Tree>, lo: int, hi: int) {
    if ts == [] then lo <= hi
    else lo <= ts[0].span.start && Nested(ts[0]) && InOrder(ts[1..], ts[0].span.end, hi)
  }

  lemma {:induction false} Reaches(ts: seq<Tree>, lo: int, hi: int)
    requires InOrder(ts, lo, hi)
    ensures lo <= hi
    decreases |ts|
  {
    if ts != [] {
      Reaches(ts[1..], ts[0].span.end, hi);
    }
  }

  /** Sum of the clock's overshoots on the ticks from `lo` up to `hi`. */
  function Overshoot(env: Env, lo: nat, hi: nat): nat
    decreases hi
  {
    if hi <= lo then 0 else Overshoot(env, lo, hi - 1) + env.jitter(hi - 1)
  }

  lemma {:induction false} OvershootSplits(env: Env, lo: nat, mid: nat, hi: nat)
    requires lo <= mid <= hi
    ensures Overshoot(env, lo, hi) == Overshoot(env, lo, mid) + Overshoot(env, mid, hi)
    decreases hi
  {
    if mid < hi {
      OvershootSplits(env, lo, mid, hi - 1);
    }
  }

  lemma {:induction false} IdealOvershoot(env: Env, lo: nat, hi: nat)
    requires forall k :: env.jitter(k) == 0
    ensures Overshoot(env, lo, hi) == 0
    decreases hi
  {
    if lo < hi {
      IdealOvershoot(env, lo, hi - 1);
    }
  }

  /** The part of a scenario that actually runs, independent of any clock. */
  datatype Shape = Shape(name: string, asked: int, sleepMs: Option<int>, status: Status, exception: bool, kids: seq<Shape>)

  function Executed(n: Node): Shape
    decreases n
  {
    Shape(n.name, Max(Asked(n), 0),
          if n.kind.Child? then Some(Milliseconds(n.kind.sleep)) else None,
          StatusOf(n, BodyOutcome(n)), HasException(n, BodyOutcome(n)),
          if n.fn.None? then [] else ExecutedSteps(n.fn.value))
  }

  function ExecutedSteps(f: Callback): seq<Shape>
    decreases f.steps
  {
    match f.steps
    case Done => []
    case Emit(_, _, rest) => ExecutedSteps(f.(steps := rest))
    case Call(call, _, _) =>
      [Executed(call)] +
      match Resume(f, Outcome(call))
      case None => []
      case Some(next) => ExecutedSteps(next)
  }

  /** Sum of the sleeps asked for. */
  function Total(s: Shape): int {
    s.asked + Totals(s.kids)
  }

  function Totals(ss: seq<Shape>): int {
    if ss == [] then 0 else Total(ss[0]) + Totals(ss[1..])
  }

  /** Number of spans in a shape. */
  function Spans(s: Shape): nat {
    1 + AllSpans(s.kids)
  }

  function AllSpans(ss: seq<Shape>): nat {
    if ss == [] then 0 else Spans(ss[0]) + AllSpans(ss[1..])
  }

  function Durations(ts: seq<Tree>): int {
    if ts == [] then 0 else ts[0].span.Duration() + Durations(ts[1..])
  }

  /** The tree records the shape: names, sleeps, statuses and exceptions agree, and no span is shorter than its own sleep and its children. */
  predicate Records(t: Tree, s: Shape) {
    && t.span.name == s.name && t.span.sleepMs == s.sleepMs && t.span.status == s.status
    && t.span.exception == s.exception
    && t.span.Duration() >= s.asked + Durations(t.kids)
    && RecordAll(t.kids, s.kids)
  }

  predicate RecordAll(ts: seq<Tree>, ss: seq<Shape>) {
    |ts| == |ss| && (ts != [] ==> Records(ts[0], ss[0]) && RecordAll(ts[1..], ss[1..]))
  }

  /**
   * Time is conserved: what passes between entry and exit is the sleeps asked for plus the clock's
   * overshoots, nothing else; and the recorded tree is nested, with the scenario's executed shape.
   */
  lemma {:induction false} RunConserves(env: Env, w: World, parent: nat, n: Node)
    ensures var after, t, s := Run(env, w, parent, n).0, TreeOf(env, w, parent, n), Executed(n);
            && w.tick < after.tick && w.now <= after.now
            && after.now == w.now + Total(s) + Overshoot(env, w.tick, after.tick)
            && t.span.Duration() == Total(s) + Overshoot(env, w.tick + 1, after.tick)
            && w.now <= t.span.start && t.span.end == after.now
            && Nested(t) && Records(t, s)
    decreases n
  {
    var entered := Entered(env, w, parent, n);
    RunReturns(env, w, parent, n);
    if n.fn.Some? {
      StepsConserve(env, entered, w.next, n.fn.value);
    }
    FrameConserves(env, w, Open(env, w, parent), entered, RunBody(env, w, parent, n).0, Run(env, w, parent, n).0,
                   TreeOf(env, w, parent, n), Executed(n));
  }

  /** Around its children, a span adds the opening, its own sleep and the closing. */
  lemma {:induction false} FrameConserves(env: Env, w: World, begun: World, entered: World, left: World, after: World, t: Tree, s: Shape)
    requires begun.tick == w.tick + 1 && begun.now == w.now + env.jitter(w.tick)
    requires begun.tick <= entered.tick <= begun.tick + 1 && s.asked >= 0
    requires entered.now == begun.now + s.asked + (if entered.tick > begun.tick then env.jitter(begun.tick) else 0)
    requires Conserved(env, entered, left, t.kids, s.kids)
    requires after.tick == left.tick + 1 && after.now == left.now + env.jitter(left.tick)
    requires t.span.start == begun.now && t.span.end == after.now
    ensures after.now == w.now + Total(s) + Overshoot(env, w.tick, after.tick)
    ensures t.span.Duration() == Total(s) + Overshoot(env, w.tick + 1, after.tick)
    ensures t.span.Duration() >= s.asked + Durations(t.kids) && Nested(t)
  {
    OvershootSplits(env, begun.tick, entered.tick, left.tick);
    OvershootSplits(env, w.tick, begun.tick, after.tick);
    Widen(t.kids, entered.now, left.now, begun.now, after.now);
  }

  lemma {:induction false} StepsConserve(env: Env, w: World, id: nat, f: Callback)
    ensures Conserved(env, w, RunSteps(env, w, id, f).0, ForestOf(env, w, id, f), ExecutedSteps(f))
    decreases f.steps
  {
    match f.steps
    case Done =>
    case Emit(level, text, rest) => StepsConserve(env, Say(env, w, id, level, Text(level, text)), id, f.(steps := rest));
    case Call(call, _, _) =>
      var mid, next := Run(env, w, id, call).0, Resume(f, Outcome(call));
      RunReturns(env, w, id, call);
      RunConserves(env, w, id, call);
      if next.Some? {
        StepsConserve(env, mid, id, next.value);
        JoinConserved(env, TreeOf(env, w, id, call), ForestOf(env, mid, id, next.value),
                      Executed(call), ExecutedSteps(next.value), w, mid, RunSteps(env, mid, id, next.value).0);
      } else {
        JoinConserved(env, TreeOf(env, w, id, call), [], Executed(call), [], w, mid, mid);
      }
  }

  ghost predicate Conserved(env: Env, w: World, after: World, ts: seq<Tree>, ss: seq<Shape>) {
    && w.tick <= after.tick
    && after.now == w.now + Totals(ss) + Overshoot(env, w.tick, after.tick)
    && after.now >= w.now + Durations(ts)
    && w.now <= after.now
    && InOrder(ts, w.now, after.now) && RecordAll(ts, ss)
  }

  lemma {:induction false} JoinConserved(env: Env, t: Tree, ts: seq<Tree>, s: Shape, ss: seq<Shape>, w: World, mid: World, after: World)
    requires w.tick < mid.tick && mid.now == w.now + Total(s) + Overshoot(env, w.tick, mid.tick)
    requires w.now <= t.span.start && t.span.end == mid.now && Nested(t) && Records(t, s)
    requires Conserved(env, mid, after, ts, ss)
    ensures Conserved(env, w, after, [t] + ts, [s] + ss)
  {
    assert ([t] + ts)[1..] == ts && ([s] + ss)[1..] == ss;
    OvershootSplits(env, w.tick, mid.tick, after.tick);
  }

  lemma {:induction false} Widen(ts: seq<Tree>, lo: int, hi: int, lo': int, hi': int)
    requires InOrder(ts, lo, hi) && lo' <= lo && hi <= hi'
    ensures InOrder(ts, lo', hi')
  {
    if ts != [] {
      Widen(ts[1..], ts[0].span.end, hi, ts[0].span.end, hi');
    }
  }
}
