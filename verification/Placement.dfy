/** Where errors land in a recorded tree, what its times mean, and what truncated sleeps lose. */
module Placement {
  import opened Options
  import opened Tracing
  import opened Records

  // ---------- Errors ----------

  /** What decides how a callback ends, told step by step: its own last word, or the call whose end it hands on. */
  datatype Source = Raised(r: Result) | Handed(call: Node)

  function SourceOf(f: Callback): Source
    decreases f.steps
  {
    match f.steps
    case Done => Raised(f.ret)
    case Emit(_, _, rest) => SourceOf(f.(steps := rest))
    case Call(call, use, rest) =>
      var r, on := Outcome(call), f.(steps := rest);
      if r.Fine? then SourceOf(on)
      else
        match use
        case Discarded => if r.Panic? then Handed(call) else SourceOf(on)
        case HandedOn => Handed(call)
        case Inspected(pick, branches) => if pick(r) < |branches| then SourceOf(branches[pick(r)]) else Handed(call)
  }

  /** A `child` call ends as its callback does; a handler lets only a panic through. */
  predicate Passes(n: Node, r: Result) {
    n.fn.Some? && (n.kind.Child? || r.Panic?)
  }

  /** A call whose own callback brings the error or the panic into being. */
  ghost predicate Origin(n: Node, r: Result) {
    Passes(n, r) && SourceOf(n.fn.value) == Raised(r)
  }

  ghost predicate HandsOn(caller: Node, callee: Node, r: Result) {
    Passes(caller, r) && SourceOf(caller.fn.value) == Handed(callee)
  }

  /** A chain of callers, outermost first, that ends where it began. */
  ghost predicate Chain(path: seq<Node>, r: Result) {
    && path != []
    && Origin(path[|path| - 1], r)
    && forall i :: 0 <= i < |path| - 1 ==> HandsOn(path[i], path[i + 1], r)
  }

  lemma {:induction false} SourceDecides(f: Callback)
    ensures match SourceOf(f)
            case Raised(r) => StepsOutcome(f) == r
            case Handed(call) => StepsOutcome(f) == Outcome(call) && !Outcome(call).Fine?
    decreases f.steps
  {
    match f.steps
    case Done =>
    case Emit(_, _, rest) => SourceDecides(f.(steps := rest));
    case Call(call, _, _) =>
      var next := Resume(f, Outcome(call));
      if next.Some? {
        SourceDecides(next.value);
      }
  }

  /** Every member of a chain ends as the chain's end does. */
  lemma {:induction false} ChainFails(path: seq<Node>, r: Result)
    requires Chain(path, r)
    ensures forall i :: 0 <= i < |path| ==> Outcome(path[i]) == r
    decreases |path|
  {
    var n := path[0];
    assert |path| > 1 ==> HandsOn(path[0], path[1], r);
    SourceDecides(n.fn.value);
    if |path| > 1 {
      assert forall i :: 0 <= i < |path[1..]| - 1 ==> path[1..][i] == path[i + 1] && HandsOn(path[i + 1], path[i + 2], r);
      ChainFails(path[1..], r);
      assert forall i :: 1 <= i < |path| ==> path[i] == path[1..][i - 1];
    }
  }

  lemma {:induction false} FailureHasChain(n: Node, r: Result) returns (path: seq<Node>)
    requires Outcome(n) == r && !r.Fine?
    ensures Chain(path, r) && path[0] == n
    decreases n
  {
    var rest := StepsHaveChain(n.fn.value, r);
    SourceDecides(n.fn.value);
    path := [n] + rest;
    assert forall i :: 0 < i < |path| ==> path[i] == rest[i - 1];
  }

  /** The chain below a callback, empty when the callback itself is the origin. */
  lemma {:induction false} StepsHaveChain(f: Callback, r: Result) returns (path: seq<Node>)
    requires StepsOutcome(f) == r && !r.Fine?
    ensures match SourceOf(f)
            case Raised(_) => path == []
            case Handed(call) => Chain(path, r) && path[0] == call
    decreases f.steps
  {
    match f.steps
    case Done => path := [];
    case Emit(_, _, rest) => path := StepsHaveChain(f.(steps := rest), r);
    case Call(call, _, _) =>
      var next := Resume(f, Outcome(call));
      if next.Some? {
        path := StepsHaveChain(next.value, r);
      } else {
        path := FailureHasChain(call, r);
      }
  }

  /**
   * In every run a call returns an error, or passes a panic on, exactly when a chain of callers that
   * hand it on leads from it to the callback that began it. A `child` span has ERROR status with that
   * very error exactly then; a panic leaves the status alone.
   */
  lemma {:induction false} ErrorPlacement(env: Env, w: World, parent: nat, n: Node, r: Result)
    requires !r.Fine?
    ensures Run(env, w, parent, n).1 == r <==> exists path :: Chain(path, r) && path[0] == n
    ensures var span := TreeOf(env, w, parent, n).span;
            var chained := exists path :: Chain(path, r) && path[0] == n;
            && (n.kind.Child? && r.Err? ==> (span.status == Failed(r.error) <==> chained))
            && (n.kind.Child? && chained ==> span.exception)
            && (r.Panic? && chained ==> span.status.Unset?)
  {
    RunConserves(env, w, parent, n);
    RunReturns(env, w, parent, n);
    if Outcome(n) == r {
      var path := FailureHasChain(n, r);
    }
    if path :| Chain(path, r) && path[0] == n {
      ChainFails(path, r);
    }
  }

  /** The scenario with every call taken out whose error is discarded, save those that panic. */
  function WithoutDiscarded(n: Node): Node
    decreases n
  {
    if n.fn.None? then n
    else n.(fn := Some(n.fn.value.(steps := StepsWithoutDiscarded(n.fn.value.steps))))
  }

  function StepsWithoutDiscarded(steps: Steps): Steps
    decreases steps
  {
    match steps
    case Done => Done
    case Emit(level, text, rest) => Emit(level, text, StepsWithoutDiscarded(rest))
    case Call(call, use, rest) =>
      if use.Discarded? && !Outcome(call).Panic? then StepsWithoutDiscarded(rest)
      else Call(WithoutDiscarded(call), UseWithoutDiscarded(use), StepsWithoutDiscarded(rest))
  }

  function UseWithoutDiscarded(use: Use): Use
    decreases use
  {
    if !use.Inspected? then use
    else
      var bs := use.branches;
      use.(branches := seq(|bs|, i requires 0 <= i < |bs| => bs[i].(steps := StepsWithoutDiscarded(bs[i].steps))))
  }

  /** Discarded calls, whatever fails inside them, never decide how an enclosing call ends. */
  lemma {:induction false} DiscardedNeverMatters(n: Node)
    ensures Outcome(WithoutDiscarded(n)) == Outcome(n)
    ensures var s, s' := Executed(n), Executed(WithoutDiscarded(n)); s'.status == s.status && s'.exception == s.exception
    decreases n
  {
    if n.fn.Some? {
      DiscardedStepsNeverMatter(n.fn.value);
    }
  }

  lemma {:induction false} DiscardedStepsNeverMatter(f: Callback)
    ensures StepsOutcome(f.(steps := StepsWithoutDiscarded(f.steps))) == StepsOutcome(f)
    decreases f.steps
  {
    match f.steps
    case Done =>
    case Emit(level, text, rest) =>
      var g := f.(steps := StepsWithoutDiscarded(f.steps));
      assert g.steps == Emit(level, text, StepsWithoutDiscarded(rest));
      DiscardedStepsNeverMatter(f.(steps := rest));
    case Call(call, use, rest) =>
      var next := Resume(f, Outcome(call));
      if next.Some? {
        DiscardedStepsNeverMatter(next.value);
      }
      if !use.Discarded? || Outcome(call).Panic? {
        DiscardedNeverMatters(call);
        var g := f.(steps := StepsWithoutDiscarded(f.steps));
        assert g.steps == Call(WithoutDiscarded(call), UseWithoutDiscarded(use), StepsWithoutDiscarded(rest));
        assert Resume(g, Outcome(call)) ==
               if next.None? then None else Some(next.value.(steps := StepsWithoutDiscarded(next.value.steps)));
      }
  }

  // ---------- Time ----------

  /** Siblings are disjoint and lie inside their parent. */
  lemma {:induction false} NestedMeans(ts: seq<Tree>, lo: int, hi: int, i: nat, j: nat)
    requires InOrder(ts, lo, hi) && i < j < |ts|
    ensures lo <= ts[i].span.start <= ts[i].span.end <= ts[j].span.start <= ts[j].span.end <= hi
    decreases |ts|
  {
    if i > 0 {
      NestedMeans(ts[1..], ts[0].span.end, hi, i - 1, j - 1);
    } else {
      MemberBounds(ts[1..], ts[0].span.end, hi, j - 1);
    }
  }

  lemma {:induction false} MemberBounds(ts: seq<Tree>, lo: int, hi: int, j: nat)
    requires InOrder(ts, lo, hi) && j < |ts|
    ensures lo <= ts[j].span.start <= ts[j].span.end <= hi
    decreases |ts|
  {
    if j > 0 {
      MemberBounds(ts[1..], ts[0].span.end, hi, j - 1);
    } else {
      Reaches(ts[1..], ts[0].span.end, hi);
    }
  }

  /** The root lasts at least all sleeps together, and exactly that long on an ideal clock. */
  lemma {:induction false} RootDuration(env: Env, w: World, parent: nat, n: Node)
    ensures var d := TreeOf(env, w, parent, n).span.Duration();
            && d >= Total(Executed(n))
            && ((forall k :: env.jitter(k) == 0) ==> d == Total(Executed(n)))
  {
    RunConserves(env, w, parent, n);
    if forall k :: env.jitter(k) == 0 {
      IdealOvershoot(env, w.tick + 1, Run(env, w, parent, n).0.tick);
    }
  }

  // ---------- Truncated sleeps ----------

  /** Sum of the sleep attributes over finished spans. */
  function RecordedMs(spans: seq<Span>): int {
    if spans == [] then 0
    else RecordedMs(spans[..|spans| - 1]) + Ms(spans[|spans| - 1].sleepMs)
  }

  function Ms(sleepMs: Option<int>): int {
    if sleepMs.Some? then sleepMs.value else 0
  }

  function ShapeMs(s: Shape): int {
    Ms(s.sleepMs) + AllShapeMs(s.kids)
  }

  function AllShapeMs(ss: seq<Shape>): int {
    if ss == [] then 0 else ShapeMs(ss[0]) + AllShapeMs(ss[1..])
  }

  function ChildCount(s: Shape): nat {
    (if s.sleepMs.Some? then 1 else 0) + AllChildCount(s.kids)
  }

  function AllChildCount(ss: seq<Shape>): nat {
    if ss == [] then 0 else ChildCount(ss[0]) + AllChildCount(ss[1..])
  }

  lemma {:induction false} RecordedAppend(a: seq<Span>, b: seq<Span>)
    ensures RecordedMs(a + b) == RecordedMs(a) + RecordedMs(b)
  {
    if b == [] {
      assert a + b == a;
    } else {
      assert (a + b)[..|a + b| - 1] == a + b[..|b| - 1];
      RecordedAppend(a, b[..|b| - 1]);
    }
  }

  lemma {:induction false} RecordedIsShape(t: Tree, s: Shape)
    requires Records.Records(t, s)
    ensures RecordedMs(PostOrder(t)) == ShapeMs(s)
    decreases t
  {
    AllRecordedAreShape(t.kids, s.kids);
    assert PostOrder(t)[..|PostOrder(t)| - 1] == PostOrders(t.kids);
  }

  lemma {:induction false} AllRecordedAreShape(ts: seq<Tree>, ss: seq<Shape>)
    requires RecordAll(ts, ss)
    ensures RecordedMs(PostOrders(ts)) == AllShapeMs(ss)
    decreases ts
  {
    if ts != [] {
      RecordedIsShape(ts[0], ss[0]);
      AllRecordedAreShape(ts[1..], ss[1..]);
      RecordedAppend(PostOrder(ts[0]), PostOrders(ts[1..]));
    }
  }

  /** No call that runs asks for a negative sleep. */
  predicate NoNegative(n: Node)
    decreases n
  {
    Asked(n) >= 0 && (n.fn.None? || StepsNoNegative(n.fn.value))
  }

  predicate StepsNoNegative(f: Callback)
    decreases f.steps
  {
    match f.steps
    case Done => true
    case Emit(_, _, rest) => StepsNoNegative(f.(steps := rest))
    case Call(call, _, _) =>
      && NoNegative(call)
      && match Resume(f, Outcome(call))
         case None => true
         case Some(next) => StepsNoNegative(next)
  }

  const MS := 1_000_000

  /** Truncation is toward zero, on either side. */
  lemma {:induction false} MillisecondsTruncate(d: int)
    ensures d >= 0 ==> 0 <= d - 1_000_000 * Milliseconds(d) < 1_000_000
    ensures d <= 0 ==> 0 <= 1_000_000 * Milliseconds(d) - d < 1_000_000
  {
    var m := if d >= 0 then d else -d;
    assert m == 1_000_000 * (m / 1_000_000) + m % 1_000_000;
  }

  /** Each call loses less than one millisecond to truncation. */
  lemma {:induction false} Remainder(n: Node)
    requires NoNegative(n)
    ensures var s := Executed(n);
            0 <= Total(s) - MS * ShapeMs(s) <= (MS - 1) * ChildCount(s)
    decreases n
  {
    var d := Asked(n);
    assert d == MS * (d / MS) + d % MS;
    if n.fn.Some? {
      StepsRemainder(n.fn.value);
    }
  }

  lemma {:induction false} StepsRemainder(f: Callback)
    requires StepsNoNegative(f)
    ensures var ss := ExecutedSteps(f);
            0 <= Totals(ss) - MS * AllShapeMs(ss) <= (MS - 1) * AllChildCount(ss)
    decreases f.steps
  {
    match f.steps
    case Done =>
    case Emit(_, _, rest) => StepsRemainder(f.(steps := rest));
    case Call(call, _, _) =>
      var next := Resume(f, Outcome(call));
      Remainder(call);
      if next.Some? {
        StepsRemainder(next.value);
        assert ExecutedSteps(f)[1..] == ExecutedSteps(next.value);
      } else {
        assert ExecutedSteps(f)[1..] == [];
      }
  }

  /** The recorded sleeps add up to the total sleep in whole milliseconds, short by at most one less than the number of calls. */
  lemma {:induction false} TruncationBound(env: Env, w: World, parent: nat, n: Node)
    requires NoNegative(n) && ChildCount(Executed(n)) >= 1
    ensures var recorded := RecordedMs(PostOrder(TreeOf(env, w, parent, n)));
            var total := Total(Executed(n)) / MS;
            recorded <= total <= recorded + ChildCount(Executed(n)) - 1
  {
    var s := Executed(n);
    RunConserves(env, w, parent, n);
    RecordedIsShape(TreeOf(env, w, parent, n), s);
    Remainder(n);
    var lost, count := Total(s) - MS * ShapeMs(s), ChildCount(s);
    assert Total(s) / MS == ShapeMs(s) + lost / MS;
    assert lost <= MS * count - 1;
  }
}
