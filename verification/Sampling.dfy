/** The sampler's three policies, and what they make of a recorded tree. */
module Sampling {
  import opened Options
  import opened Tracing
  import opened Records

  const THRESHOLD_MS := 1000

  predicate IsFailed(span: Span) {
    span.status.Failed?
  }

  predicate HasError(spans: seq<Span>) {
    exists i :: 0 <= i < |spans| && IsFailed(spans[i])
  }

  function Earliest(spans: seq<Span>): int
    requires spans != []
  {
    if |spans| == 1 then spans[0].start
    else
      var rest := Earliest(spans[1..]);
      if spans[0].start < rest then spans[0].start else rest
  }

  function Latest(spans: seq<Span>): int
    requires spans != []
  {
    if |spans| == 1 then spans[0].end else Max(spans[0].end, Latest(spans[1..]))
  }

  /** The latency policy compares the spread of the whole trace, in whole milliseconds. */
  predicate IsSlow(spans: seq<Span>) {
    spans != [] && Milliseconds(Latest(spans) - Earliest(spans)) >= THRESHOLD_MS
  }

  /** keep-errors, keep-slow-traces, sample-baseline: any one of them keeps the trace. */
  predicate Keep(baseline: nat -> bool, trace: nat, spans: seq<Span>) {
    HasError(spans) || IsSlow(spans) || baseline(trace)
  }

  lemma {:induction false} EarliestIsLeast(spans: seq<Span>)
    requires spans != []
    ensures forall i :: 0 <= i < |spans| ==> Earliest(spans) <= spans[i].start
    ensures exists i :: 0 <= i < |spans| && Earliest(spans) == spans[i].start
  {
    assert Earliest(spans) == spans[0].start || |spans| > 1;
    if |spans| > 1 {
      EarliestIsLeast(spans[1..]);
      var i :| 0 <= i < |spans[1..]| && Earliest(spans[1..]) == spans[1..][i].start;
      assert Earliest(spans) == spans[0].start || Earliest(spans) == spans[i + 1].start;
      assert forall j :: 1 <= j < |spans| ==> spans[j] == spans[1..][j - 1];
    }
  }

  lemma {:induction false} LatestIsGreatest(spans: seq<Span>)
    requires spans != []
    ensures forall i :: 0 <= i < |spans| ==> spans[i].end <= Latest(spans)
    ensures exists i :: 0 <= i < |spans| && Latest(spans) == spans[i].end
  {
    assert Latest(spans) == spans[0].end || |spans| > 1;
    if |spans| > 1 {
      LatestIsGreatest(spans[1..]);
      var i :| 0 <= i < |spans[1..]| && Latest(spans[1..]) == spans[1..][i].end;
      assert Latest(spans) == spans[0].end || Latest(spans) == spans[i + 1].end;
      assert forall j :: 1 <= j < |spans| ==> spans[j] == spans[1..][j - 1];
    }
  }

  /** The three policies in plain terms: a failed span, two ends a second apart, or the baseline. */
  lemma {:induction false} KeepMeans(baseline: nat -> bool, trace: nat, spans: seq<Span>)
    ensures Keep(baseline, trace, spans) <==>
            || (exists i :: 0 <= i < |spans| && spans[i].status.Failed?)
            || (exists i, j :: 0 <= i < |spans| && 0 <= j < |spans| && spans[j].end - spans[i].start >= 1_000_000_000)
            || baseline(trace)
  {
    if spans != [] {
      EarliestIsLeast(spans);
      LatestIsGreatest(spans);
      var i :| 0 <= i < |spans| && Earliest(spans) == spans[i].start;
      var j :| 0 <= j < |spans| && Latest(spans) == spans[j].end;
      assert IsSlow(spans) <==> spans[j].end - spans[i].start >= 1_000_000_000;
    }
    assert HasError(spans) <==> exists i :: 0 <= i < |spans| && spans[i].status.Failed? by {
      if i :| 0 <= i < |spans| && spans[i].status.Failed? {
        assert IsFailed(spans[i]);
      }
    }
  }

  /** More spans can only speak for keeping a trace. */
  lemma {:induction false} KeepIsMonotone(baseline: nat -> bool, trace: nat, some: seq<Span>, all: seq<Span>)
    requires forall i :: 0 <= i < |some| ==> some[i] in all
    ensures Keep(baseline, trace, some) ==> Keep(baseline, trace, all)
  {
    if some != [] {
      EarliestIsLeast(some);
      LatestIsGreatest(some);
      var i :| 0 <= i < |some| && Earliest(some) == some[i].start;
      var j :| 0 <= j < |some| && Latest(some) == some[j].end;
      assert some[i] in all && some[j] in all;
      EarliestIsLeast(all);
      LatestIsGreatest(all);
    }
  }

  /** The decision does not depend on the order in which spans arrived. */
  lemma {:induction false} KeepIsOrderFree(baseline: nat -> bool, trace: nat, a: seq<Span>, b: seq<Span>)
    requires multiset(a) == multiset(b)
    ensures Keep(baseline, trace, a) == Keep(baseline, trace, b)
  {
    forall i | 0 <= i < |a| ensures a[i] in b {
      assert a[i] in multiset(b);
    }
    forall i | 0 <= i < |b| ensures b[i] in a {
      assert b[i] in multiset(a);
    }
    KeepIsMonotone(baseline, trace, a, b);
    KeepIsMonotone(baseline, trace, b, a);
  }

  /** Why a trace must reach one sampler: a slow trace that two samplers share looks fast to both. */
  lemma {:induction false} FragmentsMislead()
    ensures exists some: seq<Span>, others: seq<Span> ::
              var never := (trace: nat) => false;
              Keep(never, 1, some + others) && !Keep(never, 1, some) && !Keep(never, 1, others)
  {
    var never := (trace: nat) => false;
    var a := Span(1, 1, 0, "auth", 0, 600_000_000, Unset, None, false);
    var b := Span(1, 2, 0, "search", 600_000_000, 1_200_000_000, Unset, None, false);
    var both := [a] + [b];
    LatestIsGreatest(both);
    EarliestIsLeast(both);
    assert both[0] == a && both[1] == b;
    assert IsSlow(both);
    assert !IsSlow([a]) && !HasError([a]) && !IsSlow([b]) && !HasError([b]);
    assert Keep(never, 1, [a] + [b]) && !Keep(never, 1, [a]) && !Keep(never, 1, [b]);
  }

  // ---------- Recorded trees ----------

  predicate Fails(s: Shape) {
    s.status.Failed? || AnyFails(s.kids)
  }

  predicate AnyFails(ss: seq<Shape>) {
    ss != [] && (Fails(ss[0]) || AnyFails(ss[1..]))
  }

  lemma {:induction false} HasErrorAppend(a: seq<Span>, b: seq<Span>)
    ensures HasError(a + b) == (HasError(a) || HasError(b))
  {
    if i :| 0 <= i < |a| && IsFailed(a[i]) {
      assert IsFailed((a + b)[i]);
    }
    if i :| 0 <= i < |b| && IsFailed(b[i]) {
      assert IsFailed((a + b)[|a| + i]);
    }
  }

  lemma {:induction false} TreeErrors(t: Tree, s: Shape)
    requires Records.Records(t, s)
    ensures HasError(PostOrder(t)) == Fails(s)
    decreases t
  {
    ForestErrors(t.kids, s.kids);
    HasErrorAppend(PostOrders(t.kids), [t.span]);
    assert HasError([t.span]) == t.span.status.Failed? by {
      assert IsFailed([t.span][0]) == t.span.status.Failed?;
    }
  }

  lemma {:induction false} ForestErrors(ts: seq<Tree>, ss: seq<Shape>)
    requires RecordAll(ts, ss)
    ensures HasError(PostOrders(ts)) == AnyFails(ss)
    decreases ts
  {
    if ts != [] {
      TreeErrors(ts[0], ss[0]);
      ForestErrors(ts[1..], ss[1..]);
      HasErrorAppend(PostOrder(ts[0]), PostOrders(ts[1..]));
    }
  }

  lemma {:induction false} TreeBounds(t: Tree, i: nat)
    requires Nested(t) && i < |PostOrder(t)|
    ensures t.span.start <= PostOrder(t)[i].start && PostOrder(t)[i].end <= t.span.end
    decreases t
  {
    if i < |PostOrders(t.kids)| {
      ForestBounds(t.kids, t.span.start, t.span.end, i);
    }
  }

  lemma {:induction false} ForestBounds(ts: seq<Tree>, lo: int, hi: int, i: nat)
    requires InOrder(ts, lo, hi) && i < |PostOrders(ts)|
    ensures lo <= PostOrders(ts)[i].start && PostOrders(ts)[i].end <= hi
    decreases ts
  {
    var first := PostOrder(ts[0]);
    if i < |first| {
      TreeBounds(ts[0], i);
      Reaches(ts[1..], ts[0].span.end, hi);
    } else {
      ForestBounds(ts[1..], ts[0].span.end, hi, i - |first|);
    }
  }

  /** A nested tree is as wide as its root. */
  lemma {:induction false} TreeSpread(t: Tree)
    requires Nested(t)
    ensures Earliest(PostOrder(t)) == t.span.start && Latest(PostOrder(t)) == t.span.end
  {
    var spans := PostOrder(t);
    EarliestIsLeast(spans);
    LatestIsGreatest(spans);
    forall i | 0 <= i < |spans| ensures t.span.start <= spans[i].start && spans[i].end <= t.span.end {
      TreeBounds(t, i);
    }
    assert spans[|spans| - 1] == t.span;
  }

  /**
   * The decision on the trace of any scenario, under any clock: kept exactly when some span failed,
   * or sleeps and overshoot together reach the threshold, or the baseline picks the trace.
   */
  lemma {:induction false} Decision(baseline: nat -> bool, env: Env, w: World, parent: nat, n: Node)
    ensures var s, after := Executed(n), Run(env, w, parent, n).0;
            var elapsed := Total(s) + Overshoot(env, w.tick + 1, after.tick);
            Keep(baseline, env.trace, PostOrder(TreeOf(env, w, parent, n))) <==>
            Fails(s) || elapsed >= 1_000_000_000 || baseline(env.trace)
  {
    var t := TreeOf(env, w, parent, n);
    RunConserves(env, w, parent, n);
    TreeErrors(t, Executed(n));
    TreeSpread(t);
  }
}
