/**
 * The sampling tier as a transition system: every span is routed by its trace to a sampler pod, which
 * buffers traces in a bounded queue and decides them by the three policies.
 */
module Pipeline {
  import opened Options
  import opened Tracing
  import opened Sampling

  /** Times count milliseconds. The hash, the pod list and the baseline choice are fixed. */
  datatype Config = Config(pods: nat, hash: nat -> nat, wait: nat, capacity: nat, baseline: nat -> bool) {
    predicate Valid() { pods > 0 && wait > 0 }
  }

  /** A trace held by a pod, from its first span on. */
  datatype Entry = Entry(trace: nat, first: int, spans: seq<Span>, decision: Option<bool>)

  /** The pods' queues, oldest trace first, and the history of the run. */
  datatype State = State(
    now: int,
    pods: seq<seq<Entry>>,
    exported: seq<Span>,
    arrived: seq<Span>,       // every span, in arrival order
    firsts: map<nat, int>,    // when each trace was first seen
    decided: set<nat>,        // traces decided at some time
    lost: set<nat>,           // traces evicted undecided
    late: set<nat>,           // traces with a span after their decision
    reopened: set<nat>,       // traces queued anew after their decision
    tardy: set<nat>,          // traces with a span `wait` or more after their first
    news: seq<seq<int>>,      // per pod, when it opened a queue entry
    swept: seq<int>,          // per pod, when it last decided its due traces
    slack: int                // longest time from a sweep of a pod to an arrival there
  )

  datatype Action =
    | Arrive(span: Span)
    | Pass(time: nat)
    | Sweep(pod: nat)

  /** The pod that the hash of the trace id picks from the pod list. */
  function Home(cfg: Config, trace: nat): (pod: nat)
    requires cfg.Valid()
    ensures pod < cfg.pods
  {
    cfg.hash(trace) % cfg.pods
  }

  function Initial(cfg: Config): State {
    State(0, seq(cfg.pods, _ => []), [], [], map[], {}, {}, {}, {}, {}, seq(cfg.pods, _ => []), seq(cfg.pods, _ => 0), 0)
  }

  function Lookup(pod: seq<Entry>, trace: nat): Option<Entry> {
    if pod == [] then None else if pod[0].trace == trace then Some(pod[0]) else Lookup(pod[1..], trace)
  }

  function Append(pod: seq<Entry>, span: Span): seq<Entry> {
    if pod == [] then []
    else if pod[0].trace == span.trace then [pod[0].(spans := pod[0].spans + [span])] + pod[1..]
    else [pod[0]] + Append(pod[1..], span)
  }

  predicate Due(cfg: Config, now: int, e: Entry) {
    e.decision.None? && now - e.first >= cfg.wait
  }

  function Decide(cfg: Config, now: int, e: Entry): Entry {
    if Due(cfg, now, e) then e.(decision := Some(Keep(cfg.baseline, e.trace, e.spans))) else e
  }

  /** One decision tick of a pod: the queue afterwards, the spans exported, the traces decided. */
  function SweepQueue(cfg: Config, now: int, pod: seq<Entry>): (seq<Entry>, seq<Span>, set<nat>) {
    if pod == [] then ([], [], {})
    else
      var e, (rest, out, done) := Decide(cfg, now, pod[0]), SweepQueue(cfg, now, pod[1..]);
      if Due(cfg, now, pod[0])
      then ([e] + rest, (if e.decision.value then e.spans else []) + out, {e.trace} + done)
      else ([e] + rest, out, done)
  }

  /** The oldest entry goes once more than `capacity` are held. */
  function Evicted(cfg: Config, pod: seq<Entry>): Option<Entry> {
    if |pod| > cfg.capacity then Some(pod[0]) else None
  }

  function Receive(cfg: Config, s: State, span: Span): State
    requires cfg.Valid() && Shaped(cfg, s)
  {
    var t, p := span.trace, Home(cfg, span.trace);
    var held := Lookup(s.pods[p], t);
    var s := Noted(cfg, s, span);
    if held.Some? && held.value.decision.None? then
      s.(pods := s.pods[p := Append(s.pods[p], span)])
    else if held.Some? then
      s.(exported := s.exported + if held.value.decision.value then [span] else [])
    else
      var queue := s.pods[p] + [Entry(t, s.now, [span], None)];
      var out := Evicted(cfg, queue);
      s.(pods := s.pods[p := if out.Some? then queue[1..] else queue],
         reopened := s.reopened + (if t in s.decided then {t} else {}),
         lost := s.lost + (if out.Some? && out.value.decision.None? then {out.value.trace} else {}),
         news := s.news[p := s.news[p] + [s.now]])
  }

  /** The history of an arrival, whatever the pod then does with it. */
  function Noted(cfg: Config, s: State, span: Span): State
    requires cfg.Valid() && Shaped(cfg, s)
  {
    var t, p := span.trace, Home(cfg, span.trace);
    s.(arrived := s.arrived + [span],
       firsts := if t in s.firsts then s.firsts else s.firsts[t := s.now],
       late := s.late + (if t in s.decided then {t} else {}),
       tardy := s.tardy + (if t in s.firsts && s.now - s.firsts[t] >= cfg.wait then {t} else {}),
       slack := Max(s.slack, s.now - s.swept[p]))
  }

  ghost predicate Shaped(cfg: Config, s: State) {
    |s.pods| == cfg.pods && |s.news| == cfg.pods && |s.swept| == cfg.pods
  }

  function Next(cfg: Config, s: State, a: Action): (s': State)
    requires cfg.Valid() && Shaped(cfg, s)
    ensures Shaped(cfg, s')
  {
    match a
    case Arrive(span) => Receive(cfg, s, span)
    case Pass(time) => s.(now := s.now + time)
    case Sweep(pod) =>
      if pod >= cfg.pods then s
      else
        var (queue, out, done) := SweepQueue(cfg, s.now, s.pods[pod]);
        s.(pods := s.pods[pod := queue], exported := s.exported + out, decided := s.decided + done,
           swept := s.swept[pod := s.now])
  }

  function From(cfg: Config, s: State, actions: seq<Action>): (s': State)
    requires cfg.Valid() && Shaped(cfg, s)
    ensures Shaped(cfg, s')
    decreases actions
  {
    if actions == [] then s else From(cfg, Next(cfg, s, actions[0]), actions[1..])
  }

  /** Where a run of the pipeline ends. */
  function Final(cfg: Config, actions: seq<Action>): State
    requires cfg.Valid()
  {
    From(cfg, Initial(cfg), actions)
  }

  lemma {:induction false} FromAppend(cfg: Config, s: State, a: seq<Action>, b: seq<Action>)
    requires cfg.Valid() && Shaped(cfg, s)
    ensures From(cfg, s, a + b) == From(cfg, From(cfg, s, a), b)
    decreases a
  {
    if a == [] {
      assert a + b == b;
    } else {
      assert (a + b)[1..] == a[1..] + b;
      FromAppend(cfg, Next(cfg, s, a[0]), a[1..], b);
    }
  }

  // ---------- Per-trace views ----------

  function ForTrace(spans: seq<Span>, trace: nat): seq<Span> {
    if spans == [] then []
    else if spans[0].trace == trace then [spans[0]] + ForTrace(spans[1..], trace)
    else ForTrace(spans[1..], trace)
  }

  lemma {:induction false} ForTraceAppend(a: seq<Span>, b: seq<Span>, trace: nat)
    ensures ForTrace(a + b, trace) == ForTrace(a, trace) + ForTrace(b, trace)
  {
    if a == [] {
      assert a + b == b;
    } else {
      assert (a + b)[1..] == a[1..] + b;
      ForTraceAppend(a[1..], b, trace);
      if a[0].trace == trace {
        assert ForTrace(a + b, trace) == [a[0]] + (ForTrace(a[1..], trace) + ForTrace(b, trace));
      }
    }
  }

  lemma {:induction false} ForTraceOne(span: Span, trace: nat)
    ensures ForTrace([span], trace) == if span.trace == trace then [span] else []
  {
    assert [span][1..] == [];
  }

  predicate Pure(spans: seq<Span>, trace: nat) {
    forall i :: 0 <= i < |spans| ==> spans[i].trace == trace
  }

  lemma {:induction false} ForTracePure(spans: seq<Span>, owner: nat, trace: nat)
    requires Pure(spans, owner)
    ensures ForTrace(spans, trace) == if trace == owner then spans else []
  {
    if spans != [] {
      ForTracePure(spans[1..], owner, trace);
    }
  }

  // ---------- Queues ----------

  /** Every entry is in its home pod, once, and holds spans of its own trace only. */
  ghost predicate Tidy(cfg: Config, p: nat, pod: seq<Entry>)
    requires cfg.Valid()
  {
    && (forall i :: 0 <= i < |pod| ==> Home(cfg, pod[i].trace) == p && Pure(pod[i].spans, pod[i].trace))
    && (forall i, j :: 0 <= i < j < |pod| ==> pod[i].trace != pod[j].trace)
  }

  lemma {:induction false} LookupFinds(pod: seq<Entry>, trace: nat)
    ensures Lookup(pod, trace).Some? ==> exists i :: 0 <= i < |pod| && pod[i] == Lookup(pod, trace).value && pod[i].trace == trace
    ensures Lookup(pod, trace).None? ==> forall i :: 0 <= i < |pod| ==> pod[i].trace != trace
  {
    if pod != [] && pod[0].trace != trace {
      LookupFinds(pod[1..], trace);
      if Lookup(pod[1..], trace).Some? {
        var i :| 0 <= i < |pod[1..]| && pod[1..][i] == Lookup(pod[1..], trace).value && pod[1..][i].trace == trace;
        assert pod[i + 1] == pod[1..][i];
      } else {
        assert forall i :: 1 <= i < |pod| ==> pod[i] == pod[1..][i - 1];
      }
    }
  }

  lemma {:induction false} LookupPush(pod: seq<Entry>, e: Entry, trace: nat)
    requires Lookup(pod, e.trace).None?
    ensures Lookup(pod + [e], trace) == if trace == e.trace then Some(e) else Lookup(pod, trace)
  {
    if pod != [] {
      assert (pod + [e])[1..] == pod[1..] + [e];
      LookupPush(pod[1..], e, trace);
    } else {
      assert (pod + [e])[1..] == [];
    }
  }

  lemma {:induction false} LookupDrop(pod: seq<Entry>, trace: nat)
    requires pod != [] && forall i, j :: 0 <= i < j < |pod| ==> pod[i].trace != pod[j].trace
    ensures Lookup(pod[1..], trace) == if trace == pod[0].trace then None else Lookup(pod, trace)
  {
    if trace == pod[0].trace {
      LookupFinds(pod[1..], trace);
    }
  }

  lemma {:induction false} AppendEffect(pod: seq<Entry>, span: Span, trace: nat)
    ensures |Append(pod, span)| == |pod|
    ensures forall i :: 0 <= i < |pod| ==>
              && Append(pod, span)[i].trace == pod[i].trace && Append(pod, span)[i].first == pod[i].first
              && Append(pod, span)[i].decision == pod[i].decision
              && (Append(pod, span)[i].spans == pod[i].spans ||
                  (pod[i].trace == span.trace && Append(pod, span)[i].spans == pod[i].spans + [span]))
    ensures Lookup(Append(pod, span), trace) ==
            var e := Lookup(pod, trace);
            if trace == span.trace && e.Some? then Some(e.value.(spans := e.value.spans + [span])) else e
  {
    if pod != [] && pod[0].trace != span.trace {
      AppendEffect(pod[1..], span, trace);
      assert Append(pod, span)[1..] == Append(pod[1..], span);
      assert forall i :: 1 <= i < |pod| ==> pod[i] == pod[1..][i - 1] && Append(pod, span)[i] == Append(pod[1..], span)[i - 1];
    } else if pod != [] {
      assert Append(pod, span)[1..] == pod[1..];
    }
  }

  lemma {:induction false} SweepEntries(cfg: Config, now: int, pod: seq<Entry>)
    ensures var queue := SweepQueue(cfg, now, pod).0;
            |queue| == |pod| && forall i :: 0 <= i < |pod| ==> queue[i] == Decide(cfg, now, pod[i])
  {
    if pod != [] {
      SweepEntries(cfg, now, pod[1..]);
      var queue := SweepQueue(cfg, now, pod).0;
      assert queue[1..] == SweepQueue(cfg, now, pod[1..]).0;
      assert forall i :: 1 <= i < |pod| ==> pod[i] == pod[1..][i - 1] && queue[i] == queue[1..][i - 1];
    }
  }

  lemma {:induction false} SweepEffect(cfg: Config, now: int, p: nat, pod: seq<Entry>, trace: nat)
    requires cfg.Valid() && Tidy(cfg, p, pod)
    ensures var (queue, out, done) := SweepQueue(cfg, now, pod);
            var e := Lookup(pod, trace);
            && Lookup(queue, trace) == (if e.Some? then Some(Decide(cfg, now, e.value)) else None)
            && (trace in done <==> e.Some? && Due(cfg, now, e.value))
            && ForTrace(out, trace) == (if e.Some? && Due(cfg, now, e.value) && Keep(cfg.baseline, trace, e.value.spans)
                                        then e.value.spans else [])
  {
    if pod != [] {
      var first, rest := pod[0], pod[1..];
      assert Tidy(cfg, p, rest);
      SweepEffect(cfg, now, p, rest, trace);
      LookupFinds(rest, trace);
      var queue, out := SweepQueue(cfg, now, pod).0, SweepQueue(cfg, now, rest).1;
      assert queue[1..] == SweepQueue(cfg, now, rest).0;
      ForTracePure(first.spans, first.trace, trace);
      ForTraceAppend(if Keep(cfg.baseline, first.trace, first.spans) then first.spans else [], out, trace);
      assert [] + out == out;
    }
  }
}
