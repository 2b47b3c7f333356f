/** Sharded tail sampling decides every whole trace as one sampler that sees everything would. */
module Exactness {
  import opened Options
  import opened Tracing
  import opened Sampling
  import opened Pipeline

  /** What one sampler that holds the whole trace exports. */
  function Oracle(baseline: nat -> bool, trace: nat, whole: seq<Span>): seq<Span> {
    if Keep(baseline, trace, whole) then whole else []
  }

  ghost predicate AllTidy(cfg: Config, s: State)
    requires cfg.Valid() && Shaped(cfg, s)
  {
    forall p :: 0 <= p < cfg.pods ==> Tidy(cfg, p, s.pods[p])
  }

  /** How far the pipeline has got with a trace, told from its entry, its spans and its exports. */
  predicate Tale(baseline: nat -> bool, t: nat, held: Option<Entry>, decided: bool, late: bool,
                 whole: seq<Span>, out: seq<Span>)
  {
    if held.Some? && held.value.decision.None? then
      !decided && held.value.spans == whole && out == []
    else if decided then
      && (out == whole || out == [])
      && (held.Some? ==> out == if held.value.decision.value then whole else [])
      && (!late ==> out == Oracle(baseline, t, whole))
    else
      held.None? && whole == [] && out == []
  }

  /** Every trace that was neither lost nor queued anew after its decision has its tale. */
  ghost predicate Story(cfg: Config, s: State, t: nat)
    requires cfg.Valid() && Shaped(cfg, s)
  {
    t !in s.lost && t !in s.reopened ==>
      Tale(cfg.baseline, t, Lookup(s.pods[Home(cfg, t)], t), t in s.decided, t in s.late,
           ForTrace(s.arrived, t), ForTrace(s.exported, t))
  }

  lemma {:induction false} ForTraceSnoc(spans: seq<Span>, span: Span, t: nat)
    ensures ForTrace(spans + [span], t) == if span.trace == t then ForTrace(spans, t) + [span] else ForTrace(spans, t)
  {
    ForTraceAppend(spans, [span], t);
    ForTraceOne(span, t);
    assert ForTrace(spans, t) + [] == ForTrace(spans, t);
  }

  lemma {:induction false} TidySwept(cfg: Config, now: int, p: nat, pod: seq<Entry>)
    requires cfg.Valid() && Tidy(cfg, p, pod)
    ensures Tidy(cfg, p, SweepQueue(cfg, now, pod).0)
  {
    SweepEntries(cfg, now, pod);
  }

  lemma {:induction false} TidyJoined(cfg: Config, p: nat, pod: seq<Entry>, span: Span)
    requires cfg.Valid() && Tidy(cfg, p, pod)
    ensures Tidy(cfg, p, Append(pod, span))
  {
    AppendEffect(pod, span, span.trace);
  }

  lemma {:induction false} TidyOpened(cfg: Config, p: nat, pod: seq<Entry>, e: Entry)
    requires cfg.Valid() && Tidy(cfg, p, pod) && Home(cfg, e.trace) == p && Pure(e.spans, e.trace)
    requires Lookup(pod, e.trace).None?
    ensures Tidy(cfg, p, pod + [e]) && Tidy(cfg, p, (pod + [e])[1..])
  {
    LookupFinds(pod, e.trace);
  }

  /** A decision tick, told from one trace's entry. */
  lemma {:induction false} SweptTale(cfg: Config, now: int, t: nat, held: Option<Entry>, decided: bool, late: bool,
                                     whole: seq<Span>, out: seq<Span>)
    requires Tale(cfg.baseline, t, held, decided, late, whole, out) && (held.Some? ==> held.value.trace == t)
    ensures var due := held.Some? && Due(cfg, now, held.value);
            Tale(cfg.baseline, t, if held.Some? then Some(Decide(cfg, now, held.value)) else None, decided || due, late, whole,
                 out + if due && Keep(cfg.baseline, t, held.value.spans) then held.value.spans else [])
  {
    assert [] + whole == whole && out + [] == out;
  }

  lemma {:induction false} SweepKeepsStory(cfg: Config, s: State, pod: nat, t: nat)
    requires cfg.Valid() && Shaped(cfg, s) && AllTidy(cfg, s) && Story(cfg, s, t) && pod < cfg.pods
    ensures Story(cfg, Next(cfg, s, Sweep(pod)), t)
  {
    var out := SweepQueue(cfg, s.now, s.pods[pod]).1;
    var held := Lookup(s.pods[pod], t);
    assert Tidy(cfg, pod, s.pods[pod]);
    SweepEffect(cfg, s.now, pod, s.pods[pod], t);
    ForTraceAppend(s.exported, out, t);
    LookupFinds(s.pods[pod], t);
    if t !in s.lost && t !in s.reopened {
      if pod == Home(cfg, t) {
        SweptTale(cfg, s.now, t, held, t in s.decided, t in s.late, ForTrace(s.arrived, t), ForTrace(s.exported, t));
      } else {
        assert held.None?;
        assert ForTrace(s.exported, t) + [] == ForTrace(s.exported, t);
      }
    }
  }

  lemma {:induction false} JoinKeepsStory(cfg: Config, s: State, span: Span, t: nat)
    requires cfg.Valid() && Shaped(cfg, s) && Story(cfg, s, t)
    requires var held := Lookup(s.pods[Home(cfg, span.trace)], span.trace); held.Some? && held.value.decision.None?
    ensures Story(cfg, Receive(cfg, s, span), t)
  {
    AppendEffect(s.pods[Home(cfg, span.trace)], span, t);
    ForTraceSnoc(s.arrived, span, t);
  }

  lemma {:induction false} LateKeepsStory(cfg: Config, s: State, span: Span, t: nat)
    requires cfg.Valid() && Shaped(cfg, s) && Story(cfg, s, t)
    requires var held := Lookup(s.pods[Home(cfg, span.trace)], span.trace); held.Some? && held.value.decision.Some?
    ensures Story(cfg, Receive(cfg, s, span), t)
  {
    ForTraceSnoc(s.arrived, span, t);
    ForTraceSnoc(s.exported, span, t);
    assert s.exported + [] == s.exported;
  }

  /** What a lookup sees after an entry was opened and the oldest one perhaps evicted. */
  lemma {:induction false} OpenedLookup(cfg: Config, p: nat, pod: seq<Entry>, e: Entry, t: nat)
    requires cfg.Valid() && Tidy(cfg, p, pod) && Lookup(pod, e.trace).None?
    requires Home(cfg, e.trace) == p && Pure(e.spans, e.trace)
    ensures var queue, before := pod + [e], if t == e.trace then Some(e) else Lookup(pod, t);
            var out := Evicted(cfg, queue);
            if out.Some? && out.value.trace == t then Lookup(queue[1..], t) == None && before == Some(out.value)
            else Lookup(if out.Some? then queue[1..] else queue, t) == before
  {
    TidyOpened(cfg, p, pod, e);
    LookupPush(pod, e, t);
    LookupDrop(pod + [e], t);
  }

  lemma {:induction false} OpenKeepsStory(cfg: Config, s: State, span: Span, t: nat)
    requires cfg.Valid() && Shaped(cfg, s) && AllTidy(cfg, s) && Story(cfg, s, t)
    requires Lookup(s.pods[Home(cfg, span.trace)], span.trace).None?
    ensures Story(cfg, Receive(cfg, s, span), t)
  {
    var p := Home(cfg, span.trace);
    assert Tidy(cfg, p, s.pods[p]);
    OpenedLookup(cfg, p, s.pods[p], Entry(span.trace, s.now, [span], None), t);
    ForTraceSnoc(s.arrived, span, t);
  }

  lemma {:induction false} NextIsTidy(cfg: Config, s: State, a: Action)
    requires cfg.Valid() && Shaped(cfg, s) && AllTidy(cfg, s)
    ensures AllTidy(cfg, Next(cfg, s, a))
  {
    match a
    case Arrive(span) =>
      var p := Home(cfg, span.trace);
      assert Tidy(cfg, p, s.pods[p]);
      TidyJoined(cfg, p, s.pods[p], span);
      if Lookup(s.pods[p], span.trace).None? {
        TidyOpened(cfg, p, s.pods[p], Entry(span.trace, s.now, [span], None));
      }
    case Pass(_) =>
    case Sweep(pod) =>
      if pod < cfg.pods {
        assert Tidy(cfg, pod, s.pods[pod]);
        TidySwept(cfg, s.now, pod, s.pods[pod]);
      }
  }

  lemma {:induction false} NextKeepsStory(cfg: Config, s: State, a: Action, t: nat)
    requires cfg.Valid() && Shaped(cfg, s) && AllTidy(cfg, s) && Story(cfg, s, t)
    ensures AllTidy(cfg, Next(cfg, s, a)) && Story(cfg, Next(cfg, s, a), t)
  {
    NextIsTidy(cfg, s, a);
    match a
    case Arrive(span) =>
      var held := Lookup(s.pods[Home(cfg, span.trace)], span.trace);
      if held.None? {
        OpenKeepsStory(cfg, s, span, t);
      } else if held.value.decision.None? {
        JoinKeepsStory(cfg, s, span, t);
      } else {
        LateKeepsStory(cfg, s, span, t);
      }
    case Pass(_) =>
    case Sweep(pod) =>
      if pod < cfg.pods {
        SweepKeepsStory(cfg, s, pod, t);
      }
  }

  lemma {:induction false} RunKeepsStory(cfg: Config, s: State, actions: seq<Action>, t: nat)
    requires cfg.Valid() && Shaped(cfg, s) && AllTidy(cfg, s) && Story(cfg, s, t)
    ensures AllTidy(cfg, From(cfg, s, actions)) && Story(cfg, From(cfg, s, actions), t)
    decreases actions
  {
    if actions != [] {
      NextKeepsStory(cfg, s, actions[0], t);
      RunKeepsStory(cfg, Next(cfg, s, actions[0]), actions[1..], t);
    }
  }

  // ---------- History ----------

  function Arrived(a: Action): seq<Span> {
    if a.Arrive? then [a.span] else []
  }

  function Arrivals(actions: seq<Action>): seq<Span> {
    if actions == [] then [] else Arrived(actions[0]) + Arrivals(actions[1..])
  }

  lemma {:induction false} NextArrived(cfg: Config, s: State, a: Action)
    requires cfg.Valid() && Shaped(cfg, s)
    ensures Next(cfg, s, a).arrived == s.arrived + Arrived(a)
  {
    if !a.Arrive? {
      assert s.arrived + [] == s.arrived;
    }
  }

  lemma {:induction false} Regroup<T>(a: seq<T>, b: seq<T>, c: seq<T>)
    ensures (a + b) + c == a + (b + c)
  {
  }

  lemma {:induction false} ArrivalsAppend(a: seq<Action>, b: seq<Action>)
    ensures Arrivals(a + b) == Arrivals(a) + Arrivals(b)
  {
    if a == [] {
      assert a + b == b;
    } else {
      assert (a + b)[1..] == a[1..] + b;
      ArrivalsAppend(a[1..], b);
      Regroup(Arrived(a[0]), Arrivals(a[1..]), Arrivals(b));
    }
  }

  lemma {:induction false} OneArrival(a: Action)
    ensures Arrivals([a]) == Arrived(a)
  {
    assert [a][1..] == [];
  }

  lemma {:induction false} ArrivedAreArrivals(cfg: Config, s: State, actions: seq<Action>)
    requires cfg.Valid() && Shaped(cfg, s)
    ensures From(cfg, s, actions).arrived == s.arrived + Arrivals(actions)
    decreases actions
  {
    if actions == [] {
      assert s.arrived + [] == s.arrived;
    } else {
      NextArrived(cfg, s, actions[0]);
      ArrivedAreArrivals(cfg, Next(cfg, s, actions[0]), actions[1..]);
      Regroup(s.arrived, Arrived(actions[0]), Arrivals(actions[1..]));
    }
  }

  predicate Dated(s: State, e: Entry) {
    e.trace in s.firsts && s.firsts[e.trace] <= e.first <= s.now
  }

  ghost predicate AllDated(s: State, pod: seq<Entry>) {
    forall i :: 0 <= i < |pod| ==> Dated(s, pod[i])
  }

  /** Decisions wait: a decided trace was first seen at least `wait` ago, so only tardy spans can be late. */
  ghost predicate Patient(cfg: Config, s: State)
    requires cfg.Valid() && Shaped(cfg, s)
  {
    && (forall p :: 0 <= p < cfg.pods ==> AllDated(s, s.pods[p]))
    && (forall t :: t in s.firsts ==> s.firsts[t] <= s.now)
    && (forall t :: t in s.decided ==> t in s.firsts && s.now - s.firsts[t] >= cfg.wait)
    && s.reopened <= s.late <= s.tardy
  }

  lemma {:induction false} NextIsPatient(cfg: Config, s: State, a: Action)
    requires cfg.Valid() && Shaped(cfg, s) && Patient(cfg, s)
    ensures Patient(cfg, Next(cfg, s, a))
  {
    var s' := Next(cfg, s, a);
    match a
    case Arrive(span) => ReceiveIsPatient(cfg, s, span);
    case Pass(_) =>
      forall p | 0 <= p < cfg.pods ensures AllDated(s', s'.pods[p]) {
        StaysDated(s, s', s.pods[p]);
      }
    case Sweep(pod) =>
      if pod < cfg.pods {
        SweepEntries(cfg, s.now, s.pods[pod]);
        SweptWereDue(cfg, s.now, s.pods[pod]);
        forall p | 0 <= p < cfg.pods ensures AllDated(s', s'.pods[p]) {
          assert forall i :: 0 <= i < |s.pods[p]| ==> Dated(s, s.pods[p][i]);
        }
        forall t | t in s'.decided ensures t in s'.firsts && s'.now - s'.firsts[t] >= cfg.wait {
          if t !in s.decided {
            var i :| 0 <= i < |s.pods[pod]| && s.pods[pod][i].trace == t && Due(cfg, s.now, s.pods[pod][i]);
            assert Dated(s, s.pods[pod][i]);
          }
        }
      }
  }

  lemma {:induction false} SweptWereDue(cfg: Config, now: int, pod: seq<Entry>)
    ensures forall t :: t in SweepQueue(cfg, now, pod).2 ==>
              exists i :: 0 <= i < |pod| && pod[i].trace == t && Due(cfg, now, pod[i])
  {
    if pod != [] {
      SweptWereDue(cfg, now, pod[1..]);
      forall t | t in SweepQueue(cfg, now, pod).2
        ensures exists i :: 0 <= i < |pod| && pod[i].trace == t && Due(cfg, now, pod[i])
      {
        if t in SweepQueue(cfg, now, pod[1..]).2 {
          var i :| 0 <= i < |pod[1..]| && pod[1..][i].trace == t && Due(cfg, now, pod[1..][i]);
          assert pod[i + 1] == pod[1..][i];
        } else {
          assert pod[0].trace == t && Due(cfg, now, pod[0]);
        }
      }
    }
  }

  /** An entry stays dated when its trace keeps its first sight. */
  lemma {:induction false} StaysDated(s: State, s': State, pod: seq<Entry>)
    requires AllDated(s, pod) && s.now <= s'.now
    requires forall t :: t in s.firsts ==> t in s'.firsts && s'.firsts[t] == s.firsts[t]
    ensures AllDated(s', pod)
  {
    forall i | 0 <= i < |pod| ensures Dated(s', pod[i]) {
      assert Dated(s, pod[i]);
    }
  }

  lemma {:induction false} JoinedIsDated(s: State, pod: seq<Entry>, span: Span)
    requires AllDated(s, pod)
    ensures AllDated(s, Append(pod, span))
  {
    AppendEffect(pod, span, span.trace);
    forall i | 0 <= i < |pod| ensures Dated(s, Append(pod, span)[i]) {
      assert Dated(s, pod[i]);
    }
  }

  lemma {:induction false} OpenedIsDated(s: State, pod: seq<Entry>, e: Entry)
    requires AllDated(s, pod) && Dated(s, e)
    ensures AllDated(s, pod + [e]) && AllDated(s, (pod + [e])[1..])
  {
    var queue := pod + [e];
    forall i | 0 <= i < |queue| ensures Dated(s, queue[i]) {
      assert i < |pod| ==> Dated(s, pod[i]);
    }
  }

  lemma {:induction false} ReceiveIsPatient(cfg: Config, s: State, span: Span)
    requires cfg.Valid() && Shaped(cfg, s) && Patient(cfg, s)
    ensures Patient(cfg, Receive(cfg, s, span))
  {
    var p, s' := Home(cfg, span.trace), Receive(cfg, s, span);
    forall q | 0 <= q < cfg.pods ensures AllDated(s', s'.pods[q]) {
      StaysDated(s, s', s.pods[q]);
      if q == p && Lookup(s.pods[p], span.trace).Some? {
        JoinedIsDated(s', s.pods[p], span);
      } else if q == p {
        OpenedIsDated(s', s.pods[p], Entry(span.trace, s.now, [span], None));
      }
    }
  }

  lemma {:induction false} RunIsPatient(cfg: Config, s: State, actions: seq<Action>)
    requires cfg.Valid() && Shaped(cfg, s) && Patient(cfg, s)
    ensures Patient(cfg, From(cfg, s, actions))
    decreases actions
  {
    if actions != [] {
      NextIsPatient(cfg, s, actions[0]);
      RunIsPatient(cfg, Next(cfg, s, actions[0]), actions[1..]);
    }
  }

  // ---------- Draining ----------

  function Sweeps(n: nat): seq<Action> {
    if n == 0 then [] else Sweeps(n - 1) + [Sweep(n - 1)]
  }

  /** The run, then time enough for every decision and a decision tick on every pod. */
  function Drained(cfg: Config, actions: seq<Action>): seq<Action> {
    actions + [Pass(cfg.wait)] + Sweeps(cfg.pods)
  }

  ghost predicate Undecided(pod: seq<Entry>) {
    exists i :: 0 <= i < |pod| && pod[i].decision.None?
  }

  predicate Ripe(cfg: Config, now: int, pod: seq<Entry>) {
    forall i :: 0 <= i < |pod| ==> now - pod[i].first >= cfg.wait
  }

  ghost predicate SameHistory(s: State, s': State) {
    && s'.arrived == s.arrived && s'.lost == s.lost && s'.tardy == s.tardy
    && s'.late == s.late && s'.reopened == s.reopened
  }

  /** The first `n` pods have decided all they hold, the others are as before. */
  ghost predicate SweptUpTo(cfg: Config, s: State, s': State, n: nat)
    requires cfg.Valid() && Shaped(cfg, s) && Shaped(cfg, s')
  {
    && SameHistory(s, s') && s'.now == s.now
    && (forall p :: 0 <= p < n && p < cfg.pods ==> !Undecided(s'.pods[p]))
    && (forall p :: n <= p < cfg.pods ==> s'.pods[p] == s.pods[p])
  }

  lemma {:induction false} SweepsDecide(cfg: Config, s: State, n: nat)
    requires cfg.Valid() && Shaped(cfg, s) && n <= cfg.pods
    requires forall p :: 0 <= p < cfg.pods ==> Ripe(cfg, s.now, s.pods[p])
    ensures SweptUpTo(cfg, s, From(cfg, s, Sweeps(n)), n)
  {
    if n > 0 {
      SweepsDecide(cfg, s, n - 1);
      var mid := From(cfg, s, Sweeps(n - 1));
      FromAppend(cfg, s, Sweeps(n - 1), [Sweep(n - 1)]);
      assert mid.pods[n - 1] == s.pods[n - 1];
      OneSweepDecides(cfg, mid, n - 1);
      SweptOneMore(cfg, s, mid, From(cfg, mid, [Sweep(n - 1)]), n - 1);
    }
  }

  lemma {:induction false} SweptOneMore(cfg: Config, s: State, mid: State, s': State, n: nat)
    requires cfg.Valid() && Shaped(cfg, s) && Shaped(cfg, mid) && Shaped(cfg, s') && n < cfg.pods
    requires SweptUpTo(cfg, s, mid, n) && SameHistory(mid, s') && s'.now == mid.now
    requires !Undecided(s'.pods[n]) && s'.pods == mid.pods[n := s'.pods[n]]
    ensures SweptUpTo(cfg, s, s', n + 1)
  {
  }

  lemma {:induction false} OneSweepDecides(cfg: Config, s: State, p: nat)
    requires cfg.Valid() && Shaped(cfg, s) && p < cfg.pods
    requires Ripe(cfg, s.now, s.pods[p])
    ensures var s' := From(cfg, s, [Sweep(p)]);
            && SameHistory(s, s') && s'.now == s.now && !Undecided(s'.pods[p])
            && s'.pods == s.pods[p := s'.pods[p]]
  {
    assert [Sweep(p)][1..] == [];
    assert From(cfg, s, [Sweep(p)]) == Next(cfg, s, Sweep(p));
    SweepEntries(cfg, s.now, s.pods[p]);
  }

  lemma {:induction false} DrainDecides(cfg: Config, actions: seq<Action>)
    requires cfg.Valid()
    ensures var s, s' := Final(cfg, actions), Final(cfg, Drained(cfg, actions));
            SameHistory(s, s') && forall p :: 0 <= p < cfg.pods ==> !Undecided(s'.pods[p])
  {
    var s := Final(cfg, actions);
    RunIsPatient(cfg, Initial(cfg), actions);
    var passed := Next(cfg, s, Pass(cfg.wait));
    forall p | 0 <= p < cfg.pods ensures Ripe(cfg, passed.now, passed.pods[p]) {
      assert AllDated(s, s.pods[p]);
    }
    assert From(cfg, s, [Pass(cfg.wait)]) == passed by {
      assert [Pass(cfg.wait)][1..] == [];
    }
    FromAppend(cfg, Initial(cfg), actions, [Pass(cfg.wait)]);
    FromAppend(cfg, Initial(cfg), actions + [Pass(cfg.wait)], Sweeps(cfg.pods));
    SweepsDecide(cfg, passed, cfg.pods);
  }

  // ---------- Theorems ----------

  /**
   * For any number of pods and any interleaving: once the run has drained, a trace that was never
   * evicted undecided and whose spans all came before its decision is exported whole or not at all,
   * exactly as a sampler holding the whole trace decides.
   */
  lemma {:induction false} WholeTracesAreExact(cfg: Config, actions: seq<Action>, t: nat)
    requires cfg.Valid()
    requires t !in Final(cfg, actions).lost && t !in Final(cfg, actions).late
    ensures ForTrace(Final(cfg, Drained(cfg, actions)).exported, t) ==
            Oracle(cfg.baseline, t, ForTrace(Arrivals(actions), t))
  {
    var s' := Final(cfg, Drained(cfg, actions));
    DrainDecides(cfg, actions);
    RunIsPatient(cfg, Initial(cfg), actions);
    RunKeepsStory(cfg, Initial(cfg), Drained(cfg, actions), t);
    ArrivedAreArrivals(cfg, Initial(cfg), actions);
    assert [] + Arrivals(actions) == Arrivals(actions);
    LookupFinds(s'.pods[Home(cfg, t)], t);
  }

  /** Spans within the nominal wait are never late, however the decision ticks fall. */
  lemma {:induction false} TimelyTracesAreExact(cfg: Config, actions: seq<Action>, t: nat)
    requires cfg.Valid()
    requires t !in Final(cfg, actions).lost && t !in Final(cfg, actions).tardy
    ensures t !in Final(cfg, actions).late
    ensures ForTrace(Final(cfg, Drained(cfg, actions)).exported, t) ==
            Oracle(cfg.baseline, t, ForTrace(Arrivals(actions), t))
  {
    RunIsPatient(cfg, Initial(cfg), actions);
    WholeTracesAreExact(cfg, actions, t);
  }

  /**
   * Even a trace with late spans is exported whole or not at all, as long as it was never evicted
   * undecided and never queued a second time: its late spans follow the decision on the first ones.
   */
  lemma {:induction false} AllOrNothing(cfg: Config, actions: seq<Action>, t: nat)
    requires cfg.Valid()
    requires t !in Final(cfg, actions).lost && t !in Final(cfg, actions).reopened
    ensures var out, whole := ForTrace(Final(cfg, Drained(cfg, actions)).exported, t), ForTrace(Arrivals(actions), t);
            out == whole || out == []
  {
    DrainDecides(cfg, actions);
    RunKeepsStory(cfg, Initial(cfg), Drained(cfg, actions), t);
    ArrivedAreArrivals(cfg, Initial(cfg), actions);
    assert [] + Arrivals(actions) == Arrivals(actions);
    LookupFinds(Final(cfg, Drained(cfg, actions)).pods[Home(cfg, t)], t);
  }

  /** One pod, no bound that matters: a sampler that sees everything. */
  function Central(cfg: Config, actions: seq<Action>): Config {
    cfg.(pods := 1, capacity := |actions|)
  }

  /** Pods, hash and capacity have no say in which spans come too late. */
  ghost predicate SameSchedule(s: State, c: State) {
    s.now == c.now && s.firsts == c.firsts && s.tardy == c.tardy
  }

  lemma {:induction false} SchedulesAgree(cfg: Config, central: Config, s: State, c: State, actions: seq<Action>)
    requires cfg.Valid() && Shaped(cfg, s) && central.Valid() && Shaped(central, c)
    requires cfg.wait == central.wait && SameSchedule(s, c)
    ensures SameSchedule(From(cfg, s, actions), From(central, c, actions))
    decreases actions
  {
    if actions != [] {
      SchedulesAgree(cfg, central, Next(cfg, s, actions[0]), Next(central, c, actions[0]), actions[1..]);
    }
  }

  lemma {:induction false} RoomForAll(cfg: Config, s: State, actions: seq<Action>)
    requires cfg.Valid() && Shaped(cfg, s) && s.lost == {}
    requires forall p :: 0 <= p < cfg.pods ==> |s.pods[p]| + |actions| <= cfg.capacity
    ensures From(cfg, s, actions).lost == {}
    decreases actions
  {
    if actions != [] {
      var a, s' := actions[0], Next(cfg, s, actions[0]);
      if a.Arrive? {
        AppendEffect(s.pods[Home(cfg, a.span.trace)], a.span, a.span.trace);
      } else if a.Sweep? && a.pod < cfg.pods {
        SweepEntries(cfg, s.now, s.pods[a.pod]);
      }
      RoomForAll(cfg, s', actions[1..]);
    }
  }

  /**
   * The sharded pipeline refines one central sampler: on the same run, each trace that is not lost
   * and whose spans precede its decision in both leaves both with the same spans in the same order.
   */
  lemma {:induction false} ShardedRefinesCentral(cfg: Config, actions: seq<Action>, t: nat)
    requires cfg.Valid()
    requires t !in Final(cfg, actions).lost && t !in Final(cfg, actions).late
    requires t !in Final(Central(cfg, actions), actions).late
    ensures var central := Central(cfg, actions);
            ForTrace(Final(cfg, Drained(cfg, actions)).exported, t) ==
            ForTrace(Final(central, Drained(central, actions)).exported, t)
  {
    var central := Central(cfg, actions);
    RoomForAll(central, Initial(central), actions);
    WholeTracesAreExact(cfg, actions, t);
    WholeTracesAreExact(central, actions, t);
  }

  /** Within the nominal wait, one look at the sharded run is enough. */
  lemma {:induction false} TimelyShardedRefinesCentral(cfg: Config, actions: seq<Action>, t: nat)
    requires cfg.Valid()
    requires t !in Final(cfg, actions).lost && t !in Final(cfg, actions).tardy
    ensures var central := Central(cfg, actions);
            ForTrace(Final(cfg, Drained(cfg, actions)).exported, t) ==
            ForTrace(Final(central, Drained(central, actions)).exported, t)
  {
    var central := Central(cfg, actions);
    SchedulesAgree(cfg, central, Initial(cfg), Initial(central), actions);
    RunIsPatient(cfg, Initial(cfg), actions);
    RunIsPatient(central, Initial(central), actions);
    ShardedRefinesCentral(cfg, actions, t);
  }
}
