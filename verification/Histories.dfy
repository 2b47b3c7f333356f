/** What the pipeline's histories mean, told from the actions of a run alone, and what they say of its exports. */
module Histories {
  import opened Options
  import opened Tracing
  import opened Sampling
  import opened Pipeline
  import opened Exactness

  // ---------- Time ----------

  function Front(actions: seq<Action>): seq<Action>
    requires actions != []
  {
    actions[..|actions| - 1]
  }

  function Last(actions: seq<Action>): Action
    requires actions != []
  {
    actions[|actions| - 1]
  }

  /** The time that passes in a run. */
  function Elapsed(actions: seq<Action>): nat {
    if actions == [] then 0
    else Elapsed(Front(actions)) + if Last(actions).Pass? then Last(actions).time else 0
  }

  /** When a pod was last swept, the start if it never was. */
  function LastSweep(actions: seq<Action>, p: nat): nat {
    if actions == [] then 0
    else if Last(actions) == Sweep(p) then Elapsed(actions)
    else LastSweep(Front(actions), p)
  }

  lemma {:induction false} FinalSnoc(cfg: Config, front: seq<Action>, last: Action)
    requires cfg.Valid()
    ensures Final(cfg, front + [last]) == Next(cfg, Final(cfg, front), last)
  {
    FromAppend(cfg, Initial(cfg), front, [last]);
    assert [last][1..] == [];
    assert From(cfg, Final(cfg, front), [last]) == Next(cfg, Final(cfg, front), last);
  }

  lemma {:induction false} FinalLast(cfg: Config, actions: seq<Action>)
    requires cfg.Valid() && actions != []
    ensures Final(cfg, actions) == Next(cfg, Final(cfg, Front(actions)), Last(actions))
  {
    FinalSnoc(cfg, Front(actions), Last(actions));
    assert Front(actions) + [Last(actions)] == actions;
  }

  /** The clock is the time that passed, and a pod's sweep mark the time of its last tick. */
  lemma {:induction false} RunClock(cfg: Config, actions: seq<Action>)
    requires cfg.Valid()
    ensures var s := Final(cfg, actions);
            s.now == Elapsed(actions) && forall p :: 0 <= p < cfg.pods ==> s.swept[p] == LastSweep(actions, p)
  {
    if actions != [] {
      FinalLast(cfg, actions);
      RunClock(cfg, Front(actions));
    }
  }

  /** A decision tick leaves no trace of its pod undecided that has waited long enough. */
  lemma {:induction false} TickDecides(cfg: Config, actions: seq<Action>, p: nat)
    requires cfg.Valid() && p < cfg.pods
    ensures var s := Final(cfg, actions + [Sweep(p)]);
            && s.swept[p] == s.now == Elapsed(actions)
            && forall i :: 0 <= i < |s.pods[p]| && s.pods[p][i].decision.None? ==> s.now - s.pods[p][i].first < cfg.wait
  {
    var s := Final(cfg, actions);
    FinalSnoc(cfg, actions, Sweep(p));
    RunClock(cfg, actions);
    SweepEntries(cfg, s.now, s.pods[p]);
  }

  // ---------- What is held, and what was ever decided ----------

  predicate Arriving(a: Action, t: nat) {
    a.Arrive? && a.span.trace == t
  }

  /** The entry that the trace's pod holds for it. */
  function HeldOf(cfg: Config, s: State, t: nat): Option<Entry>
    requires cfg.Valid() && Shaped(cfg, s)
  {
    Lookup(s.pods[Home(cfg, t)], t)
  }

  predicate Waiting(held: Option<Entry>) {
    held.Some? && held.value.decision.None?
  }

  predicate Settled(held: Option<Entry>) {
    held.Some? && held.value.decision.Some?
  }

  /** How one action changes what is held of a trace. */
  lemma {:induction false} NextHeld(cfg: Config, s: State, a: Action, t: nat)
    requires cfg.Valid() && Shaped(cfg, s) && AllTidy(cfg, s)
    ensures var s' := Next(cfg, s, a);
            var held, held' := HeldOf(cfg, s, t), HeldOf(cfg, s', t);
            && (t in s'.decided <==> t in s.decided || (Waiting(held) && Settled(held')))
            && (t in s'.lost <==> t in s.lost || ((Waiting(held) || (held.None? && Arriving(a, t))) && held'.None?))
            && (Settled(held') ==> Settled(held) || t in s'.decided)
            && (held.None? && !Arriving(a, t) ==> held'.None?)
  {
    match a
    case Arrive(span) => ReceiveHeld(cfg, s, span, t);
    case Pass(_) =>
    case Sweep(pod) =>
      if pod < cfg.pods {
        assert Tidy(cfg, pod, s.pods[pod]);
        SweepEffect(cfg, s.now, pod, s.pods[pod], t);
        LookupFinds(s.pods[pod], t);
      }
  }

  lemma {:induction false} ReceiveHeld(cfg: Config, s: State, span: Span, t: nat)
    requires cfg.Valid() && Shaped(cfg, s) && AllTidy(cfg, s)
    ensures var s' := Receive(cfg, s, span);
            var held, held' := HeldOf(cfg, s, t), HeldOf(cfg, s', t);
            && s'.decided == s.decided && (Settled(held') ==> Settled(held)) && !(Waiting(held) && Settled(held'))
            && (t in s'.lost <==> t in s.lost || ((Waiting(held) || (held.None? && span.trace == t)) && held'.None?))
            && (held.None? && span.trace != t ==> held'.None?)
  {
    var p := Home(cfg, span.trace);
    assert Tidy(cfg, p, s.pods[p]);
    if Lookup(s.pods[p], span.trace).Some? {
      AppendEffect(s.pods[p], span, t);
    } else {
      var e := Entry(span.trace, s.now, [span], None);
      var queue := s.pods[p] + [e];
      OpenedLookup(cfg, p, s.pods[p], e, t);
      if Evicted(cfg, queue).Some? && queue[0].trace == t {
        assert Home(cfg, t) == p;
      }
    }
  }

  /** Wherever a trace is held, it is in the pod that its hash picks, and there once. */
  lemma {:induction false} HeldAtHome(cfg: Config, actions: seq<Action>, p: nat, i: nat)
    requires cfg.Valid() && p < cfg.pods && i < |Final(cfg, actions).pods[p]|
    ensures var pod := Final(cfg, actions).pods[p];
            && cfg.hash(pod[i].trace) % cfg.pods == p
            && forall j :: 0 <= j < |pod| && pod[j].trace == pod[i].trace ==> j == i
  {
    RunExports(cfg, actions, 0);
    assert Tidy(cfg, p, Final(cfg, actions).pods[p]);
  }

  /** What a trace's pod holds of it after an action, if it still holds anything. */
  ghost predicate Follows(cfg: Config, held: Option<Entry>, held': Option<Entry>, a: Action, now: int, t: nat) {
    held'.Some? ==>
      var e := held'.value;
      if held.None? then
        Arriving(a, t) && e == Entry(t, now, [a.span], None)
      else if Settled(held) then
        e == held.value
      else if Settled(held') then
        e == held.value.(decision := Some(Keep(cfg.baseline, t, held.value.spans))) && now - held.value.first >= cfg.wait
      else
        e == if Arriving(a, t) then held.value.(spans := held.value.spans + [a.span]) else held.value
  }

  /** What an action exports of a trace: all that was held when it is decided to keep it, a late span when it was. */
  function Released(held: Option<Entry>, held': Option<Entry>, a: Action, t: nat): seq<Span> {
    if Waiting(held) && Settled(held') then if held'.value.decision.value then held.value.spans else []
    else if Settled(held) && Arriving(a, t) && held.value.decision.value then [a.span]
    else []
  }

  /**
   * One action and any one trace, lost and queued again or not: what its pod then holds of it, and
   * what leaves for storage.
   */
  lemma {:induction false} NextOfTrace(cfg: Config, s: State, a: Action, t: nat)
    requires cfg.Valid() && Shaped(cfg, s) && AllTidy(cfg, s)
    ensures var s' := Next(cfg, s, a);
            var held, held' := HeldOf(cfg, s, t), HeldOf(cfg, s', t);
            && Follows(cfg, held, held', a, s.now, t)
            && ForTrace(s'.exported, t) == ForTrace(s.exported, t) + Released(held, held', a, t)
  {
    assert ForTrace(s.exported, t) + [] == ForTrace(s.exported, t);
    match a
    case Arrive(span) => ReceiveOfTrace(cfg, s, span, t);
    case Pass(_) =>
    case Sweep(pod) =>
      if pod < cfg.pods {
        assert Tidy(cfg, pod, s.pods[pod]);
        SweepEffect(cfg, s.now, pod, s.pods[pod], t);
        ForTraceAppend(s.exported, SweepQueue(cfg, s.now, s.pods[pod]).1, t);
        LookupFinds(s.pods[pod], t);
      }
  }

  ghost predicate ReceivesOfTrace(cfg: Config, s: State, span: Span, t: nat)
    requires cfg.Valid() && Shaped(cfg, s)
  {
    var s' := Receive(cfg, s, span);
    var held, held' := HeldOf(cfg, s, t), HeldOf(cfg, s', t);
    && Follows(cfg, held, held', Arrive(span), s.now, t)
    && ForTrace(s'.exported, t) == ForTrace(s.exported, t) + Released(held, held', Arrive(span), t)
  }

  lemma {:induction false} ReceiveOfTrace(cfg: Config, s: State, span: Span, t: nat)
    requires cfg.Valid() && Shaped(cfg, s) && AllTidy(cfg, s)
    ensures ReceivesOfTrace(cfg, s, span, t)
  {
    if Lookup(s.pods[Home(cfg, span.trace)], span.trace).Some? {
      JoinOfTrace(cfg, s, span, t);
    } else {
      OpenOfTrace(cfg, s, span, t);
    }
  }

  lemma {:induction false} JoinOfTrace(cfg: Config, s: State, span: Span, t: nat)
    requires cfg.Valid() && Shaped(cfg, s) && Lookup(s.pods[Home(cfg, span.trace)], span.trace).Some?
    ensures ReceivesOfTrace(cfg, s, span, t)
  {
    AppendEffect(s.pods[Home(cfg, span.trace)], span, t);
    ForTraceSnoc(s.exported, span, t);
    assert s.exported + [] == s.exported && ForTrace(s.exported, t) + [] == ForTrace(s.exported, t);
  }

  lemma {:induction false} OpenOfTrace(cfg: Config, s: State, span: Span, t: nat)
    requires cfg.Valid() && Shaped(cfg, s) && AllTidy(cfg, s) && Lookup(s.pods[Home(cfg, span.trace)], span.trace).None?
    ensures ReceivesOfTrace(cfg, s, span, t)
  {
    var p := Home(cfg, span.trace);
    assert Tidy(cfg, p, s.pods[p]);
    OpenedLookup(cfg, p, s.pods[p], Entry(span.trace, s.now, [span], None), t);
    assert ForTrace(s.exported, t) + [] == ForTrace(s.exported, t);
  }

  // ---------- Exports follow decisions ----------

  ghost predicate Unsent(cfg: Config, s: State, t: nat)
    requires cfg.Valid() && Shaped(cfg, s)
  {
    (Settled(HeldOf(cfg, s, t)) ==> t in s.decided) && (t !in s.decided ==> ForTrace(s.exported, t) == [])
  }

  /** An action exports nothing of a trace that it leaves undecided. */
  lemma {:induction false} NextExports(cfg: Config, s: State, a: Action, t: nat)
    requires cfg.Valid() && Shaped(cfg, s) && AllTidy(cfg, s) && Unsent(cfg, s, t)
    ensures Unsent(cfg, Next(cfg, s, a), t)
  {
    NextHeld(cfg, s, a, t);
    match a
    case Arrive(span) =>
      ForTraceSnoc(s.exported, span, t);
      assert s.exported + [] == s.exported;
    case Pass(_) =>
    case Sweep(pod) =>
      if pod < cfg.pods {
        assert Tidy(cfg, pod, s.pods[pod]);
        SweepEffect(cfg, s.now, pod, s.pods[pod], t);
        ForTraceAppend(s.exported, SweepQueue(cfg, s.now, s.pods[pod]).1, t);
        LookupFinds(s.pods[pod], t);
      }
  }

  lemma {:induction false} RunExports(cfg: Config, actions: seq<Action>, t: nat)
    requires cfg.Valid()
    ensures AllTidy(cfg, Final(cfg, actions)) && Unsent(cfg, Final(cfg, actions), t)
  {
    if actions != [] {
      var front, last := Front(actions), Last(actions);
      FinalLast(cfg, actions);
      RunExports(cfg, front, t);
      NextIsTidy(cfg, Final(cfg, front), last);
      NextExports(cfg, Final(cfg, front), last, t);
    }
  }

  /** In every run, nothing of a trace is exported before a decision on it. */
  lemma {:induction false} UndecidedIsUnexported(cfg: Config, actions: seq<Action>, t: nat)
    requires cfg.Valid() && t !in Final(cfg, actions).decided
    ensures ForTrace(Final(cfg, actions).exported, t) == []
  {
    RunExports(cfg, actions, t);
  }

  /** A trace that no pod holds and of which no span follows is never heard of again. */
  lemma {:induction false} GoneStaysGone(cfg: Config, s: State, actions: seq<Action>, t: nat)
    requires cfg.Valid() && Shaped(cfg, s) && AllTidy(cfg, s) && HeldOf(cfg, s, t).None? && t !in s.decided
    requires forall i :: 0 <= i < |actions| ==> !Arriving(actions[i], t)
    ensures t !in From(cfg, s, actions).decided
    decreases actions
  {
    if actions != [] {
      NextHeld(cfg, s, actions[0], t);
      NextIsTidy(cfg, s, actions[0]);
      GoneStaysGone(cfg, Next(cfg, s, actions[0]), actions[1..], t);
    }
  }

  lemma {:induction false} SweepsArriveNothing(n: nat, t: nat)
    ensures forall i :: 0 <= i < |Sweeps(n)| ==> !Arriving(Sweeps(n)[i], t)
  {
    if n > 0 {
      SweepsArriveNothing(n - 1, t);
    }
  }

  lemma {:induction false} DrainedParts(cfg: Config, actions: seq<Action>, more: seq<Action>)
    ensures Drained(cfg, actions + more) == actions + (more + ([Pass(cfg.wait)] + Sweeps(cfg.pods)))
  {
  }

  /**
   * An eviction before the decision loses a trace for good: once a pod has dropped it undecided, and
   * unless another span of it comes, none of it is ever exported.
   */
  lemma {:induction false} LostIsUnstored(cfg: Config, actions: seq<Action>, more: seq<Action>, t: nat)
    requires cfg.Valid() && t !in Final(cfg, actions).decided && HeldOf(cfg, Final(cfg, actions), t).None?
    requires forall i :: 0 <= i < |more| ==> !Arriving(more[i], t)
    ensures ForTrace(Final(cfg, Drained(cfg, actions + more)).exported, t) == []
  {
    var rest := more + ([Pass(cfg.wait)] + Sweeps(cfg.pods));
    SweepsArriveNothing(cfg.pods, t);
    RunExports(cfg, actions, t);
    GoneStaysGone(cfg, Final(cfg, actions), rest, t);
    FromAppend(cfg, Initial(cfg), actions, rest);
    DrainedParts(cfg, actions, more);
    UndecidedIsUnexported(cfg, actions + rest, t);
  }

  // ---------- The history sets ----------

  /** Some action found the trace waiting and left it with a decision. */
  ghost predicate EverDecided(cfg: Config, actions: seq<Action>, t: nat)
    requires cfg.Valid()
  {
    actions != [] &&
    (EverDecided(cfg, Front(actions), t) ||
     (Waiting(HeldOf(cfg, Final(cfg, Front(actions)), t)) && Settled(HeldOf(cfg, Final(cfg, actions), t))))
  }

  /** Some action found the trace waiting, or brought it, and left the pod without it. */
  ghost predicate EverDropped(cfg: Config, actions: seq<Action>, t: nat)
    requires cfg.Valid()
  {
    actions != [] &&
    (EverDropped(cfg, Front(actions), t) ||
     (var held := HeldOf(cfg, Final(cfg, Front(actions)), t);
      (Waiting(held) || (held.None? && Arriving(Last(actions), t))) && HeldOf(cfg, Final(cfg, actions), t).None?))
  }

  /** Some span of the trace arrived after a decision on it. */
  ghost predicate EverLate(cfg: Config, actions: seq<Action>, t: nat)
    requires cfg.Valid()
  {
    actions != [] &&
    (EverLate(cfg, Front(actions), t) || (Arriving(Last(actions), t) && EverDecided(cfg, Front(actions), t)))
  }

  /** When the first span of the trace arrived. */
  function FirstArrival(actions: seq<Action>, t: nat): Option<nat> {
    if actions == [] then None
    else if FirstArrival(Front(actions), t).Some? then FirstArrival(Front(actions), t)
    else if Arriving(Last(actions), t) then Some(Elapsed(Front(actions)))
    else None
  }

  /** Some span of the trace arrived `wait` or more after the first. */
  predicate EverTardy(wait: nat, actions: seq<Action>, t: nat) {
    actions != [] &&
    (EverTardy(wait, Front(actions), t) ||
     (var first := FirstArrival(Front(actions), t);
      Arriving(Last(actions), t) && first.Some? && Elapsed(Front(actions)) - first.value >= wait))
  }

  /** Whenever a span arrived, its pod's last sweep was at most `bound` old. */
  predicate SweptWithin(cfg: Config, actions: seq<Action>, bound: nat)
    requires cfg.Valid()
  {
    actions == [] ||
    (SweptWithin(cfg, Front(actions), bound) &&
     (Last(actions).Arrive? ==>
        Elapsed(Front(actions)) - LastSweep(Front(actions), Home(cfg, Last(actions).span.trace)) <= bound))
  }

  /** Decided, lost and late mean what they say: some action decided, dropped, or came after the decision. */
  lemma {:induction false} HistoriesMean(cfg: Config, actions: seq<Action>, t: nat)
    requires cfg.Valid()
    ensures var s := Final(cfg, actions);
            && (t in s.decided <==> EverDecided(cfg, actions, t))
            && (t in s.lost <==> EverDropped(cfg, actions, t))
            && (t in s.late <==> EverLate(cfg, actions, t))
  {
    if actions != [] {
      HistoriesMean(cfg, Front(actions), t);
      FinalLast(cfg, actions);
      RunExports(cfg, Front(actions), t);
      NextHeld(cfg, Final(cfg, Front(actions)), Last(actions), t);
      NextLate(cfg, Final(cfg, Front(actions)), Last(actions), t);
    }
  }

  lemma {:induction false} NextLate(cfg: Config, s: State, a: Action, t: nat)
    requires cfg.Valid() && Shaped(cfg, s)
    ensures t in Next(cfg, s, a).late <==> t in s.late || (Arriving(a, t) && t in s.decided)
  {
  }

  /** Tardiness is a matter of arrival times alone. */
  lemma {:induction false} TardyMeans(cfg: Config, actions: seq<Action>, t: nat)
    requires cfg.Valid()
    ensures var s, first := Final(cfg, actions), FirstArrival(actions, t);
            && (t in s.firsts <==> first.Some?) && (first.Some? ==> s.firsts[t] == first.value)
            && (t in s.tardy <==> EverTardy(cfg.wait, actions, t))
  {
    if actions != [] {
      TardyMeans(cfg, Front(actions), t);
      FinalLast(cfg, actions);
      RunClock(cfg, Front(actions));
      NextTardy(cfg, Final(cfg, Front(actions)), Last(actions), t);
    }
  }

  lemma {:induction false} NextTardy(cfg: Config, s: State, a: Action, t: nat)
    requires cfg.Valid() && Shaped(cfg, s)
    ensures var s' := Next(cfg, s, a);
            && (t in s'.firsts <==> t in s.firsts || Arriving(a, t))
            && (t in s'.firsts ==> s'.firsts[t] == if t in s.firsts then s.firsts[t] else s.now)
            && (t in s'.tardy <==> t in s.tardy || (Arriving(a, t) && t in s.firsts && s.now - s.firsts[t] >= cfg.wait))
  {
  }

  /** Slack is the longest time from a sweep of a pod to an arrival there. */
  lemma {:induction false} SlackMeans(cfg: Config, actions: seq<Action>, bound: nat)
    requires cfg.Valid()
    ensures Final(cfg, actions).slack <= bound <==> SweptWithin(cfg, actions, bound)
  {
    if actions != [] {
      SlackMeans(cfg, Front(actions), bound);
      FinalLast(cfg, actions);
      RunClock(cfg, Front(actions));
    }
  }

  /** When a pod opened a queue entry: at each arrival of a trace that it does not hold. */
  ghost function Openings(cfg: Config, actions: seq<Action>, p: nat): seq<int>
    requires cfg.Valid()
  {
    if actions == [] then []
    else
      var before, a := Openings(cfg, Front(actions), p), Last(actions);
      if a.Arrive? && Home(cfg, a.span.trace) == p && HeldOf(cfg, Final(cfg, Front(actions)), a.span.trace).None?
      then before + [Elapsed(Front(actions))] else before
  }

  lemma {:induction false} NewsMean(cfg: Config, actions: seq<Action>, p: nat)
    requires cfg.Valid() && p < cfg.pods
    ensures Final(cfg, actions).news[p] == Openings(cfg, actions, p)
  {
    if actions != [] {
      NewsMean(cfg, Front(actions), p);
      FinalLast(cfg, actions);
      RunClock(cfg, Front(actions));
    }
  }
}
