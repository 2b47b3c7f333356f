/**
 * The load-balancer tier: spans travel through agents that hold them for a while and pass them on in
 * any order, each to the pod that its trace id hashes to.
 */
module Front {
  import opened Tracing
  import opened Sampling
  import opened Pipeline
  import opened Exactness
  import opened Histories

  datatype Hop =
    | Send(agent: nat, span: Span)           // the service hands a span to an agent
    | Forward(agent: nat, index: nat)        // an agent passes one of its spans on
    | Elapse(time: nat)
    | Tick(pod: nat)

  /** The spans that each agent holds. */
  type Flight = seq<seq<Span>>

  function Idle(agents: nat): Flight {
    seq(agents, _ => [])
  }

  predicate Holds(flight: Flight, agent: nat, index: nat) {
    agent < |flight| && index < |flight[agent]|
  }

  function After(flight: Flight, hop: Hop): (after: Flight)
    ensures |after| == |flight|
  {
    match hop
    case Send(agent, span) => if agent < |flight| then flight[agent := flight[agent] + [span]] else flight
    case Forward(agent, index) =>
      if Holds(flight, agent, index) then flight[agent := flight[agent][..index] + flight[agent][index + 1..]] else flight
    case _ => flight
  }

  /** What the pods see of a hop. */
  function Effect(flight: Flight, hop: Hop): seq<Action> {
    match hop
    case Send(_, _) => []
    case Forward(agent, index) => if Holds(flight, agent, index) then [Arrive(flight[agent][index])] else []
    case Elapse(time) => [Pass(time)]
    case Tick(pod) => [Sweep(pod)]
  }

  function Delivered(flight: Flight, hops: seq<Hop>): seq<Action>
    decreases hops
  {
    if hops == [] then [] else Effect(flight, hops[0]) + Delivered(After(flight, hops[0]), hops[1..])
  }

  /** The spans that are still under way after the hops. */
  function Left(flight: Flight, hops: seq<Hop>): Flight
    decreases hops
  {
    if hops == [] then flight else Left(After(flight, hops[0]), hops[1..])
  }

  function Handed(agents: nat, hop: Hop): seq<Span> {
    if hop.Send? && hop.agent < agents then [hop.span] else []
  }

  /** Every span that the service handed to one of the agents. */
  function Sent(agents: nat, hops: seq<Hop>): seq<Span> {
    if hops == [] then [] else Handed(agents, hops[0]) + Sent(agents, hops[1..])
  }

  function Held(flight: Flight): seq<Span> {
    if flight == [] then [] else flight[0] + Held(flight[1..])
  }

  // ---------- Agents neither lose nor invent spans ----------

  function Count(spans: seq<Span>, x: Span): nat {
    multiset(spans)[x]
  }

  lemma {:induction false} CountAppend(a: seq<Span>, b: seq<Span>, x: Span)
    ensures Count(a + b, x) == Count(a, x) + Count(b, x)
  {
  }

  lemma {:induction false} HeldUpdate(flight: Flight, agent: nat, spans: seq<Span>, x: Span)
    requires agent < |flight|
    ensures Count(Held(flight[agent := spans]), x) + Count(flight[agent], x) == Count(Held(flight), x) + Count(spans, x)
  {
    var changed := flight[agent := spans];
    CountAppend(flight[0], Held(flight[1..]), x);
    CountAppend(changed[0], Held(changed[1..]), x);
    if agent == 0 {
      assert changed[1..] == flight[1..];
    } else {
      assert changed[1..] == flight[1..][agent - 1 := spans];
      HeldUpdate(flight[1..], agent - 1, spans, x);
    }
  }

  lemma {:induction false} HeldIdle(agents: nat)
    ensures Held(Idle(agents)) == []
  {
    if agents > 0 {
      HeldIdle(agents - 1);
      assert Idle(agents)[1..] == Idle(agents - 1);
    }
  }

  /** What has arrived and what is still under way, against what was under way and what was handed over. */
  ghost predicate Balanced(arrived: seq<Span>, left: Flight, flight: Flight, sent: seq<Span>, x: Span) {
    Count(arrived, x) + Count(Held(left), x) == Count(Held(flight), x) + Count(sent, x)
  }

  lemma {:induction false} SendConserves(flight: Flight, agent: nat, span: Span, x: Span)
    requires agent < |flight|
    ensures Balanced([], flight[agent := flight[agent] + [span]], flight, [span], x)
  {
    HeldUpdate(flight, agent, flight[agent] + [span], x);
    CountAppend(flight[agent], [span], x);
  }

  lemma {:induction false} ForwardConserves(flight: Flight, agent: nat, index: nat, x: Span)
    requires Holds(flight, agent, index)
    ensures var held := flight[agent];
            Balanced([held[index]], flight[agent := held[..index] + held[index + 1..]], flight, [], x)
  {
    var held := flight[agent];
    var before, one, rest := held[..index], [held[index]], held[index + 1..];
    assert held == before + (one + rest);
    CountAppend(before, one + rest, x);
    CountAppend(one, rest, x);
    CountAppend(before, rest, x);
    HeldUpdate(flight, agent, before + rest, x);
  }

  /** Nothing moves between the agents and the pods. */
  lemma {:induction false} StillBalanced(flight: Flight, x: Span)
    ensures Balanced([], flight, flight, [], x)
  {
  }

  lemma {:induction false} HopConserves(flight: Flight, hop: Hop, x: Span)
    ensures Balanced(Arrivals(Effect(flight, hop)), After(flight, hop), flight, Handed(|flight|, hop), x)
  {
    StillBalanced(flight, x);
    if hop.Send? && hop.agent < |flight| {
      SendConserves(flight, hop.agent, hop.span, x);
    } else if hop.Forward? && Holds(flight, hop.agent, hop.index) {
      OneArrival(Arrive(flight[hop.agent][hop.index]));
      ForwardConserves(flight, hop.agent, hop.index, x);
    } else if hop.Elapse? {
      OneArrival(Pass(hop.time));
    } else if hop.Tick? {
      OneArrival(Sweep(hop.pod));
    }
  }

  /** What was handed over has arrived or is still under way, as often as it was handed over. */
  lemma {:induction false} HopsConserve(flight: Flight, hops: seq<Hop>, x: Span)
    ensures Balanced(Arrivals(Delivered(flight, hops)), Left(flight, hops), flight, Sent(|flight|, hops), x)
    decreases hops
  {
    if hops != [] {
      var next, effect, rest := After(flight, hops[0]), Effect(flight, hops[0]), Delivered(After(flight, hops[0]), hops[1..]);
      HopConserves(flight, hops[0], x);
      HopsConserve(next, hops[1..], x);
      ArrivalsAppend(effect, rest);
      CountAppend(Arrivals(effect), Arrivals(rest), x);
      CountAppend(Handed(|flight|, hops[0]), Sent(|flight|, hops[1..]), x);
    }
  }

  // ---------- Time and ticks go through ----------

  /** The time that passes before the pods. */
  function Elapsing(hops: seq<Hop>): nat {
    if hops == [] then 0 else (if hops[0].Elapse? then hops[0].time else 0) + Elapsing(hops[1..])
  }

  lemma {:induction false} DeliveredAppend(flight: Flight, a: seq<Hop>, b: seq<Hop>)
    ensures Delivered(flight, a + b) == Delivered(flight, a) + Delivered(Left(flight, a), b)
    decreases a
  {
    if a == [] {
      assert a + b == b;
    } else {
      var effect, next := Effect(flight, a[0]), After(flight, a[0]);
      assert (a + b)[1..] == a[1..] + b;
      DeliveredAppend(next, a[1..], b);
      Regroup(effect, Delivered(next, a[1..]), Delivered(Left(next, a[1..]), b));
    }
  }

  lemma {:induction false} DeliveredOne(flight: Flight, hop: Hop)
    ensures Delivered(flight, [hop]) == Effect(flight, hop)
  {
    assert [hop][1..] == [];
    assert Effect(flight, hop) + [] == Effect(flight, hop);
  }

  lemma {:induction false} EffectTakesTime(cfg: Config, s: State, flight: Flight, hop: Hop)
    requires cfg.Valid() && Shaped(cfg, s)
    ensures From(cfg, s, Effect(flight, hop)).now == s.now + if hop.Elapse? then hop.time else 0
  {
    var effect := Effect(flight, hop);
    if effect != [] {
      assert effect[1..] == [];
    }
  }

  /** The pods' clock is the time that elapsed, wherever the spans were meanwhile. */
  lemma {:induction false} HopsTakeTime(cfg: Config, s: State, flight: Flight, hops: seq<Hop>)
    requires cfg.Valid() && Shaped(cfg, s)
    ensures From(cfg, s, Delivered(flight, hops)).now == s.now + Elapsing(hops)
    decreases hops
  {
    if hops != [] {
      var effect, next := Effect(flight, hops[0]), After(flight, hops[0]);
      EffectTakesTime(cfg, s, flight, hops[0]);
      HopsTakeTime(cfg, From(cfg, s, effect), next, hops[1..]);
      FromAppend(cfg, s, effect, Delivered(next, hops[1..]));
    }
  }

  /**
   * A decision tick reaches its pod at once: the pod has then been swept at the time that elapsed,
   * and nothing that has waited long enough is left undecided there.
   */
  lemma {:induction false} TicksReachThePods(cfg: Config, agents: nat, hops: seq<Hop>, p: nat)
    requires cfg.Valid() && p < cfg.pods
    ensures var s := Final(cfg, Delivered(Idle(agents), hops + [Tick(p)]));
            && s.swept[p] == s.now == Elapsing(hops)
            && forall i :: 0 <= i < |s.pods[p]| && s.pods[p][i].decision.None? ==> s.now - s.pods[p][i].first < cfg.wait
  {
    var actions := Delivered(Idle(agents), hops);
    DeliveredAppend(Idle(agents), hops, [Tick(p)]);
    DeliveredOne(Left(Idle(agents), hops), Tick(p));
    TickDecides(cfg, actions, p);
    RunClock(cfg, actions);
    HopsTakeTime(cfg, Initial(cfg), Idle(agents), hops);
  }

  /** A span that an agent passes on reaches its pod at once: it is the next to arrive. */
  lemma {:induction false} ForwardsReachThePods(cfg: Config, agents: nat, hops: seq<Hop>, agent: nat, index: nat)
    requires cfg.Valid() && Holds(Left(Idle(agents), hops), agent, index)
    ensures Final(cfg, Delivered(Idle(agents), hops + [Forward(agent, index)])).arrived ==
            Final(cfg, Delivered(Idle(agents), hops)).arrived + [Left(Idle(agents), hops)[agent][index]]
  {
    var actions, left := Delivered(Idle(agents), hops), Left(Idle(agents), hops);
    var a := Arrive(left[agent][index]);
    DeliveredAppend(Idle(agents), hops, [Forward(agent, index)]);
    DeliveredOne(left, Forward(agent, index));
    FinalSnoc(cfg, actions, a);
    NextArrived(cfg, Final(cfg, actions), a);
  }

  // ---------- One trace ----------

  lemma {:induction false} ForTraceCount(spans: seq<Span>, trace: nat, x: Span)
    ensures multiset(ForTrace(spans, trace))[x] == if x.trace == trace then multiset(spans)[x] else 0
  {
    if spans != [] {
      assert spans == [spans[0]] + spans[1..];
      ForTraceCount(spans[1..], trace, x);
    }
  }

  /** Once an agent holds none of a trace's spans, all that were sent have arrived. */
  lemma {:induction false} TraceArrives(agents: nat, hops: seq<Hop>, t: nat)
    requires ForTrace(Held(Left(Idle(agents), hops)), t) == []
    ensures multiset(ForTrace(Arrivals(Delivered(Idle(agents), hops)), t)) == multiset(ForTrace(Sent(agents, hops), t))
  {
    var arrived, left, sent := Arrivals(Delivered(Idle(agents), hops)), Held(Left(Idle(agents), hops)), Sent(agents, hops);
    HeldIdle(agents);
    forall x: Span ensures multiset(ForTrace(arrived, t))[x] == multiset(ForTrace(sent, t))[x] {
      HopsConserve(Idle(agents), hops, x);
      ForTraceCount(arrived, t, x);
      ForTraceCount(left, t, x);
      ForTraceCount(sent, t, x);
    }
  }

  /** The decision and the exported spans depend on what was sent, not on the way it took. */
  lemma {:induction false} OracleIsOrderFree(baseline: nat -> bool, t: nat, a: seq<Span>, b: seq<Span>)
    requires multiset(a) == multiset(b)
    ensures multiset(Oracle(baseline, t, a)) == multiset(Oracle(baseline, t, b))
  {
    KeepIsOrderFree(baseline, t, a, b);
  }

  /**
   * For any number of agents and pods and any interleaving of sends, forwards, decision ticks and
   * time: a trace that no agent still holds, that was not evicted undecided and whose spans all
   * reached its pod before the decision is exported whole or not at all, as one sampler decides that
   * is given every span sent.
   */
  lemma {:induction false} AgentsAreExact(cfg: Config, agents: nat, hops: seq<Hop>, t: nat)
    requires cfg.Valid()
    requires var s := Final(cfg, Delivered(Idle(agents), hops)); t !in s.lost && t !in s.late
    requires ForTrace(Held(Left(Idle(agents), hops)), t) == []
    ensures var actions := Delivered(Idle(agents), hops);
            multiset(ForTrace(Final(cfg, Drained(cfg, actions)).exported, t)) ==
            multiset(Oracle(cfg.baseline, t, ForTrace(Sent(agents, hops), t)))
  {
    var actions := Delivered(Idle(agents), hops);
    TraceArrives(agents, hops, t);
    WholeTracesAreExact(cfg, actions, t);
    OracleIsOrderFree(cfg.baseline, t, ForTrace(Arrivals(actions), t), ForTrace(Sent(agents, hops), t));
  }
}
