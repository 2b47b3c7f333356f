/** When a bounded queue never evicts a trace before its decision. */
module Capacity {
  import opened Options
  import opened Tracing
  import opened Sampling
  import opened Pipeline
  import opened Exactness
  import opened Histories

  const SECOND := 1000

  /** Number of times in the one-second window that begins at `from`. */
  function InWindow(times: seq<int>, from: int): nat {
    if times == [] then 0
    else InWindow(times[..|times| - 1], from) + if from <= times[|times| - 1] < from + SECOND then 1 else 0
  }

  /** No one-second window, wherever it begins, holds more than `rate` of the times. */
  ghost predicate AtMost(rate: nat, times: seq<int>) {
    forall from :: InWindow(times, from) <= rate
  }

  predicate Sorted(times: seq<int>) {
    forall i, j :: 0 <= i < j < |times| ==> times[i] <= times[j]
  }

  lemma {:induction false} WindowHolds(times: seq<int>, from: int, lo: nat, hi: nat)
    requires lo <= hi <= |times| && forall i :: lo <= i < hi ==> from <= times[i] < from + SECOND
    ensures InWindow(times, from) >= hi - lo
  {
    if lo < hi {
      var front := times[..|times| - 1];
      if hi == |times| {
        WindowHolds(front, from, lo, hi - 1);
      } else {
        WindowHolds(front, from, lo, hi);
      }
    }
  }

  lemma {:induction false} WindowWithin(times: seq<int>, from: int, lo: nat, hi: nat)
    requires lo <= hi && forall i :: 0 <= i < |times| && from <= times[i] < from + SECOND ==> lo <= i < hi
    ensures InWindow(times, from) <= hi - lo
    decreases |times|
  {
    if times != [] {
      var front, last := times[..|times| - 1], |times| - 1;
      if from <= times[last] < from + SECOND {
        WindowWithin(front, from, lo, last);
      } else {
        WindowWithin(front, from, lo, hi);
      }
    }
  }

  /** At the given rate, `rate * k` further times take at least `k` seconds. */
  lemma {:induction false} RateSpreads(rate: nat, times: seq<int>, i: nat, k: nat)
    requires Sorted(times) && AtMost(rate, times) && i + rate * k < |times|
    ensures times[i + rate * k] >= times[i] + k * SECOND
    decreases k
  {
    if k > 0 {
      var j := i + rate * (k - 1);
      assert j + rate == i + rate * k;
      RateSpreads(rate, times, i, k - 1);
      if times[j + rate] < times[j] + SECOND {
        WindowHolds(times, times[j], j, j + rate + 1);
      }
    }
  }

  lemma {:induction false} RateSpreadsBeyond(rate: nat, times: seq<int>, i: nat, n: nat, k: nat)
    requires Sorted(times) && AtMost(rate, times) && rate * k <= n && i + n < |times|
    ensures times[i + n] >= times[i] + k * SECOND
  {
    RateSpreads(rate, times, i, k);
  }

  // ---------- The queue against the times it was opened at ----------

  /** The queue holds the newest entries. */
  ghost predicate Aligned(pod: seq<Entry>, news: seq<int>) {
    |pod| <= |news| && forall i :: 0 <= i < |pod| ==> pod[i].first == news[|news| - |pod| + i]
  }

  /** Undecided entries are newer than `limit`. */
  ghost predicate Young(pod: seq<Entry>, limit: int) {
    forall i :: 0 <= i < |pod| && pod[i].decision.None? ==> pod[i].first > limit
  }

  ghost predicate Until(times: seq<int>, now: int) {
    Sorted(times) && forall i :: 0 <= i < |times| ==> times[i] <= now
  }

  /** The queue is full before anything is evicted, and what is undecided is newer than the last sweep less the wait. */
  ghost predicate QueueFilled(cfg: Config, pod: seq<Entry>, news: seq<int>, swept: int, now: int) {
    && Aligned(pod, news) && |pod| <= cfg.capacity && (|pod| < |news| ==> |pod| == cfg.capacity)
    && Young(pod, swept - cfg.wait) && Until(news, now) && swept <= now
  }

  ghost predicate Filled(cfg: Config, s: State, p: nat)
    requires cfg.Valid() && Shaped(cfg, s) && p < cfg.pods
  {
    QueueFilled(cfg, s.pods[p], s.news[p], s.swept[p], s.now)
  }

  ghost predicate AllFilled(cfg: Config, s: State)
    requires cfg.Valid() && Shaped(cfg, s)
  {
    forall p :: 0 <= p < cfg.pods ==> Filled(cfg, s, p)
  }

  /** Every pod stays within the rate, and at most `bound` passes from its last sweep to an arrival. */
  ghost predicate Conforms(cfg: Config, s: State, rate: nat, bound: nat)
    requires cfg.Valid() && Shaped(cfg, s)
  {
    (forall p :: 0 <= p < cfg.pods ==> AtMost(rate, s.news[p])) && s.slack <= bound
  }

  lemma {:induction false} PrefixRate(rate: nat, times: seq<int>, more: seq<int>)
    requires AtMost(rate, times + more)
    ensures AtMost(rate, times)
    decreases |more|
  {
    if more == [] {
      assert times + more == times;
    } else {
      var longer, shorter := times + more, times + more[..|more| - 1];
      assert longer[..|longer| - 1] == shorter;
      forall from ensures InWindow(shorter, from) <= rate {
        assert InWindow(longer, from) <= rate;
      }
      PrefixRate(rate, times, more[..|more| - 1]);
    }
  }

  /** Histories only grow. */
  ghost predicate Grew(cfg: Config, s: State, s': State)
    requires cfg.Valid() && Shaped(cfg, s) && Shaped(cfg, s')
  {
    s.slack <= s'.slack && forall p :: 0 <= p < cfg.pods ==> s.news[p] <= s'.news[p]
  }

  lemma {:induction false} RunGrows(cfg: Config, s: State, actions: seq<Action>)
    requires cfg.Valid() && Shaped(cfg, s)
    ensures Grew(cfg, s, From(cfg, s, actions))
    decreases actions
  {
    if actions != [] {
      var s' := Next(cfg, s, actions[0]);
      assert Grew(cfg, s, s');
      RunGrows(cfg, s', actions[1..]);
    }
  }

  lemma {:induction false} ConformsEarlier(cfg: Config, s: State, s': State, rate: nat, bound: nat)
    requires cfg.Valid() && Shaped(cfg, s) && Shaped(cfg, s') && Grew(cfg, s, s')
    requires Conforms(cfg, s', rate, bound)
    ensures Conforms(cfg, s, rate, bound)
  {
    forall p | 0 <= p < cfg.pods ensures AtMost(rate, s.news[p]) {
      var more := s'.news[p][|s.news[p]|..];
      assert s.news[p] + more == s'.news[p];
      PrefixRate(rate, s.news[p], more);
    }
  }

  /** Whole seconds that cover a number of milliseconds. */
  function Seconds(ms: nat): nat {
    (ms + SECOND - 1) / SECOND
  }

  lemma {:induction false} SecondsCover(ms: nat)
    ensures ms <= Seconds(ms) * SECOND < ms + SECOND
  {
  }

  /** Opening an entry in a full queue evicts a trace that is old enough to have been decided. */
  lemma {:induction false} OpenLosesNothing(cfg: Config, s: State, span: Span, rate: nat, bound: nat)
    requires cfg.Valid() && Shaped(cfg, s) && AllFilled(cfg, s)
    requires Lookup(s.pods[Home(cfg, span.trace)], span.trace).None?
    requires Conforms(cfg, Receive(cfg, s, span), rate, bound) && rate * Seconds(cfg.wait + bound) <= cfg.capacity
    ensures Receive(cfg, s, span).lost == s.lost
  {
    var p, s' := Home(cfg, span.trace), Receive(cfg, s, span);
    var queue, news := s.pods[p] + [Entry(span.trace, s.now, [span], None)], s'.news[p];
    assert Filled(cfg, s, p) && AtMost(rate, news);
    if |queue| > cfg.capacity {
      var i := |news| - |queue|;
      AlignedPush(s.pods[p], s.news[p], queue[|queue| - 1]);
      UntilSnoc(s.news[p], s.now, s.now);
      RateSpreadsBeyond(rate, news, i, |queue| - 1, Seconds(cfg.wait + bound));
      SecondsCover(cfg.wait + bound);
      assert queue[0].first == news[i] && news[i + |queue| - 1] == s.now;
      assert |queue| > 1 ==> queue[0] == s.pods[p][0];
    }
  }

  lemma {:induction false} AlignedPush(pod: seq<Entry>, news: seq<int>, e: Entry)
    requires Aligned(pod, news)
    ensures Aligned(pod + [e], news + [e.first])
  {
    var queue, news' := pod + [e], news + [e.first];
    forall i | 0 <= i < |queue| ensures queue[i].first == news'[|news'| - |queue| + i] {
      if i < |pod| {
        assert queue[i] == pod[i];
      }
    }
  }

  lemma {:induction false} AlignedDrop(pod: seq<Entry>, news: seq<int>)
    requires Aligned(pod, news) && pod != []
    ensures Aligned(pod[1..], news)
  {
    forall i | 0 <= i < |pod[1..]| ensures pod[1..][i].first == news[|news| - |pod[1..]| + i] {
      assert pod[1..][i] == pod[i + 1];
    }
  }

  lemma {:induction false} UntilSnoc(times: seq<int>, last: int, now: int)
    requires Until(times, last) && last <= now
    ensures Until(times + [now], now)
  {
  }

  lemma {:induction false} OpenedQueueFilled(cfg: Config, pod: seq<Entry>, news: seq<int>, swept: int, now: int, e: Entry)
    requires cfg.Valid() && QueueFilled(cfg, pod, news, swept, now) && e.first == now
    ensures var queue := pod + [e];
            QueueFilled(cfg, if |queue| > cfg.capacity then queue[1..] else queue, news + [now], swept, now)
  {
    var queue := pod + [e];
    AlignedPush(pod, news, e);
    AlignedDrop(queue, news + [now]);
    UntilSnoc(news, now, now);
    assert Young(queue, swept - cfg.wait);
    assert Young(queue[1..], swept - cfg.wait);
  }

  lemma {:induction false} SweptQueueFilled(cfg: Config, pod: seq<Entry>, news: seq<int>, swept: int, now: int)
    requires QueueFilled(cfg, pod, news, swept, now)
    ensures QueueFilled(cfg, SweepQueue(cfg, now, pod).0, news, now, now)
  {
    var queue := SweepQueue(cfg, now, pod).0;
    SweepEntries(cfg, now, pod);
    SameFirsts(pod, queue, news);
    forall i | 0 <= i < |queue| && queue[i].decision.None? ensures queue[i].first > now - cfg.wait {
      assert queue[i] == Decide(cfg, now, pod[i]);
    }
  }

  lemma {:induction false} SameFirsts(pod: seq<Entry>, queue: seq<Entry>, news: seq<int>)
    requires Aligned(pod, news) && |queue| == |pod| && forall i :: 0 <= i < |pod| ==> queue[i].first == pod[i].first
    ensures Aligned(queue, news)
  {
  }

  lemma {:induction false} JoinedQueueFilled(cfg: Config, pod: seq<Entry>, news: seq<int>, swept: int, now: int, span: Span)
    requires QueueFilled(cfg, pod, news, swept, now)
    ensures QueueFilled(cfg, Append(pod, span), news, swept, now)
  {
    var queue := Append(pod, span);
    AppendEffect(pod, span, span.trace);
    SameFirsts(pod, queue, news);
    forall i | 0 <= i < |queue| && queue[i].decision.None? ensures queue[i].first > swept - cfg.wait {
      assert pod[i].decision.None? && queue[i].first == pod[i].first;
    }
  }

  lemma {:induction false} ArrivalFills(cfg: Config, s: State, span: Span)
    requires cfg.Valid() && Shaped(cfg, s) && AllFilled(cfg, s)
    ensures AllFilled(cfg, Receive(cfg, s, span))
  {
    var p, s' := Home(cfg, span.trace), Receive(cfg, s, span);
    assert Filled(cfg, s, p);
    if Lookup(s.pods[p], span.trace).None? {
      OpenedQueueFilled(cfg, s.pods[p], s.news[p], s.swept[p], s.now, Entry(span.trace, s.now, [span], None));
    } else {
      JoinedQueueFilled(cfg, s.pods[p], s.news[p], s.swept[p], s.now, span);
    }
    assert QueueFilled(cfg, s'.pods[p], s'.news[p], s.swept[p], s.now);
    forall q | 0 <= q < cfg.pods ensures Filled(cfg, s', q) {
      assert Filled(cfg, s, q);
    }
  }

  lemma {:induction false} NextFills(cfg: Config, s: State, a: Action)
    requires cfg.Valid() && Shaped(cfg, s) && AllFilled(cfg, s)
    ensures AllFilled(cfg, Next(cfg, s, a))
  {
    match a
    case Arrive(span) => ArrivalFills(cfg, s, span);
    case Pass(_) =>
      forall p | 0 <= p < cfg.pods ensures Filled(cfg, Next(cfg, s, a), p) {
        assert Filled(cfg, s, p);
      }
    case Sweep(_) =>
      forall p | 0 <= p < cfg.pods ensures Filled(cfg, Next(cfg, s, a), p) {
        assert Filled(cfg, s, p);
        SweptQueueFilled(cfg, s.pods[p], s.news[p], s.swept[p], s.now);
      }
  }

  /** Safety over whole runs: at a rate that the queue can hold until the decision, nothing is lost. */
  lemma {:induction false} RunLosesNothing(cfg: Config, s: State, actions: seq<Action>, rate: nat, bound: nat)
    requires cfg.Valid() && Shaped(cfg, s) && AllFilled(cfg, s)
    requires Conforms(cfg, From(cfg, s, actions), rate, bound) && rate * Seconds(cfg.wait + bound) <= cfg.capacity
    ensures From(cfg, s, actions).lost == s.lost
    decreases actions
  {
    if actions != [] {
      var a, s' := actions[0], Next(cfg, s, actions[0]);
      RunGrows(cfg, s', actions[1..]);
      ConformsEarlier(cfg, s', From(cfg, s, actions), rate, bound);
      if a.Arrive? && Lookup(s.pods[Home(cfg, a.span.trace)], a.span.trace).None? {
        OpenLosesNothing(cfg, s, a.span, rate, bound);
      }
      NextFills(cfg, s, a);
      RunLosesNothing(cfg, s', actions[1..], rate, bound);
    }
  }

  lemma {:induction false} StartsFilled(cfg: Config)
    requires cfg.Valid()
    ensures AllFilled(cfg, Initial(cfg))
  {
  }

  /**
   * The whole pipeline, from the declared rate to the exports: if no pod opens more than `rate`
   * traces in any one-second window, a pod's last sweep is at most `bound` old when spans arrive,
   * and the queue holds `rate` traces for every second begun of wait and bound together, every trace
   * whose spans all precede its decision is decided as a sampler holding all of it would decide.
   */
  lemma {:induction false} PipelineIsExact(cfg: Config, actions: seq<Action>, rate: nat, bound: nat, t: nat)
    requires cfg.Valid() && Conforms(cfg, Final(cfg, actions), rate, bound)
    requires rate * Seconds(cfg.wait + bound) <= cfg.capacity
    requires t !in Final(cfg, actions).late
    ensures ForTrace(Final(cfg, Drained(cfg, actions)).exported, t) ==
            Oracle(cfg.baseline, t, ForTrace(Arrivals(actions), t))
  {
    StartsFilled(cfg);
    RunLosesNothing(cfg, Initial(cfg), actions, rate, bound);
    WholeTracesAreExact(cfg, actions, t);
  }

  // ---------- A run at the declared rate that loses a trace ----------

  function Tight(wait: nat, capacity: nat): Config {
    Config(1, (trace: nat) => 0, wait, capacity, (trace: nat) => false)
  }

  /** A span in error, which every sampler keeps. */
  function BurstSpan(k: nat): Span {
    Span(k, 1, 0, "burst", 0, 0, Failed("down"), None, true)
  }

  function BurstTime(rate: nat, k: nat): nat
    requires rate > 0
  {
    (k / rate) * SECOND
  }

  function Min(a: int, b: int): int {
    if a < b then a else b
  }

  /** `rate` new traces at once, every second, `k` in all. */
  function Burst(rate: nat, wait: nat, k: nat): seq<Action>
    requires rate > 0 && wait > 0
  {
    if k == 0 then []
    else Burst(rate, wait, k - 1) + Tick(rate, wait, k - 1) + [Arrive(BurstSpan(k - 1))]
  }

  function Tick(rate: nat, wait: nat, k: nat): seq<Action>
    requires rate > 0 && wait > 0
  {
    if k > 0 && k % rate == 0 then PassSecond(wait, BurstTime(rate, k - 1)) else []
  }

  /** One second from `now`; the pod is swept as late as the first trace of the burst stays undecided. */
  function PassSecond(wait: nat, now: nat): seq<Action>
    requires wait > 0
  {
    var m := Min(SECOND, wait - 1 - now);
    if m >= 0 then [Pass(m), Sweep(0), Pass(SECOND - m)] else [Pass(SECOND)]
  }

  function BurstTimes(rate: nat, k: nat): seq<int>
    requires rate > 0
  {
    seq(k, i requires 0 <= i < k => BurstTime(rate, i))
  }

  function BurstQueue(rate: nat, k: nat): seq<Entry>
    requires rate > 0
  {
    seq(k, i requires 0 <= i < k => Entry(i, BurstTime(rate, i), [BurstSpan(i)], None))
  }

  /** The state in which the k-th trace of a burst arrives. */
  ghost predicate Bursting(s: State, rate: nat, wait: nat, bound: nat, k: nat, now: int)
    requires rate > 0
  {
    && s.now == now && s.pods == [BurstQueue(rate, k)] && s.news == [BurstTimes(rate, k)]
    && s.swept == [Min(now, wait - 1)] && s.slack <= bound && s.decided == {} && s.late == {}
  }

  lemma {:induction false} TickTime(rate: nat, k: nat)
    requires rate > 0 && k > 0
    ensures BurstTime(rate, k) == BurstTime(rate, k - 1) + (if k % rate == 0 then SECOND else 0)
  {
    var q, m := (k - 1) / rate, (k - 1) % rate;
    assert k == rate * q + m + 1;
    if m + 1 == rate {
      assert k == rate * (q + 1);
      Quotient(k, rate, q + 1, 0);
    } else {
      Quotient(k, rate, q, m + 1);
    }
  }

  lemma {:induction false} Quotient(k: nat, rate: nat, q: nat, m: nat)
    requires rate > 0 && m < rate && k == rate * q + m
    ensures k / rate == q && k % rate == m
  {
    var q', m' := k / rate, k % rate;
    assert k == rate * q' + m';
    if q > q' {
      Scale(rate, q' + 1, q);
    } else if q < q' {
      Scale(rate, q + 1, q');
    }
  }

  lemma {:induction false} Scale(rate: nat, a: nat, b: nat)
    requires a <= b
    ensures rate * a <= rate * b
    decreases rate
  {
    if rate > 0 {
      Scale(rate - 1, a, b);
      assert rate * a == (rate - 1) * a + a && rate * b == (rate - 1) * b + b;
    }
  }

  lemma {:induction false} QuotientBelow(k: nat, rate: nat, seconds: nat)
    requires rate > 0 && k < rate * seconds
    ensures k / rate < seconds
  {
    assert k == rate * (k / rate) + k % rate;
    if k / rate >= seconds {
      Scale(rate, seconds, k / rate);
    }
  }

  /** A trace that arrives in the burst arrives before wait and bound are over. */
  lemma {:induction false} BurstIsShort(rate: nat, span: nat, k: nat)
    requires rate > 0 && k < rate * Seconds(span)
    ensures BurstTime(rate, k) < span
  {
    QuotientBelow(k, rate, Seconds(span));
    SecondsCover(span);
    assert BurstTime(rate, k) <= (Seconds(span) - 1) * SECOND;
  }

  lemma {:induction false} NothingDue(cfg: Config, now: int, pod: seq<Entry>)
    requires forall i :: 0 <= i < |pod| ==> !Due(cfg, now, pod[i])
    ensures SweepQueue(cfg, now, pod) == (pod, [], {})
  {
    if pod != [] {
      assert forall i :: 0 <= i < |pod[1..]| ==> pod[1..][i] == pod[i + 1];
      NothingDue(cfg, now, pod[1..]);
      assert pod == [pod[0]] + pod[1..];
      assert Decide(cfg, now, pod[0]) == pod[0];
    }
  }

  /** A sweep before the wait is over decides nothing. */
  lemma {:induction false} EarlySweep(rate: nat, wait: nat, capacity: nat, s: State, k: nat)
    requires rate > 0 && wait > 0 && Shaped(Tight(wait, capacity), s)
    requires s.pods == [BurstQueue(rate, k)] && s.now < wait
    ensures Next(Tight(wait, capacity), s, Sweep(0)) == s.(swept := [s.now])
  {
    var cfg, pod := Tight(wait, capacity), BurstQueue(rate, k);
    forall i | 0 <= i < |pod| ensures !Due(cfg, s.now, pod[i]) {
      assert pod[i].first >= 0;
    }
    NothingDue(cfg, s.now, pod);
    assert s.pods[0 := pod] == s.pods && s.swept[0 := s.now] == [s.now];
    assert s.exported + [] == s.exported && s.decided + {} == s.decided;
  }

  lemma {:induction false} ThreeSteps(cfg: Config, s: State, a: Action, b: Action, c: Action)
    requires cfg.Valid() && Shaped(cfg, s)
    ensures From(cfg, s, [a]) == Next(cfg, s, a)
    ensures From(cfg, s, [a, b, c]) == Next(cfg, Next(cfg, Next(cfg, s, a), b), c)
  {
    assert [a][1..] == [] && [c][1..] == [] && [b, c][1..] == [c] && [a, b, c][1..] == [b, c];
    var s1 := Next(cfg, s, a);
    var s2 := Next(cfg, s1, b);
    assert From(cfg, s2, [c]) == Next(cfg, s2, c);
    assert From(cfg, s1, [b, c]) == From(cfg, s2, [c]);
  }

  /** A second passes in a burst, and nothing is decided. */
  lemma {:induction false} SecondKeepsBurst(rate: nat, wait: nat, bound: nat, capacity: nat, s: State, k: nat, now: nat)
    requires rate > 0 && wait > 0 && Shaped(Tight(wait, capacity), s)
    requires Bursting(s, rate, wait, bound, k, now)
    ensures Bursting(From(Tight(wait, capacity), s, PassSecond(wait, now)), rate, wait, bound, k, now + SECOND)
  {
    var cfg, m := Tight(wait, capacity), Min(SECOND, wait - 1 - now);
    if m >= 0 {
      EarlySweep(rate, wait, capacity, Next(cfg, s, Pass(m)), k);
      ThreeSteps(cfg, s, Pass(m), Sweep(0), Pass(SECOND - m));
    } else {
      ThreeSteps(cfg, s, Pass(SECOND), Pass(0), Pass(0));
    }
  }

  lemma {:induction false} BurstIsFresh(rate: nat, k: nat, n: nat)
    requires rate > 0 && n <= k
    ensures Lookup(BurstQueue(rate, k)[n..], k).None?
    decreases k - n
  {
    if n < k {
      assert BurstQueue(rate, k)[n..][1..] == BurstQueue(rate, k)[n + 1..];
      BurstIsFresh(rate, k, n + 1);
    }
  }

  /** The first trace of the burst is lost: evicted, undecided, and no span of it came late. */
  ghost predicate Dropped(cfg: Config, s: State)
    requires cfg.Valid() && Shaped(cfg, s)
  {
    0 in s.lost && HeldOf(cfg, s, 0).None? && 0 !in s.decided && 0 !in s.late
  }

  /** Behind the first trace of a burst there is none of its kind. */
  lemma {:induction false} RestIsOthers(rate: nat, k: nat, n: nat)
    requires rate > 0 && 0 < n <= k
    ensures Lookup(BurstQueue(rate, k)[n..], 0).None?
    decreases k - n
  {
    if n < k {
      assert BurstQueue(rate, k)[n..][1..] == BurstQueue(rate, k)[n + 1..];
      RestIsOthers(rate, k, n + 1);
    }
  }

  /** The next trace joins the queue, or pushes the first one out, undecided. */
  lemma {:induction false} ArrivalInBurst(rate: nat, wait: nat, bound: nat, capacity: nat, s: State, k: nat)
    requires rate > 0 && wait > 0 && k <= capacity && Shaped(Tight(wait, capacity), s)
    requires Bursting(s, rate, wait, bound, k, BurstTime(rate, k)) && BurstTime(rate, k) < wait + bound
    ensures var s' := From(Tight(wait, capacity), s, [Arrive(BurstSpan(k))]);
            && s'.slack <= bound && s'.news == [BurstTimes(rate, k + 1)]
            && (k < capacity ==> Bursting(s', rate, wait, bound, k + 1, BurstTime(rate, k)))
            && (k == capacity ==> Dropped(Tight(wait, capacity), s'))
  {
    var cfg, pod := Tight(wait, capacity), BurstQueue(rate, k);
    var a, e := Arrive(BurstSpan(k)), Entry(k, BurstTime(rate, k), [BurstSpan(k)], None);
    assert pod[0..] == pod;
    BurstIsFresh(rate, k, 0);
    RestIsOthers(rate, k + 1, 1);
    assert [a][1..] == [];
    assert Home(cfg, k) == 0;
    assert pod + [e] == BurstQueue(rate, k + 1);
    assert BurstTimes(rate, k) + [BurstTime(rate, k)] == BurstTimes(rate, k + 1);
    assert From(cfg, s, [a]) == Next(cfg, s, a);
  }

  lemma {:induction false} BurstFills(rate: nat, wait: nat, bound: nat, capacity: nat, k: nat)
    requires rate > 0 && wait > 0 && k <= capacity < rate * Seconds(wait + bound)
    ensures var s := Final(Tight(wait, capacity), Burst(rate, wait, k));
            Bursting(s, rate, wait, bound, k, if k == 0 then 0 else BurstTime(rate, k - 1))
  {
    var cfg := Tight(wait, capacity);
    if k == 0 {
      assert BurstQueue(rate, 0) == [] && BurstTimes(rate, 0) == [];
      assert Initial(cfg).pods == [[]] && Initial(cfg).news == [[]] && Initial(cfg).swept == [0];
    } else {
      BurstFills(rate, wait, bound, capacity, k - 1);
      BurstStep(rate, wait, bound, capacity, k - 1);
    }
  }

  lemma {:induction false} BurstStep(rate: nat, wait: nat, bound: nat, capacity: nat, k: nat)
    requires rate > 0 && wait > 0 && k <= capacity < rate * Seconds(wait + bound)
    requires var s := Final(Tight(wait, capacity), Burst(rate, wait, k));
             Bursting(s, rate, wait, bound, k, if k == 0 then 0 else BurstTime(rate, k - 1))
    ensures var s' := Final(Tight(wait, capacity), Burst(rate, wait, k + 1));
            && s'.slack <= bound && s'.news == [BurstTimes(rate, k + 1)]
            && (k < capacity ==> Bursting(s', rate, wait, bound, k + 1, BurstTime(rate, k)))
            && (k == capacity ==> Dropped(Tight(wait, capacity), s'))
  {
    var cfg, tick := Tight(wait, capacity), Tick(rate, wait, k);
    var s := Final(cfg, Burst(rate, wait, k));
    FromAppend(cfg, Initial(cfg), Burst(rate, wait, k), tick);
    FromAppend(cfg, Initial(cfg), Burst(rate, wait, k) + tick, [Arrive(BurstSpan(k))]);
    if k > 0 {
      TickTime(rate, k);
      SecondKeepsBurst(rate, wait, bound, capacity, s, k, BurstTime(rate, k - 1));
    } else {
      Quotient(0, rate, 0, 0);
    }
    BurstIsShort(rate, wait + bound, k);
    ArrivalInBurst(rate, wait, bound, capacity, From(cfg, s, tick), k);
  }

  lemma {:induction false} BurstRate(rate: nat, n: nat, from: int)
    requires rate > 0
    ensures InWindow(BurstTimes(rate, n), from) <= rate
  {
    // The only whole second in the window, if the burst reaches it.
    var second := if from <= 0 then 0 else (from + SECOND - 1) / SECOND;
    var times := BurstTimes(rate, n);
    forall i | 0 <= i < |times| && from <= times[i] < from + SECOND ensures rate * second <= i < rate * second + rate {
      assert i / rate == second;
      assert i == rate * (i / rate) + i % rate;
    }
    WindowWithin(times, from, rate * second, rate * second + rate);
  }

  ghost predicate Sized(cfg: Config, wait: nat, capacity: nat) {
    cfg.Valid() && cfg.wait == wait && cfg.capacity == capacity
  }

  lemma {:induction false} BurstArrivals(rate: nat, wait: nat, k: nat)
    requires rate > 0 && wait > 0
    ensures ForTrace(Arrivals(Burst(rate, wait, k)), 0) == if k == 0 then [] else [BurstSpan(0)]
  {
    if k > 0 {
      var before, tick, a := Burst(rate, wait, k - 1), Tick(rate, wait, k - 1), Arrive(BurstSpan(k - 1));
      BurstArrivals(rate, wait, k - 1);
      ArrivalsAppend(before + tick, [a]);
      ArrivalsAppend(before, tick);
      OneArrival(a);
      TickArrivesNothing(rate, wait, k - 1);
      assert Arrivals(before) + [] == Arrivals(before);
      ForTraceSnoc(Arrivals(before), BurstSpan(k - 1), 0);
      assert [] + [BurstSpan(0)] == [BurstSpan(0)];
    }
  }

  lemma {:induction false} SilentActions(actions: seq<Action>)
    requires forall i :: 0 <= i < |actions| ==> !actions[i].Arrive?
    ensures Arrivals(actions) == []
  {
    if actions != [] {
      SilentActions(actions[1..]);
    }
  }

  lemma {:induction false} TickArrivesNothing(rate: nat, wait: nat, k: nat)
    requires rate > 0 && wait > 0
    ensures Arrivals(Tick(rate, wait, k)) == []
  {
    SilentActions(Tick(rate, wait, k));
  }

  /** The burst's first trace, in error, is not among the exports, although one sampler would have kept it. */
  lemma {:induction false} BurstIsUnstored(rate: nat, wait: nat, bound: nat, capacity: nat)
    requires rate > 0 && wait > 0 && rate * Seconds(wait + bound) > capacity
    ensures var cfg, actions := Tight(wait, capacity), Burst(rate, wait, capacity + 1);
            && Dropped(cfg, Final(cfg, actions))
            && ForTrace(Final(cfg, Drained(cfg, actions)).exported, 0) == []
            && Oracle(cfg.baseline, 0, ForTrace(Arrivals(actions), 0)) == [BurstSpan(0)]
  {
    var cfg, actions := Tight(wait, capacity), Burst(rate, wait, capacity + 1);
    BurstFills(rate, wait, bound, capacity, capacity);
    BurstStep(rate, wait, bound, capacity, capacity);
    LostIsUnstored(cfg, actions, [], 0);
    assert actions + [] == actions;
    BurstArrivals(rate, wait, capacity + 1);
    assert IsFailed([BurstSpan(0)][0]);
  }

  /** A burst at exactly the declared rate, one trace longer than the queue, loses its first trace. */
  lemma {:induction false} BurstLoses(rate: nat, wait: nat, bound: nat, capacity: nat)
    requires wait > 0 && rate * Seconds(wait + bound) > capacity
    ensures rate > 0
    ensures var cfg, actions := Tight(wait, capacity), Burst(rate, wait, capacity + 1);
            && Sized(cfg, wait, capacity) && Conforms(cfg, Final(cfg, actions), rate, bound)
            && 0 in Final(cfg, actions).lost && 0 !in Final(cfg, actions).late
            && ForTrace(Final(cfg, Drained(cfg, actions)).exported, 0) == []
            && Oracle(cfg.baseline, 0, ForTrace(Arrivals(actions), 0)) == [BurstSpan(0)]
  {
    assert rate > 0;
    BurstIsUnstored(rate, wait, bound, capacity);
    BurstFills(rate, wait, bound, capacity, capacity);
    BurstStep(rate, wait, bound, capacity, capacity);
    var times := BurstTimes(rate, capacity + 1);
    forall from ensures InWindow(times, from) <= rate {
      BurstRate(rate, capacity + 1, from);
    }
  }

  /** Once drained, the run has exported of the trace what one sampler that holds all of it would. */
  ghost predicate ExportsAll(cfg: Config, actions: seq<Action>, t: nat)
    requires cfg.Valid()
  {
    ForTrace(Final(cfg, Drained(cfg, actions)).exported, t) == Oracle(cfg.baseline, t, ForTrace(Arrivals(actions), t))
  }

  /**
   * For every decision wait and every bound on the age of the last sweep, a queue of `capacity`
   * traces is safe at `rate` new traces a second, whatever the run, exactly when it holds `rate`
   * traces for every second begun of wait and bound together. Safe means that no trace is evicted
   * undecided, and just as much that every trace is stored as the policies demand.
   */
  lemma {:induction false} CapacityIsExact(rate: nat, wait: nat, bound: nat, capacity: nat)
    requires wait > 0
    ensures (forall cfg: Config, actions: seq<Action> ::
               Sized(cfg, wait, capacity) && Conforms(cfg, Final(cfg, actions), rate, bound) ==> Final(cfg, actions).lost == {})
            <==> rate * Seconds(wait + bound) <= capacity
    ensures (forall cfg: Config, actions: seq<Action>, t: nat ::
               Sized(cfg, wait, capacity) && Conforms(cfg, Final(cfg, actions), rate, bound) && t !in Final(cfg, actions).late ==>
                 ExportsAll(cfg, actions, t))
            <==> rate * Seconds(wait + bound) <= capacity
  {
    if rate * Seconds(wait + bound) <= capacity {
      forall cfg: Config, actions: seq<Action> | Sized(cfg, wait, capacity) && Conforms(cfg, Final(cfg, actions), rate, bound)
        ensures Final(cfg, actions).lost == {}
      {
        StartsFilled(cfg);
        RunLosesNothing(cfg, Initial(cfg), actions, rate, bound);
      }
      forall cfg: Config, actions: seq<Action>, t: nat
        | Sized(cfg, wait, capacity) && Conforms(cfg, Final(cfg, actions), rate, bound) && t !in Final(cfg, actions).late
        ensures ExportsAll(cfg, actions, t)
      {
        PipelineIsExact(cfg, actions, rate, bound, t);
      }
    } else {
      BurstLoses(rate, wait, bound, capacity);
      assert !ExportsAll(Tight(wait, capacity), Burst(rate, wait, capacity + 1), 0);
    }
  }

  // ---------- The two deployments: 500 new traces a second, decisions after 15 seconds ----------

  /** The Helm values leave room for the declared rate until 285 seconds pass between a sweep and an arrival. */
  lemma {:induction false} HelmValuesSuffice(cfg: Config, actions: seq<Action>, bound: nat, t: nat)
    requires Sized(cfg, 15_000, 150_000) && bound <= 285_000
    requires Conforms(cfg, Final(cfg, actions), 500, bound)
    requires t !in Final(cfg, actions).late
    ensures ForTrace(Final(cfg, Drained(cfg, actions)).exported, t) ==
            Oracle(cfg.baseline, t, ForTrace(Arrivals(actions), t))
  {
    SecondsCover(15_000 + bound);
    assert Seconds(15_000 + bound) <= 300;
    PipelineIsExact(cfg, actions, 500, bound, t);
  }

  /** The operator values do not: a run at the declared rate drops an erroneous trace, even if no sweep is ever overdue. */
  lemma {:induction false} OperatorValuesLose()
    ensures exists cfg: Config, actions: seq<Action>, t: nat ::
              && Sized(cfg, 15_000, 2500)
              && Conforms(cfg, Final(cfg, actions), 500, 0)
              && t in Final(cfg, actions).lost && t !in Final(cfg, actions).late
              && HasError(ForTrace(Arrivals(actions), t))
              && ForTrace(Final(cfg, Drained(cfg, actions)).exported, t) == []
  {
    assert Seconds(15_000 + 0) == 15;
    LosesErrors(500, 15_000, 0, 2500);
  }

  lemma {:induction false} LosesErrors(rate: nat, wait: nat, bound: nat, capacity: nat)
    requires wait > 0 && rate * Seconds(wait + bound) > capacity
    ensures exists cfg: Config, actions: seq<Action>, t: nat ::
              && Sized(cfg, wait, capacity) && Conforms(cfg, Final(cfg, actions), rate, bound)
              && t in Final(cfg, actions).lost && t !in Final(cfg, actions).late
              && HasError(ForTrace(Arrivals(actions), t))
              && ForTrace(Final(cfg, Drained(cfg, actions)).exported, t) == []
  {
    BurstLoses(rate, wait, bound, capacity);
    BurstArrivals(rate, wait, capacity + 1);
    var actions := Burst(rate, wait, capacity + 1);
    assert IsFailed(ForTrace(Arrivals(actions), 0)[0]);
  }
}
