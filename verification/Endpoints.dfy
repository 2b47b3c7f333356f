/** From a request to a test endpoint, through the middleware, to what the pipeline stores of it. */
module Endpoints {
  import opened Tracing
  import opened Records
  import opened Rebuild
  import opened Sampling
  import opened Scenarios
  import opened Pipeline
  import opened Exactness
  import opened Capacity
  import opened Front
  import Http
  import Writers
  import Requests

  /** writeJSON: the status, then the encoded body. */
  function Replies(e: Endpoint, json: seq<Http.Byte>): Requests.Handler {
    Requests.Handler.Handler(
      [Http.WriteHeader(if e.Failure? then Http.INTERNAL_SERVER_ERROR else Http.OK), Http.Write(json)], false)
  }

  function Served(e: Endpoint, json: seq<Http.Byte>, debug: bool): Requests.Outcome {
    Requests.Serve(Requests.RouterStack(debug), Replies(e, json), true, Requests.Untouched(false))
  }

  /** Only /failure leaves its server span in error, and the client sees what the handler wrote. */
  lemma {:induction false} ServedReply(e: Endpoint, json: seq<Http.Byte>, debug: bool)
    ensures Http.Received(Served(e, json, debug).calls) ==
            Http.Reply([], if e.Failure? then Http.INTERNAL_SERVER_ERROR else Http.OK, json)
    ensures Served(e, json, debug).trail.errored <==> e.Failure?
  {
    var h := Replies(e, json);
    Requests.RouterServes(h, debug, true, Requests.Untouched(false));
    Requests.AnnotationClasses(h, debug);
    Writers.StackedReply(h.calls);
    assert Http.Body(h.calls) == json by {
      assert h.calls[1..] == [Http.Write(json)] && h.calls[1..][1..] == [];
      assert Http.Body(h.calls[1..]) == json + Http.Body([]);
    }
  }

  /** A request's tree: the server span around the handler's. */
  function RequestTree(env: Env, w: World, e: Endpoint, server: Span): Tree {
    Tree(server, [TreeOf(env, w, server.id, Scenario(e))])
  }

  /** A span opened before the handler's; its parent is none, or a span that the caller opened before. */
  predicate IsServer(server: Span, w: World) {
    0 < server.id < w.next && server.parent < w.next && server.parent != server.id
  }

  /** The server span encloses the handler's run and has the status the middleware gave it. */
  ghost predicate Encloses(env: Env, w: World, e: Endpoint, server: Span, json: seq<Http.Byte>, debug: bool) {
    var root := TreeOf(env, w, server.id, Scenario(e)).span;
    && server.trace == env.trace && IsServer(server, w)
    && server.start <= root.start && root.end <= server.end
    && (server.status.Failed? <==> Served(e, json, debug).trail.errored)
  }

  /** Putting a span around a tree. */
  lemma {:induction false} AroundRoot(server: Span, root: Tree)
    requires Nested(root) && NoTies(root) && Linked(root, server.id)
    requires server.start <= root.span.start && root.span.end <= server.end
    ensures var t := Tree(server, [root]);
            Nested(t) && NoTies(t) && Linked(t, server.parent) && PostOrder(t) == PostOrder(root) + [server]
  {
    var kids := [root];
    assert kids[1..] == [];
    assert PostOrders(kids) == PostOrder(root) by {
      assert PostOrder(root) + [] == PostOrder(root);
    }
    assert InOrder(kids, server.start, server.end);
    assert Heads(kids) == [root.span];
  }

  lemma {:induction false} AroundIds(server: Span, root: Tree)
    requires Distinct(Ids(root)) && server.id !in Ids(root) && server.parent !in Ids(root) && server.parent != server.id
    ensures var t := Tree(server, [root]); server.parent !in Ids(t) && Distinct(Ids(t))
  {
    assert [root][1..] == [];
    assert AllIds([root]) == Ids(root) + [] == Ids(root);
    assert Ids(Tree(server, [root])) == [server.id] + Ids(root);
  }

  lemma {:induction false} RunAroundRoot(env: Env, w: World, n: Node, server: Span)
    requires Separated(Executed(n)) && IsServer(server, w)
    requires var root := TreeOf(env, w, server.id, n).span; server.start <= root.start && root.end <= server.end
    ensures var root := TreeOf(env, w, server.id, n);
            var t := Tree(server, [root]);
            && Nested(t) && NoTies(t) && Linked(t, server.parent) && server.parent !in Ids(t) && Distinct(Ids(t))
            && PostOrder(t) == PostOrder(root) + [server]
            && (HasError(PostOrder(t)) <==> Fails(Executed(n)) || server.status.Failed?)
            && server.Duration() >= Total(Executed(n))
  {
    var root := TreeOf(env, w, server.id, n);
    RunRecords(env, w, server.id, n);
    RunConserves(env, w, server.id, n);
    SeparatedHasNoTies(root, Executed(n));
    AroundRoot(server, root);
    AroundIds(server, root);
    TreeErrors(root, Executed(n));
    HasErrorAppend(PostOrder(root), [server]);
    assert HasError([server]) <==> server.status.Failed? by {
      assert IsFailed([server][0]) == server.status.Failed?;
    }
  }

  lemma {:induction false} DecisionAround(baseline: nat -> bool, env: Env, w: World, n: Node, server: Span)
    requires Separated(Executed(n)) && IsServer(server, w)
    requires var root := TreeOf(env, w, server.id, n).span; server.start <= root.start && root.end <= server.end
    ensures Keep(baseline, env.trace, PostOrder(Tree(server, [TreeOf(env, w, server.id, n)]))) <==>
            (Fails(Executed(n)) || server.status.Failed? || baseline(env.trace)
             || server.Duration() >= 1_000_000_000)
  {
    RunAroundRoot(env, w, n, server);
    TreeSpread(Tree(server, [TreeOf(env, w, server.id, n)]));
  }

  /**
   * The decision on a request: /failure and /latency are always kept; /success and /heavy only by
   * the baseline, or when the request as a whole takes a second although its sleeps do not.
   */
  lemma {:induction false} RequestDecision(baseline: nat -> bool, env: Env, w: World, e: Endpoint, server: Span,
                                           json: seq<Http.Byte>, debug: bool)
    requires Encloses(env, w, e, server, json, debug)
    ensures Keep(baseline, env.trace, PostOrder(RequestTree(env, w, e, server))) <==>
            (e.Failure? || e.Latency? || baseline(env.trace) || server.Duration() >= 1_000_000_000)
    ensures server.Duration() >= Millis(SleepMs(e))
  {
    ScenarioFacts(e);
    ServedReply(e, json, debug);
    RunAroundRoot(env, w, Scenario(e), server);
    DecisionAround(baseline, env, w, Scenario(e), server);
  }

  /** The handler's spans alone, without a server span: kept by overshoot only if it fills the gap to the threshold. */
  lemma {:induction false} ScenarioDecision(baseline: nat -> bool, env: Env, w: World, parent: nat, e: Endpoint)
    ensures var n := Scenario(e);
            var overshoot := Overshoot(env, w.tick + 1, Run(env, w, parent, n).0.tick);
            Keep(baseline, env.trace, PostOrder(TreeOf(env, w, parent, n))) <==>
            (e.Failure? || e.Latency? || baseline(env.trace) || overshoot >= 1_000_000_000 - Millis(SleepMs(e)))
  {
    Decision(baseline, env, w, parent, Scenario(e));
    ScenarioFacts(e);
  }

  /** The spans of a request rebuild its tree, in whatever order they arrived. */
  lemma {:induction false} RequestIsRebuilt(env: Env, w: World, e: Endpoint, server: Span, arrived: seq<Span>)
    requires IsServer(server, w) && multiset(arrived) == multiset(PostOrder(RequestTree(env, w, e, server)))
    requires var root := TreeOf(env, w, server.id, Scenario(e)).span; server.start <= root.start && root.end <= server.end
    ensures Reconstruct(arrived, server.parent) == [RequestTree(env, w, e, server)]
  {
    ScenarioFacts(e);
    RunAroundRoot(env, w, Scenario(e), server);
    Reconstruction(RequestTree(env, w, e, server), server.parent);
  }

  /**
   * End to end: a request whose spans travel through any agents, in any order, at a rate the queues
   * can hold and all of them before the decision, is stored exactly when the policies call for it;
   * and what is then stored rebuilds the request's tree.
   */
  lemma {:induction false} StoredRequest(cfg: Config, agents: nat, hops: seq<Hop>, rate: nat, bound: nat,
                                         env: Env, w: World, e: Endpoint, server: Span, json: seq<Http.Byte>, debug: bool)
    requires cfg.Valid() && rate * Seconds(cfg.wait + bound) <= cfg.capacity
    requires var s := Final(cfg, Delivered(Idle(agents), hops));
             Conforms(cfg, s, rate, bound) && env.trace !in s.late
    requires ForTrace(Held(Left(Idle(agents), hops)), env.trace) == []
    requires Encloses(env, w, e, server, json, debug)
    requires multiset(ForTrace(Sent(agents, hops), env.trace)) == multiset(PostOrder(RequestTree(env, w, e, server)))
    ensures var stored := ForTrace(Final(cfg, Drained(cfg, Delivered(Idle(agents), hops))).exported, env.trace);
            if e.Failure? || e.Latency? || cfg.baseline(env.trace) || server.Duration() >= 1_000_000_000
            then Reconstruct(stored, server.parent) == [RequestTree(env, w, e, server)]
            else stored == []
  {
    var t, actions := RequestTree(env, w, e, server), Delivered(Idle(agents), hops);
    var whole := ForTrace(Arrivals(actions), env.trace);
    TraceArrives(agents, hops, env.trace);
    PipelineIsExact(cfg, actions, rate, bound, env.trace);
    KeepIsOrderFree(cfg.baseline, env.trace, whole, PostOrder(t));
    RequestDecision(cfg.baseline, env, w, e, server, json, debug);
    RequestIsRebuilt(env, w, e, server, whole);
  }
}
