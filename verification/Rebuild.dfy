/** Rebuilding a trace tree from the flat collection of its finished spans. */
module Rebuild {
  import opened Options
  import opened Tracing
  import opened Records
  import opened Brackets

  function Siblings(spans: seq<Span>, parent: nat): seq<Span> {
    if spans == [] then []
    else if spans[0].parent == parent then [spans[0]] + Siblings(spans[1..], parent)
    else Siblings(spans[1..], parent)
  }

  /** The order of siblings: by start, and by end where two start together. */
  predicate NotAfter(a: Span, b: Span) {
    a.start < b.start || (a.start == b.start && a.end <= b.end)
  }

  predicate Before(a: Span, b: Span) {
    a.start < b.start || (a.start == b.start && a.end < b.end)
  }

  function Insert(span: Span, sorted: seq<Span>): seq<Span> {
    if sorted == [] || NotAfter(span, sorted[0]) then [span] + sorted
    else [sorted[0]] + Insert(span, sorted[1..])
  }

  /** Stable sort by start, then end. */
  function ByTime(spans: seq<Span>): seq<Span> {
    if spans == [] then [] else Insert(spans[0], ByTime(spans[1..]))
  }

  /** The tree below a span; `fuel` only bounds the depth, for collections that are no tree. */
  function Below(spans: seq<Span>, root: Span, fuel: nat): Tree
    decreases fuel, 0
  {
    Tree(root, if fuel == 0 then [] else AllBelow(spans, ByTime(Siblings(spans, root.id)), fuel - 1))
  }

  function AllBelow(spans: seq<Span>, roots: seq<Span>, fuel: nat): seq<Tree>
    decreases fuel, 1, |roots|
  {
    if roots == [] then [] else [Below(spans, roots[0], fuel)] + AllBelow(spans, roots[1..], fuel)
  }

  /** Rebuild whatever hangs below `parent`, from spans in any order. */
  function Reconstruct(spans: seq<Span>, parent: nat): seq<Tree> {
    AllBelow(spans, ByTime(Siblings(spans, parent)), |spans|)
  }

  function Heads(ts: seq<Tree>): seq<Span> {
    if ts == [] then [] else [ts[0].span] + Heads(ts[1..])
  }

  // ---------- When reconstruction succeeds, node by node ----------

  ghost predicate Faithful(spans: seq<Span>, t: Tree) {
    ByTime(Siblings(spans, t.span.id)) == Heads(t.kids) && AllFaithful(spans, t.kids)
  }

  ghost predicate AllFaithful(spans: seq<Span>, ts: seq<Tree>) {
    ts == [] || (Faithful(spans, ts[0]) && AllFaithful(spans, ts[1..]))
  }

  function Height(t: Tree): nat {
    AllHeight(t.kids)
  }

  function AllHeight(ts: seq<Tree>): nat {
    if ts == [] then 0 else Max(1 + Height(ts[0]), AllHeight(ts[1..]))
  }

  lemma {:induction false} HeightBound(t: Tree)
    ensures Height(t) < |PostOrder(t)|
    decreases t
  {
    AllHeightBound(t.kids);
  }

  lemma {:induction false} AllHeightBound(ts: seq<Tree>)
    ensures AllHeight(ts) <= |PostOrders(ts)|
    decreases ts
  {
    if ts != [] {
      HeightBound(ts[0]);
      AllHeightBound(ts[1..]);
    }
  }

  lemma {:induction false} BelowIffFaithful(spans: seq<Span>, t: Tree, fuel: nat)
    requires Height(t) < fuel
    ensures Below(spans, t.span, fuel) == t <==> Faithful(spans, t)
    decreases t
  {
    AllBelowIffFaithful(spans, ByTime(Siblings(spans, t.span.id)), t.kids, fuel - 1);
  }

  lemma {:induction false} AllBelowIffFaithful(spans: seq<Span>, roots: seq<Span>, ts: seq<Tree>, fuel: nat)
    requires AllHeight(ts) <= fuel
    ensures AllBelow(spans, roots, fuel) == ts <==> roots == Heads(ts) && AllFaithful(spans, ts)
    decreases ts
  {
    if ts != [] && roots != [] {
      assert ts == [ts[0]] + ts[1..] && roots == [roots[0]] + roots[1..];
      BelowIffFaithful(spans, ts[0], fuel);
      AllBelowIffFaithful(spans, roots[1..], ts[1..], fuel);
      assert Heads(ts)[1..] == Heads(ts[1..]);
      assert AllBelow(spans, roots, fuel)[1..] == AllBelow(spans, roots[1..], fuel);
      assert AllBelow(spans, roots, fuel)[0] == Below(spans, roots[0], fuel);
    }
  }

  // ---------- The spans below each node of an exported tree ----------

  lemma {:induction false} SiblingsAppend(a: seq<Span>, b: seq<Span>, parent: nat)
    ensures Siblings(a + b, parent) == Siblings(a, parent) + Siblings(b, parent)
  {
    if a == [] {
      assert a + b == b;
    } else {
      assert (a + b)[1..] == a[1..] + b;
      SiblingsAppend(a[1..], b, parent);
      if a[0].parent == parent {
        assert Siblings(a + b, parent) == [a[0]] + (Siblings(a[1..], parent) + Siblings(b, parent));
      }
    }
  }

  lemma {:induction false} NoSiblings(spans: seq<Span>, parent: nat)
    requires forall i :: 0 <= i < |spans| ==> spans[i].parent != parent
    ensures Siblings(spans, parent) == []
  {
    if spans != [] {
      NoSiblings(spans[1..], parent);
    }
  }

  /** Every parent named in a linked tree is one of its own spans, or the parent of its root. */
  lemma {:induction false} ParentsInside(t: Tree, parent: nat, i: nat)
    requires Linked(t, parent) && i < |PostOrder(t)|
    ensures PostOrder(t)[i].parent == parent || PostOrder(t)[i].parent in Ids(t)
    decreases t
  {
    if i < |PostOrders(t.kids)| {
      AllParentsInside(t.kids, t.span.id, i);
    }
  }

  lemma {:induction false} AllParentsInside(ts: seq<Tree>, parent: nat, i: nat)
    requires AllLinked(ts, parent) && i < |PostOrders(ts)|
    ensures PostOrders(ts)[i].parent == parent || PostOrders(ts)[i].parent in AllIds(ts)
    decreases ts
  {
    var first := PostOrder(ts[0]);
    if i < |first| {
      ParentsInside(ts[0], parent, i);
    } else {
      AllParentsInside(ts[1..], parent, i - |first|);
    }
  }

  predicate Distinct(ids: seq<nat>) {
    forall i, j :: 0 <= i < j < |ids| ==> ids[i] != ids[j]
  }

  lemma {:induction false} DistinctParts(a: seq<nat>, b: seq<nat>)
    requires Distinct(a + b)
    ensures Distinct(a) && Distinct(b) && forall x :: x in a ==> x !in b
  {
    var whole := a + b;
    forall i, j | 0 <= i < j < |b| ensures b[i] != b[j] {
      assert whole[|a| + i] == b[i] && whole[|a| + j] == b[j];
    }
    forall i, j | 0 <= i < j < |a| ensures a[i] != a[j] {
      assert whole[i] == a[i] && whole[j] == a[j];
    }
    forall i, j | 0 <= i < |a| && 0 <= j < |b| ensures a[i] != b[j] {
      assert whole[i] == a[i] && whole[|a| + j] == b[j];
    }
  }

  /** The roots of a forest are the only spans in it that name the forest's parent. */
  lemma {:induction false} RootsAreSiblings(ts: seq<Tree>, parent: nat)
    requires AllLinked(ts, parent) && parent !in AllIds(ts)
    ensures Siblings(PostOrders(ts), parent) == Heads(ts)
    decreases ts
  {
    if ts != [] {
      var t := ts[0];
      var below := PostOrders(t.kids);
      forall i | 0 <= i < |below| ensures below[i].parent != parent {
        AllParentsInside(t.kids, t.span.id, i);
      }
      NoSiblings(below, parent);
      SiblingsAppend(below, [t.span], parent);
      assert [t.span][1..] == [];
      assert Siblings([t.span], parent) == [t.span];
      assert Siblings(PostOrder(t), parent) == [t.span];
      SiblingsAppend(PostOrder(t), PostOrders(ts[1..]), parent);
      RootsAreSiblings(ts[1..], parent);
    }
  }

  /** Spans outside a subtree that do not hang below it. */
  ghost predicate Apart(spans: seq<Span>, ids: seq<nat>) {
    forall i :: 0 <= i < |spans| ==> spans[i].parent !in ids
  }

  /** At each node of the tree, the flat log lists exactly the node's children, in order. */
  ghost predicate Listed(spans: seq<Span>, t: Tree) {
    Siblings(spans, t.span.id) == Heads(t.kids) && AllListed(spans, t.kids)
  }

  ghost predicate AllListed(spans: seq<Span>, ts: seq<Tree>) {
    ts == [] || (Listed(spans, ts[0]) && AllListed(spans, ts[1..]))
  }

  lemma {:induction false} ForestIsListed(pre: seq<Span>, ts: seq<Tree>, post: seq<Span>, parent: nat)
    requires AllLinked(ts, parent) && parent !in AllIds(ts) && Distinct(AllIds(ts))
    requires Apart(pre, AllIds(ts)) && Apart(post, AllIds(ts))
    ensures AllListed(pre + PostOrders(ts) + post, ts)
    decreases ts
  {
    if ts != [] {
      var t, rest := ts[0], PostOrders(ts[1..]);
      DistinctParts(Ids(t), AllIds(ts[1..]));
      assert PostOrders(ts) == PostOrder(t) + rest;
      assert Apart(rest + post, Ids(t)) by {
        forall i | 0 <= i < |rest| ensures rest[i].parent !in Ids(t) {
          AllParentsInside(ts[1..], parent, i);
        }
      }
      assert Apart(pre + PostOrder(t), AllIds(ts[1..])) by {
        forall i | 0 <= i < |PostOrder(t)| ensures PostOrder(t)[i].parent !in AllIds(ts[1..]) {
          ParentsInside(t, parent, i);
        }
      }
      TreeIsListed(pre, t, rest + post, parent);
      ForestIsListed(pre + PostOrder(t), ts[1..], post, parent);
      Regroup(pre, PostOrder(t), rest, post);
    }
  }

  lemma {:induction false} Regroup(a: seq<Span>, b: seq<Span>, c: seq<Span>, d: seq<Span>)
    ensures a + b + (c + d) == a + (b + c) + d && (a + b) + c + d == a + (b + c) + d
  {
  }

  lemma {:induction false} TreeIsListed(pre: seq<Span>, t: Tree, post: seq<Span>, parent: nat)
    requires Linked(t, parent) && parent !in Ids(t) && Distinct(Ids(t))
    requires Apart(pre, Ids(t)) && Apart(post, Ids(t))
    ensures Listed(pre + PostOrder(t) + post, t)
    decreases t
  {
    var id, kids := t.span.id, t.kids;
    DistinctParts([id], AllIds(kids));
    assert id in Ids(t);
    var tail := [t.span] + post;
    assert pre + PostOrder(t) + post == pre + PostOrders(kids) + tail;
    ForestIsListed(pre, kids, tail, id);
    RootsAreSiblings(kids, id);
    NoSiblings(pre, id);
    NoSiblings(tail, id);
    SiblingsAppend(pre, PostOrders(kids), id);
    SiblingsAppend(pre + PostOrders(kids), tail, id);
  }

  // ---------- Sorting siblings ----------

  predicate Ascending(spans: seq<Span>) {
    forall i, j :: 0 <= i < j < |spans| ==> NotAfter(spans[i], spans[j])
  }

  predicate StrictlyAscending(spans: seq<Span>) {
    forall i, j :: 0 <= i < j < |spans| ==> Before(spans[i], spans[j])
  }

  lemma {:induction false} TailElements(spans: seq<Span>)
    requires spans != []
    ensures multiset(spans[1..]) == multiset(spans) - multiset{spans[0]}
  {
    assert spans == [spans[0]] + spans[1..];
  }

  lemma {:induction false} InsertSorts(span: Span, sorted: seq<Span>)
    requires Ascending(sorted)
    ensures Ascending(Insert(span, sorted))
  {
    if sorted != [] && !NotAfter(span, sorted[0]) {
      InsertSorts(span, sorted[1..]);
      LeastStaysLeast(span, sorted[1..], sorted[0]);
    }
  }

  lemma {:induction false} InsertAdds(span: Span, sorted: seq<Span>)
    ensures multiset(Insert(span, sorted)) == multiset{span} + multiset(sorted)
  {
    if sorted != [] && !NotAfter(span, sorted[0]) {
      InsertAdds(span, sorted[1..]);
      TailElements(sorted);
    }
  }

  lemma {:induction false} LeastStaysLeast(span: Span, sorted: seq<Span>, least: Span)
    requires NotAfter(least, span) && forall i :: 0 <= i < |sorted| ==> NotAfter(least, sorted[i])
    ensures forall i :: 0 <= i < |Insert(span, sorted)| ==> NotAfter(least, Insert(span, sorted)[i])
  {
    if sorted != [] && !NotAfter(span, sorted[0]) {
      LeastStaysLeast(span, sorted[1..], least);
    }
  }

  lemma {:induction false} ByTimeSorts(spans: seq<Span>)
    ensures Ascending(ByTime(spans)) && multiset(ByTime(spans)) == multiset(spans)
  {
    if spans != [] {
      assert spans == [spans[0]] + spans[1..];
      ByTimeSorts(spans[1..]);
      InsertSorts(spans[0], ByTime(spans[1..]));
      InsertAdds(spans[0], ByTime(spans[1..]));
    }
  }

  /** A strictly ascending sequence is the only ascending arrangement of its elements. */
  lemma {:induction false} OnlyArrangement(a: seq<Span>, b: seq<Span>)
    requires StrictlyAscending(a) && Ascending(b) && multiset(a) == multiset(b)
    ensures a == b
  {
    if a == [] {
      assert |multiset(b)| == 0;
    } else {
      assert |multiset(a)| == |multiset(b)|;
      SameFirst(a, b);
      TailElements(a);
      TailElements(b);
      OnlyArrangement(a[1..], b[1..]);
      assert a == [a[0]] + a[1..] && b == [b[0]] + b[1..];
    }
  }

  lemma {:induction false} SameFirst(a: seq<Span>, b: seq<Span>)
    requires a != [] && b != [] && StrictlyAscending(a) && Ascending(b) && multiset(a) == multiset(b)
    ensures a[0] == b[0]
  {
    assert b[0] in multiset(a) && a[0] in multiset(b);
    assert forall k :: 0 < k < |a| ==> Before(a[0], a[k]);
    var i :| 0 <= i < |a| && a[i] == b[0];
    var j :| 0 <= j < |b| && b[j] == a[0];
    assert j > 0 ==> NotAfter(b[0], b[j]);
  }

  lemma {:induction false} SiblingsCount(spans: seq<Span>, parent: nat, x: Span)
    ensures multiset(Siblings(spans, parent))[x] == if x.parent == parent then multiset(spans)[x] else 0
  {
    if spans != [] {
      assert spans == [spans[0]] + spans[1..];
      SiblingsCount(spans[1..], parent, x);
    }
  }

  lemma {:induction false} SiblingsOfPermutation(a: seq<Span>, b: seq<Span>, parent: nat)
    requires multiset(a) == multiset(b)
    ensures multiset(Siblings(a, parent)) == multiset(Siblings(b, parent))
  {
    forall x: Span ensures multiset(Siblings(a, parent))[x] == multiset(Siblings(b, parent))[x] {
      SiblingsCount(a, parent, x);
      SiblingsCount(b, parent, x);
    }
  }

  // ---------- Sufficiency: strictly ascending siblings ----------

  /** No two siblings anywhere in the tree share both their start and their end. */
  predicate NoTies(t: Tree) {
    StrictlyAscending(Heads(t.kids)) && AllNoTies(t.kids)
  }

  predicate AllNoTies(ts: seq<Tree>) {
    ts == [] || (NoTies(ts[0]) && AllNoTies(ts[1..]))
  }

  lemma {:induction false} NoTiesIsFaithful(log: seq<Span>, arrived: seq<Span>, t: Tree)
    requires Listed(log, t) && NoTies(t) && multiset(arrived) == multiset(log)
    ensures Faithful(arrived, t)
    decreases t
  {
    SiblingsOfPermutation(arrived, log, t.span.id);
    ByTimeSorts(Siblings(arrived, t.span.id));
    OnlyArrangement(Heads(t.kids), ByTime(Siblings(arrived, t.span.id)));
    AllNoTiesAreFaithful(log, arrived, t.kids);
  }

  lemma {:induction false} AllNoTiesAreFaithful(log: seq<Span>, arrived: seq<Span>, ts: seq<Tree>)
    requires AllListed(log, ts) && AllNoTies(ts) && multiset(arrived) == multiset(log)
    ensures AllFaithful(arrived, ts)
    decreases ts
  {
    if ts != [] {
      NoTiesIsFaithful(log, arrived, ts[0]);
      AllNoTiesAreFaithful(log, arrived, ts[1..]);
    }
  }

  // ---------- Necessity: a tie makes some arrival order mislead ----------

  function Reversed(spans: seq<Span>): seq<Span> {
    if spans == [] then [] else Reversed(spans[1..]) + [spans[0]]
  }

  predicate IsAt(span: Span, start: int, end: int) {
    span.start == start && span.end == end
  }

  function At(spans: seq<Span>, start: int, end: int): seq<Span> {
    if spans == [] then []
    else if IsAt(spans[0], start, end) then [spans[0]] + At(spans[1..], start, end)
    else At(spans[1..], start, end)
  }

  lemma {:induction false} AtAppend(a: seq<Span>, b: seq<Span>, start: int, end: int)
    ensures At(a + b, start, end) == At(a, start, end) + At(b, start, end)
  {
    if a == [] {
      assert a + b == b;
    } else {
      assert (a + b)[1..] == a[1..] + b;
      AtAppend(a[1..], b, start, end);
      if IsAt(a[0], start, end) {
        assert At(a + b, start, end) == [a[0]] + (At(a[1..], start, end) + At(b, start, end));
      }
    }
  }

  lemma {:induction false} AtFirst(first: Span, rest: seq<Span>, start: int, end: int)
    ensures At([first] + rest, start, end) == (if IsAt(first, start, end) then [first] else []) + At(rest, start, end)
  {
    assert ([first] + rest)[1..] == rest;
    assert [] + At(rest, start, end) == At(rest, start, end);
  }

  lemma {:induction false} InsertIsStable(span: Span, sorted: seq<Span>, start: int, end: int)
    ensures At(Insert(span, sorted), start, end) == (if IsAt(span, start, end) then [span] else []) + At(sorted, start, end)
  {
    if sorted == [] || NotAfter(span, sorted[0]) {
      AtFirst(span, sorted, start, end);
    } else {
      InsertIsStable(span, sorted[1..], start, end);
      AtFirst(sorted[0], Insert(span, sorted[1..]), start, end);
      AtFirst(sorted[0], sorted[1..], start, end);
      assert [sorted[0]] + sorted[1..] == sorted;
    }
  }

  /** Sorting keeps spans of equal start and end in arrival order. */
  lemma {:induction false} ByTimeIsStable(spans: seq<Span>, start: int, end: int)
    ensures At(ByTime(spans), start, end) == At(spans, start, end)
  {
    if spans != [] {
      ByTimeIsStable(spans[1..], start, end);
      InsertIsStable(spans[0], ByTime(spans[1..]), start, end);
      AtFirst(spans[0], spans[1..], start, end);
      assert [spans[0]] + spans[1..] == spans;
    }
  }

  lemma {:induction false} ReversedSiblings(spans: seq<Span>, parent: nat)
    ensures Siblings(Reversed(spans), parent) == Reversed(Siblings(spans, parent))
  {
    if spans != [] {
      ReversedSiblings(spans[1..], parent);
      SiblingsAppend(Reversed(spans[1..]), [spans[0]], parent);
      var rest := Siblings(spans[1..], parent);
      assert [spans[0]][1..] == [] && ([spans[0]] + rest)[1..] == rest;
      assert [] + rest == rest && Reversed(rest) + [] == Reversed(rest);
    }
  }

  lemma {:induction false} ReversedAt(spans: seq<Span>, start: int, end: int)
    ensures At(Reversed(spans), start, end) == Reversed(At(spans, start, end))
  {
    if spans != [] {
      ReversedAt(spans[1..], start, end);
      AtAppend(Reversed(spans[1..]), [spans[0]], start, end);
      var rest := At(spans[1..], start, end);
      assert [spans[0]][1..] == [] && ([spans[0]] + rest)[1..] == rest;
      assert [] + rest == rest && Reversed(rest) + [] == Reversed(rest);
    }
  }

  lemma {:induction false} ReversedIsPermutation(spans: seq<Span>)
    ensures multiset(Reversed(spans)) == multiset(spans) && |Reversed(spans)| == |spans|
    ensures spans != [] ==> Reversed(spans)[0] == spans[|spans| - 1]
  {
    if spans != [] {
      assert spans == [spans[0]] + spans[1..];
      ReversedIsPermutation(spans[1..]);
    }
  }

  lemma {:induction false} AtHas(spans: seq<Span>, start: int, end: int, x: Span)
    ensures multiset(At(spans, start, end))[x] == if IsAt(x, start, end) then multiset(spans)[x] else 0
  {
    if spans != [] {
      assert spans == [spans[0]] + spans[1..];
      AtHas(spans[1..], start, end, x);
    }
  }

  /** If both arrival orders sort to the same ascending siblings, no two of them tie. */
  lemma {:induction false} BothOrdersAgree(kids: seq<Span>, i: nat, j: nat)
    requires ByTime(kids) == kids && ByTime(Reversed(kids)) == kids
    requires i < j < |kids| && forall x :: multiset(kids)[x] <= 1
    ensures Before(kids[i], kids[j])
  {
    ByTimeSorts(kids);
    assert NotAfter(kids[i], kids[j]);
    var start, end := kids[i].start, kids[i].end;
    if IsAt(kids[j], start, end) {
      var tied := At(kids, start, end);
      ByTimeIsStable(kids, start, end);
      ByTimeIsStable(Reversed(kids), start, end);
      ReversedAt(kids, start, end);
      AtHas(kids, start, end, kids[i]);
      AtHas(kids, start, end, kids[j]);
      assert kids[i] in multiset(kids) && kids[j] in multiset(kids);
      assert kids[i] in tied && kids[j] in tied;
      if kids[i] == kids[j] {
        Twice(kids, i, j);
      } else {
        ReversedRepeats(tied, kids[i], kids[j]);
        AtHas(kids, start, end, tied[0]);
      }
    }
  }

  /** A sequence of two or more elements that equals its reversal repeats one of them. */
  lemma {:induction false} ReversedRepeats(tied: seq<Span>, x: Span, y: Span)
    requires Reversed(tied) == tied && x in tied && y in tied && x != y
    ensures tied != [] && multiset(tied)[tied[0]] >= 2
  {
    ReversedIsPermutation(tied);
    assert |tied| >= 2;
    assert tied[0] == tied[|tied| - 1];
    Twice(tied, 0, |tied| - 1);
  }

  lemma {:induction false} FaithfulBothWays(log: seq<Span>, t: Tree)
    requires Listed(log, t) && Faithful(log, t) && Faithful(Reversed(log), t)
    requires forall x :: multiset(log)[x] <= 1
    ensures NoTies(t)
    decreases t
  {
    var kids, id := Heads(t.kids), t.span.id;
    ReversedSiblings(log, id);
    forall x ensures multiset(kids)[x] <= 1 {
      SiblingsCount(log, id, x);
    }
    forall i, j | 0 <= i < j < |kids| ensures Before(kids[i], kids[j]) {
      BothOrdersAgree(kids, i, j);
    }
    AllFaithfulBothWays(log, t.kids);
  }

  lemma {:induction false} AllFaithfulBothWays(log: seq<Span>, ts: seq<Tree>)
    requires AllListed(log, ts) && AllFaithful(log, ts) && AllFaithful(Reversed(log), ts)
    requires forall x :: multiset(log)[x] <= 1
    ensures AllNoTies(ts)
    decreases ts
  {
    if ts != [] {
      FaithfulBothWays(log, ts[0]);
      AllFaithfulBothWays(log, ts[1..]);
    }
  }

  // ---------- The theorem ----------

  lemma {:induction false} ExportedIsListed(t: Tree, parent: nat)
    requires Linked(t, parent) && parent !in Ids(t) && Distinct(Ids(t))
    ensures Listed(PostOrder(t), t) && Siblings(PostOrder(t), parent) == [t.span]
  {
    var log := PostOrder(t);
    TreeIsListed([], t, [], parent);
    assert [] + log + [] == log;
    assert [t][1..] == [] && AllIds([t]) == Ids(t) && PostOrders([t]) == log;
    RootsAreSiblings([t], parent);
    assert Heads([t]) == [t.span];
  }

  lemma {:induction false} ExportedOnce(t: Tree)
    requires Distinct(Ids(t))
    ensures forall x :: multiset(PostOrder(t))[x] <= 1
  {
    var log, ids := PostOrder(t), SpanIds(PostOrder(t));
    SameIds(t);
    forall i, j | 0 <= i < j < |log| ensures log[i] != log[j] {
      Once(Ids(t), ids[i]);
      if ids[i] == ids[j] {
        Twice(ids, i, j);
      }
    }
    forall x ensures multiset(log)[x] <= 1 {
      Once(log, x);
    }
  }

  /** One arrival order: the rebuilt forest is the tree exactly when every node is faithful. */
  lemma {:induction false} ReconstructIffFaithful(t: Tree, parent: nat, arrived: seq<Span>)
    requires Linked(t, parent) && parent !in Ids(t) && Distinct(Ids(t))
    requires multiset(arrived) == multiset(PostOrder(t))
    ensures Reconstruct(arrived, parent) == [t] <==> Faithful(arrived, t)
  {
    ExportedIsListed(t, parent);
    var roots := Siblings(arrived, parent);
    SiblingsOfPermutation(arrived, PostOrder(t), parent);
    ByTimeSorts(roots);
    OnlyArrangement([t.span], ByTime(roots));
    assert |multiset(arrived)| == |multiset(PostOrder(t))|;
    HeightBound(t);
    assert [t][1..] == [] && Heads([t]) == [t.span];
    AllBelowIffFaithful(arrived, [t.span], [t], |arrived|);
  }

  /**
   * The flat collection of finished spans determines the tree in every arrival order, exactly when
   * no two siblings share both their start and their end.
   */
  lemma {:induction false} Reconstruction(t: Tree, parent: nat)
    requires Linked(t, parent) && parent !in Ids(t) && Distinct(Ids(t))
    ensures (forall arrived: seq<Span> :: multiset(arrived) == multiset(PostOrder(t)) ==> Reconstruct(arrived, parent) == [t])
            <==> NoTies(t)
  {
    var log := PostOrder(t);
    ExportedIsListed(t, parent);
    if NoTies(t) {
      forall arrived: seq<Span> | multiset(arrived) == multiset(log) ensures Reconstruct(arrived, parent) == [t] {
        NoTiesIsFaithful(log, arrived, t);
        ReconstructIffFaithful(t, parent, arrived);
      }
    }
    if forall arrived: seq<Span> :: multiset(arrived) == multiset(log) ==> Reconstruct(arrived, parent) == [t] {
      ReversedIsPermutation(log);
      assert Reconstruct(log, parent) == [t] && Reconstruct(Reversed(log), parent) == [t];
      ReconstructIffFaithful(t, parent, log);
      ReconstructIffFaithful(t, parent, Reversed(log));
      ExportedOnce(t);
      FaithfulBothWays(log, t);
    }
  }

  // ---------- Executed scenarios ----------

  /** Of any two calls that follow each other in one callback, one sleeps, itself or further inside. */
  predicate Separated(s: Shape) {
    AllSeparated(s.kids)
  }

  predicate AllSeparated(ss: seq<Shape>) {
    ss == [] || (Separated(ss[0]) && Apace(ss) && AllSeparated(ss[1..]))
  }

  predicate Apace(ss: seq<Shape>)
    requires ss != []
  {
    |ss| == 1 || Total(ss[0]) > 0 || Total(ss[1]) > 0
  }

  lemma {:induction false} LastsItsTotal(t: Tree, s: Shape)
    requires Records.Records(t, s)
    ensures t.span.Duration() >= Total(s)
    decreases t
  {
    LastTheirTotals(t.kids, s.kids);
  }

  lemma {:induction false} LastTheirTotals(ts: seq<Tree>, ss: seq<Shape>)
    requires RecordAll(ts, ss)
    ensures Durations(ts) >= Totals(ss)
    decreases ts
  {
    if ts != [] {
      LastsItsTotal(ts[0], ss[0]);
      LastTheirTotals(ts[1..], ss[1..]);
    }
  }

  /** Whatever the clock, a separated scenario records no ties. */
  lemma {:induction false} SeparatedHasNoTies(t: Tree, s: Shape)
    requires Nested(t) && Records.Records(t, s) && Separated(s)
    ensures NoTies(t)
    decreases t
  {
    AllSeparatedHaveNoTies(t.kids, s.kids, t.span.start, t.span.end);
  }

  lemma {:induction false} AllSeparatedHaveNoTies(ts: seq<Tree>, ss: seq<Shape>, lo: int, hi: int)
    requires InOrder(ts, lo, hi) && RecordAll(ts, ss) && AllSeparated(ss)
    ensures StrictlyAscending(Heads(ts)) && AllNoTies(ts)
    decreases ts
  {
    if ts != [] {
      var rest := ts[1..];
      SeparatedHasNoTies(ts[0], ss[0]);
      AllSeparatedHaveNoTies(rest, ss[1..], ts[0].span.end, hi);
      if rest != [] {
        LastsItsTotal(ts[0], ss[0]);
        LastsItsTotal(rest[0], ss[1..][0]);
        assert Before(ts[0].span, rest[0].span);
        Leads(ts[0].span, Heads(rest));
      }
      assert Heads(ts) == [ts[0].span] + Heads(rest);
    }
  }

  lemma {:induction false} Leads(first: Span, rest: seq<Span>)
    requires rest != [] && StrictlyAscending(rest) && Before(first, rest[0])
    ensures StrictlyAscending([first] + rest)
  {
    var all := [first] + rest;
    forall i, j | 0 <= i < j < |all| ensures Before(all[i], all[j]) {
      assert j > 1 ==> Before(rest[0], rest[j - 1]);
      assert i > 0 ==> Before(rest[i - 1], rest[j - 1]);
    }
  }

  // ---------- A clock that ties whatever can tie ----------

  const IDEAL := Env(1, 0, (tick: nat) => 0)

  /** Siblings without a pause between them, each as long as its calls sleep. */
  predicate Packed(t: Tree, s: Shape) {
    t.span.Duration() == Total(s) && AllPacked(t.kids, s.kids, t.span.start + s.asked)
  }

  predicate AllPacked(ts: seq<Tree>, ss: seq<Shape>, start: int) {
    |ts| == |ss| &&
    (ts != [] ==> ts[0].span.start == start && Packed(ts[0], ss[0]) && AllPacked(ts[1..], ss[1..], ts[0].span.end))
  }

  lemma {:induction false} RunIsPacked(w: World, parent: nat, n: Node)
    ensures var t := TreeOf(IDEAL, w, parent, n);
            t.span.start == w.now && t.span.end == Run(IDEAL, w, parent, n).0.now && Packed(t, Executed(n))
    decreases n
  {
    RunConserves(IDEAL, w, parent, n);
    IdealOvershoot(IDEAL, w.tick + 1, Run(IDEAL, w, parent, n).0.tick);
    if n.fn.Some? {
      StepsArePacked(Entered(IDEAL, w, parent, n), w.next, n.fn.value);
    }
  }

  lemma {:induction false} StepsArePacked(w: World, id: nat, f: Callback)
    ensures AllPacked(ForestOf(IDEAL, w, id, f), ExecutedSteps(f), w.now)
    decreases f.steps
  {
    match f.steps
    case Done =>
    case Emit(level, text, rest) => StepsArePacked(Say(IDEAL, w, id, level, Text(level, text)), id, f.(steps := rest));
    case Call(call, _, _) =>
      var next := Resume(f, Outcome(call));
      RunIsPacked(w, id, call);
      if next.Some? {
        StepsArePacked(Run(IDEAL, w, id, call).0, id, next.value);
      }
      assert ForestOf(IDEAL, w, id, f)[1..] == if next.None? then [] else ForestOf(IDEAL, Run(IDEAL, w, id, call).0, id, next.value);
      assert ExecutedSteps(f)[1..] == if next.None? then [] else ExecutedSteps(next.value);
  }

  lemma {:induction false} PackedTies(t: Tree, s: Shape)
    requires Packed(t, s) && NoTies(t)
    ensures Separated(s)
    decreases t
  {
    AllPackedTie(t.kids, s.kids, t.span.start + s.asked);
  }

  lemma {:induction false} AllPackedTie(ts: seq<Tree>, ss: seq<Shape>, start: int)
    requires AllPacked(ts, ss, start) && StrictlyAscending(Heads(ts)) && AllNoTies(ts)
    ensures AllSeparated(ss)
    decreases ts
  {
    if ts != [] {
      var heads := Heads(ts);
      PackedTies(ts[0], ss[0]);
      assert heads[1..] == Heads(ts[1..]);
      assert StrictlyAscending(heads[1..]) by {
        forall i, j | 0 <= i < j < |heads[1..]| ensures Before(heads[1..][i], heads[1..][j]) {
          assert Before(heads[i + 1], heads[j + 1]);
        }
      }
      AllPackedTie(ts[1..], ss[1..], ts[0].span.end);
      if |ts| > 1 {
        var rest := ts[1..];
        assert AllPacked(rest, ss[1..], ts[0].span.end) && rest[0] == ts[1] && ss[1..][0] == ss[1];
        assert Packed(ts[1], ss[1]) && ts[1].span.start == ts[0].span.end;
        assert heads[1] == Heads(rest)[0] == ts[1].span && Before(heads[0], heads[1]);
      }
    }
  }

  // ---------- Scenarios ----------

  lemma {:induction false} SameRemainder(before: seq<Span>, a: seq<Span>, b: seq<Span>)
    requires multiset(before + a) == multiset(before + b)
    ensures multiset(a) == multiset(b)
  {
    assert multiset(a) == multiset(before + a) - multiset(before);
    assert multiset(b) == multiset(before + b) - multiset(before);
  }

  /** Spans that reach the collector in some order, after those already there: all that the run exported. */
  ghost predicate Arrives(env: Env, w: World, parent: nat, n: Node, arrived: seq<Span>) {
    parent < w.next && multiset(w.spans + arrived) == multiset(Run(env, w, parent, n).0.spans)
  }

  lemma {:induction false} ArrivesMeans(env: Env, w: World, parent: nat, n: Node, arrived: seq<Span>)
    requires parent < w.next
    ensures Arrives(env, w, parent, n, arrived) <==> multiset(arrived) == multiset(PostOrder(TreeOf(env, w, parent, n)))
    ensures var t := TreeOf(env, w, parent, n); Linked(t, parent) && parent !in Ids(t) && Distinct(Ids(t))
  {
    RunRecords(env, w, parent, n);
    if Arrives(env, w, parent, n, arrived) {
      SameRemainder(w.spans, arrived, PostOrder(TreeOf(env, w, parent, n)));
    }
  }

  /** One run of a separated scenario: its spans rebuild its tree, which has the executed shape. */
  lemma {:induction false} SeparatedIsRebuilt(env: Env, w: World, parent: nat, n: Node, arrived: seq<Span>)
    requires Arrives(env, w, parent, n, arrived) && Separated(Executed(n))
    ensures var t := TreeOf(env, w, parent, n);
            Reconstruct(arrived, parent) == [t] && Records.Records(t, Executed(n)) && Nested(t)
  {
    var t := TreeOf(env, w, parent, n);
    ArrivesMeans(env, w, parent, n, arrived);
    RunConserves(env, w, parent, n);
    SeparatedHasNoTies(t, Executed(n));
    Reconstruction(t, parent);
  }

  /** A scenario that is not separated has a run, on an ideal clock, and an arrival order that misleads. */
  lemma {:induction false} TiesMislead(n: Node) returns (arrived: seq<Span>)
    requires !Separated(Executed(n))
    ensures var w := World(0, 0, 2, [], []);
            Arrives(IDEAL, w, 1, n, arrived) && Reconstruct(arrived, 1) != [TreeOf(IDEAL, w, 1, n)]
  {
    var w := World(0, 0, 2, [], []);
    var t := TreeOf(IDEAL, w, 1, n);
    RunIsPacked(w, 1, n);
    if NoTies(t) {
      PackedTies(t, Executed(n));
    }
    ArrivesMeans(IDEAL, w, 1, n, []);
    Reconstruction(t, 1);
    arrived :| multiset(arrived) == multiset(PostOrder(t)) && Reconstruct(arrived, 1) != [t];
    ArrivesMeans(IDEAL, w, 1, n, arrived);
  }

  /**
   * The exported spans of a scenario rebuild its tree on every clock, from every state of the tracer
   * and in every arrival order, exactly when no two neighbouring calls both go without a sleep.
   */
  lemma {:induction false} ScenarioIsRebuilt(n: Node)
    ensures (forall env, w, parent, arrived :: Arrives(env, w, parent, n, arrived) ==>
               Reconstruct(arrived, parent) == [TreeOf(env, w, parent, n)])
            <==> Separated(Executed(n))
  {
    if Separated(Executed(n)) {
      forall env, w, parent, arrived | Arrives(env, w, parent, n, arrived)
        ensures Reconstruct(arrived, parent) == [TreeOf(env, w, parent, n)]
      {
        SeparatedIsRebuilt(env, w, parent, n, arrived);
      }
    } else {
      var arrived := TiesMislead(n);
    }
  }

  /** A handler that makes two calls and looks at the error of neither. */
  function Pair(name: string, a: Node, b: Node): Node {
    Node(Handler(None), name, Some(Callback(Discard(a, Discard(b, Done)), Fine)))
  }

  lemma {:induction false} PairIsExecuted(name: string, a: Node, b: Node)
    requires !Outcome(a).Panic? && !Outcome(b).Panic?
    ensures Executed(Pair(name, a, b)).kids == [Executed(a), Executed(b)]
  {
    var last := Callback(Done, Fine);
    var second := last.(steps := Discard(b, Done));
    assert Resume(second, Outcome(b)) == Some(last) && ExecutedSteps(last) == [];
    assert ExecutedSteps(second) == [Executed(b)] + ExecutedSteps(last) == [Executed(b)];
    var first := last.(steps := Discard(a, second.steps));
    assert Resume(first, Outcome(a)) == Some(second);
    assert ExecutedSteps(first) == [Executed(a)] + ExecutedSteps(second);
  }

  /** Any two neighbouring calls without a sleep can change places: a run and an arrival order that mislead. */
  lemma {:induction false} InstantSiblingsMislead(name: string, a: Node, b: Node)
    requires !Outcome(a).Panic? && !Outcome(b).Panic? && Total(Executed(a)) == 0 && Total(Executed(b)) == 0
    ensures exists env, w, parent, arrived :: Arrives(env, w, parent, Pair(name, a, b), arrived) &&
              Reconstruct(arrived, parent) != [TreeOf(env, w, parent, Pair(name, a, b))]
  {
    PairIsExecuted(name, a, b);
    assert !Separated(Executed(Pair(name, a, b)));
    var arrived := TiesMislead(Pair(name, a, b));
  }

  /** The smallest such pair: child(ctx, "a", 0, nil), then child(ctx, "b", 0, nil). */
  lemma {:induction false} TwoInstantsMislead()
    ensures var n := Pair("root", Node(Child(0), "a", None), Node(Child(0), "b", None));
            exists env, w, parent, arrived :: Arrives(env, w, parent, n, arrived) &&
              Reconstruct(arrived, parent) != [TreeOf(env, w, parent, n)]
  {
    var a, b := Node(Child(0), "a", None), Node(Child(0), "b", None);
    assert Executed(a).kids == [] && Executed(b).kids == [];
    InstantSiblingsMislead("root", a, b);
  }
}
