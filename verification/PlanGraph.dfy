/** The dependency graph of a plan, and the worklist that decides whether it has a cycle.

    A graph maps every plan job id to its `depends_on` list.  The list may repeat an id,
    may name the job itself, and may name ids outside the plan; only ids inside the plan
    are edges. */
module PlanGraph {
  import opened Prelude

  type Graph = map<Name, seq<Name>>

  predicate Edge(g: Graph, job: Name, dep: Name) {
    job in g && dep in g && dep in g[job]
  }

  ghost predicate Walk(g: Graph, p: seq<Name>) {
    forall i, j :: 0 <= i && j == i + 1 < |p| ==> Edge(g, p[i], p[j])
  }

  /** A walk along at least one edge that returns to where it began. */
  ghost predicate IsCycle(g: Graph, p: seq<Name>) {
    |p| >= 2 && Walk(g, p) && p[0] == p[|p| - 1]
  }

  /** Some job transitively waits for itself. */
  ghost predicate Cyclic(g: Graph) {
    exists p :: IsCycle(g, p)
  }

  /** `order` lists jobs of the graph without repetition, each after all of its dependencies. */
  ghost predicate Peeled(g: Graph, order: seq<Name>) {
    && Distinct(order)
    && (forall i :: 0 <= i < |order| ==> order[i] in g)
    && (forall i, d :: 0 <= i < |order| && Edge(g, order[i], d) ==> d in order[..i])
  }

  /** An execution order of the whole plan. */
  ghost predicate Topological(g: Graph, order: seq<Name>) {
    Peeled(g, order) && Elements(order) == g.Keys
  }

  // ---------------------------------------------------------------------------
  // Cycles versus execution orders
  // ---------------------------------------------------------------------------

  /** In an execution order every step of a walk goes strictly to the left. */
  lemma {:induction false} WalkDescends(g: Graph, order: seq<Name>, p: seq<Name>, n: nat) returns (i: nat, j: nat)
    requires Topological(g, order) && Walk(g, p) && n < |p| && |p| >= 2
    ensures i < |order| && j < |order| && order[i] == p[0] && order[j] == p[n] && j <= i - n
  {
    if n == 0 {
      assert Edge(g, p[0], p[1]);
      assert p[0] in Elements(order);
      i :| 0 <= i < |order| && order[i] == p[0];
      j := i;
    } else {
      var k;
      i, k := WalkDescends(g, order, p, n - 1);
      assert Edge(g, p[n - 1], p[n]);
      j := StepDescends(g, order, k, p[n]);
    }
  }

  lemma StepDescends(g: Graph, order: seq<Name>, i: nat, d: Name) returns (j: nat)
    requires Peeled(g, order) && i < |order| && Edge(g, order[i], d)
    ensures j < i && order[j] == d
  {
    assert d in order[..i];
    j :| 0 <= j < i && order[j] == d;
  }

  lemma OrderedIsAcyclic(g: Graph, order: seq<Name>)
    requires Topological(g, order)
    ensures !Cyclic(g)
  {
    if Cyclic(g) {
      var p :| IsCycle(g, p);
      var i, j := WalkDescends(g, order, p, |p| - 1);
    }
  }

  /** Every job of `stuck` waits for another job of `stuck`. */
  ghost predicate Stuck(g: Graph, stuck: set<Name>) {
    stuck <= g.Keys && forall h {:trigger Waits(g, stuck, h)} :: h in stuck ==> Waits(g, stuck, h)
  }

  ghost predicate Waits(g: Graph, stuck: set<Name>, h: Name) {
    exists d :: d in stuck && Edge(g, h, d)
  }

  lemma {:induction false} StuckWalk(g: Graph, stuck: set<Name>, start: Name, n: nat) returns (p: seq<Name>)
    requires Stuck(g, stuck) && start in stuck
    ensures |p| == n + 1 && Walk(g, p) && forall k :: 0 <= k < |p| ==> p[k] in stuck
  {
    if n == 0 {
      p := [start];
    } else {
      p := StuckWalk(g, stuck, start, n - 1);
      assert Waits(g, stuck, p[n - 1]);
      var d :| d in stuck && Edge(g, p[n - 1], d);
      p := p + [d];
    }
  }

  /** A non-empty set of mutually waiting jobs contains a cycle. */
  lemma StuckIsCyclic(g: Graph, stuck: set<Name>)
    requires Stuck(g, stuck) && stuck != {}
    ensures Cyclic(g)
  {
    var start :| start in stuck;
    var p := StuckWalk(g, stuck, start, |stuck|);
    var i, j := Pigeonhole(p, stuck);
    LoopIsCyclic(g, p, i, j);
  }

  lemma LoopIsCyclic(g: Graph, p: seq<Name>, i: nat, j: nat)
    requires Walk(g, p) && i < j < |p| && p[i] == p[j]
    ensures Cyclic(g)
  {
    var q := p[i..j + 1];
    WalkSlice(g, p, i, j + 1);
    assert IsCycle(g, q);
  }

  lemma WalkSlice(g: Graph, p: seq<Name>, i: nat, j: nat)
    requires Walk(g, p) && i <= j <= |p|
    ensures Walk(g, p[i..j])
  {
    var q := p[i..j];
    forall k, l | 0 <= k && l == k + 1 < |q|
      ensures Edge(g, q[k], q[l])
    {
      assert Edge(g, p[i + k], p[i + l]);
    }
  }

  // ---------------------------------------------------------------------------
  // Open dependency counts
  // ---------------------------------------------------------------------------

  /** How often `x` occurs in `s`. */
  function Count(s: seq<Name>, x: Name): nat {
    if s == [] then 0 else Count(s[..|s| - 1], x) + (if s[|s| - 1] == x then 1 else 0)
  }

  lemma CountAppend(s: seq<Name>, y: Name, x: Name)
    ensures Count(s + [y], x) == Count(s, x) + if x == y then 1 else 0
  {
    assert (s + [y])[..|s|] == s;
  }

  lemma {:induction false} CountPrefix(s: seq<Name>, k: nat, x: Name)
    requires k <= |s|
    ensures Count(s[..k], x) <= Count(s, x)
  {
    if k == |s| {
      assert s[..k] == s;
    } else {
      CountPrefix(s[..|s| - 1], k, x);
      assert s[..|s| - 1][..k] == s[..k];
    }
  }

  /** How many entries of a dependency list name a job that is still open. */
  function OpenCount(deps: seq<Name>, open: set<Name>): nat {
    if deps == [] then 0
    else OpenCount(deps[..|deps| - 1], open) + (if deps[|deps| - 1] in open then 1 else 0)
  }

  lemma {:induction false} OpenCountZero(deps: seq<Name>, open: set<Name>)
    ensures OpenCount(deps, open) == 0 <==> forall d :: d in deps ==> d !in open
  {
    if deps != [] {
      var front, last := deps[..|deps| - 1], deps[|deps| - 1];
      OpenCountZero(front, open);
      assert deps == front + [last];
    }
  }

  /** Closing one job lowers a count by the multiplicity of that job in the list. */
  lemma {:induction false} OpenCountClose(deps: seq<Name>, open: set<Name>, node: Name)
    requires node in open
    ensures OpenCount(deps, open - {node}) == OpenCount(deps, open) - Count(deps, node)
  {
    if deps != [] {
      OpenCountClose(deps[..|deps| - 1], open, node);
    }
  }

  // ---------------------------------------------------------------------------
  // Kahn's algorithm, with in-place indegrees and a LIFO worklist
  // ---------------------------------------------------------------------------

  /** `edges[d]` lists `h` as often as `d` occurs in the part `entered[h]` of the dependency
      list of `h` that has been entered so far. */
  ghost predicate Reversed(g: Graph, entered: Graph, edges: Graph) {
    && edges.Keys == g.Keys
    && forall d, h :: d in g ==> Count(edges[d], h) == if h in entered then Count(entered[h], d) else 0
  }

  lemma ReversedStep(g: Graph, entered: Graph, edges: Graph, job: Name, dep: Name)
    requires Reversed(g, entered, edges) && job in g && job in entered
    ensures Reversed(g, entered[job := entered[job] + [dep]],
                     if dep in g then edges[dep := edges[dep] + [job]] else edges)
  {
    var entered' := entered[job := entered[job] + [dep]];
    var edges' := if dep in g then edges[dep := edges[dep] + [job]] else edges;
    forall d, h | d in g
      ensures Count(edges'[d], h) == if h in entered' then Count(entered'[h], d) else 0
    {
      CountAppend(entered[job], dep, d);
      CountAppend(edges[d], job, h);
    }
  }

  /** The part `deps` of the dependency list of `job` has been entered. */
  ghost predicate Entering(g: Graph, entered: Graph, job: Name, deps: seq<Name>, edges: Graph,
                           indegree: map<Name, nat>, indegree0: map<Name, nat>)
  {
    && Reversed(g, entered[job := deps], edges)
    && indegree == indegree0[job := OpenCount(deps, g.Keys)]
  }

  lemma EnteringStep(g: Graph, entered: Graph, job: Name, deps: seq<Name>, dep: Name, edges: Graph,
                     indegree: map<Name, nat>, indegree0: map<Name, nat>)
    requires job in g && Entering(g, entered, job, deps, edges, indegree, indegree0)
    ensures Entering(g, entered, job, deps + [dep],
                     if dep in g then edges[dep := edges[dep] + [job]] else edges,
                     if dep in g then indegree[job := indegree[job] + 1] else indegree, indegree0)
  {
    ReversedStep(g, entered[job := deps], edges, job, dep);
    assert entered[job := deps][job := deps + [dep]] == entered[job := deps + [dep]];
    assert (deps + [dep])[..|deps|] == deps;
  }

  method EnterJob(g: Graph, job: Name, ghost entered: Graph, edges0: Graph, indegree0: map<Name, nat>)
    returns (edges: Graph, indegree: map<Name, nat>)
    requires job in g && job !in entered && Reversed(g, entered, edges0)
    requires indegree0.Keys == g.Keys && indegree0[job] == 0
    ensures Reversed(g, entered[job := g[job]], edges)
    ensures indegree == indegree0[job := OpenCount(g[job], g.Keys)]
  {
    edges, indegree := edges0, indegree0;
    var deps := g[job];
    for k := 0 to |deps|
      invariant Entering(g, entered, job, deps[..k], edges, indegree, indegree0)
    {
      var dep := deps[k];
      EnteringStep(g, entered, job, deps[..k], dep, edges, indegree, indegree0);
      assert deps[..k + 1] == deps[..k] + [dep];
      if dep in g {
        edges := edges[dep := edges[dep] + [job]];
        indegree := indegree[job := indegree[job] + 1];
      }
    }
    assert deps[..|deps|] == deps;
  }

  /** The part of the graph whose jobs are among `ids`. */
  ghost function Entered(g: Graph, ids: seq<Name>): Graph {
    map h | h in g && h in ids :: g[h]
  }

  /** The lists of the jobs in `entered` are in the reversed graph and counted; no others are. */
  ghost predicate Built(g: Graph, entered: Graph, edges: Graph, indegree: map<Name, nat>) {
    && Reversed(g, entered, edges) && indegree.Keys == g.Keys
    && forall h :: h in g ==> indegree[h] == if h in entered then OpenCount(g[h], g.Keys) else 0
  }

  lemma NothingBuilt(g: Graph, edges: Graph, indegree: map<Name, nat>)
    requires edges == map h | h in g :: []
    requires indegree == map h | h in g :: 0
    ensures Built(g, map[], edges, indegree)
  {
    assert forall d, h :: d in g ==> Count(edges[d], h) == 0;
  }

  lemma BuiltStep(g: Graph, entered: Graph, job: Name, edges: Graph, indegree: map<Name, nat>, edges': Graph, indegree': map<Name, nat>)
    requires Built(g, entered, edges, indegree) && job in g
    requires Reversed(g, entered[job := g[job]], edges') && indegree' == indegree[job := OpenCount(g[job], g.Keys)]
    ensures Built(g, entered[job := g[job]], edges', indegree')
  {
  }

  lemma EnteredStep(g: Graph, ids: seq<Name>, n: nat)
    requires Distinct(ids) && n < |ids| && ids[n] in g
    ensures ids[n] !in Entered(g, ids[..n])
    ensures Entered(g, ids[..n + 1]) == Entered(g, ids[..n])[ids[n] := g[ids[n]]]
  {
    assert ids[..n + 1] == ids[..n] + [ids[n]];
  }

  lemma EnteredAll(g: Graph, ids: seq<Name>)
    requires Elements(ids) == g.Keys
    ensures Entered(g, ids[..|ids|]) == g
  {
    assert ids[..|ids|] == ids;
    assert forall h :: h in g ==> h in Elements(ids);
  }

  method BuildEdges(g: Graph, ids: seq<Name>) returns (edges: Graph, indegree: map<Name, nat>)
    requires Distinct(ids) && Elements(ids) == g.Keys
    ensures Reversed(g, g, edges)
    ensures indegree.Keys == g.Keys
    ensures forall h :: h in g ==> indegree[h] == OpenCount(g[h], g.Keys)
  {
    edges := map h | h in g :: [];
    indegree := map h | h in g :: 0;
    NothingBuilt(g, edges, indegree);
    assert Entered(g, ids[..0]) == map[];
    for n := 0 to |ids|
      invariant Built(g, Entered(g, ids[..n]), edges, indegree)
    {
      assert ids[n] in Elements(ids);
      EnteredStep(g, ids, n);
      ghost var edges0, indegree0 := edges, indegree;
      edges, indegree := EnterJob(g, ids[n], Entered(g, ids[..n]), edges, indegree);
      BuiltStep(g, Entered(g, ids[..n]), ids[n], edges0, indegree0, edges, indegree);
    }
    EnteredAll(g, ids);
  }

  /** Lowers the indegree along every edge out of a finished job, queueing jobs that reach zero. */
  method Relax(out: seq<Name>, indegree0: map<Name, nat>, queue0: seq<Name>)
    returns (indegree: map<Name, nat>, queue: seq<Name>)
    requires forall h :: Count(out, h) <= if h in indegree0 then indegree0[h] else 0
    requires Distinct(queue0) && forall h :: h in queue0 ==> h in indegree0 && indegree0[h] == 0
    ensures indegree.Keys == indegree0.Keys
    ensures forall h :: h in indegree0 ==> indegree[h] == indegree0[h] - Count(out, h)
    ensures Distinct(queue)
    ensures forall h :: h in queue <==> h in queue0 || (h in indegree0 && indegree0[h] > 0 && indegree[h] == 0)
  {
    indegree, queue := indegree0, queue0;
    assert out[..0] == [];
    for k := 0 to |out|
      invariant indegree.Keys == indegree0.Keys
      invariant forall h :: h in indegree0 ==> indegree[h] as int == indegree0[h] as int - Count(out[..k], h)
      invariant Distinct(queue)
      invariant forall h :: h in queue <==> h in queue0 || (h in indegree0 && indegree0[h] > 0 && indegree[h] == 0)
    {
      var nxt := out[k];
      CountStep(out, k);
      indegree := indegree[nxt := indegree[nxt] - 1];
      if indegree[nxt] == 0 {
        queue := queue + [nxt];
      }
    }
    assert out[..|out|] == out;
  }

  lemma CountStep(s: seq<Name>, k: nat)
    requires k < |s|
    ensures forall x :: Count(s[..k + 1], x) == Count(s[..k], x) + if x == s[k] then 1 else 0
    ensures Count(s[..k], s[k]) < Count(s, s[k])
  {
    assert s[..k + 1] == s[..k] + [s[k]];
    forall x
      ensures Count(s[..k + 1], x) == Count(s[..k], x) + if x == s[k] then 1 else 0
    {
      CountAppend(s[..k], s[k], x);
    }
    CountPrefix(s, k + 1, s[k]);
  }

  /** The worklist state: `order` is done, the counts are those of the jobs still open, and the
      queue holds exactly the open jobs nobody keeps waiting. */
  ghost predicate Frontier(g: Graph, order: seq<Name>, indegree: map<Name, nat>, queue: seq<Name>) {
    && Peeled(g, order)
    && indegree.Keys == g.Keys
    && (forall h :: h in g ==> indegree[h] == OpenCount(g[h], g.Keys - Elements(order)))
    && Distinct(queue)
    && (forall h :: h in queue <==> h in g && h !in order && indegree[h] == 0)
  }

  method InitialQueue(ids: seq<Name>, indegree: map<Name, nat>) returns (queue: seq<Name>)
    requires Distinct(ids) && Elements(ids) == indegree.Keys
    ensures Distinct(queue)
    ensures forall h :: h in queue <==> h in indegree && indegree[h] == 0
  {
    queue := [];
    for n := 0 to |ids|
      invariant Distinct(queue)
      invariant forall h :: h in queue <==> h in ids[..n] && h in indegree && indegree[h] == 0
    {
      assert ids[n] in Elements(ids);
      assert ids[..n + 1] == ids[..n] + [ids[n]];
      if indegree[ids[n]] == 0 {
        assert ids[n] !in ids[..n];
        queue := queue + [ids[n]];
      }
    }
    assert ids[..|ids|] == ids;
    assert forall h :: h in indegree ==> h in Elements(ids);
  }

  lemma DoneIsBounded(g: Graph, order: seq<Name>)
    requires Peeled(g, order)
    ensures |order| <= |g|
    ensures |order| == |g| <==> Elements(order) == g.Keys
  {
    DistinctCardinality(order);
    SubsetCardinality(Elements(order), g.Keys);
    FullSubset(Elements(order), g.Keys);
  }

  /** Taking a queued job keeps the done list peelable. */
  lemma PeelOne(g: Graph, order: seq<Name>, indegree: map<Name, nat>, queue: seq<Name>, node: Name)
    requires Frontier(g, order, indegree, queue) && node in queue
    ensures Peeled(g, order + [node])
  {
    var order' := order + [node];
    OpenCountZero(g[node], g.Keys - Elements(order));
    forall i, d | 0 <= i < |order'| && Edge(g, order'[i], d)
      ensures d in order'[..i]
    {
      if i < |order| {
        assert order'[..i] == order[..i];
      } else {
        assert order'[..i] == order;
      }
    }
  }

  lemma CloseNode(g: Graph, order: seq<Name>, node: Name)
    requires node in g && node !in order
    ensures g.Keys - Elements(order + [node]) == (g.Keys - Elements(order)) - {node}
    ensures forall h :: h in g ==>
      OpenCount(g[h], g.Keys - Elements(order + [node])) == OpenCount(g[h], g.Keys - Elements(order)) - Count(g[h], node)
  {
    var open := g.Keys - Elements(order);
    assert g.Keys - Elements(order + [node]) == open - {node};
    forall h | h in g {
      OpenCountClose(g[h], open, node);
    }
  }

  /** When the queue runs dry, the jobs left over all wait for one another. */
  lemma DryQueueIsStuck(g: Graph, order: seq<Name>, indegree: map<Name, nat>)
    requires Frontier(g, order, indegree, [])
    ensures Stuck(g, g.Keys - Elements(order))
  {
    var open := g.Keys - Elements(order);
    forall h | h in open
      ensures Waits(g, open, h)
    {
      OpenCountZero(g[h], open);
      assert h !in [];
      var d :| d in g[h] && d in open;
      assert Edge(g, h, d);
    }
  }

  /** Every edge out of an open job is still counted at its target. */
  lemma PredecessorCounts(g: Graph, order: seq<Name>, edges: Graph, indegree: map<Name, nat>, node: Name)
    requires Reversed(g, g, edges) && indegree.Keys == g.Keys && node in g && node !in order
    requires forall h :: h in g ==> indegree[h] == OpenCount(g[h], g.Keys - Elements(order))
    ensures forall h :: Count(edges[node], h) <= if h in indegree then indegree[h] else 0
    ensures forall h :: h in g ==> Count(edges[node], h) == Count(g[h], node)
  {
    CloseNode(g, order, node);
  }

  lemma DryQueueDecides(g: Graph, order: seq<Name>, indegree: map<Name, nat>)
    requires Frontier(g, order, indegree, [])
    ensures |order| <= |g|
    ensures |order| == |g| <==> !Cyclic(g)
    ensures |order| == |g| ==> Topological(g, order)
  {
    DoneIsBounded(g, order);
    if |order| == |g| {
      OrderedIsAcyclic(g, order);
    } else {
      DryQueueIsStuck(g, order, indegree);
      var open :| open in g.Keys && open !in Elements(order);
      assert open in g.Keys - Elements(order);
      StuckIsCyclic(g, g.Keys - Elements(order));
    }
  }

  /** A finished job waits for nothing that is still open. */
  lemma FinishedWaitForNothing(g: Graph, order: seq<Name>, h: Name)
    requires Peeled(g, order) && h in order
    ensures OpenCount(g[h], g.Keys - Elements(order)) == 0
  {
    var open := g.Keys - Elements(order);
    var i :| 0 <= i < |order| && order[i] == h;
    forall d | d in g[h]
      ensures d !in open
    {
      if d in g {
        assert Edge(g, order[i], d);
      }
    }
    OpenCountZero(g[h], open);
  }

  lemma FrontierStep(g: Graph, order: seq<Name>, indegree: map<Name, nat>, queue: seq<Name>, node: Name,
                     indegree': map<Name, nat>, queue': seq<Name>)
    requires Frontier(g, order, indegree, queue) && queue != [] && node == queue[|queue| - 1]
    requires indegree'.Keys == g.Keys && Distinct(queue')
    requires forall h :: h in g ==> indegree'[h] == indegree[h] - Count(g[h], node)
    requires forall h :: h in queue' <==> h in queue[..|queue| - 1] || (h in g && indegree[h] > 0 && indegree'[h] == 0)
    ensures Frontier(g, order + [node], indegree', queue')
  {
    PeelOne(g, order, indegree, queue, node);
    CloseNode(g, order, node);
    forall h
      ensures h in queue' <==> h in g && h !in order + [node] && indegree'[h] == 0
    {
      assert queue == queue[..|queue| - 1] + [node];
      if h in order {
        FinishedWaitForNothing(g, order, h);
      }
    }
  }

  /** One turn of the worklist: pop the newest queued job and relax its outgoing edges. */
  method FinishOne(g: Graph, edges: Graph, ghost order: seq<Name>, indegree0: map<Name, nat>, queue0: seq<Name>)
    returns (node: Name, indegree: map<Name, nat>, queue: seq<Name>)
    requires Reversed(g, g, edges) && Frontier(g, order, indegree0, queue0) && queue0 != []
    ensures node == queue0[|queue0| - 1] && node !in order
    ensures Frontier(g, order + [node], indegree, queue)
  {
    node := queue0[|queue0| - 1];
    queue := queue0[..|queue0| - 1];
    assert forall h :: h in queue ==> h in queue0;
    PredecessorCounts(g, order, edges, indegree0, node);
    indegree, queue := Relax(edges[node], indegree0, queue);
    FrontierStep(g, order, indegree0, queue0, node, indegree, queue);
  }

  /** Counts the jobs the worklist can finish.  It finishes all of them exactly when no job
      transitively waits for itself, and then the finishing order is an execution order. */
  method CountFinishable(g: Graph, ids: seq<Name>) returns (seen: nat, ghost order: seq<Name>)
    requires Distinct(ids) && Elements(ids) == g.Keys
    ensures seen == |order| <= |g| && Peeled(g, order)
    ensures seen == |g| <==> !Cyclic(g)
    ensures seen == |g| ==> Topological(g, order)
  {
    var edges, indegree := BuildEdges(g, ids);
    var queue := InitialQueue(ids, indegree);
    seen, order := 0, [];
    assert g.Keys - Elements(order) == g.Keys;
    while queue != []
      invariant Frontier(g, order, indegree, queue)
      invariant seen == |order|
      decreases |g| - |order|
    {
      var node;
      node, indegree, queue := FinishOne(g, edges, order, indegree, queue);
      DoneIsBounded(g, order + [node]);
      seen := seen + 1;
      order := order + [node];
    }
    DryQueueDecides(g, order, indegree);
  }
}
