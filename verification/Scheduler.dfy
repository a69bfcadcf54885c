/** The execution plan (scheduler.rs): Kahn's algorithm run in whole batches over the
    enabled nodes, one batch per step. */
module Scheduler {
  import opened Digraphs
  import opened Flows
  import opened Wrappers

  datatype ExecutionPlan = ExecutionPlan(steps: seq<seq<Uuid>>, totalNodes: nat)

  function EnabledArcs(nodes: seq<Node>, edges: seq<Edge>): set<(Uuid, Uuid)> {
    set e | e in edges && e.source in EnabledIds(nodes) && e.target in EnabledIds(nodes) :: (e.source, e.target)
  }

  /** The subgraph of the enabled nodes and the edges between them. */
  function EnabledGraph(nodes: seq<Node>, edges: seq<Edge>): Digraph {
    Digraph(EnabledIds(nodes), EnabledArcs(nodes, edges))
  }

  function TotalLength(steps: seq<seq<Uuid>>): nat {
    if steps == [] then 0 else TotalLength(steps[..|steps| - 1]) + |steps[|steps| - 1]|
  }

  /** `steps` are the successive rounds of clearing `d`, each node listed once, none empty. */
  ghost predicate Rounds(d: Digraph, steps: seq<seq<Uuid>>) {
    forall k :: 0 <= k < |steps| ==>
      && steps[k] != [] && NoDup(steps[k])
      && forall v :: v in steps[k] <==> v in Peel(d, k + 1) && v !in Peel(d, k)
  }

  /** The rounds of `d`, run to the end. */
  ghost predicate Layers(d: Digraph, steps: seq<seq<Uuid>>) {
    Rounds(d, steps) && Peel(d, |steps|) == Drained(d)
  }

  ghost function Elements<T>(s: seq<T>): set<T> {
    set x | x in s
  }

  lemma {:induction false} NoDupSize<T>(s: seq<T>)
    requires NoDup(s)
    ensures |Elements(s)| == |s|
  {
    if s != [] {
      var front := s[..|s| - 1];
      LastIsNew(s);
      NoDupSize(front);
      hide *;
    }
  }

  lemma LastIsNew<T>(s: seq<T>)
    requires NoDup(s) && s != []
    ensures NoDup(s[..|s| - 1])
    ensures |Elements(s)| == |Elements(s[..|s| - 1])| + 1
  {
    var front, last := s[..|s| - 1], s[|s| - 1];
    assert last !in front;
    assert s == front + [last];
    hide NoDup;
    assert Elements(s) == Elements(front) + {last};
  }

  /** In-degrees of the enabled nodes, counting the edges between enabled nodes only. */
  method EnabledInDegrees(flow: Flow) returns (inDegree: map<Uuid, nat>)
    ensures var d := EnabledGraph(flow.nodes, flow.edges);
            Counts(d, flow.edges, inDegree, Pending(d, flow.edges, {}))
  {
    var enabled := EnabledIds(flow.nodes);
    inDegree := map id | id in enabled :: 0;
    ghost var d := EnabledGraph(flow.nodes, flow.edges);
    AllEnabledCounted(flow.nodes, flow.edges);
    hide *;
    for j := 0 to |flow.edges|
      invariant inDegree.Keys == enabled
      invariant CountsBelow(d, flow.edges, inDegree, j)
    {
      var edge := flow.edges[j];
      CountEdge(d, flow.edges, inDegree, j);
      if edge.source in enabled && edge.target in enabled {
        inDegree := inDegree[edge.target := inDegree[edge.target] + 1];
      }
    }
  }

  ghost predicate CountsBelow(d: Digraph, edges: seq<Edge>, inDegree: map<Uuid, nat>, j: nat) {
    && inDegree.Keys == d.nodes
    && forall v <- d.nodes :: inDegree[v] == |Into(edges, CountedBelow(d, edges, j), v)|
  }

  lemma CountEdge(d: Digraph, edges: seq<Edge>, inDegree: map<Uuid, nat>, j: nat)
    requires j < |edges| && CountsBelow(d, edges, inDegree, j)
    ensures var e := edges[j];
            CountsBelow(d, edges,
                        if (e.source, e.target) in d.arcs && e.target in inDegree
                            then inDegree[e.target := inDegree[e.target] + 1] else inDegree,
                        j + 1)
  {
    CountEnabled(d, edges, j);
    hide Into, CountedBelow;
  }

  lemma AllEnabledCounted(nodes: seq<Node>, edges: seq<Edge>)
    ensures var d := EnabledGraph(nodes, edges);
            && d.nodes == EnabledIds(nodes)
            && (forall j :: 0 <= j < |edges| ==>
                  ((edges[j].source, edges[j].target) in d.arcs <==>
                      edges[j].source in d.nodes && edges[j].target in d.nodes))
            && CountsBelow(d, edges, map id | id in d.nodes :: 0, 0)
            && forall inDegree :: CountsBelow(d, edges, inDegree, |edges|) ==>
                Counts(d, edges, inDegree, Pending(d, edges, {}))
  {
    assert forall j :: 0 <= j < |edges| ==> edges[j] in edges;
    var d := EnabledGraph(nodes, edges);
    assert forall v :: Into(edges, CountedBelow(d, edges, 0), v) == {};
    assert CountedBelow(d, edges, |edges|) == Pending(d, edges, {});
  }

  ghost function CountedBelow(d: Digraph, edges: seq<Edge>, j: nat): set<int> {
    set i | i in Pending(d, edges, {}) && i < j
  }

  lemma CountEnabled(d: Digraph, edges: seq<Edge>, j: nat)
    requires j < |edges|
    ensures forall v ::
              |Into(edges, CountedBelow(d, edges, j + 1), v)| ==
              |Into(edges, CountedBelow(d, edges, j), v)|
              + if v == edges[j].target && (edges[j].source, v) in d.arcs then 1 else 0
  {
    forall v
      ensures |Into(edges, CountedBelow(d, edges, j + 1), v)| ==
              |Into(edges, CountedBelow(d, edges, j), v)|
              + if v == edges[j].target && (edges[j].source, v) in d.arcs then 1 else 0
    {
      CountOne(d, edges, j, v);
      hide *;
    }
  }

  lemma CountOne(d: Digraph, edges: seq<Edge>, j: nat, v: Uuid)
    requires j < |edges|
    ensures |Into(edges, CountedBelow(d, edges, j + 1), v)| ==
            |Into(edges, CountedBelow(d, edges, j), v)|
            + if v == edges[j].target && (edges[j].source, v) in d.arcs then 1 else 0
  {
    var before, after := Into(edges, CountedBelow(d, edges, j), v), Into(edges, CountedBelow(d, edges, j + 1), v);
    assert after == if v == edges[j].target && (edges[j].source, v) in d.arcs then before + {j} else before;
  }

  lemma ArcsAreEdges(nodes: seq<Node>, edges: seq<Edge>)
    ensures ArcsFromEdges(EnabledGraph(nodes, edges), edges)
    ensures var d := EnabledGraph(nodes, edges); forall u <- d.nodes :: RelaxesOwnArcs(d, edges, u)
  {
    var d := EnabledGraph(nodes, edges);
    forall u | u in d.nodes ensures RelaxesOwnArcs(d, edges, u) {
      forall e | e in edges && e.source == u && e.target in d.nodes ensures (e.source, e.target) in d.arcs {
      }
    }
  }

  lemma QueueIsNextRound(d: Digraph, k: nat, queue: seq<Uuid>)
    requires Ready(d, queue, Peel(d, k))
    ensures forall v :: v in queue <==> v in Peel(d, k + 1) && v !in Peel(d, k)
  {
    PeelMonotone(d, k, k + 1);
  }

  /** Processes one whole batch: its members' successors that become ready form the next queue. */
  method RunBatch(edges: seq<Edge>, batch: seq<Uuid>, inDegree0: map<Uuid, nat>, ghost d: Digraph, ghost k: nat)
    returns (inDegree: map<Uuid, nat>, queue: seq<Uuid>)
    requires ArcsFromEdges(d, edges)
    requires forall u <- d.nodes :: RelaxesOwnArcs(d, edges, u)
    requires KahnInv(d, edges, inDegree0, batch, Peel(d, k))
    ensures KahnInv(d, edges, inDegree, queue, Peel(d, k + 1))
    ensures Peel(d, k + 1) == Peel(d, k) + Elements(batch)
  {
    hide Counts, Pending, NewlyReady, ArcsFromEdges, RelaxesOwnArcs;
    inDegree, queue := inDegree0, [];
    ghost var done := Peel(d, k);
    QueueIsNextRound(d, k, batch);
    PeelMonotone(d, k, k + 1);
    assert batch[0..] + queue == batch;
    for i := 0 to |batch|
      invariant done == Peel(d, k) + Elements(batch[..i])
      invariant Counts(d, edges, inDegree, Pending(d, edges, done))
      invariant Ready(d, batch[i..] + queue, done)
    {
      ghost var all := batch[i..] + queue;
      assert all[0] == batch[i] && batch[i] in all;
      ghost var added;
      ghost var queued := queue;
      inDegree, queue, added := ReduceSuccessors(edges, batch[i], inDegree, queue, d, done);
      ReadyStep(d, all, done, added);
      assert all[1..] + added == batch[i + 1..] + queue;
      assert batch[..i + 1] == batch[..i] + [batch[i]];
      done := done + {batch[i]};
    }
    assert batch[..|batch|] == batch;
    assert batch[|batch|..] + queue == queue;
    assert done == Peel(d, k + 1);
  }

  method Compile(flow: Flow) returns (r: Option<ExecutionPlan>)
    ensures r.Some? <==> PassesCheck(flow.nodes, flow.edges)
    ensures r.Some? ==> Layers(EnabledGraph(flow.nodes, flow.edges), r.value.steps)
    ensures r.Some? ==> r.value.totalNodes == |Drained(EnabledGraph(flow.nodes, flow.edges))|
    ensures flow.WellFormed() ==> (r.Some? <==> !Cyclic(flow.Graph()))
    ensures flow.WellFormed() && r.Some? ==> r.value.totalNodes == |EnabledIds(flow.nodes)|
  {
    hide NoDup, EnabledGraph, Cyclic, PassesCheck;
    var ok := flow.ValidateAcyclic();
    if !ok {
      return None;
    }
    ghost var d := EnabledGraph(flow.nodes, flow.edges);
    ArcsAreEdges(flow.nodes, flow.edges);
    var inDegree := EnabledInDegrees(flow);
    var queue := Seed(inDegree);
    SeedInv(d, flow.edges, inDegree, queue);
    var steps: seq<seq<Uuid>> := [];
    assert Peel(d, 0) == {};
    hide Peel, Rounds, TotalLength;
    EmptyRounds(d);
    while queue != []
      invariant KahnInv(d, flow.edges, inDegree, queue, Peel(d, |steps|))
      invariant Rounds(d, steps)
      invariant TotalLength(steps) == |Peel(d, |steps|)|
      decreases Drained(d) - Peel(d, |steps|)
    {
      var batch := queue;
      QueueIsNextRound(d, |steps|, batch);
      NoDupSize(batch);
      assert batch[0] in batch;
      inDegree, queue := RunBatch(flow.edges, batch, inDegree, d, |steps|);
      AppendRound(d, steps, batch);
      steps := steps + [batch];
    }
    KahnFinished(d, flow.edges, inDegree, Peel(d, |steps|));
    if flow.WellFormed() {
      EnabledAcyclic(flow.nodes, flow.edges);
    }
    return Some(ExecutionPlan(steps, TotalLength(steps)));
  }

  lemma EmptyRounds(d: Digraph)
    ensures Rounds(d, []) && TotalLength([]) == |Peel(d, 0)|
  {
  }

  lemma AppendRound(d: Digraph, steps: seq<seq<Uuid>>, batch: seq<Uuid>)
    requires Rounds(d, steps) && TotalLength(steps) == |Peel(d, |steps|)|
    requires batch != [] && NoDup(batch) && |Elements(batch)| == |batch|
    requires Peel(d, |steps| + 1) == Peel(d, |steps|) + Elements(batch)
    requires forall v :: v in batch <==> v in Peel(d, |steps| + 1) && v !in Peel(d, |steps|)
    ensures Rounds(d, steps + [batch])
    ensures TotalLength(steps + [batch]) == |Peel(d, |steps| + 1)|
  {
    hide Peel, NoDup;
    assert (steps + [batch])[..|steps|] == steps;
    assert Peel(d, |steps|) !! Elements(batch);
  }

  /** A flow without cycles has none among its enabled nodes either, so every enabled node drains. */
  lemma EnabledAcyclic(nodes: seq<Node>, edges: seq<Edge>)
    requires !Cyclic(GraphOf(nodes, edges))
    ensures Closed(EnabledGraph(nodes, edges))
    ensures !Cyclic(EnabledGraph(nodes, edges))
    ensures Drained(EnabledGraph(nodes, edges)) == EnabledIds(nodes)
  {
    var d := EnabledGraph(nodes, edges);
    forall p | Cycle(d, p) ensures Cycle(GraphOf(nodes, edges), p) {
    }
    DrainedIffAcyclic(d);
  }

  // ---- What the layers mean ----

  ghost predicate Plan(d: Digraph, steps: seq<seq<Uuid>>) {
    Layers(d, steps) && Closed(d) && Drained(d) == d.nodes
  }

  lemma InStep(d: Digraph, steps: seq<seq<Uuid>>, k: nat, v: Uuid)
    requires Rounds(d, steps) && k < |steps|
    ensures v in steps[k] <==> v in Peel(d, k + 1) && v !in Peel(d, k)
  {
  }

  /** Every enabled node is in exactly one step, and no step holds anything else. */
  lemma StepsPartitionNodes(d: Digraph, steps: seq<seq<Uuid>>, v: Uuid)
    requires Plan(d, steps)
    ensures v in d.nodes <==> exists k :: 0 <= k < |steps| && v in steps[k]
    ensures forall j, k :: 0 <= j < |steps| && 0 <= k < |steps| && v in steps[j] && v in steps[k] ==> j == k
  {
    hide Rounds, Peel;
    if v in d.nodes {
      var k := FirstRound(d, |steps|, v);
      InStep(d, steps, k, v);
    }
    forall j: nat, k: nat | j < |steps| && k < |steps| && v in steps[j] && v in steps[k] ensures j == k {
      InStep(d, steps, j, v);
      InStep(d, steps, k, v);
      if j < k {
        PeelMonotone(d, j + 1, k);
      } else if k < j {
        PeelMonotone(d, k + 1, j);
      }
    }
    forall k: nat | k < |steps| && v in steps[k] ensures v in d.nodes {
      InStep(d, steps, k, v);
      PeelWithinDrained(d, k + 1);
    }
  }

  lemma {:induction false} FirstRound(d: Digraph, n: nat, v: Uuid) returns (k: nat)
    requires v in Peel(d, n)
    ensures k < n && v in Peel(d, k + 1) && v !in Peel(d, k)
  {
    if v in Peel(d, n - 1) {
      k := FirstRound(d, n - 1, v);
    } else {
      k := n - 1;
    }
  }

  /** `v` ends a chain of `k` edges and none longer. */
  ghost predicate LongestChain(d: Digraph, v: Uuid, k: nat) {
    && (exists p :: WalkTo(d, p, v) && |p| == k + 1)
    && forall p :: WalkTo(d, p, v) ==> |p| <= k + 1
  }

  /** Step `k` holds exactly the nodes whose longest incoming chain has `k` edges. */
  lemma StepIsLongestChain(d: Digraph, steps: seq<seq<Uuid>>, k: nat, v: Uuid)
    requires Plan(d, steps) && k < |steps|
    ensures v in steps[k] <==> v in d.nodes && LongestChain(d, v, k)
  {
    hide Rounds, Peel, Walk;
    InStep(d, steps, k, v);
    PeelWithinDrained(d, k + 1);
    if v in d.nodes {
      PeelIffShortWalks(d, k, v);
      PeelIffShortWalks(d, k + 1, v);
      if v in steps[k] {
        var p := LongWalk(d, k, v);
        assert LongestChain(d, v, k);
      }
    }
  }

  /** An assignment of step numbers below `n` to the nodes under which every edge goes to a later step. */
  ghost predicate RespectsEdges(d: Digraph, stepOf: map<Uuid, nat>, n: nat) {
    && stepOf.Keys == d.nodes
    && (forall v <- d.nodes :: stepOf[v] < n)
    && forall a <- d.arcs :: a.0 in stepOf && a.1 in stepOf && stepOf[a.0] < stepOf[a.1]
  }

  lemma {:induction false} WalkClimbs(d: Digraph, stepOf: map<Uuid, nat>, n: nat, p: seq<Uuid>)
    requires RespectsEdges(d, stepOf, n)
    requires Walk(d, p) && forall u <- p :: u in d.nodes
    ensures stepOf[p[|p| - 1]] >= |p| - 1
  {
    if |p| > 1 {
      var q := p[..|p| - 1];
      forall u | u in q ensures u in d.nodes {
        assert u in p;
      }
      WalkClimbs(d, stepOf, n, q);
      assert (p[|p| - 2], p[|p| - 1]) in d.arcs;
    }
  }

  /** No assignment of steps that respects the edges uses fewer steps than the plan. */
  lemma DepthIsMinimal(d: Digraph, steps: seq<seq<Uuid>>, stepOf: map<Uuid, nat>, n: nat)
    requires Plan(d, steps)
    requires RespectsEdges(d, stepOf, n)
    ensures |steps| <= n
  {
    if steps != [] {
      var k := |steps| - 1;
      var v := steps[k][0];
      assert v in steps[k];
      var p := LongWalk(d, k, v);
      WalkClimbs(d, stepOf, n, p);
    }
  }

  /** The plan itself is such an assignment, so its depth is the minimum. */
  lemma PlanRespectsEdges(d: Digraph, steps: seq<seq<Uuid>>, u: Uuid, v: Uuid, j: nat, k: nat)
    requires Plan(d, steps)
    requires j < |steps| && k < |steps| && u in steps[j] && v in steps[k]
    requires (u, v) in d.arcs
    ensures j < k
  {
    hide Rounds;
    InStep(d, steps, j, u);
    InStep(d, steps, k, v);
    assert u in Sources(d, v);
    if k <= j {
      PeelMonotone(d, k, j);
    }
  }
}
