/** Cutting a flow down to one trigger's branch (restrict_to_trigger in routes.rs). */
module TriggerBranch {
  import opened Digraphs
  import opened Flows
  import opened Scheduler
  import opened Wrappers

  ghost predicate WalkFrom(d: Digraph, p: seq<Uuid>, u: Uuid, v: Uuid) {
    WalkTo(d, p, v) && p[0] == u
  }

  ghost predicate Reaches(d: Digraph, u: Uuid, v: Uuid) {
    exists p :: WalkFrom(d, p, u, v)
  }

  /** `keep` is the set of everything reachable from `trigger`. */
  ghost predicate ReachableSet(d: Digraph, trigger: Uuid, keep: set<Uuid>) {
    forall v :: v in keep <==> Reaches(d, trigger, v)
  }

  function RetainNodes(nodes: seq<Node>, keep: set<Uuid>): (r: seq<Node>)
    ensures forall n :: n in r <==> n in nodes && n.id in keep
  {
    if nodes == [] then []
    else
      var front, last := nodes[..|nodes| - 1], nodes[|nodes| - 1];
      assert nodes == front + [last];
      RetainNodes(front, keep) + if last.id in keep then [last] else []
  }

  function RetainEdges(edges: seq<Edge>, keep: set<Uuid>): (r: seq<Edge>)
    ensures forall e :: e in r <==> e in edges && e.source in keep && e.target in keep
  {
    if edges == [] then []
    else
      var front, last := edges[..|edges| - 1], edges[|edges| - 1];
      assert edges == front + [last];
      RetainEdges(front, keep) + if last.source in keep && last.target in keep then [last] else []
  }

  /** `at` lists, in increasing order, the positions in a list of `n` elements. */
  ghost predicate Rising(at: seq<nat>, n: nat) {
    && (forall i, j :: 0 <= i < j < |at| ==> at[i] < at[j])
    && forall i :: 0 <= i < |at| ==> at[i] < n
  }

  /** The nodes kept are the nodes at the positions of reachable ids: each as often as before, in order. */
  ghost predicate NodesKept(nodes: seq<Node>, kept: seq<Node>, keep: set<Uuid>, at: seq<nat>) {
    && Rising(at, |nodes|) && |kept| == |at|
    && (forall i :: 0 <= i < |at| ==> kept[i] == nodes[at[i]])
    && forall j :: 0 <= j < |nodes| ==> (j in at <==> nodes[j].id in keep)
  }

  /** Likewise the edges kept are those at the positions whose two ends are reachable. */
  ghost predicate EdgesKept(edges: seq<Edge>, kept: seq<Edge>, keep: set<Uuid>, at: seq<nat>) {
    && Rising(at, |edges|) && |kept| == |at|
    && (forall i :: 0 <= i < |at| ==> kept[i] == edges[at[i]])
    && forall j :: 0 <= j < |edges| ==> (j in at <==> edges[j].source in keep && edges[j].target in keep)
  }

  lemma RisingLonger(at: seq<nat>, n: nat)
    requires Rising(at, n)
    ensures Rising(at, n + 1) && Rising(at + [n], n + 1)
    ensures n !in at
  {
  }

  lemma {:induction false} RetainNodesAt(nodes: seq<Node>, keep: set<Uuid>) returns (at: seq<nat>)
    ensures NodesKept(nodes, RetainNodes(nodes, keep), keep, at)
  {
    at := [];
    if nodes != [] {
      var front, last := nodes[..|nodes| - 1], nodes[|nodes| - 1];
      at := RetainNodesAt(front, keep);
      OneMoreKept(nodes, RetainNodes(front, keep), keep, at);
      if last.id in keep {
        at := at + [|front|];
      }
      hide NodesKept;
    }
  }

  lemma OneMoreKept(nodes: seq<Node>, kept: seq<Node>, keep: set<Uuid>, at: seq<nat>)
    requires nodes != [] && NodesKept(nodes[..|nodes| - 1], kept, keep, at)
    ensures var last := nodes[|nodes| - 1];
            if last.id in keep then NodesKept(nodes, kept + [last], keep, at + [|nodes| - 1])
            else NodesKept(nodes, kept, keep, at)
  {
    RisingLonger(at, |nodes| - 1);
    hide Rising;
    var longer := at + [|nodes| - 1];
    assert forall j :: j in longer <==> j in at || j == |nodes| - 1;
    assert forall i :: 0 <= i < |at| ==> longer[i] == at[i];
  }

  lemma {:induction false} RetainEdgesAt(edges: seq<Edge>, keep: set<Uuid>) returns (at: seq<nat>)
    ensures EdgesKept(edges, RetainEdges(edges, keep), keep, at)
  {
    at := [];
    if edges != [] {
      var front, last := edges[..|edges| - 1], edges[|edges| - 1];
      at := RetainEdgesAt(front, keep);
      OneMoreEdge(edges, RetainEdges(front, keep), keep, at);
      if last.source in keep && last.target in keep {
        at := at + [|front|];
      }
      hide EdgesKept;
    }
  }

  lemma OneMoreEdge(edges: seq<Edge>, kept: seq<Edge>, keep: set<Uuid>, at: seq<nat>)
    requires edges != [] && EdgesKept(edges[..|edges| - 1], kept, keep, at)
    ensures var last := edges[|edges| - 1];
            if last.source in keep && last.target in keep then EdgesKept(edges, kept + [last], keep, at + [|edges| - 1])
            else EdgesKept(edges, kept, keep, at)
  {
    RisingLonger(at, |edges| - 1);
    hide Rising;
    var longer := at + [|edges| - 1];
    assert forall j :: j in longer <==> j in at || j == |edges| - 1;
    assert forall i :: 0 <= i < |at| ==> longer[i] == at[i];
  }

  lemma ReachStep(d: Digraph, trigger: Uuid, u: Uuid, v: Uuid)
    requires Reaches(d, trigger, u) && (u, v) in d.arcs
    ensures Reaches(d, trigger, v)
  {
    var p :| WalkFrom(d, p, trigger, u);
    assert WalkFrom(d, p + [v], trigger, v);
  }

  lemma {:induction false} ClosedSetHoldsWalks(d: Digraph, s: set<Uuid>, p: seq<Uuid>)
    requires forall a <- d.arcs :: a.0 in s ==> a.1 in s
    requires Walk(d, p) && p[0] in s
    ensures forall u <- p :: u in s
  {
    if |p| > 1 {
      var q := p[..|p| - 1];
      ClosedSetHoldsWalks(d, s, q);
      assert q[|q| - 1] in q && (q[|q| - 1], p[|p| - 1]) in d.arcs;
      assert p == q + [p[|p| - 1]];
    }
  }

  lemma ReachedIsKept(d: Digraph, trigger: Uuid, keep: set<Uuid>, v: Uuid)
    requires trigger in keep
    requires forall a <- d.arcs :: a.0 in keep ==> a.1 in keep
    requires Reaches(d, trigger, v)
    ensures v in keep
  {
    var p :| WalkFrom(d, p, trigger, v);
    ClosedSetHoldsWalks(d, keep, p);
    assert p[|p| - 1] in p;
  }

  lemma ReachesItself(d: Digraph, trigger: Uuid)
    ensures Reaches(d, trigger, trigger)
  {
    assert WalkFrom(d, [trigger], trigger, trigger);
  }

  /** One breadth-first visit: adds the unseen targets of `node` to the kept set and to the queue. */
  method Expand(edges: seq<Edge>, node: Uuid, keep0: set<Uuid>, queue0: seq<Uuid>, ghost d: Digraph,
      ghost trigger: Uuid)
    returns (keep: set<Uuid>, queue: seq<Uuid>, ghost added: seq<Uuid>)
    requires d.arcs == Arcs(edges)
    requires Reaches(d, trigger, node)
    requires forall v <- keep0 :: Reaches(d, trigger, v)
    ensures keep0 <= keep <= keep0 + Targets(edges)
    ensures forall v <- keep :: Reaches(d, trigger, v)
    ensures forall e <- edges :: e.source == node ==> e.target in keep
    ensures queue == queue0 + added && NoDup(added)
    ensures forall v :: v in added <==> v in keep && v !in keep0
  {
    hide Reaches;
    keep, queue, added := keep0, queue0, [];
    for j := 0 to |edges|
      invariant queue == queue0 + added && NoDup(added)
      invariant keep0 <= keep <= keep0 + Targets(edges)
      invariant forall v <- keep :: Reaches(d, trigger, v)
      invariant forall v :: v in added <==> v in keep && v !in keep0
      invariant forall i :: 0 <= i < j && edges[i].source == node ==> edges[i].target in keep
    {
      var edge := edges[j];
      if edge.source == node {
        assert edge in edges;
        ReachStep(d, trigger, node, edge.target);
        if edge.target !in keep {
          keep := keep + {edge.target};
          queue := queue + [edge.target];
          added := added + [edge.target];
        }
      }
    }
  }

  /** Where the search stands: the kept nodes are those visited or queued, all of them
      reachable, and the visited ones have all their targets kept. */
  ghost predicate Searching(d: Digraph, edges: seq<Edge>, trigger: Uuid, keep: set<Uuid>, queue: seq<Uuid>,
      visited: set<Uuid>) {
    && trigger in keep && keep <= {trigger} + Targets(edges)
    && (forall v <- keep :: Reaches(d, trigger, v))
    && (forall v :: v in keep <==> v in visited || v in queue)
    && (forall v <- queue :: v !in visited)
    && NoDup(queue)
    && forall e <- edges :: e.source in visited ==> e.target in keep
  }

  lemma SearchStep(d: Digraph, edges: seq<Edge>, trigger: Uuid, keep: set<Uuid>, queue: seq<Uuid>, visited: set<Uuid>,
                   wider: set<Uuid>, added: seq<Uuid>)
    requires Searching(d, edges, trigger, keep, queue, visited) && queue != []
    requires keep <= wider <= keep + Targets(edges)
    requires forall v <- wider :: Reaches(d, trigger, v)
    requires forall e <- edges :: e.source == queue[0] ==> e.target in wider
    requires NoDup(added) && forall v :: v in added <==> v in wider && v !in keep
    ensures queue[0] in keep && queue[0] !in visited
    ensures Searching(d, edges, trigger, wider, queue[1..] + added, visited + {queue[0]})
  {
    hide Reaches;
    assert queue[0] in queue;
    assert forall v :: v in queue <==> v == queue[0] || v in queue[1..];
    NoDupConcat(queue[1..], added);
  }

  /** Breadth-first search from the trigger, on any graph. */
  method ReachableFrom(edges: seq<Edge>, trigger: Uuid, ghost d: Digraph) returns (keep: set<Uuid>)
    requires d.arcs == Arcs(edges)
    ensures ReachableSet(d, trigger, keep)
  {
    hide Reaches;
    keep := {trigger};
    var queue := [trigger];
    ReachesItself(d, trigger);
    ghost var visited: set<Uuid> := {};
    while queue != []
      invariant Searching(d, edges, trigger, keep, queue, visited)
      decreases {trigger} + Targets(edges) - visited
    {
      ghost var keep0, queue0 := keep, queue;
      assert queue[0] in queue;
      ghost var added;
      keep, queue, added := Expand(edges, queue[0], keep, queue[1..], d, trigger);
      SearchStep(d, edges, trigger, keep0, queue0, visited, keep, added);
      visited := visited + {queue0[0]};
    }
    forall v | Reaches(d, trigger, v) ensures v in keep {
      ReachedIsKept(d, trigger, keep, v);
    }
  }

  /** Keeps exactly the nodes reachable from the trigger, in their order, and the edges among them. */
  method RestrictToTrigger(flow: Flow, trigger: Uuid) returns (ghost keep: set<Uuid>)
    modifies flow
    ensures ReachableSet(old(flow.Graph()), trigger, keep)
    ensures flow.nodes == RetainNodes(old(flow.nodes), keep)
    ensures flow.edges == RetainEdges(old(flow.edges), keep)
    ensures exists at :: NodesKept(old(flow.nodes), flow.nodes, keep, at)
    ensures exists at :: EdgesKept(old(flow.edges), flow.edges, keep, at)
    ensures old(flow.WellFormed()) ==> flow.WellFormed()
  {
    var kept := ReachableFrom(flow.edges, trigger, flow.Graph());
    RetainedClosed(flow.nodes, flow.edges, kept);
    ghost var nodesAt := RetainNodesAt(flow.nodes, kept);
    ghost var edgesAt := RetainEdgesAt(flow.edges, kept);
    flow.nodes := RetainNodes(flow.nodes, kept);
    flow.edges := RetainEdges(flow.edges, kept);
    keep := kept;
  }

  lemma RetainedClosed(nodes: seq<Node>, edges: seq<Edge>, keep: set<Uuid>)
    ensures Closed(GraphOf(nodes, edges)) ==> Closed(GraphOf(RetainNodes(nodes, keep), RetainEdges(edges, keep)))
  {
    if Closed(GraphOf(nodes, edges)) {
      forall e | e in RetainEdges(edges, keep)
        ensures e.source in Ids(RetainNodes(nodes, keep)) && e.target in Ids(RetainNodes(nodes, keep))
      {
        assert (e.source, e.target) in Arcs(edges);
        RetainedIds(nodes, keep);
      }
    }
  }

  lemma RetainedIds(nodes: seq<Node>, keep: set<Uuid>)
    ensures Ids(RetainNodes(nodes, keep)) == Ids(nodes) * keep
  {
    forall id | id in Ids(nodes) * keep ensures id in Ids(RetainNodes(nodes, keep)) {
      var n :| n in nodes && n.id == id;
    }
  }

  ghost function Restricted(nodes: seq<Node>, edges: seq<Edge>, keep: set<Uuid>): Digraph {
    GraphOf(RetainNodes(nodes, keep), RetainEdges(edges, keep))
  }

  /** No path from the trigger is lost, and none is invented. */
  lemma BranchKeepsWalks(nodes: seq<Node>, edges: seq<Edge>, trigger: Uuid, keep: set<Uuid>, p: seq<Uuid>)
    requires ReachableSet(GraphOf(nodes, edges), trigger, keep)
    requires |p| > 0 && p[0] == trigger
    ensures Walk(GraphOf(nodes, edges), p) <==> Walk(Restricted(nodes, edges, keep), p)
  {
    var d := GraphOf(nodes, edges);
    if Walk(d, p) {
      forall i | 0 <= i < |p| ensures p[i] in keep {
        assert WalkFrom(d, p[..i + 1], trigger, p[i]);
      }
      forall i | 0 < i < |p| ensures (p[i - 1], p[i]) in Restricted(nodes, edges, keep).arcs {
        assert (p[i - 1], p[i]) in d.arcs;
        var e :| e in edges && (e.source, e.target) == (p[i - 1], p[i]);
        assert e in RetainEdges(edges, keep);
      }
    }
    if Walk(Restricted(nodes, edges, keep), p) {
      forall i | 0 < i < |p| ensures (p[i - 1], p[i]) in d.arcs {
        assert (p[i - 1], p[i]) in Restricted(nodes, edges, keep).arcs;
      }
    }
  }

  /** In a branch without cycles the trigger is the only node that no edge enters. */
  lemma TriggerIsOnlyRoot(nodes: seq<Node>, edges: seq<Edge>, trigger: Uuid, keep: set<Uuid>, v: Uuid)
    requires ReachableSet(GraphOf(nodes, edges), trigger, keep)
    requires !Cyclic(Restricted(nodes, edges, keep))
    requires v in keep
    ensures Sources(Restricted(nodes, edges, keep), v) == {} <==> v == trigger
  {
    var d, r := GraphOf(nodes, edges), Restricted(nodes, edges, keep);
    var p :| WalkFrom(d, p, trigger, v);
    if v != trigger {
      BranchKeepsWalks(nodes, edges, trigger, keep, p);
      assert (p[|p| - 2], p[|p| - 1]) in r.arcs;
      assert p[|p| - 2] in Sources(r, v);
    } else if u :| u in Sources(r, trigger) {
      assert (u, trigger) in r.arcs;
      var e :| e in RetainEdges(edges, keep) && (e.source, e.target) == (u, trigger);
      var q :| WalkFrom(d, q, trigger, u);
      BranchKeepsWalks(nodes, edges, trigger, keep, q);
      assert Cycle(r, q + [trigger]);
    }
  }

  /** The restricted flow, when it compiles, starts with the trigger alone: step 0 is
      `[trigger]`, and no other node is a root that would also take the trigger message. */
  method CompileBranch(flow: Flow, trigger: Uuid) returns (r: Option<ExecutionPlan>, ghost keep: set<Uuid>)
    requires flow.WellFormed() && trigger in Ids(flow.nodes)
    requires forall n <- flow.nodes :: n.enabled
    modifies flow
    ensures ReachableSet(old(flow.Graph()), trigger, keep)
    ensures flow.Graph() == Restricted(old(flow.nodes), old(flow.edges), keep)
    ensures r.None? <==> Cyclic(flow.Graph())
    ensures r.Some? ==> |r.value.steps| > 0 && r.value.steps[0] == [trigger]
    ensures r.Some? ==> forall v <- Ids(flow.nodes) :: Sources(flow.Graph(), v) == {} <==> v == trigger
    ensures r.Some? ==> r.value.totalNodes == |keep|
  {
    ghost var nodes, edges := flow.nodes, flow.edges;
    keep := RestrictToTrigger(flow, trigger);
    r := Compile(flow);
    if r.Some? {
      BranchStartsAtTrigger(nodes, edges, trigger, keep, r.value.steps);
    }
  }

  lemma BranchStartsAtTrigger(nodes: seq<Node>, edges: seq<Edge>, trigger: Uuid, keep: set<Uuid>, steps: seq<seq<Uuid>>)
    requires Closed(GraphOf(nodes, edges)) && trigger in Ids(nodes)
    requires forall n <- nodes :: n.enabled
    requires ReachableSet(GraphOf(nodes, edges), trigger, keep)
    requires !Cyclic(Restricted(nodes, edges, keep))
    requires Layers(EnabledGraph(RetainNodes(nodes, keep), RetainEdges(edges, keep)), steps)
    ensures Ids(RetainNodes(nodes, keep)) == keep == EnabledIds(RetainNodes(nodes, keep))
    ensures forall v <- keep :: Sources(Restricted(nodes, edges, keep), v) == {} <==> v == trigger
    ensures |steps| > 0 && steps[0] == [trigger]
  {
    var d := Restricted(nodes, edges, keep);
    KeptAreIds(nodes, edges, trigger, keep);
    RetainedIds(nodes, keep);
    AllEnabled(nodes, edges, keep);
    forall v | v in keep ensures Sources(d, v) == {} <==> v == trigger {
      TriggerIsOnlyRoot(nodes, edges, trigger, keep, v);
    }
    ReachesItself(GraphOf(nodes, edges), trigger);
    DrainedIffAcyclic(d);
    assert Peel(d, 1) == {trigger};
    FirstStepIsSingleton(d, steps, trigger);
  }

  lemma FirstStepIsSingleton(d: Digraph, steps: seq<seq<Uuid>>, trigger: Uuid)
    requires Layers(d, steps) && Peel(d, 1) == {trigger} && trigger in Drained(d)
    ensures |steps| > 0 && steps[0] == [trigger]
  {
    if steps != [] {
      var s := steps[0];
      InStep(d, steps, 0, trigger);
      assert forall i :: 0 <= i < |s| ==> s[i] in s && s[i] == trigger;
      assert s[0] == s[|s| - 1];
    }
  }

  lemma KeptAreIds(nodes: seq<Node>, edges: seq<Edge>, trigger: Uuid, keep: set<Uuid>)
    requires Closed(GraphOf(nodes, edges)) && trigger in Ids(nodes)
    requires ReachableSet(GraphOf(nodes, edges), trigger, keep)
    ensures keep <= Ids(nodes)
  {
    forall v | v in keep ensures v in Ids(nodes) {
      ReachedIsKept(GraphOf(nodes, edges), trigger, Ids(nodes), v);
    }
  }

  lemma AllEnabled(nodes: seq<Node>, edges: seq<Edge>, keep: set<Uuid>)
    requires forall n <- nodes :: n.enabled
    requires Closed(GraphOf(nodes, edges))
    ensures var kept, among := RetainNodes(nodes, keep), RetainEdges(edges, keep);
            EnabledGraph(kept, among) == GraphOf(kept, among)
  {
    var kept, among := RetainNodes(nodes, keep), RetainEdges(edges, keep);
    assert EnabledIds(kept) == Ids(kept);
    RetainedClosed(nodes, edges, keep);
    forall a | a in Arcs(among) ensures a in EnabledArcs(kept, among) {
      var e :| e in among && (e.source, e.target) == a;
      assert a in GraphOf(kept, among).arcs;
    }
    assert EnabledArcs(kept, among) == Arcs(among);
  }
}
