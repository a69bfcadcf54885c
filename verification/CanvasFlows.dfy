/** From a deployed canvas to the branch a hook runs (canvas_to_flow and hook_handler in
    routes.rs): the canvas becomes a flow, the flow is cut down to the matched trigger's branch,
    and the branch is compiled. */
module CanvasFlows {
  import opened Digraphs
  import opened Flows
  import opened HookRoutes
  import opened Scheduler
  import opened TriggerBranch
  import opened Wrappers

  /** A canvas edge between two canvas ids, with its handles. */
  datatype CanvasEdge = CanvasEdge(source: string, sourceHandle: string, target: string, targetHandle: string)

  /** The ports a canvas node declares: its inputs and its outputs. */
  type Ports = CanvasNode -> (seq<Port>, seq<Port>)

  function CanvasId(n: CanvasNode): string {
    if n.id.Some? then n.id.value else "unknown"
  }

  function CanvasIds(nodes: seq<CanvasNode>): set<string> {
    set n | n in nodes :: CanvasId(n)
  }

  function CoreNode(n: CanvasNode, newId: string -> Uuid, ports: Ports): Node {
    Node(newId(CanvasId(n)), true, ports(n).0, ports(n).1)
  }

  function CoreNodes(nodes: seq<CanvasNode>, newId: string -> Uuid, ports: Ports): seq<Node> {
    seq(|nodes|, i requires 0 <= i < |nodes| => CoreNode(nodes[i], newId, ports))
  }

  /** The canvas edges whose two ends are canvas nodes, in order; the others are skipped. */
  function CoreEdges(edges: seq<CanvasEdge>, ids: set<string>, newId: string -> Uuid): seq<Edge> {
    if edges == [] then []
    else
      var e := edges[|edges| - 1];
      CoreEdges(edges[..|edges| - 1], ids, newId)
      + if e.source in ids && e.target in ids
          then [Edge(newId(e.source), e.sourceHandle, newId(e.target), e.targetHandle)] else []
  }

  /** The flow's nodes are the canvas nodes one by one, enabled, with their ports; a canvas node
      without an id goes by the name "unknown". */
  ghost predicate NodesImported(nodes: seq<CanvasNode>, core: seq<Node>, newId: string -> Uuid, ports: Ports) {
    && |core| == |nodes|
    && forall i :: 0 <= i < |nodes| ==>
         && core[i].id == newId(match nodes[i].id { case Some(id) => id case None => "unknown" })
         && core[i].enabled && (core[i].inputs, core[i].outputs) == ports(nodes[i])
  }

  /** The flow's edges are the canvas edges at the positions whose two ends are known, one by one:
      from the source's handle to the target's. */
  ghost predicate EdgesImported(edges: seq<CanvasEdge>, core: seq<Edge>, ids: set<string>, newId: string -> Uuid,
                                at: seq<nat>) {
    && Rising(at, |edges|) && |core| == |at|
    && (forall j :: 0 <= j < |edges| ==> (j in at <==> edges[j].source in ids && edges[j].target in ids))
    && forall i :: 0 <= i < |at| ==>
         && core[i].source == newId(edges[at[i]].source) && core[i].sourcePort == edges[at[i]].sourceHandle
         && core[i].target == newId(edges[at[i]].target) && core[i].targetPort == edges[at[i]].targetHandle
  }

  lemma {:induction false} CoreEdgesAt(edges: seq<CanvasEdge>, ids: set<string>, newId: string -> Uuid)
    returns (at: seq<nat>)
    ensures EdgesImported(edges, CoreEdges(edges, ids, newId), ids, newId, at)
  {
    at := [];
    if edges != [] {
      var front, last := edges[..|edges| - 1], edges[|edges| - 1];
      at := CoreEdgesAt(front, ids, newId);
      OneMoreImported(edges, CoreEdges(front, ids, newId), ids, newId, at);
      if last.source in ids && last.target in ids {
        at := at + [|front|];
      }
      hide EdgesImported;
    }
  }

  lemma OneMoreImported(edges: seq<CanvasEdge>, core: seq<Edge>, ids: set<string>, newId: string -> Uuid, at: seq<nat>)
    requires edges != [] && EdgesImported(edges[..|edges| - 1], core, ids, newId, at)
    ensures var e := edges[|edges| - 1];
            if e.source in ids && e.target in ids then
              EdgesImported(edges, core + [Edge(newId(e.source), e.sourceHandle, newId(e.target), e.targetHandle)], ids,
                            newId, at + [|edges| - 1])
            else EdgesImported(edges, core, ids, newId, at)
  {
    RisingLonger(at, |edges| - 1);
    hide Rising;
    var longer := at + [|edges| - 1];
    assert forall j :: j in longer <==> j in at || j == |edges| - 1;
    assert forall i :: 0 <= i < |at| ==> longer[i] == at[i];
  }

  /** Every end of a compiled edge is a node of the flow, so the cycle check is exact on it. */
  method CanvasToFlow(canvas: Canvas, edges: seq<CanvasEdge>, newId: string -> Uuid, ports: Ports)
    returns (flow: Flow, r: Option<map<string, Uuid>>)
    ensures fresh(flow)
    ensures r.None? <==> canvas.None?
    ensures r.Some? ==>
              && flow.nodes == CoreNodes(canvas.value, newId, ports)
              && flow.edges == CoreEdges(edges, CanvasIds(canvas.value), newId)
              && r.value == (map c | c in CanvasIds(canvas.value) :: newId(c))
              && flow.WellFormed()
    ensures r.Some? ==>
              && NodesImported(canvas.value, flow.nodes, newId, ports)
              && exists at :: EdgesImported(edges, flow.edges, CanvasIds(canvas.value), newId, at)
  {
    flow := new Flow();
    if canvas.None? {
      return flow, None;
    }
    var nodes := canvas.value;
    var idMap: map<string, Uuid> := map[];
    for i := 0 to |nodes|
      invariant flow.edges == []
      invariant flow.nodes == CoreNodes(nodes[..i], newId, ports)
      invariant idMap == map c | c in CanvasIds(nodes[..i]) :: newId(c)
    {
      flow.nodes := flow.nodes + [CoreNode(nodes[i], newId, ports)];
      assert CanvasIds(nodes[..i + 1]) == CanvasIds(nodes[..i]) + {CanvasId(nodes[i])};
      idMap := idMap[CanvasId(nodes[i]) := newId(CanvasId(nodes[i]))];
    }
    assert nodes[..|nodes|] == nodes;
    for j := 0 to |edges|
      invariant flow.nodes == CoreNodes(nodes, newId, ports)
      invariant flow.edges == CoreEdges(edges[..j], CanvasIds(nodes), newId)
    {
      assert edges[..j + 1][..j] == edges[..j];
      var e := edges[j];
      if e.source in idMap && e.target in idMap {
        flow.edges := flow.edges + [Edge(idMap[e.source], e.sourceHandle, idMap[e.target], e.targetHandle)];
      }
    }
    assert edges[..|edges|] == edges;
    CanvasFlowClosed(nodes, edges, newId, ports);
    ghost var at := CoreEdgesAt(edges, CanvasIds(nodes), newId);
    r := Some(idMap);
  }

  lemma {:induction false} CoreEdgeEnds(edges: seq<CanvasEdge>, ids: set<string>, newId: string -> Uuid)
    ensures forall e <- CoreEdges(edges, ids, newId) ::
              exists c, c' :: c in ids && c' in ids && e.source == newId(c) && e.target == newId(c')
  {
    if edges != [] {
      CoreEdgeEnds(edges[..|edges| - 1], ids, newId);
    }
  }

  lemma CanvasFlowClosed(nodes: seq<CanvasNode>, edges: seq<CanvasEdge>, newId: string -> Uuid, ports: Ports)
    ensures Closed(GraphOf(CoreNodes(nodes, newId, ports),
                           CoreEdges(edges, CanvasIds(nodes), newId)))
  {
    var core := CoreNodes(nodes, newId, ports);
    CoreEdgeEnds(edges, CanvasIds(nodes), newId);
    forall c | c in CanvasIds(nodes) ensures newId(c) in Ids(core) {
      var n :| n in nodes && CanvasId(n) == c;
      var i :| 0 <= i < |nodes| && nodes[i] == n;
      assert core[i] in core;
    }
  }

  /** What a hook runs: nothing when the trigger is missing or its branch has a cycle, otherwise a
      plan that starts with the trigger alone. */
  method PrepareHook(canvas: Canvas, edges: seq<CanvasEdge>, nodeId: string, newId: string -> Uuid, ports: Ports)
    returns (plan: Option<ExecutionPlan>, ghost keep: set<Uuid>)
    ensures canvas.None? || nodeId !in CanvasIds(canvas.value) ==> plan.None?
    ensures canvas.Some? && nodeId in CanvasIds(canvas.value) ==>
              var nodes := CoreNodes(canvas.value, newId, ports);
              var flowEdges := CoreEdges(edges, CanvasIds(canvas.value), newId);
              var branch := Restricted(nodes, flowEdges, keep);
              && ReachableSet(GraphOf(nodes, flowEdges), newId(nodeId), keep) && branch.nodes == keep
              && (plan.None? <==> Cyclic(branch))
              && (plan.Some? ==>
                    && |plan.value.steps| > 0 && plan.value.steps[0] == [newId(nodeId)]
                    && plan.value.totalNodes == |keep|
                    && forall v <- keep :: Sources(branch, v) == {} <==> v == newId(nodeId))
  {
    keep := {};
    var flow, idMap := CanvasToFlow(canvas, edges, newId, ports);
    if idMap.None? || nodeId !in idMap.value {
      return None, keep;
    }
    CoreNodesOf(canvas.value, newId, ports, nodeId);
    ghost var nodes, flowEdges := flow.nodes, flow.edges;
    hide CoreNodes, CoreEdges, CanvasIds, ReachableSet, Sources, Cyclic, Closed;
    var trigger := idMap.value[nodeId];
    plan, keep := CompileBranch(flow, trigger);
    BranchNodes(nodes, flowEdges, trigger, keep);
    hide *;
  }

  lemma CoreNodesOf(nodes: seq<CanvasNode>, newId: string -> Uuid, ports: Ports, nodeId: string)
    requires nodeId in CanvasIds(nodes)
    ensures var core := CoreNodes(nodes, newId, ports);
            newId(nodeId) in Ids(core) && forall n <- core :: n.enabled
  {
    var core := CoreNodes(nodes, newId, ports);
    var n :| n in nodes && CanvasId(n) == nodeId;
    var i :| 0 <= i < |nodes| && nodes[i] == n;
    assert core[i] in core;
  }

  lemma BranchNodes(nodes: seq<Node>, edges: seq<Edge>, trigger: Uuid, keep: set<Uuid>)
    requires Closed(GraphOf(nodes, edges)) && trigger in Ids(nodes)
    requires ReachableSet(GraphOf(nodes, edges), trigger, keep)
    ensures Restricted(nodes, edges, keep).nodes == keep && trigger in keep
  {
    KeptAreIds(nodes, edges, trigger, keep);
    RetainedIds(nodes, keep);
    ReachesItself(GraphOf(nodes, edges), trigger);
  }

  /** A request passes both of the handler's checks for its trigger exactly when the snapshot it
      reads, after its route and with any operations in between, still has a node with the route's
      id.  The second check never fails: it looks in the snapshot the first one passed. */
  lemma RoutedTriggerIsFound(upper: string -> string, ops: seq<Op>, more: seq<Op>, flowId: Uuid, key: RouteKey)
    requires FindRoute(PerformAll(upper, Empty, ops), flowId, key).Some?
    ensures var first := PerformAll(upper, Empty, ops);
            var second := PerformAll(upper, first, more);
            var id := FindRoute(first, flowId, key).value.nodeId;
            var snapshot := LastWritten(upper, SnapshotOf(first, flowId), more, flowId);
            && (ReadHook(first, second, flowId, key).Found? <==> snapshot.Some? && HasId(Nodes(snapshot.value), id))
            && (ReadHook(first, second, flowId, key).Found? ==> id in CanvasIds(Nodes(snapshot.value)))
            && ((forall op <- more :: !Rewrites(upper, op, flowId)) ==> ReadHook(first, second, flowId, key).Found?)
  {
    var first := PerformAll(upper, Empty, ops);
    var second := PerformAll(upper, first, more);
    var id := FindRoute(first, flowId, key).value.nodeId;
    LookupFindsTheTrigger(upper, ops, flowId, key, id);
    SnapshotIsLastWritten(upper, first, more, flowId);
    hide PerformAll, KeyOf, TriggerNodeConfig, LastWritten, Rewrites, IsTrigger;
    var i: nat :| OnlyTrigger(upper, Nodes(first.deployments[flowId].snapshot), i, key)
        && Nodes(first.deployments[flowId].snapshot)[i].id == Some(id);
    assert HasId(Nodes(first.deployments[flowId].snapshot), id);
    if flowId in second.deployments {
      FirstDecides(Nodes(second.deployments[flowId].snapshot), id);
      IdIsCanvasId(Nodes(second.deployments[flowId].snapshot), id);
    }
    if forall op <- more :: !Rewrites(upper, op, flowId) {
      NothingWritten(upper, SnapshotOf(first, flowId), more, flowId);
    }
  }

  lemma IdIsCanvasId(nodes: seq<CanvasNode>, id: string)
    ensures HasId(nodes, id) ==> id in CanvasIds(nodes)
  {
    if HasId(nodes, id) {
      var j :| 0 <= j < |nodes| && nodes[j].id == Some(id);
      assert nodes[j] in nodes && CanvasId(nodes[j]) == id;
    }
  }
}
