/** The flow data model (flow.rs): nodes, edges, and Kahn's algorithm over them. */
module Flows {
  import opened Digraphs
  import opened Wrappers

  datatype PortType = Any | Text | Number | Boolean | Object | Array | Binary
  datatype Port = Port(name: string, portType: PortType)
  datatype Node = Node(id: Uuid, enabled: bool, inputs: seq<Port>, outputs: seq<Port>)
  datatype Edge = Edge(source: Uuid, sourcePort: string, target: Uuid, targetPort: string)

  datatype ConnectError =
    | InvalidEdge(source: Uuid, target: Uuid)
    | PortNotFound(node: Uuid, port: string)
    | TypeMismatch(sourceType: PortType, targetType: PortType)

  predicate Compatible(a: PortType, b: PortType) {
    a == b || a == Any || b == Any
  }

  function Ids(nodes: seq<Node>): set<Uuid> {
    set n | n in nodes :: n.id
  }

  function EnabledIds(nodes: seq<Node>): set<Uuid> {
    set n | n in nodes && n.enabled :: n.id
  }

  function Targets(edges: seq<Edge>): set<Uuid> {
    set e | e in edges :: e.target
  }

  function Arcs(edges: seq<Edge>): set<(Uuid, Uuid)> {
    set e | e in edges :: (e.source, e.target)
  }

  /** The graph a flow draws: duplicate ids name one node, parallel edges one arc. */
  function GraphOf(nodes: seq<Node>, edges: seq<Edge>): Digraph {
    Digraph(Ids(nodes), Arcs(edges))
  }

  /** The graph the cycle check really walks: a target that is no node is counted as well. */
  function CheckedGraph(nodes: seq<Node>, edges: seq<Edge>): Digraph {
    Digraph(Ids(nodes) + Targets(edges), Arcs(edges))
  }

  /** The condition the cycle check tests: as many nodes drained as there are ids. */
  ghost predicate PassesCheck(nodes: seq<Node>, edges: seq<Edge>) {
    |Drained(CheckedGraph(nodes, edges))| == |Ids(nodes)|
  }

  ghost predicate NoDup<T>(s: seq<T>) {
    forall i, j :: 0 <= i < j < |s| ==> s[i] != s[j]
  }

  /** Every arc between members of `order` points forward. */
  ghost predicate Respects(order: seq<Uuid>, arcs: set<(Uuid, Uuid)>) {
    forall i, j :: 0 <= i < |order| && 0 <= j < |order| && (order[i], order[j]) in arcs ==> i < j
  }

  // ---- Bookkeeping of Kahn's algorithm ----

  /** The indices of edges of `d` whose source is not yet processed. */
  ghost function Pending(d: Digraph, edges: seq<Edge>, done: set<Uuid>): set<int> {
    set i | 0 <= i < |edges| && (edges[i].source, edges[i].target) in d.arcs && edges[i].source !in done
  }

  /** What is pending when the first `j` edges have been relaxed on behalf of `node`. */
  ghost function Unrelaxed(d: Digraph, edges: seq<Edge>, done: set<Uuid>, node: Uuid, j: nat): set<int> {
    set i | i in Pending(d, edges, done) && (i >= j || edges[i].source != node)
  }

  ghost function Into(edges: seq<Edge>, left: set<int>, v: Uuid): set<int>
    requires forall i <- left :: 0 <= i < |edges|
  {
    set i | i in left && edges[i].target == v
  }

  /** `inDegree` counts, with multiplicity, the edges in `left` entering each node. */
  ghost predicate Counts(d: Digraph, edges: seq<Edge>, inDegree: map<Uuid, nat>, left: set<int>) {
    && (forall i <- left :: 0 <= i < |edges|)
    && inDegree.Keys == d.nodes
    && forall v <- d.nodes :: inDegree[v] == |Into(edges, left, v)|
  }

  ghost function Below(n: nat): (r: set<int>)
    ensures forall i :: i in r <==> 0 <= i < n
  {
    if n == 0 then {} else Below(n - 1) + {n - 1}
  }

  ghost predicate ArcsFromEdges(d: Digraph, edges: seq<Edge>) {
    d.arcs <= Arcs(edges)
  }

  /** The edges leaving `node` that enter the graph are arcs of it. */
  ghost predicate RelaxesOwnArcs(d: Digraph, edges: seq<Edge>, node: Uuid) {
    forall e <- edges :: e.source == node && e.target in d.nodes ==> (e.source, e.target) in d.arcs
  }

  /** What is processed and what is ready, as far as the graph is concerned. */
  ghost predicate Ready(d: Digraph, queue: seq<Uuid>, done: set<Uuid>) {
    && NoDup(queue)
    && done <= Drained(d)
    && (forall v <- queue :: v in Drained(d) && v !in done)
    && forall v <- d.nodes :: Sources(d, v) <= done <==> v in done || v in queue
  }

  /** State of the algorithm between two visits: `done` is processed, `queue` is ready. */
  ghost predicate KahnInv(d: Digraph, edges: seq<Edge>, inDegree: map<Uuid, nat>, queue: seq<Uuid>, done: set<Uuid>) {
    && Counts(d, edges, inDegree, Pending(d, edges, done))
    && Ready(d, queue, done)
  }

  /** The nodes that become ready when `node` is processed, each listed once. */
  ghost predicate NewlyReady(d: Digraph, done: set<Uuid>, node: Uuid, added: seq<Uuid>) {
    && NoDup(added)
    && forall v :: v in added <==> v in d.nodes && Sources(d, v) <= done + {node} && !(Sources(d, v) <= done)
  }

  /** An edge still counted has a target of positive in-degree, which processing it lowers by one. */
  lemma CountDown(d: Digraph, edges: seq<Edge>, inDegree: map<Uuid, nat>, left: set<int>, j: int)
    requires Counts(d, edges, inDegree, left)
    requires j in left
    ensures edges[j].target !in inDegree ==> Counts(d, edges, inDegree, left - {j})
    ensures edges[j].target in inDegree ==>
              var t := edges[j].target;
              inDegree[t] > 0 && Counts(d, edges, inDegree[t := inDegree[t] - 1], left - {j})
  {
    var t := edges[j].target;
    assert j in Into(edges, left, t);
    assert Into(edges, left - {j}, t) == Into(edges, left, t) - {j};
    forall v | v in d.nodes && v != t ensures Into(edges, left - {j}, v) == Into(edges, left, v) {
    }
  }

  lemma ZeroIffSourcesDone(d: Digraph, edges: seq<Edge>, done: set<Uuid>, v: Uuid)
    requires ArcsFromEdges(d, edges)
    ensures |Into(edges, Pending(d, edges, done), v)| == 0 <==> Sources(d, v) <= done
  {
    var into := Into(edges, Pending(d, edges, done), v);
    if Sources(d, v) <= done {
      forall i | 0 <= i < |edges| && edges[i].target == v && (edges[i].source, v) in d.arcs
          ensures edges[i].source in done {
        assert edges[i].source in Sources(d, v);
      }
      assert into == {};
    } else {
      var u :| u in Sources(d, v) && u !in done;
      assert (u, v) in Arcs(edges);
      var e :| e in edges && (e.source, e.target) == (u, v);
      var i :| 0 <= i < |edges| && edges[i] == e;
      assert i in into;
    }
  }

  /** When the queue is empty, exactly the drained nodes have been processed. */
  lemma KahnFinished(d: Digraph, edges: seq<Edge>, inDegree: map<Uuid, nat>, done: set<Uuid>)
    requires KahnInv(d, edges, inDegree, [], done)
    ensures done == Drained(d)
  {
    ClosedSetContainsPeel(d, done, |d.nodes|);
  }

  /** `added` lists, each once, the nodes whose in-degree went from positive to zero. */
  ghost predicate Zeroed(before: map<Uuid, nat>, after: map<Uuid, nat>, added: seq<Uuid>) {
    && before.Keys == after.Keys
    && NoDup(added)
    && (forall v <- after :: after[v] <= before[v])
    && forall v :: v in added <==> v in after && before[v] > 0 && after[v] == 0
  }

  lemma ZeroedStep(before: map<Uuid, nat>, after: map<Uuid, nat>, added: seq<Uuid>, t: Uuid)
    requires Zeroed(before, after, added)
    requires t in after && after[t] > 0
    ensures Zeroed(before, after[t := after[t] - 1], if after[t] == 1 then added + [t] else added)
  {
    NoDupConcat(added, [t]);
  }

  lemma RelaxIndex(d: Digraph, edges: seq<Edge>, done: set<Uuid>, node: Uuid, j: nat)
    requires j < |edges| && node !in done
    requires RelaxesOwnArcs(d, edges, node)
    ensures var now := Unrelaxed(d, edges, done, node, j);
            Unrelaxed(d, edges, done, node, j + 1) == if edges[j].source == node && j in now then now - {j} else now
    ensures edges[j].source == node && edges[j].target in d.nodes ==> j in Unrelaxed(d, edges, done, node, j)
  {
  }

  lemma RelaxedAll(d: Digraph, edges: seq<Edge>, done: set<Uuid>, node: Uuid)
    ensures Unrelaxed(d, edges, done, node, 0) == Pending(d, edges, done)
    ensures Unrelaxed(d, edges, done, node, |edges|) == Pending(d, edges, done + {node})
  {
  }

  /** Relaxes the edges leaving `node`: every in-degree it lowers is positive, and the
      targets that reach zero are appended to the queue, each once. */
  method ReduceSuccessors(edges: seq<Edge>, node: Uuid, inDegree0: map<Uuid, nat>, queue0: seq<Uuid>,
                          ghost d: Digraph, ghost done: set<Uuid>)
    returns (inDegree: map<Uuid, nat>, queue: seq<Uuid>, ghost added: seq<Uuid>)
    requires ArcsFromEdges(d, edges)
    requires Counts(d, edges, inDegree0, Pending(d, edges, done))
    requires node !in done
    requires RelaxesOwnArcs(d, edges, node)
    ensures Counts(d, edges, inDegree, Pending(d, edges, done + {node}))
    ensures queue == queue0 + added && NewlyReady(d, done, node, added)
  {
    hide Pending, Unrelaxed, NewlyReady, ArcsFromEdges;
    inDegree, queue, added := inDegree0, queue0, [];
    RelaxedAll(d, edges, done, node);
    for j := 0 to |edges|
      invariant queue == queue0 + added
      invariant Counts(d, edges, inDegree, Unrelaxed(d, edges, done, node, j))
      invariant Zeroed(inDegree0, inDegree, added)
    {
      RelaxIndex(d, edges, done, node, j);
      if edges[j].source == node {
        var target := edges[j].target;
        if j in Unrelaxed(d, edges, done, node, j) {
          CountDown(d, edges, inDegree, Unrelaxed(d, edges, done, node, j), j);
        }
        if target in inDegree {
          ZeroedStep(inDegree0, inDegree, added, target);
          inDegree := inDegree[target := inDegree[target] - 1];
          if inDegree[target] == 0 {
            queue := queue + [target];
            added := added + [target];
          }
        }
      }
    }
    RelaxedAll(d, edges, done, node);
    ZeroedAreNewlyReady(d, edges, inDegree0, inDegree, done, node, added);
  }

  lemma ZeroedAreNewlyReady(d: Digraph, edges: seq<Edge>, before: map<Uuid, nat>, after: map<Uuid, nat>,
                            done: set<Uuid>, node: Uuid, added: seq<Uuid>)
    requires ArcsFromEdges(d, edges)
    requires Counts(d, edges, before, Pending(d, edges, done))
    requires Counts(d, edges, after, Pending(d, edges, done + {node}))
    requires Zeroed(before, after, added)
    ensures NewlyReady(d, done, node, added)
  {
    forall v | v in d.nodes
      ensures before[v] == 0 <==> Sources(d, v) <= done
      ensures after[v] == 0 <==> Sources(d, v) <= done + {node}
    {
      ZeroIffSourcesDone(d, edges, done, v);
      ZeroIffSourcesDone(d, edges, done + {node}, v);
    }
  }

  lemma AllCounted(nodes: seq<Node>, edges: seq<Edge>)
    ensures Pending(CheckedGraph(nodes, edges), edges, {}) == Below(|edges|)
    ensures edges[..|edges|] == edges
  {
    assert forall i :: 0 <= i < |edges| ==> edges[i] in edges;
  }

  lemma CountUp(edges: seq<Edge>, j: nat)
    requires j < |edges|
    ensures Targets(edges[..j + 1]) == Targets(edges[..j]) + {edges[j].target}
    ensures forall v :: |Into(edges, Below(j + 1), v)| == |Into(edges, Below(j), v)| + if v == edges[j].target
            then 1 else 0
  {
    assert edges[..j + 1] == edges[..j] + [edges[j]];
    forall v ensures |Into(edges, Below(j + 1), v)| == |Into(edges, Below(j), v)| + if v == edges[j].target
        then 1 else 0 {
      CountOneUp(edges, j, v);
      hide *;
    }
  }

  lemma CountOneUp(edges: seq<Edge>, j: nat, v: Uuid)
    requires j < |edges|
    ensures |Into(edges, Below(j + 1), v)| == |Into(edges, Below(j), v)| + if v == edges[j].target then 1 else 0
  {
    var before, after := Into(edges, Below(j), v), Into(edges, Below(j + 1), v);
    assert after == if v == edges[j].target then before + {j} else before;
  }

  /** Collects the nodes of in-degree zero in an arbitrary order, as a hash map yields them. */
  method Seed(inDegree: map<Uuid, nat>) returns (queue: seq<Uuid>)
    ensures NoDup(queue)
    ensures forall v :: v in queue <==> v in inDegree && inDegree[v] == 0
  {
    queue := [];
    var rest := inDegree.Keys;
    while rest != {}
      invariant rest <= inDegree.Keys
      invariant NoDup(queue)
      invariant forall v :: v in queue <==> v in inDegree && v !in rest && inDegree[v] == 0
      decreases rest
    {
      var v :| v in rest;
      rest := rest - {v};
      if inDegree[v] == 0 {
        queue := queue + [v];
      }
    }
  }

  lemma SeedInv(d: Digraph, edges: seq<Edge>, inDegree: map<Uuid, nat>, queue: seq<Uuid>)
    requires ArcsFromEdges(d, edges)
    requires Counts(d, edges, inDegree, Pending(d, edges, {}))
    requires NoDup(queue)
    requires forall v :: v in queue <==> v in inDegree && inDegree[v] == 0
    ensures KahnInv(d, edges, inDegree, queue, {})
    ensures forall v :: v in queue <==> v in Peel(d, 1)
  {
    forall v | v in d.nodes ensures inDegree[v] == 0 <==> Sources(d, v) <= {} {
      ZeroIffSourcesDone(d, edges, {}, v);
    }
    PeelWithinDrained(d, 1);
  }

  lemma NoDupConcat<T>(a: seq<T>, b: seq<T>)
    requires NoDup(a) && NoDup(b)
    requires forall x <- b :: x !in a
    ensures NoDup(a + b)
  {
    var s := a + b;
    forall i, j | 0 <= i < j < |s| ensures s[i] != s[j] {
      if i < |a| <= j {
        assert s[j] in b && s[i] in a;
      }
    }
  }

  lemma ReadyStep(d: Digraph, queue: seq<Uuid>, done: set<Uuid>, added: seq<Uuid>)
    requires |queue| > 0 && Ready(d, queue, done)
    requires NewlyReady(d, done, queue[0], added)
    ensures Sources(d, queue[0]) <= done
    ensures Ready(d, queue[1..] + added, done + {queue[0]})
  {
    var node, tail := queue[0], queue[1..];
    assert node in queue;
    assert forall v :: v in queue <==> v == node || v in tail;
    forall v | v in added ensures v in Drained(d) && v !in done && v !in queue {
      DrainedStep(d, v);
    }
    NoDupConcat(tail, added);
  }

  /** Processes the front of the queue. */
  method Visit(edges: seq<Edge>, inDegree0: map<Uuid, nat>, queue0: seq<Uuid>, ghost d: Digraph, ghost done: set<Uuid>)
    returns (node: Uuid, inDegree: map<Uuid, nat>, queue: seq<Uuid>)
    requires ArcsFromEdges(d, edges)
    requires KahnInv(d, edges, inDegree0, queue0, done)
    requires |queue0| > 0
    requires RelaxesOwnArcs(d, edges, queue0[0])
    ensures node == queue0[0] && node !in done && node in Drained(d) && Sources(d, node) <= done
    ensures KahnInv(d, edges, inDegree, queue, done + {node})
  {
    node := queue0[0];
    assert node in queue0;
    ghost var added;
    inDegree, queue, added := ReduceSuccessors(edges, node, inDegree0, queue0[1..], d, done);
    ReadyStep(d, queue0, done, added);
  }

  lemma RespectsAppend(order: seq<Uuid>, node: Uuid, d: Digraph, done: set<Uuid>)
    requires forall v :: v in order <==> v in done
    requires NoDup(order) && Respects(order, d.arcs)
    requires forall v <- done :: Sources(d, v) <= done
    requires node !in done && Sources(d, node) <= done
    ensures NoDup(order + [node]) && Respects(order + [node], d.arcs)
  {
    var longer := order + [node];
    forall i, j | 0 <= i < |longer| && 0 <= j < |longer| && (longer[i], longer[j]) in d.arcs ensures i < j {
      assert longer[i] in Sources(d, longer[j]);
      if j < |order| {
        assert order[j] in done;
      }
    }
  }

  // ---- The flow ----

  class Flow {
    var nodes: seq<Node>
    var edges: seq<Edge>

    constructor ()
      ensures nodes == [] && edges == []
      ensures WellFormed()
    {
      nodes, edges := [], [];
    }

    ghost function Graph(): Digraph
      reads this
    {
      GraphOf(nodes, edges)
    }

    /** Every edge joins two nodes of the flow; `Connect` and the canvas import keep this. */
    ghost predicate WellFormed()
      reads this
    {
      Closed(Graph())
    }

    method AddNode(node: Node)
      modifies this
      ensures nodes == old(nodes) + [node] && edges == old(edges)
      ensures old(WellFormed()) ==> WellFormed()
    {
      nodes := nodes + [node];
    }

    method FindNode(id: Uuid) returns (r: Option<Node>)
      ensures r.None? <==> id !in Ids(nodes)
      ensures r.Some? ==> IsFirstNode(nodes, id, r.value)
    {
      for i := 0 to |nodes|
        invariant forall j :: 0 <= j < i ==> nodes[j].id != id
      {
        if nodes[i].id == id {
          return Some(nodes[i]);
        }
      }
      return None;
    }

    /** Adds an edge only between existing nodes and existing ports of compatible types. */
    method Connect(source: Uuid, sourcePort: string, target: Uuid, targetPort: string)
      returns (r: Result<Edge, ConnectError>)
      modifies this
      ensures nodes == old(nodes)
      ensures edges == if r.Ok? then old(edges) + [r.value] else old(edges)
      ensures r.Ok? ==> r.value == Edge(source, sourcePort, target, targetPort)
      ensures r == Err(InvalidEdge(source, target)) <==> source !in Ids(nodes) || target !in Ids(nodes)
      ensures forall from, to :: IsFirstNode(nodes, source, from) && IsFirstNode(nodes, target, to) ==>
                ConnectOutcome(from, sourcePort, to, targetPort, r)
      ensures old(WellFormed()) ==> WellFormed()
    {
      var from := FindNode(source);
      var to := FindNode(target);
      if from.None? || to.None? {
        return Err(InvalidEdge(source, target));
      }
      var outPort := FindPort(from.value.outputs, sourcePort);
      if outPort.None? {
        return Err(PortNotFound(source, sourcePort));
      }
      var inPort := FindPort(to.value.inputs, targetPort);
      if inPort.None? {
        return Err(PortNotFound(target, targetPort));
      }
      if !Compatible(outPort.value.portType, inPort.value.portType) {
        return Err(TypeMismatch(outPort.value.portType, inPort.value.portType));
      }
      edges := edges + [Edge(source, sourcePort, target, targetPort)];
      return Ok(Edge(source, sourcePort, target, targetPort));
    }

    /** In-degrees of the cycle check: every node starts at zero, every edge counts. */
    method InDegrees() returns (inDegree: map<Uuid, nat>)
      ensures Counts(CheckedGraph(nodes, edges), edges, inDegree, Pending(CheckedGraph(nodes, edges), edges, {}))
    {
      inDegree := map id | id in Ids(nodes) :: 0;
      for j := 0 to |edges|
        invariant inDegree.Keys == Ids(nodes) + Targets(edges[..j])
        invariant forall v :: |Into(edges, Below(j), v)| == if v in inDegree then inDegree[v] else 0
      {
        CountUp(edges, j);
        var t := edges[j].target;
        inDegree := inDegree[t := (if t in inDegree then inDegree[t] else 0) + 1];
      }
      AllCounted(nodes, edges);
    }

    /** The cycle check.  It answers Ok exactly when `PassesCheck` holds, whatever order the
        queue was seeded in; for a well-formed flow that is when the graph has no cycle. */
    method ValidateAcyclic() returns (ok: bool)
      ensures ok <==> PassesCheck(nodes, edges)
      ensures WellFormed() ==> (ok <==> !Cyclic(Graph()))
      ensures Targets(edges) <= Ids(nodes) ==> (ok <==> WellFormed() && !Cyclic(Graph()))
    {
      ghost var d := CheckedGraph(nodes, edges);
      var inDegree := InDegrees();
      var queue := Seed(inDegree);
      SeedInv(d, edges, inDegree, queue);
      var visited := 0;
      ghost var done: set<Uuid> := {};
      while queue != []
        invariant KahnInv(d, edges, inDegree, queue, done)
        invariant visited == |done|
        decreases Drained(d) - done
      {
        ghost var before := done;
        var node;
        node, inDegree, queue := Visit(edges, inDegree, queue, d, done);
        visited := visited + 1;
        done := done + {node};
      }
      KahnFinished(d, edges, inDegree, done);
      CheckExactWhenClosed(nodes, edges);
      if Targets(edges) <= Ids(nodes) {
        CheckExactWhenTargetsKnown(nodes, edges);
      }
      return visited == |Ids(nodes)|;
    }

    /** An order of the drained nodes in which every edge points forward; for a well-formed
        flow without cycles these are all the ids, each once. */
    method TopologicalOrder() returns (r: Option<seq<Uuid>>)
      ensures r.Some? <==> PassesCheck(nodes, edges)
      ensures r.Some? ==> NoDup(r.value) && Respects(r.value, Arcs(edges))
      ensures r.Some? ==> forall v :: v in r.value <==> v in Drained(CheckedGraph(nodes, edges))
      ensures WellFormed() ==> (r.Some? <==> !Cyclic(Graph()))
      ensures WellFormed() && r.Some? ==> forall v :: v in r.value <==> v in Ids(nodes)
    {
      var ok := ValidateAcyclic();
      if !ok {
        return None;
      }
      ghost var d := CheckedGraph(nodes, edges);
      var inDegree := InDegrees();
      var queue := Seed(inDegree);
      SeedInv(d, edges, inDegree, queue);
      var order: seq<Uuid> := [];
      ghost var done: set<Uuid> := {};
      while queue != []
        invariant KahnInv(d, edges, inDegree, queue, done)
        invariant NoDup(order)
        invariant forall v :: v in order <==> v in done
        invariant Respects(order, d.arcs)
        invariant forall v <- done :: Sources(d, v) <= done
        decreases Drained(d) - done
      {
        var node;
        node, inDegree, queue := Visit(edges, inDegree, queue, d, done);
        RespectsAppend(order, node, d, done);
        order := order + [node];
        done := done + {node};
      }
      KahnFinished(d, edges, inDegree, done);
      CheckExactWhenClosed(nodes, edges);
      return Some(order);
    }
  }

  /** `n` is the first of the nodes with this id. */
  ghost predicate IsFirstNode(nodes: seq<Node>, id: Uuid, n: Node) {
    exists i :: 0 <= i < |nodes| && nodes[i] == n && n.id == id && forall j :: 0 <= j < i ==> nodes[j].id != id
  }

  ghost predicate IsFirstPort(ports: seq<Port>, name: string, p: Port) {
    exists i :: 0 <= i < |ports| && ports[i] == p && p.name == name && forall j :: 0 <= j < i ==> ports[j].name != name
  }

  ghost predicate HasPort(ports: seq<Port>, name: string) {
    exists p <- ports :: p.name == name
  }

  /** An edge is made exactly between existing ports of compatible types, the first of their
      names; a missing source port is reported before a missing target port. */
  ghost predicate ConnectOutcome(from: Node, sourcePort: string, to: Node, targetPort: string,
                                 r: Result<Edge, ConnectError>) {
    && (r == Err(PortNotFound(from.id, sourcePort)) <== !HasPort(from.outputs, sourcePort))
    && (r == Err(PortNotFound(to.id, targetPort)) <== HasPort(from.outputs, sourcePort)
        && !HasPort(to.inputs, targetPort))
    && forall a, b :: IsFirstPort(from.outputs, sourcePort, a) && IsFirstPort(to.inputs, targetPort, b) ==>
         if a.portType == b.portType || a.portType == Any || b.portType == Any then r.Ok?
         else r == Err(TypeMismatch(a.portType, b.portType))
  }

  method FindPort(ports: seq<Port>, name: string) returns (r: Option<Port>)
    ensures r.None? <==> !HasPort(ports, name)
    ensures r.Some? ==> IsFirstPort(ports, name, r.value)
  {
    for i := 0 to |ports|
      invariant forall j :: 0 <= j < i ==> ports[j].name != name
    {
      if ports[i].name == name {
        assert ports[i] in ports;
        return Some(ports[i]);
      }
    }
    return None;
  }

  /** When every edge endpoint is a node, passing the check is the same as having no cycle. */
  lemma CheckExactWhenClosed(nodes: seq<Node>, edges: seq<Edge>)
    ensures Closed(GraphOf(nodes, edges)) ==>
              && CheckedGraph(nodes, edges) == GraphOf(nodes, edges)
              && (PassesCheck(nodes, edges) <==> !Cyclic(GraphOf(nodes, edges)))
              && (PassesCheck(nodes, edges) ==> Drained(CheckedGraph(nodes, edges)) == Ids(nodes))
  {
    var g := GraphOf(nodes, edges);
    if Closed(g) {
      assert Targets(edges) <= Ids(nodes) by {
        forall e | e in edges ensures e.target in Ids(nodes) {
          assert (e.source, e.target) in g.arcs;
        }
      }
      assert CheckedGraph(nodes, edges) == g;
      DrainedIffAcyclic(g);
      SubsetSize(Drained(g), g.nodes);
    }
  }

  lemma {:induction false} UnknownSourceBlocks(d: Digraph, u: Uuid, v: Uuid, k: nat)
    requires (u, v) in d.arcs && u !in d.nodes
    ensures v !in Peel(d, k)
  {
    if k > 0 {
      assert u in Sources(d, v) && u !in Peel(d, k - 1);
    }
  }

  /** When every edge target is a node the check is sound, and it is exact about more than cycles:
      it passes exactly a flow without a cycle all of whose edge sources are nodes, too. */
  lemma CheckExactWhenTargetsKnown(nodes: seq<Node>, edges: seq<Edge>)
    requires Targets(edges) <= Ids(nodes)
    ensures PassesCheck(nodes, edges) <==> Closed(GraphOf(nodes, edges)) && !Cyclic(GraphOf(nodes, edges))
  {
    var g := GraphOf(nodes, edges);
    CheckExactWhenClosed(nodes, edges);
    assert CheckedGraph(nodes, edges) == g;
    if !Closed(g) {
      var a :| a in g.arcs && !(a.0 in g.nodes && a.1 in g.nodes);
      var e :| e in edges && (e.source, e.target) == a;
      assert a.1 in Targets(edges);
      UnknownSourceBlocks(g, a.0, a.1, |g.nodes|);
      SubsetSize(Drained(g), g.nodes);
    }
  }

  /** When every edge source is a node, a flow without a cycle passes exactly if every edge target
      is a node, too: each other target is drained and counted as one node too many. */
  lemma AcyclicPassesIffTargetsKnown(nodes: seq<Node>, edges: seq<Edge>)
    requires forall e <- edges :: e.source in Ids(nodes)
    requires !Cyclic(GraphOf(nodes, edges))
    ensures PassesCheck(nodes, edges) <==> Targets(edges) <= Ids(nodes)
  {
    var g, d := GraphOf(nodes, edges), CheckedGraph(nodes, edges);
    forall p ensures !Cycle(d, p) {
      assert Cycle(d, p) <==> Cycle(g, p);
    }
    DrainedIffAcyclic(d);
    assert Drained(d) == Ids(nodes) + Targets(edges);
    SubsetSize(Ids(nodes), Drained(d));
    if Targets(edges) <= Ids(nodes) {
      assert Ids(nodes) + Targets(edges) == Ids(nodes);
    }
  }

  /** A source that is no node never hides a cycle, but makes a flow without one fail: X -> A. */
  lemma DanglingSourceRejects(a: Uuid, x: Uuid)
    requires a != x
    ensures var nodes, edges := [Node(a, true, [], [])], [Edge(x, "output", a, "input")];
            Targets(edges) <= Ids(nodes) && !PassesCheck(nodes, edges) && !Cyclic(GraphOf(nodes, edges))
  {
    var nodes, edges := [Node(a, true, [], [])], [Edge(x, "output", a, "input")];
    var g := GraphOf(nodes, edges);
    assert nodes[0] in nodes && edges[0] in edges;
    assert g.arcs == {(x, a)};
    CheckExactWhenTargetsKnown(nodes, edges);
    assert x !in Ids(nodes);
    forall p ensures !Cycle(g, p) {
      if Walk(g, p) && |p| > 1 {
        OneArcWalk(g, x, a, p);
      }
    }
  }

  lemma OneArcWalk(d: Digraph, u: Uuid, v: Uuid, p: seq<Uuid>)
    requires d.arcs == {(u, v)} && Walk(d, p) && |p| > 1
    ensures p[0] == u && p[|p| - 1] == v
  {
    assert (p[0], p[1]) in d.arcs && (p[|p| - 2], p[|p| - 1]) in d.arcs;
  }

  function DanglingNodes(a: Uuid, b: Uuid): seq<Node> {
    [Node(a, true, [], []), Node(b, true, [], [])]
  }

  function DanglingEdges(a: Uuid, b: Uuid, x: Uuid): seq<Edge> {
    [Edge(a, "output", x, "input"), Edge(b, "output", b, "input")]
  }

  lemma LoopNeverDrains(a: Uuid, b: Uuid, x: Uuid)
    requires a != b && a != x && b != x
    ensures Drained(Digraph({a, b, x}, {(a, x), (b, b)})) == {a, x}
  {
    var d := Digraph({a, b, x}, {(a, x), (b, b)});
    assert Sources(d, a) == {};
    assert (a, x) in d.arcs && Sources(d, x) == {a};
    assert (b, b) in d.arcs && Sources(d, b) == {b};
    assert Peel(d, 1) == {a};
    assert Peel(d, 2) == {a, x};
    assert Peel(d, 3) == {a, x};
  }

  /** With a dangling edge the check is unsound: A -> X with X no node, and a loop on B, pass. */
  lemma DanglingEdgeHidesCycle(a: Uuid, b: Uuid, x: Uuid)
    requires a != b && a != x && b != x
    ensures PassesCheck(DanglingNodes(a, b), DanglingEdges(a, b, x))
    ensures Cyclic(GraphOf(DanglingNodes(a, b), DanglingEdges(a, b, x)))
  {
    var nodes, edges := DanglingNodes(a, b), DanglingEdges(a, b, x);
    assert nodes[0] in nodes && nodes[1] in nodes && edges[0] in edges && edges[1] in edges;
    assert Ids(nodes) == {a, b};
    assert CheckedGraph(nodes, edges) == Digraph({a, b, x}, {(a, x), (b, b)});
    LoopNeverDrains(a, b, x);
    assert Cycle(GraphOf(nodes, edges), [b, b]);
  }
}
