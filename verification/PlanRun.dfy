/** One run of a compiled plan (execute_plan and dispatch_outputs in engine.rs): a driver
    starts the steps one by one, and the node tasks of the current step pass messages over
    bounded channels.  Every interleaving of the tasks is a sequence of moves. */
module PlanRun {
  import opened Digraphs
  import opened Flows
  import opened Scheduler
  import opened Wrappers

  datatype Message = Message(id: Uuid, sourcePort: string, payload: string)

  /** A message on its way from one node to another. */
  datatype Send = Send(source: Uuid, target: Uuid, message: Message)

  /** What a run executes: `capacity` bounds every channel, `trigger` is what root nodes process. */
  datatype Program = Program(edges: seq<Edge>, enabled: set<Uuid>, steps: seq<seq<Uuid>>, capacity: nat,
      trigger: Message)

  datatype Phase = Receiving | Processing | Sending(pending: seq<Send>) | Ended | Failed

  /** A node task: the live outgoing edges it was given, what it is doing, and its history. */
  datatype Task = Task(out: seq<Edge>, phase: Phase, processed: seq<Message>, outputs: seq<Message>)

  datatype Driver = Boundary | Awaiting(next: nat) | Finished | Cancelled | Aborted

  /** `channels` are the nodes whose original sender the driver still holds; `queues` are the
      buffers whose receiver still exists; the three logs record what was handed to dispatch,
      what entered a buffer, and what found its receiver gone. */
  datatype State = State(
    step: nat,
    driver: Driver,
    tasks: map<Uuid, Task>,
    channels: set<Uuid>,
    queues: map<Uuid, seq<Message>>,
    cancelled: bool,
    dispatched: seq<Send>,
    sent: seq<Send>,
    lost: seq<Send>)

  datatype Move =
    | StartStep
    | Receive(node: Uuid)
    | ReceiveEnd(node: Uuid)
    | Return(node: Uuid, outputs: seq<Message>)
    | Fail(node: Uuid)
    | Deliver(node: Uuid)
    | DispatchDone(node: Uuid)
    | AwaitTask
    | EndStep
    | Finish
    | Cancel
    | StopAtBoundary
    | AbortStep

  // ---- Routing ----

  /** The sends of one message: over every edge whose port matches, or over the only edge. */
  function SendsOf(m: Message, out: seq<Edge>, single: bool): seq<Send> {
    if out == [] then []
    else
      SendsOf(m, out[..|out| - 1], single)
      + var e := out[|out| - 1]; if m.sourcePort == e.sourcePort || single then [Send(e.source, e.target, m)] else []
  }

  function Route(messages: seq<Message>, out: seq<Edge>): seq<Send> {
    if messages == [] then []
    else Route(messages[..|messages| - 1], out) + SendsOf(messages[|messages| - 1], out, |out| == 1)
  }

  /** The order in which a task hands its outputs to its channels. */
  method DispatchOutputs(messages: seq<Message>, out: seq<Edge>) returns (sends: seq<Send>)
    ensures sends == Route(messages, out)
  {
    sends := [];
    for i := 0 to |messages|
      invariant sends == Route(messages[..i], out)
    {
      ghost var before := sends;
      for j := 0 to |out|
        invariant sends == before + SendsOf(messages[i], out[..j], |out| == 1)
      {
        assert out[..j + 1][..j] == out[..j];
        if messages[i].sourcePort == out[j].sourcePort || |out| == 1 {
          sends := sends + [Send(out[j].source, out[j].target, messages[i])];
        }
      }
      assert out[..|out|] == out;
      assert messages[..i + 1][..i] == messages[..i];
    }
    assert messages[..|messages|] == messages;
  }

  /** The edges leaving `node` whose target still has a channel. */
  function Live(edges: seq<Edge>, node: Uuid, channels: set<Uuid>): seq<Edge> {
    if edges == [] then []
    else
      Live(edges[..|edges| - 1], node, channels)
      + var e := edges[|edges| - 1]; if e.source == node && e.target in channels then [e] else []
  }

  // ---- The transition system ----

  /** The enabled nodes with an incoming edge: those that get a channel. */
  function WithChannel(p: Program): set<Uuid> {
    p.enabled * Targets(p.edges)
  }

  ghost function Init(p: Program): State {
    State(0, Boundary, map[], WithChannel(p), map v | v in WithChannel(p) :: [], false, [], [], [])
  }

  ghost predicate Running(t: Task) {
    !t.phase.Ended? && !t.phase.Failed?
  }

  /** No sender of `node`'s channel is left: not the driver's, nor a running task's clone. */
  ghost predicate SendersGone(s: State, node: Uuid) {
    && node !in s.channels
    && forall u <- s.tasks :: Running(s.tasks[u]) ==> forall e <- s.tasks[u].out :: e.target != node
  }

  ghost predicate InPhase(s: State, node: Uuid, phase: Phase) {
    s.driver.Awaiting? && node in s.tasks && s.tasks[node].phase == phase
  }

  ghost predicate IsSending(s: State, node: Uuid) {
    s.driver.Awaiting? && node in s.tasks && s.tasks[node].phase.Sending?
  }

  ghost predicate HasSend(s: State, node: Uuid) {
    IsSending(s, node) && s.tasks[node].phase.pending != []
  }

  ghost function NextSend(s: State, node: Uuid): Send
    requires HasSend(s, node)
  {
    s.tasks[node].phase.pending[0]
  }

  ghost predicate Enabled(p: Program, s: State, m: Move) {
    match m
    case StartStep => s.driver.Boundary? && !s.cancelled && s.step < |p.steps|
    case Receive(v) => InPhase(s, v, Receiving) && v in s.queues && s.queues[v] != []
    case ReceiveEnd(v) => InPhase(s, v, Receiving) && v in s.queues && s.queues[v] == [] && SendersGone(s, v)
    case Return(v, _) => InPhase(s, v, Processing)
    case Fail(v) => InPhase(s, v, Processing)
    case Deliver(v) =>
      HasSend(s, v) && var t := NextSend(s, v).target; t in s.queues ==> |s.queues[t]| < p.capacity
    case DispatchDone(v) => IsSending(s, v) && s.tasks[v].phase.pending == []
    case AwaitTask =>
      && s.driver.Awaiting? && s.step < |p.steps| && s.driver.next < |p.steps[s.step]|
      && var v := p.steps[s.step][s.driver.next]; v in s.tasks && !Running(s.tasks[v])
    case EndStep => s.driver.Awaiting? && s.step < |p.steps| && s.driver.next == |p.steps[s.step]|
    case Finish => s.driver.Boundary? && s.step == |p.steps|
    case Cancel => !s.cancelled
    case StopAtBoundary => s.driver.Boundary? && s.cancelled && s.step < |p.steps|
    case AbortStep => s.driver.Awaiting? && s.cancelled && s.step < |p.steps| && s.driver.next < |p.steps[s.step]|
  }

  ghost function SetTask(s: State, node: Uuid, t: Task): State {
    s.(tasks := s.tasks[node := t])
  }

  ghost function NewTask(p: Program, s: State, node: Uuid): Task {
    var out := Live(p.edges, node, s.channels);
    if node in s.queues then Task(out, Receiving, [], []) else Task(out, Processing, [p.trigger], [])
  }

  /** The targets of the edges leaving the nodes of a step. */
  ghost function StepTargets(p: Program, nodes: seq<Uuid>): set<Uuid> {
    set e | e in p.edges && e.source in nodes :: e.target
  }

  ghost function Apply(p: Program, s: State, m: Move): State
    requires Enabled(p, s, m)
  {
    match m
    case StartStep =>
      s.(driver := Awaiting(0), tasks := s.tasks + map v | v in p.steps[s.step] :: NewTask(p, s, v))
    case Receive(v) =>
      var t := s.tasks[v];
      SetTask(s, v, t.(phase := Processing, processed := t.processed + [s.queues[v][0]]))
        .(queues := s.queues[v := s.queues[v][1..]])
    case ReceiveEnd(v) =>
      SetTask(s, v, s.tasks[v].(phase := Ended)).(queues := s.queues - {v})
    case Return(v, outputs) =>
      var t := s.tasks[v];
      var sends := Route(outputs, t.out);
      SetTask(s, v, t.(phase := Sending(sends), outputs := t.outputs + outputs))
        .(dispatched := s.dispatched + sends)
    case Fail(v) =>
      SetTask(s, v, s.tasks[v].(phase := Failed)).(queues := s.queues - {v})
    case Deliver(v) =>
      var x := NextSend(s, v);
      var s1 := SetTask(s, v, s.tasks[v].(phase := Sending(s.tasks[v].phase.pending[1..])));
      if x.target in s.queues then
        s1.(queues := s.queues[x.target := s.queues[x.target] + [x.message]], sent := s.sent + [x])
      else
        s1.(lost := s.lost + [x])
    case DispatchDone(v) =>
      SetTask(s, v, s.tasks[v].(phase := if v in s.queues then Receiving else Ended))
    case AwaitTask =>
      if s.tasks[p.steps[s.step][s.driver.next]].phase.Ended? then s.(driver := Awaiting(s.driver.next + 1))
      else s.(driver := Aborted)
    case EndStep =>
      s.(driver := Boundary, step := s.step + 1, channels := s.channels - StepTargets(p, p.steps[s.step]))
    case Finish => s.(driver := Finished)
    case Cancel => s.(cancelled := true)
    case StopAtBoundary => s.(driver := Cancelled)
    case AbortStep => s.(driver := Cancelled)
  }

  /** `moves` is a possible run from the start, and `After` is where it leads. */
  ghost predicate Legal(p: Program, moves: seq<Move>)
    decreases |moves|, 0
  {
    moves == [] ||
    (Legal(p, moves[..|moves| - 1]) && Enabled(p, After(p, moves[..|moves| - 1]), moves[|moves| - 1]))
  }

  ghost function After(p: Program, moves: seq<Move>): State
    requires Legal(p, moves)
    decreases |moves|, 1
  {
    if moves == [] then Init(p)
    else Apply(p, After(p, moves[..|moves| - 1]), moves[|moves| - 1])
  }

  // ---- Programs that a compiled flow yields ----

  ghost function StepOf(p: Program, v: Uuid): nat {
    if k :| 0 <= k < |p.steps| && v in p.steps[k] then k else 0
  }

  /** The steps partition the enabled nodes and every edge between them goes to a later step. */
  ghost predicate Valid(p: Program) {
    && p.capacity > 0
    && (forall k :: 0 <= k < |p.steps| ==> NoDup(p.steps[k]))
    && (forall k, v :: 0 <= k < |p.steps| && v in p.steps[k] ==> v in p.enabled && StepOf(p, v) == k)
    && (forall v <- p.enabled :: StepOf(p, v) < |p.steps| && v in p.steps[StepOf(p, v)])
    && (forall e <- p.edges :: e.source in p.enabled && e.target in p.enabled ==>
        StepOf(p, e.source) < StepOf(p, e.target))
  }

  /** What `Compile` returns for a flow without cycles is a valid program to run. */
  lemma PlanIsValid(nodes: seq<Node>, edges: seq<Edge>, steps: seq<seq<Uuid>>, capacity: nat, trigger: Message)
    requires capacity > 0
    requires !Cyclic(GraphOf(nodes, edges)) && Layers(EnabledGraph(nodes, edges), steps)
    ensures Valid(Program(edges, EnabledIds(nodes), steps, capacity, trigger))
  {
    var d := EnabledGraph(nodes, edges);
    var p := Program(edges, EnabledIds(nodes), steps, capacity, trigger);
    EnabledAcyclic(nodes, edges);
    assert Plan(d, steps);
    hide Peel, Drained, Closed, Cyclic, Layers, Plan;
    forall k, v | 0 <= k < |steps| && v in steps[k] ensures v in p.enabled && StepOf(p, v) == k {
      StepsPartitionNodes(d, steps, v);
    }
    forall v | v in p.enabled ensures StepOf(p, v) < |steps| && v in steps[StepOf(p, v)] {
      StepsPartitionNodes(d, steps, v);
    }
    forall e | e in edges && e.source in p.enabled && e.target in p.enabled
      ensures StepOf(p, e.source) < StepOf(p, e.target)
    {
      assert (e.source, e.target) in d.arcs;
      StepsPartitionNodes(d, steps, e.source);
      StepsPartitionNodes(d, steps, e.target);
      PlanRespectsEdges(d, steps, e.source, e.target, StepOf(p, e.source), StepOf(p, e.target));
    }
  }
}
