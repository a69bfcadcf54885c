/** What every move of a run keeps: who has started, which channels are open, and how the
    logs of dispatched and delivered messages relate to what each node processed. */
module RunInvariant {
  import opened Digraphs
  import opened Flows
  import opened PlanRun
  import opened Wrappers

  // ---- Logs ----

  datatype Side = By(node: Uuid) | For(node: Uuid)

  predicate Hits(side: Side, x: Send) {
    match side
    case By(v) => x.source == v
    case For(v) => x.target == v
  }

  /** The sends of a log that a node made, or that were made to it, in order. */
  function Pick(side: Side, log: seq<Send>): seq<Send> {
    if log == [] then []
    else Pick(side, log[..|log| - 1]) + if Hits(side, log[|log| - 1]) then [log[|log| - 1]] else []
  }

  function Messages(log: seq<Send>): (r: seq<Message>)
    ensures |r| == |log|
  {
    seq(|log|, i requires 0 <= i < |log| => log[i].message)
  }

  lemma PickAppend(side: Side, log: seq<Send>, x: Send)
    ensures Pick(side, log + [x]) == Pick(side, log) + if Hits(side, x) then [x] else []
  {
    assert (log + [x])[..|log|] == log;
  }

  lemma {:induction false} PickConcat(side: Side, a: seq<Send>, b: seq<Send>)
    ensures Pick(side, a + b) == Pick(side, a) + Pick(side, b)
  {
    if b == [] {
      assert a + b == a;
    } else {
      var front := b[..|b| - 1];
      assert a + b == (a + front) + [b[|b| - 1]];
      PickConcat(side, a, front);
      PickAppend(side, a + front, b[|b| - 1]);
    }
  }

  lemma {:induction false} PickAll(side: Side, log: seq<Send>)
    ensures (forall x <- log :: Hits(side, x)) ==> Pick(side, log) == log
    ensures (forall x <- log :: !Hits(side, x)) ==> Pick(side, log) == []
  {
    if log != [] {
      PickAll(side, log[..|log| - 1]);
      assert log == log[..|log| - 1] + [log[|log| - 1]];
    }
  }

  lemma {:induction false} PickMembers(side: Side, log: seq<Send>)
    ensures forall x :: x in Pick(side, log) <==> x in log && Hits(side, x)
  {
    if log != [] {
      PickMembers(side, log[..|log| - 1]);
      assert log == log[..|log| - 1] + [log[|log| - 1]];
    }
  }

  lemma {:induction false} PickCommutes(a: Side, b: Side, log: seq<Send>)
    ensures Pick(a, Pick(b, log)) == Pick(b, Pick(a, log))
  {
    if log != [] {
      var front, x := log[..|log| - 1], log[|log| - 1];
      PickCommutes(a, b, front);
      PickAppend(a, Pick(b, front), x);
      PickAppend(b, Pick(a, front), x);
      assert Pick(b, front) + [] == Pick(b, front);
      assert Pick(a, front) + [] == Pick(a, front);
    }
  }

  lemma {:induction false} PickCount(side: Side, log: seq<Send>, x: Send)
    ensures multiset(Pick(side, log))[x] == if Hits(side, x) then multiset(log)[x] else 0
  {
    if log != [] {
      var front, y := log[..|log| - 1], log[|log| - 1];
      PickCount(side, front, x);
      assert log == front + [y];
      assert Pick(side, front) + [] == Pick(side, front);
    }
  }

  lemma MessagesAppend(log: seq<Send>, x: Send)
    ensures Messages(log + [x]) == Messages(log) + [x.message]
  {
  }

  // ---- Routing ----

  lemma {:induction false} RouteConcat(a: seq<Message>, b: seq<Message>, out: seq<Edge>)
    ensures Route(a + b, out) == Route(a, out) + Route(b, out)
  {
    if b == [] {
      assert a + b == a;
    } else {
      var front := b[..|b| - 1];
      assert (a + b)[..|a + b| - 1] == a + front;
      RouteConcat(a, front, out);
    }
  }

  lemma {:induction false} SendsOverEdges(m: Message, out: seq<Edge>, single: bool)
    ensures forall x <- SendsOf(m, out, single) :: exists e <- out :: x.source == e.source && x.target == e.target
  {
    if out != [] {
      SendsOverEdges(m, out[..|out| - 1], single);
      assert out[|out| - 1] in out;
      assert forall e <- out[..|out| - 1] :: e in out;
    }
  }

  lemma {:induction false} RouteOverEdges(messages: seq<Message>, out: seq<Edge>)
    ensures forall x <- Route(messages, out) :: exists e <- out :: x.source == e.source && x.target == e.target
  {
    if messages != [] {
      RouteOverEdges(messages[..|messages| - 1], out);
      SendsOverEdges(messages[|messages| - 1], out, |out| == 1);
    }
  }

  lemma {:induction false} LiveEdgesMembers(edges: seq<Edge>, node: Uuid, channels: set<Uuid>)
    ensures forall e :: e in Live(edges, node, channels) <==> e in edges && e.source == node && e.target in channels
  {
    if edges != [] {
      LiveEdgesMembers(edges[..|edges| - 1], node, channels);
      assert edges == edges[..|edges| - 1] + [edges[|edges| - 1]];
    }
  }

  // ---- The static picture ----

  /** The channels open when step `k` starts: those fed by no node of an earlier step. */
  ghost function OpenAt(p: Program, k: nat): set<Uuid> {
    set v | v in WithChannel(p) && forall e <- p.edges :: e.target == v && e.source in p.enabled ==>
        StepOf(p, e.source) >= k
  }

  /** The edges over which `node` can still deliver when its step comes. */
  ghost function LiveEdges(p: Program, node: Uuid): seq<Edge> {
    Live(p.edges, node, OpenAt(p, StepOf(p, node)))
  }

  ghost predicate Over(s: State) {
    s.driver.Cancelled? || s.driver.Aborted?
  }

  /** How many steps have been started. */
  ghost function Horizon(s: State): nat {
    if s.driver.Awaiting? then s.step + 1 else s.step
  }

  ghost predicate Started(p: Program, s: State, v: Uuid) {
    v in p.enabled && StepOf(p, v) < Horizon(s)
  }

  ghost function Unsent(t: Task): seq<Send> {
    if t.phase.Sending? then t.phase.pending else []
  }

  // ---- The invariant ----

  ghost predicate DriverInv(p: Program, s: State) {
    && s.step <= |p.steps|
    && (s.driver.Awaiting? ==> s.step < |p.steps| && s.driver.next <= |p.steps[s.step]|)
    && (s.driver.Finished? ==> s.step == |p.steps|)
    && (forall v :: v in s.tasks <==> Started(p, s, v))
    && (forall v <- s.tasks :: StepOf(p, v) < s.step ==> s.tasks[v].phase.Ended?)
    && (s.driver.Awaiting? ==> forall i :: 0 <= i < s.driver.next ==>
        p.steps[s.step][i] in s.tasks && s.tasks[p.steps[s.step][i]].phase.Ended?)
    && s.channels == OpenAt(p, s.step)
  }

  /** A node holds a receiver until it ends, and only nodes with a channel receive. */
  ghost predicate ReceiverInv(p: Program, s: State) {
    && (forall v :: v in s.queues <==> v in WithChannel(p) && (v in s.tasks ==> Running(s.tasks[v])))
    && (forall v <- s.tasks :: s.tasks[v].phase.Receiving? ==> v in WithChannel(p))
  }

  ghost predicate TaskInv(p: Program, s: State, v: Uuid)
    requires v in s.tasks
  {
    var t := s.tasks[v];
    && t.out == LiveEdges(p, v)
    && Pick(By(v), s.dispatched) == Route(t.outputs, t.out)
    && Pick(By(v), s.dispatched) == Pick(By(v), s.sent) + Unsent(t)
    && (v !in WithChannel(p) ==> t.processed == [p.trigger])
  }

  ghost predicate LogInv(p: Program, s: State) {
    && (forall v <- s.tasks :: TaskInv(p, s, v))
    && (forall x <- s.dispatched :: x.source in s.tasks)
    && (forall x <- s.sent :: x.source in s.tasks)
    && s.lost == []
  }

  ghost function ProcessedBy(s: State, v: Uuid): seq<Message> {
    if v in s.tasks then s.tasks[v].processed else []
  }

  ghost predicate EndedReceiver(p: Program, s: State, v: Uuid) {
    v in WithChannel(p) && v in s.tasks && s.tasks[v].phase.Ended?
  }

  /** What entered `v`'s buffer is what it processed followed by what is still buffered. */
  ghost predicate NodeBuffer(p: Program, s: State, v: Uuid) {
    && (v in s.queues ==> Messages(Pick(For(v), s.sent)) == ProcessedBy(s, v) + s.queues[v])
    && (EndedReceiver(p, s, v) ==> Messages(Pick(For(v), s.sent)) == ProcessedBy(s, v))
    && |Pick(For(v), s.sent)| <= p.capacity
  }

  ghost predicate BufferInv(p: Program, s: State) {
    forall v :: NodeBuffer(p, s, v)
  }

  ghost predicate Inv(p: Program, s: State) {
    Over(s) || (DriverInv(p, s) && ReceiverInv(p, s) && LogInv(p, s) && BufferInv(p, s))
  }

  // ---- Every move keeps the invariant ----

  /** The node whose task makes the move, if a task makes it. */
  ghost function Actor(m: Move): Option<Uuid> {
    match m
    case Receive(v) => Some(v)
    case ReceiveEnd(v) => Some(v)
    case Return(v, _) => Some(v)
    case Fail(v) => Some(v)
    case Deliver(v) => Some(v)
    case DispatchDone(v) => Some(v)
    case _ => None
  }

  /** Only the running task `v` differs, apart from buffers and logs. */
  ghost predicate TouchesOnly(s: State, s1: State, v: Uuid) {
    && s.driver.Awaiting? && s1.driver == s.driver && s1.step == s.step && s1.channels == s.channels
    && s1.cancelled == s.cancelled
    && s1.tasks.Keys == s.tasks.Keys
    && v in s.tasks && Running(s.tasks[v])
    && s1.tasks[v].out == s.tasks[v].out
    && forall u <- s.tasks :: u != v ==> s1.tasks[u] == s.tasks[u]
  }

  lemma TaskMove(p: Program, s: State, m: Move)
    requires Enabled(p, s, m) && Actor(m).Some?
    ensures TouchesOnly(s, Apply(p, s, m), Actor(m).value)
  {
    hide Route;
  }

  lemma StepMembers(p: Program, k: nat, v: Uuid)
    requires Valid(p) && k < |p.steps|
    ensures v in p.steps[k] <==> v in p.enabled && StepOf(p, v) == k
  {
    hide StepOf;
  }

  lemma DriverKept(p: Program, s: State, m: Move)
    requires Valid(p) && DriverInv(p, s) && Enabled(p, s, m)
    ensures Over(Apply(p, s, m)) || DriverInv(p, Apply(p, s, m))
  {
    hide StepOf, OpenAt, Valid;
    if Actor(m).Some? {
      TaskMove(p, s, m);
      hide Enabled, Apply;
      DriverIgnoresTasks(p, s, Apply(p, s, m), Actor(m).value);
    } else if m.StartStep? {
      forall v ensures v in p.steps[s.step] <==> v in p.enabled && StepOf(p, v) == s.step {
        StepMembers(p, s.step, v);
      }
    } else if m.EndStep? {
      forall v | v in s.tasks && StepOf(p, v) == s.step ensures s.tasks[v].phase.Ended? {
        StepMembers(p, s.step, v);
      }
      NextOpen(p, s.step);
    }
  }

  lemma DriverIgnoresTasks(p: Program, s: State, s1: State, v: Uuid)
    requires DriverInv(p, s) && TouchesOnly(s, s1, v)
    ensures DriverInv(p, s1)
    ensures StepOf(p, v) == s.step
  {
    hide StepOf, OpenAt;
  }

  lemma NextOpen(p: Program, k: nat)
    requires Valid(p) && k < |p.steps|
    ensures OpenAt(p, k + 1) == OpenAt(p, k) - StepTargets(p, p.steps[k])
  {
    hide StepOf, Valid;
    forall e | e in p.edges ensures e.source in p.steps[k] <==> e.source in p.enabled && StepOf(p, e.source) == k {
      StepMembers(p, k, e.source);
    }
    var next := OpenAt(p, k) - StepTargets(p, p.steps[k]);
    forall v | v in next ensures v in OpenAt(p, k + 1) {
    }
    forall v | v in OpenAt(p, k + 1) ensures v in next {
    }
  }

  lemma ReceiversKept(p: Program, s: State, m: Move)
    requires Valid(p) && DriverInv(p, s) && ReceiverInv(p, s) && Enabled(p, s, m)
    ensures ReceiverInv(p, Apply(p, s, m))
  {
    hide StepOf, OpenAt, Valid, Live, Route, DriverInv, StepTargets;
    if Actor(m).Some? {
      TaskMove(p, s, m);
      ReceiversFollowTask(p, s, Apply(p, s, m), Actor(m).value);
    } else if m.StartStep? {
      StartKeepsReceivers(p, s);
    }
  }

  lemma StartKeepsReceivers(p: Program, s: State)
    requires Valid(p) && DriverInv(p, s) && ReceiverInv(p, s) && Enabled(p, s, StartStep)
    ensures ReceiverInv(p, Apply(p, s, StartStep))
  {
    hide StepOf, OpenAt, Valid, Live;
    forall v | v in p.steps[s.step] ensures v !in s.tasks {
      StepMembers(p, s.step, v);
    }
  }

  lemma ReceiversFollowTask(p: Program, s: State, s1: State, v: Uuid)
    requires ReceiverInv(p, s) && TouchesOnly(s, s1, v)
    requires s1.queues.Keys == if Running(s1.tasks[v]) then s.queues.Keys else s.queues.Keys - {v}
    requires s1.tasks[v].phase.Receiving? ==> v in s.queues
    ensures ReceiverInv(p, s1)
  {
    forall u ensures u in s1.queues <==> u in WithChannel(p) && (u in s1.tasks ==> Running(s1.tasks[u])) {
      assert u in s1.queues <==> u in s1.queues.Keys;
    }
  }

  /** A task about to deliver made the send itself, and its target is a later node that still
      holds its receiver and has not started. */
  lemma TargetWaits(p: Program, s: State, v: Uuid)
    requires Valid(p) && DriverInv(p, s) && ReceiverInv(p, s) && LogInv(p, s)
    requires HasSend(s, v)
    ensures var x := NextSend(s, v);
            x.source == v && x.target in s.queues && x.target !in s.tasks && x in s.dispatched
  {
    hide StepOf, Live, Route, Pick;
    var t := s.tasks[v];
    var x := t.phase.pending[0];
    assert TaskInv(p, s, v);
    assert x in Pick(By(v), s.dispatched);
    PickMembers(By(v), s.dispatched);
    RouteOverEdges(t.outputs, t.out);
    LiveEdgesMembers(p.edges, v, OpenAt(p, StepOf(p, v)));
  }

  lemma SendsComeFrom(p: Program, node: Uuid, outputs: seq<Message>, x: Send)
    requires x in Route(outputs, LiveEdges(p, node))
    ensures x.source == node && x.target in OpenAt(p, StepOf(p, node))
  {
    hide StepOf, OpenAt;
    RouteOverEdges(outputs, LiveEdges(p, node));
    LiveEdgesMembers(p.edges, node, OpenAt(p, StepOf(p, node)));
  }

  /** Nothing about sends differs: no output, no dispatch, no delivery, no new task. */
  ghost predicate SameSends(p: Program, s: State, s1: State) {
    && s1.tasks.Keys == s.tasks.Keys
    && s1.dispatched == s.dispatched && s1.sent == s.sent && s1.lost == s.lost
    && forall u <- s.tasks ::
         && s1.tasks[u].out == s.tasks[u].out && s1.tasks[u].outputs == s.tasks[u].outputs
         && Unsent(s1.tasks[u]) == Unsent(s.tasks[u])
         && (s1.tasks[u].processed == s.tasks[u].processed || u in WithChannel(p))
  }

  lemma QuietMove(p: Program, s: State, m: Move)
    requires ReceiverInv(p, s) && Enabled(p, s, m)
    requires !m.StartStep? && !m.Return? && !m.Deliver?
    ensures SameSends(p, s, Apply(p, s, m))
  {
    hide WithChannel, SendersGone, StepTargets;
  }

  lemma CanDeliver(p: Program, s: State, v: Uuid)
    requires Enabled(p, s, Deliver(v))
    ensures HasSend(s, v)
  {
  }

  lemma LogsKept(p: Program, s: State, m: Move)
    requires Valid(p) && DriverInv(p, s) && ReceiverInv(p, s) && LogInv(p, s) && Enabled(p, s, m)
    ensures LogInv(p, Apply(p, s, m))
  {
    hide Apply, Enabled, DriverInv, ReceiverInv, Valid, TaskInv;
    if m.StartStep? {
      StartKeepsLogs(p, s);
    } else if m.Return? {
      ReturnKeepsLogs(p, s, m.node, m.outputs);
    } else if m.Deliver? {
      CanDeliver(p, s, m.node);
      DeliverKeepsLogs(p, s, m.node);
    } else {
      QuietMove(p, s, m);
      var s1 := Apply(p, s, m);
      forall u | u in s1.tasks ensures TaskInv(p, s1, u) {
        SameTaskInv(p, s, s1, u);
      }
    }
  }

  /** The log facts about a task survive any change of phase that leaves its sends alone. */
  lemma SameTaskInv(p: Program, s: State, s1: State, u: Uuid)
    requires SameSends(p, s, s1) && u in s.tasks && TaskInv(p, s, u)
    ensures u in s1.tasks && TaskInv(p, s1, u)
  {
    hide LiveEdges, Route, Pick, WithChannel;
  }

  lemma StartShape(p: Program, s: State)
    requires Valid(p) && DriverInv(p, s) && Enabled(p, s, StartStep)
    ensures var s1 := Apply(p, s, StartStep);
            && s1.dispatched == s.dispatched && s1.sent == s.sent && s1.lost == s.lost && s1.queues == s.queues
            && (forall v <- s.tasks :: v in s1.tasks && s1.tasks[v] == s.tasks[v])
            && (forall v <- s1.tasks :: v in s.tasks || (StepOf(p, v) == s.step && s1.tasks[v] == NewTask(p, s, v)))
  {
    hide StepOf, Valid, NewTask, OpenAt;
    NewcomersAreNew(p, s);
    forall v | v in p.steps[s.step] ensures StepOf(p, v) == s.step {
      StepMembers(p, s.step, v);
    }
  }

  lemma NewcomersAreNew(p: Program, s: State)
    requires Valid(p) && DriverInv(p, s) && Enabled(p, s, StartStep)
    ensures forall v <- p.steps[s.step] :: v !in s.tasks
  {
    hide StepOf, Valid;
    forall v | v in p.steps[s.step] ensures v !in s.tasks {
      StepMembers(p, s.step, v);
    }
  }

  lemma StartKeepsLogs(p: Program, s: State)
    requires Valid(p) && DriverInv(p, s) && ReceiverInv(p, s) && LogInv(p, s) && Enabled(p, s, StartStep)
    ensures LogInv(p, Apply(p, s, StartStep))
  {
    StartShape(p, s);
    assert s.channels == OpenAt(p, s.step);
    hide Valid, Apply, Enabled, DriverInv, StepOf, OpenAt, Live;
    var s1 := Apply(p, s, StartStep);
    forall u | u in s1.tasks ensures TaskInv(p, s1, u) {
      if u in s.tasks {
        assert TaskInv(p, s, u);
      } else {
        PickAll(By(u), s.dispatched);
        PickAll(By(u), s.sent);
      }
    }
  }

  lemma ReturnKeepsLogs(p: Program, s: State, v: Uuid, outputs: seq<Message>)
    requires Valid(p) && DriverInv(p, s) && LogInv(p, s) && Enabled(p, s, Return(v, outputs))
    ensures LogInv(p, Apply(p, s, Return(v, outputs)))
  {
    hide StepOf, Live, LiveEdges, OpenAt, Route, Pick, Valid, DriverInv;
    var s1 := Apply(p, s, Return(v, outputs));
    var sends := Route(outputs, s.tasks[v].out);
    assert TaskInv(p, s, v);
    forall x | x in sends ensures x.source == v {
      SendsComeFrom(p, v, outputs, x);
    }
    forall u | u in s1.tasks ensures TaskInv(p, s1, u) {
      assert TaskInv(p, s, u);
      PickConcat(By(u), s.dispatched, sends);
      PickAll(By(u), sends);
      if u == v {
        RouteConcat(s.tasks[v].outputs, outputs, s.tasks[v].out);
      }
    }
  }

  /** What a delivery does, seen from the logs and the buffers. */
  ghost predicate Delivers(s: State, s1: State, v: Uuid, x: Send) {
    && s1.tasks.Keys == s.tasks.Keys && v in s.tasks
    && s1.dispatched == s.dispatched && s1.sent == s.sent + [x] && s1.lost == s.lost
    && x.source == v && x.target in s.queues && x.target !in s.tasks
    && s1.queues == s.queues[x.target := s.queues[x.target] + [x.message]]
    && (forall u <- s.tasks ::
          && s1.tasks[u].out == s.tasks[u].out && s1.tasks[u].outputs == s.tasks[u].outputs
          && s1.tasks[u].processed == s.tasks[u].processed
          && (s1.tasks[u].phase.Ended? <==> s.tasks[u].phase.Ended?)
          && Unsent(s.tasks[u]) == (if u == v then [x] else []) + Unsent(s1.tasks[u]))
  }

  lemma DeliverShape(p: Program, s: State, v: Uuid)
    requires HasSend(s, v)
    requires Valid(p) && DriverInv(p, s) && ReceiverInv(p, s) && LogInv(p, s) && Enabled(p, s, Deliver(v))
    ensures Delivers(s, Apply(p, s, Deliver(v)), v, NextSend(s, v))
    ensures |s.queues[NextSend(s, v).target]| < p.capacity
  {
    TargetWaits(p, s, v);
    hide *;
    DeliverEffect(p, s, v);
  }

  lemma DeliverEffect(p: Program, s: State, v: Uuid)
    requires HasSend(s, v) && Enabled(p, s, Deliver(v))
    requires var x := NextSend(s, v); x.source == v && x.target in s.queues && x.target !in s.tasks
    ensures Delivers(s, Apply(p, s, Deliver(v)), v, NextSend(s, v))
    ensures |s.queues[NextSend(s, v).target]| < p.capacity
  {
    assert s.tasks[v].phase.pending == [NextSend(s, v)] + s.tasks[v].phase.pending[1..];
  }

  lemma DeliverKeepsLogs(p: Program, s: State, v: Uuid)
    requires HasSend(s, v)
    requires Valid(p) && DriverInv(p, s) && ReceiverInv(p, s) && LogInv(p, s) && Enabled(p, s, Deliver(v))
    ensures LogInv(p, Apply(p, s, Deliver(v)))
  {
    DeliverShape(p, s, v);
    hide *;
    DeliveredLogs(p, s, Apply(p, s, Deliver(v)), v, NextSend(s, v));
  }

  lemma DeliveredLogs(p: Program, s: State, s1: State, v: Uuid, x: Send)
    requires Delivers(s, s1, v, x) && LogInv(p, s)
    ensures LogInv(p, s1)
  {
    hide TaskInv, Delivers;
    DeliverSources(s, s1, v, x);
    forall u | u in s1.tasks ensures TaskInv(p, s1, u) {
      DeliverKeepsTask(p, s, s1, v, x, u);
    }
  }

  lemma DeliverSources(s: State, s1: State, v: Uuid, x: Send)
    requires Delivers(s, s1, v, x)
    requires (forall y <- s.dispatched :: y.source in s.tasks) && forall y <- s.sent :: y.source in s.tasks
    ensures (forall y <- s1.dispatched :: y.source in s1.tasks) && forall y <- s1.sent :: y.source in s1.tasks
    ensures s1.lost == s.lost && s1.tasks.Keys == s.tasks.Keys
  {
  }

  lemma DeliverKeepsTask(p: Program, s: State, s1: State, v: Uuid, x: Send, u: Uuid)
    requires Delivers(s, s1, v, x) && u in s.tasks && TaskInv(p, s, u)
    ensures u in s1.tasks && TaskInv(p, s1, u)
  {
    hide LiveEdges, Route, Pick, WithChannel;
    PickAppend(By(u), s.sent, x);
  }

  /** Nothing is delivered, and no message passes its reader. */
  ghost predicate SameBuffers(p: Program, s: State, s1: State) {
    && s1.sent == s.sent
    && (forall v <- s1.queues :: v in s.queues && ProcessedBy(s1, v) + s1.queues[v] == ProcessedBy(s, v) + s.queues[v])
    && forall v :: EndedReceiver(p, s1, v) ==>
         && ProcessedBy(s1, v) == ProcessedBy(s, v)
         && (EndedReceiver(p, s, v) || (v in s.queues && s.queues[v] == []))
  }

  lemma UndeliveringMove(p: Program, s: State, m: Move)
    requires Valid(p) && DriverInv(p, s) && ReceiverInv(p, s) && Enabled(p, s, m) && !m.Deliver?
    ensures SameBuffers(p, s, Apply(p, s, m))
  {
    hide *;
    if m.StartStep? {
      StartShape(p, s);
      NewTasksSameBuffers(p, s, Apply(p, s, m));
    } else if m.Receive? {
      ReceiveShape(p, s, m.node);
    } else {
      OtherShape(p, s, m);
    }
  }

  lemma NewTasksSameBuffers(p: Program, s: State, s1: State)
    requires s1.sent == s.sent && s1.queues == s.queues
    requires forall v <- s.tasks :: v in s1.tasks && s1.tasks[v] == s.tasks[v]
    requires forall v <- s1.tasks :: v in s.tasks || s1.tasks[v] == NewTask(p, s, v)
    ensures SameBuffers(p, s, s1)
  {
    hide Live, WithChannel;
    forall v | v in s1.tasks && v !in s.tasks
        ensures !s1.tasks[v].phase.Ended? && (v in s.queues ==> s1.tasks[v].processed == []) {
      assert s1.tasks[v] == NewTask(p, s, v);
    }
  }

  lemma OtherShape(p: Program, s: State, m: Move)
    requires ReceiverInv(p, s) && Enabled(p, s, m) && !m.Deliver? && !m.StartStep? && !m.Receive?
    ensures SameBuffers(p, s, Apply(p, s, m))
  {
    hide WithChannel, SendersGone, StepTargets, Route;
  }

  lemma ReceiveShape(p: Program, s: State, v: Uuid)
    requires Enabled(p, s, Receive(v))
    ensures SameBuffers(p, s, Apply(p, s, Receive(v)))
  {
    hide WithChannel;
    var s1 := Apply(p, s, Receive(v));
    assert s.queues[v] == [s.queues[v][0]] + s.queues[v][1..];
  }

  lemma BuffersKept(p: Program, s: State, m: Move)
    requires Valid(p) && DriverInv(p, s) && ReceiverInv(p, s) && LogInv(p, s) && BufferInv(p, s) && Enabled(p, s, m)
    ensures BufferInv(p, Apply(p, s, m))
  {
    hide Apply, Enabled, Valid, DriverInv, ReceiverInv, LogInv, Pick, Messages, WithChannel;
    var s1 := Apply(p, s, m);
    if m.Deliver? {
      CanDeliver(p, s, m.node);
      DeliverKeepsBuffers(p, s, m.node);
    } else {
      UndeliveringMove(p, s, m);
      forall v ensures NodeBuffer(p, s1, v) {
        assert NodeBuffer(p, s, v);
      }
    }
  }

  lemma DeliverKeepsBuffers(p: Program, s: State, v: Uuid)
    requires HasSend(s, v)
    requires Valid(p) && DriverInv(p, s) && ReceiverInv(p, s) && LogInv(p, s) && BufferInv(p, s)
             && Enabled(p, s, Deliver(v))
    ensures BufferInv(p, Apply(p, s, Deliver(v)))
  {
    var x := NextSend(s, v);
    DeliverShape(p, s, v);
    hide Apply, Enabled, Valid, DriverInv, ReceiverInv, LogInv, NodeBuffer;
    var s1 := Apply(p, s, Deliver(v));
    forall u ensures NodeBuffer(p, s1, u) {
      DeliverKeepsNode(p, s, s1, v, x, u);
    }
  }

  lemma DeliverKeepsNode(p: Program, s: State, s1: State, v: Uuid, x: Send, u: Uuid)
    requires Delivers(s, s1, v, x) && |s.queues[x.target]| < p.capacity
    requires NodeBuffer(p, s, u)
    ensures NodeBuffer(p, s1, u)
  {
    hide Pick, WithChannel;
    PickAppend(For(u), s.sent, x);
    MessagesAppend(Pick(For(u), s.sent), x);
  }

  lemma InvInit(p: Program)
    requires Valid(p)
    ensures Inv(p, Init(p))
  {
    hide StepOf;
    assert OpenAt(p, 0) == WithChannel(p);
  }

  lemma {:induction false} InvAlways(p: Program, moves: seq<Move>)
    requires Valid(p) && Legal(p, moves)
    ensures Inv(p, After(p, moves))
  {
    if moves == [] {
      InvInit(p);
    } else {
      InvAlways(p, moves[..|moves| - 1]);
      InvStep(p, After(p, moves[..|moves| - 1]), moves[|moves| - 1]);
    }
  }

  lemma InvStep(p: Program, s: State, m: Move)
    requires Valid(p) && Inv(p, s) && Enabled(p, s, m)
    ensures Inv(p, Apply(p, s, m))
  {
    if !Over(s) {
      DriverKept(p, s, m);
      ReceiversKept(p, s, m);
      LogsKept(p, s, m);
      BuffersKept(p, s, m);
    }
  }
}
