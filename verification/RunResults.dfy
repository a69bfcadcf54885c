/** What a run guarantees: exact delivery, the exact condition for a run to finish, and
    that every run is finite. */
module RunResults {
  import opened Digraphs
  import opened Flows
  import opened PlanRun
  import opened RunInvariant

  // ---- Exact delivery ----

  /** `u` feeds `v`: an edge joins the enabled node `u` to `v`. */
  ghost predicate Feeds(p: Program, u: Uuid, v: Uuid) {
    u in p.enabled && exists e <- p.edges :: e.source == u && e.target == v
  }

  /** `u` feeds `v`, and no node of an earlier step does. */
  ghost predicate FeedsFirst(p: Program, u: Uuid, v: Uuid) {
    Feeds(p, u, v) && forall w :: Feeds(p, w, v) ==> StepOf(p, w) >= StepOf(p, u)
  }

  /** An edge between enabled nodes is live exactly when its source feeds its target first. */
  lemma EdgeIsLive(p: Program, e: Edge)
    requires e in p.edges && e.source in p.enabled && e.target in p.enabled
    ensures e in LiveEdges(p, e.source) <==> FeedsFirst(p, e.source, e.target)
  {
    hide StepOf;
    var open := OpenAt(p, StepOf(p, e.source));
    LiveEdgesMembers(p.edges, e.source, open);
    assert e.target in WithChannel(p);
    assert Feeds(p, e.source, e.target);
    if e.target in open {
      forall w | Feeds(p, w, e.target) ensures StepOf(p, w) >= StepOf(p, e.source) {
      }
    } else {
      var f :| f in p.edges && f.target == e.target && f.source in p.enabled
          && StepOf(p, f.source) < StepOf(p, e.source);
      assert Feeds(p, f.source, e.target);
    }
  }

  lemma FinishedFacts(p: Program, moves: seq<Move>)
    requires Valid(p) && Legal(p, moves) && After(p, moves).driver.Finished?
    ensures var s := After(p, moves);
            && DriverInv(p, s) && ReceiverInv(p, s) && LogInv(p, s) && BufferInv(p, s)
            && (forall v <- p.enabled :: v in s.tasks && s.tasks[v].phase.Ended?)
            && (forall v <- s.tasks :: v in p.enabled)
  {
    hide StepOf;
    InvAlways(p, moves);
  }

  /** In a finished run every node processed exactly what was sent to it, in order, and
      between any two nodes exactly what the sender's outputs route over its live edges was
      sent; all of it comes from the earliest step that feeds the node, and nothing is lost. */
  lemma ExactDelivery(p: Program, moves: seq<Move>, u: Uuid, v: Uuid)
    requires Valid(p) && Legal(p, moves) && After(p, moves).driver.Finished?
    requires u in p.enabled && v in p.enabled
    ensures var s := After(p, moves);
            && u in s.tasks && v in s.tasks && s.lost == []
            && s.tasks[v].processed == (if v in WithChannel(p) then Messages(Pick(For(v), s.sent)) else [p.trigger])
            && Pick(By(u), Pick(For(v), s.sent)) == Pick(For(v), Route(s.tasks[u].outputs, LiveEdges(p, u)))
            && (forall x <- Pick(For(v), s.sent) :: FeedsFirst(p, x.source, v))
  {
    FinishedFacts(p, moves);
    hide StepOf, LiveEdges, Route, Pick, Legal, After, Messages, FeedsFirst, DriverInv;
    var s := After(p, moves);
    assert TaskInv(p, s, u) && TaskInv(p, s, v) && NodeBuffer(p, s, v);
    PickCommutes(By(u), For(v), s.sent);
    assert Pick(By(u), s.sent) + [] == Pick(By(u), s.sent);
    forall x | x in Pick(For(v), s.sent) ensures FeedsFirst(p, x.source, v) {
      PickMembers(For(v), s.sent);
      SentFromFirst(p, s, x);
    }
  }

  lemma SentFromFirst(p: Program, s: State, x: Send)
    requires Valid(p) && DriverInv(p, s) && LogInv(p, s) && x in s.sent
    ensures x.source in p.enabled && x.target in WithChannel(p) && FeedsFirst(p, x.source, x.target)
  {
    var u := x.source;
    assert TaskInv(p, s, u) && Started(p, s, u);
    hide StepOf, Route, Live, Pick, Valid, DriverInv, LogInv;
    PickMembers(By(u), s.sent);
    assert x in Pick(By(u), s.sent);
    assert x in Route(s.tasks[u].outputs, LiveEdges(p, u));
    RouteOverEdges(s.tasks[u].outputs, LiveEdges(p, u));
    LiveEdgesMembers(p.edges, u, OpenAt(p, StepOf(p, u)));
    var e :| e in LiveEdges(p, u) && e.target == x.target;
    EdgeIsLive(p, e);
  }

  /** All enabled nodes feeding a node are in one step. */
  ghost predicate Aligned(p: Program) {
    forall u, w, v :: v in p.enabled && Feeds(p, u, v) && Feeds(p, w, v) ==> StepOf(p, u) == StepOf(p, w)
  }

  /** Every edge to an enabled node carries its messages exactly when the feeders of every
      node share a step. */
  lemma NothingDroppedIffAligned(p: Program)
    requires Valid(p)
    ensures Aligned(p) <==> forall e <- p.edges :: e.source in p.enabled && e.target in p.enabled ==>
            e in LiveEdges(p, e.source)
  {
    hide StepOf, LiveEdges, Valid;
    if Aligned(p) {
      forall e | e in p.edges && e.source in p.enabled && e.target in p.enabled ensures e in LiveEdges(p, e.source) {
        EdgeIsLive(p, e);
        assert Feeds(p, e.source, e.target);
      }
    } else {
      var u, w, v :| v in p.enabled && Feeds(p, u, v) && Feeds(p, w, v) && StepOf(p, u) > StepOf(p, w);
      var e :| e in p.edges && e.source == u && e.target == v;
      EdgeIsLive(p, e);
    }
  }

  /** With aligned feeders a node's live edges are all its edges to enabled nodes, so no
      message it dispatches is lost or duplicated. */
  lemma {:induction false} AlignedDeliversAll(p: Program, u: Uuid, edges: seq<Edge>)
    requires Valid(p) && Aligned(p) && u in p.enabled
    requires forall e <- edges :: e in p.edges
    ensures Live(edges, u, OpenAt(p, StepOf(p, u))) == Live(edges, u, WithChannel(p))
  {
    hide StepOf, Valid;
    if edges != [] {
      var e := edges[|edges| - 1];
      assert e in edges;
      AlignedDeliversAll(p, u, edges[..|edges| - 1]);
      if e.source == u && e.target in WithChannel(p) {
        assert Feeds(p, u, e.target);
        forall f | f in p.edges && f.target == e.target && f.source in p.enabled
            ensures StepOf(p, f.source) >= StepOf(p, u) {
          assert Feeds(p, f.source, e.target);
        }
        assert e.target in OpenAt(p, StepOf(p, u));
      }
    }
  }

  lemma AlignedDelivery(p: Program, moves: seq<Move>, u: Uuid, v: Uuid)
    requires Valid(p) && Aligned(p) && Legal(p, moves) && After(p, moves).driver.Finished?
    requires u in p.enabled && v in p.enabled
    ensures var s := After(p, moves);
            && u in s.tasks
            && Pick(By(u), Pick(For(v), s.sent)) ==
                Pick(For(v), Route(s.tasks[u].outputs, Live(p.edges, u, WithChannel(p))))
  {
    ExactDelivery(p, moves, u, v);
    AlignedDeliversAll(p, u, p.edges);
  }

  // ---- What routing means ----

  /** The edge carries the message to `v`: it starts at the message's port, or it is a lone edge. */
  predicate Carries(e: Edge, m: Message, single: bool, v: Uuid) {
    e.target == v && (m.sourcePort == e.sourcePort || single)
  }

  ghost function Matching(m: Message, out: seq<Edge>, single: bool, v: Uuid): set<int> {
    set i | 0 <= i < |out| && Carries(out[i], m, single, v)
  }

  /** Each message, in order, as many times as edges carry it to `v`. */
  ghost function Copies(messages: seq<Message>, out: seq<Edge>, v: Uuid): seq<Message> {
    if messages == [] then []
    else
      var m := messages[|messages| - 1];
      Copies(messages[..|messages| - 1], out, v) + seq(|Matching(m, out, |out| == 1, v)|, _ => m)
  }

  lemma {:induction false} OncePerEdge(m: Message, out: seq<Edge>, single: bool, v: Uuid)
    ensures Messages(Pick(For(v), SendsOf(m, out, single))) == seq(|Matching(m, out, single, v)|, _ => m)
  {
    if out == [] {
      assert Matching(m, out, single, v) == {};
    } else {
      OncePerEdge(m, out[..|out| - 1], single, v);
      MatchingGrows(m, out, single, v);
      OneEdgeMore(m, out, single, v);
      hide *;
    }
  }

  lemma MatchingGrows(m: Message, out: seq<Edge>, single: bool, v: Uuid)
    requires out != []
    ensures |Matching(m, out, single, v)| ==
            |Matching(m, out[..|out| - 1], single, v)| + if Carries(out[|out| - 1], m, single, v) then 1 else 0
  {
    hide Carries;
    var before := Matching(m, out[..|out| - 1], single, v);
    assert Matching(m, out, single, v) == if Carries(out[|out| - 1], m, single, v)
        then before + {|out| - 1} else before;
  }

  lemma OneEdgeMore(m: Message, out: seq<Edge>, single: bool, v: Uuid)
    requires out != []
    ensures Messages(Pick(For(v), SendsOf(m, out, single))) ==
            Messages(Pick(For(v), SendsOf(m, out[..|out| - 1], single))) + if Carries(out[|out| - 1], m, single, v)
                then [m] else []
  {
    var e := out[|out| - 1];
    var sends, x := SendsOf(m, out[..|out| - 1], single), Send(e.source, e.target, m);
    assert SendsOf(m, out, single) == if m.sourcePort == e.sourcePort || single then sends + [x] else sends;
    hide SendsOf, Pick;
    PickAppend(For(v), sends, x);
    MessagesAppend(Pick(For(v), sends), x);
    assert Pick(For(v), sends) + [] == Pick(For(v), sends);
  }

  /** What a task sends to a node is its outputs in order, each once for every edge whose port
      matches (or over its only edge, whatever the port). */
  lemma {:induction false} RouteIsCopies(messages: seq<Message>, out: seq<Edge>, v: Uuid)
    ensures Messages(Pick(For(v), Route(messages, out))) == Copies(messages, out, v)
  {
    if messages != [] {
      var front, m := messages[..|messages| - 1], messages[|messages| - 1];
      RouteIsCopies(front, out, v);
      OncePerEdge(m, out, |out| == 1, v);
      PickConcat(For(v), Route(front, out), SendsOf(m, out, |out| == 1));
      hide Pick, SendsOf, Matching;
      assert Messages(Pick(For(v), Route(front, out)) + Pick(For(v), SendsOf(m, out, |out| == 1)))
          == Messages(Pick(For(v), Route(front, out))) + Messages(Pick(For(v), SendsOf(m, out, |out| == 1)));
    }
  }

  // ---- The lone edge ----

  /** The positions of the edges that give `node` a channel. */
  ghost function LivePositions(edges: seq<Edge>, node: Uuid, channels: set<Uuid>): set<int> {
    set i | 0 <= i < |edges| && edges[i].source == node && edges[i].target in channels
  }

  lemma {:induction false} LiveSize(edges: seq<Edge>, node: Uuid, channels: set<Uuid>)
    ensures |Live(edges, node, channels)| == |LivePositions(edges, node, channels)|
  {
    if edges == [] {
      assert LivePositions(edges, node, channels) == {};
    } else {
      LiveSize(edges[..|edges| - 1], node, channels);
      OneEdgeLonger(edges, node, channels);
      hide LivePositions;
    }
  }

  lemma OneEdgeLonger(edges: seq<Edge>, node: Uuid, channels: set<Uuid>)
    requires edges != []
    ensures var e := edges[|edges| - 1];
            |LivePositions(edges, node, channels)| ==
            |LivePositions(edges[..|edges| - 1], node, channels)| + if e.source == node && e.target in channels
                then 1 else 0
  {
    var e, before := edges[|edges| - 1], LivePositions(edges[..|edges| - 1], node, channels);
    assert LivePositions(edges, node, channels) == if e.source == node && e.target in channels
        then before + {|edges| - 1} else before;
  }

  /** A message whose port no live edge to `v` starts at goes to `v` all the same exactly when the
      node has one live edge and it leads there. */
  lemma StrayMessageIff(m: Message, out: seq<Edge>, v: Uuid)
    requires forall e <- out :: e.target == v ==> e.sourcePort != m.sourcePort
    ensures Copies([m], out, v) != [] <==> |out| == 1 && out[0].target == v
  {
    assert [m][..0] == [];
    if |out| == 1 {
      assert out[0] in out;
      assert Carries(out[0], m, true, v) ==> 0 in Matching(m, out, true, v);
    } else {
      forall i | 0 <= i < |out| ensures !Carries(out[i], m, false, v) {
        assert out[i] in out;
      }
      assert Matching(m, out, false, v) == {};
    }
  }

  /** Being a lone edge is about live edges, not about the flow's: it is alone when every other
      edge of its source leads to a disabled node or to one that an earlier step feeds.  So
      when one of a switch's two targets is disabled, the other one gets every message. */
  lemma LoneEdgeIff(p: Program, i: nat)
    requires i < |p.edges| && p.edges[i].source in p.enabled && p.edges[i].target in p.enabled
    ensures var u := p.edges[i].source;
            LiveEdges(p, u) == [p.edges[i]] <==>
            && FeedsFirst(p, u, p.edges[i].target)
            && forall j :: 0 <= j < |p.edges| && j != i && p.edges[j].source == u && p.edges[j].target in p.enabled ==>
                 !FeedsFirst(p, u, p.edges[j].target)
  {
    var u := p.edges[i].source;
    var open := OpenAt(p, StepOf(p, u));
    var live := LivePositions(p.edges, u, open);
    LiveSize(p.edges, u, open);
    forall j | 0 <= j < |p.edges| && p.edges[j].source == u
      ensures j in live <==> p.edges[j].target in p.enabled && FeedsFirst(p, u, p.edges[j].target)
    {
      OpenIsEnabled(p, StepOf(p, u), p.edges[j].target);
      if p.edges[j].target in p.enabled {
        EdgeIsLive(p, p.edges[j]);
        LiveEdgesMembers(p.edges, u, open);
      }
    }
    LiveEdgesMembers(p.edges, u, open);
    hide FeedsFirst, Feeds, OpenAt, StepOf;
    OneMember(live, i);
    assert p.edges[i] in p.edges;
    assert p.edges[i] in LiveEdges(p, u) <==> i in live;
    assert LiveEdges(p, u) == [p.edges[i]] ==> p.edges[i] in LiveEdges(p, u);
  }

  lemma OpenIsEnabled(p: Program, k: nat, v: Uuid)
    ensures v in OpenAt(p, k) ==> v in p.enabled
  {
  }

  lemma OneMember(s: set<int>, x: int)
    ensures |s| == 1 && x in s <==> x in s && forall y <- s :: y == x
  {
    if x in s {
      assert s == {x} + (s - {x});
      if forall y <- s :: y == x {
        assert s == {x};
      }
      if |s| == 1 {
        assert |s - {x}| == 0;
        forall y | y in s ensures y == x {
          assert y != x ==> y in s - {x};
        }
      }
    }
  }

  // ---- Deadlock freedom ----

  /** A node with a channel that no enabled node feeds. */
  ghost predicate Orphan(p: Program, v: Uuid) {
    v in WithChannel(p) && forall u :: !Feeds(p, u, v)
  }

  ghost predicate NoOrphans(p: Program) {
    forall v :: !Orphan(p, v)
  }

  /** A flow whose edges start at enabled nodes, like any flow imported from the canvas, has no orphans. */
  lemma EnabledSourcesNoOrphans(p: Program)
    requires forall e <- p.edges :: e.source in p.enabled
    ensures NoOrphans(p)
  {
    forall v | v in WithChannel(p) ensures exists u :: Feeds(p, u, v) {
      var e :| e in p.edges && e.target == v;
      assert Feeds(p, e.source, v);
    }
  }

  /** No node has been sent, or is about to be sent, more messages than its channel holds. */
  ghost predicate WithinCapacity(p: Program, s: State) {
    forall v :: |Pick(For(v), s.dispatched)| <= p.capacity
  }

  lemma {:induction false} CountWithin(a: seq<Send>, b: seq<Send>)
    requires multiset(a) <= multiset(b)
    ensures |a| <= |b|
  {
    assert multiset(b) == multiset(a) + (multiset(b) - multiset(a));
    assert |multiset(b)| == |multiset(a)| + |multiset(b) - multiset(a)|;
  }

  /** Counting by sender shows that a pending send is still missing from the deliveries. */
  lemma PendingNotSent(p: Program, s: State, extra: seq<Send>, t: Uuid)
    requires LogInv(p, s)
    requires extra == [] || (exists v :: HasSend(s, v) && extra == [NextSend(s, v)] && NextSend(s, v).source == v)
    ensures |Pick(For(t), s.sent + extra)| <= |Pick(For(t), s.dispatched)|
  {
    hide LiveEdges, Route, Pick;
    forall x ensures multiset(s.sent + extra)[x] <= multiset(s.dispatched)[x] {
      SenderCounts(p, s, extra, x);
    }
    forall x ensures multiset(Pick(For(t), s.sent + extra))[x] <= multiset(Pick(For(t), s.dispatched))[x] {
      PickCount(For(t), s.sent + extra, x);
      PickCount(For(t), s.dispatched, x);
    }
    CountWithin(Pick(For(t), s.sent + extra), Pick(For(t), s.dispatched));
  }

  lemma SenderCounts(p: Program, s: State, extra: seq<Send>, x: Send)
    requires LogInv(p, s)
    requires extra == [] || (exists v :: HasSend(s, v) && extra == [NextSend(s, v)] && NextSend(s, v).source == v)
    ensures multiset(s.sent + extra)[x] <= multiset(s.dispatched)[x]
  {
    hide LiveEdges, Route, Pick;
    var u := x.source;
    PickCount(By(u), s.sent, x);
    PickCount(By(u), s.dispatched, x);
    if u in s.tasks {
      assert TaskInv(p, s, u);
      var pending := Unsent(s.tasks[u]);
      assert multiset(Pick(By(u), s.dispatched)) == multiset(Pick(By(u), s.sent)) + multiset(pending);
      if extra != [] && extra[0] == x {
        assert pending[0] == x && x in pending;
        assert x in multiset(pending);
      }
    } else {
      assert x !in s.sent;
    }
  }

  /** While there are no orphans and no channel is over its capacity, an unfinished run can
      always take a step that is neither a cancellation nor a failure. */
  lemma Progress(p: Program, s: State) returns (m: Move)
    requires Valid(p) && Inv(p, s) && !Over(s) && !s.driver.Finished?
    requires NoOrphans(p) && WithinCapacity(p, s)
    ensures Enabled(p, s, m) && !m.Cancel? && !m.Fail?
  {
    if s.driver.Boundary? {
      m := if s.step == |p.steps| then Finish else if s.cancelled then StopAtBoundary else StartStep;
    } else if s.driver.next == |p.steps[s.step]| {
      m := EndStep;
    } else {
      var v := p.steps[s.step][s.driver.next];
      StepMembers(p, s.step, v);
      assert Started(p, s, v);
      if Running(s.tasks[v]) {
        m := TaskProgress(p, s, v);
      } else {
        m := AwaitTask;
      }
    }
  }

  lemma TaskProgress(p: Program, s: State, v: Uuid) returns (m: Move)
    requires s.driver.Awaiting? && v in s.tasks && Running(s.tasks[v]) && StepOf(p, v) == s.step
    requires Valid(p) && DriverInv(p, s) && ReceiverInv(p, s) && LogInv(p, s) && BufferInv(p, s)
    requires NoOrphans(p) && WithinCapacity(p, s)
    ensures Enabled(p, s, m) && !m.Cancel? && !m.Fail?
  {
    hide StepOf, Pick, Valid, LogInv, BufferInv, DriverInv, NoOrphans, WithinCapacity, SendersGone;
    match s.tasks[v].phase {
      case Receiving =>
        if s.queues[v] == [] {
          SendersAreGone(p, s, v);
          m := ReceiveEnd(v);
        } else {
          m := Receive(v);
        }
      case Processing => m := Return(v, []);
      case Sending(pending) =>
        if pending == [] {
          m := DispatchDone(v);
        } else {
          RoomToDeliver(p, s, v);
          m := Deliver(v);
        }
    }
  }

  lemma SendersAreGone(p: Program, s: State, v: Uuid)
    requires Valid(p) && DriverInv(p, s) && LogInv(p, s) && s.driver.Awaiting?
    requires v in s.tasks && StepOf(p, v) == s.step && v in WithChannel(p) && NoOrphans(p)
    ensures SendersGone(s, v)
  {
    hide StepOf, Pick, Route, Live;
    assert !Orphan(p, v);
    var u :| Feeds(p, u, v);
    var e :| e in p.edges && e.source == u && e.target == v;
    assert v !in OpenAt(p, s.step);
    forall w, f | w in s.tasks && Running(s.tasks[w]) && f in s.tasks[w].out ensures f.target != v {
      assert TaskInv(p, s, w);
      LiveEdgesMembers(p.edges, w, OpenAt(p, StepOf(p, w)));
    }
  }

  lemma RoomToDeliver(p: Program, s: State, v: Uuid)
    requires HasSend(s, v)
    requires Valid(p) && DriverInv(p, s) && ReceiverInv(p, s) && LogInv(p, s) && BufferInv(p, s) && WithinCapacity(p, s)
    ensures Enabled(p, s, Deliver(v))
  {
    var x := NextSend(s, v);
    TargetWaits(p, s, v);
    PendingNotSent(p, s, [x], x.target);
    PickAppend(For(x.target), s.sent, x);
    assert NodeBuffer(p, s, x.target);
  }

  /** A finished run kept every channel within its capacity. */
  lemma FinishedWithinCapacity(p: Program, moves: seq<Move>)
    requires Valid(p) && Legal(p, moves) && After(p, moves).driver.Finished?
    ensures WithinCapacity(p, After(p, moves))
  {
    FinishedFacts(p, moves);
    hide Legal, After, DriverInv, ReceiverInv, Valid, Pick, LiveEdges, Route;
    var s := After(p, moves);
    forall x ensures multiset(s.dispatched)[x] == multiset(s.sent)[x] {
      PickCount(By(x.source), s.sent, x);
      PickCount(By(x.source), s.dispatched, x);
      if x.source in s.tasks {
        assert TaskInv(p, s, x.source);
        assert Pick(By(x.source), s.sent) + [] == Pick(By(x.source), s.sent);
      } else {
        assert x !in s.sent && x !in s.dispatched;
      }
    }
    forall v ensures |Pick(For(v), s.dispatched)| <= p.capacity {
      assert NodeBuffer(p, s, v);
      forall x ensures multiset(Pick(For(v), s.dispatched))[x] == multiset(Pick(For(v), s.sent))[x] {
        PickCount(For(v), s.dispatched, x);
        PickCount(For(v), s.sent, x);
      }
      CountWithin(Pick(For(v), s.dispatched), Pick(For(v), s.sent));
    }
  }

  /** An orphan waits forever: its sender is never dropped and nothing is ever sent to it. */
  lemma {:induction false} OrphanWaits(p: Program, moves: seq<Move>, v: Uuid)
    requires Valid(p) && Legal(p, moves) && Orphan(p, v)
    ensures var s := After(p, moves); !Over(s) && v in s.tasks ==> s.tasks[v].phase.Receiving?
  {
    if moves != [] {
      var before := moves[..|moves| - 1];
      OrphanWaits(p, before, v);
      InvAlways(p, before);
      if !Over(After(p, before)) {
        OrphanStep(p, After(p, before), moves[|moves| - 1], v);
      }
    }
  }

  lemma OrphanStep(p: Program, s: State, m: Move, v: Uuid)
    requires Valid(p) && Inv(p, s) && !Over(s) && Enabled(p, s, m) && Orphan(p, v)
    requires v in s.tasks ==> s.tasks[v].phase.Receiving?
    ensures var s1 := Apply(p, s, m); v in s1.tasks ==> s1.tasks[v].phase.Receiving?
  {
    OrphanHears(p, s, v);
    if m.StartStep? {
      StartShape(p, s);
      hide *;
      NewReceives(p, s, v);
    } else {
      hide *;
      QuietOrphan(p, s, m, v);
    }
  }

  lemma NewReceives(p: Program, s: State, v: Uuid)
    ensures v in s.queues ==> NewTask(p, s, v).phase.Receiving?
  {
    hide Live;
  }

  lemma QuietOrphan(p: Program, s: State, m: Move, v: Uuid)
    requires Enabled(p, s, m) && !m.StartStep?
    requires v in s.channels && (v in s.queues ==> s.queues[v] == [])
    requires v in s.tasks ==> s.tasks[v].phase.Receiving?
    ensures var s1 := Apply(p, s, m); v in s1.tasks ==> s1.tasks[v].phase.Receiving?
  {
    hide Route, StepTargets;
  }

  lemma OrphanHears(p: Program, s: State, v: Uuid)
    requires Valid(p) && Inv(p, s) && !Over(s) && Orphan(p, v)
    ensures v in s.queues ==> s.queues[v] == []
    ensures v in s.channels
    ensures v !in s.tasks ==> v in s.queues
  {
    NothingSentToOrphan(p, s, v);
    hide StepOf, Pick, Valid, LogInv, Feeds;
    assert NodeBuffer(p, s, v);
    forall e | e in p.edges && e.target == v ensures e.source !in p.enabled {
      NotFed(p, e, v);
    }
  }

  lemma NotFed(p: Program, e: Edge, v: Uuid)
    requires Orphan(p, v) && e in p.edges && e.target == v
    ensures e.source !in p.enabled
  {
    assert !Feeds(p, e.source, v);
  }

  lemma NoMembers<T>(q: seq<T>)
    ensures (forall x :: x !in q) ==> q == []
  {
    if q != [] {
      assert q[0] in q;
    }
  }

  lemma NothingSentToOrphan(p: Program, s: State, v: Uuid)
    requires Valid(p) && DriverInv(p, s) && LogInv(p, s) && Orphan(p, v)
    ensures Messages(Pick(For(v), s.sent)) == []
  {
    hide StepOf, Pick, Valid, LogInv, DriverInv;
    PickMembers(For(v), s.sent);
    forall x | x in s.sent ensures x.target != v {
      SentFromFirst(p, s, x);
    }
    NoMembers(Pick(For(v), s.sent));
  }

  lemma FinishedNoOrphans(p: Program, moves: seq<Move>)
    requires Valid(p) && Legal(p, moves) && After(p, moves).driver.Finished?
    ensures NoOrphans(p)
  {
    FinishedFacts(p, moves);
    forall v ensures !Orphan(p, v) {
      if Orphan(p, v) {
        OrphanWaits(p, moves, v);
      }
    }
  }

  /** No move but a cancellation is left. */
  ghost predicate Maximal(p: Program, s: State) {
    forall m :: Enabled(p, s, m) ==> m.Cancel?
  }

  /** A run driven as far as it goes, neither cancelled nor failed, has finished exactly when
      no node is an orphan and no node was sent more than its channel holds. */
  lemma FinishesIff(p: Program, moves: seq<Move>)
    requires Valid(p) && Legal(p, moves)
    requires !Over(After(p, moves)) && Maximal(p, After(p, moves))
    ensures After(p, moves).driver.Finished? <==> NoOrphans(p) && WithinCapacity(p, After(p, moves))
  {
    if After(p, moves).driver.Finished? {
      FinishedNoOrphans(p, moves);
      FinishedWithinCapacity(p, moves);
    } else if NoOrphans(p) && WithinCapacity(p, After(p, moves)) {
      InvAlways(p, moves);
      var m := Progress(p, After(p, moves));
      assert false;
    }
  }
}
