/** Runs in which chosen nodes say chosen things (engine.rs): every program in which some edge gets
    no channel has a finished run that drops a message, and every live edge can be overrun. */
module ScriptedRuns {
  import opened Digraphs
  import opened Flows
  import opened PlanRun
  import opened RunInvariant
  import opened RunResults
  import opened RunTermination
  import opened Scheduler

  /** What some nodes output when they first process a message; all else outputs nothing. */
  type Script = map<Uuid, seq<Message>>

  /** The nodes of the script are one per step, and each that needs a message to run is fed first by
      another whose script starts on the port of the joining edge. */
  ghost predicate Playable(p: Program, script: Script) {
    && (forall v <- script :: v in p.enabled && script[v] != [])
    && (forall v, w :: v in script && w in script && StepOf(p, v) == StepOf(p, w) ==> v == w)
    && forall v <- script :: v in WithChannel(p) ==> exists w, e :: Prompts(p, script, w, e, v)
  }

  ghost predicate Prompts(p: Program, script: Script, w: Uuid, e: Edge, v: Uuid) {
    && w in script && script[w] != [] && e in p.edges && e.source == w && e.target == v
    && e.sourcePort == script[w][0].sourcePort && FeedsFirst(p, w, v)
  }

  // ---- A script for any node ----

  lemma {:induction false} FirstFeeder(p: Program, u: Uuid, v: Uuid) returns (w: Uuid)
    requires Feeds(p, u, v)
    ensures FeedsFirst(p, w, v)
    decreases StepOf(p, u)
  {
    hide StepOf, Feeds;
    if x :| Feeds(p, x, v) && StepOf(p, x) < StepOf(p, u) {
      w := FirstFeeder(p, x, v);
    } else {
      w := u;
    }
  }

  /** Any enabled node of a program without orphans can be brought to say anything. */
  lemma {:induction false} ScriptFor(p: Program, u: Uuid, says: seq<Message>) returns (script: Script)
    requires Valid(p) && NoOrphans(p) && u in p.enabled && says != []
    ensures Playable(p, script) && u in script && script[u] == says
    ensures forall v <- script :: v != u ==> StepOf(p, v) < StepOf(p, u) && |script[v]| == 1
    decreases StepOf(p, u)
  {
    if u in WithChannel(p) {
      assert !Orphan(p, u);
      var x :| Feeds(p, x, u);
      var w := FirstFeeder(p, x, u);
      var e :| e in p.edges && e.source == w && e.target == u && w in p.enabled;
      var rest := ScriptFor(p, w, [Message(0, e.sourcePort, "")]);
      script := rest[u := says];
      ScriptLonger(p, rest, w, e, u, says);
    } else {
      script := map[u := says];
    }
  }

  lemma ScriptLonger(p: Program, rest: Script, w: Uuid, e: Edge, u: Uuid, says: seq<Message>)
    requires Playable(p, rest) && u in p.enabled && says != [] && StepOf(p, w) < StepOf(p, u)
    requires forall v <- rest :: StepOf(p, v) <= StepOf(p, w)
    requires w in rest && e in p.edges && e.source == w && e.target == u && FeedsFirst(p, w, u)
    requires rest[w] == [Message(0, e.sourcePort, "")]
    ensures Playable(p, rest[u := says])
  {
    hide StepOf, FeedsFirst, WithChannel;
    var script := rest[u := says];
    assert u !in rest;
    forall v | v in script && v in WithChannel(p) ensures exists x, f :: Prompts(p, script, x, f, v) {
      if v == u {
        assert Prompts(p, script, w, e, u);
      } else {
        var x, f :| Prompts(p, rest, x, f, v);
        assert Prompts(p, script, x, f, v);
      }
    }
  }

  // ---- Following the script ----

  ghost function Says(script: Script, s: State, v: Uuid): seq<Message> {
    if v in script && v in s.tasks && s.tasks[v].outputs == [] then script[v] else []
  }

  ghost predicate Follows(p: Program, script: Script, moves: seq<Move>)
    requires Legal(p, moves)
  {
    moves == [] ||
    var front, m := moves[..|moves| - 1], moves[|moves| - 1];
    Follows(p, script, front) && (m.Return? ==> m.outputs == Says(script, After(p, front), m.node))
  }

  /** What a task has output: nothing, or its script; and nothing only while it has had no message
      or is still processing one. */
  ghost predicate Scripted(script: Script, s: State, v: Uuid)
    requires v in s.tasks
  {
    var t := s.tasks[v];
    && (t.outputs == [] || (v in script && t.outputs == script[v]))
    && (v in script && t.outputs == [] ==>
          t.phase.Processing? || t.phase.Failed? || (t.processed == [] && (t.phase.Receiving? || t.phase.Ended?)))
  }

  ghost predicate AllScripted(script: Script, s: State) {
    forall v <- s.tasks :: Scripted(script, s, v)
  }

  lemma ScriptedActor(p: Program, script: Script, s: State, m: Move)
    requires Enabled(p, s, m) && Actor(m).Some? && Actor(m).value in s.tasks && Scripted(script, s, Actor(m).value)
    requires forall v <- script :: script[v] != []
    requires m.Return? ==> m.outputs == Says(script, s, m.node)
    ensures Actor(m).value in Apply(p, s, m).tasks && Scripted(script, Apply(p, s, m), Actor(m).value)
  {
    hide Route, SendersGone;
  }

  lemma ScriptedStart(p: Program, script: Script, s: State)
    requires Valid(p) && DriverInv(p, s) && Enabled(p, s, StartStep) && AllScripted(script, s)
    ensures AllScripted(script, Apply(p, s, StartStep))
  {
    StartShape(p, s);
    hide Apply, Enabled, Valid, DriverInv, Live;
  }

  lemma ScriptedStep(p: Program, script: Script, s: State, m: Move)
    requires Valid(p) && Inv(p, s) && !Over(s) && Enabled(p, s, m) && AllScripted(script, s)
    requires forall v <- script :: script[v] != []
    requires m.Return? ==> m.outputs == Says(script, s, m.node)
    ensures AllScripted(script, Apply(p, s, m))
  {
    if Actor(m).Some? {
      hide *;
      TaskMove(p, s, m);
      ActorPresent(script, s, Apply(p, s, m), Actor(m).value);
      ScriptedActor(p, script, s, m);
      OthersScripted(script, s, Apply(p, s, m), Actor(m).value);
    } else if m.StartStep? {
      InvParts(p, s);
      ScriptedStart(p, script, s);
    } else {
      DriverLeavesTasks(p, s, m);
      hide Apply, Enabled, Inv, Over;
    }
  }

  lemma ActorPresent(script: Script, s: State, s1: State, v: Uuid)
    requires TouchesOnly(s, s1, v) && AllScripted(script, s)
    ensures v in s.tasks && Scripted(script, s, v)
  {
    hide Scripted;
  }

  lemma OthersScripted(script: Script, s: State, s1: State, v: Uuid)
    requires TouchesOnly(s, s1, v) && AllScripted(script, s) && v in s1.tasks && Scripted(script, s1, v)
    ensures AllScripted(script, s1)
  {
  }

  lemma DriverLeavesTasks(p: Program, s: State, m: Move)
    requires Enabled(p, s, m) && Actor(m).None? && !m.StartStep?
    ensures Apply(p, s, m).tasks == s.tasks
  {
  }

  lemma {:induction false} ScriptedRun(p: Program, script: Script, moves: seq<Move>)
    requires Valid(p) && Playable(p, script) && Legal(p, moves) && Calm(moves) && Follows(p, script, moves)
    ensures AllScripted(script, After(p, moves))
  {
    if moves != [] {
      var front, m := moves[..|moves| - 1], moves[|moves| - 1];
      CalmFront(moves);
      ScriptedRun(p, script, front);
      InvAlways(p, front);
      CalmIsUntroubled(p, front);
      ScriptedStep(p, script, After(p, front), m);
      hide Apply, Enabled, AllScripted, Inv;
    }
  }

  lemma CalmFront(moves: seq<Move>)
    requires Calm(moves) && moves != []
    ensures Calm(moves[..|moves| - 1])
  {
    assert forall m <- moves[..|moves| - 1] :: m in moves;
  }

  // ---- A scripted run ends, or overruns a channel ----

  lemma FollowsLonger(p: Program, script: Script, moves: seq<Move>, m: Move)
    requires Legal(p, moves) && Follows(p, script, moves) && Legal(p, moves + [m])
    requires m.Return? ==> m.outputs == Says(script, After(p, moves), m.node)
    ensures Follows(p, script, moves + [m])
  {
    hide Legal, After;
    assert (moves + [m])[..|moves + [m]| - 1] == moves;
  }

  lemma OtherWords(p: Program, s: State, v: Uuid, said: seq<Message>, says: seq<Message>)
    requires Enabled(p, s, Return(v, said))
    ensures Enabled(p, s, Return(v, says))
  {
  }

  lemma {:induction false} PlayOn(p: Program, script: Script, moves: seq<Move>) returns (full: seq<Move>)
    requires Valid(p) && NoOrphans(p) && Playable(p, script)
    requires Legal(p, moves) && Calm(moves) && Follows(p, script, moves)
    ensures Legal(p, full) && Calm(full) && Follows(p, script, full)
    ensures After(p, full).driver.Finished? || !WithinCapacity(p, After(p, full))
    decreases MeasureAfter(p, moves).calm, MeasureAfter(p, moves).steps, MeasureAfter(p, moves).work,
              MeasureAfter(p, moves).unsent, MeasureAfter(p, moves).phases, MeasureAfter(p, moves).handles
  {
    hide *;
    var s := After(p, moves);
    full := moves;
    if !s.driver.Finished? && WithinCapacity(p, s) {
      InvAlways(p, moves);
      CalmIsUntroubled(p, moves);
      UntroubledNotOver(s);
      var m := Progress(p, s);
      if m.Return? {
        OtherWords(p, s, m.node, m.outputs, Says(script, s, m.node));
        m := Return(m.node, Says(script, s, m.node));
      }
      LongerFalls(p, moves, m);
      FollowsLonger(p, script, moves, m);
      CalmLonger(moves, m);
      BelowFalls(MeasureAfter(p, moves + [m]), MeasureAfter(p, moves));
      full := PlayOn(p, script, moves + [m]);
    }
  }

  lemma UntroubledNotOver(s: State)
    requires Untroubled(s)
    ensures !Over(s)
  {
  }

  lemma CalmLonger(moves: seq<Move>, m: Move)
    requires Calm(moves) && !m.Cancel? && !m.Fail?
    ensures Calm(moves + [m])
  {
  }

  lemma BelowFalls(a: Measure, b: Measure)
    requires RunTermination.Below(a, b)
    ensures || a.calm < b.calm
            || (a.calm == b.calm && (a.steps < b.steps
            || (a.steps == b.steps && (a.work < b.work
            || (a.work == b.work && (a.unsent < b.unsent
            || (a.unsent == b.unsent && (a.phases < b.phases
            || (a.phases == b.phases && a.handles < b.handles)))))))))
  {
  }

  // ---- In a finished run everyone in the script has spoken ----

  lemma {:induction false} SendsMember(m: Message, out: seq<Edge>, single: bool, e: Edge)
    requires e in out && (m.sourcePort == e.sourcePort || single)
    ensures Send(e.source, e.target, m) in SendsOf(m, out, single)
  {
    var front := out[..|out| - 1];
    if e in front {
      SendsMember(m, front, single, e);
    } else {
      assert out == front + [out[|out| - 1]];
    }
  }

  /** Over an edge whose port matches, a message is routed. */
  lemma {:induction false} RouteMember(messages: seq<Message>, out: seq<Edge>, m: Message, e: Edge)
    requires m in messages && e in out && m.sourcePort == e.sourcePort
    ensures Send(e.source, e.target, m) in Route(messages, out)
  {
    var front, last := messages[..|messages| - 1], messages[|messages| - 1];
    if m in front {
      RouteMember(front, out, m, e);
    } else {
      assert messages == front + [last];
      SendsMember(m, out, |out| == 1, e);
    }
  }

  lemma PickFinds(p: Program, s: State, u: Uuid, v: Uuid, x: Send, routed: seq<Send>)
    requires Pick(By(u), Pick(For(v), s.sent)) == Pick(For(v), routed)
    requires x in routed && x.target == v
    ensures x in s.sent && Messages(Pick(For(v), s.sent)) != []
  {
    PickMembers(For(v), routed);
    PickMembers(By(u), Pick(For(v), s.sent));
    PickMembers(For(v), s.sent);
  }

  lemma {:induction false} EveryoneSpeaks(p: Program, script: Script, moves: seq<Move>, v: Uuid)
    requires Valid(p) && Playable(p, script) && Legal(p, moves) && Calm(moves) && Follows(p, script, moves)
    requires After(p, moves).driver.Finished? && v in script
    ensures v in After(p, moves).tasks && After(p, moves).tasks[v].outputs == script[v]
    decreases StepOf(p, v)
  {
    var s := After(p, moves);
    ScriptedRun(p, script, moves);
    FinishedFacts(p, moves);
    assert Scripted(script, s, v);
    if v in WithChannel(p) {
      var w, e :| Prompts(p, script, w, e, v);
      EarlierStep(p, e);
      EveryoneSpeaks(p, script, moves, w);
      Prompted(p, moves, script, w, e, v);
    } else {
      ExactDelivery(p, moves, v, v);
    }
    hide Legal, After, Valid, Playable, Follows, Inv, DriverInv, ReceiverInv, LogInv, BufferInv;
  }

  lemma EarlierStep(p: Program, e: Edge)
    requires Valid(p) && e in p.edges && e.source in p.enabled && e.target in p.enabled
    ensures StepOf(p, e.source) < StepOf(p, e.target)
  {
    hide StepOf;
  }

  lemma Prompted(p: Program, moves: seq<Move>, script: Script, w: Uuid, e: Edge, v: Uuid)
    requires Valid(p) && Legal(p, moves) && After(p, moves).driver.Finished?
    requires w in p.enabled && v in p.enabled && v in WithChannel(p) && Prompts(p, script, w, e, v)
    requires w in After(p, moves).tasks && After(p, moves).tasks[w].outputs == script[w]
    ensures v in After(p, moves).tasks && After(p, moves).tasks[v].processed != []
  {
    var s := After(p, moves);
    ExactDelivery(p, moves, w, v);
    EdgeIsLive(p, e);
    hide Legal, After, Valid, FeedsFirst, WithChannel;
    var m := script[w][0];
    assert m in script[w];
    RouteMember(script[w], LiveEdges(p, w), m, e);
    PickFinds(p, s, w, v, Send(w, v, m), Route(script[w], LiveEdges(p, w)));
  }

  // ---- Dropped messages ----

  /** A node output a message that an edge between enabled nodes should carry and did not. */
  ghost predicate Drops(p: Program, s: State) {
    exists e, m :: DropsOver(p, s, e, m)
  }

  ghost predicate DropsOver(p: Program, s: State, e: Edge, m: Message) {
    && e in p.edges && e.source in p.enabled && e.target in p.enabled
    && e.source in s.tasks && m in s.tasks[e.source].outputs
    && m.sourcePort == e.sourcePort && Send(e.source, e.target, m) !in s.sent
  }

  lemma AlignedDropsNothing(p: Program, moves: seq<Move>)
    requires Valid(p) && Aligned(p) && Legal(p, moves) && After(p, moves).driver.Finished?
    ensures !Drops(p, After(p, moves))
  {
    var s := After(p, moves);
    forall e, m | e in p.edges && e.source in p.enabled && e.target in p.enabled
                  && e.source in s.tasks && m in s.tasks[e.source].outputs && m.sourcePort == e.sourcePort
      ensures Send(e.source, e.target, m) in s.sent
    {
      AlignedDelivery(p, moves, e.source, e.target);
      hide Legal, After, Valid, Aligned;
      var live := Live(p.edges, e.source, WithChannel(p));
      LiveEdgesMembers(p.edges, e.source, WithChannel(p));
      assert e.target in Targets(p.edges);
      RouteMember(s.tasks[e.source].outputs, live, m, e);
      PickFinds(p, s, e.source, e.target, Send(e.source, e.target, m), Route(s.tasks[e.source].outputs, live));
    }
  }

  // ---- One word each fits the channels ----

  /** The positions of the edges from `u` to `v`. */
  ghost function Between(edges: seq<Edge>, u: Uuid, v: Uuid): set<int> {
    set i | 0 <= i < |edges| && edges[i].source == u && edges[i].target == v
  }

  /** No two nodes are joined by more parallel edges than a channel holds messages. */
  ghost predicate Roomy(p: Program) {
    forall u, v :: |Between(p.edges, u, v)| <= p.capacity
  }

  lemma {:induction false} MatchingWithin(m: Message, edges: seq<Edge>, u: Uuid, channels: set<Uuid>, single: bool,
      v: Uuid)
    ensures |Matching(m, Live(edges, u, channels), single, v)| <= |Between(edges, u, v)|
  {
    if edges == [] {
      assert Matching(m, Live(edges, u, channels), single, v) == {};
    } else {
      var front, e := edges[..|edges| - 1], edges[|edges| - 1];
      MatchingWithin(m, front, u, channels, single, v);
      BetweenGrows(edges, u, v);
      LiveGrows(edges, u, channels);
      hide Live, Matching, Between;
      if e.source == u && e.target in channels {
        MatchingGrows(m, Live(edges, u, channels), single, v);
      }
    }
  }

  lemma LiveGrows(edges: seq<Edge>, u: Uuid, channels: set<Uuid>)
    requires edges != []
    ensures var e, live := edges[|edges| - 1], Live(edges, u, channels);
            var before := Live(edges[..|edges| - 1], u, channels);
            if e.source == u && e.target in channels
                then live == before + [e] && live[..|live| - 1] == before else live == before
  {
  }

  lemma BetweenGrows(edges: seq<Edge>, u: Uuid, v: Uuid)
    requires edges != []
    ensures var e := edges[|edges| - 1];
            |Between(edges, u, v)| == |Between(edges[..|edges| - 1], u, v)| + if e.source == u && e.target == v
                then 1 else 0
  {
    var e, before := edges[|edges| - 1], Between(edges[..|edges| - 1], u, v);
    assert Between(edges, u, v) == if e.source == u && e.target == v then before + {|edges| - 1} else before;
  }

  /** Who dispatches to a node in a scripted run is in the script and feeds the node first. */
  lemma DispatchedByScript(p: Program, script: Script, s: State, x: Send)
    requires Valid(p) && DriverInv(p, s) && LogInv(p, s) && AllScripted(script, s) && x in s.dispatched
    ensures x.source in s.tasks && s.tasks[x.source].outputs != [] && x.source in script
    ensures FeedsFirst(p, x.source, x.target)
  {
    var w := x.source;
    assert TaskInv(p, s, w) && Scripted(script, s, w);
    assert Started(p, s, w);
    PickMembers(By(w), s.dispatched);
    hide Valid, DriverInv, AllScripted, FeedsFirst, Pick, StepOf;
    assert x in Route(s.tasks[w].outputs, LiveEdges(p, w));
    RouteOverEdges(s.tasks[w].outputs, LiveEdges(p, w));
    var e :| e in LiveEdges(p, w) && e.source == w && e.target == x.target;
    LiveEdgesMembers(p.edges, w, OpenAt(p, StepOf(p, w)));
    OpenIsEnabled(p, StepOf(p, w), e.target);
    EdgeIsLive(p, e);
  }

  lemma SameFeeder(p: Program, script: Script, u: Uuid, w: Uuid, v: Uuid)
    requires Playable(p, script) && u in script && w in script && FeedsFirst(p, u, v) && FeedsFirst(p, w, v)
    ensures u == w
  {
    hide StepOf, Feeds;
  }

  /** When everyone in the script says one message, no channel is overrun in a roomy program. */
  lemma OneWordFits(p: Program, script: Script, s: State)
    requires Valid(p) && Playable(p, script) && Roomy(p) && (forall v <- script :: |script[v]| == 1)
    requires DriverInv(p, s) && LogInv(p, s) && AllScripted(script, s)
    ensures WithinCapacity(p, s)
  {
    forall v ensures |Pick(For(v), s.dispatched)| <= p.capacity {
      if Pick(For(v), s.dispatched) != [] {
        OneSender(p, script, s, v);
        hide *;
      }
    }
  }

  lemma OneSender(p: Program, script: Script, s: State, v: Uuid)
    requires Valid(p) && Playable(p, script) && Roomy(p) && (forall u <- script :: |script[u]| == 1)
    requires DriverInv(p, s) && LogInv(p, s) && AllScripted(script, s)
    requires Pick(For(v), s.dispatched) != []
    ensures |Pick(For(v), s.dispatched)| <= p.capacity
  {
    var x := Pick(For(v), s.dispatched)[0];
    PickMembers(For(v), s.dispatched);
    var w := x.source;
    DispatchedByScript(p, script, s, x);
    forall y | y in Pick(For(v), s.dispatched) ensures y.source == w {
      DispatchedByScript(p, script, s, y);
      SameFeeder(p, script, y.source, w, v);
    }
    PickAll(By(w), Pick(For(v), s.dispatched));
    PickCommutes(By(w), For(v), s.dispatched);
    assert TaskInv(p, s, w) && Scripted(script, s, w);
    var live := LiveEdges(p, w);
    assert Pick(For(v), s.dispatched) == Pick(For(v), Route(script[w], live));
    hide Pick, Route, Valid, Playable, DriverInv, LogInv, AllScripted, FeedsFirst;
    OneWordRouted(p, script[w], w, v);
  }

  lemma OneWordRouted(p: Program, said: seq<Message>, w: Uuid, v: Uuid)
    requires |said| == 1 && Roomy(p)
    ensures |Pick(For(v), Route(said, LiveEdges(p, w)))| <= p.capacity
  {
    hide Pick, Route, OpenAt, StepOf;
    var live := LiveEdges(p, w);
    RouteIsCopies(said, live, v);
    var m := said[0];
    assert said == [m];
    OneCopy(m, live, v);
    MatchingWithin(m, p.edges, w, OpenAt(p, StepOf(p, w)), |live| == 1, v);
  }

  lemma OneCopy(m: Message, out: seq<Edge>, v: Uuid)
    ensures |Copies([m], out, v)| == |Matching(m, out, |out| == 1, v)|
  {
    assert [m][..0] == [];
  }

  // ---- The theorems ----

  /** In a program that can finish at all, that is without orphans, and whose channels hold one
      message for each of any parallel edges, no finished run drops a message if and only if the
      feeders of every node share a step. */
  lemma NothingDroppedInRunsIff(p: Program)
    requires Valid(p) && NoOrphans(p) && Roomy(p)
    ensures Aligned(p) <==>
            forall moves :: Legal(p, moves) && After(p, moves).driver.Finished? ==> !Drops(p, After(p, moves))
  {
    if Aligned(p) {
      forall moves | Legal(p, moves) && After(p, moves).driver.Finished? ensures !Drops(p, After(p, moves)) {
        AlignedDropsNothing(p, moves);
      }
    } else {
      var moves := DroppingRun(p);
    }
  }

  /** A finished run that drops a message. */
  lemma DroppingRun(p: Program) returns (moves: seq<Move>)
    requires Valid(p) && NoOrphans(p) && Roomy(p) && !Aligned(p)
    ensures Legal(p, moves) && Calm(moves) && After(p, moves).driver.Finished? && Drops(p, After(p, moves))
  {
    hide *;
    NothingDroppedIffAligned(p);
    var e :| e in p.edges && e.source in p.enabled && e.target in p.enabled && e !in LiveEdges(p, e.source);
    var m := Message(0, e.sourcePort, "");
    var script := ScriptFor(p, e.source, [m]);
    EmptyPlay(p, script);
    moves := PlayOn(p, script, []);
    PlayFits(p, script, moves);
    EveryoneSpeaks(p, script, moves, e.source);
    NeverSent(p, moves, e, m);
    Dropped(p, After(p, moves), e, m);
  }

  lemma Dropped(p: Program, s: State, e: Edge, m: Message)
    requires e in p.edges && e.source in p.enabled && e.target in p.enabled && m.sourcePort == e.sourcePort
    requires e.source in s.tasks && s.tasks[e.source].outputs == [m] && Send(e.source, e.target, m) !in s.sent
    ensures Drops(p, s)
  {
    assert DropsOver(p, s, e, m);
  }

  lemma EmptyPlay(p: Program, script: Script)
    ensures Legal(p, []) && Calm([]) && Follows(p, script, [])
  {
  }

  lemma PlayFits(p: Program, script: Script, moves: seq<Move>)
    requires Valid(p) && Playable(p, script) && Roomy(p) && (forall v <- script :: |script[v]| == 1)
    requires Legal(p, moves) && Calm(moves) && Follows(p, script, moves)
    ensures WithinCapacity(p, After(p, moves))
  {
    hide *;
    InvAlways(p, moves);
    CalmIsUntroubled(p, moves);
    UntroubledNotOver(After(p, moves));
    LogParts(p, After(p, moves));
    ScriptedRun(p, script, moves);
    OneWordFits(p, script, After(p, moves));
  }

  lemma LogParts(p: Program, s: State)
    requires Inv(p, s) && !Over(s)
    ensures DriverInv(p, s) && LogInv(p, s)
  {
  }

  lemma NeverSent(p: Program, moves: seq<Move>, e: Edge, m: Message)
    requires Valid(p) && Legal(p, moves) && After(p, moves).driver.Finished?
    requires e in p.edges && e.source in p.enabled && e.target in p.enabled && e !in LiveEdges(p, e.source)
    ensures Send(e.source, e.target, m) !in After(p, moves).sent
  {
    FinishedFacts(p, moves);
    EdgeIsLive(p, e);
    hide Valid, Legal, After, FeedsFirst, LiveEdges, BufferInv;
    if Send(e.source, e.target, m) in After(p, moves).sent {
      SentFromFirst(p, After(p, moves), Send(e.source, e.target, m));
      assert false;
    }
  }

  /** Every edge that gets a channel can be overrun: some run without failure or cancellation hands
      its target more messages than the channel holds, and by OverCapacityBlocks goes on to a state
      that only a cancellation can leave. */
  lemma OverrunReachable(p: Program, e: Edge) returns (moves: seq<Move>)
    requires Valid(p) && NoOrphans(p) && e in LiveEdges(p, e.source) && e.source in p.enabled && e.target in p.enabled
    ensures Legal(p, moves) && Calm(moves) && !WithinCapacity(p, After(p, moves))
  {
    hide Valid, NoOrphans, StepOf, OpenAt, Legal, After, WithinCapacity;
    var m := Message(0, e.sourcePort, "");
    var says := seq(p.capacity + 1, _ => m);
    var script := ScriptFor(p, e.source, says);
    EmptyPlay(p, script);
    moves := PlayOn(p, script, []);
    if After(p, moves).driver.Finished? {
      EveryoneSpeaks(p, script, moves, e.source);
      TooMuchSaid(p, moves, e, m);
    }
  }

  lemma TooMuchSaid(p: Program, moves: seq<Move>, e: Edge, m: Message)
    requires Valid(p) && Legal(p, moves) && After(p, moves).driver.Finished?
    requires e in LiveEdges(p, e.source) && e.source in p.enabled && e.target in p.enabled
             && m.sourcePort == e.sourcePort
    requires e.source in After(p, moves).tasks
    requires After(p, moves).tasks[e.source].outputs == seq(p.capacity + 1, _ => m)
    ensures !WithinCapacity(p, After(p, moves))
  {
    var s := After(p, moves);
    FinishedFacts(p, moves);
    hide Valid, Legal, After, DriverInv, ReceiverInv, BufferInv;
    assert TaskInv(p, s, e.source);
    var live := LiveEdges(p, e.source);
    ManyCopies(p.capacity + 1, m, live, e);
    RouteIsCopies(s.tasks[e.source].outputs, live, e.target);
    PickCommutes(By(e.source), For(e.target), s.dispatched);
    PickShorter(By(e.source), Pick(For(e.target), s.dispatched));
    assert |Pick(For(e.target), s.dispatched)| > p.capacity;
  }

  lemma {:induction false} PickShorter(side: Side, log: seq<Send>)
    ensures |Pick(side, log)| <= |log|
  {
    if log != [] {
      PickShorter(side, log[..|log| - 1]);
    }
  }

  lemma {:induction false} ManyCopies(n: nat, m: Message, out: seq<Edge>, e: Edge)
    requires e in out && m.sourcePort == e.sourcePort
    ensures |Copies(seq(n, _ => m), out, e.target)| >= n
  {
    if n > 0 {
      var said := seq(n, _ => m);
      assert said[..|said| - 1] == seq(n - 1, _ => m) && said[|said| - 1] == m;
      ManyCopies(n - 1, m, out, e);
      var i :| 0 <= i < |out| && out[i] == e;
      assert i in Matching(m, out, |out| == 1, e.target);
    }
  }

  // ---- The smallest flow that drops a message ----

  /** A to D, A to B, B to D. */
  function LongWay(a: Uuid, b: Uuid, d: Uuid): seq<Edge> {
    [Edge(a, "output", d, "input"), Edge(a, "output", b, "input"), Edge(b, "output", d, "input")]
  }

  function ThreeNodes(a: Uuid, b: Uuid, d: Uuid): seq<Node> {
    [Node(a, true, [], []), Node(b, true, [], []), Node(d, true, [], [])]
  }

  lemma LongWayGraph(a: Uuid, b: Uuid, d: Uuid)
    requires a != b && a != d && b != d
    ensures EnabledIds(ThreeNodes(a, b, d)) == Ids(ThreeNodes(a, b, d)) == {a, b, d}
    ensures EnabledGraph(ThreeNodes(a, b, d), LongWay(a, b, d)) == Digraph({a, b, d}, {(a, d), (a, b), (b, d)})
    ensures GraphOf(ThreeNodes(a, b, d), LongWay(a, b, d)) == Digraph({a, b, d}, {(a, d), (a, b), (b, d)})
  {
    var nodes, edges := ThreeNodes(a, b, d), LongWay(a, b, d);
    assert nodes[0] in nodes && nodes[1] in nodes && nodes[2] in nodes;
    assert edges[0] in edges && edges[1] in edges && edges[2] in edges;
    assert EnabledIds(nodes) == {a, b, d} && Ids(nodes) == {a, b, d};
  }

  lemma LongWayLayers(a: Uuid, b: Uuid, d: Uuid)
    requires a != b && a != d && b != d
    ensures var g := Digraph({a, b, d}, {(a, d), (a, b), (b, d)});
            !Cyclic(g) && Layers(g, [[a], [b], [d]])
  {
    var g := Digraph({a, b, d}, {(a, d), (a, b), (b, d)});
    assert (a, d) in g.arcs && (a, b) in g.arcs && (b, d) in g.arcs;
    assert Sources(g, a) == {} && Sources(g, b) == {a} && Sources(g, d) == {a, b};
    assert Peel(g, 0) == {};
    assert Peel(g, 1) == {a};
    assert Peel(g, 2) == {a, b};
    assert Peel(g, 3) == {a, b, d};
    hide Peel, Sources;
    PeelWithinDrained(g, 3);
    DrainedIffAcyclic(g);
  }

  /** It compiles into three steps, and some finished run of it drops a message. */
  lemma LongWayDrops(a: Uuid, b: Uuid, d: Uuid, capacity: nat, trigger: Message) returns (moves: seq<Move>)
    requires a != b && a != d && b != d && capacity > 0
    ensures Layers(EnabledGraph(ThreeNodes(a, b, d), LongWay(a, b, d)), [[a], [b], [d]])
    ensures var p := Program(LongWay(a, b, d), {a, b, d}, [[a], [b], [d]], capacity, trigger);
            Valid(p) && Legal(p, moves) && After(p, moves).driver.Finished? && Drops(p, After(p, moves))
  {
    var p := Program(LongWay(a, b, d), {a, b, d}, [[a], [b], [d]], capacity, trigger);
    LongWayGraph(a, b, d);
    LongWayLayers(a, b, d);
    hide *;
    PlanIsValid(ThreeNodes(a, b, d), LongWay(a, b, d), [[a], [b], [d]], capacity, trigger);
    LongWayShape(a, b, d, p);
    moves := DroppingRun(p);
  }

  lemma LongWayShape(a: Uuid, b: Uuid, d: Uuid, p: Program)
    requires a != b && a != d && b != d && p.capacity > 0 && Valid(p)
    requires p.edges == LongWay(a, b, d) && p.enabled == {a, b, d} && p.steps == [[a], [b], [d]]
    ensures NoOrphans(p) && Roomy(p) && !Aligned(p)
  {
    var e := p.edges;
    assert e[0] in e && e[1] in e && e[2] in e;
    EnabledSourcesNoOrphans(p);
    assert a in p.steps[0] && b in p.steps[1];
    assert StepOf(p, a) == 0 && StepOf(p, b) == 1;
    assert Feeds(p, a, d) && Feeds(p, b, d);
    hide StepOf, Valid, NoOrphans;
    forall u, v ensures |Between(e, u, v)| <= p.capacity {
      var i := if u == b then 2 else if v == d then 0 else 1;
      assert Between(e, u, v) <= {i};
      SubsetSize(Between(e, u, v), {i});
    }
  }
}
