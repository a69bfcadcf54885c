/** A run read off its moves alone (engine.rs): what the nodes returned, in order, is what they
    dispatched, and they returned once for every message they processed. */
module RunMoves {
  import opened Digraphs
  import opened Flows
  import opened PlanRun
  import opened RunInvariant
  import opened RunResults
  import opened RunTermination

  /** Everything a node returned during the run, in order. */
  function ReturnedBy(moves: seq<Move>, v: Uuid): seq<Message> {
    if moves == [] then []
    else
      var m := moves[|moves| - 1];
      ReturnedBy(moves[..|moves| - 1], v) + if m.Return? && m.node == v then m.outputs else []
  }

  /** How often a node returned. */
  function Returns(moves: seq<Move>, v: Uuid): nat {
    if moves == [] then 0
    else
      var m := moves[|moves| - 1];
      Returns(moves[..|moves| - 1], v) + if m.Return? && m.node == v then 1 else 0
  }

  /** What a task has output is what it returned, and it has returned for every message it
      processed except the one in hand. */
  ghost predicate AsReturned(moves: seq<Move>, s: State, v: Uuid) {
    if v in s.tasks then
      var t := s.tasks[v];
      && t.outputs == ReturnedBy(moves, v)
      && (t.phase.Failed? || |t.processed| == Returns(moves, v) + if t.phase.Processing? then 1 else 0)
    else ReturnedBy(moves, v) == [] && Returns(moves, v) == 0
  }

  lemma ActorStep(p: Program, s: State, moves: seq<Move>, m: Move)
    requires Enabled(p, s, m) && Actor(m).Some? && AsReturned(moves, s, Actor(m).value)
    ensures AsReturned(moves + [m], Apply(p, s, m), Actor(m).value)
  {
    assert (moves + [m])[..|moves|] == moves;
    hide Route, SendersGone;
  }

  lemma StartKeeps(p: Program, s: State, moves: seq<Move>, v: Uuid)
    requires Valid(p) && DriverInv(p, s) && Enabled(p, s, StartStep) && AsReturned(moves, s, v)
    ensures AsReturned(moves, Apply(p, s, StartStep), v)
  {
    StartShape(p, s);
    hide Apply, Enabled, Valid, DriverInv, Live;
  }

  lemma NotTheActor(moves: seq<Move>, s: State, s1: State, m: Move, v: Uuid)
    requires AsReturned(moves, s, v) && !(m.Return? && m.node == v)
    requires (v in s.tasks <==> v in s1.tasks) && (v in s.tasks ==> s1.tasks[v] == s.tasks[v])
    ensures AsReturned(moves + [m], s1, v)
  {
    assert (moves + [m])[..|moves|] == moves;
  }

  lemma AsReturnedStep(p: Program, s: State, moves: seq<Move>, m: Move, v: Uuid)
    requires Valid(p) && Inv(p, s) && Enabled(p, s, m) && AsReturned(moves, s, v)
    ensures AsReturned(moves + [m], Apply(p, s, m), v)
  {
    hide *;
    if Actor(m).Some? {
      TaskMove(p, s, m);
      if Actor(m).value == v {
        ActorStep(p, s, moves, m);
      } else {
        Bystander(s, Apply(p, s, m), m, v);
        NotTheActor(moves, s, Apply(p, s, m), m, v);
      }
    } else if m.StartStep? {
      NotOverAtStart(p, s);
      InvParts(p, s);
      StartKeeps(p, s, moves, v);
      NotTheActor(moves, Apply(p, s, m), Apply(p, s, m), m, v);
    } else {
      SameTasks(p, s, m);
      NotTheActor(moves, s, Apply(p, s, m), m, v);
    }
  }

  lemma Bystander(s: State, s1: State, m: Move, v: Uuid)
    requires Actor(m).Some? && Actor(m).value != v && TouchesOnly(s, s1, Actor(m).value)
    ensures (v in s.tasks <==> v in s1.tasks) && (v in s.tasks ==> s1.tasks[v] == s.tasks[v])
    ensures !(m.Return? && m.node == v)
  {
    assert v in s.tasks <==> v in s.tasks.Keys;
    assert v in s1.tasks <==> v in s1.tasks.Keys;
  }

  lemma NotOverAtStart(p: Program, s: State)
    requires Enabled(p, s, StartStep)
    ensures !Over(s)
  {
  }

  lemma SameTasks(p: Program, s: State, m: Move)
    requires Enabled(p, s, m) && Actor(m).None? && !m.StartStep?
    ensures Apply(p, s, m).tasks == s.tasks && Apply(p, s, m).dispatched == s.dispatched && !m.Return?
  {
  }

  lemma {:induction false} AsReturnedRun(p: Program, moves: seq<Move>, v: Uuid)
    requires Valid(p) && Legal(p, moves)
    ensures AsReturned(moves, After(p, moves), v)
  {
    if moves != [] {
      var front, m := moves[..|moves| - 1], moves[|moves| - 1];
      AsReturnedRun(p, front, v);
      InvAlways(p, front);
      AsReturnedStep(p, After(p, front), front, m, v);
      assert moves == front + [m];
      hide Apply, Enabled, AsReturned, Inv;
    }
  }

  /** In every legal run, cancelled and failed ones included, what a node dispatched is the routing,
      over the edges that had a channel, of everything it returned, in order; so to each node go
      the returned messages, each once for every edge that carries it there. */
  lemma {:induction false} DispatchedAsReturned(p: Program, moves: seq<Move>, u: Uuid, v: Uuid)
    requires Valid(p) && Legal(p, moves)
    ensures Pick(By(u), After(p, moves).dispatched) == Route(ReturnedBy(moves, u), LiveEdges(p, u))
    ensures Messages(Pick(For(v), Pick(By(u), After(p, moves).dispatched))) ==
            Copies(ReturnedBy(moves, u), LiveEdges(p, u), v)
  {
    hide *;
    var s := After(p, moves);
    if Over(s) {
      LastWasDriver(p, moves);
      var front, m := moves[..|moves| - 1], moves[|moves| - 1];
      DispatchedAsReturned(p, front, u, v);
      SameTasks(p, After(p, front), m);
      NothingReturned(moves, u);
    } else {
      InvAlways(p, moves);
      LogIs(p, s);
      AsReturnedRun(p, moves, u);
      RoutedOutputs(p, s, moves, u);
    }
    RouteIsCopies(ReturnedBy(moves, u), LiveEdges(p, u), v);
  }

  lemma LogIs(p: Program, s: State)
    requires Inv(p, s) && !Over(s)
    ensures LogInv(p, s)
  {
  }

  lemma RoutedOutputs(p: Program, s: State, moves: seq<Move>, u: Uuid)
    requires LogInv(p, s) && AsReturned(moves, s, u)
    ensures Pick(By(u), s.dispatched) == Route(ReturnedBy(moves, u), LiveEdges(p, u))
  {
    hide LiveEdges;
    if u in s.tasks {
      assert TaskInv(p, s, u);
    } else {
      PickAll(By(u), s.dispatched);
    }
  }

  /** A run is over by a move of the driver, after which only cancellations come. */
  lemma LastWasDriver(p: Program, moves: seq<Move>)
    requires Legal(p, moves) && Over(After(p, moves))
    ensures moves != [] && Actor(moves[|moves| - 1]).None? && !moves[|moves| - 1].StartStep?
    ensures var front, m := moves[..|moves| - 1], moves[|moves| - 1];
            Legal(p, front) && Enabled(p, After(p, front), m) && After(p, moves) == Apply(p, After(p, front), m)
  {
  }

  lemma NothingReturned(moves: seq<Move>, u: Uuid)
    requires moves != [] && !moves[|moves| - 1].Return?
    ensures ReturnedBy(moves, u) == ReturnedBy(moves[..|moves| - 1], u)
  {
  }

  /** In a finished run a node processed exactly what was sent to it, in order, of which each other
      node sent what it returned, in order, once for every edge that carries it there; and it
      returned exactly once for every message it processed. */
  lemma DeliveredAsReturned(p: Program, moves: seq<Move>, u: Uuid, v: Uuid)
    requires Valid(p) && Legal(p, moves) && After(p, moves).driver.Finished?
    requires u in p.enabled && v in p.enabled
    ensures var s := After(p, moves);
            && v in s.tasks
            && s.tasks[v].processed == (if v in WithChannel(p) then Messages(Pick(For(v), s.sent)) else [p.trigger])
            && Messages(Pick(By(u), Pick(For(v), s.sent))) == Copies(ReturnedBy(moves, u), LiveEdges(p, u), v)
            && |s.tasks[v].processed| == Returns(moves, v)
  {
    hide *;
    ExactDelivery(p, moves, u, v);
    FinishedFacts(p, moves);
    AsReturnedRun(p, moves, u);
    AsReturnedRun(p, moves, v);
    EndedAsReturned(moves, After(p, moves), u);
    EndedAsReturned(moves, After(p, moves), v);
    RouteIsCopies(ReturnedBy(moves, u), LiveEdges(p, u), v);
  }

  lemma EndedAsReturned(moves: seq<Move>, s: State, v: Uuid)
    requires AsReturned(moves, s, v) && v in s.tasks && s.tasks[v].phase.Ended?
    ensures s.tasks[v].outputs == ReturnedBy(moves, v) && |s.tasks[v].processed| == Returns(moves, v)
  {
  }

  /** When the feeders of every node share a step, a node is sent what each other node returned over
      all its edges. */
  lemma AlignedAsReturned(p: Program, moves: seq<Move>, u: Uuid, v: Uuid)
    requires Valid(p) && Aligned(p) && Legal(p, moves) && After(p, moves).driver.Finished?
    requires u in p.enabled && v in p.enabled
    ensures Messages(Pick(By(u), Pick(For(v), After(p, moves).sent))) ==
            Copies(ReturnedBy(moves, u), Live(p.edges, u, WithChannel(p)), v)
  {
    DeliveredAsReturned(p, moves, u, v);
    AlignedDeliversAll(p, u, p.edges);
    hide Legal, After, Valid, Aligned, Pick, Copies, WithChannel;
  }

  // ---- Cancelled runs ----

  lemma {:induction false} PrefixLegal(p: Program, moves: seq<Move>, n: nat)
    requires Legal(p, moves) && n <= |moves|
    ensures Legal(p, moves[..n]) && (n < |moves| ==> Enabled(p, After(p, moves[..n]), moves[n]))
    decreases |moves| - n
  {
    hide Enabled, Apply;
    if n == |moves| {
      assert moves[..n] == moves;
    } else {
      PrefixLegal(p, moves, n + 1);
      assert moves[..n + 1][..n] == moves[..n];
      assert moves[..n + 1][n] == moves[n];
    }
  }

  lemma {:induction false} CancelSticks(p: Program, moves: seq<Move>)
    requires Legal(p, moves) && Cancel in moves
    ensures After(p, moves).cancelled
  {
    var front, m := moves[..|moves| - 1], moves[|moves| - 1];
    assert moves == front + [m];
    if m != Cancel {
      CancelSticks(p, front);
      KeepsCancelled(p, After(p, front), m);
    }
    hide Enabled;
  }

  lemma KeepsCancelled(p: Program, s: State, m: Move)
    requires Enabled(p, s, m) && s.cancelled
    ensures Apply(p, s, m).cancelled
  {
  }

  /** No step is started after a cancellation. */
  lemma NoStepAfterCancel(p: Program, moves: seq<Move>, i: nat, j: nat)
    requires Legal(p, moves) && i < j < |moves| && moves[i] == Cancel
    ensures moves[j] != StartStep
  {
    PrefixLegal(p, moves, j);
    assert moves[..j][i] == Cancel;
    CancelSticks(p, moves[..j]);
    hide Legal, After;
  }

  /** A cancelled run ends whatever its tasks are doing, blocked or not: the driver alone takes it
      there in at most two moves. */
  lemma CancelEndsRun(p: Program, moves: seq<Move>) returns (more: seq<Move>)
    requires Valid(p) && Legal(p, moves) && Cancel in moves
    requires !Over(After(p, moves)) && !After(p, moves).driver.Finished?
    ensures |more| <= 2 && Legal(p, moves + more) && forall m <- more :: Actor(m).None?
    ensures Over(After(p, moves + more)) || After(p, moves + more).driver.Finished?
  {
    var s := After(p, moves);
    InvAlways(p, moves);
    InvParts(p, s);
    CancelSticks(p, moves);
    DriverStands(p, s);
    hide *;
    if s.driver.Boundary? {
      BoundaryEnds(p, s);
      more := [LastMove(p, s)];
      OneMore(p, moves, LastMove(p, s));
    } else if s.driver.next < |p.steps[s.step]| {
      AbortEnds(p, s);
      more := [AbortStep];
      OneMore(p, moves, AbortStep);
    } else {
      StepEnds(p, s);
      BoundaryEnds(p, Apply(p, s, EndStep));
      OneMore(p, moves, EndStep);
      var s1 := Apply(p, s, EndStep);
      OneMore(p, moves + [EndStep], LastMove(p, s1));
      more := [EndStep, LastMove(p, s1)];
      assert moves + more == moves + [EndStep] + [LastMove(p, s1)];
    }
  }

  lemma DriverStands(p: Program, s: State)
    requires DriverInv(p, s) && !Over(s) && !s.driver.Finished?
    ensures s.step <= |p.steps| && (s.driver.Boundary? || s.driver.Awaiting?)
    ensures s.driver.Awaiting? ==> s.step < |p.steps| && s.driver.next <= |p.steps[s.step]|
  {
  }

  lemma BoundaryEnds(p: Program, s: State)
    requires s.driver.Boundary? && s.cancelled && s.step <= |p.steps|
    ensures Enabled(p, s, LastMove(p, s)) && Actor(LastMove(p, s)).None?
    ensures var s1 := Apply(p, s, LastMove(p, s)); Over(s1) || s1.driver.Finished?
  {
  }

  lemma AbortEnds(p: Program, s: State)
    requires s.driver.Awaiting? && s.cancelled && s.step < |p.steps| && s.driver.next < |p.steps[s.step]|
    ensures Enabled(p, s, AbortStep) && Actor(AbortStep).None? && Over(Apply(p, s, AbortStep))
  {
  }

  lemma StepEnds(p: Program, s: State)
    requires s.driver.Awaiting? && s.cancelled && s.step < |p.steps| && s.driver.next == |p.steps[s.step]|
    ensures Enabled(p, s, EndStep) && Actor(EndStep).None?
    ensures var s1 := Apply(p, s, EndStep); s1.driver.Boundary? && s1.cancelled && s1.step == s.step + 1
  {
  }

  function LastMove(p: Program, s: State): Move {
    if s.step < |p.steps| then StopAtBoundary else Finish
  }

  lemma OneMore(p: Program, moves: seq<Move>, m: Move)
    requires Legal(p, moves) && Enabled(p, After(p, moves), m)
    ensures Legal(p, moves + [m]) && After(p, moves + [m]) == Apply(p, After(p, moves), m)
  {
    hide Enabled, Apply;
    assert (moves + [m])[..|moves|] == moves;
  }

  // ---- Why a run ends ----

  /** The driver gave up because of a cancellation, or because a task failed; a task failed because
      its node did. */
  ghost predicate Reasons(p: Program, moves: seq<Move>, s: State) {
    && (s.cancelled ==> Cancel in moves)
    && (s.driver.Cancelled? ==> Cancel in moves)
    && (s.driver.Aborted? ==> exists v :: Fail(v) in moves)
    && forall v <- s.tasks :: s.tasks[v].phase.Failed? ==> Fail(v) in moves
  }

  lemma ReasonsStep(p: Program, moves: seq<Move>, s: State, m: Move)
    requires Enabled(p, s, m) && Reasons(p, moves, s)
    ensures Reasons(p, moves + [m], Apply(p, s, m))
  {
    assert forall x :: x in moves + [m] <==> x in moves || x == m;
    hide Route, SendersGone, StepTargets, Live;
  }

  lemma {:induction false} ReasonsRun(p: Program, moves: seq<Move>)
    requires Legal(p, moves)
    ensures Reasons(p, moves, After(p, moves))
  {
    if moves != [] {
      var front, m := moves[..|moves| - 1], moves[|moves| - 1];
      ReasonsRun(p, front);
      ReasonsStep(p, front, After(p, front), m);
      assert moves == front + [m];
      hide Apply, Enabled, Reasons;
    }
  }

  /** A run ends as cancelled, which its caller takes for Ok, only after a cancellation, and with an
      error only after a node failed. */
  lemma EndsForAReason(p: Program, moves: seq<Move>)
    requires Legal(p, moves)
    ensures After(p, moves).driver.Cancelled? ==> Cancel in moves
    ensures After(p, moves).driver.Aborted? ==> exists v :: Fail(v) in moves
  {
    ReasonsRun(p, moves);
  }
}
