/** Every run is finite: a measure falls at every move, whatever the interleaving and
    however many messages the nodes return. */
module RunTermination {
  import opened Digraphs
  import opened Flows
  import opened PlanRun
  import opened RunInvariant
  import opened RunResults

  /** Compared lexicographically: whether a cancellation may still come, the steps left, the
      messages the current tasks have still to take or process, the sends they have still to
      make, the phases they have still to leave, the handles still to await. */
  datatype Measure = Measure(calm: nat, steps: nat, work: nat, unsent: nat, phases: nat, handles: nat)

  ghost predicate Below(a: Measure, b: Measure) {
    || a.calm < b.calm
    || (a.calm == b.calm && a.steps < b.steps)
    || (a.calm == b.calm && a.steps == b.steps && a.work < b.work)
    || (a.calm == b.calm && a.steps == b.steps && a.work == b.work && a.unsent < b.unsent)
    || (a.calm == b.calm && a.steps == b.steps && a.work == b.work && a.unsent == b.unsent && a.phases < b.phases)
    || (a.calm == b.calm && a.steps == b.steps && a.work == b.work && a.unsent == b.unsent && a.phases == b.phases
        && a.handles < b.handles)
  }

  datatype Kind = Work | Sends | Phases

  ghost function Weight(kind: Kind, s: State, v: Uuid): nat {
    if v !in s.tasks then 0 else
    match kind
    case Work => (if v in s.queues then 2 * |s.queues[v]| else 0) + if s.tasks[v].phase.Processing? then 1 else 0
    case Sends => |Unsent(s.tasks[v])|
    case Phases => if s.tasks[v].phase.Sending? then 2 else if s.tasks[v].phase.Receiving? then 1 else 0
  }

  ghost function Total(kind: Kind, s: State, nodes: seq<Uuid>): nat {
    if nodes == [] then 0 else Total(kind, s, nodes[..|nodes| - 1]) + Weight(kind, s, nodes[|nodes| - 1])
  }

  ghost function Current(p: Program, s: State): seq<Uuid> {
    if s.driver.Awaiting? && s.step < |p.steps| then p.steps[s.step] else []
  }

  ghost function StepsLeft(p: Program, s: State): nat {
    if s.step > |p.steps| then 0
    else if s.driver.Boundary? then 2 * (|p.steps| - s.step) + 1
    else if s.driver.Awaiting? then 2 * (|p.steps| - s.step)
    else 0
  }

  ghost function HandlesLeft(p: Program, s: State): nat {
    if s.driver.Awaiting? && s.driver.next <= |Current(p, s)| then |Current(p, s)| - s.driver.next else 0
  }

  ghost function MeasureOf(p: Program, s: State): Measure {
    var nodes := Current(p, s);
    Measure(if s.cancelled then 0 else 1, StepsLeft(p, s),
            Total(Work, s, nodes), Total(Sends, s, nodes), Total(Phases, s, nodes), HandlesLeft(p, s))
  }

  lemma {:induction false} TotalFalls(kind: Kind, s: State, s1: State, nodes: seq<Uuid>, v: Uuid)
    requires forall u <- nodes :: Weight(kind, s1, u) <= Weight(kind, s, u)
    ensures Total(kind, s1, nodes) <= Total(kind, s, nodes)
    ensures v in nodes && Weight(kind, s1, v) < Weight(kind, s, v) ==> Total(kind, s1, nodes) < Total(kind, s, nodes)
  {
    if nodes != [] {
      var front := nodes[..|nodes| - 1];
      assert forall u <- front :: u in nodes;
      assert nodes[|nodes| - 1] in nodes;
      TotalFalls(kind, s, s1, front, v);
      assert v in nodes ==> v in front || v == nodes[|nodes| - 1];
    }
  }

  /** The weights of the nodes other than the mover, and other than a later target, are unchanged. */
  ghost predicate OthersKeep(s: State, s1: State, nodes: seq<Uuid>, v: Uuid) {
    forall kind, u :: u in nodes && u != v ==> Weight(kind, s1, u) == Weight(kind, s, u)
  }

  /** How the mover's own weights change, by the kind of move. */
  ghost predicate MoverFalls(s: State, s1: State, v: Uuid) {
    || Weight(Work, s1, v) < Weight(Work, s, v)
    || (Weight(Work, s1, v) == Weight(Work, s, v) && Weight(Sends, s1, v) < Weight(Sends, s, v))
    || (Weight(Work, s1, v) == Weight(Work, s, v) && Weight(Sends, s1, v) == Weight(Sends, s, v)
        && Weight(Phases, s1, v) < Weight(Phases, s, v))
  }

  lemma TaskMoveFalls(p: Program, s: State, m: Move)
    requires Valid(p) && Inv(p, s) && !Over(s) && Enabled(p, s, m) && Actor(m).Some?
    ensures var s1 := Apply(p, s, m);
            OthersKeep(s, s1, Current(p, s), Actor(m).value) && MoverFalls(s, s1, Actor(m).value)
  {
    hide *;
    if m.Deliver? {
      CanDeliver(p, s, m.node);
      DeliverTouch(p, s, m.node);
      DeliverMoveFalls(p, s, m.node);
    } else {
      OtherFalls(p, s, m);
    }
  }

  lemma DeliverTouch(p: Program, s: State, v: Uuid)
    requires HasSend(s, v) && Enabled(p, s, Deliver(v))
    ensures var s1 := Apply(p, s, Deliver(v));
            && v in s.tasks && v in s1.tasks
            && s.tasks[v].phase.Sending? && s1.tasks[v].phase.Sending?
            && forall u <- s.tasks :: u != v ==> u in s1.tasks && s1.tasks[u] == s.tasks[u]
    ensures Actor(Deliver(v)).Some? && Actor(Deliver(v)).value == v
  {
  }

  lemma DeliverMoveFalls(p: Program, s: State, v: Uuid)
    requires HasSend(s, v)
    requires Valid(p) && Inv(p, s) && !Over(s) && Enabled(p, s, Deliver(v))
    ensures var s1 := Apply(p, s, Deliver(v)); OthersKeep(s, s1, Current(p, s), v) && MoverFalls(s, s1, v)
  {
    DeliverTouch(p, s, v);
    DeliverShape(p, s, v);
    CurrentStarted(p, s);
    hide *;
    DeliverFalls(s, Apply(p, s, Deliver(v)), v, NextSend(s, v), Current(p, s));
  }

  lemma CurrentStarted(p: Program, s: State)
    requires Valid(p) && DriverInv(p, s)
    ensures forall u <- Current(p, s) :: u in s.tasks
  {
    hide StepOf, Valid;
    forall u | u in Current(p, s) ensures u in s.tasks {
      StepMembers(p, s.step, u);
    }
  }

  lemma DeliverFalls(s: State, s1: State, v: Uuid, x: Send, nodes: seq<Uuid>)
    requires Delivers(s, s1, v, x)
    requires s.tasks[v].phase.Sending? && s1.tasks[v].phase.Sending?
    requires forall u <- s.tasks :: u != v ==> u in s1.tasks && s1.tasks[u] == s.tasks[u]
    requires forall u <- nodes :: u in s.tasks
    ensures OthersKeep(s, s1, nodes, v) && MoverFalls(s, s1, v)
  {
  }

  lemma OtherFalls(p: Program, s: State, m: Move)
    requires Enabled(p, s, m) && Actor(m).Some? && !m.Deliver?
    ensures var s1 := Apply(p, s, m);
            OthersKeep(s, s1, Current(p, s), Actor(m).value) && MoverFalls(s, s1, Actor(m).value)
  {
    hide Route, SendersGone, StepTargets;
  }

  lemma MoverIsCurrent(p: Program, s: State, s1: State, v: Uuid)
    requires Valid(p) && DriverInv(p, s) && TouchesOnly(s, s1, v)
    ensures v in Current(p, s)
  {
    DriverIgnoresTasks(p, s, s1, v);
    StepMembers(p, s.step, v);
    hide StepOf, Valid;
  }

  lemma FallLexicographic(p: Program, s: State, s1: State, v: Uuid)
    requires s1.driver == s.driver && s1.step == s.step && s1.cancelled == s.cancelled
    requires v in Current(p, s)
    requires OthersKeep(s, s1, Current(p, s), v) && MoverFalls(s, s1, v)
    ensures Below(MeasureOf(p, s1), MeasureOf(p, s))
  {
    hide Weight, Total;
    var nodes := Current(p, s);
    forall kind | Weight(kind, s1, v) <= Weight(kind, s, v)
      ensures Total(kind, s1, nodes) <= Total(kind, s, nodes)
      ensures Weight(kind, s1, v) < Weight(kind, s, v) ==> Total(kind, s1, nodes) < Total(kind, s, nodes)
    {
      TotalFalls(kind, s, s1, nodes, v);
    }
  }

  lemma {:induction false} SameTotal(kind: Kind, s: State, s1: State, nodes: seq<Uuid>)
    requires s1.tasks == s.tasks && s1.queues == s.queues
    ensures Total(kind, s1, nodes) == Total(kind, s, nodes)
  {
    if nodes != [] {
      SameTotal(kind, s, s1, nodes[..|nodes| - 1]);
    }
  }

  /** Every move lowers the measure. */
  lemma EveryMoveFalls(p: Program, s: State, m: Move)
    requires Valid(p) && Inv(p, s) && Enabled(p, s, m)
    ensures Below(MeasureOf(p, Apply(p, s, m)), MeasureOf(p, s))
  {
    hide *;
    if Actor(m).Some? {
      ActorNotOver(p, s, m);
      InvParts(p, s);
      TaskMove(p, s, m);
      TaskMoveFalls(p, s, m);
      var v := Actor(m).value;
      MoverIsCurrent(p, s, Apply(p, s, m), v);
      TouchedFields(s, Apply(p, s, m), v);
      FallLexicographic(p, s, Apply(p, s, m), v);
    } else {
      DriverMoveFalls(p, s, m);
    }
  }

  lemma ActorNotOver(p: Program, s: State, m: Move)
    requires Enabled(p, s, m) && Actor(m).Some?
    ensures !Over(s)
  {
  }

  lemma InvParts(p: Program, s: State)
    requires Inv(p, s) && !Over(s)
    ensures DriverInv(p, s)
  {
  }

  lemma TouchedFields(s: State, s1: State, v: Uuid)
    requires TouchesOnly(s, s1, v)
    ensures s1.driver == s.driver && s1.step == s.step && s1.cancelled == s.cancelled
  {
  }

  lemma DriverMoveFalls(p: Program, s: State, m: Move)
    requires Enabled(p, s, m) && Actor(m).None?
    ensures Below(MeasureOf(p, Apply(p, s, m)), MeasureOf(p, s))
  {
    hide Total, StepTargets, NewTask;
    if m.AwaitTask? {
      forall kind ensures Total(kind, Apply(p, s, m), Current(p, s)) == Total(kind, s, Current(p, s)) {
        SameTotal(kind, s, Apply(p, s, m), Current(p, s));
      }
    }
  }

  /** The first `n` moves of an endless schedule. */
  ghost function Prefix(schedule: nat -> Move, n: nat): seq<Move> {
    if n == 0 then [] else Prefix(schedule, n - 1) + [schedule(n - 1)]
  }

  /** No schedule can be followed forever. */
  lemma NoEndlessRun(p: Program, schedule: nat -> Move)
    requires Valid(p)
    ensures exists n :: !Legal(p, Prefix(schedule, n))
  {
    Descend(p, schedule, 0);
  }

  lemma {:induction false} Descend(p: Program, schedule: nat -> Move, n: nat)
    requires Valid(p) && Legal(p, Prefix(schedule, n))
    ensures exists k :: !Legal(p, Prefix(schedule, k))
    decreases MeasureAfter(p, Prefix(schedule, n)).calm, MeasureAfter(p, Prefix(schedule, n)).steps,
              MeasureAfter(p, Prefix(schedule, n)).work, MeasureAfter(p, Prefix(schedule, n)).unsent,
              MeasureAfter(p, Prefix(schedule, n)).phases, MeasureAfter(p, Prefix(schedule, n)).handles
  {
    if Legal(p, Prefix(schedule, n + 1)) {
      LongerFalls(p, Prefix(schedule, n), schedule(n));
      hide MeasureAfter, Legal, Valid;
      Descend(p, schedule, n + 1);
    }
  }

  ghost function MeasureAfter(p: Program, moves: seq<Move>): Measure
    requires Legal(p, moves)
  {
    MeasureOf(p, After(p, moves))
  }

  lemma LongerFalls(p: Program, moves: seq<Move>, m: Move)
    requires Valid(p) && Legal(p, moves)
    ensures Legal(p, moves + [m]) <==> Enabled(p, After(p, moves), m)
    ensures Legal(p, moves + [m]) ==>
              && After(p, moves + [m]) == Apply(p, After(p, moves), m)
              && Below(MeasureAfter(p, moves + [m]), MeasureAfter(p, moves))
  {
    hide MeasureOf, Enabled, Apply, Valid, Inv, Below;
    assert (moves + [m])[..|moves + [m]| - 1] == moves;
    InvAlways(p, moves);
    if Legal(p, moves + [m]) {
      EveryMoveFalls(p, After(p, moves), m);
    }
  }

  // ---- Runs that are neither cancelled nor failed ----

  ghost predicate Calm(moves: seq<Move>) {
    forall m <- moves :: !m.Cancel? && !m.Fail?
  }

  ghost predicate Untroubled(s: State) {
    !Over(s) && !s.cancelled && forall v <- s.tasks :: !s.tasks[v].phase.Failed?
  }

  lemma UntroubledStep(p: Program, s: State, m: Move)
    requires Untroubled(s) && Enabled(p, s, m) && !m.Cancel? && !m.Fail?
    ensures Untroubled(Apply(p, s, m))
  {
    hide Route, SendersGone, StepTargets, Live;
  }

  lemma {:induction false} CalmIsUntroubled(p: Program, moves: seq<Move>)
    requires Legal(p, moves) && Calm(moves)
    ensures Untroubled(After(p, moves))
  {
    if moves != [] {
      var before := moves[..|moves| - 1];
      assert forall m <- before :: m in moves;
      assert moves[|moves| - 1] in moves;
      CalmIsUntroubled(p, before);
      UntroubledStep(p, After(p, before), moves[|moves| - 1]);
    }
  }

  /** Every calm run goes on, calmly, until no move but a cancellation is left. */
  lemma CalmRunCompletes(p: Program, moves: seq<Move>) returns (full: seq<Move>)
    requires Valid(p) && Legal(p, moves) && Calm(moves)
    ensures Legal(p, full) && Calm(full) && Maximal(p, After(p, full))
    ensures |moves| <= |full| && full[..|moves|] == moves
    decreases MeasureAfter(p, moves).calm, MeasureAfter(p, moves).steps, MeasureAfter(p, moves).work,
              MeasureAfter(p, moves).unsent, MeasureAfter(p, moves).phases, MeasureAfter(p, moves).handles
  {
    hide Enabled, Apply, MeasureAfter, Inv, Valid, Legal, After;
    var s := After(p, moves);
    if m :| Enabled(p, s, m) && !m.Cancel? {
      var calm := CalmVersion(p, s, m);
      var longer := moves + [calm];
      LongerFalls(p, moves, calm);
      full := CalmRunCompletes(p, longer);
      assert full[..|moves|] == full[..|longer|][..|moves|];
    } else {
      full := moves;
      assert full[..|moves|] == moves;
    }
  }

  /** Where a node may fail it may also return, with no outputs. */
  lemma CalmVersion(p: Program, s: State, m: Move) returns (calm: Move)
    requires Enabled(p, s, m) && !m.Cancel?
    ensures Enabled(p, s, calm) && !calm.Cancel? && !calm.Fail?
  {
    calm := if m.Fail? then Return(m.node, []) else m;
  }

  /** Deadlock freedom, exactly: a calm run that can go no further has reached its last step
      if and only if no node is an orphan and no channel was sent more than it holds. */
  lemma CalmRunFinishesIff(p: Program, moves: seq<Move>)
    requires Valid(p) && Legal(p, moves) && Calm(moves) && Maximal(p, After(p, moves))
    ensures After(p, moves).driver.Finished? <==> NoOrphans(p) && WithinCapacity(p, After(p, moves))
  {
    CalmIsUntroubled(p, moves);
    FinishesIff(p, moves);
  }

  lemma {:induction false} DispatchedGrows(p: Program, moves: seq<Move>, n: nat)
    requires Legal(p, moves) && n <= |moves|
    ensures Legal(p, moves[..n]) && After(p, moves[..n]).dispatched <= After(p, moves).dispatched
    decreases |moves| - n
  {
    if n < |moves| {
      DispatchedGrows(p, moves, n + 1);
      var longer := moves[..n + 1];
      assert longer[..|longer| - 1] == moves[..n];
      DispatchStep(p, After(p, moves[..n]), longer[n]);
    } else {
      assert moves[..n] == moves;
    }
  }

  lemma DispatchStep(p: Program, s: State, m: Move)
    requires Enabled(p, s, m)
    ensures s.dispatched <= Apply(p, s, m).dispatched
  {
    hide Route, SendersGone, StepTargets, Live;
  }

  /** One message too many for a channel, and the run is driven into a state that has not
      finished and that only a cancellation can leave. */
  lemma OverCapacityBlocks(p: Program, moves: seq<Move>) returns (full: seq<Move>)
    requires Valid(p) && Legal(p, moves) && Calm(moves)
    requires !WithinCapacity(p, After(p, moves))
    ensures Legal(p, full) && Calm(full) && |moves| <= |full| && full[..|moves|] == moves
    ensures Maximal(p, After(p, full)) && !After(p, full).driver.Finished?
  {
    full := CalmRunCompletes(p, moves);
    DispatchedGrows(p, full, |moves|);
    var s, s1 := After(p, moves), After(p, full);
    var v :| |Pick(For(v), s.dispatched)| > p.capacity;
    var rest := s1.dispatched[|s.dispatched|..];
    assert s1.dispatched == s.dispatched + rest;
    PickConcat(For(v), s.dispatched, rest);
    CalmRunFinishesIff(p, full);
  }
}
