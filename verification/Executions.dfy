/** Concurrent executions as a transition system: each driver registers, announces its start,
    runs its steps, reads its cancel flag, announces one terminal event and removes itself,
    while stops (which hold the map's lock and cancel entry by entry) and single cancellations
    come in at any point. */
module Executions {
  import opened Digraphs
  import opened Wrappers
  import opened Lifecycle

  datatype Event = FlowStarted(trace: Uuid) | FlowEnded(trace: Uuid, terminal: Terminal)

  /** Where a driver is: registered, between steps, inside a step, back from the plan with its
      result, decided on a terminal event, having emitted it, having set the status, removed. */
  datatype Driver =
    | Registered
    | Between
    | InStep
    | Planned(ok: bool)
    | Decided(terminal: Terminal)
    | Emitted(terminal: Terminal)
    | StatusSet(terminal: Terminal)
    | Removed(terminal: Terminal)

  /** A stop in progress: the entries of its flow it has still to cancel. */
  datatype StopCall = StopCall(flowId: Uuid, todo: set<Uuid>)

  datatype State = State(
    entries: map<Uuid, Entry>,
    drivers: map<Uuid, Driver>,
    stepsStarted: map<Uuid, nat>,
    lock: Option<StopCall>,
    log: seq<Event>)

  datatype Move =
    | Register(trace: Uuid, flowId: Uuid)
    | EmitStarted(trace: Uuid)
    | BeginStep(trace: Uuid)
    | EndStep(trace: Uuid)
    | ReturnFromPlan(trace: Uuid, ok: bool)
    | ReadFlag(trace: Uuid)
    | EmitEnded(trace: Uuid)
    | SetStatus(trace: Uuid)
    | Remove(trace: Uuid)
    | StopBegin(flowId: Uuid)
    | StopOne(trace: Uuid)
    | StopEnd
    | CancelExecution(trace: Uuid)

  const Init := State(map[], map[], map[], None, [])

  ghost predicate At(s: State, t: Uuid, d: Driver) {
    t in s.drivers && s.drivers[t] == d
  }

  ghost predicate CancelSeen(s: State, t: Uuid) {
    t in s.entries && s.entries[t].cancelled
  }

  ghost predicate Enabled(s: State, m: Move) {
    match m
    case Register(t, _) => s.lock.None? && t !in s.drivers && t !in s.entries
    case EmitStarted(t) => At(s, t, Registered)
    case BeginStep(t) => At(s, t, Between) && t in s.stepsStarted && !CancelSeen(s, t)
    case EndStep(t) => At(s, t, InStep)
    // Out of a step an execution returns Ok only when cancelled; between steps it always does.
    case ReturnFromPlan(t, ok) => (At(s, t, Between) && ok) || (At(s, t, InStep) && (ok ==> CancelSeen(s, t)))
    case ReadFlag(t) => t in s.drivers && s.drivers[t].Planned?
    case EmitEnded(t) => t in s.drivers && s.drivers[t].Decided?
    case SetStatus(t) => s.lock.None? && t in s.drivers && s.drivers[t].Emitted? && !s.drivers[t].terminal.FlowStopped?
    case Remove(t) => s.lock.None? && t in s.drivers
        && (s.drivers[t].StatusSet? || s.drivers[t] == Emitted(FlowStopped))
    case StopBegin(_) => s.lock.None?
    case StopOne(t) => s.lock.Some? && t in s.lock.value.todo && t in s.entries
    case StopEnd => s.lock.Some? && s.lock.value.todo == {}
    case CancelExecution(t) => s.lock.None?
  }

  ghost function TracesOf(s: State, f: Uuid): set<Uuid> {
    set t | t in s.entries && s.entries[t].flowId == f
  }

  ghost function Moved(s: State, t: Uuid, d: Driver): State {
    s.(drivers := s.drivers[t := d])
  }

  ghost function Apply(s: State, m: Move): State
    requires Enabled(s, m)
  {
    match m
    case Register(t, f) =>
      Moved(s, t, Registered)
        .(entries := s.entries[t := Entry(f, Running, false)], stepsStarted := s.stepsStarted[t := 0])
    case EmitStarted(t) => Moved(s, t, Between).(log := s.log + [FlowStarted(t)])
    case BeginStep(t) => Moved(s, t, InStep).(stepsStarted := s.stepsStarted[t := s.stepsStarted[t] + 1])
    case EndStep(t) => Moved(s, t, Between)
    case ReturnFromPlan(t, ok) => Moved(s, t, Planned(ok))
    case ReadFlag(t) =>
      Moved(s, t, Decided(TerminalOf(CancelSeen(s, t), s.drivers[t].ok)))
    case EmitEnded(t) =>
      Moved(s, t, Emitted(s.drivers[t].terminal)).(log := s.log + [FlowEnded(t, s.drivers[t].terminal)])
    case SetStatus(t) =>
      Moved(s, t, StatusSet(s.drivers[t].terminal))
        .(entries := if t !in s.entries then s.entries
                     else s.entries[t := s.entries[t].(status := StatusOf(s.drivers[t].terminal))])
    case Remove(t) => Moved(s, t, Removed(s.drivers[t].terminal)).(entries := s.entries - {t})
    case StopBegin(f) => s.(lock := Some(StopCall(f, TracesOf(s, f))))
    case StopOne(t) =>
      s.(entries := s.entries[t := Cancelled(s.entries[t])],
         lock := Some(s.lock.value.(todo := s.lock.value.todo - {t})))
    case StopEnd => s.(lock := None)
    case CancelExecution(t) => if t in s.entries then s.(entries := s.entries[t := Cancelled(s.entries[t])]) else s
  }

  ghost predicate Legal(s: State, moves: seq<Move>)
    decreases |moves|, 0
  {
    moves == [] || (Legal(s, moves[..|moves| - 1]) && Enabled(After(s, moves[..|moves| - 1]), moves[|moves| - 1]))
  }

  ghost function After(s: State, moves: seq<Move>): State
    requires Legal(s, moves)
    decreases |moves|, 1
  {
    if moves == [] then s else Apply(After(s, moves[..|moves| - 1]), moves[|moves| - 1])
  }

  // ---- What holds in every reachable state ----

  /** The events of one execution, in order. */
  function EventsOf(log: seq<Event>, t: Uuid): seq<Event> {
    if log == [] then []
    else EventsOf(log[..|log| - 1], t) + if log[|log| - 1].trace == t then [log[|log| - 1]] else []
  }

  lemma EventsAppend(log: seq<Event>, e: Event, t: Uuid)
    ensures EventsOf(log + [e], t) == EventsOf(log, t) + if e.trace == t then [e] else []
  {
    assert (log + [e])[..|log|] == log;
  }

  /** The events a driver has emitted by the time it is where it is. */
  function EventsAt(t: Uuid, d: Driver): seq<Event> {
    match d
    case Registered => []
    case Between => [FlowStarted(t)]
    case InStep => [FlowStarted(t)]
    case Planned(_) => [FlowStarted(t)]
    case Decided(_) => [FlowStarted(t)]
    case Emitted(k) => [FlowStarted(t), FlowEnded(t, k)]
    case StatusSet(k) => [FlowStarted(t), FlowEnded(t, k)]
    case Removed(k) => [FlowStarted(t), FlowEnded(t, k)]
  }

  predicate BeforeFlagRead(d: Driver) {
    d.Registered? || d.Between? || d.InStep? || d.Planned?
  }

  ghost predicate TraceInv(s: State, t: Uuid) {
    && (t in s.entries <==> t in s.drivers && !s.drivers[t].Removed?)
    && EventsOf(s.log, t) == (if t in s.drivers then EventsAt(t, s.drivers[t]) else [])
    && (t in s.drivers ==> t in s.stepsStarted)
    && (t in s.drivers && !BeforeFlagRead(s.drivers[t]) && t in s.entries && s.drivers[t].terminal.FlowStopped? ==>
        CancelSeen(s, t))
    && (t in s.drivers && s.drivers[t].StatusSet? ==> !s.drivers[t].terminal.FlowStopped?)
    && (t in s.entries && !s.drivers[t].StatusSet? ==>
          s.entries[t].status == if s.entries[t].cancelled then Stopped else Running)
    && (t in s.entries && s.drivers[t].StatusSet? ==>
          s.entries[t].status == StatusOf(s.drivers[t].terminal)
              || (s.entries[t].status == Stopped && s.entries[t].cancelled))
  }

  /** A stop under way has cancelled the entries of its flow that it no longer has to do. */
  ghost predicate LockInv(s: State) {
    s.lock.Some? ==>
      && (forall t <- s.lock.value.todo :: t in s.entries && s.entries[t].flowId == s.lock.value.flowId)
      && forall t <- s.entries :: s.entries[t].flowId == s.lock.value.flowId ==>
          t in s.lock.value.todo || s.entries[t].cancelled
  }

  ghost predicate Inv(s: State) {
    LockInv(s) && forall t :: TraceInv(s, t)
  }

  /** The trace a move is about. */
  function Subject(m: Move): Option<Uuid> {
    match m
    case StopBegin(_) => None
    case StopEnd => None
    case _ => Some(m.trace)
  }

  lemma SubjectOnly(s: State, m: Move, t: Uuid)
    requires Enabled(s, m) && Subject(m) != Some(t)
    ensures var s1 := Apply(s, m);
            && (t in s1.entries <==> t in s.entries) && (t in s.entries ==> s1.entries[t] == s.entries[t])
            && (t in s1.drivers <==> t in s.drivers) && (t in s.drivers ==> s1.drivers[t] == s.drivers[t])
            && (t in s1.stepsStarted <==> t in s.stepsStarted)
                && (t in s.stepsStarted ==> s1.stepsStarted[t] == s.stepsStarted[t])
            && EventsOf(s1.log, t) == EventsOf(s.log, t)
  {
    hide EventsOf;
    if m.EmitStarted? {
      EventsAppend(s.log, FlowStarted(m.trace), t);
    } else if m.EmitEnded? {
      EventsAppend(s.log, FlowEnded(m.trace, s.drivers[m.trace].terminal), t);
    }
  }

  lemma SubjectKept(s: State, m: Move, t: Uuid)
    requires Enabled(s, m) && Subject(m) == Some(t) && TraceInv(s, t)
    ensures TraceInv(Apply(s, m), t)
  {
    hide EventsOf;
    if m.EmitStarted? {
      EventsAppend(s.log, FlowStarted(t), t);
    } else if m.EmitEnded? {
      EventsAppend(s.log, FlowEnded(t, s.drivers[t].terminal), t);
    }
  }

  lemma LockKept(s: State, m: Move)
    requires Enabled(s, m) && LockInv(s)
    ensures LockInv(Apply(s, m))
  {
  }

  lemma InvStep(s: State, m: Move)
    requires Inv(s) && Enabled(s, m)
    ensures Inv(Apply(s, m))
  {
    LockKept(s, m);
    hide Apply, Enabled, LockInv;
    forall t: Uuid ensures TraceInv(Apply(s, m), t) {
      assert TraceInv(s, t);
      if Subject(m) == Some(t) {
        SubjectKept(s, m, t);
      } else {
        SubjectOnly(s, m, t);
      }
    }
  }

  lemma {:induction false} InvRun(moves: seq<Move>)
    requires Legal(Init, moves)
    ensures Inv(After(Init, moves))
  {
    if moves != [] {
      InvRun(moves[..|moves| - 1]);
      InvStep(After(Init, moves[..|moves| - 1]), moves[|moves| - 1]);
    } else {
      forall t ensures TraceInv(Init, t) {
      }
    }
  }

  /** An execution emits at most FlowStarted and then one terminal event; once it has left the
      map it has emitted exactly these two; it is in the map from before the first until after
      the second. */
  lemma OneTerminalEvent(moves: seq<Move>, t: Uuid)
    requires Legal(Init, moves)
    ensures var s := After(Init, moves);
            var events := EventsOf(s.log, t);
            && (events == [] || events == [FlowStarted(t)] || exists k :: events == [FlowStarted(t), FlowEnded(t, k)])
            && (t in s.drivers && t !in s.entries ==> exists k :: events == [FlowStarted(t), FlowEnded(t, k)])
            && (events == [FlowStarted(t)] ==> t in s.entries)
            && (t in s.entries ==> t in s.drivers)
  {
    InvRun(moves);
    var s := After(Init, moves);
    assert TraceInv(s, t);
    if t in s.drivers && (s.drivers[t].Emitted? || s.drivers[t].StatusSet? || s.drivers[t].Removed?) {
      assert EventsOf(s.log, t) == [FlowStarted(t), FlowEnded(t, s.drivers[t].terminal)];
    }
  }

  /** An execution that has left the map never enters it again and emits nothing more. */
  lemma {:induction false} NeverAgain(s: State, moves: seq<Move>, t: Uuid)
    requires Inv(s) && Legal(s, moves)
    requires t in s.drivers && s.drivers[t].Removed?
    ensures var s1 := After(s, moves);
            Inv(s1) && At(s1, t, s.drivers[t]) && t !in s1.entries && EventsOf(s1.log, t) == EventsOf(s.log, t)
  {
    if moves == [] {
      assert TraceInv(s, t);
    } else {
      var before := moves[..|moves| - 1];
      NeverAgain(s, before, t);
      InvStep(After(s, before), moves[|moves| - 1]);
      RemovedStays(After(s, before), moves[|moves| - 1], t);
    }
  }

  lemma RemovedStays(s: State, m: Move, t: Uuid)
    requires Inv(s) && Enabled(s, m) && t in s.drivers && s.drivers[t].Removed?
    ensures var s1 := Apply(s, m);
            At(s1, t, s.drivers[t]) && t !in s1.entries && EventsOf(s1.log, t) == EventsOf(s.log, t)
  {
    assert TraceInv(s, t);
    if Subject(m) == Some(t) {
      hide EventsOf;
    } else {
      SubjectOnly(s, m, t);
      hide Apply;
    }
  }

  /** The next move of a driver that has not removed itself; a plan may always return. */
  function NextMove(t: Uuid, d: Driver): Move
    requires !d.Removed?
  {
    match d
    case Registered => EmitStarted(t)
    case Between => ReturnFromPlan(t, true)
    case InStep => EndStep(t)
    case Planned(_) => ReadFlag(t)
    case Decided(_) => EmitEnded(t)
    case Emitted(k) => if k.FlowStopped? then Remove(t) else SetStatus(t)
    case StatusSet(_) => Remove(t)
  }

  /** No driver is ever stuck: it can move itself, or a stop holds the lock and can go on. */
  lemma DriversCanMove(moves: seq<Move>, t: Uuid)
    requires Legal(Init, moves)
    requires var s := After(Init, moves); t in s.drivers && !s.drivers[t].Removed?
    ensures var s := After(Init, moves);
            || Enabled(s, NextMove(t, s.drivers[t]))
            || (s.lock.Some? && (Enabled(s, StopEnd) || exists u :: u in s.lock.value.todo && Enabled(s, StopOne(u))))
  {
    InvRun(moves);
    var s := After(Init, moves);
    hide TraceInv;
    if s.lock.Some? && s.lock.value.todo != {} {
      var u :| u in s.lock.value.todo;
      assert Enabled(s, StopOne(u));
    }
  }

  /** How many moves of its own a driver whose plan has returned still makes. */
  function MovesLeft(d: Driver): nat {
    match d
    case Planned(_) => 4
    case Decided(_) => 3
    case Emitted(_) => 2
    case StatusSet(_) => 1
    case _ => 0
  }

  /** Once its plan has returned, each of a driver's own moves brings it nearer to its removal and
      no other move changes where it is. */
  lemma DriverEnds(s: State, m: Move, t: Uuid)
    requires Enabled(s, m) && t in s.drivers && MovesLeft(s.drivers[t]) > 0
    ensures var s1 := Apply(s, m);
            && t in s1.drivers
            && (s1.drivers[t] == s.drivers[t] || MovesLeft(s1.drivers[t]) < MovesLeft(s.drivers[t]))
            && (m == NextMove(t, s.drivers[t]) ==> MovesLeft(s1.drivers[t]) < MovesLeft(s.drivers[t]))
            && (MovesLeft(s1.drivers[t]) == 0 ==> s1.drivers[t].Removed? && t !in s1.entries)
  {
  }

  // ---- Continuations ----

  lemma {:induction false} Concat(s: State, a: seq<Move>, b: seq<Move>)
    requires Legal(s, a) && Legal(After(s, a), b)
    ensures Legal(s, a + b) && After(s, a + b) == After(After(s, a), b)
    decreases |b|
  {
    if b == [] {
      assert a + b == a;
    } else {
      Concat(s, a, b[..|b| - 1]);
      assert (a + b)[..|a + b| - 1] == a + b[..|b| - 1];
    }
  }

  /** A move, and a run from where it leads. */
  lemma Cons(s: State, m: Move, rest: seq<Move>)
    requires Enabled(s, m) && Legal(Apply(s, m), rest)
    ensures Legal(s, [m] + rest) && After(s, [m] + rest) == After(Apply(s, m), rest)
  {
    assert [m][..0] == [];
    assert Legal(s, [m]) && After(s, [m]) == Apply(s, m);
    Concat(s, [m], rest);
  }

  /** The stop that holds the lock, if any, can run to its end; no driver moves meanwhile. */
  lemma {:induction false} Unlock(s: State) returns (moves: seq<Move>)
    requires Inv(s)
    ensures Legal(s, moves)
    ensures var s1 := After(s, moves);
            && Inv(s1) && s1.lock.None? && s1.drivers == s.drivers
            && s1.entries.Keys == s.entries.Keys
    decreases if s.lock.Some? then |s.lock.value.todo| + 1 else 0
  {
    moves := [];
    if s.lock.Some? {
      var m := StopEnd;
      if s.lock.value.todo != {} {
        var u :| u in s.lock.value.todo;
        m := StopOne(u);
      }
      InvStep(s, m);
      StopMoves(s, m);
      var rest := Unlock(Apply(s, m));
      hide *;
      Cons(s, m, rest);
      moves := [m] + rest;
    }
  }

  lemma StopMoves(s: State, m: Move)
    requires Inv(s) && Enabled(s, m) && (m.StopOne? || m.StopEnd?)
    ensures var s1 := Apply(s, m);
            && s1.drivers == s.drivers && s1.entries.Keys == s.entries.Keys
            && s.lock.Some? && (if m.StopEnd?
                then s1.lock.None? else s1.lock.Some? && |s1.lock.value.todo| < |s.lock.value.todo|)
  {
    hide TraceInv;
  }

  /** How many moves of its own take a driver to its removal when its plan returns next. */
  function Distance(d: Driver): nat {
    match d
    case Registered => 6
    case InStep => 6
    case Between => 5
    case _ => MovesLeft(d)
  }

  lemma OwnMove(s: State, t: Uuid)
    requires Inv(s) && s.lock.None? && t in s.drivers && !s.drivers[t].Removed?
    ensures var m := NextMove(t, s.drivers[t]);
            && Enabled(s, m)
            && var s1 := Apply(s, m);
               s1.lock.None? && t in s1.drivers && Distance(s1.drivers[t]) < Distance(s.drivers[t])
  {
    assert TraceInv(s, t);
  }

  lemma {:induction false} Drive(s: State, t: Uuid) returns (moves: seq<Move>)
    requires Inv(s) && s.lock.None? && t in s.drivers
    ensures Legal(s, moves)
    ensures Inv(After(s, moves)) && t in After(s, moves).drivers && After(s, moves).drivers[t].Removed?
    decreases Distance(if t in s.drivers then s.drivers[t] else Registered)
  {
    moves := [];
    if !s.drivers[t].Removed? {
      var m := NextMove(t, s.drivers[t]);
      OwnMove(s, t);
      InvStep(s, m);
      var rest := Drive(Apply(s, m), t);
      hide *;
      Cons(s, m, rest);
      moves := [m] + rest;
    }
  }

  /** Whatever has happened so far, an execution in progress can still be brought to its end: some
      continuation takes it out of the map with FlowStarted and one terminal event. */
  lemma EndIsReachable(moves: seq<Move>, t: Uuid) returns (more: seq<Move>)
    requires Legal(Init, moves) && t in After(Init, moves).drivers
    ensures Legal(After(Init, moves), more)
    ensures var s := After(After(Init, moves), more);
            t !in s.entries && exists k :: EventsOf(s.log, t) == [FlowStarted(t), FlowEnded(t, k)]
  {
    InvRun(moves);
    var s := After(Init, moves);
    var unlocking := Unlock(s);
    var driving := Drive(After(s, unlocking), t);
    Concat(s, unlocking, driving);
    more := unlocking + driving;
    RemovedEvents(After(s, more), t);
    hide *;
  }

  lemma RemovedEvents(s: State, t: Uuid)
    requires Inv(s) && t in s.drivers && s.drivers[t].Removed?
    ensures t !in s.entries && EventsOf(s.log, t) == [FlowStarted(t), FlowEnded(t, s.drivers[t].terminal)]
  {
    assert TraceInv(s, t);
  }

  /** A driver that has a cancelled flag before it, or has already decided to stop. */
  ghost predicate Doomed(s: State, t: Uuid) {
    t in s.drivers && if BeforeFlagRead(s.drivers[t]) then CancelSeen(s, t) else s.drivers[t].terminal.FlowStopped?
  }

  lemma DoomedStays(s: State, m: Move, t: Uuid)
    requires TraceInv(s, t) && Enabled(s, m) && Doomed(s, t)
    ensures Doomed(Apply(s, m), t)
    ensures t in s.stepsStarted && t in Apply(s, m).stepsStarted && Apply(s, m).stepsStarted[t] == s.stepsStarted[t]
  {
    if Subject(m) == Some(t) {
      hide EventsOf;
    } else {
      SubjectOnly(s, m, t);
      hide Apply;
    }
  }

  /** A cancellation that comes before the driver reads its flag forces FlowStopped, and no
      step of that execution is started any more. */
  lemma {:induction false} CancelForcesStopped(s: State, moves: seq<Move>, t: Uuid)
    requires Inv(s) && Legal(s, moves)
    requires Doomed(s, t)
    ensures var s1 := After(s, moves);
            && Inv(s1) && Doomed(s1, t)
            && t in s.stepsStarted && t in s1.stepsStarted && s1.stepsStarted[t] == s.stepsStarted[t]
            && (forall k :: FlowEnded(t, k) in EventsOf(s1.log, t) ==> k == FlowStopped)
  {
    if moves != [] {
      var before := moves[..|moves| - 1];
      CancelForcesStopped(s, before, t);
      DoomedStays(After(s, before), moves[|moves| - 1], t);
      InvStep(After(s, before), moves[|moves| - 1]);
    }
    assert TraceInv(s, t) && TraceInv(After(s, moves), t);
  }

  /** When a stop returns, every execution of its flow then in the map is cancelled. */
  lemma StopReachesAll(s: State, t: Uuid)
    requires Inv(s) && Enabled(s, StopEnd)
    requires t in s.entries && s.entries[t].flowId == s.lock.value.flowId
    ensures CancelSeen(Apply(s, StopEnd), t)
  {
  }

  /** And a stop cancels nothing but executions of its flow. */
  lemma StopTouchesItsFlowOnly(moves: seq<Move>, t: Uuid)
    requires Legal(Init, moves) && Enabled(After(Init, moves), StopOne(t))
    ensures var s := After(Init, moves);
            && s.entries[t].flowId == s.lock.value.flowId
            && Apply(s, StopOne(t)).entries == s.entries[t := Entry(s.lock.value.flowId, Stopped, true)]
  {
    InvRun(moves);
  }

  /** As long as its driver has not recorded another outcome, an entry's status is Stopped exactly
      when it has been cancelled; an execution that decided to stop keeps it so; and once another
      outcome is recorded the status is that outcome, or Stopped by a cancellation. */
  lemma StoppedStatus(moves: seq<Move>, t: Uuid)
    requires Legal(Init, moves) && t in After(Init, moves).entries
    ensures var s := After(Init, moves);
            && t in s.drivers
            && (!s.drivers[t].StatusSet? ==> (s.entries[t].status == Stopped <==> s.entries[t].cancelled))
            && (!BeforeFlagRead(s.drivers[t]) && s.drivers[t].terminal.FlowStopped? ==> s.entries[t].status == Stopped)
            && (s.drivers[t].StatusSet? ==>
                  s.entries[t].status == StatusOf(s.drivers[t].terminal)
                      || (s.entries[t].status == Stopped && s.entries[t].cancelled))
  {
    InvRun(moves);
    assert TraceInv(After(Init, moves), t);
  }

  // ---- When Stopped sticks ----

  ghost predicate ShowsStopped(s: State, t: Uuid) {
    t in s.entries ==> s.entries[t].status == Stopped
  }

  /** In every continuation the entry shows Stopped for as long as it is in the map. */
  ghost predicate StaysStopped(s: State, t: Uuid) {
    forall moves :: Legal(s, moves) ==> ShowsStopped(After(s, moves), t)
  }

  /** The driver has still to read its flag, or has decided to stop, or has already recorded its
      outcome: it will not write another status. */
  predicate WritesNoOutcome(d: Driver) {
    BeforeFlagRead(d) || d.StatusSet? || d.terminal.FlowStopped?
  }

  ghost predicate Sticky(s: State, t: Uuid) {
    && t in s.drivers
    && (t in s.entries ==> s.entries[t].cancelled && s.entries[t].status == Stopped && WritesNoOutcome(s.drivers[t]))
  }

  lemma StickyStep(s: State, m: Move, t: Uuid)
    requires TraceInv(s, t) && Enabled(s, m) && Sticky(s, t)
    ensures Sticky(Apply(s, m), t)
  {
    if Subject(m) == Some(t) {
      hide EventsOf;
    } else {
      SubjectOnly(s, m, t);
      hide Apply;
    }
  }

  lemma {:induction false} StickyRun(s: State, moves: seq<Move>, t: Uuid)
    requires Inv(s) && Legal(s, moves) && Sticky(s, t)
    ensures Inv(After(s, moves)) && Sticky(After(s, moves), t)
  {
    if moves != [] {
      var before, m := moves[..|moves| - 1], moves[|moves| - 1];
      StickyRun(s, before, t);
      InvStep(After(s, before), m);
      assert TraceInv(After(s, before), t);
      StickyStep(After(s, before), m, t);
      hide Apply, Enabled, Inv, Sticky;
    }
  }

  /** A driver that decided on another outcome can always go on to write it over Stopped. */
  lemma Overwrite(s: State, t: Uuid) returns (moves: seq<Move>)
    requires Inv(s) && t in s.entries && t in s.drivers && !WritesNoOutcome(s.drivers[t])
    ensures Legal(s, moves) && !ShowsStopped(After(s, moves), t)
  {
    var unlocking := Unlock(s);
    var s1 := After(s, unlocking);
    var rest := WriteOutcome(s1, t);
    Concat(s, unlocking, rest);
    moves := unlocking + rest;
    hide *;
  }

  lemma WriteOutcome(s: State, t: Uuid) returns (moves: seq<Move>)
    requires Inv(s) && s.lock.None? && t in s.entries && t in s.drivers && !WritesNoOutcome(s.drivers[t])
    ensures Legal(s, moves) && !ShowsStopped(After(s, moves), t)
  {
    assert TraceInv(s, t);
    assert Legal(s, []) && After(s, []) == s;
    var s1 := if s.drivers[t].Decided? then Apply(s, EmitEnded(t)) else s;
    assert Enabled(s1, SetStatus(t)) && !ShowsStopped(Apply(s1, SetStatus(t)), t) by {
      hide Legal, After, EventsOf, TraceInv;
    }
    assert Legal(Apply(s1, SetStatus(t)), []) && After(Apply(s1, SetStatus(t)), []) == Apply(s1, SetStatus(t));
    Cons(s1, SetStatus(t), []);
    moves := [SetStatus(t)] + [];
    if s.drivers[t].Decided? {
      Cons(s, EmitEnded(t), moves);
      moves := [EmitEnded(t)] + moves;
    }
  }

  /** Stopped sticks exactly when it is set before the driver reads its flag, or on a driver that
      decided to stop, or after the driver recorded its outcome; in between, that is while the
      driver is about to emit or record another outcome, it can still be overwritten. */
  lemma StoppedSticksIff(s: State, t: Uuid)
    requires Inv(s) && t in s.entries && s.entries[t].cancelled && s.entries[t].status == Stopped
    ensures t in s.drivers
    ensures StaysStopped(s, t) <==> WritesNoOutcome(s.drivers[t])
  {
    assert TraceInv(s, t);
    if WritesNoOutcome(s.drivers[t]) {
      forall moves | Legal(s, moves) ensures ShowsStopped(After(s, moves), t) {
        StickyRun(s, moves, t);
      }
    } else {
      var moves := Overwrite(s, t);
    }
  }

  /** One such run: a stop that lands after the driver read its flag is overwritten, and the
      execution reports completion. */
  lemma StopOverwritten(t: Uuid, f: Uuid) returns (moves: seq<Move>)
    ensures Legal(Init, moves)
    ensures StopEnd in moves
    ensures var s := After(Init, moves);
            t in s.entries && s.entries[t] == Entry(f, Completed, true)
                && EventsOf(s.log, t) == [FlowStarted(t), FlowEnded(t, FlowCompleted)]
  {
    hide Legal, After, TraceInv, EventsOf;
    moves := RunToDecision(t, f);
    moves := StopThere(moves, t, f);
    var s := Decided1(t, f, true);
    var s1 := s.(drivers := map[t := Emitted(FlowCompleted)], log := [FlowStarted(t), FlowEnded(t, FlowCompleted)]);
    moves := Extend(moves, s, EmitEnded(t), s1);
    var s2 := s1.(drivers := map[t := StatusSet(FlowCompleted)], entries := map[t := Entry(f, Completed, true)]);
    moves := Extend(moves, s1, SetStatus(t), s2);
    FinalEvents(s2, t);
  }

  /** A single execution that has decided to complete, before or after a stop. */
  ghost function Decided1(t: Uuid, f: Uuid, stopped: bool): State {
    State(map[t := Entry(f, if stopped then Stopped else Running, stopped)], map[t := Decided(FlowCompleted)],
          map[t := 0], None, [FlowStarted(t)])
  }

  lemma RunToDecision(t: Uuid, f: Uuid) returns (moves: seq<Move>)
    ensures Legal(Init, moves) && After(Init, moves) == Decided1(t, f, false)
  {
    hide Legal, After;
    moves := EmptyRun();
    var s := State(map[t := Entry(f, Running, false)], map[t := Registered], map[t := 0], None, []);
    moves := Extend(moves, Init, Register(t, f), s);
    var s1 := s.(drivers := map[t := Between], log := [FlowStarted(t)]);
    moves := Extend(moves, s, EmitStarted(t), s1);
    moves := Extend(moves, s1, ReturnFromPlan(t, true), s1.(drivers := map[t := Planned(true)]));
    moves := Extend(moves, s1.(drivers := map[t := Planned(true)]), ReadFlag(t), Decided1(t, f, false));
  }

  lemma StopThere(moves: seq<Move>, t: Uuid, f: Uuid) returns (longer: seq<Move>)
    requires Legal(Init, moves) && After(Init, moves) == Decided1(t, f, false)
    ensures Legal(Init, longer) && After(Init, longer) == Decided1(t, f, true)
    ensures StopEnd in longer
  {
    hide Legal, After;
    var s, s1 := Decided1(t, f, false), Decided1(t, f, true);
    assert TracesOf(s, f) == {t};
    assert {t} - {t} == {};
    longer := Extend(moves, s, StopBegin(f), s.(lock := Some(StopCall(f, {t}))));
    longer := Extend(longer, s.(lock := Some(StopCall(f, {t}))), StopOne(t), s1.(lock := Some(StopCall(f, {}))));
    longer := Extend(longer, s1.(lock := Some(StopCall(f, {}))), StopEnd, s1);
  }

  lemma EmptyRun() returns (moves: seq<Move>)
    ensures moves == [] && Legal(Init, moves) && After(Init, moves) == Init
  {
    moves := [];
  }

  lemma FinalEvents(s: State, t: Uuid)
    requires s.log == [FlowStarted(t), FlowEnded(t, FlowCompleted)]
    ensures EventsOf(s.log, t) == s.log
  {
    EventsAppend([], FlowStarted(t), t);
    EventsAppend([FlowStarted(t)], FlowEnded(t, FlowCompleted), t);
    assert s.log == [FlowStarted(t)] + [FlowEnded(t, FlowCompleted)];
    assert [FlowStarted(t)] == [] + [FlowStarted(t)];
  }

  lemma Extend(moves: seq<Move>, s: State, m: Move, s1: State) returns (longer: seq<Move>)
    requires Legal(Init, moves) && After(Init, moves) == s
    requires Enabled(s, m) && Apply(s, m) == s1
    ensures longer == moves + [m]
    ensures Legal(Init, longer) && After(Init, longer) == s1
  {
    longer := moves + [m];
    assert longer[..|longer| - 1] == moves;
  }

  // ---- Which end an execution comes to ----

  /** What the run's moves say of an execution that has decided on, or emitted, an end. */
  ghost predicate Explained(moves: seq<Move>, k: Terminal, t: Uuid) {
    match k
    case FlowCompleted => ReturnFromPlan(t, true) in moves
    case FlowError => ReturnFromPlan(t, false) in moves
    case FlowStopped => CancelExecution(t) in moves || StopOne(t) in moves
  }

  /** Everything a driver knows goes back to moves of the run. */
  ghost predicate TraceExplained(moves: seq<Move>, s: State, t: Uuid) {
    && (CancelSeen(s, t) ==> CancelExecution(t) in moves || StopOne(t) in moves)
    && (t in s.drivers && s.drivers[t].Planned? ==> ReturnFromPlan(t, s.drivers[t].ok) in moves)
    && (t in s.drivers && !BeforeFlagRead(s.drivers[t]) ==> Explained(moves, s.drivers[t].terminal, t))
  }

  lemma ExplainedStep(moves: seq<Move>, s: State, m: Move, t: Uuid)
    requires Enabled(s, m) && TraceExplained(moves, s, t)
    ensures TraceExplained(moves + [m], Apply(s, m), t)
  {
    assert forall x :: x in moves + [m] <==> x in moves || x == m;
    if Subject(m) != Some(t) {
      SubjectOnly(s, m, t);
      hide Apply, Enabled;
    }
  }

  lemma {:induction false} ExplainedRun(moves: seq<Move>, t: Uuid)
    requires Legal(Init, moves)
    ensures TraceExplained(moves, After(Init, moves), t)
  {
    if moves != [] {
      var front, m := moves[..|moves| - 1], moves[|moves| - 1];
      ExplainedRun(front, t);
      ExplainedStep(front, After(Init, front), m, t);
      assert moves == front + [m];
      hide Apply, Enabled, TraceExplained;
    }
  }

  /** An execution completes only after its plan returned Ok, fails only after its plan returned an
      error, and stops only after it was cancelled. */
  lemma EndsForAReason(moves: seq<Move>, t: Uuid)
    requires Legal(Init, moves)
    ensures var log := After(Init, moves).log;
            && (FlowEnded(t, FlowCompleted) in EventsOf(log, t) ==> ReturnFromPlan(t, true) in moves)
            && (FlowEnded(t, FlowError) in EventsOf(log, t) ==> ReturnFromPlan(t, false) in moves)
            && (FlowEnded(t, FlowStopped) in EventsOf(log, t) ==> CancelExecution(t) in moves || StopOne(t) in moves)
  {
    InvRun(moves);
    ExplainedRun(moves, t);
    assert TraceInv(After(Init, moves), t);
  }

  /** A driver past its flag check has decided, emitted, or recorded `k`, or is gone after it. */
  ghost predicate HeadsFor(s: State, t: Uuid, k: Terminal) {
    t in s.drivers && !BeforeFlagRead(s.drivers[t]) && s.drivers[t].terminal == k
  }

  lemma HeadsOn(s: State, m: Move, t: Uuid, k: Terminal)
    requires TraceInv(s, t) && Enabled(s, m) && HeadsFor(s, t, k)
    ensures HeadsFor(Apply(s, m), t, k)
  {
    if Subject(m) != Some(t) {
      SubjectOnly(s, m, t);
      hide Apply, Enabled;
    }
  }

  lemma {:induction false} HeadsForRun(s: State, moves: seq<Move>, t: Uuid, k: Terminal)
    requires Inv(s) && Legal(s, moves) && HeadsFor(s, t, k)
    ensures Inv(After(s, moves)) && HeadsFor(After(s, moves), t, k)
  {
    if moves != [] {
      var front, m := moves[..|moves| - 1], moves[|moves| - 1];
      HeadsForRun(s, front, t, k);
      InvStep(After(s, front), m);
      assert TraceInv(After(s, front), t);
      HeadsOn(After(s, front), m, t, k);
      hide Apply, Enabled, Inv, HeadsFor;
    }
  }

  /** What a driver finds when it reads its flag settles everything: with the flag up the only
      terminal event it can emit is FlowStopped; with the flag down it is FlowCompleted or FlowError
      as its plan returned Ok or an error, and the status recorded with it Completed or Error, which
      only a later stop overwrites. */
  lemma FlagReadSettles(s: State, t: Uuid, up: bool, ok: bool, moves: seq<Move>)
    requires Inv(s) && At(s, t, Planned(ok)) && (up <==> CancelSeen(s, t))
    requires Legal(Apply(s, ReadFlag(t)), moves)
    ensures var s1 := After(Apply(s, ReadFlag(t)), moves);
            && (forall k :: FlowEnded(t, k) in EventsOf(s1.log, t) ==>
                  (k == FlowStopped <==> up) && (k == FlowError <==> !up && !ok) && (k == FlowCompleted <==> !up && ok))
            && t in s1.drivers
            && (t in s1.entries && s1.drivers[t].StatusSet? ==>
                  !up && (s1.entries[t].status == (if ok then Completed else Error)
                          || (s1.entries[t].status == Stopped && s1.entries[t].cancelled)))
            && (t in s1.entries && Enabled(s1, SetStatus(t)) ==>
                  !up && Apply(s1, SetStatus(t)).entries[t].status == if ok then Completed else Error)
  {
    var k := if up then FlowStopped else if ok then FlowCompleted else FlowError;
    InvStep(s, ReadFlag(t));
    ReadsFlag(s, t, up, ok);
    hide *;
    HeadsForRun(Apply(s, ReadFlag(t)), moves, t, k);
    HeadedFor(After(Apply(s, ReadFlag(t)), moves), t, k);
  }

  lemma ReadsFlag(s: State, t: Uuid, up: bool, ok: bool)
    requires At(s, t, Planned(ok)) && (up <==> CancelSeen(s, t))
    ensures Enabled(s, ReadFlag(t))
    ensures HeadsFor(Apply(s, ReadFlag(t)), t, if up then FlowStopped else if ok then FlowCompleted else FlowError)
  {
  }

  lemma HeadedFor(s: State, t: Uuid, k: Terminal)
    requires Inv(s) && HeadsFor(s, t, k)
    ensures t in s.drivers
    ensures forall x :: FlowEnded(t, x) in EventsOf(s.log, t) ==> x == k
    ensures t in s.entries && s.drivers[t].StatusSet? ==>
              && k != FlowStopped
              && (s.entries[t].status == (if k == FlowCompleted then Completed else Error)
                  || (s.entries[t].status == Stopped && s.entries[t].cancelled))
    ensures t in s.entries && Enabled(s, SetStatus(t)) ==>
              && k != FlowStopped
              && Apply(s, SetStatus(t)).entries[t].status == if k == FlowCompleted then Completed else Error
  {
    assert TraceInv(s, t);
  }

  /** A cancellation of an execution, by itself or by a stop, that comes before its driver reads the
      flag: whatever follows, the execution can only end with FlowStopped, and starts no step any more. */
  lemma CancelMoveForcesStopped(before: seq<Move>, m: Move, after: seq<Move>, t: Uuid)
    requires Legal(Init, before) && Enabled(After(Init, before), m) && (m == CancelExecution(t) || m == StopOne(t))
    requires var s := After(Init, before); t in s.drivers && BeforeFlagRead(s.drivers[t])
    requires Legal(Apply(After(Init, before), m), after)
    ensures var s, s1 := After(Init, before), After(Apply(After(Init, before), m), after);
            && (forall k :: FlowEnded(t, k) in EventsOf(s1.log, t) ==> k == FlowStopped)
            && t in s.stepsStarted && t in s1.stepsStarted && s1.stepsStarted[t] == s.stepsStarted[t]
  {
    InvRun(before);
    var s := After(Init, before);
    InvStep(s, m);
    assert TraceInv(s, t);
    hide Legal, After, Inv;
    CancelDooms(s, m, t);
    CancelForcesStopped(Apply(s, m), after, t);
  }

  lemma CancelDooms(s: State, m: Move, t: Uuid)
    requires TraceInv(s, t) && Enabled(s, m) && (m == CancelExecution(t) || m == StopOne(t))
    requires t in s.drivers && BeforeFlagRead(s.drivers[t])
    ensures Doomed(Apply(s, m), t) && Apply(s, m).stepsStarted == s.stepsStarted
  {
  }
}
