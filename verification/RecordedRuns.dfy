/** The engine's events and the recorder together: what the history shows of a run of concurrent
    executions whose events are all delivered and whose writes all succeed. */
module RecordedRuns {
  import opened Digraphs
  import opened Wrappers
  import Lifecycle
  import Executions
  import ExecutionHistory

  /** What the recorder is told besides the trace: the flow, a fresh row id, the time, the duration
      and the error. */
  datatype Facts = Facts(flow: Uuid -> Uuid, row: Uuid -> Uuid, startedAt: Uuid -> int, duration: Uuid -> nat,
      error: Uuid -> string)

  ghost predicate FreshIds(f: Facts) {
    forall t, u :: f.row(t) == f.row(u) ==> t == u
  }

  function OutcomeOf(f: Facts, t: Uuid, k: Lifecycle.Terminal): ExecutionHistory.Outcome {
    match k
    case FlowCompleted => ExecutionHistory.Outcome(ExecutionHistory.Completed, f.duration(t), None)
    case FlowError => ExecutionHistory.Outcome(ExecutionHistory.Error, 0, Some(f.error(t)))
    case FlowStopped => ExecutionHistory.Outcome(ExecutionHistory.Stopped, f.duration(t), None)
  }

  function InputOf(f: Facts, e: Executions.Event): ExecutionHistory.Input {
    match e
    case FlowStarted(t) =>
      ExecutionHistory.FlowStarted(f.flow(t), t, f.row(t), f.startedAt(t), ExecutionHistory.Done)
    case FlowEnded(t, k) =>
      ExecutionHistory.FlowEnded(t, OutcomeOf(f, t, k), ExecutionHistory.Done)
  }

  function Stream(f: Facts, log: seq<Executions.Event>): seq<ExecutionHistory.Input> {
    if log == [] then [] else Stream(f, log[..|log| - 1]) + [InputOf(f, log[|log| - 1])]
  }

  function Recorded(f: Facts, log: seq<Executions.Event>): ExecutionHistory.History {
    ExecutionHistory.HandleAll(ExecutionHistory.History(map[], map[]), Stream(f, log))
  }

  function StartRow(f: Facts, t: Uuid): ExecutionHistory.Row {
    ExecutionHistory.Row(f.flow(t), t, ExecutionHistory.Running, f.startedAt(t), 0, None)
  }

  function EndRow(f: Facts, t: Uuid, k: Lifecycle.Terminal): ExecutionHistory.Row {
    var o := OutcomeOf(f, t, k);
    ExecutionHistory.Row(f.flow(t), t, o.status, f.startedAt(t), o.durationMs, o.error)
  }

  /** The events of an execution so far: none, its start, or its start and one end. */
  ghost predicate Proper(t: Uuid, events: seq<Executions.Event>) {
    || events == []
    || events == [Executions.FlowStarted(t)]
    || exists k :: events == [Executions.FlowStarted(t), Executions.FlowEnded(t, k)]
  }

  /** What the history shows of an execution with these events. */
  ghost predicate Shows(f: Facts, h: ExecutionHistory.History, t: Uuid, events: seq<Executions.Event>) {
    && (events == [] ==> f.row(t) !in h.rows && t !in h.inFlight)
    && (events == [Executions.FlowStarted(t)] ==>
          && f.row(t) in h.rows && h.rows[f.row(t)] == StartRow(f, t)
          && t in h.inFlight && h.inFlight[t] == f.row(t))
    && forall k :: events == [Executions.FlowStarted(t), Executions.FlowEnded(t, k)] ==>
         f.row(t) in h.rows && h.rows[f.row(t)] == EndRow(f, t, k) && t !in h.inFlight
  }

  lemma ShowsStep(f: Facts, h: ExecutionHistory.History, e: Executions.Event, t: Uuid, events: seq<Executions.Event>)
    requires FreshIds(f) && Shows(f, h, t, events) && Proper(t, events)
    requires e.trace in h.inFlight ==> h.inFlight[e.trace] == f.row(e.trace)
    requires e.trace == t ==> Proper(t, events + [e])
    ensures Shows(f, ExecutionHistory.Handle(h, InputOf(f, e)), t, if e.trace == t then events + [e] else events)
  {
    if e.trace == t {
      var longer := events + [e];
      assert longer[|longer| - 1] == e;
      if e.FlowStarted? {
        assert longer == [Executions.FlowStarted(t)];
      } else {
        assert longer == [Executions.FlowStarted(t), e];
        assert events == longer[..1];
      }
    }
  }

  lemma {:induction false} ShowsAll(f: Facts, log: seq<Executions.Event>)
    requires FreshIds(f) && forall t :: Proper(t, Executions.EventsOf(log, t))
    ensures forall t :: Shows(f, Recorded(f, log), t, Executions.EventsOf(log, t))
  {
    if log != [] {
      var front, e := log[..|log| - 1], log[|log| - 1];
      forall t ensures Proper(t, Executions.EventsOf(front, t)) {
        ShorterProper(log, t);
      }
      ShowsAll(f, front);
      var h := Recorded(f, front);
      ExecutionHistory.HandleAllAppend(ExecutionHistory.History(map[], map[]), Stream(f, front), InputOf(f, e));
      assert Recorded(f, log) == ExecutionHistory.Handle(h, InputOf(f, e));
      hide Recorded, Stream, InputOf, OutcomeOf;
      forall t ensures Shows(f, Recorded(f, log), t, Executions.EventsOf(log, t)) {
        assert Proper(t, Executions.EventsOf(log, t)) && Proper(t, Executions.EventsOf(front, t));
        assert Shows(f, h, t, Executions.EventsOf(front, t));
        assert Shows(f, h, e.trace, Executions.EventsOf(front, e.trace));
        TrackedRow(f, h, e.trace, Executions.EventsOf(front, e.trace));
        ShowsStep(f, h, e, t, Executions.EventsOf(front, t));
      }
    }
  }

  lemma ShorterProper(log: seq<Executions.Event>, t: Uuid)
    requires log != [] && Proper(t, Executions.EventsOf(log, t))
    ensures Proper(t, Executions.EventsOf(log[..|log| - 1], t))
  {
    var before, now := Executions.EventsOf(log[..|log| - 1], t), Executions.EventsOf(log, t);
    if before != now {
      assert before == now[..|now| - 1];
    }
  }

  lemma TrackedRow(f: Facts, h: ExecutionHistory.History, t: Uuid, events: seq<Executions.Event>)
    requires Shows(f, h, t, events) && Proper(t, events)
    ensures t in h.inFlight ==> h.inFlight[t] == f.row(t)
  {
  }

  /** Over every interleaving of drivers, stops and cancellations, when all events are delivered and
      recorded: an execution not yet announced has no row; one announced and not ended is in flight
      with a running row; one that ended has the row of its terminal event and is not in flight. */
  lemma HistoryIsFaithful(f: Facts, moves: seq<Executions.Move>, t: Uuid)
    requires FreshIds(f) && Executions.Legal(Executions.Init, moves)
    ensures var s := Executions.After(Executions.Init, moves);
            var h := Recorded(f, s.log);
            if t !in s.drivers || s.drivers[t].Registered? then f.row(t) !in h.rows && t !in h.inFlight
            else if s.drivers[t].Emitted? || s.drivers[t].StatusSet? || s.drivers[t].Removed? then
              t !in h.inFlight && f.row(t) in h.rows && h.rows[f.row(t)] == EndRow(f, t, s.drivers[t].terminal)
            else
              && t in h.inFlight && h.inFlight[t] == f.row(t)
              && f.row(t) in h.rows && h.rows[f.row(t)] == StartRow(f, t)
  {
    Executions.InvRun(moves);
    var s := Executions.After(Executions.Init, moves);
    hide Executions.Legal, Executions.After, Recorded, StartRow, EndRow;
    forall u ensures Proper(u, Executions.EventsOf(s.log, u)) {
      assert Executions.TraceInv(s, u);
      EventsProper(s, u);
    }
    ShowsAll(f, s.log);
    assert Executions.TraceInv(s, t) && Shows(f, Recorded(f, s.log), t, Executions.EventsOf(s.log, t));
  }

  lemma EventsProper(s: Executions.State, u: Uuid)
    requires Executions.TraceInv(s, u)
    ensures Proper(u, Executions.EventsOf(s.log, u))
  {
    hide Executions.EventsOf;
  }

  /** The rows of executions that are over: stopped ones were cancelled, completed and failed ones had
      a plan that returned Ok or an error; only a failed one has an error text, and its duration is
      recorded as zero. */
  lemma RowsSayWhatHappened(f: Facts, moves: seq<Executions.Move>, t: Uuid)
    requires FreshIds(f) && Executions.Legal(Executions.Init, moves)
    requires var s := Executions.After(Executions.Init, moves); t in s.drivers && s.drivers[t].Removed?
    ensures var h := Recorded(f, Executions.After(Executions.Init, moves).log);
            && f.row(t) in h.rows
            && var r := h.rows[f.row(t)];
               && r.flowId == f.flow(t) && r.traceId == t && r.startedAt == f.startedAt(t)
               && (|| (r.status == ExecutionHistory.Completed && r.error == None && r.durationMs == f.duration(t)
                       && Executions.ReturnFromPlan(t, true) in moves)
                   || (r.status == ExecutionHistory.Error && r.error == Some(f.error(t)) && r.durationMs == 0
                       && Executions.ReturnFromPlan(t, false) in moves)
                   || (r.status == ExecutionHistory.Stopped && r.error == None && r.durationMs == f.duration(t)
                       && (Executions.CancelExecution(t) in moves || Executions.StopOne(t) in moves)))
  {
    HistoryIsFaithful(f, moves, t);
    Executions.ExplainedRun(moves, t);
    hide Executions.Legal, Executions.After, Recorded;
  }
}
