/** The execution history (execution_recorder.rs over the executions table of sqlite.rs): a
    recorder that follows the engine's event stream, of which any events may be dropped,
    writing rows with writes that may fail, across restarts of the process. */
module ExecutionHistory {
  import opened Digraphs
  import opened Wrappers

  datatype Status = Running | Completed | Error | Stopped

  datatype Row = Row(flowId: Uuid, traceId: Uuid, status: Status, startedAt: int, durationMs: nat,
      error: Option<string>)

  /** A terminal event of an execution, as it is recorded. */
  datatype Outcome = Outcome(status: Status, durationMs: nat, error: Option<string>)

  /** What a write did: it took effect, it did not, or it did although it reported an error. */
  datatype Write = Done | Lost | DoneUnreported

  predicate TakesEffect(w: Write) {
    !w.Lost?
  }

  datatype Input =
    | FlowStarted(flowId: Uuid, traceId: Uuid, rowId: Uuid, now: int, write: Write)
    | FlowEnded(traceId: Uuid, outcome: Outcome, write: Write)
    | NodeEvent
    | Lagged(missed: nat)
    | Restart(cutoff: int, reason: string, write: Write)

  datatype History = History(rows: map<Uuid, Row>, inFlight: map<Uuid, Uuid>)

  function CompletedRow(r: Row, o: Outcome): Row {
    if r.status.Running? then r.(status := o.status, durationMs := o.durationMs, error := o.error) else r
  }

  function InterruptedRow(r: Row, cutoff: int, reason: string): Row {
    if r.status.Running? && r.startedAt < cutoff then r.(status := Stopped, error := Some(reason)) else r
  }

  // ---- The table ----

  class ExecutionTable {
    var rows: map<Uuid, Row>

    constructor ()
      ensures rows == map[]
    {
      rows := map[];
    }

    method RecordStart(id: Uuid, flowId: Uuid, traceId: Uuid, now: int, w: Write) returns (ok: bool)
      requires id !in rows
      modifies this
      ensures ok <==> w == Done
      ensures rows == if TakesEffect(w) then old(rows)[id := Row(flowId, traceId, Running, now, 0, None)] else old(rows)
    {
      if TakesEffect(w) {
        rows := rows[id := Row(flowId, traceId, Running, now, 0, None)];
      }
      ok := w == Done;
    }

    /** Updates the row only while it is still running. */
    method RecordCompletion(id: Uuid, o: Outcome, w: Write) returns (ok: bool)
      modifies this
      ensures ok <==> w == Done
      ensures rows == if TakesEffect(w) && id in old(rows)
              then old(rows)[id := CompletedRow(old(rows)[id], o)] else old(rows)
    {
      if TakesEffect(w) && id in rows && rows[id].status.Running? {
        rows := rows[id := rows[id].(status := o.status, durationMs := o.durationMs, error := o.error)];
      }
      ok := w == Done;
    }

    /** Closes the rows still running that started before the cutoff, and counts them. */
    method InterruptRunning(cutoff: int, reason: string, w: Write) returns (closed: nat)
      modifies this
      ensures rows == if TakesEffect(w) then (map id | id in old(rows) ::
              InterruptedRow(old(rows)[id], cutoff, reason)) else old(rows)
      ensures closed == |set id | id in old(rows) && rows[id] != old(rows)[id]|
      ensures TakesEffect(w) ==> forall id <- old(rows) ::
                rows[id] != old(rows)[id] <==> old(rows)[id].status == Running && old(rows)[id].startedAt < cutoff
    {
      closed := 0;
      if TakesEffect(w) {
        closed := |Stale(rows, cutoff)|;
        rows := map id | id in rows :: InterruptedRow(rows[id], cutoff, reason);
        assert Stale(old(rows), cutoff) == set id | id in old(rows) && rows[id] != old(rows)[id];
      } else {
        assert (set id | id in old(rows) && rows[id] != old(rows)[id]) == {};
      }
    }
  }

  function Stale(rows: map<Uuid, Row>, cutoff: int): set<Uuid> {
    set id | id in rows && rows[id].status.Running? && rows[id].startedAt < cutoff
  }

  // ---- The recorder ----

  class Recorder {
    const table: ExecutionTable
    var inFlight: map<Uuid, Uuid>

    constructor (table: ExecutionTable)
      ensures this.table == table && inFlight == map[]
    {
      this.table, inFlight := table, map[];
    }

    ghost function View(): History
      reads this, table
    {
      History(table.rows, inFlight)
    }

    method HandleEvent(e: Input)
      requires e.FlowStarted? ==> e.rowId !in table.rows
      modifies this, table
      ensures View() == Handle(old(View()), e)
    {
      match e
      case FlowStarted(flowId, traceId, rowId, now, w) =>
        var ok := table.RecordStart(rowId, flowId, traceId, now, w);
        if ok {
          inFlight := inFlight[traceId := rowId];
        }
      case FlowEnded(traceId, outcome, w) =>
        if traceId in inFlight {
          var rowId := inFlight[traceId];
          inFlight := inFlight - {traceId};
          var ok := table.RecordCompletion(rowId, outcome, w);
        }
      case NodeEvent =>
      case Lagged(_) =>
      case Restart(cutoff, reason, w) =>
        inFlight := map[];
        var closed := table.InterruptRunning(cutoff, reason, w);
    }

    /** The recorder loop. */
    method Record(inputs: seq<Input>)
      requires FreshRows(View(), inputs)
      modifies this, table
      ensures View() == HandleAll(old(View()), inputs)
    {
      var i := 0;
      while i < |inputs|
        invariant 0 <= i <= |inputs|
        invariant FreshRows(View(), inputs[i..])
        invariant HandleAll(View(), inputs[i..]) == HandleAll(old(View()), inputs)
      {
        assert inputs[i..][1..] == inputs[i + 1..];
        HandleEvent(inputs[i]);
        i := i + 1;
      }
    }
  }

  function Handle(h: History, e: Input): History {
    match e
    case FlowStarted(flowId, traceId, rowId, now, w) =>
      History(if TakesEffect(w) then h.rows[rowId := Row(flowId, traceId, Running, now, 0, None)] else h.rows,
              if w == Done then h.inFlight[traceId := rowId] else h.inFlight)
    case FlowEnded(traceId, outcome, w) =>
      if traceId !in h.inFlight then h
      else
        var id := h.inFlight[traceId];
        History(if TakesEffect(w) && id in h.rows then h.rows[id := CompletedRow(h.rows[id], outcome)] else h.rows,
                h.inFlight - {traceId})
    case NodeEvent => h
    case Lagged(_) => h
    case Restart(cutoff, reason, w) =>
      History(if TakesEffect(w) then map id | id in h.rows :: InterruptedRow(h.rows[id], cutoff, reason)
          else h.rows, map[])
  }

  function HandleAll(h: History, inputs: seq<Input>): History
    decreases |inputs|
  {
    if inputs == [] then h else HandleAll(Handle(h, inputs[0]), inputs[1..])
  }

  /** Row ids are generated fresh: no start reuses the id of an existing row. */
  ghost predicate FreshRows(h: History, inputs: seq<Input>)
    decreases |inputs|
  {
    inputs == [] ||
    ((inputs[0].FlowStarted? ==> inputs[0].rowId !in h.rows) && FreshRows(Handle(h, inputs[0]), inputs[1..]))
  }

  // ---- History only moves forward ----

  /** A row stays what it is once it has left Running, and its identity never changes. */
  ghost predicate Follows(a: Row, b: Row) {
    && b.flowId == a.flowId && b.traceId == a.traceId && b.startedAt == a.startedAt
    && (!a.status.Running? ==> b == a)
  }

  lemma {:induction false} RowsMoveForward(h: History, inputs: seq<Input>, id: Uuid)
    requires FreshRows(h, inputs) && id in h.rows
    ensures id in HandleAll(h, inputs).rows && Follows(h.rows[id], HandleAll(h, inputs).rows[id])
    decreases |inputs|
  {
    if inputs != [] {
      RowsMoveForward(Handle(h, inputs[0]), inputs[1..], id);
    }
  }

  // ---- In flight ----

  /** The recorded start of `t` with no terminal event and no restart handled since. */
  function OpenStart(inputs: seq<Input>, t: Uuid): Option<Uuid> {
    if inputs == [] then None
    else
      var front := inputs[..|inputs| - 1];
      match inputs[|inputs| - 1]
      case FlowStarted(_, traceId, rowId, _, w) => if traceId == t && w == Done
          then Some(rowId) else OpenStart(front, t)
      case FlowEnded(traceId, _, _) => if traceId == t then None else OpenStart(front, t)
      case Restart(_, _, _) => None
      case _ => OpenStart(front, t)
  }

  lemma {:induction false} HandleAllAppend(h: History, inputs: seq<Input>, e: Input)
    ensures HandleAll(h, inputs + [e]) == Handle(HandleAll(h, inputs), e)
    decreases |inputs|
  {
    if inputs != [] {
      assert (inputs + [e])[1..] == inputs[1..] + [e];
      HandleAllAppend(Handle(h, inputs[0]), inputs[1..], e);
    } else {
      assert [] + [e] == [e];
    }
  }

  /** What is in flight is exactly the recorded starts with no terminal handled since. */
  lemma {:induction false} InFlightExact(rows: map<Uuid, Row>, inputs: seq<Input>, t: Uuid)
    ensures var h := HandleAll(History(rows, map[]), inputs);
            if t in h.inFlight then OpenStart(inputs, t) == Some(h.inFlight[t]) else OpenStart(inputs, t) == None
    decreases |inputs|
  {
    if inputs != [] {
      var front, last := inputs[..|inputs| - 1], inputs[|inputs| - 1];
      assert inputs == front + [last];
      InFlightExact(rows, front, t);
      HandleAllAppend(History(rows, map[]), front, last);
    }
  }

  // ---- A row's fate ----

  datatype Fate = StillRunning | ByEvent(outcome: Outcome) | Interrupted(reason: string)

  /** What becomes of a running row of trace `t` in the inputs that follow its start, looking at
      this trace alone; `tracked` says whether the recorder still holds the row. */
  function FateOf(rest: seq<Input>, t: Uuid, startedAt: int, tracked: bool): Fate
    decreases |rest|
  {
    if rest == [] then StillRunning
    else
      match rest[0]
      case FlowEnded(traceId, outcome, w) =>
        if traceId == t && tracked then
          if TakesEffect(w) then ByEvent(outcome) else FateOf(rest[1..], t, startedAt, false)
        else FateOf(rest[1..], t, startedAt, tracked)
      case Restart(cutoff, reason, w) =>
        if TakesEffect(w) && startedAt < cutoff then Interrupted(reason) else FateOf(rest[1..], t, startedAt, false)
      case _ => FateOf(rest[1..], t, startedAt, tracked)
  }

  function FatedRow(r: Row, fate: Fate): Row {
    match fate
    case StillRunning => r
    case ByEvent(o) => CompletedRow(r, o)
    case Interrupted(reason) => r.(status := Stopped, error := Some(reason))
  }

  ghost predicate NoStartOf(inputs: seq<Input>, t: Uuid) {
    forall e <- inputs :: e.FlowStarted? ==> e.traceId != t
  }

  /** The recorder holds row `id` for trace `t`, or, when not tracked, for no trace. */
  ghost predicate Holds(h: History, t: Uuid, id: Uuid, tracked: bool) {
    && (tracked ==> t in h.inFlight && h.inFlight[t] == id)
    && forall u <- h.inFlight :: h.inFlight[u] == id ==> tracked && u == t
  }

  /** A terminal event that really ended, as the engine emits them. */
  ghost predicate EndsProperly(inputs: seq<Input>) {
    forall e <- inputs :: e.FlowEnded? ==> !e.outcome.status.Running?
  }

  /** Other traces never touch a row: its end is decided by the first terminal event handled for
      its own trace, or by a restart that comes first. */
  lemma {:induction false} RowFollowsItsTrace(h: History, rest: seq<Input>, t: Uuid, id: Uuid, tracked: bool)
    requires FreshRows(h, rest) && EndsProperly(rest) && NoStartOf(rest, t)
    requires id in h.rows && h.rows[id].status.Running?
    requires Holds(h, t, id, tracked)
    ensures id in HandleAll(h, rest).rows
    ensures HandleAll(h, rest).rows[id] == FatedRow(h.rows[id], FateOf(rest, t, h.rows[id].startedAt, tracked))
    decreases |rest|
  {
    if rest != [] {
      var e, tail := rest[0], rest[1..];
      var h1 := Handle(h, e);
      assert forall x <- tail :: x in rest;
      assert e in rest;
      if h1.rows[id] != h.rows[id] {
        RowsMoveForward(h1, tail, id);
      } else {
        var next := tracked && !(e.FlowEnded? && e.traceId == t) && !e.Restart?;
        assert Holds(h1, t, id, next);
        RowFollowsItsTrace(h1, tail, t, id, next);
      }
    }
  }

  /** The first terminal event of a trace in a list of inputs. */
  function FirstEnd(inputs: seq<Input>, t: Uuid): Option<Outcome> {
    if inputs == [] then None
    else if inputs[0].FlowEnded? && inputs[0].traceId == t then Some(inputs[0].outcome)
    else FirstEnd(inputs[1..], t)
  }

  lemma {:induction false} EventFateIsFirstEnd(rest: seq<Input>, t: Uuid, startedAt: int)
    requires FateOf(rest, t, startedAt, true).ByEvent?
    ensures FirstEnd(rest, t) == Some(FateOf(rest, t, startedAt, true).outcome)
    decreases |rest|
  {
    if rest != [] {
      if (rest[0].FlowEnded? && rest[0].traceId == t && !TakesEffect(rest[0].write)) || rest[0].Restart? {
        UntrackedNeverByEvent(rest[1..], t, startedAt);
      } else if !(rest[0].FlowEnded? && rest[0].traceId == t) {
        EventFateIsFirstEnd(rest[1..], t, startedAt);
      }
    }
  }

  lemma {:induction false} UntrackedNeverByEvent(rest: seq<Input>, t: Uuid, startedAt: int)
    ensures !FateOf(rest, t, startedAt, false).ByEvent?
    decreases |rest|
  {
    if rest != [] {
      UntrackedNeverByEvent(rest[1..], t, startedAt);
    }
  }

  /** A recorded start, taken from any point of the stream: its row ends with the first terminal
      event handled for its trace if an event ends it at all, and otherwise it is still running
      or was interrupted by a restart. */
  lemma OutcomeIsFirstEnd(h: History, start: Input, rest: seq<Input>)
    requires start.FlowStarted? && start.write == Done
    requires FreshRows(h, [start] + rest) && EndsProperly(rest) && NoStartOf(rest, start.traceId)
    requires forall u <- h.inFlight :: h.inFlight[u] in h.rows
    ensures var rows := HandleAll(Handle(h, start), rest).rows;
            && start.rowId in rows
            && var row := rows[start.rowId];
               row.status.Running?
               || (FirstEnd(rest, start.traceId).Some? && var o := FirstEnd(rest, start.traceId).value;
                   row.status == o.status && row.durationMs == o.durationMs && row.error == o.error)
               || (row.status == Stopped && exists e <- rest ::
                     e.Restart? && start.now < e.cutoff && row.error == Some(e.reason))
  {
    assert ([start] + rest)[0] == start && ([start] + rest)[1..] == rest;
    var h1 := Handle(h, start);
    RowFollowsItsTrace(h1, rest, start.traceId, start.rowId, true);
    var fate := FateOf(rest, start.traceId, start.now, true);
    if fate.ByEvent? {
      EventFateIsFirstEnd(rest, start.traceId, start.now);
    } else if fate.Interrupted? {
      InterruptedByRestart(rest, start.traceId, start.now, true);
    }
  }

  lemma {:induction false} InterruptedByRestart(rest: seq<Input>, t: Uuid, startedAt: int, tracked: bool)
    requires FateOf(rest, t, startedAt, tracked).Interrupted?
    ensures exists e <- rest ::
              e.Restart? && startedAt < e.cutoff && e.reason == FateOf(rest, t, startedAt, tracked).reason
    decreases |rest|
  {
    if rest != [] {
      var e := rest[0];
      assert e in rest;
      if e.Restart? && TakesEffect(e.write) && startedAt < e.cutoff {
      } else {
        var next := tracked && !(e.FlowEnded? && e.traceId == t) && !e.Restart?;
        InterruptedByRestart(rest[1..], t, startedAt, next);
      }
    }
  }

  // ---- Reconciliation at startup ----

  ghost predicate NoneRunningBefore(h: History, cutoff: int) {
    forall id <- h.rows :: h.rows[id].status.Running? ==> h.rows[id].startedAt >= cutoff
  }

  /** After a restart whose reconciliation took effect no row older than the cutoff is running,
      and none ever is again, since later runs start later. */
  lemma {:induction false} ReconciledForGood(h: History, inputs: seq<Input>, cutoff: int)
    requires FreshRows(h, inputs) && NoneRunningBefore(h, cutoff)
    requires forall e <- inputs :: e.FlowStarted? ==> e.now >= cutoff
    ensures NoneRunningBefore(HandleAll(h, inputs), cutoff)
    decreases |inputs|
  {
    if inputs != [] {
      assert inputs[0] in inputs;
      assert forall e <- inputs[1..] :: e in inputs;
      ReconciledForGood(Handle(h, inputs[0]), inputs[1..], cutoff);
    }
  }

  lemma RestartReconciles(h: History, inputs: seq<Input>, restart: Input)
    requires restart.Restart? && TakesEffect(restart.write)
    requires FreshRows(Handle(h, restart), inputs)
    requires forall e <- inputs :: e.FlowStarted? ==> e.now >= restart.cutoff
    ensures NoneRunningBefore(HandleAll(Handle(h, restart), inputs), restart.cutoff)
  {
    ReconciledForGood(Handle(h, restart), inputs, restart.cutoff);
  }
}
