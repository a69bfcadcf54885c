/** The life of executions (execute_with_trigger, stop, cancel_execution in engine.rs): drivers,
    stops and cancellations interleave over one locked map of executions in progress. */
module Lifecycle {
  import opened Digraphs
  import opened Wrappers
  import opened Cancellation

  datatype FlowStatus = Running | Completed | Error | Stopped

  datatype Terminal = FlowCompleted | FlowError | FlowStopped

  /** The terminal event of a driver: a cancellation it sees comes before the plan's result. */
  function TerminalOf(cancelled: bool, ok: bool): Terminal {
    if cancelled then FlowStopped else if ok then FlowCompleted else FlowError
  }

  function StatusOf(k: Terminal): FlowStatus {
    match k
    case FlowCompleted => Completed
    case FlowError => Error
    case FlowStopped => Stopped
  }

  // ---- The map of executions in progress, as the engine keeps it ----

  datatype ActiveFlow = ActiveFlow(flowId: Uuid, status: FlowStatus, cancel: CancelHandle)

  /** What one entry says: its flow, its status, and whether its handle is cancelled. */
  datatype Entry = Entry(flowId: Uuid, status: FlowStatus, cancelled: bool)

  function Cancelled(e: Entry): Entry {
    e.(status := Stopped, cancelled := true)
  }

  /** The effect of stopping a flow: every entry of it is cancelled, no other changes. */
  ghost function StopAll(entries: map<Uuid, Entry>, flowId: Uuid): map<Uuid, Entry> {
    map t | t in entries :: StoppedIfOf(entries[t], flowId)
  }

  function StoppedIfOf(e: Entry, flowId: Uuid): Entry {
    if e.flowId == flowId then Cancelled(e) else e
  }

  /** `now` is `entries` with every entry of the flow stopped except those still to do. */
  ghost predicate StoppedSoFar(entries: map<Uuid, Entry>, now: map<Uuid, Entry>, todo: set<Uuid>, flowId: Uuid) {
    && now.Keys == entries.Keys && todo <= now.Keys
    && forall t <- entries :: now[t] == if t in todo then entries[t] else StoppedIfOf(entries[t], flowId)
  }

  lemma StopOneMore(entries: map<Uuid, Entry>, now: map<Uuid, Entry>, todo: set<Uuid>, flowId: Uuid, t: Uuid)
    requires StoppedSoFar(entries, now, todo, flowId) && t in todo
    ensures t in now && StoppedSoFar(entries, now[t := StoppedIfOf(now[t], flowId)], todo - {t}, flowId)
  {
  }

  lemma AllStopped(entries: map<Uuid, Entry>, now: map<Uuid, Entry>, flowId: Uuid)
    ensures StoppedSoFar(entries, now, {}, flowId) ==> now == StopAll(entries, flowId)
    ensures StoppedSoFar(entries, entries, entries.Keys, flowId)
  {
  }

  lemma StopAllAt(entries: map<Uuid, Entry>, flowId: Uuid)
    ensures StopAll(entries, flowId).Keys == entries.Keys
    ensures forall t <- entries ::
              StopAll(entries, flowId)[t] ==
              if entries[t].flowId == flowId then Entry(flowId, Stopped, true) else entries[t]
  {
  }

  class FlowEngine {
    var activeFlows: map<Uuid, ActiveFlow>

    constructor ()
      ensures Valid() && activeFlows == map[]
    {
      activeFlows := map[];
    }

    ghost function Handles(): set<CancelHandle>
      reads this
    {
      set t | t in activeFlows :: activeFlows[t].cancel
    }

    /** No two executions share a handle. */
    ghost predicate Valid()
      reads this
    {
      forall t, u :: t in activeFlows && u in activeFlows && t != u ==> activeFlows[t].cancel != activeFlows[u].cancel
    }

    ghost function Entries(): map<Uuid, Entry>
      reads this, Handles()
    {
      map t | t in activeFlows :: Entry(activeFlows[t].flowId, activeFlows[t].status, activeFlows[t].cancel.flag)
    }

    /** Registers an execution under a fresh trace id with a handle of its own. */
    method Register(trace: Uuid, flowId: Uuid) returns (cancel: CancelHandle)
      requires Valid() && trace !in activeFlows
      modifies this
      ensures Valid() && fresh(cancel)
      ensures activeFlows == old(activeFlows)[trace := ActiveFlow(flowId, Running, cancel)]
      ensures Entries() == old(Entries())[trace := Entry(flowId, Running, false)]
    {
      cancel := new CancelHandle();
      activeFlows := activeFlows[trace := ActiveFlow(flowId, Running, cancel)];
    }

    /** Cancels every execution of the flow, not just the latest. */
    method Stop(flowId: Uuid)
      requires Valid()
      modifies this, Handles()
      ensures Valid() && Handles() == old(Handles()) && activeFlows.Keys == old(activeFlows.Keys)
      ensures Entries() == StopAll(old(Entries()), flowId)
      ensures Entries().Keys == old(Entries()).Keys
      ensures forall t <- Entries() ::
                var was := old(Entries())[t];
                Entries()[t] == if was.flowId == flowId then Entry(flowId, Stopped, true) else was
    {
      var todo := activeFlows.Keys;
      ghost var entries := Entries();
      AllStopped(entries, entries, flowId);
      assert entries.Keys == activeFlows.Keys;
      hide *;
      while todo != {}
        invariant Valid() && Handles() == old(Handles())
        invariant todo <= activeFlows.Keys == old(activeFlows.Keys)
        invariant StoppedSoFar(entries, Entries(), todo, flowId)
        decreases todo
      {
        var t :| t in todo;
        StopOneMore(entries, Entries(), todo, flowId, t);
        todo := todo - {t};
        StopIfOf(t, flowId);
      }
      AllStopped(entries, Entries(), flowId);
      StopAllAt(entries, flowId);
    }

    method StopIfOf(trace: Uuid, flowId: Uuid)
      requires Valid() && trace in activeFlows
      modifies this, Handles()
      ensures Valid() && Handles() == old(Handles()) && activeFlows.Keys == old(activeFlows.Keys)
      ensures trace in old(Entries())
      ensures Entries() == old(Entries())[trace := StoppedIfOf(old(Entries())[trace], flowId)]
    {
      EntryFlow(trace);
      if activeFlows[trace].flowId == flowId {
        MarkCancelled(trace);
      }
    }

    lemma EntryFlow(trace: Uuid)
      requires trace in activeFlows
      ensures trace in Entries() && Entries()[trace].flowId == activeFlows[trace].flowId
    {
    }

    /** Cancels the handle of one entry and marks it stopped. */
    method MarkCancelled(trace: Uuid)
      requires Valid() && trace in activeFlows
      modifies this, Handles()
      ensures Valid() && Handles() == old(Handles()) && activeFlows.Keys == old(activeFlows.Keys)
      ensures Entries() == old(Entries())[trace := Cancelled(old(Entries())[trace])]
    {
      var entry := activeFlows[trace];
      entry.cancel.Cancel();
      activeFlows := activeFlows[trace := entry.(status := Stopped)];
      assert forall t <- activeFlows :: activeFlows[t].cancel == old(activeFlows)[t].cancel;
    }

    /** Cancels one execution; answers false if it is not in progress any more. */
    method CancelExecution(trace: Uuid) returns (found: bool)
      requires Valid()
      modifies this, Handles()
      ensures Valid()
      ensures found <==> trace in old(activeFlows)
      ensures Entries() == if found then old(Entries())[trace := Cancelled(old(Entries())[trace])] else old(Entries())
    {
      found := trace in activeFlows;
      if found {
        MarkCancelled(trace);
      }
    }

    method SetExecutionStatus(trace: Uuid, status: FlowStatus)
      requires Valid()
      modifies this
      ensures Valid()
      ensures Entries() == if trace in old(Entries())
              then old(Entries())[trace := old(Entries())[trace].(status := status)] else old(Entries())
    {
      if trace in activeFlows {
        activeFlows := activeFlows[trace := activeFlows[trace].(status := status)];
      }
    }

    method RemoveExecution(trace: Uuid)
      requires Valid()
      modifies this
      ensures Valid()
      ensures Entries() == old(Entries()) - {trace}
    {
      activeFlows := activeFlows - {trace};
    }

    /** What a driver does when its plan has returned, undisturbed: reads its flag, emits the
        terminal event, records the outcome unless it was stopped, and leaves the map. */
    method Conclude(trace: Uuid, cancel: CancelHandle, ok: bool) returns (terminal: Terminal)
      requires Valid()
      modifies this
      ensures Valid() && Entries() == old(Entries()) - {trace}
      ensures terminal == FlowStopped <==> cancel.flag
      ensures terminal == FlowError <==> !cancel.flag && !ok
      ensures terminal == FlowCompleted <==> !cancel.flag && ok
    {
      var cancelled := cancel.IsCancelled();
      terminal := TerminalOf(cancelled, ok);
      if !terminal.FlowStopped? {
        SetExecutionStatus(trace, StatusOf(terminal));
      }
      RemoveExecution(trace);
    }
  }
}
