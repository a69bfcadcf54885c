/** Stopping a flow (stop_flow in routes.rs) cancels its executions first and retires its routes
    then, in two steps between which a hook request may come. */
module FlowStop {
  import opened Digraphs
  import opened Wrappers
  import opened Lifecycle
  import HookRoutes

  /** A hook request that is routed has its execution registered under a fresh trace id. */
  method HookRequest(engine: FlowEngine, storage: HookRoutes.SqliteStorage, flowId: Uuid, verb: string, path: string,
                     trace: Uuid)
    returns (route: Option<HookRoutes.HookMatch>)
    requires engine.Valid() && trace !in engine.activeFlows
    modifies engine
    ensures route == HookRoutes.FindRoute(storage.View(), flowId, HookRoutes.RouteKey(verb, path))
    ensures engine.Valid()
    ensures engine.Entries() == if route.None? then old(engine.Entries())
                                else old(engine.Entries())[trace := Entry(flowId, Running, false)]
  {
    route := storage.FindHookRoute(flowId, verb, path);
    if route.Some? {
      var cancel := engine.Register(trace, flowId);
    }
  }

  /** A stop during which a hook request arrives, between the two steps.  The request is served
      exactly if its route was there before the stop, and then the stop leaves exactly one execution
      of the flow uncancelled: the request's. */
  method StopFlow(engine: FlowEngine, storage: HookRoutes.SqliteStorage, flowId: Uuid, verb: string, path: string,
                  trace: Uuid)
    returns (route: Option<HookRoutes.HookMatch>)
    requires engine.Valid() && trace !in engine.activeFlows
    modifies engine, engine.Handles(), storage
    ensures storage.View() == HookRoutes.Undeployed(old(storage.View()), flowId)
    ensures route == HookRoutes.FindRoute(old(storage.View()), flowId, HookRoutes.RouteKey(verb, path))
    ensures engine.Valid()
    ensures engine.Entries() == var stopped := StopAll(old(engine.Entries()), flowId);
                                if route.None? then stopped else stopped[trace := Entry(flowId, Running, false)]
    ensures Uncancelled(engine.Entries(), flowId) == if route.None? then {} else {trace}
  {
    ghost var before := engine.Entries();
    hide *;
    StoppedButOne(before, flowId, trace);
    engine.Stop(flowId);
    route := HookRequest(engine, storage, flowId, verb, path, trace);
    ghost var now := engine.Entries();
    storage.UndeployFlow(flowId);
    assert engine.Entries() == now;
  }

  lemma StoppedButOne(entries: map<Uuid, Entry>, flowId: Uuid, trace: Uuid)
    ensures Uncancelled(StopAll(entries, flowId), flowId) == {}
    ensures Uncancelled(StopAll(entries, flowId)[trace := Entry(flowId, Running, false)], flowId) == {trace}
  {
  }

  ghost function Uncancelled(entries: map<Uuid, Entry>, flowId: Uuid): set<Uuid> {
    set t | t in entries && entries[t].flowId == flowId && !entries[t].cancelled
  }
}
