/** A plugin node's instance and configuration (executor.rs).  The plugin module is an abstract
    machine: any instantiation and any call may fail, for whatever reason. */
module PluginNode {
  import opened Wrappers

  datatype Request = Process | Validate | Configure(config: string)

  /** What the module does in one request, in case it is asked to: instantiate, take back the
      last configuration, answer the call itself. */
  datatype Outcome = Outcome(instantiates: bool, reconfigures: bool, succeeds: bool)

  /** The calls made into instances, in order; instances are numbered as they are made.  A restored
      configuration is one re-applied to a fresh instance, not asked for by a request. */
  datatype Call =
    | Restored(instance: nat, config: string, ok: bool)
    | Requested(instance: nat, request: Request, ok: bool)

  datatype Node = Node(instance: Option<nat>, configJson: Option<string>, made: nat, calls: seq<Call>)

  const Fresh := Node(None, None, 0, [])

  /** A request that gets a call slot; the flag says whether it succeeded. */
  function Served(n: Node, request: Request, o: Outcome): (Node, bool) {
    var ready := Ready(n, o);
    if ready.instance.None? then (ready, false)
    else
      var called := ready.(calls := ready.calls + [Requested(ready.instance.value, request, o.succeeds)]);
      if !o.succeeds then (called.(instance := None), false)
      else (if request.Configure? then called.(configJson := Some(request.config)) else called, true)
  }

  /** The node with an instance, made and configured if there was none and that succeeds. */
  function Ready(n: Node, o: Outcome): Node {
    if n.instance.Some? || !o.instantiates then n
    else
      var made := n.(made := n.made + 1);
      match n.configJson
      case None => made.(instance := Some(n.made))
      case Some(config) =>
        made.(calls := n.calls + [Restored(n.made, config, o.reconfigures)],
              instance := if o.reconfigures then Some(n.made) else None)
  }

  /** The plugin's sandbox: makes instances and carries the calls. */
  class Sandbox {
    var made: nat
    var calls: seq<Call>

    constructor ()
      ensures made == 0 && calls == []
    {
      made, calls := 0, [];
    }

    method InstantiateModule(ok: bool) returns (instance: Option<nat>)
      modifies this
      ensures calls == old(calls)
      ensures if ok then made == old(made) + 1 && instance == Some(old(made)) else made == old(made) && instance == None
    {
      instance := None;
      if ok {
        instance := Some(made);
        made := made + 1;
      }
    }

    method Invoke(call: Call) returns (ok: bool)
      modifies this
      ensures ok == call.ok && made == old(made) && calls == old(calls) + [call]
    {
      calls := calls + [call];
      ok := call.ok;
    }
  }

  class NodeState {
    const sandbox: Sandbox
    var instance: Option<nat>
    var configJson: Option<string>

    ghost function View(): Node
      reads this, sandbox
    {
      Node(instance, configJson, sandbox.made, sandbox.calls)
    }

    constructor ()
      ensures fresh(sandbox) && View() == Fresh
    {
      sandbox := new Sandbox();
      instance, configJson := None, None;
    }

    /** The call goes to the live instance, or to a new one brought to the kept configuration.  Any
        failure on the way leaves the node without an instance. */
    method WithInstance(request: Request, o: Outcome) returns (ok: bool)
      modifies this, sandbox
      ensures ok == Served(old(View()), request, o).1
      ensures View() == Served(old(View()), request, o).0.(configJson := old(configJson))
    {
      if instance.None? {
        var made := sandbox.InstantiateModule(o.instantiates);
        if made.None? {
          return false;
        }
        if configJson.Some? {
          var restored := sandbox.Invoke(Restored(made.value, configJson.value, o.reconfigures));
          if !restored {
            return false;
          }
        }
        instance := made;
      }
      ok := sandbox.Invoke(Requested(instance.value, request, o.succeeds));
      if !ok {
        instance := None;
      }
    }

    /** One request; without a free call slot it fails and touches nothing. */
    method Serve(request: Request, slot: bool, o: Outcome) returns (ok: bool)
      modifies this, sandbox
      ensures (View(), ok) == if slot then Served(old(View()), request, o) else (old(View()), false)
    {
      if !slot {
        return false;
      }
      ok := WithInstance(request, o);
      if ok && request.Configure? {
        configJson := Some(request.config);
      }
    }
  }

  // ---- What holds over every run ----

  datatype Step = Step(request: Request, slot: bool, outcome: Outcome)

  function Stepped(n: Node, s: Step): (Node, bool) {
    if s.slot then Served(n, s.request, s.outcome) else (n, false)
  }

  function After(steps: seq<Step>): Node {
    if steps == [] then Fresh else Stepped(After(steps[..|steps| - 1]), steps[|steps| - 1]).0
  }

  /** The configuration of the last configure request that succeeded. */
  function Accepted(steps: seq<Step>): Option<string> {
    if steps == [] then None
    else
      var front, last := steps[..|steps| - 1], steps[|steps| - 1];
      if last.request.Configure? && Stepped(After(front), last).1 then Some(last.request.config) else Accepted(front)
  }

  /** The same, read off the calls. */
  function LastAccepted(calls: seq<Call>): Option<string> {
    if calls == [] then None
    else
      var last := calls[|calls| - 1];
      if last.Requested? && last.request.Configure? && last.ok then Some(last.request.config)
      else LastAccepted(calls[..|calls| - 1])
  }

  /** The configuration an instance last took. */
  function LastApplied(calls: seq<Call>, instance: nat): Option<string> {
    if calls == [] then None
    else
      var last := calls[|calls| - 1];
      if last.instance == instance && last.ok && last.Restored? then Some(last.config)
      else if last.instance == instance && last.ok && last.Requested? && last.request.Configure?
          then Some(last.request.config)
      else LastApplied(calls[..|calls| - 1], instance)
  }

  /** Every request reaches an instance that runs under the last accepted configuration. */
  ghost predicate UnderAccepted(calls: seq<Call>) {
    forall k :: 0 <= k < |calls| && calls[k].Requested? ==>
      LastApplied(calls[..k], calls[k].instance) == LastAccepted(calls[..k])
  }

  ghost predicate DeadStayDead(calls: seq<Call>) {
    forall j, k :: 0 <= j < k < |calls| && !calls[j].ok ==> calls[k].instance != calls[j].instance
  }

  ghost predicate Inv(n: Node) {
    && n.configJson == LastAccepted(n.calls)
    && (n.instance.Some? ==> n.instance.value < n.made && LastApplied(n.calls, n.instance.value) == n.configJson)
    && (n.instance.Some? ==> forall c <- n.calls :: c.instance == n.instance.value ==> c.ok)
    && (forall c <- n.calls :: c.instance < n.made)
    && UnderAccepted(n.calls) && DeadStayDead(n.calls)
  }

  lemma OneMore(calls: seq<Call>, c: Call)
    requires UnderAccepted(calls) && DeadStayDead(calls)
    requires c.Requested? ==> LastApplied(calls, c.instance) == LastAccepted(calls)
    requires forall d <- calls :: d.instance == c.instance ==> d.ok
    ensures UnderAccepted(calls + [c]) && DeadStayDead(calls + [c])
  {
    var more := calls + [c];
    assert more[..|calls|] == calls;
    assert forall k :: 0 <= k < |calls| ==> more[..k] == calls[..k];
  }

  lemma {:induction false} NeverApplied(calls: seq<Call>, instance: nat)
    requires forall c <- calls :: c.instance != instance
    ensures LastApplied(calls, instance) == None
  {
    if calls != [] {
      NeverApplied(calls[..|calls| - 1], instance);
    }
  }

  lemma ReadyKeeps(n: Node, o: Outcome)
    requires Inv(n)
    ensures Inv(Ready(n, o)) && Ready(n, o).configJson == n.configJson
  {
    if n.instance.None? && o.instantiates {
      NeverApplied(n.calls, n.made);
      if n.configJson.Some? {
        var c := Restored(n.made, n.configJson.value, o.reconfigures);
        OneMore(n.calls, c);
        assert (n.calls + [c])[..|n.calls|] == n.calls;
      }
    }
  }

  lemma ServedKeeps(n: Node, request: Request, o: Outcome)
    requires Inv(n)
    ensures Inv(Served(n, request, o).0)
  {
    ReadyKeeps(n, o);
    hide Ready;
    var r := Ready(n, o);
    if r.instance.Some? {
      CalledKeeps(r, request, o.succeeds);
    }
    hide Inv;
  }

  lemma CalledKeeps(r: Node, request: Request, ok: bool)
    requires Inv(r) && r.instance.Some?
    ensures var called := r.(calls := r.calls + [Requested(r.instance.value, request, ok)]);
            Inv(if !ok then called.(instance := None) else if request.Configure?
                then called.(configJson := Some(request.config)) else called)
  {
    var c := Requested(r.instance.value, request, ok);
    OneMore(r.calls, c);
    assert (r.calls + [c])[..|r.calls|] == r.calls;
    assert LastApplied(r.calls + [c], r.instance.value) == if ok && request.Configure?
        then Some(request.config) else r.configJson;
    assert LastAccepted(r.calls + [c]) == if ok && request.Configure? then Some(request.config) else r.configJson;
    hide UnderAccepted, DeadStayDead, LastApplied, LastAccepted;
  }

  /** Exactly when a request succeeds: it has a slot, an instance is live or is made and takes the
      kept configuration, and the call itself succeeds. */
  lemma SucceedsIff(n: Node, s: Step)
    ensures var o := s.outcome;
            Stepped(n, s).1 <==>
            s.slot && (n.instance.Some? || (o.instantiates && (n.configJson == None || o.reconfigures))) && o.succeeds
  {
  }

  /** What a request does with the sandbox: nothing without a slot; else it makes an instance exactly
      if none is live and that succeeds, gives it the kept configuration if there is one, and unless
      that fails makes the requested call as the last; after it an instance is live exactly if the
      request succeeded, the one that took the call. */
  lemma ServesByCalls(n: Node, s: Step)
    ensures var (n1, ok) := Stepped(n, s);
            var o := s.outcome;
            && n1.made == n.made + (if s.slot && n.instance.None? && o.instantiates then 1 else 0)
            && (!s.slot ==> n1 == n)
            && (s.slot ==> (n1.instance.Some? <==> ok))
            && (s.slot && n.instance.Some? ==>
                  n1.calls == n.calls + [Requested(n.instance.value, s.request, o.succeeds)])
            && (s.slot && n.instance.None? && !o.instantiates ==> n1.calls == n.calls)
            && (s.slot && n.instance.None? && o.instantiates ==>
                  var made := Requested(n.made, s.request, o.succeeds);
                  match n.configJson
                  case None => n1.calls == n.calls + [made]
                  case Some(config) =>
                    n1.calls ==
                    n.calls + [Restored(n.made, config, o.reconfigures)] + if o.reconfigures then [made] else [])
            && (s.slot && ok ==> n1.instance == (if n.instance.Some? then n.instance else Some(n.made)))
  {
  }

  lemma {:induction false} InvRun(steps: seq<Step>)
    ensures Inv(After(steps))
  {
    if steps != [] {
      var front, last := steps[..|steps| - 1], steps[|steps| - 1];
      InvRun(front);
      ServedKeeps(After(front), last.request, last.outcome);
    }
  }

  /** The configuration kept for later instances is that of the last configure that succeeded:
      a rejected one leaves the one before in force. */
  lemma {:induction false} KeptIsAccepted(steps: seq<Step>)
    ensures After(steps).configJson == Accepted(steps)
  {
    if steps != [] {
      KeptIsAccepted(steps[..|steps| - 1]);
    }
  }

  /** A live instance has last been given exactly the configuration accepted last. */
  lemma LiveInstanceInStep(steps: seq<Step>)
    requires After(steps).instance.Some?
    ensures LastApplied(After(steps).calls, After(steps).instance.value) == Accepted(steps)
  {
    InvRun(steps);
    KeptIsAccepted(steps);
  }

  /** No instance is called again after one of its calls failed. */
  lemma NoUseAfterFailure(steps: seq<Step>, j: nat, k: nat)
    requires var calls := After(steps).calls; j < k < |calls| && !calls[j].ok
    ensures After(steps).calls[k].instance != After(steps).calls[j].instance
  {
    InvRun(steps);
  }

  /** Every request that reaches an instance runs under the configuration accepted last before it. */
  lemma CallsRunUnderAccepted(steps: seq<Step>, k: nat)
    requires var calls := After(steps).calls; k < |calls| && calls[k].Requested?
    ensures var calls := After(steps).calls;
            LastApplied(calls[..k], calls[k].instance) == LastAccepted(calls[..k])
  {
    InvRun(steps);
  }
}
