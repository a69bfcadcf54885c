/** The hook call protocol (hook_handler and await_flow_response in routes.rs, HttpOutNode in
    http_out.rs): concurrent calls reserve a slot, register a responder under their trace id, run
    the flow, and wait for an http-out node to take the responder and send one reply through it. */
module HookCalls {
  import opened Digraphs
  import opened HookLimits
  import opened Wrappers

  datatype Reply = Answered(body: string) | NoAnswer | TimedOut | ExecutionFailed | TooMany | NotRunnable

  /** Where a call is.  `Expired` has run out of time, `Clearing` has still to remove its
      responder, `Leaving` has still to give back its slot.  An abandoned call is one whose
      handler was dropped because the client went away. */
  datatype Stage =
    | Arrived
    | Chosen(sem: nat)
    | Reserved
    | Registered
    | Waiting
    | Expired
    | Clearing(reply: Reply)
    | Leaving(reply: Reply)
    | Returned(reply: Reply)
    | Abandoned

  /** The one-shot channel of a call: its sender sits in the responder map, is held by an http-out
      node, was used, or was dropped unused. */
  datatype Channel = Unmade | InMap | HeldBy(node: nat) | Sent(body: string) | Lost

  /** Calls are named by their trace ids; `slot` is the semaphore a call holds a permit of. */
  datatype Call = Call(flowId: Uuid, stage: Stage, slot: Option<nat>, channel: Channel)

  /** `sent` lists the replies that reached a receiver, `executing` the executions that have not
      ended, `cancelled` those asked to stop. */
  datatype State = State(
    max: nat,
    slots: Slots,
    calls: map<Uuid, Call>,
    responders: set<Uuid>,
    sent: seq<(Uuid, string)>,
    executing: set<Uuid>,
    cancelled: set<Uuid>)

  /** A node that takes a responder out of the map sends through it without waiting in between, so
      a sender once taken is used; the execution a call started ends (Finish) whenever it does. */
  datatype Move =
    | Arrive(t: Uuid, flowId: Uuid)
    | Choose(t: Uuid)
    | Acquire(t: Uuid)
    | Reject(t: Uuid)
    | Register(t: Uuid)
    | Execute(t: Uuid, ok: bool)
    | Receive(t: Uuid)
    | Expire(t: Uuid)
    | Cancel(t: Uuid)
    | Clear(t: Uuid)
    | Return(t: Uuid)
    | Abandon(t: Uuid)
    | NodeTake(node: nat, t: Uuid)
    | NodeSend(node: nat, t: Uuid, body: string)
    | Finish(t: Uuid)
    | Release(flowId: Uuid)

  function Init(max: nat): State {
    State(max, Slots(map[], []), map[], {}, [], {}, {})
  }

  predicate At(s: State, t: Uuid, stage: Stage) {
    t in s.calls && s.calls[t].stage == stage
  }

  /** The receiver exists until its wait ends; a failed execution keeps it until the call returns. */
  predicate Listening(stage: Stage) {
    stage.Registered? || stage.Waiting? || stage == Clearing(ExecutionFailed) || stage == Leaving(ExecutionFailed)
  }

  predicate Over(stage: Stage) {
    stage.Returned? || stage.Abandoned?
  }

  predicate Enabled(s: State, m: Move) {
    match m
    case Arrive(t, _) => t !in s.calls
    case Choose(t) => At(s, t, Arrived)
    case Acquire(t) => t in s.calls && s.calls[t].stage.Chosen? && s.calls[t].stage.sem < |s.slots.free|
    case Reject(t) => At(s, t, Reserved)
    case Register(t) => At(s, t, Reserved)
    case Execute(t, _) => At(s, t, Registered)
    case Receive(t) => At(s, t, Waiting) && (s.calls[t].channel.Sent? || s.calls[t].channel.Lost?)
    // The wait looks at the channel before it looks at the clock.
    case Expire(t) => At(s, t, Waiting) && !s.calls[t].channel.Sent? && !s.calls[t].channel.Lost?
    case Cancel(t) => At(s, t, Expired)
    case Clear(t) => t in s.calls && s.calls[t].stage.Clearing?
    case Return(t) => t in s.calls && s.calls[t].stage.Leaving?
    case Abandon(t) => t in s.calls && !Over(s.calls[t].stage)
    case NodeTake(_, _) => true
    case NodeSend(n, t, _) => t in s.calls && s.calls[t].channel == HeldBy(n)
    case Finish(t) => t in s.executing
    case Release(_) => true
  }

  function With(s: State, t: Uuid, c: Call): State {
    s.(calls := s.calls[t := c])
  }

  function To(s: State, t: Uuid, stage: Stage): State
    requires t in s.calls
  {
    With(s, t, s.calls[t].(stage := stage))
  }

  /** Ends a call: its permit, if it holds one, goes back to the semaphore it came from. */
  function Ended(s: State, t: Uuid, stage: Stage): State
    requires t in s.calls
  {
    var c := s.calls[t];
    var s1 := With(s, t, c.(stage := stage, slot := None));
    if c.slot.Some? && c.slot.value < |s.slots.free| then s1.(slots := GivenBack(s.slots, c.slot.value)) else s1
  }

  function Apply(s: State, m: Move): State
    requires Enabled(s, m)
  {
    match m
    case Arrive(t, f) => With(s, t, Call(f, Arrived, None, Unmade))
    case Choose(t) =>
      var slots := Tracked(s.slots, s.max, s.calls[t].flowId);
      To(s, t, Chosen(slots.tracked[s.calls[t].flowId])).(slots := slots)
    case Acquire(t) =>
      var k := s.calls[t].stage.sem;
      if s.slots.free[k] == 0 then To(s, t, Returned(TooMany))
      else With(s, t, s.calls[t].(stage := Reserved, slot := Some(k))).(slots := Taken(s.slots, k))
    case Reject(t) => To(s, t, Leaving(NotRunnable))
    case Register(t) =>
      With(s, t, s.calls[t].(stage := Registered, channel := InMap)).(responders := s.responders + {t})
    case Execute(t, ok) =>
      if ok then To(s, t, Waiting).(executing := s.executing + {t}) else To(s, t, Clearing(ExecutionFailed))
    case Receive(t) =>
      To(s, t, if s.calls[t].channel.Sent? then Leaving(Answered(s.calls[t].channel.body)) else Clearing(NoAnswer))
    case Expire(t) => To(s, t, Expired)
    case Cancel(t) => To(s, t, Clearing(TimedOut)).(cancelled := s.cancelled + {t})
    case Clear(t) =>
      var c := s.calls[t].(stage := Leaving(s.calls[t].stage.reply));
      With(s, t, if t in s.responders then c.(channel := Lost) else c).(responders := s.responders - {t})
    case Return(t) => Ended(s, t, Returned(s.calls[t].stage.reply))
    case Abandon(t) => Ended(s, t, Abandoned)
    case NodeTake(n, t) =>
      if t in s.responders && t in s.calls
      then With(s, t, s.calls[t].(channel := HeldBy(n))).(responders := s.responders - {t})
      else s
    case NodeSend(_, t, body) =>
      if Listening(s.calls[t].stage)
      then With(s, t, s.calls[t].(channel := Sent(body))).(sent := s.sent + [(t, body)])
      else With(s, t, s.calls[t].(channel := Lost))
    case Finish(t) => s.(executing := s.executing - {t})
    case Release(f) => s.(slots := Forgotten(s.slots, f))
  }

  ghost predicate Legal(s: State, moves: seq<Move>)
    decreases |moves|, 0
  {
    moves == [] || (Legal(s, moves[..|moves| - 1]) && Enabled(After(s, moves[..|moves| - 1]), moves[|moves| - 1]))
  }

  ghost function After(s: State, moves: seq<Move>): State
    requires Legal(s, moves)
    decreases |moves|, 1
  {
    if moves == [] then s else Apply(After(s, moves[..|moves| - 1]), moves[|moves| - 1])
  }

  // ---- What every step keeps ----

  /** How the stage of a call agrees with its slot. */
  predicate SlotFits(c: Call, semaphores: nat) {
    && (c.slot.Some? ==> c.slot.value < semaphores)
    && (c.stage.Chosen? ==> c.stage.sem < semaphores)
    && (c.stage.Arrived? || c.stage.Chosen? || Over(c.stage) ==> c.slot.None?)
    && (!(c.stage.Arrived? || c.stage.Chosen? || Over(c.stage)) ==> c.slot.Some?)
  }

  /** How the reply a call settled on agrees with its channel and its execution. */
  predicate ReplyFits(reply: Reply, channel: Channel, cancelled: bool) {
    match reply
    case Answered(body) => channel == Sent(body)
    case NoAnswer => false
    case TimedOut => cancelled && !channel.Sent? && !channel.Unmade?
    case ExecutionFailed => !channel.Unmade?
    case TooMany => channel.Unmade?
    case NotRunnable => channel.Unmade?
  }

  predicate Cleans(reply: Reply) {
    reply.NoAnswer? || reply.TimedOut? || reply.ExecutionFailed?
  }

  predicate ChannelFits(c: Call, cancelled: bool) {
    match c.stage
    case Registered => !c.channel.Unmade? && !c.channel.Lost?
    case Waiting => !c.channel.Unmade? && !c.channel.Lost?
    case Expired => !c.channel.Unmade? && !c.channel.Sent?
    case Clearing(reply) => Cleans(reply) && ReplyFits(reply, c.channel, cancelled)
    case Leaving(reply) => !c.channel.InMap? && ReplyFits(reply, c.channel, cancelled)
    case Returned(reply) => !c.channel.InMap? && ReplyFits(reply, c.channel, cancelled)
    case Abandoned => true
    case _ => c.channel.Unmade?
  }

  predicate MayBeCancelled(stage: Stage) {
    stage == Clearing(TimedOut) || stage == Leaving(TimedOut) || stage == Returned(TimedOut) || stage.Abandoned?
  }

  ghost predicate CallFits(s: State, t: Uuid)
    requires t in s.calls
  {
    var c := s.calls[t];
    && SlotFits(c, |s.slots.free|)
    && ChannelFits(c, t in s.cancelled)
    && (c.channel.InMap? <==> t in s.responders)
    && (forall body :: c.channel == Sent(body) <==> (t, body) in s.sent)
    && (t in s.cancelled ==> MayBeCancelled(c.stage))
  }

  ghost predicate CallsFit(s: State) {
    && (forall t <- s.calls :: CallFits(s, t))
    && s.responders <= s.calls.Keys
    && s.cancelled <= s.calls.Keys
    && (forall x <- s.sent :: x.0 in s.calls)
    && (forall i, j :: 0 <= i < j < |s.sent| ==> s.sent[i].0 != s.sent[j].0)
    && forall f <- s.slots.tracked :: s.slots.tracked[f] < |s.slots.free|
  }

  ghost function Holders(calls: map<Uuid, Call>, k: nat): set<Uuid> {
    set t | t in calls && calls[t].slot == Some(k)
  }

  /** Permits out plus permits free is the limit, for every semaphore ever made. */
  ghost predicate Conserved(s: State) {
    forall k :: 0 <= k < |s.slots.free| ==> s.slots.free[k] + |Holders(s.calls, k)| == s.max
  }

  ghost predicate Inv(s: State) {
    CallsFit(s) && Conserved(s)
  }

  /** The call a move is about. */
  predicate About(m: Move, t: Uuid) {
    !m.Release? && m.t == t
  }

  /** What a move leaves as it was: everything about every other call. */
  ghost predicate OthersKept(s: State, m: Move, s1: State) {
    && s1.max == s.max
    && |s.slots.free| <= |s1.slots.free|
    && (forall t <- s.calls :: t in s1.calls)
    && (forall t <- s1.calls :: t in s.calls || About(m, t))
    && (forall t: Uuid :: !About(m, t) ==>
          && (t in s.calls ==> s1.calls[t] == s.calls[t])
          && (t in s1.responders <==> t in s.responders) && (t in s1.cancelled <==> t in s.cancelled))
    && (s1.sent == s.sent || (m.NodeSend? && s1.sent == s.sent + [(m.t, m.body)]))
  }

  lemma StepKeepsOthers(s: State, m: Move)
    requires Enabled(s, m)
    ensures OthersKept(s, m, Apply(s, m))
  {
  }

  /** A move of the flow a call runs rather than of the call. */
  predicate OfFlow(m: Move) {
    m.NodeTake? || m.NodeSend? || m.Finish?
  }

  lemma FlowMoveFits(s: State, m: Move, t: Uuid)
    requires Enabled(s, m) && OfFlow(m) && About(m, t) && t in s.calls && CallFits(s, t)
    ensures CallFits(Apply(s, m), t)
  {
  }

  lemma CallMoveFits(s: State, m: Move, t: Uuid)
    requires Enabled(s, m) && !OfFlow(m) && About(m, t)
    requires t in s.calls ==> CallFits(s, t)
    requires t !in s.calls ==> t !in s.responders && t !in s.cancelled && forall x <- s.sent :: x.0 != t
    requires forall f <- s.slots.tracked :: s.slots.tracked[f] < |s.slots.free|
    ensures CallFits(Apply(s, m), t)
  {
    CallMoveSlot(s, m, t);
    CallMoveChannel(s, m, t);
    hide Apply, Enabled, SlotFits, ChannelFits;
  }

  lemma CallMoveSlot(s: State, m: Move, t: Uuid)
    requires Enabled(s, m) && !OfFlow(m) && About(m, t)
    requires t in s.calls ==> CallFits(s, t)
    requires forall f <- s.slots.tracked :: s.slots.tracked[f] < |s.slots.free|
    ensures var s1 := Apply(s, m); t in s1.calls && SlotFits(s1.calls[t], |s1.slots.free|)
  {
    hide ChannelFits;
  }

  lemma CallMoveChannel(s: State, m: Move, t: Uuid)
    requires Enabled(s, m) && !OfFlow(m) && About(m, t)
    requires t in s.calls ==> CallFits(s, t)
    requires t !in s.calls ==> t !in s.responders && t !in s.cancelled && forall x <- s.sent :: x.0 != t
    ensures var s1 := Apply(s, m);
            && t in s1.calls && s1.sent == s.sent
            && ChannelFits(s1.calls[t], t in s1.cancelled)
            && (s1.calls[t].channel.InMap? <==> t in s1.responders)
            && (forall body :: s1.calls[t].channel == Sent(body) <==> (t, body) in s1.sent)
            && (t in s1.cancelled ==> MayBeCancelled(s1.calls[t].stage))
  {
    hide SlotFits, Tracked, Taken, GivenBack;
  }

  lemma SubjectFits(s: State, m: Move, t: Uuid)
    requires CallsFit(s) && Enabled(s, m) && About(m, t) && t in Apply(s, m).calls
    ensures CallFits(Apply(s, m), t)
  {
    assert t in s.calls ==> CallFits(s, t);
    if OfFlow(m) {
      FlowMoveFits(s, m, t);
    } else {
      assert forall x <- s.sent :: x.0 == t ==> t in s.calls;
      CallMoveFits(s, m, t);
    }
  }

  lemma TableStep(s: State, m: Move)
    requires CallsFit(s) && Enabled(s, m)
    ensures var s1 := Apply(s, m);
            && s1.responders <= s1.calls.Keys && s1.cancelled <= s1.calls.Keys
            && (forall x <- s1.sent :: x.0 in s1.calls)
            && (forall i, j :: 0 <= i < j < |s1.sent| ==> s1.sent[i].0 != s1.sent[j].0)
            && forall f <- s1.slots.tracked :: s1.slots.tracked[f] < |s1.slots.free|
  {
    if m.NodeSend? {
      assert CallFits(s, m.t);
    }
    hide CallFits;
  }

  lemma CallsFitStep(s: State, m: Move)
    requires CallsFit(s) && Enabled(s, m)
    ensures CallsFit(Apply(s, m))
  {
    StepKeepsOthers(s, m);
    TableStep(s, m);
    var s1 := Apply(s, m);
    hide Apply;
    forall t | t in s1.calls ensures CallFits(s1, t) {
      if About(m, t) {
        SubjectFits(s, m, t);
      } else {
        assert CallFits(s, t);
      }
    }
  }

  /** 1 if call `t` holds a permit of semaphore `k`. */
  function Holds(s: State, t: Uuid, k: nat): nat {
    if t in s.calls && s.calls[t].slot == Some(k) then 1 else 0
  }

  /** A move shifts permits only between a semaphore and the call it is about. */
  lemma PermitsShift(s: State, m: Move, t: Uuid, k: nat)
    requires CallsFit(s) && Enabled(s, m) && k < |Apply(s, m).slots.free| && (m.Release? || About(m, t))
    ensures var s1 := Apply(s, m);
            s1.slots.free[k] + Holds(s1, t, k) ==
                (if k < |s.slots.free| then s.slots.free[k] else s.max) + Holds(s, t, k)
  {
    assert t in s.calls ==> CallFits(s, t);
    hide CallsFit, ChannelFits;
  }

  lemma HoldersShift(s: State, s1: State, t: Uuid, k: nat)
    requires forall u: Uuid :: u != t ==>
               (u in s.calls <==> u in s1.calls) && (u in s.calls ==> s1.calls[u] == s.calls[u])
    ensures |Holders(s1.calls, k)| == |Holders(s.calls, k)| + Holds(s1, t, k) - Holds(s, t, k)
  {
    assert Holders(s.calls, k) - {t} == Holders(s1.calls, k) - {t};
    SizeShift(Holders(s.calls, k), Holders(s1.calls, k), t);
  }

  lemma SizeShift(a: set<Uuid>, b: set<Uuid>, t: Uuid)
    requires a - {t} == b - {t}
    ensures |b| == |a| + (if t in b then 1 else 0) - (if t in a then 1 else 0)
  {
    var rest := a - {t};
    assert a == if t in a then rest + {t} else rest;
    assert b == if t in b then rest + {t} else rest;
  }

  lemma ConservedStep(s: State, m: Move)
    requires Inv(s) && Enabled(s, m)
    ensures Conserved(Apply(s, m))
  {
    var s1 := Apply(s, m);
    StepKeepsOthers(s, m);
    hide Apply, CallFits;
    var t := if m.Release? then 0 else m.t;
    forall k: nat | k < |s1.slots.free| ensures s1.slots.free[k] + |Holders(s1.calls, k)| == s1.max {
      PermitsShift(s, m, t, k);
      SubjectOnly(s, m, s1, t);
      HoldersShift(s, s1, t, k);
      if k >= |s.slots.free| {
        NobodyHolds(s, k);
      }
    }
  }

  lemma SubjectOnly(s: State, m: Move, s1: State, t: Uuid)
    requires OthersKept(s, m, s1) && (m.Release? || About(m, t))
    ensures forall u: Uuid :: u != t ==>
              (u in s.calls <==> u in s1.calls) && (u in s.calls ==> s1.calls[u] == s.calls[u])
  {
  }

  lemma NobodyHolds(s: State, k: nat)
    requires CallsFit(s) && k >= |s.slots.free|
    ensures Holders(s.calls, k) == {}
  {
    forall t | t in s.calls ensures s.calls[t].slot != Some(k) {
      assert CallFits(s, t);
    }
  }

  lemma {:induction false} InvRun(max: nat, moves: seq<Move>)
    requires Legal(Init(max), moves)
    ensures Inv(After(Init(max), moves)) && After(Init(max), moves).max == max
  {
    if moves != [] {
      var s, m := After(Init(max), moves[..|moves| - 1]), moves[|moves| - 1];
      InvRun(max, moves[..|moves| - 1]);
      CallsFitStep(s, m);
      ConservedStep(s, m);
      StepKeepsOthers(s, m);
    }
  }

  // ---- What every run guarantees ----

  /** For every semaphore ever made, tracked or forgotten, the permits held by calls and the free
      ones add up to the limit; so no more calls than that ever hold one. */
  lemma PermitsConserved(max: nat, moves: seq<Move>, k: nat)
    requires Legal(Init(max), moves) && k < |After(Init(max), moves).slots.free|
    ensures var s := After(Init(max), moves);
            s.slots.free[k] + |Holders(s.calls, k)| == max
  {
    InvRun(max, moves);
  }

  /** A call that ran to its return left no responder entry and gave its slot back, and it was
      sent at most one reply by the flow.  It answers with a reply exactly as it was sent; one
      that was sent a reply answers with it unless the execution itself failed; and one that timed
      out had its execution cancelled. */
  lemma ReturnedCallIsClean(max: nat, moves: seq<Move>, t: Uuid)
    requires Legal(Init(max), moves)
    requires var s := After(Init(max), moves); t in s.calls && s.calls[t].stage.Returned?
    ensures var s := After(Init(max), moves);
            var reply := s.calls[t].stage.reply;
            && t !in s.responders && s.calls[t].slot.None?
            && (forall i, j :: 0 <= i < j < |s.sent| ==> !(s.sent[i].0 == t && s.sent[j].0 == t))
            && (forall body :: reply == Answered(body) ==> (t, body) in s.sent)
            && (forall body :: (t, body) in s.sent ==> reply == Answered(body) || reply == ExecutionFailed)
            && (reply.TimedOut? <==> t in s.cancelled)
  {
    InvRun(max, moves);
    assert CallFits(After(Init(max), moves), t);
  }

  /** The responder map holds the entries of calls still under way and of abandoned ones: once no
      call is under way, what is left over belongs to clients that went away. */
  lemma OnlyAbandonedCallsLeak(max: nat, moves: seq<Move>, t: Uuid)
    requires Legal(Init(max), moves) && t in After(Init(max), moves).responders
    ensures var s := After(Init(max), moves);
            && t in s.calls && s.calls[t].channel.InMap?
            && (!Over(s.calls[t].stage) || s.calls[t].stage.Abandoned?)
  {
    InvRun(max, moves);
    assert CallFits(After(Init(max), moves), t);
  }

  lemma AbandonedStep(s: State, m: Move, t: Uuid)
    requires At(s, t, Abandoned) && Enabled(s, m) && (s.calls[t].channel.InMap? <==> t in s.responders)
    ensures var s1 := Apply(s, m);
            && At(s1, t, Abandoned) && (s1.calls[t].channel.InMap? <==> t in s1.responders)
            && (t in s1.responders <==> t in s.responders && !(m.NodeTake? && m.t == t))
  {
  }

  ghost predicate NobodyTakes(moves: seq<Move>, t: Uuid) {
    forall m <- moves :: !(m.NodeTake? && m.t == t)
  }

  /** The entry of an abandoned call is never cleaned up, and none is made for it any more. */
  lemma {:induction false} EntryOfAbandoned(s: State, more: seq<Move>, t: Uuid)
    requires At(s, t, Abandoned) && Legal(s, more) && (s.calls[t].channel.InMap? <==> t in s.responders)
    ensures var s1 := After(s, more);
            && At(s1, t, Abandoned) && (s1.calls[t].channel.InMap? <==> t in s1.responders)
            && (t in s1.responders <==> t in s.responders && NobodyTakes(more, t))
  {
    if more != [] {
      var front, m := more[..|more| - 1], more[|more| - 1];
      EntryOfAbandoned(s, front, t);
      AbandonedStep(After(s, front), m, t);
      hide Apply, Enabled;
      assert more == front + [m];
      assert NobodyTakes(more, t) <==> NobodyTakes(front, t) && !(m.NodeTake? && m.t == t) by {
        assert forall x :: x in more <==> x in front || x == m;
      }
    }
  }

  /** An abandoned call's entry stays through any further run in which no http-out node takes it. */
  lemma AbandonedEntryStays(max: nat, moves: seq<Move>, more: seq<Move>, t: Uuid)
    requires Legal(Init(max), moves) && Legal(After(Init(max), moves), more)
    requires var s := After(Init(max), moves); t in s.responders && At(s, t, Abandoned)
    requires forall m <- more :: !(m.NodeTake? && m.t == t)
    ensures var s := After(After(Init(max), moves), more);
            t in s.responders && At(s, t, Abandoned) && s.calls[t].channel.InMap?
  {
    InvRun(max, moves);
    assert CallFits(After(Init(max), moves), t);
    EntryOfAbandoned(After(Init(max), moves), more, t);
  }

  /** Between registering the responder and removing it or having its reply. */
  predicate Exposed(stage: Stage) {
    stage.Registered? || stage.Waiting? || stage.Expired? || stage.Clearing?
  }

  /** An http-out node took the call's sender, and holds it, used it, or found nobody listening. */
  predicate SenderTaken(channel: Channel) {
    channel.HeldBy? || channel.Sent? || channel.Lost?
  }

  /** Exactly when a client that goes away leaves an entry behind: its call has registered its
      responder and not yet removed it, and no http-out node took the sender.  Exactly then the
      entry is there in a continuation, as long as no node takes it in that. */
  lemma LeavesEntryIff(max: nat, moves: seq<Move>, t: Uuid, more: seq<Move>)
    requires Legal(Init(max), moves) && Enabled(After(Init(max), moves), Abandon(t))
    requires Legal(Apply(After(Init(max), moves), Abandon(t)), more)
    ensures var s := After(Init(max), moves);
            var gone := Apply(s, Abandon(t));
            && (t in gone.responders <==> Exposed(s.calls[t].stage) && !SenderTaken(s.calls[t].channel))
            && (t in After(gone, more).responders <==>
                  Exposed(s.calls[t].stage) && !SenderTaken(s.calls[t].channel) && NobodyTakes(more, t))
  {
    InvRun(max, moves);
    var s := After(Init(max), moves);
    assert CallFits(s, t);
    hide Inv;
    AbandonEffect(s, t);
    EntryOfAbandoned(Apply(s, Abandon(t)), more, t);
    hide Apply, Enabled, Legal, After;
  }

  lemma AbandonEffect(s: State, t: Uuid)
    requires Enabled(s, Abandon(t))
    ensures var s1 := Apply(s, Abandon(t));
            At(s1, t, Abandoned) && s1.calls[t].channel == s.calls[t].channel && s1.responders == s.responders
  {
  }

  /** A sender is taken only by an http-out node that named the call's trace. */
  lemma {:induction false} TakenByNode(max: nat, moves: seq<Move>, t: Uuid)
    requires Legal(Init(max), moves)
    requires var s := After(Init(max), moves);
             t in s.calls && Exposed(s.calls[t].stage) && SenderTaken(s.calls[t].channel)
    ensures !NobodyTakes(moves, t)
  {
    if NobodyTakes(moves, t) {
      SilentFlowTimesOut(max, moves, t);
    }
  }

  // ---- Continuations ----

  lemma {:induction false} Concat(s: State, a: seq<Move>, b: seq<Move>)
    requires Legal(s, a) && Legal(After(s, a), b)
    ensures Legal(s, a + b) && After(s, a + b) == After(After(s, a), b)
    decreases |b|
  {
    hide Enabled, Apply;
    if b == [] {
      assert a + b == a;
    } else {
      Concat(s, a, b[..|b| - 1]);
      assert (a + b)[..|a + b| - 1] == a + b[..|b| - 1];
    }
  }

  /** A move, and a run from where it leads. */
  lemma Cons(s: State, m: Move, rest: seq<Move>)
    requires Enabled(s, m) && Legal(Apply(s, m), rest)
    ensures Legal(s, [m] + rest) && After(s, [m] + rest) == After(Apply(s, m), rest)
  {
    hide Enabled, Apply;
    assert [m][..0] == [];
    assert Legal(s, [m]) && After(s, [m]) == Apply(s, m);
    Concat(s, [m], rest);
  }

  /** The next move of a call that is not over; a waiting call may always let its time run out
      or take what its channel holds. */
  function NextMove(s: State, t: Uuid): Move
    requires t in s.calls && !Over(s.calls[t].stage)
  {
    match s.calls[t].stage
    case Arrived => Choose(t)
    case Chosen(_) => Acquire(t)
    case Reserved => Register(t)
    case Registered => Execute(t, true)
    case Waiting => if s.calls[t].channel.Sent? || s.calls[t].channel.Lost? then Receive(t) else Expire(t)
    case Expired => Cancel(t)
    case Clearing(_) => Clear(t)
    case _ => Return(t)
  }

  /** How many moves of its own a call has at most before it is over. */
  function MovesLeft(stage: Stage): nat {
    match stage
    case Arrived => 9
    case Chosen(_) => 8
    case Reserved => 7
    case Registered => 6
    case Waiting => 5
    case Expired => 4
    case Clearing(_) => 3
    case Leaving(_) => 2
    case Returned(_) => 0
    case Abandoned => 0
  }

  /** A call is never stuck: whatever the others do, it has a move to make. */
  lemma CallsCanMove(max: nat, moves: seq<Move>, t: Uuid)
    requires Legal(Init(max), moves)
    requires var s := After(Init(max), moves); t in s.calls && !Over(s.calls[t].stage)
    ensures var s := After(Init(max), moves);
            var m := NextMove(s, t);
            Enabled(s, m) && About(m, t) && !OfFlow(m)
  {
    InvRun(max, moves);
    assert CallFits(After(Init(max), moves), t);
  }

  /** Its own moves bring the end of a call nearer and nobody else's move puts it off: every call
      is over after at most nine moves of its own. */
  lemma CallsFinish(s: State, m: Move, t: Uuid)
    requires t in s.calls && Enabled(s, m)
    ensures var s1 := Apply(s, m);
            && t in s1.calls
            && (About(m, t) && !OfFlow(m) ==> MovesLeft(s1.calls[t].stage) < MovesLeft(s.calls[t].stage))
            && (!(About(m, t) && !OfFlow(m)) ==> s1.calls[t].stage == s.calls[t].stage)
  {
  }

  // ---- Flows that never answer ----

  ghost predicate Untaken(s: State, t: Uuid) {
    t in s.calls ==>
      && (s.calls[t].channel.Lost? ==> s.calls[t].stage.Leaving? || Over(s.calls[t].stage))
      && !s.calls[t].channel.HeldBy? && !s.calls[t].channel.Sent?
      && (s.calls[t].stage.Clearing? || s.calls[t].stage.Leaving? || s.calls[t].stage.Returned? ==>
            !s.calls[t].stage.reply.Answered? && !s.calls[t].stage.reply.NoAnswer?)
  }

  lemma UntakenStep(s: State, m: Move, t: Uuid)
    requires Untaken(s, t) && Enabled(s, m) && !(m.NodeTake? && m.t == t)
    ensures Untaken(Apply(s, m), t)
  {
  }

  /** No call is ever told that its flow completed without a response: while a call waits, its
      sender is in the map, in the hands of a node about to use it, or used. */
  lemma NoAnswerNeverComes(max: nat, moves: seq<Move>, t: Uuid)
    requires Legal(Init(max), moves) && t in After(Init(max), moves).calls
    ensures var stage := After(Init(max), moves).calls[t].stage;
            stage.Clearing? || stage.Leaving? || stage.Returned? ==> !stage.reply.NoAnswer?
  {
    InvRun(max, moves);
    assert CallFits(After(Init(max), moves), t);
  }

  /** So a flow that ends without an http-out node is not noticed: of a call whose responder no
      node took, the execution failed to start or the time ran out. */
  lemma {:induction false} SilentFlowTimesOut(max: nat, moves: seq<Move>, t: Uuid)
    requires Legal(Init(max), moves)
    requires forall m <- moves :: !(m.NodeTake? && m.t == t)
    ensures var s := After(Init(max), moves);
            && Untaken(s, t)
            && (t in s.calls && s.calls[t].stage.Returned? ==>
                  var reply := s.calls[t].stage.reply;
                  reply.TimedOut? || reply.ExecutionFailed? || reply.TooMany? || reply.NotRunnable?)
  {
    if moves != [] {
      SilentFlowTimesOut(max, moves[..|moves| - 1], t);
      assert moves[|moves| - 1] in moves;
      UntakenStep(After(Init(max), moves[..|moves| - 1]), moves[|moves| - 1], t);
      hide Apply, Enabled;
    }
  }

  // ---- What each reply means ----

  /** A call is turned away exactly when the semaphore it chose has given all its permits to calls;
      otherwise it holds one more. */
  lemma TurnedAwayIff(max: nat, moves: seq<Move>, t: Uuid, k: nat)
    requires Legal(Init(max), moves) && At(After(Init(max), moves), t, Chosen(k))
    ensures Enabled(After(Init(max), moves), Acquire(t))
    ensures var s := After(Init(max), moves);
            var c := Apply(s, Acquire(t)).calls[t];
            && (c.stage == Returned(TooMany) <==> |Holders(s.calls, k)| == max)
            && (c.stage != Returned(TooMany) ==> c.stage == Reserved && c.slot == Some(k))
  {
    InvRun(max, moves);
    assert CallFits(After(Init(max), moves), t);
  }

  /** The reply a call has settled on, if it has. */
  function ReplyOf(stage: Stage): Option<Reply> {
    match stage
    case Clearing(reply) => Some(reply)
    case Leaving(reply) => Some(reply)
    case Returned(reply) => Some(reply)
    case _ => None
  }

  /** A call's reply goes back to the move that settled it, and each such move to its reply. */
  ghost predicate Accounted(moves: seq<Move>, s: State, t: Uuid) {
    if t !in s.calls then
      && Reject(t) !in moves && Execute(t, false) !in moves && Expire(t) !in moves && Receive(t) !in moves
      && Acquire(t) !in moves
    else if s.calls[t].stage.Abandoned? then true
    else
      var stage, reply := s.calls[t].stage, ReplyOf(s.calls[t].stage);
      && (Reject(t) in moves <==> reply == Some(NotRunnable))
      && (Execute(t, false) in moves <==> reply == Some(ExecutionFailed))
      && (Expire(t) in moves <==> stage.Expired? || reply == Some(TimedOut))
      && (Receive(t) in moves <==> reply.Some? && (reply.value.Answered? || reply.value.NoAnswer?))
      && (reply == Some(TooMany) ==> Acquire(t) in moves)
  }

  lemma AccountedStep(moves: seq<Move>, s: State, m: Move, t: Uuid)
    requires Enabled(s, m) && Accounted(moves, s, t)
    ensures Accounted(moves + [m], Apply(s, m), t)
  {
    if !About(m, t) || OfFlow(m) {
      StepKeepsOthers(s, m);
      if t in s.calls {
        CallsFinish(s, m, t);
      }
      hide Apply, Enabled;
      SameStage(moves, s, m, Apply(s, m), t);
    } else {
      OwnStep(moves, s, m, t);
    }
  }

  lemma SameStage(moves: seq<Move>, s: State, m: Move, s1: State, t: Uuid)
    requires Accounted(moves, s, t) && (!About(m, t) || OfFlow(m))
    requires (t in s.calls <==> t in s1.calls) && (t in s.calls ==> s1.calls[t].stage == s.calls[t].stage)
    ensures Accounted(moves + [m], s1, t)
  {
    assert forall x :: x in moves + [m] <==> x in moves || x == m;
  }

  lemma OwnStep(moves: seq<Move>, s: State, m: Move, t: Uuid)
    requires Enabled(s, m) && Accounted(moves, s, t) && About(m, t) && !OfFlow(m)
    ensures Accounted(moves + [m], Apply(s, m), t)
  {
    assert forall x :: x in moves + [m] <==> x in moves || x == m;
    StageStep(s, m, t);
    hide Apply;
  }

  lemma StageStep(s: State, m: Move, t: Uuid)
    requires Enabled(s, m) && About(m, t) && !OfFlow(m)
    ensures t in Apply(s, m).calls
    ensures var stage := Apply(s, m).calls[t].stage;
            match m
            case Arrive(_, _) => stage == Arrived
            case Choose(_) => stage.Chosen?
            case Acquire(_) => stage == Reserved || stage == Returned(TooMany)
            case Reject(_) => stage == Leaving(NotRunnable)
            case Register(_) => stage == Registered
            case Execute(_, ok) => stage == if ok then Waiting else Clearing(ExecutionFailed)
            case Receive(_) => stage == Clearing(NoAnswer) || exists body :: stage == Leaving(Answered(body))
            case Expire(_) => stage == Expired
            case Cancel(_) => stage == Clearing(TimedOut)
            case Clear(_) => stage == Leaving(s.calls[t].stage.reply)
            case Return(_) => stage == Returned(s.calls[t].stage.reply)
            case Abandon(_) => stage == Abandoned
            case _ => true
  {
    hide Tracked, Taken, GivenBack;
  }

  lemma {:induction false} AccountedRun(max: nat, moves: seq<Move>, t: Uuid)
    requires Legal(Init(max), moves)
    ensures Accounted(moves, After(Init(max), moves), t)
  {
    if moves != [] {
      var front, m := moves[..|moves| - 1], moves[|moves| - 1];
      AccountedRun(max, front, t);
      AccountedStep(front, After(Init(max), front), m, t);
      assert moves == front + [m];
      hide Apply, Enabled, Accounted;
    }
  }

  /** What each reply of a call that ran to its return means: its flow could not be run; its execution
      did not start; its time ran out; a reply was received; or else it was turned away. */
  lemma RepliesMean(max: nat, moves: seq<Move>, t: Uuid)
    requires Legal(Init(max), moves)
    requires var s := After(Init(max), moves); t in s.calls && s.calls[t].stage.Returned?
    ensures var reply := After(Init(max), moves).calls[t].stage.reply;
            && (reply == NotRunnable <==> Reject(t) in moves)
            && (reply == ExecutionFailed <==> Execute(t, false) in moves)
            && (reply == TimedOut <==> Expire(t) in moves)
            && (reply.Answered? <==> Receive(t) in moves)
            && (reply == TooMany <==>
                  Reject(t) !in moves && Execute(t, false) !in moves && Expire(t) !in moves && Receive(t) !in moves)
            && (reply == TooMany ==> Acquire(t) in moves)
  {
    AccountedRun(max, moves, t);
    NoAnswerNeverComes(max, moves, t);
    hide Legal, After;
  }

  /** What was sent to a call was sent by an http-out node in these words. */
  ghost predicate SentByNode(moves: seq<Move>, s: State) {
    forall x <- s.sent :: exists n :: NodeSend(n, x.0, x.1) in moves
  }

  lemma {:induction false} SentByNodeRun(max: nat, moves: seq<Move>)
    requires Legal(Init(max), moves)
    ensures SentByNode(moves, After(Init(max), moves))
  {
    if moves != [] {
      var front, m := moves[..|moves| - 1], moves[|moves| - 1];
      SentByNodeRun(max, front);
      StepKeepsOthers(After(Init(max), front), m);
      assert moves == front + [m];
      assert m in moves && forall x <- front :: x in moves;
      hide Apply, Enabled;
      SentLonger(front, moves, After(Init(max), front), m, After(Init(max), moves));
    }
  }

  lemma SentLonger(front: seq<Move>, moves: seq<Move>, s: State, m: Move, s1: State)
    requires SentByNode(front, s) && (forall x <- front :: x in moves) && m in moves
    requires s1.sent == s.sent || (m.NodeSend? && s1.sent == s.sent + [(m.t, m.body)])
    ensures SentByNode(moves, s1)
  {
    forall x | x in s1.sent ensures exists n :: NodeSend(n, x.0, x.1) in moves {
      if x in s.sent {
        var n :| NodeSend(n, x.0, x.1) in front;
        assert NodeSend(n, x.0, x.1) in moves;
      } else {
        assert m == NodeSend(m.node, x.0, x.1);
      }
    }
  }

  /** A call's answer is, word for word, one that an http-out node sent under its trace. */
  lemma AnsweredAsSent(max: nat, moves: seq<Move>, t: Uuid, body: string)
    requires Legal(Init(max), moves) && At(After(Init(max), moves), t, Returned(Answered(body)))
    ensures exists n :: NodeSend(n, t, body) in moves
  {
    ReturnedCallIsClean(max, moves, t);
    SentByNodeRun(max, moves);
    assert (t, body) in After(Init(max), moves).sent;
  }
}
