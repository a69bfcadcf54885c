/** The limit of concurrent calls per flow (hook_limits.rs), over runs of the hook call protocol in
    which flows are also released: exactly when it holds, for calls and for executions. */
module HookBudget {
  import opened Digraphs
  import opened HookLimits
  import opened HookCalls
  import opened Wrappers

  /** The calls of a flow that hold a slot. */
  ghost function Running(s: State, f: Uuid): set<Uuid> {
    set t | t in s.calls && s.calls[t].flowId == f && s.calls[t].slot.Some?
  }

  /** The executions of a flow that have not ended. */
  ghost function Executing(s: State, f: Uuid): set<Uuid> {
    set t | t in s.executing && t in s.calls && s.calls[t].flowId == f
  }

  /** The call holds a permit of semaphore `k`, or has chosen it. */
  predicate Uses(c: Call, k: nat) {
    c.slot == Some(k) || c.stage == Chosen(k)
  }

  /** No call of the flow holds a slot or is about to take one. */
  ghost predicate Idle(s: State, f: Uuid) {
    forall t <- s.calls :: s.calls[t].flowId == f ==> forall k :: !Uses(s.calls[t], k)
  }

  // ---- Semaphores belong to flows ----

  /** All calls of the flow draw on the one semaphore tracked for it. */
  ghost predicate OneSemaphore(s: State, f: Uuid) {
    forall t <- s.calls :: s.calls[t].flowId == f ==>
      forall k :: Uses(s.calls[t], k) ==> f in s.slots.tracked && k == s.slots.tracked[f]
  }

  /** No semaphore is used by calls of two flows, nor tracked for one and used by another. */
  ghost predicate Owned(s: State) {
    && (forall t, u, k :: t in s.calls && u in s.calls && Uses(s.calls[t], k) && Uses(s.calls[u], k) ==>
        s.calls[t].flowId == s.calls[u].flowId)
    && (forall t, f :: t in s.calls && f in s.slots.tracked && Uses(s.calls[t], s.slots.tracked[f]) ==>
        s.calls[t].flowId == f)
    && (forall f, g :: f in s.slots.tracked && g in s.slots.tracked && f != g ==>
        s.slots.tracked[f] != s.slots.tracked[g])
  }

  /** Only calls whose execution was started have one. */
  ghost predicate Started(s: State) {
    forall t <- s.executing :: t in s.calls && !s.calls[t].stage.Arrived? && !s.calls[t].stage.Chosen?
  }

  lemma UsedExists(s: State, t: Uuid, k: nat)
    requires CallsFit(s) && t in s.calls && Uses(s.calls[t], k)
    ensures k < |s.slots.free|
  {
    assert CallFits(s, t);
  }

  /** The semaphores a move makes its call use: its flow's tracked one, if it had used none. */
  lemma UseStep(s: State, m: Move, t: Uuid, k: nat)
    requires CallsFit(s) && Enabled(s, m) && t in Apply(s, m).calls && Uses(Apply(s, m).calls[t], k)
    ensures t in s.calls && Apply(s, m).calls[t].flowId == s.calls[t].flowId
    ensures Uses(s.calls[t], k) || (m == Choose(t) && s.calls[t].flowId in Apply(s, m).slots.tracked
            && Apply(s, m).slots.tracked[s.calls[t].flowId] == k)
  {
    assert t in s.calls ==> CallFits(s, t);
    hide CallsFit, ChannelFits;
  }

  /** How a move changes what is tracked. */
  lemma TrackStep(s: State, m: Move)
    requires Enabled(s, m)
    ensures var s1 := Apply(s, m);
            if m.Release? then s1.slots.tracked == s.slots.tracked - {m.flowId}
            else if m.Choose? && s.calls[m.t].flowId !in s.slots.tracked then
              s1.slots.tracked == s.slots.tracked[s.calls[m.t].flowId := |s.slots.free|]
            else s1.slots.tracked == s.slots.tracked
  {
  }

  lemma OwnedStep(s: State, m: Move)
    requires CallsFit(s) && Owned(s) && Enabled(s, m)
    ensures Owned(Apply(s, m))
  {
    var s1 := Apply(s, m);
    TrackStep(s, m);
    StepKeepsOthers(s, m);
    hide Apply, Enabled, CallFits;
    forall t: Uuid, k: nat | t in s1.calls && Uses(s1.calls[t], k)
      ensures t in s.calls && s1.calls[t].flowId == s.calls[t].flowId
      ensures Uses(s.calls[t], k) || (m == Choose(t) && s.calls[t].flowId in s1.slots.tracked
              && s1.slots.tracked[s.calls[t].flowId] == k)
      ensures Uses(s.calls[t], k) ==> k < |s.slots.free|
    {
      UseStep(s, m, t, k);
      if Uses(s.calls[t], k) {
        UsedExists(s, t, k);
      }
    }
  }

  lemma StartedStep(s: State, m: Move)
    requires Started(s) && Enabled(s, m)
    ensures Started(Apply(s, m))
  {
  }

  ghost predicate Sound(s: State) {
    Inv(s) && Owned(s) && Started(s)
  }

  lemma SoundStep(s: State, m: Move)
    requires Sound(s) && Enabled(s, m)
    ensures Sound(Apply(s, m)) && Apply(s, m).max == s.max
  {
    CallsFitStep(s, m);
    ConservedStep(s, m);
    StepKeepsOthers(s, m);
    OwnedStep(s, m);
    StartedStep(s, m);
    hide Apply, Enabled, Owned, Started, CallsFit, Conserved;
  }

  lemma {:induction false} SoundRun(s: State, moves: seq<Move>)
    requires Sound(s) && Legal(s, moves)
    ensures Sound(After(s, moves)) && After(s, moves).max == s.max
  {
    if moves != [] {
      SoundRun(s, moves[..|moves| - 1]);
      SoundStep(After(s, moves[..|moves| - 1]), moves[|moves| - 1]);
      hide Apply, Enabled, Sound;
    }
  }

  lemma SoundInit(max: nat)
    ensures Sound(Init(max))
  {
  }

  // ---- The bound holds while releases are quiet ----

  lemma OneSemaphoreStep(s: State, m: Move, f: Uuid)
    requires CallsFit(s) && OneSemaphore(s, f) && Enabled(s, m)
    requires m == Release(f) ==> Idle(s, f)
    ensures OneSemaphore(Apply(s, m), f)
  {
    var s1 := Apply(s, m);
    TrackStep(s, m);
    hide Apply, Enabled, CallsFit;
    forall t: Uuid, k: nat | t in s1.calls && s1.calls[t].flowId == f && Uses(s1.calls[t], k)
      ensures f in s1.slots.tracked && k == s1.slots.tracked[f]
    {
      UseStep(s, m, t, k);
    }
  }

  /** With one semaphore its permits bound the calls that hold a slot. */
  lemma OneSemaphoreBounds(s: State, f: Uuid)
    requires Inv(s) && OneSemaphore(s, f)
    ensures |Running(s, f)| <= s.max
  {
    hide CallFits;
    if f in s.slots.tracked {
      var k := s.slots.tracked[f];
      forall t | t in Running(s, f) ensures t in Holders(s.calls, k) {
        assert Uses(s.calls[t], s.calls[t].slot.value);
      }
      SubsetSize(Running(s, f), Holders(s.calls, k));
    } else {
      forall t | t in s.calls && s.calls[t].flowId == f ensures s.calls[t].slot.None? {
        assert s.calls[t].slot.Some? ==> Uses(s.calls[t], s.calls[t].slot.value);
      }
      assert Running(s, f) == {};
    }
  }

  /** Every release of the flow in the run came while none of its calls held or had chosen a semaphore. */
  ghost predicate QuietReleases(s: State, moves: seq<Move>, f: Uuid)
    requires Legal(s, moves)
  {
    moves == [] ||
    (QuietReleases(s, moves[..|moves| - 1], f)
        && (moves[|moves| - 1] == Release(f) ==> Idle(After(s, moves[..|moves| - 1]), f)))
  }

  lemma {:induction false} OneSemaphoreRun(s: State, moves: seq<Move>, f: Uuid)
    requires Sound(s) && OneSemaphore(s, f) && Legal(s, moves) && QuietReleases(s, moves, f)
    ensures OneSemaphore(After(s, moves), f)
  {
    if moves != [] {
      var before, m := moves[..|moves| - 1], moves[|moves| - 1];
      OneSemaphoreRun(s, before, f);
      SoundRun(s, before);
      OneSemaphoreStep(After(s, before), m, f);
      hide Apply, Enabled, OneSemaphore, Idle;
    }
  }

  /** At most `max` calls of a flow hold a slot at once, as long as each release of the flow found
      none of its calls holding a slot or about to take one. */
  lemma FlowBound(max: nat, moves: seq<Move>, f: Uuid)
    requires Legal(Init(max), moves) && QuietReleases(Init(max), moves, f)
    ensures |Running(After(Init(max), moves), f)| <= max
  {
    SoundInit(max);
    SoundRun(Init(max), moves);
    OneSemaphoreRun(Init(max), moves, f);
    OneSemaphoreBounds(After(Init(max), moves), f);
  }

  // ---- Admitting calls ----

  /** How many more calls of the flow would get a slot. */
  function Available(s: State, f: Uuid): nat {
    if f !in s.slots.tracked then s.max
    else if s.slots.tracked[f] < |s.slots.free| then s.slots.free[s.slots.tracked[f]]
    else 0
  }

  lemma {:induction false} Above(used: set<Uuid>) returns (b: Uuid)
    ensures forall u <- used :: u < b
  {
    b := 0;
    if used != {} {
      var u :| u in used;
      var rest := Above(used - {u});
      b := if u < rest then rest else u + 1;
      forall v | v in used ensures v < b {
        assert v == u || v in used - {u};
      }
    }
  }

  /** The call is at a stage, and has run so far without disturbing the counts of its flow. */
  ghost predicate Admitting(s: State, s1: State, f: Uuid, t: Uuid, stage: Stage) {
    var holds := !stage.Arrived? && !stage.Chosen?;
    && At(s1, t, stage) && s1.calls[t].flowId == f && s1.max == s.max
    && t !in Running(s, f) && t !in Executing(s, f)
    && Running(s1, f) == Running(s, f) + (if holds then {t} else {})
    && Executing(s1, f) == Executing(s, f) + (if stage.Waiting? then {t} else {})
    && Available(s1, f) + (if holds then 1 else 0) == Available(s, f)
  }

  /** Only call `t` changes, and its execution is the only one that may start. */
  ghost predicate OnlyCall(s: State, s1: State, t: Uuid) {
    && t in s1.calls && s1.calls == s.calls[t := s1.calls[t]] && s1.max == s.max
    && (s1.executing == s.executing || s1.executing == s.executing + {t})
  }

  lemma CountsShift(s: State, s1: State, f: Uuid, t: Uuid)
    requires OnlyCall(s, s1, t) && s1.calls[t].flowId == f
    requires t in s.calls ==> s.calls[t].flowId == f && (s.calls[t].slot.Some? ==> s1.calls[t].slot.Some?)
    requires t !in s.calls ==> t !in s1.executing
    ensures Running(s1, f) == Running(s, f) + if s1.calls[t].slot.Some? then {t} else {}
    ensures Executing(s1, f) == Executing(s, f) + if t in s1.executing then {t} else {}
  {
  }

  lemma AdmitArrive(s: State, f: Uuid, t: Uuid)
    requires Started(s) && t !in s.calls
    ensures Enabled(s, Arrive(t, f)) && Admitting(s, Apply(s, Arrive(t, f)), f, t, Arrived)
  {
    CountsShift(s, Apply(s, Arrive(t, f)), f, t);
    assert t !in s.executing;
  }

  lemma AdmitChoose(s: State, s1: State, f: Uuid, t: Uuid)
    requires Sound(s1) && Admitting(s, s1, f, t, Arrived) && Available(s, f) > 0
    ensures Enabled(s1, Choose(t))
    ensures var s2 := Apply(s1, Choose(t));
            && t in s2.calls && f in s2.slots.tracked
            && var k := s2.slots.tracked[f];
               k < |s2.slots.free| && s2.slots.free[k] > 0 && Admitting(s, s2, f, t, Chosen(k))
  {
    SoundCall(s1, t);
    CountsShift(s1, Apply(s1, Choose(t)), f, t);
    hide Sound, Running, Executing;
  }

  lemma AdmitAcquire(s: State, s2: State, f: Uuid, t: Uuid)
    requires Sound(s2)
    requires f in s2.slots.tracked && s2.slots.tracked[f] < |s2.slots.free| && s2.slots.free[s2.slots.tracked[f]] > 0
    requires Admitting(s, s2, f, t, Chosen(s2.slots.tracked[f]))
    ensures Enabled(s2, Acquire(t)) && Admitting(s, Apply(s2, Acquire(t)), f, t, Reserved)
  {
    SoundCall(s2, t);
    AcquireEffect(s2, t);
    hide *;
    AcquireCounts(s, s2, Apply(s2, Acquire(t)), f, t, s2.slots.tracked[f]);
  }

  lemma AcquireCounts(s: State, s2: State, s3: State, f: Uuid, t: Uuid, k: nat)
    requires Admitting(s, s2, f, t, Chosen(k)) && f in s2.slots.tracked
             && k == s2.slots.tracked[f] < |s2.slots.free| && s2.slots.free[k] > 0
    requires s3 == s2.(calls := s2.calls[t := s2.calls[t].(stage := Reserved, slot := Some(k))],
                       slots := s2.slots.(free := s2.slots.free[k := s2.slots.free[k] - 1]))
    ensures Admitting(s, s3, f, t, Reserved)
  {
    assert t !in s2.executing by {
      assert t in s2.executing ==> t in Executing(s2, f);
    }
    CountsShift(s2, s3, f, t);
    hide Running, Executing;
  }

  lemma AcquireEffect(s: State, t: Uuid)
    requires t in s.calls && s.calls[t].stage.Chosen? && s.calls[t].stage.sem < |s.slots.free|
             && s.slots.free[s.calls[t].stage.sem] > 0
    ensures Enabled(s, Acquire(t))
    ensures var k := s.calls[t].stage.sem;
            Apply(s, Acquire(t)) ==
            s.(calls := s.calls[t := s.calls[t].(stage := Reserved, slot := Some(k))],
               slots := s.slots.(free := s.slots.free[k := s.slots.free[k] - 1]))
  {
  }

  lemma AdmitRegister(s: State, s3: State, f: Uuid, t: Uuid)
    requires Sound(s3) && Admitting(s, s3, f, t, Reserved)
    ensures Enabled(s3, Register(t)) && Admitting(s, Apply(s3, Register(t)), f, t, Registered)
    ensures t in Apply(s3, Register(t)).responders
  {
    SoundCall(s3, t);
    CountsShift(s3, Apply(s3, Register(t)), f, t);
    hide Sound, Running, Executing;
  }

  lemma AdmitExecute(s: State, s4: State, f: Uuid, t: Uuid)
    requires Sound(s4) && Admitting(s, s4, f, t, Registered)
    ensures Enabled(s4, Execute(t, true)) && Admitting(s, Apply(s4, Execute(t, true)), f, t, Waiting)
    ensures Apply(s4, Execute(t, true)).responders == s4.responders
  {
    SoundCall(s4, t);
    CountsShift(s4, Apply(s4, Execute(t, true)), f, t);
    hide Sound, Running, Executing;
  }

  lemma SoundCall(s: State, t: Uuid)
    requires Sound(s) && t in s.calls
    ensures Started(s) && SlotFits(s.calls[t], |s.slots.free|)
    ensures forall f <- s.slots.tracked :: s.slots.tracked[f] < |s.slots.free|
  {
    assert CallsFit(s) && CallFits(s, t);
  }

  /** A move by which a new call comes in and starts its execution. */
  predicate Entering(m: Move) {
    m.Arrive? || m.Choose? || m.Acquire? || m.Register? || m.Execute?
  }

  predicate Opening(m: Move) {
    !m.Release? && !m.Finish? && !OfFlow(m)
  }

  /** Where a slot is available a new call of the flow can come in and start its execution. */
  lemma AdmitOne(s: State, f: Uuid, t: Uuid) returns (more: seq<Move>)
    requires Sound(s) && Available(s, f) > 0 && t !in s.calls
    ensures Legal(s, more) && forall m <- more :: Entering(m)
    ensures Sound(After(s, more)) && Admitting(s, After(s, more), f, t, Waiting) && t in After(s, more).responders
  {
    hide Admitting, Apply, Enabled, Available, Sound, Running, Executing, Legal, After;
    var s1, s2, s3, s4, s5 := Admitted(s, f, t);
    EmptyRun(s5);
    Cons(s4, Execute(t, true), []);
    Cons(s3, Register(t), [Execute(t, true)] + []);
    Cons(s2, Acquire(t), [Register(t)] + ([Execute(t, true)] + []));
    Cons(s1, Choose(t), [Acquire(t)] + ([Register(t)] + ([Execute(t, true)] + [])));
    Cons(s, Arrive(t, f), [Choose(t)] + ([Acquire(t)] + ([Register(t)] + ([Execute(t, true)] + []))));
    more := [Arrive(t, f)] + ([Choose(t)] + ([Acquire(t)] + ([Register(t)] + ([Execute(t, true)] + []))));
  }

  lemma EmptyRun(s: State)
    ensures Legal(s, []) && After(s, []) == s
  {
  }

  lemma Admitted(s: State, f: Uuid, t: Uuid) returns (s1: State, s2: State, s3: State, s4: State, s5: State)
    requires Sound(s) && Available(s, f) > 0 && t !in s.calls
    ensures Enabled(s, Arrive(t, f)) && s1 == Apply(s, Arrive(t, f))
    ensures Enabled(s1, Choose(t)) && s2 == Apply(s1, Choose(t))
    ensures Enabled(s2, Acquire(t)) && s3 == Apply(s2, Acquire(t))
    ensures Enabled(s3, Register(t)) && s4 == Apply(s3, Register(t))
    ensures Enabled(s4, Execute(t, true)) && s5 == Apply(s4, Execute(t, true))
    ensures Sound(s5) && Admitting(s, s5, f, t, Waiting) && t in s5.responders
  {
    assert Started(s);
    hide Admitting, Apply, Enabled, Available, Sound, Running, Executing, Started;
    AdmitArrive(s, f, t);
    SoundStep(s, Arrive(t, f));
    s1 := Apply(s, Arrive(t, f));
    AdmitChoose(s, s1, f, t);
    SoundStep(s1, Choose(t));
    s2 := Apply(s1, Choose(t));
    AdmitAcquire(s, s2, f, t);
    SoundStep(s2, Acquire(t));
    s3 := Apply(s2, Acquire(t));
    AdmitRegister(s, s3, f, t);
    SoundStep(s3, Register(t));
    s4 := Apply(s3, Register(t));
    AdmitExecute(s, s4, f, t);
    SoundStep(s4, Execute(t, true));
    s5 := Apply(s4, Execute(t, true));
  }

  /** And as many such calls as there are slots. */
  lemma {:induction false} Admit(s: State, f: Uuid, n: nat) returns (more: seq<Move>)
    requires Sound(s) && n <= Available(s, f)
    ensures Legal(s, more) && forall m <- more :: Entering(m)
    ensures var s1 := After(s, more);
            && Sound(s1) && s1.max == s.max
            && |Running(s1, f)| == |Running(s, f)| + n && |Executing(s1, f)| == |Executing(s, f)| + n
    decreases n
  {
    more := [];
    if n > 0 {
      var t := Above(s.calls.Keys);
      var first := AdmitOne(s, f, t);
      AdmittedCounts(s, After(s, first), f, t);
      hide Admitting, Available, Sound;
      var rest := Admit(After(s, first), f, n - 1);
      hide *;
      Concat(s, first, rest);
      more := first + rest;
    }
  }

  lemma AdmittedCounts(s: State, s1: State, f: Uuid, t: Uuid)
    requires Admitting(s, s1, f, t, Waiting)
    ensures |Running(s1, f)| == |Running(s, f)| + 1 && |Executing(s1, f)| == |Executing(s, f)| + 1
    ensures Available(s1, f) + 1 == Available(s, f) && s1.max == s.max
  {
    hide Running, Executing, Available;
  }

  // ---- A release that is not quiet breaks the bound ----

  /** From here on, while the flow is not released again, no more than `max` of its calls ever hold
      a slot at once. */
  ghost predicate BoundedHence(s: State, f: Uuid) {
    forall more :: Legal(s, more) && Release(f) !in more ==> |Running(After(s, more), f)| <= s.max
  }

  lemma {:induction false} NoReleaseIsQuiet(s: State, moves: seq<Move>, f: Uuid)
    requires Legal(s, moves) && Release(f) !in moves
    ensures QuietReleases(s, moves, f)
  {
    if moves != [] {
      NoReleaseIsQuiet(s, moves[..|moves| - 1], f);
    }
  }

  lemma IdleStaysBounded(s: State, f: Uuid)
    requires Sound(s) && Idle(s, f)
    ensures BoundedHence(Apply(s, Release(f)), f)
  {
    var s1 := Apply(s, Release(f));
    SoundStep(s, Release(f));
    assert OneSemaphore(s1, f);
    forall more | Legal(s1, more) && Release(f) !in more ensures |Running(After(s1, more), f)| <= s1.max {
      NoReleaseIsQuiet(s1, more, f);
      OneSemaphoreRun(s1, more, f);
      SoundRun(s1, more);
      OneSemaphoreBounds(After(s1, more), f);
    }
  }

  /** A call that has chosen a semaphore can take a permit of it, or others of its flow hold them all. */
  lemma ChosenOrHeld(s: State, f: Uuid, t: Uuid)
    requires Sound(s) && s.max > 0 && t in s.calls && s.calls[t].flowId == f && s.calls[t].stage.Chosen?
    ensures s.calls[t].stage.sem < |s.slots.free|
    ensures s.slots.free[s.calls[t].stage.sem] == 0 ==> Running(s, f) != {}
  {
    SoundCall(s, t);
    var k := s.calls[t].stage.sem;
    if s.slots.free[k] == 0 {
      assert Conserved(s) && |Holders(s.calls, k)| == s.max;
      var u :| u in Holders(s.calls, k);
      assert Uses(s.calls[u], k) && Uses(s.calls[t], k) && Owned(s);
      assert u in Running(s, f);
    }
  }

  /** A flow that is not idle can be brought to have a call that holds a slot, released or not. */
  lemma SomeRuns(s: State, f: Uuid) returns (more: seq<Move>)
    requires Sound(s) && s.max > 0 && !Idle(s, f)
    ensures Legal(s, more) && forall m <- more :: Opening(m)
    ensures var s1 := After(s, more);
            Sound(s1) && s1.max == s.max && s1.slots.tracked == s.slots.tracked && |Running(s1, f)| > 0
  {
    more := [];
    EmptyRun(s);
    var t, k :| t in s.calls && s.calls[t].flowId == f && Uses(s.calls[t], k);
    if Running(s, f) == {} {
      assert s.calls[t].stage == Chosen(k) by {
        assert t !in Running(s, f);
      }
      ChosenOrHeld(s, f, t);
      AcquireEffect(s, t);
      SoundStep(s, Acquire(t));
      var s1 := Apply(s, Acquire(t));
      assert t in Running(s1, f);
      EmptyRun(s1);
      hide Sound, Apply, Enabled;
      Cons(s, Acquire(t), []);
      more := [Acquire(t)] + [];
    }
  }

  /** After a release that found a call holding or choosing a semaphore, some continuation has more
      than `max` of the flow's calls hold a slot. */
  lemma NoisyReleaseBreaksBound(s: State, f: Uuid) returns (more: seq<Move>)
    requires Sound(s) && s.max > 0 && !Idle(s, f)
    ensures Legal(Apply(s, Release(f)), more) && Release(f) !in more
    ensures |Running(After(Apply(s, Release(f)), more), f)| > s.max
  {
    hide *;
    ReleaseEffect(s, f);
    SoundStep(s, Release(f));
    var s1 := Apply(s, Release(f));
    var first := SomeRuns(s1, f);
    var s2 := After(s1, first);
    UntrackedHasAll(s2, f);
    var rest := Admit(s2, f, s.max);
    Concat(s1, first, rest);
    more := first + rest;
    assert forall m <- more :: m in first || m in rest;
    ReleaseIsNoOpening(f);
  }

  lemma ReleaseEffect(s: State, f: Uuid)
    ensures Enabled(s, Release(f))
    ensures var s1 := Apply(s, Release(f)); f !in s1.slots.tracked && (Idle(s1, f) <==> Idle(s, f))
  {
    hide Uses;
  }

  lemma ReleaseIsNoOpening(f: Uuid)
    ensures !Opening(Release(f)) && !Entering(Release(f))
  {
  }

  lemma UntrackedHasAll(s: State, f: Uuid)
    requires f !in s.slots.tracked
    ensures Available(s, f) == s.max
  {
  }

  /** Exactly: a release keeps the bound if and only if it finds the flow idle. */
  lemma ReleaseKeepsBoundIff(max: nat, moves: seq<Move>, f: Uuid)
    requires Legal(Init(max), moves) && max > 0
    ensures var s := After(Init(max), moves);
            Idle(s, f) <==> BoundedHence(Apply(s, Release(f)), f)
  {
    hide *;
    SoundInit(max);
    SoundRun(Init(max), moves);
    InitMax(max);
    var s := After(Init(max), moves);
    ReleaseEffect(s, f);
    if Idle(s, f) {
      IdleStaysBounded(s, f);
    } else {
      NoisyIsUnbounded(s, f);
    }
  }

  lemma InitMax(max: nat)
    ensures Init(max).max == max
  {
  }

  lemma NoisyIsUnbounded(s: State, f: Uuid)
    requires Sound(s) && s.max > 0 && !Idle(s, f)
    ensures Enabled(s, Release(f)) && !BoundedHence(Apply(s, Release(f)), f)
  {
    var more := NoisyReleaseBreaksBound(s, f);
    assert Apply(s, Release(f)).max == s.max;
    hide Sound, Idle, Running, Apply, Legal, After;
  }

  /** Such a release is reachable, so a run exists in which more than `max` calls hold a slot. */
  lemma BoundBroken(max: nat, f: Uuid) returns (moves: seq<Move>)
    requires max > 0
    ensures Legal(Init(max), moves) && |Running(After(Init(max), moves), f)| > max
  {
    hide *;
    SoundInit(max);
    InitAdmits(max, f);
    var first := AdmitOne(Init(max), f, 0);
    var s := After(Init(max), first);
    AdmittedIsBusy(Init(max), s, f, 0);
    ReleaseEffect(s, f);
    var more := NoisyReleaseBreaksBound(s, f);
    Cons(s, Release(f), more);
    Concat(Init(max), first, [Release(f)] + more);
    moves := first + ([Release(f)] + more);
  }

  lemma InitAdmits(max: nat, f: Uuid)
    ensures Init(max).max == max && Available(Init(max), f) == max && Init(max).calls == map[]
  {
  }

  lemma AdmittedIsBusy(s: State, s1: State, f: Uuid, t: Uuid)
    requires Admitting(s, s1, f, t, Waiting)
    ensures !Idle(s1, f) && s1.max == s.max
  {
    assert t in Running(s1, f);
    assert Uses(s1.calls[t], s1.calls[t].slot.value);
  }

  lemma AbandonKeepsEntry(before: State, s: State, f: Uuid, t: Uuid)
    requires Admitting(before, s, f, t, Waiting)
    ensures Enabled(s, Abandon(t))
    ensures Apply(s, Abandon(t)).responders == s.responders && At(Apply(s, Abandon(t)), t, Abandoned)
  {
    hide Running, Executing, Available;
  }

  /** A client that goes away while its call waits leaves its entry in the responder map. */
  lemma EntryLeaks(max: nat, t: Uuid, f: Uuid) returns (moves: seq<Move>)
    requires max > 0
    ensures Legal(Init(max), moves)
    ensures var s := After(Init(max), moves); t in s.responders && At(s, t, Abandoned)
  {
    SoundInit(max);
    var first := AdmitOne(Init(max), f, t);
    var s := After(Init(max), first);
    AbandonKeepsEntry(Init(max), s, f, t);
    EmptyRun(Apply(s, Abandon(t)));
    hide *;
    Cons(s, Abandon(t), []);
    Concat(Init(max), first, [Abandon(t)] + []);
    moves := first + ([Abandon(t)] + []);
  }
}
