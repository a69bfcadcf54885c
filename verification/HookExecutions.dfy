/** The limit of concurrent calls per flow and the executions those calls start, which a call that
    is answered or abandoned leaves behind: exactly when the limit bounds them, too. */
module HookExecutions {
  import opened Digraphs
  import opened HookLimits
  import opened HookCalls
  import opened HookBudget
  import opened Wrappers

  /** The executions of a flow that have outlived their calls. */
  ghost function Outliving(s: State, f: Uuid): set<Uuid> {
    set t | t in Executing(s, f) && Over(s.calls[t].stage)
  }

  /** Every execution of the flow that has not ended belongs to a call that is not over. */
  ghost predicate NoneOutlives(s: State, f: Uuid) {
    forall t <- Executing(s, f) :: !Over(s.calls[t].stage)
  }

  /** While that is so, and releases are quiet, the limit bounds the flow's executions as well. */
  lemma ExecutionBound(max: nat, moves: seq<Move>, f: Uuid)
    requires Legal(Init(max), moves) && QuietReleases(Init(max), moves, f)
    requires NoneOutlives(After(Init(max), moves), f)
    ensures |Executing(After(Init(max), moves), f)| <= max
  {
    SoundInit(max);
    SoundRun(Init(max), moves);
    OneSemaphoreRun(Init(max), moves, f);
    NoneOutlivesBounds(After(Init(max), moves), f);
  }

  lemma NoneOutlivesBounds(s: State, f: Uuid)
    requires Sound(s) && OneSemaphore(s, f) && NoneOutlives(s, f)
    ensures |Executing(s, f)| <= s.max
  {
    OneSemaphoreBounds(s, f);
    hide OneSemaphore;
    forall t | t in Executing(s, f) ensures t in Running(s, f) {
      SoundCall(s, t);
    }
    SubsetSize(Executing(s, f), Running(s, f));
  }

  ghost function Live(s: State, f: Uuid): set<Uuid> {
    set t | t in s.calls && s.calls[t].flowId == f && !Over(s.calls[t].stage)
  }

  lemma AbandonOne(s: State, f: Uuid, t: Uuid)
    requires Sound(s) && t in Live(s, f)
    ensures Enabled(s, Abandon(t))
    ensures var s1 := Apply(s, Abandon(t));
            Sound(s1) && s1.max == s.max && Live(s1, f) == Live(s, f) - {t} && Executing(s1, f) == Executing(s, f)
  {
    SoundStep(s, Abandon(t));
    hide Sound;
  }

  /** All clients of a flow may go away; the executions they started go on. */
  lemma {:induction false} AbandonAll(s: State, f: Uuid) returns (more: seq<Move>)
    requires Sound(s)
    ensures Legal(s, more) && forall m <- more :: Opening(m)
    ensures var s1 := After(s, more);
            Sound(s1) && s1.max == s.max && Live(s1, f) == {} && Executing(s1, f) == Executing(s, f)
    decreases Live(s, f)
  {
    more := [];
    EmptyRun(s);
    if Live(s, f) != {} {
      var t :| t in Live(s, f);
      AbandonOne(s, f, t);
      hide Sound, Live, Executing, Apply, Legal, After;
      var rest := AbandonAll(Apply(s, Abandon(t)), f);
      Cons(s, Abandon(t), rest);
      more := [Abandon(t)] + rest;
    }
  }

  /** A flow none of whose calls is under way has all its slots. */
  lemma AllAvailable(s: State, f: Uuid)
    requires Sound(s) && Live(s, f) == {}
    ensures Available(s, f) == s.max
  {
    if f in s.slots.tracked {
      var k := s.slots.tracked[f];
      SoundParts(s);
      forall t | t in s.calls ensures s.calls[t].slot != Some(k) {
        SoundCall(s, t);
        assert Uses(s.calls[t], k) ==> t !in Live(s, f) && s.calls[t].flowId == f;
      }
      assert Holders(s.calls, k) == {};
    }
  }

  lemma SoundParts(s: State)
    requires Sound(s)
    ensures Conserved(s) && Owned(s)
    ensures forall f <- s.slots.tracked :: s.slots.tracked[f] < |s.slots.free|
  {
    assert CallsFit(s);
  }

  /** But an execution that outlives its call is not counted, and nothing bounds those: from every
      reachable state, with no release at all, the flow can come to have any number of them. */
  lemma {:induction false} ExecutionsUnbounded(s: State, f: Uuid, n: nat) returns (more: seq<Move>)
    requires Sound(s) && s.max > 0
    ensures Legal(s, more) && forall m <- more :: Opening(m)
    ensures Sound(After(s, more)) && After(s, more).max == s.max && |Executing(After(s, more), f)| >= n
    decreases n
  {
    more := [];
    EmptyRun(s);
    if n > 0 {
      hide Sound, Executing, Apply, Legal, After, Running, Available, Live;
      var fewer := ExecutionsUnbounded(s, f, n - 1);
      var s1 := After(s, fewer);
      var leaving := AbandonAll(s1, f);
      var s2 := After(s1, leaving);
      AllAvailable(s2, f);
      var coming := Admit(s2, f, 1);
      Concat(s1, leaving, coming);
      Concat(s, fewer, leaving + coming);
      more := fewer + (leaving + coming);
    }
  }

  // ---- Exactly when the limit bounds executions ----

  /** Along the run no execution of the flow outlives its call except those of `base`. */
  ghost predicate Tame(base: set<Uuid>, s: State, more: seq<Move>, f: Uuid)
    requires Legal(s, more)
  {
    more == [] || (Tame(base, s, more[..|more| - 1], f) && Outliving(After(s, more), f) <= base)
  }

  /** In every continuation with quiet releases in which no further execution outlives its call, at
      most `max` executions of the flow are in progress. */
  ghost predicate ExecutionsBoundedHence(s: State, f: Uuid) {
    forall more :: Legal(s, more) && QuietReleases(s, more, f) && Tame(Outliving(s, f), s, more, f) ==>
      |Executing(After(s, more), f)| <= s.max
  }

  lemma {:induction false} TameConcat(base: set<Uuid>, s: State, a: seq<Move>, b: seq<Move>, f: Uuid)
    requires Legal(s, a) && Legal(After(s, a), b) && Tame(base, s, a, f) && Tame(base, After(s, a), b, f)
    ensures Legal(s, a + b) && Tame(base, s, a + b, f)
    decreases |b|
  {
    Concat(s, a, b);
    if b == [] {
      assert a + b == a;
    } else {
      TameConcat(base, s, a, b[..|b| - 1], f);
      assert (a + b)[..|a + b| - 1] == a + b[..|b| - 1];
      hide Enabled, Apply, Outliving, Legal;
    }
  }

  lemma TameCons(base: set<Uuid>, s: State, m: Move, rest: seq<Move>, f: Uuid)
    requires Enabled(s, m) && Legal(Apply(s, m), rest) && Tame(base, Apply(s, m), rest, f)
    requires Outliving(Apply(s, m), f) <= base
    ensures Legal(s, [m] + rest) && Tame(base, s, [m] + rest, f)
  {
    hide Enabled, Apply, Outliving;
    assert [m][..0] == [];
    assert Legal(s, [m]) && After(s, [m]) == Apply(s, m);
    TameConcat(base, s, [m], rest, f);
  }

  lemma EnteringStep(s: State, m: Move, f: Uuid)
    requires Started(s) && Enabled(s, m) && Entering(m)
    ensures Outliving(Apply(s, m), f) <= Outliving(s, f)
  {
  }

  lemma {:induction false} EnteringIsTame(base: set<Uuid>, s: State, more: seq<Move>, f: Uuid)
    requires Sound(s) && Legal(s, more) && (forall m <- more :: Entering(m)) && Outliving(s, f) <= base
    ensures Tame(base, s, more, f) && Outliving(After(s, more), f) <= base
  {
    if more != [] {
      var front, m := more[..|more| - 1], more[|more| - 1];
      assert m in more;
      EnteringIsTame(base, s, front, f);
      SoundRun(s, front);
      SoundCallless(After(s, front));
      EnteringStep(After(s, front), m, f);
      hide Enabled, Apply, Outliving, Sound, Entering;
    }
  }

  lemma SoundCallless(s: State)
    requires Sound(s)
    ensures Started(s)
  {
  }

  ghost function LiveExecuting(s: State, f: Uuid): set<Uuid> {
    Executing(s, f) * Live(s, f)
  }

  lemma FinishOne(s: State, f: Uuid, t: Uuid)
    requires Sound(s) && t in LiveExecuting(s, f)
    ensures Enabled(s, Finish(t))
    ensures var s1 := Apply(s, Finish(t));
            && Sound(s1) && s1.max == s.max && LiveExecuting(s1, f) == LiveExecuting(s, f) - {t}
            && Outliving(s1, f) == Outliving(s, f)
  {
    SoundStep(s, Finish(t));
    hide Sound;
  }

  /** The executions of the calls under way may all end. */
  lemma {:induction false} FinishLive(s: State, f: Uuid) returns (more: seq<Move>)
    requires Sound(s)
    ensures Legal(s, more) && Release(f) !in more && Tame(Outliving(s, f), s, more, f)
    ensures var s1 := After(s, more);
            Sound(s1) && s1.max == s.max && LiveExecuting(s1, f) == {} && Outliving(s1, f) == Outliving(s, f)
    decreases LiveExecuting(s, f)
  {
    more := [];
    EmptyRun(s);
    if LiveExecuting(s, f) != {} {
      var t :| t in LiveExecuting(s, f);
      FinishOne(s, f, t);
      hide Sound, LiveExecuting, Outliving, Executing, Apply, Legal, After, Enabled, Tame;
      var rest := FinishLive(Apply(s, Finish(t)), f);
      Cons(s, Finish(t), rest);
      TameCons(Outliving(s, f), s, Finish(t), rest, f);
      more := [Finish(t)] + rest;
    }
  }

  lemma AbandonQuietOne(s: State, f: Uuid, t: Uuid)
    requires Sound(s) && LiveExecuting(s, f) == {} && t in Live(s, f)
    ensures Enabled(s, Abandon(t))
    ensures var s1 := Apply(s, Abandon(t));
            && Sound(s1) && s1.max == s.max && LiveExecuting(s1, f) == {} && Live(s1, f) == Live(s, f) - {t}
            && Outliving(s1, f) == Outliving(s, f)
  {
    assert t in Executing(s, f) ==> t in LiveExecuting(s, f);
    AbandonOne(s, f, t);
    AbandonStages(s, f, t);
    hide Sound, Apply, Enabled;
  }

  lemma AbandonStages(s: State, f: Uuid, t: Uuid)
    requires t in Live(s, f) && t !in Executing(s, f)
    ensures Enabled(s, Abandon(t)) && Outliving(Apply(s, Abandon(t)), f) == Outliving(s, f)
  {
  }

  /** Clients whose executions have ended may all go away, and no execution outlives a call by that. */
  lemma {:induction false} AbandonQuiet(s: State, f: Uuid) returns (more: seq<Move>)
    requires Sound(s) && LiveExecuting(s, f) == {}
    ensures Legal(s, more) && Release(f) !in more && Tame(Outliving(s, f), s, more, f)
    ensures var s1 := After(s, more);
            Sound(s1) && s1.max == s.max && Live(s1, f) == {} && Outliving(s1, f) == Outliving(s, f)
    decreases Live(s, f)
  {
    more := [];
    EmptyRun(s);
    if Live(s, f) != {} {
      var t :| t in Live(s, f);
      AbandonQuietOne(s, f, t);
      hide Sound, LiveExecuting, Live, Outliving, Executing, Apply, Legal, After, Enabled, Tame;
      var rest := AbandonQuiet(Apply(s, Abandon(t)), f);
      Cons(s, Abandon(t), rest);
      TameCons(Outliving(s, f), s, Abandon(t), rest, f);
      more := [Abandon(t)] + rest;
    }
  }

  lemma OutlivingExecute(s: State, f: Uuid)
    ensures Outliving(s, f) <= Executing(s, f)
    ensures NoneOutlives(s, f) <==> Outliving(s, f) == {}
  {
    forall t | t in Executing(s, f) ensures t in Outliving(s, f) <==> Over(s.calls[t].stage) {
    }
  }

  /** One execution that has outlived its call is one too many: the calls under way can end and as
      many as the limit allows can come in, without any further execution outliving its call. */
  lemma OutlivingBreaksBound(s: State, f: Uuid) returns (more: seq<Move>)
    requires Sound(s) && s.max > 0 && !NoneOutlives(s, f)
    ensures Legal(s, more) && QuietReleases(s, more, f) && Tame(Outliving(s, f), s, more, f)
    ensures |Executing(After(s, more), f)| > s.max
  {
    hide *;
    var ending := FinishLive(s, f);
    var s1 := After(s, ending);
    var leaving := AbandonQuiet(s1, f);
    var s2 := After(s1, leaving);
    AllAvailable(s2, f);
    var coming := Admit(s2, f, s.max);
    EnteringIsTame(Outliving(s, f), s2, coming, f);
    Concat(s1, leaving, coming);
    TameConcat(Outliving(s, f), s1, leaving, coming, f);
    Concat(s, ending, leaving + coming);
    TameConcat(Outliving(s, f), s, ending, leaving + coming, f);
    more := ending + (leaving + coming);
    ReleaseIsNoOpening(f);
    assert forall m :: m in more <==> m in ending || m in leaving || m in coming;
    NoReleaseIsQuiet(s, more, f);
    OutlivingExecute(s, f);
    OutlivingExecute(s2, f);
    assert Outliving(s2, f) != {} && Executing(s2, f) != {};
  }

  /** The limit bounds the executions of a flow, in all continuations with quiet releases in which
      none outlives its call from now on, if and only if none has outlived its call yet. */
  lemma ExecutionsBoundedIff(max: nat, moves: seq<Move>, f: Uuid)
    requires Legal(Init(max), moves) && QuietReleases(Init(max), moves, f) && max > 0
    ensures NoneOutlives(After(Init(max), moves), f) <==> ExecutionsBoundedHence(After(Init(max), moves), f)
  {
    SoundInit(max);
    SoundRun(Init(max), moves);
    OneSemaphoreRun(Init(max), moves, f);
    InitMax(max);
    var s := After(Init(max), moves);
    hide Sound, OneSemaphore, NoneOutlives, Executing, Outliving;
    if NoneOutlives(s, f) {
      forall more | Legal(s, more) && QuietReleases(s, more, f) && Tame(Outliving(s, f), s, more, f)
        ensures |Executing(After(s, more), f)| <= s.max
      {
        SoundRun(s, more);
        OneSemaphoreRun(s, more, f);
        OutlivingExecute(s, f);
        OutlivingExecute(After(s, more), f);
        NoneOutlivesBounds(After(s, more), f);
      }
    } else {
      var more := OutlivingBreaksBound(s, f);
    }
  }
}
