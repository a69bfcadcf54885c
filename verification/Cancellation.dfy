/** The cancellation handle (CancelHandle in engine.rs): an atomic flag and a notifier that
    wakes only those who registered before the notification.  `cancel` sets the flag and then
    notifies; `cancelled` registers, checks the flag, waits, and checks again.  Any number of
    cancelling and waiting tasks interleave at these atomic steps. */
module Cancellation {
  /** The handle itself.  `notifications` counts the calls that woke the registered waiters. */
  class CancelHandle {
    var flag: bool
    var notifications: nat

    constructor ()
      ensures !flag && notifications == 0
    {
      flag, notifications := false, 0;
    }

    method Cancel()
      modifies this
      ensures flag && notifications == old(notifications) + 1
    {
      flag := true;
      notifications := notifications + 1;
    }

    method IsCancelled() returns (r: bool)
      ensures r == flag
    {
      r := flag;
    }
  }

  /** A task inside `cancelled`; `seen` is the number of notifications when it registered. */
  datatype Waiter = Top | Armed(seen: nat) | Parked(seen: nat) | Woken | Returned

  /** A task inside `cancel`. */
  datatype Canceller = Idle | FlagSet | Done

  datatype State = State(flag: bool, notifications: nat, waiters: map<nat, Waiter>, cancellers: map<nat, Canceller>)

  datatype Move =
    | Register(waiter: nat)
    | Check(waiter: nat)
    | Wake(waiter: nat)
    | Recheck(waiter: nat)
    | SetFlag(canceller: nat)
    | Notify(canceller: nat)

  ghost predicate Init(s: State) {
    && !s.flag
    && (forall w <- s.waiters :: s.waiters[w] == Top)
    && forall c <- s.cancellers :: s.cancellers[c] == Idle
  }

  predicate Enabled(s: State, m: Move) {
    match m
    case Register(w) => w in s.waiters && s.waiters[w].Top?
    case Check(w) => w in s.waiters && s.waiters[w].Armed?
    case Wake(w) => w in s.waiters && s.waiters[w].Parked? && s.waiters[w].seen < s.notifications
    case Recheck(w) => w in s.waiters && s.waiters[w].Woken?
    case SetFlag(c) => c in s.cancellers && s.cancellers[c].Idle?
    case Notify(c) => c in s.cancellers && s.cancellers[c].FlagSet?
  }

  function Apply(s: State, m: Move): State
    requires Enabled(s, m)
  {
    match m
    case Register(w) => s.(waiters := s.waiters[w := Armed(s.notifications)])
    case Check(w) => s.(waiters := s.waiters[w := if s.flag then Returned else Parked(s.waiters[w].seen)])
    case Wake(w) => s.(waiters := s.waiters[w := Woken])
    case Recheck(w) => s.(waiters := s.waiters[w := if s.flag then Returned else Top])
    case SetFlag(c) => s.(flag := true, cancellers := s.cancellers[c := FlagSet])
    case Notify(c) => s.(notifications := s.notifications + 1, cancellers := s.cancellers[c := Done])
  }

  ghost predicate Legal(s: State, moves: seq<Move>)
    decreases |moves|, 0
  {
    moves == [] || (Legal(s, moves[..|moves| - 1]) && Enabled(After(s, moves[..|moves| - 1]), moves[|moves| - 1]))
  }

  ghost function After(s: State, moves: seq<Move>): State
    requires Legal(s, moves)
    decreases |moves|, 1
  {
    if moves == [] then s else Apply(After(s, moves[..|moves| - 1]), moves[|moves| - 1])
  }

  ghost predicate SomeDone(s: State) {
    exists c :: c in s.cancellers && s.cancellers[c].Done?
  }

  /** A parked waiter that no notification reached since it registered parked before the flag
      was set, so whoever set the flag has still to notify. */
  ghost predicate Inv(s: State) {
    && (forall c <- s.cancellers :: !s.cancellers[c].Idle? ==> s.flag)
    && (s.flag ==> exists c <- s.cancellers :: !s.cancellers[c].Idle?)
    && (forall w <- s.waiters :: s.waiters[w].Returned? ==> s.flag)
    && (forall w <- s.waiters :: s.waiters[w].Armed? || s.waiters[w].Parked? ==> s.waiters[w].seen <= s.notifications)
    && forall w <- s.waiters :: s.waiters[w].Parked? && s.waiters[w].seen == s.notifications ==> !SomeDone(s)
  }

  lemma InvStep(s: State, m: Move)
    requires Inv(s) && Enabled(s, m)
    ensures Inv(Apply(s, m))
    ensures SomeDone(s) ==> SomeDone(Apply(s, m))
  {
    var s1 := Apply(s, m);
    if SomeDone(s) {
      var c :| c in s.cancellers && s.cancellers[c].Done?;
      assert c in s1.cancellers && s1.cancellers[c].Done?;
    }
    if m.Notify? {
      assert m.canceller in s1.cancellers && !s1.cancellers[m.canceller].Idle?;
    } else if m.SetFlag? {
      assert m.canceller in s1.cancellers && !s1.cancellers[m.canceller].Idle?;
      assert forall c <- s.cancellers :: s1.cancellers[c].Done? ==> s.cancellers[c].Done?;
    }
  }

  lemma {:induction false} InvRun(s: State, moves: seq<Move>)
    requires Inv(s) && Legal(s, moves)
    ensures Inv(After(s, moves))
    ensures SomeDone(s) ==> SomeDone(After(s, moves))
  {
    if moves != [] {
      InvRun(s, moves[..|moves| - 1]);
      InvStep(After(s, moves[..|moves| - 1]), moves[|moves| - 1]);
    }
  }

  /** No waiter returns before the flag is set. */
  lemma NoneReturnsEarly(s: State, moves: seq<Move>, w: nat)
    requires Init(s) && Legal(s, moves)
    requires w in After(s, moves).waiters && After(s, moves).waiters[w].Returned?
    ensures After(s, moves).flag
  {
    InvRun(s, moves);
  }

  /** The next move of a waiter that has not returned. */
  function NextMove(s: State, w: nat): Move
    requires w in s.waiters && !s.waiters[w].Returned?
  {
    match s.waiters[w]
    case Top => Register(w)
    case Armed(_) => Check(w)
    case Parked(_) => Wake(w)
    case _ => Recheck(w)
  }

  /** No wakeup is lost: in any state reached after some `cancel` completed, a waiter that has
      not returned can move. */
  lemma NoLostWakeup(s: State, moves: seq<Move>, w: nat)
    requires Init(s) && Legal(s, moves)
    requires var s1 := After(s, moves); SomeDone(s1) && w in s1.waiters && !s1.waiters[w].Returned?
    ensures Enabled(After(s, moves), NextMove(After(s, moves), w))
  {
    InvRun(s, moves);
  }

  /** A parked waiter that cannot move while the flag is up is owed a notification: some task is
      between setting the flag and notifying. */
  lemma BlockedMeansNotifyPending(s: State, moves: seq<Move>, w: nat)
    requires Init(s) && Legal(s, moves)
    requires var s1 := After(s, moves);
             s1.flag && w in s1.waiters && !s1.waiters[w].Returned? && !Enabled(s1, NextMove(s1, w))
    ensures exists c :: c in After(s, moves).cancellers && Enabled(After(s, moves), Notify(c))
  {
    InvRun(s, moves);
    var s1 := After(s, moves);
    var c :| c in s1.cancellers && !s1.cancellers[c].Idle?;
    assert s1.cancellers[c].FlagSet?;
    assert Enabled(s1, Notify(c));
  }

  /** How many moves of its own a waiter needs to return once the flag is up. */
  function MovesLeft(v: Waiter): nat {
    match v
    case Top => 2
    case Armed(_) => 1
    case Parked(_) => 2
    case Woken => 1
    case Returned => 0
  }

  predicate MadeBy(m: Move, w: nat) {
    match m
    case Register(v) => v == w
    case Check(v) => v == w
    case Wake(v) => v == w
    case Recheck(v) => v == w
    case _ => false
  }

  function CountBy(moves: seq<Move>, w: nat): nat {
    if moves == [] then 0 else CountBy(moves[..|moves| - 1], w) + if MadeBy(moves[|moves| - 1], w) then 1 else 0
  }

  /** Once the flag is up, every move of a waiter brings its return one nearer and nobody else's
      move pushes it back, so each waiter returns within two moves of its own. */
  lemma {:induction false} WaiterFinishes(s: State, moves: seq<Move>, w: nat)
    requires s.flag && w in s.waiters && Legal(s, moves)
    ensures var s1 := After(s, moves);
            && s1.flag && w in s1.waiters
            && MovesLeft(s1.waiters[w]) + CountBy(moves, w) == MovesLeft(s.waiters[w])
    ensures CountBy(moves, w) <= 2
    ensures CountBy(moves, w) == 2 ==> After(s, moves).waiters[w].Returned?
  {
    if moves != [] {
      WaiterFinishes(s, moves[..|moves| - 1], w);
    }
  }
}
