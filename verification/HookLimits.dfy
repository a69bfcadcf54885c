/** Execution slots of public hooks (hook_limits.rs): one counting semaphore per flow, made on
    first use and forgotten when the flow's hooks are retired. */
module HookLimits {
  import opened Digraphs
  import opened Wrappers

  /** The tracked flows, each with the number of its semaphore, and the free permits of every
      semaphore ever made, tracked or forgotten. */
  datatype Slots = Slots(tracked: map<Uuid, nat>, free: seq<nat>)

  /** Looks a flow's semaphore up, making one with `max` permits for a flow that has none. */
  function Tracked(t: Slots, max: nat, flowId: Uuid): Slots {
    if flowId in t.tracked then t else Slots(t.tracked[flowId := |t.free|], t.free + [max])
  }

  function Taken(t: Slots, k: nat): Slots
    requires k < |t.free| && t.free[k] > 0
  {
    t.(free := t.free[k := t.free[k] - 1])
  }

  function GivenBack(t: Slots, k: nat): Slots
    requires k < |t.free|
  {
    t.(free := t.free[k := t.free[k] + 1])
  }

  function Forgotten(t: Slots, flowId: Uuid): Slots {
    t.(tracked := t.tracked - {flowId})
  }

  class Semaphore {
    var permits: nat

    constructor (n: nat)
      ensures permits == n
    {
      permits := n;
    }

    method TryAcquire() returns (ok: bool)
      modifies this
      ensures ok <==> old(permits) > 0
      ensures permits == old(permits) - if ok then 1 else 0
    {
      ok := permits > 0;
      if ok {
        permits := permits - 1;
      }
    }

    /** Dropping a permit gives it back to the semaphore it came from. */
    method Release()
      modifies this
      ensures permits == old(permits) + 1
    {
      permits := permits + 1;
    }
  }

  ghost function FreePermits(made: seq<Semaphore>): (r: seq<nat>)
    reads made
    ensures |r| == |made| && forall i :: 0 <= i < |made| ==> r[i] == made[i].permits
  {
    if made == [] then [] else FreePermits(made[..|made| - 1]) + [made[|made| - 1].permits]
  }

  class HookSlots {
    const maxConcurrency: nat
    var slots: map<Uuid, Semaphore>
    /** Every semaphore made so far, with the number of each tracked flow's. */
    ghost var made: seq<Semaphore>
    ghost var numbers: map<Uuid, nat>

    ghost predicate Valid()
      reads this
    {
      && slots.Keys == numbers.Keys
      && (forall f <- slots :: numbers[f] < |made| && made[numbers[f]] == slots[f])
      && forall i, j :: 0 <= i < j < |made| ==> made[i] != made[j]
    }

    ghost function View(): Slots
      reads this, made
    {
      Slots(numbers, FreePermits(made))
    }

    constructor (max: nat)
      ensures Valid() && View() == Slots(map[], []) && maxConcurrency == max
    {
      maxConcurrency := max;
      slots, made, numbers := map[], [], map[];
    }

    /** The step under the lock: the flow's semaphore, made if there is none. */
    method SemaphoreOf(flowId: Uuid) returns (s: Semaphore)
      requires Valid()
      modifies this
      ensures Valid()
      ensures old(made) <= made && forall m <- made[|old(made)|..] :: fresh(m)
      ensures View() == Tracked(old(View()), maxConcurrency, flowId)
      ensures flowId in numbers && s == made[numbers[flowId]] && (s in old(made) || fresh(s))
    {
      if flowId !in slots {
        s := new Semaphore(maxConcurrency);
        slots := slots[flowId := s];
        numbers := numbers[flowId := |made|];
        made := made + [s];
        assert made[..|made| - 1] == old(made);
      }
      s := slots[flowId];
    }

    /** Reserves a slot: granted exactly when the flow's semaphore has a free permit, and then that
        permit is taken; nothing else changes. */
    method TryAcquire(flowId: Uuid) returns (permit: Option<Semaphore>)
      requires Valid()
      modifies this, made
      ensures Valid() && old(made) <= made
      ensures var t := Tracked(old(View()), maxConcurrency, flowId);
              && flowId in t.tracked && t.tracked[flowId] < |t.free| <= |made|
              && var k := t.tracked[flowId];
                 permit == (if t.free[k] > 0 then Some(made[k]) else None)
                     && View() == (if t.free[k] > 0 then Taken(t, k) else t)
    {
      hide Tracked, FreePermits;
      var s := SemaphoreOf(flowId);
      label found:
      ghost var t := View();
      ghost var k := numbers[flowId];
      assert t.free[k] == s.permits;
      var ok := s.TryAcquire();
      permit := if ok then Some(s) else None;
      assert forall i :: 0 <= i < |made| ==>
          made[i].permits == old@found(made[i].permits) - if ok && i == k then 1 else 0;
      assert View().free == if ok then Taken(t, k).free else t.free;
    }

    /** The permit with number `k` is dropped. */
    method DropPermit(permit: Semaphore, ghost k: nat)
      requires Valid() && k < |made| && permit == made[k]
      modifies permit
      ensures Valid() && View() == GivenBack(old(View()), k)
    {
      permit.Release();
      assert View().free == GivenBack(old(View()), k).free;
    }

    /** Forgets the flow; permits already given out still belong to their semaphore. */
    method Release(flowId: Uuid)
      requires Valid()
      modifies this
      ensures Valid() && made == old(made) && View() == Forgotten(old(View()), flowId)
    {
      slots := slots - {flowId};
      numbers := numbers - {flowId};
    }
  }
}
