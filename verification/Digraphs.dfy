/** Directed graphs as sets of nodes and arcs: walks, cycles, and the rounds in
    which Kahn's algorithm clears a graph.  Everything the engine promises about
    cycles, orders and layers is stated here, independently of any queue. */
module Digraphs {
  /** UUIDs serve as identities only. */
  type Uuid = nat

  datatype Digraph = Digraph(nodes: set<Uuid>, arcs: set<(Uuid, Uuid)>)

  /** Every arc joins two nodes of the graph. */
  ghost predicate Closed(d: Digraph) {
    forall a <- d.arcs :: a.0 in d.nodes && a.1 in d.nodes
  }

  /** A walk is a nonempty list of nodes, each joined to the next; it has |p| - 1 arcs. */
  ghost predicate Walk(d: Digraph, p: seq<Uuid>) {
    && |p| > 0
    && forall i :: 0 < i < |p| ==> (p[i - 1], p[i]) in d.arcs
  }

  ghost predicate WalkTo(d: Digraph, p: seq<Uuid>, v: Uuid) {
    Walk(d, p) && p[|p| - 1] == v
  }

  ghost predicate Cycle(d: Digraph, p: seq<Uuid>) {
    Walk(d, p) && |p| > 1 && p[0] == p[|p| - 1]
  }

  ghost predicate Cyclic(d: Digraph) {
    exists p :: Cycle(d, p)
  }

  function Sources(d: Digraph, v: Uuid): set<Uuid> {
    set a | a in d.arcs && a.1 == v :: a.0
  }

  /** The nodes cleared after `k` rounds, when each round clears every node all of
      whose sources are already cleared. */
  ghost function Peel(d: Digraph, k: nat): (r: set<Uuid>)
    ensures r <= d.nodes
  {
    if k == 0 then {} else set v | v in d.nodes && Sources(d, v) <= Peel(d, k - 1)
  }

  /** The nodes that some number of rounds clears. */
  ghost function Drained(d: Digraph): (r: set<Uuid>)
    ensures r <= d.nodes
  {
    Peel(d, |d.nodes|)
  }

  lemma {:induction false} PeelMonotone(d: Digraph, j: nat, k: nat)
    requires j <= k
    ensures Peel(d, j) <= Peel(d, k)
  {
    if j > 0 {
      PeelMonotone(d, j - 1, k - 1);
    }
  }

  lemma SubsetSize<T>(a: set<T>, b: set<T>)
    requires a <= b
    ensures |a| <= |b|
    ensures |a| == |b| ==> a == b
  {
    assert b == a + (b - a);
  }

  lemma {:induction false} PeelGrows(d: Digraph, k: nat)
    ensures Peel(d, k) == Peel(d, k + 1) || |Peel(d, k + 1)| > k
  {
    PeelMonotone(d, k, k + 1);
    if k > 0 && Peel(d, k) != Peel(d, k + 1) {
      PeelGrows(d, k - 1);
      SubsetSize(Peel(d, k), Peel(d, k + 1));
    } else if Peel(d, k) != Peel(d, k + 1) {
      SubsetSize({}, Peel(d, 1));
    }
  }

  lemma {:induction false} PeelStable(d: Digraph, k: nat)
    requires k >= |d.nodes|
    ensures Peel(d, k) == Drained(d) == Peel(d, k + 1)
  {
    if k == |d.nodes| {
      PeelGrows(d, k);
      SubsetSize(Peel(d, k + 1), d.nodes);
    } else {
      PeelStable(d, k - 1);
    }
  }

  lemma PeelWithinDrained(d: Digraph, k: nat)
    ensures Peel(d, k) <= Drained(d)
  {
    if k <= |d.nodes| {
      PeelMonotone(d, k, |d.nodes|);
    } else {
      PeelStable(d, k);
    }
  }

  /** Clearing one more node whose sources are all drained stays within the drained set. */
  lemma DrainedStep(d: Digraph, v: Uuid)
    requires v in d.nodes && Sources(d, v) <= Drained(d)
    ensures v in Drained(d)
  {
    PeelStable(d, |d.nodes|);
  }

  /** A set closed under clearing contains everything drained. */
  lemma {:induction false} ClosedSetContainsPeel(d: Digraph, s: set<Uuid>, k: nat)
    requires forall v <- d.nodes :: Sources(d, v) <= s ==> v in s
    ensures Peel(d, k) <= s
  {
    if k > 0 {
      ClosedSetContainsPeel(d, s, k - 1);
    }
  }

  /** A node outside round `k` has a walk of `k` arcs behind it. */
  lemma {:induction false} LongWalk(d: Digraph, k: nat, v: Uuid) returns (p: seq<Uuid>)
    requires Closed(d)
    requires v in d.nodes && v !in Peel(d, k)
    ensures WalkTo(d, p, v) && |p| == k + 1
    ensures forall u <- p :: u in d.nodes
  {
    if k == 0 {
      p := [v];
    } else {
      var u :| u in Sources(d, v) && u !in Peel(d, k - 1);
      var q := LongWalk(d, k - 1, u);
      p := q + [v];
    }
  }

  lemma {:induction false} PeelBoundsWalks(d: Digraph, k: nat, v: Uuid, p: seq<Uuid>)
    requires v in Peel(d, k) && WalkTo(d, p, v)
    ensures |p| <= k
  {
    if |p| > 1 {
      var q := p[..|p| - 1];
      assert (p[|p| - 2], v) in d.arcs;
      assert p[|p| - 2] in Sources(d, v);
      PeelBoundsWalks(d, k - 1, p[|p| - 2], q);
    }
  }

  /** A node is cleared within `k` rounds exactly when every walk ending at it has
      fewer than `k` arcs. */
  lemma PeelIffShortWalks(d: Digraph, k: nat, v: Uuid)
    requires Closed(d) && v in d.nodes
    ensures v in Peel(d, k) <==> forall p :: WalkTo(d, p, v) ==> |p| <= k
  {
    if v in Peel(d, k) {
      forall p | WalkTo(d, p, v) ensures |p| <= k {
        PeelBoundsWalks(d, k, v, p);
      }
    } else {
      var p := LongWalk(d, k, v);
      assert WalkTo(d, p, v);
    }
  }

  lemma {:induction false} CycleNeverPeeled(d: Digraph, p: seq<Uuid>, i: nat, k: nat)
    requires Cycle(d, p) && i < |p|
    ensures p[i] !in Peel(d, k)
    decreases k
  {
    if k > 0 {
      var j := if i == 0 then |p| - 2 else i - 1;
      CycleNeverPeeled(d, p, j, k - 1);
      assert (p[j], p[j + 1]) in d.arcs;
      assert p[j] in Sources(d, p[i]);
    }
  }

  lemma {:induction false} Pigeonhole<T>(p: seq<T>, s: set<T>) returns (i: nat, j: nat)
    requires forall u <- p :: u in s
    requires |p| > |s|
    ensures i < j < |p| && p[i] == p[j]
    decreases |p|
  {
    var last := p[|p| - 1];
    var front := p[..|p| - 1];
    if last in front {
      i :| 0 <= i < |front| && front[i] == last;
      j := |p| - 1;
    } else {
      assert forall u <- front :: u in p;
      i, j := Pigeonhole(front, s - {last});
    }
  }

  /** Rounds clear the whole of a closed graph exactly when it has no cycle. */
  lemma DrainedIffAcyclic(d: Digraph)
    requires Closed(d)
    ensures Drained(d) == d.nodes <==> !Cyclic(d)
  {
    if Drained(d) == d.nodes && Cyclic(d) {
      var p :| Cycle(d, p);
      assert (p[0], p[1]) in d.arcs;
      CycleNeverPeeled(d, p, 0, |d.nodes|);
      assert false;
    }
    if Drained(d) != d.nodes {
      var v :| v in d.nodes && v !in Drained(d);
      var p := LongWalk(d, |d.nodes|, v);
      var i, j := Pigeonhole(p, d.nodes);
      assert Cycle(d, p[i..j + 1]);
    }
  }
}
