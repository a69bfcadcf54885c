/** When the template loop ends (function.rs): a placeholder's replacement may hold placeholders
    of its own, so the paths refer to one another, and the loop follows the references. */
module TemplateReferences {
  import opened Digraphs
  import opened Templates

  /** Every opening brace of the text, read from the left, is closed. */
  ghost predicate Closes(s: string)
    decreases |s|
  {
    if Placeholder(s).None? then '{' !in s else Closes(s[Placeholder(s).value.1 + 1..])
  }

  /** The paths that the text put in for `p` refers to. */
  function Refs(d: Input, p: string): seq<string> {
    Paths(Replacement(d, p))
  }

  /** Each path of the chain refers to the next. */
  ghost predicate Chain(d: Input, ps: seq<string>) {
    |ps| > 0 && forall i :: 0 < i < |ps| ==> ps[i] in Refs(d, ps[i - 1])
  }

  ghost predicate ChainFrom(d: Input, paths: seq<string>, ps: seq<string>) {
    Chain(d, ps) && ps[0] in paths
  }

  ghost predicate Repeats(ps: seq<string>) {
    exists i, j :: 0 <= i < j < |ps| && ps[i] == ps[j]
  }

  /** A chain of references from the text's own placeholders comes back to a path. */
  ghost predicate CyclicFrom(d: Input, s: string) {
    exists ps :: ChainFrom(d, Paths(s), ps) && Repeats(ps)
  }

  /** The texts of these paths close every brace they open and refer to these paths only. */
  ghost predicate Settled(d: Input, known: set<string>) {
    forall p <- known :: Closes(Replacement(d, p)) && forall q <- Refs(d, p) :: q in known
  }

  // ---- Texts side by side ----

  lemma {:induction false} FindPrefix(s: string, rest: string, c: char)
    requires Find(s, c).Some?
    ensures Find(s + rest, c) == Find(s, c)
  {
    if s[0] != c {
      assert (s + rest)[1..] == s[1..] + rest;
      FindPrefix(s[1..], rest, c);
    }
  }

  /** What follows a text does not change its first placeholder. */
  lemma TurnBefore(d: Input, s: string, rest: string)
    requires Placeholder(s).Some?
    ensures Placeholder(s + rest) == Placeholder(s) && PathOf(s + rest) == PathOf(s)
    ensures Rewritten(d, s + rest) == Rewritten(d, s) + rest
    ensures Rest(s + rest) == Rest(s) + rest
  {
    PlaceholderBefore(s, rest);
    hide Placeholder;
    var (start, end) := Placeholder(s).value;
    assert (s + rest)[start + 1..end] == s[start + 1..end];
    assert (s + rest)[..start] == s[..start];
    assert (s + rest)[end + 1..] == s[end + 1..] + rest;
  }

  lemma PlaceholderBefore(s: string, rest: string)
    requires Placeholder(s).Some?
    ensures Placeholder(s + rest) == Placeholder(s)
  {
    var start := Placeholder(s).value.0;
    FindPrefix(s, rest, '{');
    assert (s + rest)[start..] == s[start..] + rest;
    FindPrefix(s[start..], rest, '}');
  }

  /** The text behind the first placeholder. */
  function Rest(s: string): (r: string)
    requires Placeholder(s).Some?
    ensures |r| < |s|
  {
    s[Placeholder(s).value.1 + 1..]
  }

  lemma Unfold(s: string)
    ensures Placeholder(s).None? ==> Paths(s) == [] && (Closes(s) <==> '{' !in s)
    ensures Placeholder(s).Some? ==> Paths(s) == [PathOf(s)] + Paths(Rest(s)) && (Closes(s) <==> Closes(Rest(s)))
  {
  }

  lemma PathsShift(done: string, s: string)
    requires '{' !in done
    ensures Paths(done + s) == Paths(s)
    ensures Closes(done + s) <==> Closes(s)
  {
    PlaceholderShift(done, s);
    Unfold(s);
    Unfold(done + s);
    if Placeholder(s).Some? {
      RestShift(done, s);
    }
    hide Paths, Closes, Placeholder, PathOf, Rest;
  }

  lemma RestShift(done: string, s: string)
    requires '{' !in done && Placeholder(s).Some?
    ensures Placeholder(done + s).Some? && Rest(done + s) == Rest(s) && PathOf(done + s) == PathOf(s)
  {
    PlaceholderShift(done, s);
    var (start, end) := Placeholder(s).value;
    hide Placeholder;
    assert (done + s)[|done| + end + 1..] == s[end + 1..];
    assert (done + s)[|done| + start + 1..|done| + end] == s[start + 1..end];
  }

  /** The placeholders of two texts side by side, the first of which closes its braces. */
  lemma {:induction false} PathsConcat(d: Input, s: string, rest: string)
    requires Closes(s)
    ensures Paths(s + rest) == Paths(s) + Paths(rest)
    ensures Closes(rest) ==> Closes(s + rest)
    decreases |s|
  {
    hide *;
    Unfold(s);
    if Placeholder(s).None? {
      PathsShift(s, rest);
      assert [] + Paths(rest) == Paths(rest);
    } else {
      TurnBefore(d, s, rest);
      Unfold(s + rest);
      PathsConcat(d, Rest(s), rest);
      assert [PathOf(s)] + (Paths(Rest(s)) + Paths(rest)) == ([PathOf(s)] + Paths(Rest(s))) + Paths(rest);
    }
  }

  /** A turn replaces the first path by those its text refers to. */
  lemma PathsTurn(d: Input, s: string)
    requires Placeholder(s).Some? && Closes(Replacement(d, PathOf(s)))
    ensures Paths(Rewritten(d, s)) == Refs(d, PathOf(s)) + Paths(Rest(s))
    ensures Closes(s) ==> Closes(Rewritten(d, s))
  {
    Unfold(s);
    var front, t, rest := s[..Placeholder(s).value.0], Replacement(d, PathOf(s)), Rest(s);
    assert Rewritten(d, s) == front + (t + rest);
    hide Paths, Closes, Placeholder, Rewritten, Replacement, PathOf;
    PathsShift(front, t + rest);
    PathsConcat(d, t, rest);
  }

  // ---- The loop on a text is the loop on its parts ----

  lemma {:induction false} StopsShift(d: Input, done: string, s: string, n: nat, r: string)
    requires '{' !in done && StopsWith(d, s, n, r)
    ensures StopsWith(d, done + s, n, done + r)
    decreases n
  {
    hide Placeholder, Rewritten, PathOf;
    PlaceholderShift(done, s);
    if n > 0 {
      RewriteShift(d, done, s);
      StopsShift(d, done, Rewritten(d, s), n - 1, r);
    }
  }

  /** A turn on a text whose paths are known. */
  lemma KnownTurn(d: Input, known: set<string>, s: string)
    requires Settled(d, known) && Placeholder(s).Some? && forall p <- Paths(s) :: p in known
    ensures PathOf(s) in Paths(s) && Closes(Replacement(d, PathOf(s)))
    ensures Paths(Rewritten(d, s)) == Refs(d, PathOf(s)) + Paths(Rest(s))
    ensures Closes(s) ==> Closes(Rewritten(d, s))
    ensures forall p <- Paths(Rewritten(d, s)) :: p in known
    ensures forall p <- Paths(Rest(s)) :: p in Paths(s)
    ensures forall p <- Paths(s) :: p == PathOf(s) || p in Paths(Rest(s))
  {
    Unfold(s);
    hide Placeholder, PathOf, Paths, Closes, Replacement, Rewritten, Refs, Rest;
    PathsTurn(d, s);
  }

  /** The loop first finishes a text that closes its braces, then what stands behind it. */
  lemma {:induction false} OneAfterTheOther(d: Input, known: set<string>, s: string, n: nat, r: string,
      rest: string, m: nat, r': string)
    requires Settled(d, known) && Closes(s) && forall p <- Paths(s) :: p in known
    requires StopsWith(d, s, n, r) && StopsWith(d, r + rest, m, r')
    ensures StopsWith(d, s + rest, n + m, r')
    decreases n
  {
    hide Placeholder, PathOf, Paths, Closes, Settled, Rewritten, Rest;
    if n > 0 {
      KnownTurn(d, known, s);
      TurnBefore(d, s, rest);
      OneAfterTheOther(d, known, Rewritten(d, s), n - 1, r, rest, m, r');
    }
  }

  lemma {:induction false} FinishedHasNoBrace(d: Input, known: set<string>, s: string, n: nat, r: string)
    requires Settled(d, known) && Closes(s) && forall p <- Paths(s) :: p in known
    requires StopsWith(d, s, n, r)
    ensures '{' !in r
    decreases n
  {
    hide Placeholder, PathOf, Paths, Settled, Rewritten, Rest, Closes;
    if n > 0 {
      KnownTurn(d, known, s);
      FinishedHasNoBrace(d, known, Rewritten(d, s), n - 1, r);
    } else {
      Unfold(s);
    }
  }

  // ---- The loop takes as many turns as any chain is long ----

  lemma {:induction false} ChainsBoundedByTurns(d: Input, known: set<string>, s: string, n: nat, r: string,
      ps: seq<string>)
    requires Settled(d, known) && forall p <- Paths(s) :: p in known
    requires StopsWith(d, s, n, r) && ChainFrom(d, Paths(s), ps)
    ensures |ps| <= n
    decreases n
  {
    hide Placeholder, PathOf, Paths, Settled, Rewritten, Rest, Closes, Refs;
    if n == 0 {
      Unfold(s);
    } else {
      KnownTurn(d, known, s);
      if ps[0] in Paths(Rest(s)) {
        ChainsBoundedByTurns(d, known, Rewritten(d, s), n - 1, r, ps);
      } else if |ps| > 1 {
        assert ps[1] in Refs(d, ps[0]);
        ChainTail(d, ps);
        ChainsBoundedByTurns(d, known, Rewritten(d, s), n - 1, r, ps[1..]);
      }
    }
  }

  lemma ChainTail(d: Input, ps: seq<string>)
    requires Chain(d, ps) && |ps| > 1
    ensures Chain(d, ps[1..])
  {
  }

  /** A chain that repeats a path can be made as long as one likes. */
  lemma {:induction false} Pump(d: Input, paths: seq<string>, ps: seq<string>, n: nat) returns (qs: seq<string>)
    requires ChainFrom(d, paths, ps) && Repeats(ps)
    ensures ChainFrom(d, paths, qs) && Repeats(qs) && |qs| > n
    decreases n
  {
    if n == 0 {
      qs := ps;
    } else {
      var shorter := Pump(d, paths, ps, n - 1);
      var i, j :| 0 <= i < j < |shorter| && shorter[i] == shorter[j];
      hide *;
      qs := GoRound(d, paths, shorter, i, j);
    }
  }

  /** The chain that goes round its circle once more. */
  lemma GoRound(d: Input, paths: seq<string>, ps: seq<string>, i: nat, j: nat) returns (qs: seq<string>)
    requires ChainFrom(d, paths, ps) && i < j < |ps| && ps[i] == ps[j]
    ensures ChainFrom(d, paths, qs) && Repeats(qs) && |qs| > |ps|
  {
    hide Refs;
    qs := ps[..j] + ps[i..];
    assert qs[i] == ps[i] && qs[j] == ps[i];
    forall k | 0 < k < |qs| ensures qs[k] in Refs(d, qs[k - 1]) {
      var from := if k <= j then k else i + k - j;
      assert qs[k] == ps[from] && qs[k - 1] == ps[from - 1];
    }
  }

  // ---- Bounded chains make the loop end ----

  ghost predicate ChainsAtMost(d: Input, paths: seq<string>, n: nat) {
    forall ps :: ChainFrom(d, paths, ps) ==> |ps| <= n
  }

  /** One path before a chain of what it refers to. */
  lemma ChainsOfRefs(d: Input, paths: seq<string>, p: string, n: nat)
    requires ChainsAtMost(d, paths, n) && p in paths
    ensures n > 0 && ChainsAtMost(d, Refs(d, p), n - 1)
  {
    hide Refs;
    assert ChainFrom(d, paths, [p]);
    forall ps | ChainFrom(d, Refs(d, p), ps) ensures |ps| <= n - 1 {
      var longer := [p] + ps;
      forall i | 0 < i < |longer| ensures longer[i] in Refs(d, longer[i - 1]) {
        if i > 1 {
          assert longer[i] == ps[i - 1] && longer[i - 1] == ps[i - 2];
        }
      }
      assert ChainFrom(d, paths, longer);
    }
  }

  lemma ChainsOfFewer(d: Input, paths: seq<string>, fewer: seq<string>, n: nat)
    requires ChainsAtMost(d, paths, n) && forall p <- fewer :: p in paths
    ensures ChainsAtMost(d, fewer, n)
  {
    forall ps | ChainFrom(d, fewer, ps) ensures |ps| <= n {
      assert ChainFrom(d, paths, ps);
    }
  }

  lemma {:induction false} BoundedEnds(d: Input, known: set<string>, s: string, bound: nat) returns (n: nat, r: string)
    requires Settled(d, known) && forall p <- Paths(s) :: p in known
    requires ChainsAtMost(d, Paths(s), bound)
    ensures StopsWith(d, s, n, r)
    decreases bound, |s|
  {
    hide *;
    if Placeholder(s).None? {
      StopsAtOnce(d, s);
      n, r := 0, s;
    } else {
      var p := PathOf(s);
      KnownTurn(d, known, s);
      ChainsOfRefs(d, Paths(s), p, bound);
      ChainsOfFewer(d, Paths(s), Paths(Rest(s)), bound);
      RefsKnown(d, known, p);
      var n1, r1 := BoundedEnds(d, known, Replacement(d, p), bound - 1);
      var n2, r2 := BoundedEnds(d, known, Rest(s), bound);
      n, r := JoinParts(d, known, s, n1, r1, n2, r2);
    }
  }

  lemma StopsAtOnce(d: Input, s: string)
    requires Placeholder(s).None?
    ensures StopsWith(d, s, 0, s)
  {
  }

  lemma RefsKnown(d: Input, known: set<string>, p: string)
    requires Settled(d, known) && p in known
    ensures Refs(d, p) == Paths(Replacement(d, p)) && Closes(Replacement(d, p)) && forall q <- Refs(d, p) :: q in known
  {
    hide Paths, Closes, Replacement;
  }

  lemma RewrittenParts(d: Input, s: string)
    requires Placeholder(s).Some?
    ensures Rewritten(d, s) == s[..Placeholder(s).value.0] + (Replacement(d, PathOf(s)) + Rest(s))
    ensures '{' !in s[..Placeholder(s).value.0]
  {
    hide Placeholder, PathOf, Replacement;
  }

  /** A turn, then the loop on the text put in, then on the rest. */
  lemma JoinParts(d: Input, known: set<string>, s: string, n1: nat, r1: string, n2: nat, r2: string)
      returns (n: nat, r: string)
    requires Settled(d, known) && Placeholder(s).Some? && PathOf(s) in known
    requires StopsWith(d, Replacement(d, PathOf(s)), n1, r1) && StopsWith(d, Rest(s), n2, r2)
    ensures StopsWith(d, s, n, r)
  {
    hide *;
    var front, t := s[..Placeholder(s).value.0], Replacement(d, PathOf(s));
    RewrittenParts(d, s);
    RefsKnown(d, known, PathOf(s));
    FinishedHasNoBrace(d, known, t, n1, r1);
    StopsShift(d, r1, Rest(s), n2, r2);
    OneAfterTheOther(d, known, t, n1, r1, Rest(s), n2, r1 + r2);
    StopsShift(d, front, t + Rest(s), n1 + n2, r1 + r2);
    n, r := n1 + n2 + 1, front + (r1 + r2);
    StopsTurn(d, s, n1 + n2, r);
  }

  // ---- The loop ends exactly when no references run in a circle ----

  lemma {:induction false} ChainsAreKnown(d: Input, known: set<string>, ps: seq<string>)
    requires Settled(d, known) && Chain(d, ps) && ps[0] in known
    ensures forall p <- ps :: p in known
  {
    if |ps| > 1 {
      var front, last := ps[..|ps| - 1], ps[|ps| - 1];
      ChainsAreKnown(d, known, front);
      assert front[|front| - 1] in front;
      assert last in Refs(d, front[|front| - 1]);
      assert ps == front + [last];
    }
  }

  lemma NoCircleBounds(d: Input, known: set<string>, s: string)
    requires Settled(d, known) && (forall p <- Paths(s) :: p in known) && !CyclicFrom(d, s)
    ensures ChainsAtMost(d, Paths(s), |known|)
  {
    forall ps | ChainFrom(d, Paths(s), ps) ensures |ps| <= |known| {
      ChainsAreKnown(d, known, ps);
      assert !Repeats(ps);
      if |ps| > |known| {
        var i, j := Pigeonhole(ps, known);
        assert false;
      }
    }
  }

  /** Let the texts that can be put in close every brace they open; an input being finite, they
      refer to finitely many paths.  Then the loop ends on a template, unclosed placeholders and
      all, if and only if no chain of references from its own placeholders runs in a circle. */
  lemma EndsIffNoCircle(d: Input, known: set<string>, s: string)
    requires Settled(d, known) && forall p <- Paths(s) :: p in known
    ensures Stops(d, s) <==> !CyclicFrom(d, s)
  {
    hide Paths, Settled, StopsWith, ChainFrom, Repeats;
    if Stops(d, s) && CyclicFrom(d, s) {
      var n, r :| StopsWith(d, s, n, r);
      var ps :| ChainFrom(d, Paths(s), ps) && Repeats(ps);
      var qs := Pump(d, Paths(s), ps, n);
      ChainsBoundedByTurns(d, known, s, n, r, qs);
      assert false;
    }
    if !CyclicFrom(d, s) {
      NoCircleBounds(d, known, s);
      var n, r := BoundedEnds(d, known, s, |known|);
    }
  }
}
