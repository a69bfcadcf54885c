/** Templates of the function node (function.rs): placeholders in a JSON template are replaced
    from the input, in strings by a loop that rescans its own output. */
module Templates {
  import opened Texts
  import opened Wrappers

  datatype Json =
    | Null
    | Bool(b: bool)
    | Number(digits: string)
    | Text(s: string)
    | Array(items: seq<Json>)
    | Object(fields: seq<(string, Json)>)

  /** The input as the template sees it, and the JSON library: the value at a path, the text of a
      value, and what a text parses to. */
  datatype Input = Input(lookup: string -> Json, render: Json -> string, parse: string -> Option<Json>)

  /** The first occurrence of a character. */
  function Find(s: string, c: char): (r: Option<nat>)
    ensures r.None? ==> c !in s
    ensures r.Some? ==> r.value < |s| && s[r.value] == c && c !in s[..r.value]
  {
    if s == [] then None
    else if s[0] == c then Some(0)
    else
      var r := Find(s[1..], c);
      if r.None? then None
      else
        assert s[..r.value + 1] == [s[0]] + s[1..][..r.value];
        Some(r.value + 1)
  }

  /** The text a placeholder is replaced with. */
  function Replacement(d: Input, path: string): string {
    match d.lookup(path)
    case Text(s) => s
    case Null => "null"
    case other => d.render(other)
  }

  /** The first placeholder: from the first opening brace to the first closing brace after it. */
  function Placeholder(s: string): (r: Option<(nat, nat)>)
    ensures r.Some? ==>
              r.value.0 < r.value.1 < |s| && s[r.value.0] == '{' && s[r.value.1] == '}' && '{' !in s[..r.value.0]
    ensures r.None? ==> '{' !in s || Find(s[Find(s, '{').value..], '}').None?
  {
    match Find(s, '{')
    case None => None
    case Some(start) =>
      match Find(s[start..], '}')
      case None => None
      case Some(i) => Some((start, start + i))
  }

  function PathOf(s: string): string
    requires Placeholder(s).Some?
  {
    s[Placeholder(s).value.0 + 1..Placeholder(s).value.1]
  }

  /** One turn of the loop. */
  function Rewritten(d: Input, s: string): string
    requires Placeholder(s).Some?
  {
    s[..Placeholder(s).value.0] + Replacement(d, PathOf(s)) + s[Placeholder(s).value.1 + 1..]
  }

  /** The loop stops after `n` turns, with `r`. */
  ghost predicate StopsWith(d: Input, s: string, n: nat, r: string)
    decreases n
  {
    if n == 0 then Placeholder(s).None? && r == s
    else Placeholder(s).Some? && StopsWith(d, Rewritten(d, s), n - 1, r)
  }

  ghost predicate Stops(d: Input, s: string) {
    exists n, r :: StopsWith(d, s, n, r)
  }

  lemma {:induction false} StopsOnce(d: Input, s: string, n: nat, r: string, n': nat, r': string)
    requires StopsWith(d, s, n, r) && StopsWith(d, s, n', r')
    ensures n == n' && r == r'
    decreases n
  {
    hide Rewritten, Placeholder;
    if n > 0 && n' > 0 {
      StopsOnce(d, Rewritten(d, s), n - 1, r, n' - 1, r');
    }
  }

  ghost function Result(d: Input, s: string): (r: string)
    requires Stops(d, s)
    ensures exists n :: StopsWith(d, s, n, r)
  {
    var r :| exists n :: StopsWith(d, s, n, r);
    r
  }

  lemma TurnLeft(d: Input, s: string, n: nat, r: string)
    requires StopsWith(d, s, n, r)
    ensures if Placeholder(s).Some? then n > 0 && StopsWith(d, Rewritten(d, s), n - 1, r) else r == s
  {
    hide Rewritten, Placeholder;
  }

  lemma ResultIs(d: Input, s: string, n: nat, r: string)
    requires StopsWith(d, s, n, r)
    ensures Stops(d, s) && Result(d, s) == r
  {
    hide StopsWith;
    var n' :| StopsWith(d, s, n', Result(d, s));
    StopsOnce(d, s, n, r, n', Result(d, s));
  }

  /** The rescanning loop, on every text on which it ends at all. */
  method Substitute(d: Input, s: string) returns (result: string)
    requires Stops(d, s)
    ensures result == Result(d, s)
  {
    hide StopsWith, Placeholder, Result, Stops;
    ghost var n, r := Turns(d, s);
    result := s;
    var placeholder := Placeholder(result);
    while placeholder.Some?
      invariant placeholder == Placeholder(result)
      invariant StopsWith(d, result, n, r)
      decreases n
    {
      TurnLeft(d, result, n, r);
      var (start, end) := placeholder.value;
      result := result[..start] + Replacement(d, result[start + 1..end]) + result[end + 1..];
      placeholder := Placeholder(result);
      n := n - 1;
    }
    TurnLeft(d, result, n, r);
  }

  lemma Turns(d: Input, s: string) returns (n: nat, r: string)
    requires Stops(d, s)
    ensures StopsWith(d, s, n, r) && r == Result(d, s)
  {
    hide StopsWith;
    n, r :| StopsWith(d, s, n, r);
    ResultIs(d, s, n, r);
  }

  // ---- One left-to-right pass ----

  /** The template with each placeholder replaced once, from left to right; replaced text is not
      looked at again, and a placeholder that is never closed stays. */
  function OnePass(d: Input, s: string): string
    decreases |s|
  {
    if Placeholder(s).None? then s
    else
      var (start, end) := Placeholder(s).value;
      s[..start] + Replacement(d, PathOf(s)) + OnePass(d, s[end + 1..])
  }

  /** The paths that pass looks up, in order. */
  function Paths(s: string): seq<string>
    decreases |s|
  {
    if Placeholder(s).None? then []
    else [PathOf(s)] + Paths(s[Placeholder(s).value.1 + 1..])
  }

  function Braces(s: string): nat {
    if s == [] then 0 else (if s[0] == '{' then 1 else 0) + Braces(s[1..])
  }

  lemma {:induction false} BracesSum(s: string, t: string)
    ensures Braces(s + t) == Braces(s) + Braces(t)
    ensures '{' !in s <==> Braces(s) == 0
  {
    if s == [] {
      assert s + t == t;
    } else {
      assert (s + t)[1..] == s[1..] + t;
      BracesSum(s[1..], t);
    }
  }

  /** Every turn with a replacement free of opening braces takes at least one away, so however the
      rest of the text looks the loop ends within as many turns as there are opening braces. */
  lemma TurnTakesBraces(d: Input, s: string)
    requires Placeholder(s).Some? && '{' !in Replacement(d, PathOf(s))
    ensures Braces(Rewritten(d, s)) < Braces(s)
  {
    var (start, end) := Placeholder(s).value;
    var t := Replacement(d, PathOf(s));
    BracesSum(s[..start] + t, s[end + 1..]);
    BracesSum(s[..start], t);
    BracesSum(t, []);
    assert s == s[..start] + s[start..end + 1] + s[end + 1..];
    BracesSum(s[..start] + s[start..end + 1], s[end + 1..]);
    BracesSum(s[..start], s[start..end + 1]);
    assert s[start..end + 1][0] == '{';
    BracesSum(s[start..end + 1], []);
  }

  /** No text put in by the pass can be taken for the start of a placeholder: after an opening
      brace in it no closing brace follows, in that text or in the rest of the template. */
  ghost predicate Harmless(d: Input, s: string)
    decreases |s|
  {
    Placeholder(s).Some? ==>
      var rest := s[Placeholder(s).value.1 + 1..];
      Placeholder(Replacement(d, PathOf(s)) + rest).Some? ==> '{' !in Replacement(d, PathOf(s)) && Harmless(d, rest)
  }

  lemma PairMeansPlaceholder(s: string, i: nat, j: nat)
    requires i < j < |s| && s[i] == '{' && s[j] == '}'
    ensures Placeholder(s).Some?
  {
    var start := Find(s, '{').value;
    assert forall k :: 0 <= k < start ==> s[..start][k] == s[k];
    assert s[start..][j - start] == s[j];
  }

  /** A text has a placeholder exactly when a closing brace stands somewhere behind an opening one,
      and it is the one from the first opening brace to the first closing brace behind that. */
  lemma PlaceholderIsFirst(s: string)
    ensures Placeholder(s).Some? <==> exists i, j :: 0 <= i < j < |s| && s[i] == '{' && s[j] == '}'
    ensures Placeholder(s).Some? ==>
              var (start, end) := Placeholder(s).value;
              s[start] == '{' && s[end] == '}' && '{' !in s[..start] && '}' !in s[start..end]
  {
    if i, j :| 0 <= i < j < |s| && s[i] == '{' && s[j] == '}' {
      PairMeansPlaceholder(s, i, j);
    }
    if Placeholder(s).Some? {
      var (start, end) := Placeholder(s).value;
      assert s[start..end] == s[start..][..end - start];
    }
  }

  lemma PlaceholderInSuffix(t: string, s: string)
    ensures Placeholder(s).Some? ==> Placeholder(t + s).Some?
  {
    if Placeholder(s).Some? {
      var (start, end) := Placeholder(s).value;
      assert (t + s)[|t| + start] == s[start] && (t + s)[|t| + end] == s[end];
      PairMeansPlaceholder(t + s, |t| + start, |t| + end);
    }
  }

  lemma {:induction false} FindShift(done: string, s: string, c: char)
    requires c !in done
    ensures Find(done + s, c) == (if Find(s, c).None? then None else Some(|done| + Find(s, c).value))
  {
    if done == [] {
      assert done + s == s;
    } else {
      assert (done + s)[1..] == done[1..] + s;
      FindShift(done[1..], s, c);
    }
  }

  /** Text without an opening brace in front of a text does not change its first placeholder. */
  lemma PlaceholderShift(done: string, s: string)
    requires '{' !in done
    ensures Placeholder(done + s) ==
            if Placeholder(s).None? then None
                else Some((|done| + Placeholder(s).value.0, |done| + Placeholder(s).value.1))
  {
    FindShift(done, s, '{');
    hide Find;
    if Find(s, '{').Some? {
      DropFront(done, s, Find(s, '{').value);
    }
  }

  lemma DropFront(done: string, s: string, k: nat)
    requires k <= |s|
    ensures (done + s)[|done| + k..] == s[k..]
  {
  }

  /** A turn on a text behind finished text rewrites the text's own first placeholder. */
  lemma TurnShift(d: Input, done: string, s: string)
    requires '{' !in done && Placeholder(s).Some?
    ensures Placeholder(done + s).Some? && PathOf(done + s) == PathOf(s)
    ensures var (start, end) := Placeholder(s).value;
            && '{' !in done + s[..start]
            && Rewritten(d, done + s) == done + s[..start] + Replacement(d, PathOf(s)) + s[end + 1..]
  {
    PlaceholderShift(done, s);
    var (start, end) := Placeholder(s).value;
    hide Placeholder, Replacement;
    Slices(done, s, start, end);
  }

  lemma Slices(done: string, s: string, start: nat, end: nat)
    requires start < end < |s|
    ensures (done + s)[..|done| + start] == done + s[..start]
    ensures (done + s)[|done| + start + 1..|done| + end] == s[start + 1..end]
    ensures (done + s)[|done| + end + 1..] == s[end + 1..]
  {
  }

  lemma {:induction false} PassBehind(d: Input, done: string, s: string)
    requires '{' !in done && Harmless(d, s)
    ensures StopsWith(d, done + s, |Paths(s)|, done + OnePass(d, s))
    decreases |s|, 1
  {
    if Placeholder(s).None? {
      PlaceholderShift(done, s);
    } else {
      TurnShift(d, done, s);
      var (start, end) := Placeholder(s).value;
      PassTurn(d, done, s, done + s[..start], Replacement(d, PathOf(s)), s[end + 1..]);
      hide *;
    }
  }

  lemma {:induction false} PassTurn(d: Input, done: string, s: string, front: string, t: string, rest: string)
    requires '{' !in front && Placeholder(s).Some? && Harmless(d, s)
    requires var (start, end) := Placeholder(s).value;
             front == done + s[..start] && t == Replacement(d, PathOf(s)) && rest == s[end + 1..]
    requires Placeholder(done + s).Some? && Rewritten(d, done + s) == front + t + rest
    ensures StopsWith(d, done + s, |Paths(s)|, done + OnePass(d, s))
    decreases |s|, 0
  {
    hide Placeholder, Rewritten, Replacement, PathOf, StopsWith;
    assert |Paths(s)| == 1 + |Paths(rest)|;
    assert OnePass(d, s) == s[..Placeholder(s).value.0] + t + OnePass(d, rest);
    assert done + OnePass(d, s) == front + t + OnePass(d, rest) by {
      hide *;
    }
    assert Harmless(d, s) ==> (Placeholder(t + rest).Some? ==> '{' !in t && Harmless(d, rest));
    hide Harmless, OnePass, Paths;
    if Placeholder(t + rest).Some? {
      PassBehind(d, front + t, rest);
    } else {
      PlaceholderInSuffix(t, rest);
      PassEnds(d, front, t, rest);
    }
    hide *;
    StopsTurn(d, done + s, |Paths(rest)|, front + t + OnePass(d, rest));
  }

  lemma StopsTurn(d: Input, s: string, n: nat, r: string)
    requires Placeholder(s).Some? && StopsWith(d, Rewritten(d, s), n, r)
    ensures StopsWith(d, s, n + 1, r)
  {
  }

  lemma PassEnds(d: Input, front: string, t: string, rest: string)
    requires '{' !in front && Placeholder(t + rest).None? && Placeholder(rest).None?
    ensures StopsWith(d, front + t + rest, |Paths(rest)|, front + t + OnePass(d, rest))
  {
    assert front + t + rest == front + (t + rest);
    PlaceholderShift(front, t + rest);
  }

  /** On a harmless template the rescanning loop ends after one turn for each placeholder of the
      template, and its result is one left-to-right pass, unclosed placeholders included. */
  lemma LoopIsOnePass(d: Input, s: string)
    requires Harmless(d, s)
    ensures StopsWith(d, s, |Paths(s)|, OnePass(d, s))
    ensures Stops(d, s) && Result(d, s) == OnePass(d, s)
  {
    PassBehind(d, [], s);
    assert [] + s == s && [] + OnePass(d, s) == OnePass(d, s);
    ResultIs(d, s, |Paths(s)|, OnePass(d, s));
  }

  /** Within `n` turns, some turn starts inside the text that the turn before put in. */
  ghost predicate RescansWithin(d: Input, s: string, n: nat)
    decreases n
  {
    && n > 0 && Placeholder(s).Some?
    && var next := Rewritten(d, s);
       || (Placeholder(next).Some? && Placeholder(next).value.0 < Placeholder(s).value.0 + |Replacement(d, PathOf(s))|)
       || RescansWithin(d, next, n - 1)
  }

  ghost predicate EverRescans(d: Input, s: string) {
    exists n :: RescansWithin(d, s, n)
  }

  lemma {:induction false} RescanShift(d: Input, done: string, s: string, n: nat)
    requires '{' !in done
    ensures RescansWithin(d, done + s, n) <==> RescansWithin(d, s, n)
    decreases n
  {
    hide Placeholder, Rewritten, Replacement, PathOf;
    PlaceholderShift(done, s);
    if n > 0 && Placeholder(s).Some? {
      RewriteShift(d, done, s);
      PlaceholderShift(done, Rewritten(d, s));
      RescanShift(d, done, Rewritten(d, s), n - 1);
    }
  }

  lemma RewriteShift(d: Input, done: string, s: string)
    requires '{' !in done && Placeholder(s).Some?
    ensures Placeholder(done + s).Some?
    ensures PathOf(done + s) == PathOf(s) && Rewritten(d, done + s) == done + Rewritten(d, s)
  {
    TurnShift(d, done, s);
    PlaceholderShift(done, s);
    var (start, end) := Placeholder(s).value;
    hide Placeholder, PathOf, Replacement;
    Slices(done, s, start, end);
    Associate(done, s[..start], Replacement(d, PathOf(s)), s[end + 1..]);
  }

  lemma Associate(a: string, b: string, c: string, e: string)
    ensures a + b + c + e == a + (b + c + e)
  {
  }

  /** Harmless is exact: a template is harmless if and only if no turn of the loop, however long it
      runs, takes text from the input for the start of a placeholder. */
  lemma {:induction false} HarmlessExactly(d: Input, s: string)
    ensures Harmless(d, s) <==> !EverRescans(d, s)
    decreases |s|
  {
    hide Placeholder, Replacement, PathOf, EverRescans;
    if Placeholder(s).Some? {
      var (start, end) := Placeholder(s).value;
      var front, t, rest := s[..start], Replacement(d, PathOf(s)), s[end + 1..];
      assert Rewritten(d, s) == front + (t + rest);
      assert Harmless(d, s) <==> (Placeholder(t + rest).Some? ==> '{' !in t && Harmless(d, rest));
      hide Rewritten, Harmless;
      PlaceholderShift(front, t + rest);
      FirstBrace(t, rest);
      HarmlessExactly(d, rest);
      FirstTurn(d, s, front, t, rest);
    } else {
      NoneNeverRescans(d, s);
    }
  }

  lemma NoneNeverRescans(d: Input, s: string)
    requires Placeholder(s).None?
    ensures Harmless(d, s) && !EverRescans(d, s)
  {
  }

  lemma FirstBrace(t: string, rest: string)
    ensures Placeholder(t + rest).Some? ==> (Placeholder(t + rest).value.0 < |t| <==> '{' in t)
  {
    if Placeholder(t + rest).Some? {
      var start := Placeholder(t + rest).value.0;
      assert (t + rest)[start] == '{';
      assert start >= |t| ==> t == (t + rest)[..start][..|t|];
    }
  }

  lemma FirstTurn(d: Input, s: string, front: string, t: string, rest: string)
    requires '{' !in front && Placeholder(s).Some? && Placeholder(s).value.0 == |front|
             && |t| == |Replacement(d, PathOf(s))|
    requires Rewritten(d, s) == front + (t + rest)
    requires Placeholder(t + rest).Some? ==>
             Placeholder(front + (t + rest)) ==
                 Some((|front| + Placeholder(t + rest).value.0, |front| + Placeholder(t + rest).value.1))
    requires Placeholder(t + rest).None? ==> Placeholder(front + (t + rest)).None?
    requires Placeholder(t + rest).Some? ==> (Placeholder(t + rest).value.0 < |t| <==> '{' in t)
    requires Harmless(d, rest) <==> !EverRescans(d, rest)
    ensures (Placeholder(t + rest).Some? ==> '{' !in t && Harmless(d, rest)) <==> !EverRescans(d, s)
  {
    hide Placeholder, Rewritten, Replacement, PathOf, Harmless;
    if Placeholder(t + rest).None? {
      forall n: nat ensures !RescansWithin(d, s, n) {
        assert n > 0 ==> !RescansWithin(d, Rewritten(d, s), n - 1);
      }
    } else if '{' in t {
      assert RescansWithin(d, s, 1);
    } else {
      assert front + (t + rest) == (front + t) + rest;
      RescansLater(d, s, front + t, rest);
    }
  }

  /** Behind finished text a turn that inserts no brace leaves the matter to the rest. */
  lemma RescansLater(d: Input, s: string, done: string, rest: string)
    requires '{' !in done && Placeholder(s).Some? && Rewritten(d, s) == done + rest
    requires !(Placeholder(done + rest).Some?
             && Placeholder(done + rest).value.0 < Placeholder(s).value.0 + |Replacement(d, PathOf(s))|)
    ensures EverRescans(d, s) <==> EverRescans(d, rest)
  {
    hide Placeholder, Rewritten, Replacement, PathOf;
    if EverRescans(d, s) {
      var n: nat :| RescansWithin(d, s, n);
      RescanShift(d, done, rest, n - 1);
    }
    if EverRescans(d, rest) {
      var n: nat :| RescansWithin(d, rest, n);
      RescanShift(d, done, rest, n);
      assert RescansWithin(d, s, n + 1);
    }
  }

  /** When no looked-up text contains an opening brace every template is harmless. */
  lemma {:induction false} BracelessIsHarmless(d: Input, s: string)
    requires forall p <- Paths(s) :: '{' !in Replacement(d, p)
    ensures Harmless(d, s)
    decreases |s|
  {
    if Placeholder(s).Some? {
      BracelessIsHarmless(d, s[Placeholder(s).value.1 + 1..]);
    }
  }

  /** A pass over its own result changes nothing when the texts put in have no opening brace. */
  lemma {:induction false} PassIsStable(d: Input, s: string)
    requires forall p <- Paths(s) :: '{' !in Replacement(d, p)
    ensures Placeholder(OnePass(d, s)).None?
    ensures OnePass(d, OnePass(d, s)) == OnePass(d, s)
  {
    BracelessIsHarmless(d, s);
    LoopIsOnePass(d, s);
    StoppedMeansNone(d, s, |Paths(s)|, OnePass(d, s));
  }

  lemma {:induction false} StoppedMeansNone(d: Input, s: string, n: nat, r: string)
    requires StopsWith(d, s, n, r)
    ensures Placeholder(r).None?
    decreases n
  {
    if n > 0 {
      StoppedMeansNone(d, Rewritten(d, s), n - 1, r);
    }
  }

  /** A turn on a text whose first placeholder is for `p`. */
  lemma TurnAt(d: Input, front: string, p: string, back: string)
    requires '{' !in front && '}' !in p
    ensures var s := front + ("{" + p + "}" + back);
            Placeholder(s).Some? && Rewritten(d, s) == front + Replacement(d, p) + back
  {
    var s := "{" + p + "}" + back;
    assert s[0..] == s == ("{" + p) + ("}" + back);
    FindShift("{" + p, "}" + back, '}');
    TurnShift(d, front, s);
    assert s[..0] == [] && s[|p| + 2..] == back && s[1..|p| + 1] == p;
    assert front + [] == front;
  }

  /** A value whose text holds a placeholder for itself makes the loop run for ever, wherever that
      placeholder comes up first. */
  lemma {:induction false} SelfReferenceNeverStops(d: Input, p: string, before: string, after: string,
      front: string, back: string, n: nat, r: string)
    requires '}' !in p && '{' !in before && '{' !in front
    requires Replacement(d, p) == before + ("{" + p + "}") + after
    ensures !StopsWith(d, front + ("{" + p + "}" + back), n, r)
    decreases n
  {
    hide Placeholder, Rewritten, Replacement;
    TurnAt(d, front, p, back);
    assert front + Replacement(d, p) + back == (front + before) + ("{" + p + "}" + (after + back));
    if n > 0 {
      SelfReferenceNeverStops(d, p, before, after, front + before, after + back, n - 1, r);
    }
  }

  /** An object put in by the loop never stays: its text runs from its opening brace to its first
      closing brace (`body` between them) and on (`tail`), the next turn takes that for a
      placeholder, and the loop goes on with the value at the path `body`, usually "null", in
      place of the object's beginning. */
  lemma InsertedObjectIsLost(d: Input, p: string, body: string, tail: string, front: string, back: string, n: nat,
      r: string)
    requires '}' !in p && '}' !in body && '{' !in front
    requires d.lookup(p).Object? && d.render(d.lookup(p)) == "{" + body + "}" + tail
    ensures StopsWith(d, front + ("{" + p + "}" + back), n, r) <==>
            n >= 2 && StopsWith(d, front + Replacement(d, body) + (tail + back), n - 2, r)
  {
    var s, s1 := front + ("{" + p + "}" + back), front + ("{" + body + "}" + (tail + back));
    hide Placeholder, Rewritten, StopsWith;
    TurnAt(d, front, p, back);
    assert Rewritten(d, s) == s1 by {
      assert front + ("{" + body + "}" + tail) + back == s1;
    }
    TurnAt(d, front, body, tail + back);
    hide *;
    TwoTurns(d, s, s1, front + Replacement(d, body) + (tail + back), n, r);
  }

  lemma TwoTurns(d: Input, s: string, s1: string, s2: string, n: nat, r: string)
    requires Placeholder(s).Some? && Rewritten(d, s) == s1
    requires Placeholder(s1).Some? && Rewritten(d, s1) == s2
    ensures StopsWith(d, s, n, r) <==> n >= 2 && StopsWith(d, s2, n - 2, r)
  {
    hide Placeholder, Rewritten;
    assert n > 0 ==> (StopsWith(d, s, n, r) <==> StopsWith(d, s1, n - 1, r));
  }

  // ---- Whole templates ----

  /** A text that is one placeholder and nothing else but surrounding white space. */
  predicate IsSingle(s: string) {
    var t := Trim(s);
    t != [] && t[0] == '{' && t[|t| - 1] == '}' && Braces(t) == 1
  }

  function SinglePath(s: string): string
    requires IsSingle(s)
  {
    var t := Trim(s);
    t[1..|t| - 1]
  }

  /** The value that replaces a whole text as it is, when there is one. */
  function Whole(d: Input, s: string): (r: Option<Json>)
    ensures r.Some? ==> !r.value.Null?
  {
    if '{' !in s then Some(Text(s))
    else if IsSingle(s) && !d.lookup(SinglePath(s)).Null? then Some(d.lookup(SinglePath(s)))
    else None
  }

  /** Numbers and booleans are read back from a finished text; anything else stays a text. */
  function Primitive(d: Input, s: string): Json {
    var v := d.parse(s);
    if v.Some? && (v.value.Number? || v.value.Bool?) then v.value else Text(s)
  }

  ghost predicate Resolvable(d: Input, t: Json) {
    match t
    case Text(s) => Whole(d, s).Some? || Stops(d, s)
    case Array(items) => forall i :: 0 <= i < |items| ==> Resolvable(d, items[i])
    case Object(fields) => forall i :: 0 <= i < |fields| ==> Resolvable(d, fields[i].1)
    case _ => true
  }

  ghost function Resolved(d: Input, t: Json): Json
    requires Resolvable(d, t)
  {
    match t
    case Text(s) => if Whole(d, s).Some? then Whole(d, s).value else Primitive(d, Result(d, s))
    case Array(items) => Array(seq(|items|, i requires 0 <= i < |items| => Resolved(d, items[i])))
    case Object(fields) =>
      Object(seq(|fields|, i requires 0 <= i < |fields| => (fields[i].0, Resolved(d, fields[i].1))))
    case _ => t
  }

  method ResolveTemplate(d: Input, t: Json) returns (r: Json)
    requires Resolvable(d, t)
    ensures r == Resolved(d, t)
    decreases t
  {
    match t
    case Text(s) =>
      var whole := Whole(d, s);
      if whole.Some? {
        return whole.value;
      }
      var result := Substitute(d, s);
      return Primitive(d, result);
    case Array(items) =>
      var resolved := [];
      for i := 0 to |items|
        invariant resolved == Resolved(d, t).items[..i]
      {
        var item := ResolveTemplate(d, items[i]);
        resolved := resolved + [item];
      }
      return Array(resolved);
    case Object(fields) =>
      var resolved := [];
      for i := 0 to |fields|
        invariant resolved == Resolved(d, t).fields[..i]
      {
        var value := ResolveTemplate(d, fields[i].1);
        resolved := resolved + [(fields[i].0, value)];
      }
      return Object(resolved);
    case other =>
      return other;
  }

  /** The template with every text replaced by one left-to-right pass. */
  function Passed(d: Input, t: Json): Json {
    match t
    case Text(s) => if Whole(d, s).Some? then Whole(d, s).value else Primitive(d, OnePass(d, s))
    case Array(items) => Array(seq(|items|, i requires 0 <= i < |items| => Passed(d, items[i])))
    case Object(fields) => Object(seq(|fields|, i requires 0 <= i < |fields| => (fields[i].0, Passed(d, fields[i].1))))
    case _ => t
  }

  /** Every text is a whole value or a harmless template. */
  ghost predicate HarmlessTree(d: Input, t: Json) {
    match t
    case Text(s) => Whole(d, s).Some? || Harmless(d, s)
    case Array(items) => forall i :: 0 <= i < |items| ==> HarmlessTree(d, items[i])
    case Object(fields) => forall i :: 0 <= i < |fields| ==> HarmlessTree(d, fields[i].1)
    case _ => true
  }

  /** On harmless templates resolution always ends and is one pass over every text. */
  lemma {:induction false} ResolutionIsOnePass(d: Input, t: Json)
    requires HarmlessTree(d, t)
    ensures Resolvable(d, t) && Resolved(d, t) == Passed(d, t)
  {
    match t
    case Text(s) =>
      if Whole(d, s).None? {
        LoopIsOnePass(d, s);
      }
    case Array(items) =>
      forall i | 0 <= i < |items| ensures Resolvable(d, items[i]) && Resolved(d, items[i]) == Passed(d, items[i]) {
        ResolutionIsOnePass(d, items[i]);
      }
    case Object(fields) =>
      forall i | 0 <= i < |fields| ensures Resolvable(d, fields[i].1)
          && Resolved(d, fields[i].1) == Passed(d, fields[i].1) {
        ResolutionIsOnePass(d, fields[i].1);
      }
    case _ =>
  }

  predicate NoPlaceholders(t: Json) {
    match t
    case Text(s) => '{' !in s
    case Array(items) => forall i :: 0 <= i < |items| ==> NoPlaceholders(items[i])
    case Object(fields) => forall i :: 0 <= i < |fields| ==> NoPlaceholders(fields[i].1)
    case _ => true
  }

  /** A template without opening braces is its own result, whatever the input: its texts are not
      even read back as numbers. */
  lemma {:induction false} PlainTemplateUnchanged(d: Input, t: Json)
    requires NoPlaceholders(t)
    ensures Resolvable(d, t) && Resolved(d, t) == t
  {
    match t
    case Text(s) =>
    case Array(items) =>
      forall i | 0 <= i < |items| ensures Resolvable(d, items[i]) && Resolved(d, items[i]) == items[i] {
        PlainTemplateUnchanged(d, items[i]);
      }
      assert Resolved(d, t).items == items;
    case Object(fields) =>
      forall i | 0 <= i < |fields| ensures Resolvable(d, fields[i].1)
          && (fields[i].0, Resolved(d, fields[i].1)) == fields[i] {
        PlainTemplateUnchanged(d, fields[i].1);
      }
      assert Resolved(d, t).fields == fields;
    case _ =>
  }

  // ---- What a text becomes ----

  /** A text that is one placeholder, in any white space, becomes the value itself, whatever its
      kind, unless there is none. */
  lemma LonePlaceholderKeepsValue(d: Input, w: string, p: string, w': string)
    requires AllWhite(w) && AllWhite(w') && '{' !in p && !d.lookup(p).Null?
    ensures var t := Text(w + ("{" + p + "}" + w')); Resolvable(d, t) && Resolved(d, t) == d.lookup(p)
  {
    var body := "{" + p + "}";
    var s := w + (body + w');
    TrimStartOver(w, body + w');
    TrimEndOver(body, w');
    assert Trim(s) == body && s == w + ("{" + p + "}" + w');
    BracesSum("{", p + "}");
    BracesSum(p, "}");
    assert body == "{" + (p + "}") && Braces("{") == 1 && Braces("}") == 0;
    assert s[|w|] == '{';
    assert body[1..|body| - 1] == p;
    hide Trim, Braces;
  }

  /** What a turn puts in for its placeholder: a text as it is, "null" for nothing, and the text of
      any other value. */
  lemma TurnPutsIn(d: Input, front: string, p: string, back: string)
    requires '{' !in front && '}' !in p
    ensures var s := front + ("{" + p + "}" + back);
            && Placeholder(s).Some?
            && (forall x :: d.lookup(p) == Text(x) ==> Rewritten(d, s) == front + x + back)
            && (d.lookup(p) == Null ==> Rewritten(d, s) == front + "null" + back)
            && (!d.lookup(p).Text? && !d.lookup(p).Null? ==> Rewritten(d, s) == front + d.render(d.lookup(p)) + back)
  {
    TurnAt(d, front, p, back);
  }

  /** A finished text that reads as a number or a boolean becomes it, any other stays a text; a text
      that had no opening brace is not read at all. */
  lemma FinishedTextReadBack(d: Input, s: string)
    requires Whole(d, s).None? && Stops(d, s)
    ensures var v := d.parse(Result(d, s));
            && ((exists b :: v == Some(Bool(b))) || (exists n :: v == Some(Number(n))) ==>
                  Resolved(d, Text(s)) == v.value)
            && (!(exists b :: v == Some(Bool(b))) && !(exists n :: v == Some(Number(n))) ==>
                  Resolved(d, Text(s)) == Text(Result(d, s)))
  {
    hide Result, Stops, Whole;
    var v := d.parse(Result(d, s));
    if v.Some? && v.value.Bool? {
      assert v == Some(Bool(v.value.b));
    } else if v.Some? && v.value.Number? {
      assert v == Some(Number(v.value.digits));
    }
  }

  // ---- The shape of a template is kept ----

  /** The value reached by going down through arrays and objects by position. */
  function At(t: Json, path: seq<nat>): Option<Json>
    decreases |path|
  {
    if path == [] then Some(t)
    else
      match t
      case Array(items) => if path[0] < |items| then At(items[path[0]], path[1..]) else None
      case Object(fields) => if path[0] < |fields| then At(fields[path[0]].1, path[1..]) else None
      case _ => None
  }

  /** The same kind of thing: an array of as many items, an object of the same keys in the same
      order, or, unless it is a text, the very same value. */
  ghost predicate SameFrame(t: Json, r: Json) {
    match t
    case Text(_) => true
    case Array(items) => r.Array? && |r.items| == |items|
    case Object(fields) =>
      r.Object? && |r.fields| == |fields| && forall i :: 0 <= i < |fields| ==> r.fields[i].0 == fields[i].0
    case _ => r == t
  }

  /** Resolution goes everywhere and moves nothing: what stands in the result where a part of the
      template stood is that part resolved, with the same frame. */
  lemma {:induction false} ResolvedInPlace(d: Input, t: Json, path: seq<nat>)
    requires Resolvable(d, t) && At(t, path).Some?
    ensures var part := At(t, path).value;
            && Resolvable(d, part)
            && At(Resolved(d, t), path) == Some(Resolved(d, part))
            && SameFrame(part, Resolved(d, part))
    decreases |path|
  {
    if path != [] {
      match t
      case Array(items) => ResolvedInPlace(d, items[path[0]], path[1..]);
      case Object(fields) => ResolvedInPlace(d, fields[path[0]].1, path[1..]);
    }
  }
}
