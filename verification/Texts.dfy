/** Strings as the standard library of the source's language treats them. */
module Texts {
  /** The characters with the Unicode White_Space property. */
  predicate IsWhitespace(c: char) {
    || '\t' <= c <= '\r' || c == ' ' || c == '\U{85}' || c == '\U{A0}' || c == '\U{1680}'
    || '\U{2000}' <= c <= '\U{200A}' || c == '\U{2028}' || c == '\U{2029}' || c == '\U{202F}'
    || c == '\U{205F}' || c == '\U{3000}'
  }

  /** The code points of White_Space, one by one: no letter, digit or punctuation is trimmed. */
  lemma WhiteSpaceIs(c: char)
    ensures IsWhitespace(c) <==>
            c as int in {0x9, 0xA, 0xB, 0xC, 0xD, 0x20, 0x85, 0xA0, 0x1680, 0x2000, 0x2001, 0x2002, 0x2003, 0x2004,
                         0x2005, 0x2006, 0x2007, 0x2008, 0x2009, 0x200A, 0x2028, 0x2029, 0x202F, 0x205F, 0x3000}
  {
  }

  function TrimStart(s: string): string {
    if s != [] && IsWhitespace(s[0]) then TrimStart(s[1..]) else s
  }

  function TrimEnd(s: string): string {
    if s != [] && IsWhitespace(s[|s| - 1]) then TrimEnd(s[..|s| - 1]) else s
  }

  function Trim(s: string): string {
    TrimEnd(TrimStart(s))
  }

  lemma {:induction false} TrimStartEnds(s: string)
    ensures TrimStart(s) != [] ==> !IsWhitespace(TrimStart(s)[0])
  {
    if s != [] && IsWhitespace(s[0]) {
      TrimStartEnds(s[1..]);
    }
  }

  lemma {:induction false} TrimEndEnds(s: string)
    ensures TrimEnd(s) <= s
    ensures TrimEnd(s) != [] ==> !IsWhitespace(TrimEnd(s)[|TrimEnd(s)| - 1])
  {
    if s != [] && IsWhitespace(s[|s| - 1]) {
      TrimEndEnds(s[..|s| - 1]);
    }
  }

  ghost predicate AllWhite(w: string) {
    forall c <- w :: IsWhitespace(c)
  }

  /** White space in front goes, and nothing else does. */
  lemma {:induction false} TrimStartOver(w: string, s: string)
    requires AllWhite(w) && (s != [] ==> !IsWhitespace(s[0]))
    ensures TrimStart(w + s) == s
  {
    if w == [] {
      assert w + s == s;
    } else {
      assert (w + s)[0] in w && (w + s)[1..] == w[1..] + s;
      TrimStartOver(w[1..], s);
    }
  }

  /** White space at the end goes, and nothing else does. */
  lemma {:induction false} TrimEndOver(s: string, w: string)
    requires AllWhite(w) && (s != [] ==> !IsWhitespace(s[|s| - 1]))
    ensures TrimEnd(s + w) == s
  {
    if w == [] {
      assert s + w == s;
    } else {
      assert (s + w)[|s + w| - 1] == w[|w| - 1] && (s + w)[..|s + w| - 1] == s + w[..|w| - 1];
      TrimEndOver(s, w[..|w| - 1]);
    }
  }

  lemma {:induction false} TrimStartSplit(s: string) returns (w: string)
    ensures AllWhite(w) && s == w + TrimStart(s)
  {
    w := [];
    if s != [] && IsWhitespace(s[0]) {
      var rest := TrimStartSplit(s[1..]);
      w := [s[0]] + rest;
    }
  }

  lemma {:induction false} TrimEndSplit(s: string) returns (w: string)
    ensures AllWhite(w) && s == TrimEnd(s) + w
  {
    w := [];
    if s != [] && IsWhitespace(s[|s| - 1]) {
      var rest := TrimEndSplit(s[..|s| - 1]);
      w := rest + [s[|s| - 1]];
    }
  }
}
