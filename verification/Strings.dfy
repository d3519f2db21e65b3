/**
  Stripping the blanks at both ends of a text.
 */
module Strings {
  predicate IsSpace(c: char) {
    c == ' ' || '\t' <= c <= '\r' || 28 as char <= c <= 31 as char
  }

  function LeftStrip(s: string): string {
    if s != [] && IsSpace(s[0]) then LeftStrip(s[1..]) else s
  }

  function RightStrip(s: string): string {
    if s != [] && IsSpace(s[|s| - 1]) then RightStrip(s[..|s| - 1]) else s
  }

  /** str.strip */
  function Strip(s: string): string {
    RightStrip(LeftStrip(s))
  }

  predicate Blanks(s: string) {
    forall i | 0 <= i < |s| :: IsSpace(s[i])
  }

  /** No blank at either end. */
  predicate Bare(s: string) {
    s != [] ==> !IsSpace(s[0]) && !IsSpace(s[|s| - 1])
  }

  /** The blanks are the white space of ASCII with the four separators, so no character that prints. */
  lemma {:induction false} SpacesAre(c: char)
    ensures IsSpace(c) <==> c as int in {9, 10, 11, 12, 13, 28, 29, 30, 31, 32}
  {
    var n := c as int;
    assert n in {9, 10, 11, 12, 13, 28, 29, 30, 31, 32} <==> 9 <= n <= 13 || 28 <= n <= 32;
  }

  lemma {:induction false} LeftStripBlanks(a: string, s: string)
    requires Blanks(a) && (s == [] || !IsSpace(s[0]))
    ensures LeftStrip(a + s) == s
  {
    if a == [] {
      assert a + s == s;
    } else {
      assert (a + s)[1..] == a[1..] + s;
      LeftStripBlanks(a[1..], s);
    }
  }

  lemma {:induction false} RightStripBlanks(s: string, b: string)
    requires Blanks(b) && (s == [] || !IsSpace(s[|s| - 1]))
    ensures RightStrip(s + b) == s
  {
    if b == [] {
      assert s + b == s;
    } else {
      assert (s + b)[..|s + b| - 1] == s + b[..|b| - 1];
      RightStripBlanks(s, b[..|b| - 1]);
    }
  }

  lemma {:induction false} AllBlank(s: string)
    requires Blanks(s)
    ensures LeftStrip(s) == []
  {
    if s != [] {
      AllBlank(s[1..]);
    }
  }

  /** Stripping leaves what stands between the outer blanks. */
  lemma {:induction false} StripBare(a: string, t: string, b: string)
    requires Blanks(a) && Blanks(b) && Bare(t)
    ensures Strip(a + (t + b)) == t
  {
    if t == [] {
      assert Blanks(a + (t + b));
      AllBlank(a + (t + b));
    } else {
      LeftStripBlanks(a, t + b);
      RightStripBlanks(t, b);
    }
  }

  /** What stands before the first character that is no blank. */
  lemma {:induction false} LeadingBlanks(s: string) returns (a: string, rest: string)
    ensures s == a + rest && Blanks(a) && (rest == [] || !IsSpace(rest[0]))
  {
    if s != [] && IsSpace(s[0]) {
      a, rest := LeadingBlanks(s[1..]);
      a := [s[0]] + a;
      assert s == [s[0]] + s[1..];
    } else {
      a, rest := [], s;
    }
  }

  lemma {:induction false} TrailingBlanks(s: string) returns (rest: string, b: string)
    ensures s == rest + b && Blanks(b) && (rest == [] || !IsSpace(rest[|rest| - 1]))
  {
    if s != [] && IsSpace(s[|s| - 1]) {
      rest, b := TrailingBlanks(s[..|s| - 1]);
      b := b + [s[|s| - 1]];
    } else {
      rest, b := s, [];
    }
  }

  /** Every text is a bare one between blanks. */
  lemma {:induction false} Core(s: string) returns (a: string, m: string, b: string)
    ensures s == a + (m + b) && Blanks(a) && Blanks(b) && Bare(m)
  {
    var rest: string;
    a, rest := LeadingBlanks(s);
    m, b := TrailingBlanks(rest);
    assert m != [] ==> m[0] == rest[0];
  }
}
