/**
  The keys by which tools/harness/post_review.py tells review comments apart: the path, and the text
  with LF for CR LF and without blanks at its ends.
 */
module CommentKeys {
  import opened Collections
  import opened Strings

  datatype Comment = Comment(path: string, line: int, body: string)

  datatype Key = Key(path: string, text: string)

  function CrLfToLf(s: string): string {
    if s == [] then []
    else if |s| >= 2 && s[0] == '\r' && s[1] == '\n' then ['\n'] + CrLfToLf(s[2..])
    else [s[0]] + CrLfToLf(s[1..])
  }

  function Norm(s: string): string {
    Strip(CrLfToLf(s))
  }

  function KeyOf(c: Comment): Key {
    Key(c.path, Norm(c.body))
  }

  // ---------------------------------------------------------------- what texts are the same

  function Join(lines: seq<string>, end: string): string
    requires lines != []
  {
    if |lines| == 1 then lines[0] else lines[0] + (end + Join(lines[1..], end))
  }

  predicate HasCrLf(s: string) {
    exists i :: 0 <= i < |s| - 1 && s[i] == '\r' && s[i + 1] == '\n'
  }

  /** Lines between which CR LF can stand: none holds one. */
  predicate AreLines(lines: seq<string>) {
    lines != [] && forall i | 0 <= i < |lines| :: !HasCrLf(lines[i])
  }

  /** Between blanks the text has these lines; t has them with LF between, and no blank at its ends. */
  ghost predicate Reads(s: string, before: string, lines: seq<string>, after: string, t: string) {
    && AreLines(lines) && Blanks(before) && Blanks(after) && Bare(t)
    && s == before + (Join(lines, "\r\n") + after) && t == Join(lines, "\n")
  }

  ghost predicate TextOf(s: string, t: string) {
    exists before, lines, after :: Reads(s, before, lines, after, t)
  }

  /** Two comments on one path with the same text, up to line ends and outer blanks. */
  ghost predicate Same(c: Comment, d: Comment) {
    c.path == d.path && exists t :: TextOf(c.body, t) && TextOf(d.body, t)
  }

  // ---------------------------------------------------------------- line ends

  /** No CR LF reaches from one part into the next. */
  predicate Apart(a: string, b: string) {
    a == [] || b == [] || a[|a| - 1] != '\r' || b[0] != '\n'
  }

  lemma {:induction false} CrLfPair(rest: string)
    ensures CrLfToLf("\r\n" + rest) == "\n" + CrLfToLf(rest)
  {
    assert ("\r\n" + rest)[2..] == rest;
  }

  lemma {:induction false} CrLfOther(c: char, rest: string)
    requires Apart([c], rest)
    ensures CrLfToLf([c] + rest) == [c] + CrLfToLf(rest)
  {
    assert ([c] + rest)[1..] == rest;
  }

  lemma {:induction false} CrLfConcatPair(rest: string, b: string)
    requires CrLfToLf(rest + b) == CrLfToLf(rest) + CrLfToLf(b)
    ensures CrLfToLf(("\r\n" + rest) + b) == CrLfToLf("\r\n" + rest) + CrLfToLf(b)
  {
    CrLfPair(rest);
    CrLfPair(rest + b);
    Assoc("\r\n", rest, b);
    Assoc("\n", CrLfToLf(rest), CrLfToLf(b));
  }

  lemma {:induction false} CrLfConcatOther(c: char, rest: string, b: string)
    requires CrLfToLf(rest + b) == CrLfToLf(rest) + CrLfToLf(b)
    requires Apart([c], rest) && Apart([c], rest + b)
    ensures CrLfToLf(([c] + rest) + b) == CrLfToLf([c] + rest) + CrLfToLf(b)
  {
    CrLfOther(c, rest);
    CrLfOther(c, rest + b);
    Assoc([c], rest, b);
    Assoc([c], CrLfToLf(rest), CrLfToLf(b));
  }

  lemma {:induction false} CrLfConcat(a: string, b: string)
    requires Apart(a, b)
    ensures CrLfToLf(a + b) == CrLfToLf(a) + CrLfToLf(b)
    decreases |a|
  {
    if a == [] {
      assert a + b == b;
    } else if |a| >= 2 && a[0] == '\r' && a[1] == '\n' {
      assert a == "\r\n" + a[2..];
      CrLfConcat(a[2..], b);
      CrLfConcatPair(a[2..], b);
    } else {
      assert a == [a[0]] + a[1..];
      CrLfConcat(a[1..], b);
      CrLfConcatOther(a[0], a[1..], b);
    }
  }

  lemma {:induction false} CrLfNone(s: string)
    requires !HasCrLf(s)
    ensures CrLfToLf(s) == s
  {
    if s != [] {
      assert !HasCrLf(s[1..]) by {
        forall i | 0 <= i < |s[1..]| - 1 ensures !(s[1..][i] == '\r' && s[1..][i + 1] == '\n') {
          assert s[1..][i] == s[i + 1] && s[1..][i + 1] == s[i + 2];
        }
      }
      CrLfNone(s[1..]);
    }
  }

  lemma {:induction false} CrLfJoin(lines: seq<string>)
    requires AreLines(lines)
    ensures CrLfToLf(Join(lines, "\r\n")) == Join(lines, "\n")
  {
    CrLfNone(lines[0]);
    if |lines| > 1 {
      CrLfJoin(lines[1..]);
      var rest := Join(lines[1..], "\r\n");
      CrLfConcat(lines[0], "\r\n" + rest);
      CrLfConcat("\r\n", rest);
      assert CrLfToLf("\r\n") == "\n" by {
        assert "\r\n"[2..] == "";
      }
    }
  }

  /** Every text has lines. */
  lemma {:induction false} Split(s: string) returns (lines: seq<string>)
    ensures AreLines(lines) && Join(lines, "\r\n") == s
  {
    if i :| 0 <= i < |s| - 1 && s[i] == '\r' && s[i + 1] == '\n' && !HasCrLf(s[..i]) {
      var rest := Split(s[i + 2..]);
      lines := [s[..i]] + rest;
      assert lines[1..] == rest;
      assert s == s[..i] + ("\r\n" + s[i + 2..]);
    } else {
      if i :| 0 <= i < |s| - 1 && s[i] == '\r' && s[i + 1] == '\n' {
        FirstCrLf(s, i);
      }
      lines := [s];
    }
  }

  lemma {:induction false} FirstCrLf(s: string, i: nat)
    requires i < |s| - 1 && s[i] == '\r' && s[i + 1] == '\n'
    ensures exists j :: 0 <= j < |s| - 1 && s[j] == '\r' && s[j + 1] == '\n' && !HasCrLf(s[..j])
  {
    if j :| 0 <= j < |s[..i]| - 1 && s[..i][j] == '\r' && s[..i][j + 1] == '\n' {
      FirstCrLf(s, j);
    }
  }

  lemma {:induction false} CrLfOfBlanks(s: string)
    requires Blanks(s)
    ensures Blanks(CrLfToLf(s))
    decreases |s|
  {
    if |s| >= 2 && s[0] == '\r' && s[1] == '\n' {
      CrLfOfBlanks(s[2..]);
    } else if s != [] {
      CrLfOfBlanks(s[1..]);
    }
  }

  lemma {:induction false} CrLfKeepsEnds(s: string)
    requires s != [] && Bare(s)
    ensures CrLfToLf(s) != [] && Bare(CrLfToLf(s))
  {
    var a, z := s[..|s| - 1], s[|s| - 1];
    CrLfConcat(a, [z]);
    assert a + [z] == s && CrLfToLf([z]) == [z];
    assert CrLfToLf(s)[0] == s[0];
  }

  // ---------------------------------------------------------------- what keys tell apart

  lemma {:induction false} NormAround(a: string, m: string, b: string)
    requires Blanks(a) && Blanks(b) && Bare(m)
    ensures Norm(a + (m + b)) == CrLfToLf(m) && Bare(CrLfToLf(m))
  {
    if m == [] {
      assert a + (m + b) == a + b && Blanks(a + b);
      CrLfOfBlanks(a + b);
      AllBlank(CrLfToLf(a + b));
    } else {
      CrLfConcat(a, m + b);
      CrLfConcat(m, b);
      CrLfOfBlanks(a);
      CrLfOfBlanks(b);
      CrLfKeepsEnds(m);
      StripBare(CrLfToLf(a), CrLfToLf(m), CrLfToLf(b));
    }
  }

  lemma {:induction false} JoinIsBare(lines: seq<string>)
    requires lines != [] && Bare(Join(lines, "\n"))
    ensures Bare(Join(lines, "\r\n"))
  {
    if |lines| > 1 {
      JoinEnd(lines, "\n");
      JoinEnd(lines, "\r\n");
    }
  }

  /** What is joined ends as its last line or, if that is empty, with the line end. */
  lemma {:induction false} JoinEnd(lines: seq<string>, end: string)
    requires |lines| > 1 && end != []
    ensures var j, last := Join(lines, end), lines[|lines| - 1];
            j != [] && j[|j| - 1] == if last == [] then end[|end| - 1] else last[|last| - 1]
  {
    var rest := lines[1..];
    assert rest[|rest| - 1] == lines[|lines| - 1];
    if |lines| > 2 {
      JoinEnd(rest, end);
    } else {
      assert Join(rest, end) == lines[1];
    }
    LastOf(lines[0], end, Join(rest, end));
  }

  lemma {:induction false} LastOf(a: string, b: string, c: string)
    requires b != []
    ensures (a + (b + c))[|a + (b + c)| - 1] == if c == [] then b[|b| - 1] else c[|c| - 1]
  {
  }

  /** The text of a key is the text of the body, and every body has just that one. */
  lemma {:induction false} NormIsTextOf(s: string, t: string)
    ensures TextOf(s, t) <==> t == Norm(s)
  {
    if before, lines, after :| Reads(s, before, lines, after, t) {
      JoinIsBare(lines);
      CrLfJoin(lines);
      NormAround(before, Join(lines, "\r\n"), after);
    }
    if t == Norm(s) {
      var a, m, b := Core(s);
      NormAround(a, m, b);
      var lines := Split(m);
      CrLfJoin(lines);
      assert Reads(s, a, lines, b, t);
    }
  }

  /** Keys tell two comments apart exactly if their paths differ or their texts do, up to line ends and
      outer blanks. */
  lemma {:induction false} SameKeyIff(c: Comment, d: Comment)
    ensures KeyOf(c) == KeyOf(d) <==> Same(c, d)
  {
    NormIsTextOf(c.body, Norm(c.body));
    NormIsTextOf(d.body, Norm(c.body));
    if t :| TextOf(c.body, t) && TextOf(d.body, t) {
      NormIsTextOf(c.body, t);
      NormIsTextOf(d.body, t);
    }
  }

  /** For texts without CR LF and without outer blanks only equal ones are the same. */
  lemma {:induction false} PlainTextsDiffer(c: Comment, d: Comment)
    requires !HasCrLf(c.body) && !HasCrLf(d.body) && Bare(c.body) && Bare(d.body)
    ensures KeyOf(c) == KeyOf(d) <==> c.path == d.path && c.body == d.body
  {
    forall s | s == c.body || s == d.body ensures Norm(s) == s {
      NormAround([], s, []);
      CrLfNone(s);
      assert [] + (s + []) == s;
    }
  }

  /** Blanks around a text do not change the key. */
  lemma {:induction false} OuterBlanksDoNotMatter(c: Comment, a: string, b: string)
    requires Blanks(a) && Blanks(b)
    ensures KeyOf(c.(body := a + (c.body + b))) == KeyOf(c)
  {
    var x, m, y := Core(c.body);
    NormAround(x, m, y);
    NormAround(a + x, m, y + b);
    assert a + ((x + (m + y)) + b) == (a + x) + (m + (y + b));
  }

  lemma {:induction false} CrLfRoundTrip(s: string)
    ensures CrLfToLf(LfToCrLf(s)) == s
  {
    if s != [] {
      CrLfRoundTrip(s[1..]);
      var t := LfToCrLf(s[1..]);
      if s[0] == '\n' {
        assert LfToCrLf(s)[2..] == t;
      } else {
        assert LfToCrLf(s)[1..] == t;
        assert t != [] ==> t[0] != '\n';
      }
    }
  }

  /** A server that stores line ends as CR LF. */
  function LfToCrLf(s: string): string {
    if s == [] then []
    else (if s[0] == '\n' then "\r\n" else [s[0]]) + LfToCrLf(s[1..])
  }

  /** The key of a comment is the key of what such a server gives back, so a later run recognises it. */
  lemma {:induction false} KeySurvivesLineEnds(c: Comment)
    ensures KeyOf(c.(body := LfToCrLf(CrLfToLf(c.body)))) == KeyOf(c)
  {
    CrLfRoundTrip(CrLfToLf(c.body));
  }
}
