/**
  Blanking comments and string contents (strip_noise in tools/harness/or_buf.py), character by
  character.  Escaped characters inside a string stay as they are.
 */
module StripNoise {
  import opened Collections

  datatype Mode = Code | Block | Line | Quote(q: char)

  function Blank(c: char): char {
    if c == '\n' then c else ' '
  }

  predicate Two(s: string, a: char, b: char) {
    |s| >= 2 && s[0] == a && s[1] == b
  }

  /** How many characters the next turn consumes, what it leaves in their place, and the next mode. */
  function Turn(s: string, m: Mode): (r: (nat, string, Mode))
    requires s != []
    ensures 1 <= r.0 <= |s| && |r.1| == r.0
  {
    match m
    case Code =>
      if Two(s, '/', '*') then (2, "  ", Block)
      else if Two(s, '/', '/') then (2, "  ", Line)
      else if s[0] == '"' || s[0] == '\'' then (1, [s[0]], Quote(s[0]))
      else (1, [s[0]], Code)
    case Block =>
      if Two(s, '*', '/') then (2, "  ", Code) else (1, [Blank(s[0])], Block)
    case Line =>
      if s[0] == '\n' then (1, "\n", Code) else (1, " ", Line)
    case Quote(q) =>
      if s[0] == '\\' then (if |s| >= 2 then (2, s[..2], m) else (1, s, m))
      else if s[0] == q then (1, [q], Code)
      else (1, [Blank(s[0])], m)
  }

  function Strip(s: string, m: Mode): string {
    if s == [] then []
    else
      var (n, t, m') := Turn(s, m);
      t + Strip(s[n..], m')
  }

  /** The text written so far, followed by what the rest will become. */
  ghost predicate OnTheWay(src: string, i: nat, mode: Mode, written: string)
    requires i <= |src|
  {
    written + Strip(src[i..], mode) == Strip(src, Code)
  }

  /** One turn of the loop. */
  method WriteTurn(src: string, out: array<char>, i: nat, mode: Mode) returns (i': nat, next: Mode)
    requires i < |src| == out.Length
    requires forall k | i <= k < |src| :: out[k] == src[k]
    requires OnTheWay(src, i, mode, out[..i])
    modifies out
    ensures i < i' <= |src|
    ensures forall k | i' <= k < |src| :: out[k] == src[k]
    ensures OnTheWay(src, i', next, out[..i'])
  {
    ghost var before := out[..];
    assert before[..i] == out[..i];
    var adv: nat;
    adv, next := TurnAt(src, out, i, mode);
    i' := i + adv;
    ghost var after := out[..];
    assert after[..i] == out[..i] && after[i..i'] == out[i..i'];
    TurnWritten(src, i, mode, before, after, adv, next);
    assert after[..i'] == out[..i'];
  }

  method TurnAt(src: string, out: array<char>, i: nat, mode: Mode) returns (adv: nat, next: Mode)
    requires i < |src| == out.Length
    requires forall k | i <= k < |src| :: out[k] == src[k]
    modifies out
    ensures adv == Turn(src[i..], mode).0 && next == Turn(src[i..], mode).2
    ensures out[..i] == old(out[..i])
    ensures out[i..i + adv] == Turn(src[i..], mode).1
    ensures forall k | i + adv <= k < |src| :: out[k] == src[k]
  {
    var c, two := src[i], i + 1 < |src|;
    adv, next := 1, mode;
    match mode
    case Code =>
      if c == '/' && two && src[i + 1] == '*' {
        adv, next := 2, Block;
        out[i], out[i + 1] := ' ', ' ';
      } else if c == '/' && two && src[i + 1] == '/' {
        adv, next := 2, Line;
        out[i], out[i + 1] := ' ', ' ';
      } else if c == '"' || c == '\'' {
        next := Quote(c);
      }
    case Block =>
      if c == '*' && two && src[i + 1] == '/' {
        adv, next := 2, Code;
        out[i], out[i + 1] := ' ', ' ';
      } else if c != '\n' {
        out[i] := ' ';
      }
    case Line =>
      if c == '\n' {
        next := Code;
      } else {
        out[i] := ' ';
      }
    case Quote(q) =>
      if c == '\\' {
        adv := if two then 2 else 1;
      } else if c == q {
        next := Code;
      } else if c != '\n' {
        out[i] := ' ';
      }
  }

  /** strip_noise: one pass over the text, writing into a copy of it. */
  method StripText(src: string) returns (r: string)
    ensures r == Strip(src, Code)
  {
    var out := new char[|src|](i requires 0 <= i < |src| => src[i]);
    var i, mode := 0, Code;
    assert out[..0] == [] && src[0..] == src;
    while i < |src|
      invariant 0 <= i <= |src|
      invariant forall k | i <= k < |src| :: out[k] == src[k]
      invariant OnTheWay(src, i, mode, out[..i])
      decreases |src| - i
    {
      i, mode := WriteTurn(src, out, i, mode);
    }
    assert out[..i] == out[..] && out[..] + [] == out[..];
    r := out[..];
  }

  /** What a turn leaves in the array is on the way again. */
  lemma {:induction false} TurnWritten(src: string, i: nat, mode: Mode, before: string, after: string, adv: nat,
                                       next: Mode)
    requires i < |src| == |before| == |after| && OnTheWay(src, i, mode, before[..i])
    requires adv == Turn(src[i..], mode).0 && next == Turn(src[i..], mode).2
    requires after[..i] == before[..i] && after[i..i + adv] == Turn(src[i..], mode).1
    ensures OnTheWay(src, i + adv, next, after[..i + adv])
  {
    StripStep(src, i, mode, before[..i]);
    assert after[..i + adv] == after[..i] + after[i..i + adv];
  }

  lemma {:induction false} StripStep(src: string, i: nat, mode: Mode, written: string)
    requires i < |src| && OnTheWay(src, i, mode, written)
    ensures var (n, t, m) := Turn(src[i..], mode); OnTheWay(src, i + n, m, written + t)
  {
    var (n, t, m) := Turn(src[i..], mode);
    assert src[i..][n..] == src[i + n..];
    Assoc(written, t, Strip(src[i + n..], m));
  }

  /** The text keeps its length and every line end, and no other character changes except to a blank. */
  lemma {:induction false} StripKeepsPlaces(s: string, m: Mode)
    ensures |Strip(s, m)| == |s|
    ensures forall i | 0 <= i < |s| :: Strip(s, m)[i] == s[i] || (Strip(s, m)[i] == ' ' && s[i] != '\n')
    decreases |s|
  {
    if s != [] {
      var (n, t, m') := Turn(s, m);
      StripKeepsPlaces(s[n..], m');
      forall i | 0 <= i < |s|
        ensures Strip(s, m)[i] == s[i] || (Strip(s, m)[i] == ' ' && s[i] != '\n')
      {
        if i >= n {
          assert Strip(s, m)[i] == Strip(s[n..], m')[i - n];
        }
      }
    }
  }

  /** The mode in which the stripped text is read again: comments are gone. */
  function Again(m: Mode): Mode {
    if m.Quote? then m else Code
  }

  predicate Proper(m: Mode) {
    m.Quote? ==> m.q == '"' || m.q == '\''
  }

  /** Stripping the stripped text changes nothing, whatever mode it starts in. */
  lemma {:induction false} StripTwice(s: string, m: Mode)
    requires Proper(m)
    ensures Strip(Strip(s, m), Again(m)) == Strip(s, m)
    decreases |s|
  {
    if s != [] {
      var (n, t, m') := Turn(s, m);
      var rest := Strip(s[n..], m');
      StripTwice(s[n..], m');
      StripKeepsPlaces(s[n..], m');
      var u := t + rest;
      if n == 2 && !m.Quote? {
        TwoBlanks(rest);
      } else {
        TurnAgain(s, m, u);
        assert u[n..] == rest;
      }
    }
  }

  lemma {:induction false} OneBlank(rest: string)
    ensures Strip(" " + rest, Code) == " " + Strip(rest, Code)
  {
    assert (" " + rest)[1..] == rest;
  }

  lemma {:induction false} TwoBlanks(rest: string)
    ensures Strip("  " + rest, Code) == "  " + Strip(rest, Code)
  {
    assert "  " + rest == " " + (" " + rest);
    OneBlank(" " + rest);
    OneBlank(rest);
  }

  lemma {:induction false} TurnAgain(s: string, m: Mode, u: string)
    requires s != [] && Proper(m) && |u| == |s|
    requires Turn(s, m).0 == 2 ==> m.Quote?
    requires u[..Turn(s, m).0] == Turn(s, m).1
    requires |s| > 1 ==> u[1] == s[1] || u[1] == ' '
    ensures Turn(u, Again(m)) == (Turn(s, m).0, Turn(s, m).1, Again(Turn(s, m).2))
  {
    var (n, t, m') := Turn(s, m);
    assert u[0] == t[0];
    if n == 1 {
      assert t == [t[0]] && (|u| == 1 ==> u == [u[0]]);
    } else {
      assert u[1] == t[1];
    }
  }

  /** strip_noise run twice is strip_noise run once. */
  lemma {:induction false} StripIdempotent(s: string)
    ensures Strip(Strip(s, Code), Code) == Strip(s, Code)
  {
    StripTwice(s, Code);
  }
}
