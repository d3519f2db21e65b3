/**
  From a line of the new text back to the old one through a diff with context (_base_line in
  tools/harness/static_lint.py).
 */
module BaseLine {
  import opened Collections
  import opened DiffScript
  import opened DiffText
  import opened Strings
  import MapLine

  /** The loop's variables, or the answer it has returned. */
  datatype Walk =
    | Going(inFile: bool, seen: bool, hunk: bool, o: int, n: int, delta: int)
    | Done(answer: Option<int>)

  /** The file that a "+++ " line names. */
  function NewPath(l: Line): string
    requires LooksNew(l)
  {
    if "++ b/" <= l.text then l.text[5..] else Strip(l.text[3..])
  }

  function Close(w: Walk, head: int): Option<int> {
    match w
    case Going(_, seen, _, _, _, delta) => Some(if seen then head - delta else head)
    case Done(answer) => answer
  }

  function Step(w: Walk, l: Line, file: string, head: int): Walk {
    if w.Done? then w
    else if l.Git? then if w.inFile then Done(Close(w, head)) else w
    else if LooksNew(l) then
      var inFile := NewPath(l) == file;
      w.(inFile := inFile, seen := w.seen || inFile, hunk := false)
    else if !w.inFile || LooksOld(l) then w
    else if l.At? then
      if head < l.ns then Done(Some(head - w.delta)) else w.(o := l.os, n := l.ns, hunk := true)
    else if !w.hunk || l.Mark? then w
    else
      match l
      case Plus(_) => if w.n == head then Done(None) else w.(n := w.n + 1, delta := w.n + 1 - w.o)
      case Minus(_) => w.(o := w.o + 1, delta := w.n - (w.o + 1))
      case Context(_) =>
        if w.n == head then Done(Some(w.o)) else w.(o := w.o + 1, n := w.n + 1, delta := w.n - w.o)
  }

  function Run(w: Walk, ls: seq<Line>, file: string, head: int): Walk
    decreases |ls|
  {
    if ls == [] then w else Run(Step(w, ls[0], file, head), ls[1..], file, head)
  }

  const START := Going(false, false, false, 0, 0, 0)

  /** _base_line */
  function BaseLine(ls: seq<Line>, file: string, head: int): Option<int> {
    Close(Run(START, ls, file, head), head)
  }

  method FindBaseLine(ls: seq<Line>, file: string, head: int) returns (r: Option<int>)
    ensures r == BaseLine(ls, file, head)
  {
    var inFile, seen, hunk := false, false, false;
    var o: int, n: int, delta: int := 0, 0, 0;
    for i := 0 to |ls|
      invariant Run(START, ls, file, head) == Run(Going(inFile, seen, hunk, o, n, delta), ls[i..], file, head)
    {
      assert ls[i..][1..] == ls[i + 1..];
      var ln := ls[i];
      ghost var w := Step(Going(inFile, seen, hunk, o, n, delta), ln, file, head);
      if w.Done? {
        DoneStays(w, ls[i + 1..], file, head);
      }
      if ln.Git? {
        if inFile {
          return Some(if seen then head - delta else head);
        }
        continue;
      }
      if LooksNew(ln) {
        inFile := NewPath(ln) == file;
        seen := seen || inFile;
        hunk := false;
        continue;
      }
      if !inFile || LooksOld(ln) {
        continue;
      }
      if ln.At? {
        if head < ln.ns {
          return Some(head - delta);
        }
        o, n, hunk := ln.os, ln.ns, true;
        continue;
      }
      if !hunk || ln.Mark? {
        continue;
      }
      if ln.Plus? {
        if n == head {
          return None;
        }
        n := n + 1;
      } else if ln.Minus? {
        o := o + 1;
      } else {
        if n == head {
          return Some(o);
        }
        o, n := o + 1, n + 1;
      }
      delta := n - o;
    }
    return Some(if seen then head - delta else head);
  }

  lemma {:induction false} DoneStays(w: Walk, ls: seq<Line>, file: string, head: int)
    requires w.Done?
    ensures Run(w, ls, file, head) == w
  {
    if ls != [] {
      DoneStays(w, ls[1..], file, head);
    }
  }

  /** The answer of a walk that stands o old and n new lines into a file's diff. */
  function Answer(w: Walk, ms: seq<Item>, o: nat, n: nat, file: string, head: int): Option<int> {
    Close(Run(w, Render(ms, o, n), file, head), head)
  }

  /** A removed line that the walk takes for a file header and does not count. */
  predicate Skipped(m: Item) {
    m.Shown? && m.op.Del? && "-- " <= m.op.text
  }

  /** How far the walk's numbers are off: the difference in force, and the old and the new counter,
      which lag behind. */
  datatype Lag = Lag(delta: int, o: int, n: int)

  const NONE := Lag(0, 0, 0)

  /** A hunk that shows no line of one side names the line before, which puts its counter behind. */
  function OpenLag(g: Lag, rest: seq<Item>): Lag {
    Lag(g.delta, if OldShown(rest) == 0 then 1 else 0, if NewShown(rest) == 0 then 1 else 0)
  }

  /** A removed line that is skipped puts the old counter and the difference behind; every other line
      of the hunk sets the difference from the counters. */
  function NextLag(g: Lag, op: Op): Lag {
    if op.Del? && "-- " <= op.text then Lag(g.delta + 1, g.o + 1, g.n) else Lag(g.o - g.n, g.o, g.n)
  }

  /** A hidden line just passed is answered rightly: the difference, off by `late` for that line, is
      right once a later hunk header or the end answers it.  Hunks without new lines come too early. */
  predicate Settles(ms: seq<Item>, g: Lag, late: int) {
    if ms == [] then late == 0
    else
      match ms[0]
      case Hidden(_) => late == 0
      case NoEol => Settles(ms[1..], g, late)
      case Open => if NewShown(ms[1..]) > 0 then late == 0 else Settles(ms[1..], OpenLag(g, ms[1..]), late)
      case Shown(op) => Settles(ms[1..], NextLag(g, op), late + NextLag(g, op).delta - g.delta - 1)
  }

  /** The walk's numbers are right wherever a kept line needs them. */
  predicate Exact(ms: seq<Item>, g: Lag) {
    ms == [] ||
    match ms[0]
    case Hidden(_) => Settles(ms[1..], g, g.delta) && Exact(ms[1..], g)
    case Open => Exact(ms[1..], OpenLag(g, ms[1..]))
    case Shown(op) => (op.Keep? ==> g.o == 0) && Exact(ms[1..], NextLag(g, op))
    case NoEol => Exact(ms[1..], g)
  }

  lemma {:induction false} AnswerDone(w: Walk, ms: seq<Item>, o: nat, n: nat, file: string, head: int)
    requires w.Done?
    ensures Answer(w, ms, o, n, file, head) == w.answer
  {
    DoneStays(w, Render(ms, o, n), file, head);
  }

  lemma {:induction false} RunOne(w: Walk, l: Line, ls: seq<Line>, file: string, head: int)
    ensures Run(w, [l] + ls, file, head) == Run(Step(w, l, file, head), ls, file, head)
  {
    assert ([l] + ls)[1..] == ls;
  }

  lemma {:induction false} AnswerShown(w: Walk, ms: seq<Item>, o: nat, n: nat, file: string, head: int)
    requires ms != [] && ms[0].Shown?
    ensures Answer(w, ms, o, n, file, head)
         == Answer(Step(w, LineOf(ms[0].op), file, head), ms[1..], AfterOld(ms[0].op, o), AfterNew(ms[0].op, n),
                   file, head)
  {
    var op := ms[0].op;
    RunOne(w, LineOf(op), Render(ms[1..], AfterOld(op, o), AfterNew(op, n)), file, head);
  }

  lemma {:induction false} AnswerOpen(w: Walk, ms: seq<Item>, o: nat, n: nat, file: string, head: int)
    requires ms != [] && ms[0].Open?
    ensures Answer(w, ms, o, n, file, head)
         == Answer(Step(w, Header(ms[1..], o, n), file, head), ms[1..], o, n, file, head)
  {
    RunOne(w, Header(ms[1..], o, n), Render(ms[1..], o, n), file, head);
  }

  lemma {:induction false} AnswerMark(w: Walk, ms: seq<Item>, o: nat, n: nat, file: string, head: int)
    requires w.Going? && ms != [] && ms[0].NoEol?
    ensures Answer(w, ms, o, n, file, head) == Answer(w, ms[1..], o, n, file, head)
  {
    RunOne(w, Mark, Render(ms[1..], o, n), file, head);
  }

  /** How the walk's numbers stand to the true position. */
  predicate Fits(w: Walk, ms: seq<Item>, o: nat, n: nat, inHunk: bool, g: Lag) {
    && w.Going? && w.inFile && w.seen && w.delta == n - o + g.delta
    && (inHunk ==>
          && w.hunk && w.o == o + 1 - g.o && w.n == n + 1 - g.n
          && 0 <= g.n <= 1 && (g.n == 1 ==> NewShown(ms) == 0))
  }

  /** What a shown line makes of the counters when the walk passes it. */
  function Past(w: Walk, op: Op): Walk
    requires w.Going?
  {
    if LooksOld(LineOf(op)) then w
    else
      match op
      case Keep(_) => w.(o := w.o + 1, n := w.n + 1, delta := w.n - w.o)
      case Del(_) => w.(o := w.o + 1, delta := w.n - (w.o + 1))
      case Add(_) => w.(n := w.n + 1, delta := w.n + 1 - w.o)
  }

  /** The counters after a hunk header. */
  function Opened(w: Walk, ms: seq<Item>, o: nat, n: nat): Walk
    requires w.Going? && ms != []
  {
    var h := Header(ms[1..], o, n);
    w.(o := h.os, n := h.ns, hunk := true)
  }

  lemma {:induction false} OpenFits(w: Walk, ms: seq<Item>, o: nat, n: nat, inHunk: bool, g: Lag, file: string,
                                    head: int)
    requires Fits(w, ms, o, n, inHunk, g) && ms != [] && ms[0].Open?
    requires head >= n && (head == n ==> NewShown(ms[1..]) == 0)
    ensures Step(w, Header(ms[1..], o, n), file, head) == Opened(w, ms, o, n)
    ensures Fits(Opened(w, ms, o, n), ms[1..], o, n, true, OpenLag(g, ms[1..]))
  {
  }

  lemma {:induction false} ShownFits(w: Walk, ms: seq<Item>, o: nat, n: nat, g: Lag)
    requires Fits(w, ms, o, n, true, g) && ms != [] && ms[0].Shown?
    ensures Fits(Past(w, ms[0].op), ms[1..], AfterOld(ms[0].op, o), AfterNew(ms[0].op, n), true, NextLag(g, ms[0].op))
  {
  }

  /** Behind the hidden line that follows, an earlier line is answered by the difference in force. */
  lemma {:induction false} LongPassed(w: Walk, ms: seq<Item>, o: nat, n: nat, file: string, head: int)
    requires Shaped(ms, false) && w.Going? && w.inFile && w.seen && head < n
    ensures Answer(w, ms, o, n, file, head) == Some(head - w.delta)
    decreases |ms|
  {
    if ms != [] && ms[0].Hidden? {
      LongPassed(w, ms[1..], o + 1, n + 1, file, head);
    } else if ms != [] {
      AnswerOpen(w, ms, o, n, file, head);
      AnswerDone(Step(w, Header(ms[1..], o, n), file, head), ms[1..], o, n, file, head);
    }
  }

  /** The hidden line just passed, with old number h, is answered rightly exactly if it settles. */
  lemma {:induction false} JustPassed(w: Walk, ms: seq<Item>, o: nat, n: nat, inHunk: bool, g: Lag, file: string,
                                      h: int)
    requires Fits(w, ms, o, n, inHunk, g) && Shaped(ms, inHunk) && (inHunk ==> NewShown(ms) == 0)
    ensures Answer(w, ms, o, n, file, n) == Some(h) <==> Settles(ms, g, w.delta - (n - h))
    decreases |ms|
  {
    if ms != [] {
      var rest := ms[1..];
      match ms[0]
      case Hidden(_) => LongPassed(w, rest, o + 1, n + 1, file, n);
      case NoEol =>
        AnswerMark(w, ms, o, n, file, n);
        JustPassed(w, rest, o, n, true, g, file, h);
      case Shown(op) =>
        AnswerShown(w, ms, o, n, file, n);
        ShownFits(w, ms, o, n, g);
        JustPassed(Past(w, op), rest, o + 1, n, true, NextLag(g, op), file, h);
      case Open =>
        AnswerOpen(w, ms, o, n, file, n);
        if NewShown(rest) > 0 {
          AnswerDone(Step(w, Header(rest, o, n), file, n), rest, o, n, file, n);
        } else {
          OpenFits(w, ms, o, n, inHunk, g, file, n);
          JustPassed(Opened(w, ms, o, n), rest, o, n, true, OpenLag(g, rest), file, h);
        }
    }
  }

  /** A shown new line is answered where it stands: an added one by None, a kept one by the counter. */
  lemma {:induction false} AnswerHere(w: Walk, ms: seq<Item>, o: nat, n: nat, g: Lag, file: string)
    requires Fits(w, ms, o, n, true, g) && ms != [] && ms[0].Shown? && !ms[0].op.Del? && !IsPlus(ms[0])
    ensures Answer(w, ms, o, n, file, n + 1) == if ms[0].op.Add? then None else Some(o + 1 - g.o)
  {
    var op := ms[0].op;
    AnswerShown(w, ms, o, n, file, n + 1);
    AnswerDone(Step(w, LineOf(op), file, n + 1), ms[1..], AfterOld(op, o), AfterNew(op, n), file, n + 1);
  }

  lemma {:induction false} HiddenScript(ms: seq<Item>, o: nat, k: int)
    requires ms != [] && ms[0].Hidden?
    ensures NewCount(Script(ms)) == 1 + NewCount(Script(ms[1..]))
    ensures Shift(ToOld(Script(ms), k), o)
         == if k == 1 then Some(o + 1) else Shift(ToOld(Script(ms[1..]), k - 1), o + 1)
  {
    assert Script(ms)[1..] == Script(ms[1..]);
  }

  lemma {:induction false} ShownScript(ms: seq<Item>, o: nat, n: nat, head: int)
    requires ms != [] && ms[0].Shown? && head > n
    ensures n + NewCount(Script(ms)) == AfterNew(ms[0].op, n) + NewCount(Script(ms[1..]))
    ensures Shift(ToOld(Script(ms), head - n), o)
         == if head > AfterNew(ms[0].op, n)
            then Shift(ToOld(Script(ms[1..]), head - AfterNew(ms[0].op, n)), AfterOld(ms[0].op, o))
            else if ms[0].op.Keep? then Some(o + 1) else None
  {
    assert Script(ms)[1..] == Script(ms[1..]);
  }

  /** The walk's answer for a new line after this place is the script's. */
  predicate Agrees(w: Walk, ms: seq<Item>, o: nat, n: nat, file: string, head: int) {
    Answer(w, ms, o, n, file, head) == Shift(ToOld(Script(ms), head - n), o)
  }

  lemma {:induction false} MarkAgrees(w: Walk, ms: seq<Item>, o: nat, n: nat, file: string, head: int)
    requires w.Going? && ms != [] && ms[0].NoEol?
    ensures Agrees(w, ms, o, n, file, head) == Agrees(w, ms[1..], o, n, file, head)
    ensures Script(ms) == Script(ms[1..])
  {
    AnswerMark(w, ms, o, n, file, head);
  }

  lemma {:induction false} OpenAgrees(w: Walk, ms: seq<Item>, o: nat, n: nat, inHunk: bool, g: Lag, file: string,
                                      head: int)
    requires Fits(w, ms, o, n, inHunk, g) && ms != [] && ms[0].Open? && head > n
    ensures Agrees(w, ms, o, n, file, head) == Agrees(Opened(w, ms, o, n), ms[1..], o, n, file, head)
    ensures Script(ms) == Script(ms[1..])
  {
    OpenFits(w, ms, o, n, inHunk, g, file, head);
    AnswerOpen(w, ms, o, n, file, head);
  }

  lemma {:induction false} HiddenAgrees(w: Walk, ms: seq<Item>, o: nat, n: nat, inHunk: bool, g: Lag, file: string,
                                        head: int)
    requires Fits(w, ms, o, n, inHunk, g) && Shaped(ms, inHunk) && ms != [] && ms[0].Hidden? && head > n
    ensures head == n + 1 ==> Agrees(w, ms, o, n, file, head) == Settles(ms[1..], g, g.delta)
    ensures head > n + 1 ==> Agrees(w, ms, o, n, file, head) == Agrees(w, ms[1..], o + 1, n + 1, file, head)
    ensures NewCount(Script(ms)) == 1 + NewCount(Script(ms[1..]))
  {
    HiddenScript(ms, o, head - n);
    JustPassed(w, ms[1..], o + 1, n + 1, false, g, file, o + 1);
  }

  lemma {:induction false} HereAgrees(w: Walk, ms: seq<Item>, o: nat, n: nat, g: Lag, file: string)
    requires Fits(w, ms, o, n, true, g) && ms != [] && ms[0].Shown? && !ms[0].op.Del? && !IsPlus(ms[0])
    ensures Agrees(w, ms, o, n, file, n + 1) == (ms[0].op.Add? || g.o == 0)
    ensures NewCount(Script(ms)) == 1 + NewCount(Script(ms[1..]))
  {
    ShownScript(ms, o, n, n + 1);
    AnswerHere(w, ms, o, n, g, file);
  }

  lemma {:induction false} LaterAgrees(w: Walk, ms: seq<Item>, o: nat, n: nat, g: Lag, file: string, head: int)
    requires Fits(w, ms, o, n, true, g) && ms != [] && ms[0].Shown? && !IsPlus(ms[0]) && head > AfterNew(ms[0].op, n)
    ensures Agrees(w, ms, o, n, file, head)
         == Agrees(Past(w, ms[0].op), ms[1..], AfterOld(ms[0].op, o), AfterNew(ms[0].op, n), file, head)
    ensures n + NewCount(Script(ms)) == AfterNew(ms[0].op, n) + NewCount(Script(ms[1..]))
  {
    ShownScript(ms, o, n, head);
    AnswerShown(w, ms, o, n, file, head);
  }

  /** Wherever the counters are right when needed, every new line gets its old number. */
  lemma {:induction false} Right(w: Walk, ms: seq<Item>, o: nat, n: nat, inHunk: bool, g: Lag, file: string, head: int)
    requires Fits(w, ms, o, n, inHunk, g) && Shaped(ms, inHunk) && Pluses(ms) == 0 && Exact(ms, g)
    requires n < head <= n + NewCount(Script(ms))
    ensures Agrees(w, ms, o, n, file, head)
    decreases |ms|
  {
    match ms[0]
    case NoEol =>
      MarkAgrees(w, ms, o, n, file, head);
      Right(w, ms[1..], o, n, true, g, file, head);
    case Open =>
      OpenAgrees(w, ms, o, n, inHunk, g, file, head);
      OpenFits(w, ms, o, n, inHunk, g, file, head);
      Right(Opened(w, ms, o, n), ms[1..], o, n, true, OpenLag(g, ms[1..]), file, head);
    case Hidden(_) =>
      HiddenAgrees(w, ms, o, n, inHunk, g, file, head);
      if head > n + 1 {
        Right(w, ms[1..], o + 1, n + 1, false, g, file, head);
      }
    case Shown(op) =>
      if head == n + 1 && !op.Del? {
        HereAgrees(w, ms, o, n, g, file);
      } else {
        LaterAgrees(w, ms, o, n, g, file, head);
        ShownFits(w, ms, o, n, g);
        Right(Past(w, op), ms[1..], AfterOld(op, o), AfterNew(op, n), true, NextLag(g, op), file, head);
      }
  }

  /** Otherwise some line gets a wrong answer. */
  lemma {:induction false} Wrong(w: Walk, ms: seq<Item>, o: nat, n: nat, inHunk: bool, g: Lag, file: string)
    returns (head: int)
    requires Fits(w, ms, o, n, inHunk, g) && Shaped(ms, inHunk) && Pluses(ms) == 0 && !Exact(ms, g)
    ensures n < head <= n + NewCount(Script(ms)) && !Agrees(w, ms, o, n, file, head)
    decreases |ms|
  {
    match ms[0]
    case NoEol =>
      head := Wrong(w, ms[1..], o, n, true, g, file);
      MarkAgrees(w, ms, o, n, file, head);
    case Open =>
      OpenFits(w, ms, o, n, inHunk, g, file, n + 1);
      head := Wrong(Opened(w, ms, o, n), ms[1..], o, n, true, OpenLag(g, ms[1..]), file);
      OpenAgrees(w, ms, o, n, inHunk, g, file, head);
    case Hidden(_) =>
      head := n + 1;
      if Settles(ms[1..], g, g.delta) {
        head := Wrong(w, ms[1..], o + 1, n + 1, false, g, file);
      }
      HiddenAgrees(w, ms, o, n, inHunk, g, file, head);
    case Shown(op) =>
      if op.Keep? && g.o != 0 {
        head := n + 1;
        HereAgrees(w, ms, o, n, g, file);
      } else {
        ShownFits(w, ms, o, n, g);
        head := Wrong(Past(w, op), ms[1..], AfterOld(op, o), AfterNew(op, n), true, NextLag(g, op), file);
        LaterAgrees(w, ms, o, n, g, file, head);
      }
  }

  /** Every hunk shows an old and a new line, and no removed line looks like a file header. */
  predicate Roomy(ms: seq<Item>) {
    ms == [] ||
    (!Skipped(ms[0]) && (ms[0].Open? ==> OldShown(ms[1..]) > 0 && NewShown(ms[1..]) > 0) && Roomy(ms[1..]))
  }

  lemma {:induction false} RoomyIsExact(ms: seq<Item>, inHunk: bool)
    requires Roomy(ms) && Shaped(ms, inHunk)
    ensures Exact(ms, NONE)
  {
    if ms != [] {
      RoomyIsExact(ms[1..], !ms[0].Hidden?);
    }
  }

  lemma {:induction false} RunConcat(w: Walk, a: seq<Line>, b: seq<Line>, file: string, head: int)
    ensures Run(w, a + b, file, head) == Run(Run(w, a, file, head), b, file, head)
    decreases |a|
  {
    if a == [] {
      assert a + b == b;
    } else {
      assert (a + b)[1..] == a[1..] + b;
      RunConcat(Step(w, a[0], file, head), a[1..], b, file, head);
    }
  }

  /** No line of another file's part reads as the header of this file. */
  predicate Elsewhere(ms: seq<Item>, file: string) {
    ms == [] || ((IsPlus(ms[0]) ==> NewPath(LineOf(ms[0].op)) != file) && Elsewhere(ms[1..], file))
  }

  /** No other part of the diff reads as if it entered the file. */
  predicate Clear(fs: seq<FileDiff>, file: string) {
    fs == [] || ((fs[0].name != Some(file) ==> Elsewhere(fs[0].items, file)) && Clear(fs[1..], file))
  }

  /** The walk is outside the file and outside any hunk. */
  predicate Outside(w: Walk) {
    w.Going? && !w.inFile && !w.hunk
  }

  /** Another file's lines change nothing. */
  lemma {:induction false} RunOutside(w: Walk, ms: seq<Item>, o: nat, n: nat, file: string, head: int)
    requires Outside(w) && Elsewhere(ms, file)
    ensures Run(w, Render(ms, o, n), file, head) == w
    decreases |ms|
  {
    if ms != [] {
      match ms[0]
      case Hidden(_) => RunOutside(w, ms[1..], o + 1, n + 1, file, head);
      case Open =>
        RunOne(w, Header(ms[1..], o, n), Render(ms[1..], o, n), file, head);
        RunOutside(w, ms[1..], o, n, file, head);
      case Shown(op) =>
        RunOne(w, LineOf(op), Render(ms[1..], AfterOld(op, o), AfterNew(op, n)), file, head);
        RunOutside(w, ms[1..], AfterOld(op, o), AfterNew(op, n), file, head);
      case NoEol =>
        RunOne(w, Mark, Render(ms[1..], o, n), file, head);
        RunOutside(w, ms[1..], o, n, file, head);
    }
  }

  predicate Within(w: Walk) {
    w.Done? || (w.inFile && w.seen)
  }

  /** The file's own lines never leave it. */
  lemma {:induction false} RunWithin(w: Walk, ms: seq<Item>, o: nat, n: nat, file: string, head: int)
    requires Within(w) && Pluses(ms) == 0
    ensures Within(Run(w, Render(ms, o, n), file, head))
    decreases |ms|
  {
    if ms != [] {
      match ms[0]
      case Hidden(_) => RunWithin(w, ms[1..], o + 1, n + 1, file, head);
      case Open =>
        RunOne(w, Header(ms[1..], o, n), Render(ms[1..], o, n), file, head);
        RunWithin(Step(w, Header(ms[1..], o, n), file, head), ms[1..], o, n, file, head);
      case Shown(op) =>
        RunOne(w, LineOf(op), Render(ms[1..], AfterOld(op, o), AfterNew(op, n)), file, head);
        RunWithin(Step(w, LineOf(op), file, head), ms[1..], AfterOld(op, o), AfterNew(op, n), file, head);
      case NoEol =>
        RunOne(w, Mark, Render(ms[1..], o, n), file, head);
        RunWithin(Step(w, Mark, file, head), ms[1..], o, n, file, head);
    }
  }

  // ---------------------------------------------------------------- added lines that look like headers

  /** The number of the first added line that looks like a file header. */
  function FirstPlus(ms: seq<Item>, n: nat): nat
    requires Pluses(ms) > 0
  {
    if IsPlus(ms[0]) then n + 1
    else
      match ms[0]
      case Hidden(_) => FirstPlus(ms[1..], n + 1)
      case Shown(op) => FirstPlus(ms[1..], AfterNew(op, n))
      case Open => FirstPlus(ms[1..], n)
      case NoEol => FirstPlus(ms[1..], n)
  }

  lemma {:induction false} FirstPlusIsAdded(ms: seq<Item>, n: nat)
    requires Pluses(ms) > 0
    ensures n < FirstPlus(ms, n) <= n + NewCount(Script(ms))
    ensures ToOld(Script(ms), FirstPlus(ms, n) - n).None?
    ensures IsPlus(ms[0])
         || FirstPlus(ms, n) >= (if ms[0].Hidden? || (ms[0].Shown? && !ms[0].op.Del?) then n + 2 else n + 1)
  {
    var head := FirstPlus(ms, n);
    if IsPlus(ms[0]) {
      ShownScript(ms, 0, n, head);
    } else {
      match ms[0]
      case Hidden(_) =>
        FirstPlusIsAdded(ms[1..], n + 1);
        HiddenScript(ms, 0, head - n);
      case Shown(op) =>
        FirstPlusIsAdded(ms[1..], AfterNew(op, n));
        ShownScript(ms, 0, n, head);
      case Open => FirstPlusIsAdded(ms[1..], n);
      case NoEol => FirstPlusIsAdded(ms[1..], n);
    }
  }

  /** The walk has not answered None. */
  predicate NotNone(w: Walk) {
    w.Done? ==> w.answer.Some?
  }

  /** The walk cannot answer None for a line that is passed: a hunk it is in shows no more new lines. */
  predicate Late(w: Walk, ms: seq<Item>) {
    NotNone(w) && (w.Going? && w.hunk ==> w.inFile && NewShown(ms) == 0)
  }

  lemma {:induction false} LateStays(w: Walk, ms: seq<Item>, o: nat, n: nat, inHunk: bool, file: string, head: int)
    requires Late(w, ms) && Shaped(ms, inHunk) && head <= n
    ensures Late(Run(w, Render(ms, o, n), file, head), [])
    decreases |ms|
  {
    if ms != [] {
      var rest := ms[1..];
      match ms[0]
      case Hidden(_) =>
        assert rest == [] || rest[0].Hidden? || rest[0].Open?;
        LateStays(w, rest, o + 1, n + 1, false, file, head);
      case Open =>
        RunOne(w, Header(rest, o, n), Render(rest, o, n), file, head);
        LateStays(Step(w, Header(rest, o, n), file, head), rest, o, n, true, file, head);
      case Shown(op) =>
        RunOne(w, LineOf(op), Render(rest, AfterOld(op, o), AfterNew(op, n)), file, head);
        LateStays(Step(w, LineOf(op), file, head), rest, AfterOld(op, o), AfterNew(op, n), true, file, head);
      case NoEol =>
        RunOne(w, Mark, Render(rest, o, n), file, head);
        LateStays(Step(w, Mark, file, head), rest, o, n, true, file, head);
    }
  }

  /** Before the first line that looks like a header the walk counts new lines rightly where they come. */
  predicate Early(w: Walk, ms: seq<Item>, n: nat, inHunk: bool) {
    && NotNone(w)
    && (w.Going? ==> w.inFile && (inHunk ==> w.hunk) && (inHunk && NewShown(ms) > 0 ==> w.n == n + 1))
  }

  /** For the number of that line the walk never answers None. */
  lemma {:induction false} EarlyToLate(w: Walk, ms: seq<Item>, o: nat, n: nat, inHunk: bool, file: string)
    requires Early(w, ms, n, inHunk) && Shaped(ms, inHunk) && Pluses(ms) > 0
    ensures Late(Run(w, Render(ms, o, n), file, FirstPlus(ms, n)), [])
    decreases |ms|
  {
    var rest, head := ms[1..], FirstPlus(ms, n);
    FirstPlusIsAdded(ms, n);
    match ms[0]
    case Hidden(_) => EarlyToLate(w, rest, o + 1, n + 1, false, file);
    case Open =>
      RunOne(w, Header(rest, o, n), Render(rest, o, n), file, head);
      EarlyToLate(Step(w, Header(rest, o, n), file, head), rest, o, n, true, file);
    case Shown(op) =>
      var w' := Step(w, LineOf(op), file, head);
      RunOne(w, LineOf(op), Render(rest, AfterOld(op, o), AfterNew(op, n)), file, head);
      if IsPlus(ms[0]) {
        LateStays(w', rest, AfterOld(op, o), AfterNew(op, n), true, file, head);
      } else {
        EarlyToLate(w', rest, AfterOld(op, o), AfterNew(op, n), true, file);
      }
    case NoEol =>
      RunOne(w, Mark, Render(rest, o, n), file, head);
      EarlyToLate(Step(w, Mark, file, head), rest, o, n, true, file);
  }

  // ---------------------------------------------------------------- whole diffs

  /** A file's header lines enter that file and no other. */
  lemma {:induction false} RunHeader(w: Walk, f: FileDiff, file: string, head: int)
    requires Outside(w) && file != DEV_NULL
    ensures Run(w, Top(f), file, head) == if f.name == Some(file) then w.(inFile := true, seen := true) else w
  {
    var l0, l1, l2 := Git, Minus("-- " + f.before), NewHeader(f);
    assert Top(f) == [l0] + ([l1] + ([l2] + []));
    RunOne(w, l0, [l1] + ([l2] + []), file, head);
    RunOne(w, l1, [l2] + [], file, head);
    RunOne(w, l2, [], file, head);
    HeaderNames(f, file);
  }

  lemma {:induction false} HeaderNames(f: FileDiff, file: string)
    requires file != DEV_NULL
    ensures LooksNew(NewHeader(f)) && (NewPath(NewHeader(f)) == file <==> f.name == Some(file))
  {
    var text := NewHeader(f).text;
    if f.name.Some? {
      assert text[5..] == f.name.value;
    } else {
      assert text[..5] == "++ /d";
      assert text[3..] == DEV_NULL;
      TrimmedStays(DEV_NULL);
    }
  }

  lemma {:induction false} RunFile(w: Walk, f: FileDiff, rest: seq<Line>, file: string, head: int)
    ensures Run(w, RenderFile(f) + rest, file, head)
         == Run(Run(Run(w, Top(f), file, head), Render(f.items, 0, 0), file, head), rest, file, head)
  {
    RunConcat(w, RenderFile(f), rest, file, head);
    RunConcat(w, Top(f), Render(f.items, 0, 0), file, head);
  }

  lemma {:induction false} RunRest(w: Walk, fs: seq<FileDiff>, file: string, head: int)
    requires Within(w)
    ensures Close(Run(w, RenderAll(fs), file, head), head) == Close(w, head)
  {
    if fs != [] {
      var ls := RenderAll(fs);
      assert ls[0] == Git;
      DoneStays(Step(w, Git, file, head), ls[1..], file, head);
    }
  }

  /** A part for another file is passed over. */
  lemma {:induction false} OtherPart(w: Walk, f: FileDiff, rest: seq<Line>, file: string, head: int)
    requires Outside(w) && Elsewhere(f.items, file) && file != DEV_NULL && f.name != Some(file)
    ensures Run(w, RenderFile(f) + rest, file, head) == Run(w, rest, file, head)
  {
    RunFile(w, f, rest, file, head);
    RunHeader(w, f, file, head);
    RunOutside(w, f.items, 0, 0, file, head);
  }

  const OPENED := Going(true, true, false, 0, 0, 0)

  /** In a whole diff only the file's own part matters, and what comes after it if the part leaves the
      file before its end. */
  lemma {:induction false} OwnPart(fs: seq<FileDiff>, i: nat, file: string, head: int) returns (rest: seq<FileDiff>)
    requires Clear(fs, file) && file != DEV_NULL && i < |fs| && fs[i].name == Some(file)
    requires forall j | 0 <= j < |fs| && j != i :: fs[j].name != Some(file)
    ensures BaseLine(RenderAll(fs), file, head)
         == Close(Run(Run(OPENED, Render(fs[i].items, 0, 0), file, head), RenderAll(rest), file, head), head)
    ensures Clear(rest, file) && forall j | 0 <= j < |rest| :: rest[j].name != Some(file)
  {
    var f := fs[0];
    rest := fs[1..];
    if i == 0 {
      RunFile(START, f, RenderAll(rest), file, head);
      RunHeader(START, f, file, head);
    } else {
      OtherPart(START, f, RenderAll(rest), file, head);
      rest := OwnPart(fs[1..], i - 1, file, head);
    }
  }

  lemma {:induction false} OwnPartDecides(fs: seq<FileDiff>, i: nat, file: string, head: int)
    requires Readable(fs) && Clear(fs, file) && file != DEV_NULL && i < |fs| && fs[i].name == Some(file)
    requires Pluses(fs[i].items) == 0
    ensures BaseLine(RenderAll(fs), file, head) == Answer(OPENED, fs[i].items, 0, 0, file, head)
  {
    var rest := OwnPart(fs, i, file, head);
    RunWithin(OPENED, fs[i].items, 0, 0, file, head);
    RunRest(Run(OPENED, Render(fs[i].items, 0, 0), file, head), rest, file, head);
  }

  /** The parts of other files leave a walk outside as it is. */
  lemma {:induction false} RestOutside(w: Walk, fs: seq<FileDiff>, file: string, head: int)
    requires Outside(w) && Clear(fs, file) && file != DEV_NULL
    requires forall j | 0 <= j < |fs| :: fs[j].name != Some(file)
    ensures Run(w, RenderAll(fs), file, head) == w
    decreases |fs|
  {
    if fs != [] {
      OtherPart(w, fs[0], RenderAll(fs[1..]), file, head);
      RestOutside(w, fs[1..], file, head);
    }
  }

  /** A file that the diff does not name, not even in an added line that looks like a header, keeps
      its line numbers. */
  lemma {:induction false} AbsentFileUnmoved(fs: seq<FileDiff>, file: string, head: int)
    requires Clear(fs, file) && file != DEV_NULL
    requires forall i | 0 <= i < |fs| :: fs[i].name != Some(file)
    ensures BaseLine(RenderAll(fs), file, head) == Some(head)
  {
    RestOutside(START, fs, file, head);
  }

  /** An added line that looks like a file header gets a wrong answer: it is taken for an old line. */
  lemma {:induction false} PlusesMislead(fs: seq<FileDiff>, i: nat, file: string) returns (head: int)
    requires Readable(fs) && Clear(fs, file) && file != DEV_NULL && i < |fs| && fs[i].name == Some(file)
    requires Pluses(fs[i].items) > 0
    ensures 1 <= head <= NewCount(Script(fs[i].items))
    ensures ToOld(Script(fs[i].items), head).None? && BaseLine(RenderAll(fs), file, head).Some?
  {
    var ms := fs[i].items;
    head := FirstPlus(ms, 0);
    FirstPlusIsAdded(ms, 0);
    var rest := OwnPart(fs, i, file, head);
    var w := Run(OPENED, Render(ms, 0, 0), file, head);
    EarlyToLate(OPENED, ms, 0, 0, false, file);
    if w.Done? || w.inFile {
      StaysSome(w, rest, file, head);
    } else {
      RestOutside(w, rest, file, head);
    }
  }

  lemma {:induction false} StaysSome(w: Walk, fs: seq<FileDiff>, file: string, head: int)
    requires NotNone(w) && (w.Done? || w.inFile)
    ensures Close(Run(w, RenderAll(fs), file, head), head).Some?
  {
    if fs != [] {
      var ls := RenderAll(fs);
      assert ls[0] == Git;
      DoneStays(Step(w, Git, file, head), ls[1..], file, head);
    }
  }

  /** _base_line gives every new line its old number, and None exactly to the added ones, if and only
      if no added line of the file's part looks like a header and the part is Exact. */
  lemma {:induction false} ExactIff(fs: seq<FileDiff>, i: nat, file: string)
    requires Readable(fs) && Clear(fs, file) && file != DEV_NULL && i < |fs| && fs[i].name == Some(file)
    ensures Pluses(fs[i].items) == 0 && Exact(fs[i].items, NONE)
       <==> forall head | 1 <= head <= NewCount(Script(fs[i].items)) ::
              BaseLine(RenderAll(fs), file, head) == ToOld(Script(fs[i].items), head)
  {
    var ms := fs[i].items;
    if Pluses(ms) > 0 {
      var head := PlusesMislead(fs, i, file);
    } else if Exact(ms, NONE) {
      forall head | 1 <= head <= NewCount(Script(ms))
        ensures BaseLine(RenderAll(fs), file, head) == ToOld(Script(ms), head)
      {
        OwnPartDecides(fs, i, file, head);
        Right(OPENED, ms, 0, 0, false, NONE, file, head);
      }
    } else {
      var head := Wrong(OPENED, ms, 0, 0, false, NONE, file);
      OwnPartDecides(fs, i, file, head);
    }
  }

  /** The two line maps are inverse to each other when every hunk has room: map_line on the diff
      without context and _base_line on any diff with context of the same script. */
  lemma {:induction false} MapsAreInverse(fs: seq<FileDiff>, i: nat, file: string, line: int, head: int)
    requires Readable(fs) && Clear(fs, file) && file != DEV_NULL && i < |fs| && fs[i].name == Some(file)
    requires Roomy(fs[i].items) && Pluses(fs[i].items) == 0
    requires 1 <= line <= OldCount(Script(fs[i].items)) && 1 <= head <= NewCount(Script(fs[i].items))
    ensures MapLine.Follow(MapLine.Diff(Script(fs[i].items)), line, 0) == Some(head)
       <==> BaseLine(RenderAll(fs), file, head) == Some(line)
  {
    var s := Script(fs[i].items);
    RoomyIsExact(fs[i].items, false);
    assert BaseLine(RenderAll(fs), file, head) == ToOld(s, head) by {
      ExactIff(fs, i, file);
    }
    assert MapLine.Follow(MapLine.Diff(s), line, 0) == ToNew(s, line) by {
      MapLine.FollowIsToNew(s, line);
    }
    NumbersAreInverse(s, line, head);
  }

  /** Removing the line "-- x" of an SQL script shifts the answer for the kept line after it. */
  lemma {:induction false} SkippedCommentMisleads()
    ensures var ms := [Open, Shown(Del("-- x")), Shown(Keep("a"))];
            var fs := [FileDiff("a/q.sql", Some("q.sql"), ms)];
            Readable(fs) && ToOld(Script(ms), 1) == Some(2) && BaseLine(RenderAll(fs), "q.sql", 1) == Some(1)
  {
    var rest := [Shown(Del("-- x")), Shown(Keep("a"))];
    var ms := [Open] + rest;
    assert ms[1..] == rest && rest[1..] == [Shown(Keep("a"))] && rest[2..] == [];
    var fs := [FileDiff("a/q.sql", Some("q.sql"), ms)];
    assert [Shown(Keep("a"))][1..] == [] && fs[1..] == [];
    OwnPartDecides(fs, 0, "q.sql", 1);
    AnswerOpen(OPENED, ms, 0, 0, "q.sql", 1);
    AnswerShown(Opened(OPENED, ms, 0, 0), rest, 0, 0, "q.sql", 1);
    AnswerShown(Opened(OPENED, ms, 0, 0), rest[1..], 1, 0, "q.sql", 1);
  }
}
