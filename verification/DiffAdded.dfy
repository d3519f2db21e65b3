/**
  Which new lines a diff adds or shows: _added in tools/harness/static_lint.py, parse_unified_diff
  in tools/harness/context_pack.py and diff_lines in tools/harness/post_review.py.  The three
  readers differ in which lines move their counter and in how they read file names.
 */
module DiffAdded {
  import opened Collections
  import opened DiffScript
  import opened DiffText
  import opened Strings

  datatype Reader = Adds | Changes | Commentable   // _added, parse_unified_diff, diff_lines

  /** A reader's current file and counter; Broken when diff_lines counts before any hunk header. */
  datatype Walk = Reading(cur: Option<string>, n: Option<int>) | Broken

  datatype Hit = Hit(line: int, text: string)

  /** The file that a "+++ " line names for the reader. */
  function NameIn(r: Reader, l: Line): Option<string>
    requires LooksNew(l)
  {
    match r
    case Adds => if "++ b/" <= l.text then Some(l.text[5..]) else None
    case Changes => Some(if "++ b/" <= l.text then l.text[5..] else l.text[3..])
    case Commentable =>
      var name := Strip(l.text[3..]);
      Some(if "b/" <= name then name[2..] else name)
  }

  function Start(r: Reader): Walk {
    Reading(None, if r.Adds? then Some(0) else None)
  }

  /** The line moves the counter of a reader that is in a file. */
  predicate Counts(r: Reader, l: Line) {
    match r
    case Adds => l.Plus? || l.Context? || l.Git?
    case Changes => l.Plus? || l.Context? || l.Git? || l.Mark?
    case Commentable => l.Plus? || l.Context?
  }

  function Step(r: Reader, w: Walk, l: Line): Walk {
    if w.Broken? then w
    else if LooksNew(l) then w.(cur := NameIn(r, l))
    else if l.At? then w.(n := Some(if r.Changes? then l.ns - 1 else l.ns))
    else if w.cur.None? || !Counts(r, l) then w
    else if w.n.None? then if r.Commentable? then Broken else w
    else w.(n := Some(w.n.value + 1))
  }

  predicate Hits(r: Reader, w: Walk, l: Line, file: string) {
    && w.Reading? && w.cur == Some(file) && w.n.Some? && !LooksNew(l)
    && (l.Plus? || (r.Commentable? && l.Context?))
  }

  /** The entry for a line; parse_unified_diff counts before it records. */
  function HitOf(r: Reader, w: Walk, l: Line): Hit
    requires w.Reading? && w.n.Some? && (l.Plus? || l.Context?)
  {
    Hit(if r.Changes? then w.n.value + 1 else w.n.value, l.text)
  }

  /** The entries for one file, in the order found. */
  function Found(r: Reader, w: Walk, ls: seq<Line>, file: string): seq<Hit>
    decreases |ls|
  {
    if ls == [] then []
    else if Hits(r, w, ls[0], file) then [HitOf(r, w, ls[0])] + Found(r, Step(r, w, ls[0]), ls[1..], file)
    else Found(r, Step(r, w, ls[0]), ls[1..], file)
  }

  function Run(r: Reader, w: Walk, ls: seq<Line>): Walk
    decreases |ls|
  {
    if ls == [] then w else Run(r, Step(r, w, ls[0]), ls[1..])
  }

  function Numbers(hs: seq<Hit>): seq<int> {
    if hs == [] then [] else [hs[0].line] + Numbers(hs[1..])
  }

  function Get<T>(m: map<string, seq<T>>, file: string): seq<T> {
    if file in m then m[file] else []
  }

  lemma {:induction false} EntryStep(r: Reader, w: Walk, ls: seq<Line>, i: nat, file: string, before: seq<Hit>)
    requires i < |ls|
    ensures before + Found(r, w, ls[i..], file)
         == (if Hits(r, w, ls[i], file) then before + [HitOf(r, w, ls[i])] else before)
            + Found(r, Step(r, w, ls[i]), ls[i + 1..], file)
  {
    if Hits(r, w, ls[i], file) {
      Assoc(before, [HitOf(r, w, ls[i])], Found(r, Step(r, w, ls[i]), ls[i + 1..], file));
    }
  }

  lemma {:induction false} NumberStep(r: Reader, w: Walk, ls: seq<Line>, i: nat, file: string, before: seq<int>)
    requires i < |ls|
    ensures before + Numbers(Found(r, w, ls[i..], file))
         == (if Hits(r, w, ls[i], file) then before + [HitOf(r, w, ls[i]).line] else before)
            + Numbers(Found(r, Step(r, w, ls[i]), ls[i + 1..], file))
  {
    var rest := Found(r, Step(r, w, ls[i]), ls[i + 1..], file);
    if Hits(r, w, ls[i], file) {
      assert ([HitOf(r, w, ls[i])] + rest)[1..] == rest;
      Assoc(before, [HitOf(r, w, ls[i]).line], Numbers(rest));
    }
  }

  function NumberSet(hs: seq<Hit>): set<int> {
    if hs == [] then {} else {hs[0].line} + NumberSet(hs[1..])
  }

  lemma {:induction false} SetStep(r: Reader, w: Walk, ls: seq<Line>, i: nat, file: string, before: set<int>)
    requires i < |ls|
    ensures before + NumberSet(Found(r, w, ls[i..], file))
         == (if Hits(r, w, ls[i], file) then before + {HitOf(r, w, ls[i]).line} else before)
            + NumberSet(Found(r, Step(r, w, ls[i]), ls[i + 1..], file))
  {
    var rest := Found(r, Step(r, w, ls[i]), ls[i + 1..], file);
    if Hits(r, w, ls[i], file) {
      assert ([HitOf(r, w, ls[i])] + rest)[1..] == rest;
    }
  }

  /** _added */
  method Added(ls: seq<Line>) returns (out: map<string, seq<Hit>>)
    ensures forall f :: Get(out, f) == Found(Adds, Start(Adds), ls, f)
    ensures forall f | f in out :: out[f] != []
  {
    out := map[];
    var cur: Option<string>, n: int := None, 0;
    for i := 0 to |ls|
      invariant forall f | f in out :: out[f] != []
      invariant forall f ::
        Get(out, f) + Found(Adds, Reading(cur, Some(n)), ls[i..], f) == Found(Adds, Start(Adds), ls, f)
    {
      var ln := ls[i];
      forall f {
        EntryStep(Adds, Reading(cur, Some(n)), ls, i, f, Get(out, f));
      }
      if LooksNew(ln) {
        cur := NameIn(Adds, ln);
      } else if ln.At? {
        n := ln.ns;
      } else if cur.None? || LooksOld(ln) {
        continue;
      } else if ln.Plus? {
        out := out[cur.value := Get(out, cur.value) + [Hit(n, ln.text)]];
        n := n + 1;
      } else if !ln.Minus? && !ln.Mark? {
        n := n + 1;
      }
    }
  }

  /** parse_unified_diff; n is the number of the last new line read. */
  method ParseUnifiedDiff(ls: seq<Line>) returns (changed: map<string, seq<int>>)
    ensures forall f :: Get(changed, f) == Numbers(Found(Changes, Start(Changes), ls, f))
    ensures forall f | f in changed :: changed[f] != []
  {
    changed := map[];
    var cur: Option<string>, n: Option<int> := None, None;
    for i := 0 to |ls|
      invariant forall f | f in changed :: changed[f] != []
      invariant forall f ::
        Get(changed, f) + Numbers(Found(Changes, Reading(cur, n), ls[i..], f))
        == Numbers(Found(Changes, Start(Changes), ls, f))
    {
      var l := ls[i];
      ghost var w := Reading(cur, n);
      forall f {
        NumberStep(Changes, w, ls, i, f, Get(changed, f));
      }
      if LooksNew(l) {
        cur := NameIn(Changes, l);
      } else if l.At? {
        n := Some(l.ns - 1);
      } else if cur.None? || n.None? || l.Minus? {
        continue;
      } else {
        n := Some(n.value + 1);
        if l.Plus? {
          assert HitOf(Changes, w, l).line == n.value;
          changed := changed[cur.value := Get(changed, cur.value) + [n.value]];
        }
      }
      assert Reading(cur, n) == Step(Changes, w, l);
    }
  }

  /** A "+++ " line makes diff_lines list the file. */
  predicate Named(ls: seq<Line>, file: string) {
    ls != [] && ((LooksNew(ls[0]) && NameIn(Commentable, ls[0]) == Some(file)) || Named(ls[1..], file))
  }

  function GetSet(m: map<string, set<int>>, file: string): set<int> {
    if file in m then m[file] else {}
  }

  lemma {:induction false} BrokenStays(r: Reader, ls: seq<Line>)
    ensures Run(r, Broken, ls) == Broken
  {
    if ls != [] {
      BrokenStays(r, ls[1..]);
    }
  }

  /** diff_lines; it fails on a shown line that no hunk header precedes. */
  method DiffLines(ls: seq<Line>) returns (res: Result<map<string, set<int>>>)
    ensures res.Ok? <==> Run(Commentable, Start(Commentable), ls) != Broken
    ensures res.Ok? ==> forall f ::
      GetSet(res.value, f) == NumberSet(Found(Commentable, Start(Commentable), ls, f))
    ensures res.Ok? ==> forall f :: f in res.value <==> Named(ls, f)
  {
    var ok: map<string, set<int>>, cur: Option<string>, n: Option<int> := map[], None, None;
    for i := 0 to |ls|
      invariant cur.Some? ==> cur.value in ok
      invariant Run(Commentable, Start(Commentable), ls) == Run(Commentable, Reading(cur, n), ls[i..])
      invariant forall f :: f in ok || Named(ls[i..], f) <==> Named(ls, f)
      invariant forall f ::
        GetSet(ok, f) + NumberSet(Found(Commentable, Reading(cur, n), ls[i..], f))
        == NumberSet(Found(Commentable, Start(Commentable), ls, f))
    {
      var ln := ls[i];
      forall f {
        SetStep(Commentable, Reading(cur, n), ls, i, f, GetSet(ok, f));
      }
      assert ls[i..][1..] == ls[i + 1..];
      if LooksNew(ln) {
        cur := NameIn(Commentable, ln);
        if cur.value !in ok {
          ok := ok[cur.value := {}];
        }
      } else if ln.At? {
        n := Some(ln.ns);
      } else if cur.Some? && ln.Minus? {
        continue;
      } else if cur.Some? && (ln.Plus? || ln.Context?) {
        if n.None? {
          BrokenStays(Commentable, ls[i + 1..]);
          return ValueError;
        }
        ok := ok[cur.value := ok[cur.value] + {n.value}];
        n := Some(n.value + 1);
      }
    }
    return Ok(ok);
  }

  /** What the reader is meant to find in a file: its added lines, or all the new lines shown. */
  function Truth(r: Reader, ms: seq<Item>, n: nat): seq<Hit> {
    if ms == [] then []
    else if ms[0].Hidden? then Truth(r, ms[1..], n + 1)
    else if !ms[0].Shown? then Truth(r, ms[1..], n)
    else if ms[0].op.Del? then Truth(r, ms[1..], n)
    else if ms[0].op.Add? || r.Commentable? then [Hit(n + 1, ms[0].op.text)] + Truth(r, ms[1..], n + 1)
    else Truth(r, ms[1..], n + 1)
  }

  /** No added line follows a "\\ No newline" mark in its hunk. */
  predicate MarkSafe(ms: seq<Item>, marked: bool) {
    ms == [] ||
    match ms[0]
    case Hidden(_) => MarkSafe(ms[1..], false)
    case Open => MarkSafe(ms[1..], false)
    case Shown(op) => (op.Add? ==> !marked) && MarkSafe(ms[1..], marked)
    case NoEol => MarkSafe(ms[1..], true)
  }

  /** The reader is in the file, and its counter is ahead by the marks counted in this hunk. */
  predicate Tuned(r: Reader, w: Walk, ms: seq<Item>, n: nat, inHunk: bool, file: string, marks: nat) {
    && w.Reading? && w.cur == Some(file) && (marks > 0 ==> r.Changes? && inHunk)
    && (inHunk ==> w.n.Some?)
    && (inHunk && NewShown(ms) > 0 ==> w.n.value == n + marks + (if r.Changes? then 0 else 1))
  }

  lemma {:induction false} FoundOne(r: Reader, w: Walk, l: Line, ls: seq<Line>, file: string)
    ensures Found(r, w, [l] + ls, file)
         == if Hits(r, w, l, file) then [HitOf(r, w, l)] + Found(r, Step(r, w, l), ls, file)
            else Found(r, Step(r, w, l), ls, file)
    ensures Run(r, w, [l] + ls) == Run(r, Step(r, w, l), ls)
  {
    assert ([l] + ls)[1..] == ls;
  }

  lemma {:induction false} SameHead<T>(a: T, s: seq<T>, b: T, t: seq<T>)
    ensures [a] + s == [b] + t <==> a == b && s == t
  {
    assert ([a] + s)[1..] == s && ([b] + t)[1..] == t;
    assert ([a] + s)[0] == a && ([b] + t)[0] == b;
  }

  lemma {:induction false} TunedNext(r: Reader, w: Walk, ms: seq<Item>, n: nat, file: string, marks: nat)
    requires ms != [] && ms[0].Shown? && !IsPlus(ms[0]) && Tuned(r, w, ms, n, true, file, marks)
    ensures Tuned(r, Step(r, w, LineOf(ms[0].op)), ms[1..], AfterNew(ms[0].op, n), true, file, marks)
    ensures Hits(r, w, LineOf(ms[0].op), file) <==> ms[0].op.Add? || (r.Commentable? && ms[0].op.Keep?)
    ensures Hits(r, w, LineOf(ms[0].op), file) ==>
      HitOf(r, w, LineOf(ms[0].op)) == Hit(AfterNew(ms[0].op, n) + marks, ms[0].op.text)
  {
  }

  /** In its file a reader finds exactly what it is meant to, if and only if no mark misleads it. */
  lemma {:induction false} FoundInFile(r: Reader, w: Walk, ms: seq<Item>, o: nat, n: nat, inHunk: bool, file: string,
                                       marks: nat)
    requires Tuned(r, w, ms, n, inHunk, file, marks) && Shaped(ms, inHunk) && Pluses(ms) == 0
    ensures Found(r, w, Render(ms, o, n), file) == Truth(r, ms, n) <==> (r.Changes? ==> MarkSafe(ms, marks > 0))
    decreases |ms|
  {
    if ms != [] {
      var rest := ms[1..];
      match ms[0]
      case Hidden(_) => FoundInFile(r, w, rest, o + 1, n + 1, false, file, 0);
      case Open =>
        var l := Header(rest, o, n);
        FoundOne(r, w, l, Render(rest, o, n), file);
        FoundInFile(r, Step(r, w, l), rest, o, n, true, file, 0);
      case NoEol =>
        FoundOne(r, w, Mark, Render(rest, o, n), file);
        FoundInFile(r, Step(r, w, Mark), rest, o, n, true, file, if r.Changes? then marks + 1 else 0);
      case Shown(op) =>
        var l, o', n' := LineOf(op), AfterOld(op, o), AfterNew(op, n);
        FoundOne(r, w, l, Render(rest, o', n'), file);
        TunedNext(r, w, ms, n, file, marks);
        FoundInFile(r, Step(r, w, l), rest, o', n', true, file, marks);
        if Hits(r, w, l, file) {
          var later := Found(r, Step(r, w, l), Render(rest, o', n'), file);
          SameHead(HitOf(r, w, l), later, Hit(n', op.text), Truth(r, rest, n'));
        }
    }
  }

  /** No line of another file's part reads as the header of this file. */
  predicate Elsewhere(r: Reader, ms: seq<Item>, file: string) {
    ms == [] || ((IsPlus(ms[0]) ==> NameIn(r, LineOf(ms[0].op)) != Some(file)) && Elsewhere(r, ms[1..], file))
  }

  /** No other part of the diff reads as if it entered the file. */
  predicate Clear(r: Reader, fs: seq<FileDiff>, file: string) {
    fs == [] || ((fs[0].name != Some(file) ==> Elsewhere(r, fs[0].items, file)) && Clear(r, fs[1..], file))
  }

  /** Another file's lines yield nothing. */
  lemma {:induction false} FoundOutside(r: Reader, w: Walk, ms: seq<Item>, o: nat, n: nat, file: string)
    requires w.Reading? ==> w.cur != Some(file)
    requires Elsewhere(r, ms, file)
    ensures Found(r, w, Render(ms, o, n), file) == []
    decreases |ms|
  {
    if ms != [] {
      var rest := ms[1..];
      match ms[0]
      case Hidden(_) => FoundOutside(r, w, rest, o + 1, n + 1, file);
      case Open =>
        FoundOne(r, w, Header(rest, o, n), Render(rest, o, n), file);
        FoundOutside(r, Step(r, w, Header(rest, o, n)), rest, o, n, file);
      case NoEol =>
        FoundOne(r, w, Mark, Render(rest, o, n), file);
        FoundOutside(r, Step(r, w, Mark), rest, o, n, file);
      case Shown(op) =>
        FoundOne(r, w, LineOf(op), Render(rest, AfterOld(op, o), AfterNew(op, n)), file);
        FoundOutside(r, Step(r, w, LineOf(op)), rest, AfterOld(op, o), AfterNew(op, n), file);
    }
  }

  /** No line of a file's part breaks the reader. */
  lemma {:induction false} StaysReading(r: Reader, w: Walk, ms: seq<Item>, o: nat, n: nat, inHunk: bool)
    requires w.Reading? && Shaped(ms, inHunk) && (inHunk ==> w.n.Some?)
    ensures Run(r, w, Render(ms, o, n)).Reading?
    decreases |ms|
  {
    if ms != [] {
      var rest := ms[1..];
      match ms[0]
      case Hidden(_) => StaysReading(r, w, rest, o + 1, n + 1, false);
      case Open =>
        FoundOne(r, w, Header(rest, o, n), Render(rest, o, n), "");
        StaysReading(r, Step(r, w, Header(rest, o, n)), rest, o, n, true);
      case NoEol =>
        FoundOne(r, w, Mark, Render(rest, o, n), "");
        StaysReading(r, Step(r, w, Mark), rest, o, n, true);
      case Shown(op) =>
        FoundOne(r, w, LineOf(op), Render(rest, AfterOld(op, o), AfterNew(op, n)), "");
        StaysReading(r, Step(r, w, LineOf(op)), rest, AfterOld(op, o), AfterNew(op, n), true);
    }
  }

  /** Whatever the reader makes of them, it misses every added line that looks like a file header. */
  lemma {:induction false} FoundFewer(r: Reader, w: Walk, ms: seq<Item>, o: nat, n: nat, file: string, k: nat)
    ensures |Found(r, w, Render(ms, o, n), file)| + Pluses(ms) <= |Truth(r, ms, k)|
    decreases |ms|
  {
    if ms != [] {
      var rest := ms[1..];
      match ms[0]
      case Hidden(_) => FoundFewer(r, w, rest, o + 1, n + 1, file, k + 1);
      case Open =>
        FoundOne(r, w, Header(rest, o, n), Render(rest, o, n), file);
        FoundFewer(r, Step(r, w, Header(rest, o, n)), rest, o, n, file, k);
      case NoEol =>
        FoundOne(r, w, Mark, Render(rest, o, n), file);
        FoundFewer(r, Step(r, w, Mark), rest, o, n, file, k);
      case Shown(op) =>
        FoundOne(r, w, LineOf(op), Render(rest, AfterOld(op, o), AfterNew(op, n)), file);
        FoundFewer(r, Step(r, w, LineOf(op)), rest, AfterOld(op, o), AfterNew(op, n), file, AfterNew(op, k));
    }
  }

  lemma {:induction false} FoundConcat(r: Reader, w: Walk, a: seq<Line>, b: seq<Line>, file: string)
    ensures Found(r, w, a + b, file) == Found(r, w, a, file) + Found(r, Run(r, w, a), b, file)
    ensures Run(r, w, a + b) == Run(r, Run(r, w, a), b)
    decreases |a|
  {
    if a == [] {
      assert a + b == b;
    } else {
      assert (a + b)[1..] == a[1..] + b;
      FoundConcat(r, Step(r, w, a[0]), a[1..], b, file);
    }
  }

  /** Header lines yield nothing; the last one names the file of the part. */
  lemma {:induction false} FoundTop(r: Reader, w: Walk, f: FileDiff, file: string)
    requires w.Reading?
    ensures Found(r, w, Top(f), file) == []
    ensures Run(r, w, Top(f)).Reading? && Run(r, w, Top(f)).cur == NameIn(r, NewHeader(f))
    ensures w.cur == None ==> Run(r, w, Top(f)).n == w.n
  {
    var l0, l1, l2 := Git, Minus("-- " + f.before), NewHeader(f);
    assert Top(f) == [l0] + ([l1] + ([l2] + []));
    FoundOne(r, w, l0, [l1] + ([l2] + []), file);
    var w1 := Step(r, w, l0);
    FoundOne(r, w1, l1, [l2] + [], file);
    FoundOne(r, Step(r, w1, l1), l2, [], file);
  }

  /** The three readers agree on the names in file headers. */
  lemma {:induction false} NameInHeader(r: Reader, f: FileDiff)
    requires f.name.Some? ==> Trimmed(f.name.value)
    ensures f.name.Some? ==> NameIn(r, NewHeader(f)) == f.name
    ensures f.name.None? ==> NameIn(r, NewHeader(f)) == if r.Adds? then None else Some(DEV_NULL)
  {
    var text := NewHeader(f).text;
    if f.name.Some? {
      var v := f.name.value;
      assert text[5..] == v && text[3..] == "b/" + v;
      TrimmedStays("b/" + v);
      assert ("b/" + v)[2..] == v;
    } else {
      assert text[..5] == "++ /d" && text[3..] == DEV_NULL;
      TrimmedStays(DEV_NULL);
    }
  }

  /** Names of files, as git writes them without quotes. */
  predicate PlainNames(fs: seq<FileDiff>) {
    forall i | 0 <= i < |fs| && fs[i].name.Some? :: Trimmed(fs[i].name.value)
  }

  /** One file's part in front of the others. */
  lemma {:induction false} FoundPart(r: Reader, w: Walk, f: FileDiff, rest: seq<Line>, file: string)
    returns (w': Walk, w1: Walk)
    requires w.Reading? && Shaped(f.items, false) && (f.name.Some? ==> Trimmed(f.name.value)) && file != DEV_NULL
    ensures w1.Reading? && w'.Reading? && (f.name == Some(file) ==> w1.cur == Some(file))
    ensures Found(r, w, RenderFile(f) + rest, file)
         == Found(r, w1, Render(f.items, 0, 0), file) + Found(r, w', rest, file)
    ensures f.name != Some(file) && Elsewhere(r, f.items, file) ==> Found(r, w1, Render(f.items, 0, 0), file) == []
  {
    var body := Render(f.items, 0, 0);
    assert RenderFile(f) + rest == Top(f) + (body + rest);
    FoundConcat(r, w, Top(f), body + rest, file);
    FoundTop(r, w, f, file);
    NameInHeader(r, f);
    w1 := Run(r, w, Top(f));
    w' := Run(r, w1, body);
    FoundConcat(r, w1, body, rest, file);
    StaysReading(r, w1, f.items, 0, 0, false);
    if f.name != Some(file) && Elsewhere(r, f.items, file) {
      FoundOutside(r, w1, f.items, 0, 0, file);
    }
  }

  /** Nothing is found for a file that the diff does not name. */
  lemma {:induction false} FoundNowhere(r: Reader, w: Walk, fs: seq<FileDiff>, file: string)
    requires w.Reading? && Readable(fs) && PlainNames(fs) && Clear(r, fs, file) && file != DEV_NULL
    requires forall i | 0 <= i < |fs| :: fs[i].name != Some(file)
    ensures Found(r, w, RenderAll(fs), file) == []
    decreases |fs|
  {
    if fs != [] {
      ReadableTail(fs);
      var w', w1 := FoundPart(r, w, fs[0], RenderAll(fs[1..]), file);
      FoundNowhere(r, w', fs[1..], file);
    }
  }

  /** In a whole diff only the file's own part yields anything for it. */
  lemma {:induction false} OwnPart(r: Reader, w: Walk, fs: seq<FileDiff>, i: nat, file: string) returns (w1: Walk)
    requires w.Reading? && Readable(fs) && PlainNames(fs) && Clear(r, fs, file) && file != DEV_NULL
    requires i < |fs| && fs[i].name == Some(file)
    ensures w1.Reading? && w1.cur == Some(file) && Shaped(fs[i].items, false)
    ensures Found(r, w, RenderAll(fs), file) == Found(r, w1, Render(fs[i].items, 0, 0), file)
    decreases |fs|
  {
    ReadableTail(fs);
    var w', here := FoundPart(r, w, fs[0], RenderAll(fs[1..]), file);
    if i == 0 {
      w1 := here;
      FoundNowhere(r, w', fs[1..], file);
      assert Found(r, w1, Render(fs[0].items, 0, 0), file) + [] == Found(r, w1, Render(fs[0].items, 0, 0), file);
    } else {
      assert fs[1..][i - 1] == fs[i];
      w1 := OwnPart(r, w', fs[1..], i - 1, file);
      assert [] + Found(r, w', RenderAll(fs[1..]), file) == Found(r, w', RenderAll(fs[1..]), file);
    }
  }

  /** Over a whole diff each reader reports exactly what it is meant to for a file, if and only if no
      added line of the file looks like a file header and, for parse_unified_diff, which counts "No
      newline" marks as lines, no mark misleads it. */
  lemma {:induction false} FoundExactIff(r: Reader, fs: seq<FileDiff>, i: nat, file: string)
    requires Readable(fs) && PlainNames(fs) && Clear(r, fs, file) && file != DEV_NULL
    requires i < |fs| && fs[i].name == Some(file)
    ensures Found(r, Start(r), RenderAll(fs), file) == Truth(r, fs[i].items, 0)
       <==> Pluses(fs[i].items) == 0 && (r.Changes? ==> MarkSafe(fs[i].items, false))
  {
    var w := OwnPart(r, Start(r), fs, i, file);
    FoundFewer(r, w, fs[i].items, 0, 0, file, 0);
    if Pluses(fs[i].items) == 0 {
      FoundInFile(r, w, fs[i].items, 0, 0, false, file, 0);
    }
  }

  /** At least as many entries are missing as added lines look like file headers. */
  lemma {:induction false} PlusesMislead(r: Reader, fs: seq<FileDiff>, i: nat, file: string)
    requires Readable(fs) && PlainNames(fs) && Clear(r, fs, file) && file != DEV_NULL
    requires i < |fs| && fs[i].name == Some(file)
    ensures |Found(r, Start(r), RenderAll(fs), file)| + Pluses(fs[i].items) <= |Truth(r, fs[i].items, 0)|
  {
    var w := OwnPart(r, Start(r), fs, i, file);
    FoundFewer(r, w, fs[i].items, 0, 0, file, 0);
  }

  lemma {:induction false} ScriptStep(ms: seq<Item>, op: Op)
    requires ms != [] && ((ms[0] == Hidden(op.text) && op.Keep?) || ms[0] == Shown(op))
    ensures Script(ms) == [op] + Script(ms[1..]) && Script(ms)[1..] == Script(ms[1..])
  {
  }

  /** The lines _added and parse_unified_diff are meant to find are the added lines of the script,
      with their texts. */
  lemma {:induction false} TruthIsAdded(r: Reader, ms: seq<Item>, n: nat, h: Hit)
    requires !r.Commentable?
    ensures h in Truth(r, ms, n)
       <==> n < h.line <= n + NewCount(Script(ms)) && ToOld(Script(ms), h.line - n).None?
            && New(Script(ms))[h.line - n - 1] == h.text
  {
    if ms != [] {
      var rest := ms[1..];
      match ms[0]
      case Hidden(t) =>
        ScriptStep(ms, Keep(t));
        TruthIsAdded(r, rest, n + 1, h);
      case Open => TruthIsAdded(r, rest, n, h);
      case NoEol => TruthIsAdded(r, rest, n, h);
      case Shown(op) =>
        ScriptStep(ms, op);
        TruthIsAdded(r, rest, AfterNew(op, n), h);
    }
  }

  /** The two readers are in the file and count alike. */
  predicate InStep(a: Walk, c: Walk, inHunk: bool, file: string) {
    a.Reading? && c.Reading? && a.cur == c.cur == Some(file) && (inHunk ==> a.n.Some? && a.n == c.n)
  }

  /** What _added finds in the file's part, diff_lines finds too. */
  lemma {:induction false} AddedIsCommentable(a: Walk, c: Walk, ms: seq<Item>, o: nat, n: nat, inHunk: bool,
                                              file: string, h: Hit)
    requires InStep(a, c, inHunk, file) && Shaped(ms, inHunk) && Elsewhere(Adds, ms, file)
    requires h in Found(Adds, a, Render(ms, o, n), file)
    ensures h in Found(Commentable, c, Render(ms, o, n), file)
    decreases |ms|
  {
    var rest := ms[1..];
    match ms[0]
    case Hidden(_) => AddedIsCommentable(a, c, rest, o + 1, n + 1, false, file, h);
    case Open =>
      var l := Header(rest, o, n);
      FoundOne(Adds, a, l, Render(rest, o, n), file);
      FoundOne(Commentable, c, l, Render(rest, o, n), file);
      AddedIsCommentable(Step(Adds, a, l), Step(Commentable, c, l), rest, o, n, true, file, h);
    case NoEol =>
      FoundOne(Adds, a, Mark, Render(rest, o, n), file);
      FoundOne(Commentable, c, Mark, Render(rest, o, n), file);
      AddedIsCommentable(a, c, rest, o, n, true, file, h);
    case Shown(op) =>
      var l, o', n' := LineOf(op), AfterOld(op, o), AfterNew(op, n);
      FoundOne(Adds, a, l, Render(rest, o', n'), file);
      FoundOne(Commentable, c, l, Render(rest, o', n'), file);
      if IsPlus(ms[0]) {
        FoundOutside(Adds, Step(Adds, a, l), rest, o', n', file);
      } else if !(Hits(Adds, a, l, file) && h == HitOf(Adds, a, l)) {
        AddedIsCommentable(Step(Adds, a, l), Step(Commentable, c, l), rest, o', n', true, file, h);
      }
  }

  lemma {:induction false} InNumberSet(hs: seq<Hit>, h: Hit)
    requires h in hs
    ensures h.line in NumberSet(hs)
  {
    if hs[0] != h {
      InNumberSet(hs[1..], h);
    }
  }

  /** Whatever _added reports for a file, diff_lines allows a comment there, if no added line reads as
      the header of that very file. */
  lemma {:induction false} AddedLinesTakeComments(fs: seq<FileDiff>, i: nat, file: string, h: Hit)
    requires Readable(fs) && PlainNames(fs) && file != DEV_NULL && i < |fs| && fs[i].name == Some(file)
    requires Clear(Adds, fs, file) && Clear(Commentable, fs, file) && Elsewhere(Adds, fs[i].items, file)
    requires h in Found(Adds, Start(Adds), RenderAll(fs), file)
    ensures h.line in NumberSet(Found(Commentable, Start(Commentable), RenderAll(fs), file))
  {
    var a := OwnPart(Adds, Start(Adds), fs, i, file);
    var c := OwnPart(Commentable, Start(Commentable), fs, i, file);
    AddedIsCommentable(a, c, fs[i].items, 0, 0, false, file, h);
    InNumberSet(Found(Commentable, Start(Commentable), RenderAll(fs), file), h);
  }

  lemma {:induction false} RenderOne(f: FileDiff)
    ensures RenderAll([f]) == Top(f) + Render(f.items, 0, 0)
  {
    assert [f][1..] == [] && RenderFile(f) + [] == RenderFile(f);
  }

  /** In the diff of one file, a reader that has read the header finds what the hunks yield. */
  lemma {:induction false} AfterHeader(r: Reader, f: FileDiff, file: string)
    requires f.name == Some(file) && Trimmed(file)
    ensures Found(r, Start(r), RenderAll([f]), file)
         == Found(r, Run(r, Start(r), Top(f)), Render(f.items, 0, 0), file)
    ensures Run(r, Start(r), Top(f)).Reading? && Run(r, Start(r), Top(f)).cur == Some(file)
    ensures !r.Adds? ==> Run(r, Start(r), Top(f)).n == None
  {
    RenderOne(f);
    FoundConcat(r, Start(r), Top(f), Render(f.items, 0, 0), file);
    FoundTop(r, Start(r), f, file);
    NameInHeader(r, f);
  }

  /** A shown line in front of the rest of a part. */
  lemma {:induction false} FoundShown(r: Reader, w: Walk, op: Op, rest: seq<Item>, o: nat, n: nat, file: string)
    ensures var l, later := LineOf(op), Render(rest, AfterOld(op, o), AfterNew(op, n));
      Found(r, w, Render([Shown(op)] + rest, o, n), file)
      == if Hits(r, w, l, file) then [HitOf(r, w, l)] + Found(r, Step(r, w, l), later, file)
         else Found(r, Step(r, w, l), later, file)
  {
    assert ([Shown(op)] + rest)[1..] == rest;
    FoundOne(r, w, LineOf(op), Render(rest, AfterOld(op, o), AfterNew(op, n)), file);
  }

  /** The last line of a part. */
  lemma {:induction false} FoundLast(r: Reader, w: Walk, op: Op, o: nat, n: nat, file: string)
    requires Hits(r, w, LineOf(op), file)
    ensures Found(r, w, Render([Shown(op)], o, n), file) == [HitOf(r, w, LineOf(op))]
  {
    assert [Shown(op)] + [] == [Shown(op)];
    FoundShown(r, w, op, [], o, n, file);
  }

  function GainsNewline(): seq<Item> {
    [Open, Shown(Del("x")), NoEol, Shown(Add("x"))]
  }

  lemma {:induction false} GainsNewlineTruth()
    ensures Truth(Changes, GainsNewline(), 0) == [Hit(1, "x")] && NewCount(Script(GainsNewline())) == 1
  {
    var ms0 := [Shown(Add("x"))];
    var ms1 := [NoEol] + ms0;
    var ms2 := [Shown(Del("x"))] + ms1;
    assert GainsNewline()[1..] == ms2 && ms2[1..] == ms1 && ms1[1..] == ms0 && ms0[1..] == [];
  }

  /** Behind the hunk header the reader counts the removed line's mark. */
  lemma {:induction false} GainsNewlineShown(file: string)
    ensures Found(Changes, Reading(Some(file), Some(0)), Render(GainsNewline()[1..], 0, 0), file) == [Hit(2, "x")]
  {
    var ms0 := [Shown(Add("x"))];
    var ms1 := [NoEol] + ms0;
    assert GainsNewline()[1..] == [Shown(Del("x"))] + ms1 && ms1[1..] == ms0;
    var w := Reading(Some(file), Some(0));
    FoundShown(Changes, w, Del("x"), ms1, 0, 0, file);
    FoundOne(Changes, w, Mark, Render(ms0, 1, 0), file);
    FoundLast(Changes, Reading(Some(file), Some(1)), Add("x"), 1, 0, file);
  }

  lemma {:induction false} GainsNewlineShape()
    ensures Render(GainsNewline(), 0, 0) == [At(1, 1, 1, 1)] + Render(GainsNewline()[1..], 0, 0)
  {
    var ms0 := [Shown(Add("x"))];
    var ms1 := [NoEol] + ms0;
    var ms2 := [Shown(Del("x"))] + ms1;
    assert GainsNewline()[1..] == ms2 && ms2[1..] == ms1 && ms1[1..] == ms0 && ms0[1..] == [];
  }

  lemma {:induction false} GainsNewlineFound(file: string)
    ensures Found(Changes, Reading(Some(file), None), Render(GainsNewline(), 0, 0), file) == [Hit(2, "x")]
  {
    GainsNewlineShape();
    FoundOne(Changes, Reading(Some(file), None), At(1, 1, 1, 1), Render(GainsNewline()[1..], 0, 0), file);
    GainsNewlineShown(file);
  }

  /** Giving a file its missing last newline: parse_unified_diff reports line 2, which the file does
      not have, and not line 1. */
  lemma {:induction false} MarkMisleads(before: string, file: string)
    requires Trimmed(file) && file != DEV_NULL
    ensures Found(Changes, Start(Changes), RenderAll([FileDiff(before, Some(file), GainsNewline())]), file)
         == [Hit(2, "x")]
    ensures Truth(Changes, GainsNewline(), 0) == [Hit(1, "x")] && NewCount(Script(GainsNewline())) == 1
  {
    AfterHeader(Changes, FileDiff(before, Some(file), GainsNewline()), file);
    GainsNewlineFound(file);
    GainsNewlineTruth();
  }

  /** A part that leaves the file and enters it again by lines that look like headers. */
  function Reenters(file: string): seq<Item> {
    [Open, Shown(Add("++ x")), Shown(Add("a")), Shown(Add("++ b/" + file)), Shown(Add("b"))]
  }

  /** A reader in the file behind the hunk header, over the rest of that part. */
  lemma {:induction false} ReentersFound(r: Reader, file: string)
    requires Trimmed(file) && file != "x" && !r.Changes?
    ensures Found(r, Reading(Some(file), Some(1)), Render(Reenters(file)[1..], 0, 0), file)
         == [Hit(if r.Adds? then 1 else 2, "b")]
  {
    var last := [Shown(Add("b"))];
    var back := [Shown(Add("++ b/" + file))] + last;
    var away := [Shown(Add("a"))] + back;
    assert Reenters(file)[1..] == [Shown(Add("++ x"))] + away;
    var w := Reading(if r.Adds? then None else Some("x"), Some(1));
    FoundShown(r, Reading(Some(file), Some(1)), Add("++ x"), away, 0, 0, file);
    LeavesFile(r, file);
    FoundShown(r, w, Add("a"), back, 0, 1, file);
    ReentersBack(r, Step(r, w, Plus("a")), file);
  }

  lemma {:induction false} LeavesFile(r: Reader, file: string)
    requires !r.Changes?
    ensures LooksNew(Plus("++ x")) && NameIn(r, Plus("++ x")) == if r.Adds? then None else Some("x")
  {
    assert "++ x"[3..] == "x";
  }

  lemma {:induction false} ReentersBack(r: Reader, w: Walk, file: string)
    requires Trimmed(file) && !r.Changes? && w.Reading? && w.n.Some?
    ensures Found(r, w, Render([Shown(Add("++ b/" + file))] + [Shown(Add("b"))], 0, 2), file) == [Hit(w.n.value, "b")]
  {
    EntersAgain(r, file);
    FoundShown(r, w, Add("++ b/" + file), [Shown(Add("b"))], 0, 2, file);
    FoundLast(r, Reading(Some(file), w.n), Add("b"), 0, 3, file);
  }

  lemma {:induction false} EntersAgain(r: Reader, file: string)
    requires Trimmed(file)
    ensures LooksNew(Plus("++ b/" + file)) && NameIn(r, Plus("++ b/" + file)) == Some(file)
  {
    NameInHeader(r, FileDiff("", Some(file), []));
  }

  /** Then _added falls behind and reports line 1, where diff_lines does not allow a comment. */
  lemma {:induction false} ReentryMisleads(before: string, file: string)
    requires Trimmed(file) && file != DEV_NULL && file != "x"
    ensures var fs := [FileDiff(before, Some(file), Reenters(file))];
            && Found(Adds, Start(Adds), RenderAll(fs), file) == [Hit(1, "b")]
            && Found(Commentable, Start(Commentable), RenderAll(fs), file) == [Hit(2, "b")]
  {
    var f := FileDiff(before, Some(file), Reenters(file));
    var l, rest := At(0, 0, 1, 4), Reenters(file)[1..];
    ReentersShape(file);
    forall r: Reader | !r.Changes?
      ensures Found(r, Start(r), RenderAll([f]), file) == [Hit(if r.Adds? then 1 else 2, "b")]
    {
      AfterHeader(r, f, file);
      FoundOne(r, Run(r, Start(r), Top(f)), l, Render(rest, 0, 0), file);
      ReentersFound(r, file);
    }
  }

  lemma {:induction false} ReentersShape(file: string)
    ensures Render(Reenters(file), 0, 0) == [At(0, 0, 1, 4)] + Render(Reenters(file)[1..], 0, 0)
  {
    var ms0 := [Shown(Add("b"))];
    var ms1 := [Shown(Add("++ b/" + file))] + ms0;
    var ms2 := [Shown(Add("a"))] + ms1;
    var ms3 := [Shown(Add("++ x"))] + ms2;
    assert Reenters(file)[1..] == ms3 && ms3[1..] == ms2 && ms2[1..] == ms1 && ms1[1..] == ms0 && ms0[1..] == [];
    assert NewShown(ms0) == 1 && NewShown(ms1) == 2 && NewShown(ms2) == 3;
    assert OldShown(ms0) == 0 && OldShown(ms1) == 0 && OldShown(ms2) == 0;
  }
}
