/**
  Planting review notes into sources as comment blocks (apply_notes in tools/harness/annotate.py):
  each file's notes go in from the bottom up.  The text of a block is left out; it begins with its
  indent.
 */
module Annotate {
  import opened Collections

  datatype Note = Note(file: string, line: int, text: string)

  /** A line of an annotated file: an original one, or the block of a note. */
  datatype Line = Text(s: string) | Block(note: Note, indent: string)

  function LeadingBlanks(s: string): string {
    if s != [] && (s[0] == ' ' || s[0] == '\t') then [s[0]] + LeadingBlanks(s[1..]) else []
  }

  /** The indent is the longest beginning of the line that holds blanks only. */
  lemma {:induction false} LeadingBlanksAre(s: string)
    ensures LeadingBlanks(s) <= s
    ensures forall i | 0 <= i < |LeadingBlanks(s)| :: s[i] == ' ' || s[i] == '\t'
    ensures var n := |LeadingBlanks(s)|; n < |s| ==> s[n] != ' ' && s[n] != '\t'
  {
    if s != [] && (s[0] == ' ' || s[0] == '\t') {
      LeadingBlanksAre(s[1..]);
      assert s == [s[0]] + s[1..];
    }
  }

  function IndentOf(l: Line): string {
    match l
    case Text(s) => LeadingBlanks(s)
    case Block(_, indent) => indent
  }

  /** The stable sort by descending line. */
  function Insert(n: Note, ns: seq<Note>): seq<Note> {
    if ns == [] || n.line >= ns[0].line then [n] + ns else [ns[0]] + Insert(n, ns[1..])
  }

  function BottomUp(ns: seq<Note>): seq<Note> {
    if ns == [] then [] else Insert(ns[0], BottomUp(ns[1..]))
  }

  predicate InRange(lines: seq<string>, n: Note) {
    0 <= n.line - 1 < |lines|
  }

  function CountInRange(lines: seq<string>, ns: seq<Note>): nat {
    if ns == [] then 0 else (if InRange(lines, ns[0]) then 1 else 0) + CountInRange(lines, ns[1..])
  }

  // ---- What the annotated file should be ---------------------------------------------------------

  /** The blocks that stand before original line i (from zero): the notes for that line, the last
      one first. */
  function BlocksAt(lines: seq<string>, ns: seq<Note>, i: nat): seq<Line>
    requires i < |lines|
  {
    if ns == [] then []
    else
      var front, last := ns[..|ns| - 1], ns[|ns| - 1];
      if last.line - 1 == i then [Block(last, LeadingBlanks(lines[i]))] + BlocksAt(lines, front, i)
      else BlocksAt(lines, front, i)
  }

  /** The file from original line i on. */
  function Weave(lines: seq<string>, ns: seq<Note>, i: nat): seq<Line>
    requires i <= |lines|
    decreases |lines| - i
  {
    if i == |lines| then [] else BlocksAt(lines, ns, i) + ([Text(lines[i])] + Weave(lines, ns, i + 1))
  }

  function Texts(lines: seq<string>): seq<Line> {
    seq(|lines|, i requires 0 <= i < |lines| => Text(lines[i]))
  }

  /** The file without the blocks. */
  function Erase(ls: seq<Line>): seq<string> {
    if ls == [] then [] else if ls[0].Text? then [ls[0].s] + Erase(ls[1..]) else Erase(ls[1..])
  }

  lemma {:induction false} EraseConcat(a: seq<Line>, b: seq<Line>)
    ensures Erase(a + b) == Erase(a) + Erase(b)
  {
    if a == [] {
      assert a + b == b;
    } else {
      assert (a + b)[1..] == a[1..] + b;
      EraseConcat(a[1..], b);
    }
  }

  lemma {:induction false} EraseBlocks(lines: seq<string>, ns: seq<Note>, i: nat)
    requires i < |lines|
    ensures Erase(BlocksAt(lines, ns, i)) == []
  {
    if ns != [] {
      var front := ns[..|ns| - 1];
      EraseBlocks(lines, front, i);
      assert ([Block(ns[|ns| - 1], LeadingBlanks(lines[i]))] + BlocksAt(lines, front, i))[1..]
        == BlocksAt(lines, front, i);
    }
  }

  /** Erasing the blocks gives the original file back. */
  lemma {:induction false} EraseRestores(lines: seq<string>, ns: seq<Note>, i: nat)
    requires i <= |lines|
    ensures Erase(Weave(lines, ns, i)) == lines[i..]
    decreases |lines| - i
  {
    if i < |lines| {
      var rest := Weave(lines, ns, i + 1);
      EraseConcat(BlocksAt(lines, ns, i), [Text(lines[i])] + rest);
      EraseBlocks(lines, ns, i);
      assert ([Text(lines[i])] + rest)[1..] == rest;
      EraseRestores(lines, ns, i + 1);
      DropStep(lines, i);
    }
  }

  // ---- Bottom-up insertion gets there ------------------------------------------------------------

  /** Where no note applies below line i, the file there is as it was. */
  lemma {:induction false} NoBlocks(lines: seq<string>, ns: seq<Note>, i: nat)
    requires i < |lines| && forall k | 0 <= k < |ns| :: ns[k].line - 1 != i
    ensures BlocksAt(lines, ns, i) == []
  {
    if ns != [] {
      NoBlocks(lines, ns[..|ns| - 1], i);
    }
  }

  lemma {:induction false} WeaveFrom(lines: seq<string>, ns: seq<Note>, a: nat, i: nat)
    requires a <= i <= |lines| && forall k | 0 <= k < |ns| :: ns[k].line - 1 >= i
    ensures Weave(lines, ns, a) == Texts(lines[a..i]) + Weave(lines, ns, i)
    decreases i - a
  {
    if a < i {
      NoBlocks(lines, ns, a);
      WeaveFrom(lines, ns, a + 1, i);
      assert Texts(lines[a..i]) == [Text(lines[a])] + Texts(lines[a + 1..i]);
      Assoc([Text(lines[a])], Texts(lines[a + 1..i]), Weave(lines, ns, i));
    }
  }

  /** A further note changes nothing below its line. */
  lemma {:induction false} WeaveBelow(lines: seq<string>, ns: seq<Note>, n: Note, i: nat)
    requires i <= |lines| && n.line - 1 < i
    ensures Weave(lines, ns + [n], i) == Weave(lines, ns, i)
    decreases |lines| - i
  {
    if i < |lines| {
      assert (ns + [n])[..|ns|] == ns;
      WeaveBelow(lines, ns, n, i + 1);
    }
  }

  lemma {:induction false} NoNotes(lines: seq<string>, i: nat)
    requires i <= |lines|
    ensures Weave(lines, [], i) == Texts(lines[i..])
    decreases |lines| - i
  {
    if i < |lines| {
      NoNotes(lines, i + 1);
      assert Texts(lines[i..]) == [Text(lines[i])] + Texts(lines[i + 1..]);
    }
  }

  lemma {:induction false} BlocksIndent(lines: seq<string>, ns: seq<Note>, i: nat)
    requires i < |lines| && BlocksAt(lines, ns, i) != []
    ensures IndentOf(BlocksAt(lines, ns, i)[0]) == LeadingBlanks(lines[i])
  {
    if ns[|ns| - 1].line - 1 != i {
      BlocksIndent(lines, ns[..|ns| - 1], i);
    }
  }

  /** The file from the note's line on, with the note. */
  lemma {:induction false} WeaveWith(lines: seq<string>, ns: seq<Note>, n: Note, i: nat)
    requires i < |lines| && n.line - 1 == i
    ensures Weave(lines, ns + [n], i) == [Block(n, LeadingBlanks(lines[i]))] + Weave(lines, ns, i)
    ensures Weave(lines, ns, i) != [] && IndentOf(Weave(lines, ns, i)[0]) == LeadingBlanks(lines[i])
  {
    WeaveBelow(lines, ns, n, i + 1);
    assert (ns + [n])[..|ns|] == ns;
    var rest := [Text(lines[i])] + Weave(lines, ns, i + 1);
    Assoc([Block(n, LeadingBlanks(lines[i]))], BlocksAt(lines, ns, i), rest);
    if BlocksAt(lines, ns, i) != [] {
      BlocksIndent(lines, ns, i);
    }
  }

  lemma {:induction false} Spliced(head: seq<Line>, tail: seq<Line>, b: Line, i: nat)
    requires |head| == i
    ensures (head + tail)[..i] == head && (head + tail)[i..] == tail
    ensures head + ([b] + tail) == head + [b] + tail
  {
  }

  /** One insertion: the place is right, the indent is the original line's, and the range test is the
      one on the original file. */
  lemma {:induction false} InsertStep(lines: seq<string>, ns: seq<Note>, n: Note, cur: seq<Line>)
    requires (forall k | 0 <= k < |ns| :: ns[k].line >= n.line) && cur == Weave(lines, ns, 0)
    ensures 0 <= n.line - 1 < |cur| <==> InRange(lines, n)
    ensures InRange(lines, n) ==>
      IndentOf(cur[n.line - 1]) == LeadingBlanks(lines[n.line - 1])
      && Weave(lines, ns + [n], 0)
      == cur[..n.line - 1] + [Block(n, LeadingBlanks(lines[n.line - 1]))] + cur[n.line - 1..]
    ensures !InRange(lines, n) ==> Weave(lines, ns + [n], 0) == cur
  {
    if n.line - 1 < 0 {
      WeaveBelow(lines, ns, n, 0);
    } else if n.line - 1 >= |lines| {
      WeaveFrom(lines, ns, 0, |lines|);
      WeaveFrom(lines, ns + [n], 0, |lines|);
    } else {
      var i := n.line - 1;
      WeaveFrom(lines, ns, 0, i);
      WeaveFrom(lines, ns + [n], 0, i);
      WeaveWith(lines, ns, n, i);
      Spliced(Texts(lines[..i]), Weave(lines, ns, i), Block(n, LeadingBlanks(lines[i])), i);
    }
  }

  predicate AtMost(ns: seq<Note>, line: int) {
    ns == [] || (ns[0].line <= line && AtMost(ns[1..], line))
  }

  predicate Descending(ns: seq<Note>) {
    ns == [] || (AtMost(ns[1..], ns[0].line) && Descending(ns[1..]))
  }

  lemma {:induction false} AtMostWeakens(ns: seq<Note>, line: int, line': int)
    requires AtMost(ns, line) && line <= line'
    ensures AtMost(ns, line')
  {
    if ns != [] {
      AtMostWeakens(ns[1..], line, line');
    }
  }

  lemma {:induction false} InsertAtMost(n: Note, ns: seq<Note>, line: int)
    requires AtMost(ns, line) && n.line <= line
    ensures AtMost(Insert(n, ns), line)
  {
    if ns != [] && n.line < ns[0].line {
      InsertAtMost(n, ns[1..], line);
    }
  }

  lemma {:induction false} InsertDescends(n: Note, ns: seq<Note>)
    requires Descending(ns)
    ensures Descending(Insert(n, ns))
  {
    if ns != [] && n.line < ns[0].line {
      InsertDescends(n, ns[1..]);
      InsertAtMost(n, ns[1..], ns[0].line);
    } else if ns != [] {
      AtMostWeakens(ns[1..], ns[0].line, n.line);
    }
  }

  lemma {:induction false} InsertKeeps(n: Note, ns: seq<Note>)
    ensures multiset(Insert(n, ns)) == multiset{n} + multiset(ns)
  {
    if ns != [] && n.line < ns[0].line {
      InsertKeeps(n, ns[1..]);
      assert ns == [ns[0]] + ns[1..];
    }
  }

  lemma {:induction false} BottomUpDescends(ns: seq<Note>)
    ensures Descending(BottomUp(ns)) && multiset(BottomUp(ns)) == multiset(ns)
  {
    if ns != [] {
      BottomUpDescends(ns[1..]);
      InsertDescends(ns[0], BottomUp(ns[1..]));
      InsertKeeps(ns[0], BottomUp(ns[1..]));
      assert ns == [ns[0]] + ns[1..];
    }
  }

  lemma {:induction false} AtMostAt(ns: seq<Note>, line: int, j: nat)
    requires AtMost(ns, line) && j < |ns|
    ensures ns[j].line <= line
  {
    if j > 0 {
      AtMostAt(ns[1..], line, j - 1);
    }
  }

  lemma {:induction false} DescendingAt(ns: seq<Note>, i: nat, j: nat)
    requires Descending(ns) && i < j < |ns|
    ensures ns[i].line >= ns[j].line
  {
    if i == 0 {
      AtMostAt(ns[1..], ns[0].line, j - 1);
    } else {
      DescendingAt(ns[1..], i - 1, j - 1);
    }
  }

  /** A note in front of the others stands below their blocks. */
  lemma {:induction false} BlocksAtCons(lines: seq<string>, n: Note, ns: seq<Note>, i: nat)
    requires i < |lines|
    ensures BlocksAt(lines, [n] + ns, i)
         == BlocksAt(lines, ns, i) + if n.line - 1 == i then [Block(n, LeadingBlanks(lines[i]))] else []
    decreases |ns|
  {
    if ns == [] {
      assert [n] + ns == [n] && [n][..0] == [];
    } else {
      var front, last := ns[..|ns| - 1], ns[|ns| - 1];
      assert ([n] + ns)[..|ns|] == [n] + front;
      BlocksAtCons(lines, n, front, i);
    }
  }

  /** The sort is stable: it does not change which blocks stand before a line, nor their order. */
  lemma {:induction false} BlocksAtInsert(lines: seq<string>, n: Note, ns: seq<Note>, i: nat)
    requires i < |lines|
    ensures BlocksAt(lines, Insert(n, ns), i) == BlocksAt(lines, [n] + ns, i)
  {
    BlocksAtCons(lines, n, ns, i);
    if ns != [] && n.line < ns[0].line {
      assert ns == [ns[0]] + ns[1..];
      BlocksAtInsert(lines, n, ns[1..], i);
      BlocksAtCons(lines, ns[0], Insert(n, ns[1..]), i);
      BlocksAtCons(lines, n, ns[1..], i);
      BlocksAtCons(lines, ns[0], ns[1..], i);
    }
  }

  lemma {:induction false} BlocksAtBottomUp(lines: seq<string>, ns: seq<Note>, i: nat)
    requires i < |lines|
    ensures BlocksAt(lines, BottomUp(ns), i) == BlocksAt(lines, ns, i)
  {
    if ns != [] {
      assert ns == [ns[0]] + ns[1..];
      BlocksAtBottomUp(lines, ns[1..], i);
      BlocksAtInsert(lines, ns[0], BottomUp(ns[1..]), i);
      BlocksAtCons(lines, ns[0], BottomUp(ns[1..]), i);
      BlocksAtCons(lines, ns[0], ns[1..], i);
    }
  }

  lemma {:induction false} WeaveBottomUp(lines: seq<string>, ns: seq<Note>, i: nat)
    requires i <= |lines|
    ensures Weave(lines, BottomUp(ns), i) == Weave(lines, ns, i)
    decreases |lines| - i
  {
    if i < |lines| {
      BlocksAtBottomUp(lines, ns, i);
      WeaveBottomUp(lines, ns, i + 1);
    }
  }

  lemma {:induction false} CountPermutes(lines: seq<string>, a: seq<Note>, b: seq<Note>)
    requires multiset(a) == multiset(b)
    ensures CountInRange(lines, a) == CountInRange(lines, b)
  {
    if a == [] {
      SameSize(a, b);
    } else {
      var before, after := TakeOut(a, b);
      CountPermutes(lines, a[1..], before + after);
      CountConcat(lines, before, [a[0]] + after);
      CountConcat(lines, before, after);
      assert ([a[0]] + after)[1..] == after;
    }
  }

  lemma {:induction false} CountConcat(lines: seq<string>, a: seq<Note>, b: seq<Note>)
    ensures CountInRange(lines, a + b) == CountInRange(lines, a) + CountInRange(lines, b)
  {
    if a == [] {
      assert a + b == b;
    } else {
      assert (a + b)[1..] == a[1..] + b;
      CountConcat(lines, a[1..], b);
    }
  }

  /** The inner loop of apply_notes: one file. */
  method AnnotateFile(lines: seq<string>, ns: seq<Note>) returns (cur: seq<Line>, touched: nat)
    ensures cur == Weave(lines, ns, 0) && touched == CountInRange(lines, ns)
  {
    cur, touched := Texts(lines), 0;
    var order := BottomUp(ns);
    BottomUpDescends(ns);
    NoNotes(lines, 0);
    for j := 0 to |order|
      invariant cur == Weave(lines, order[..j], 0) && touched == CountInRange(lines, order[..j])
    {
      var n := order[j];
      TakeStep(order, j);
      forall k: nat | k < j {
        DescendingAt(order, k, j);
      }
      CountConcat(lines, order[..j], [n]);
      InsertStep(lines, order[..j], n, cur);
      var i := n.line - 1;
      if !(0 <= i < |cur|) {
        continue;
      }
      var indent := IndentOf(cur[i]);
      cur := cur[..i] + [Block(n, indent)] + cur[i..];
      touched := touched + 1;
    }
    AllPlanted(lines, ns, order);
  }

  lemma {:induction false} AllPlanted(lines: seq<string>, ns: seq<Note>, order: seq<Note>)
    requires order == BottomUp(ns) && multiset(order) == multiset(ns)
    ensures order[..|order|] == order
    ensures Weave(lines, order, 0) == Weave(lines, ns, 0) && CountInRange(lines, order) == CountInRange(lines, ns)
  {
    WeaveBottomUp(lines, ns, 0);
    CountPermutes(lines, order, ns);
  }

  lemma {:induction false} BlocksAtHas(lines: seq<string>, ns: seq<Note>, i: nat, n: Note) returns (p: nat)
    requires i < |lines| && n in ns && n.line - 1 == i
    ensures p < |BlocksAt(lines, ns, i)| && BlocksAt(lines, ns, i)[p] == Block(n, LeadingBlanks(lines[i]))
    decreases |ns|
  {
    if ns[|ns| - 1] == n {
      p := 0;
    } else {
      var q := BlocksAtHas(lines, ns[..|ns| - 1], i, n);
      p := if ns[|ns| - 1].line - 1 == i then q + 1 else q;
    }
  }

  lemma {:induction false} BlocksAtOnly(lines: seq<string>, ns: seq<Note>, i: nat, p: nat)
    requires i < |lines| && p < |BlocksAt(lines, ns, i)|
    ensures BlocksAt(lines, ns, i)[p].Block? && BlocksAt(lines, ns, i)[p].note.line - 1 == i
    decreases |ns|
  {
    var front := ns[..|ns| - 1];
    if ns[|ns| - 1].line - 1 != i {
      BlocksAtOnly(lines, front, i, p);
    } else if p > 0 {
      BlocksAtOnly(lines, front, i, p - 1);
    }
  }

  predicate BlocksOf(ls: seq<Line>, p: nat, q: nat, line: int)
    requires p <= q <= |ls|
  {
    forall k | p <= k < q :: ls[k].Block? && ls[k].note.line == line
  }

  /** The file from line a on, cut inside what follows line a. */
  lemma {:induction false} WeaveCut(lines: seq<string>, ns: seq<Note>, a: nat, q: nat)
    requires a < |lines| && q <= |Weave(lines, ns, a + 1)|
    ensures var d := |BlocksAt(lines, ns, a)| + 1;
      && |Weave(lines, ns, a)| == d + |Weave(lines, ns, a + 1)|
      && Weave(lines, ns, a)[d..] == Weave(lines, ns, a + 1)
      && Erase(Weave(lines, ns, a)[..d + q]) == [lines[a]] + Erase(Weave(lines, ns, a + 1)[..q])
  {
    var blocks, rest, all := BlocksAt(lines, ns, a), Weave(lines, ns, a + 1), Weave(lines, ns, a);
    var tail := [Text(lines[a])] + rest[..q];
    assert all[..|blocks| + 1 + q] == blocks + tail;
    EraseBlocks(lines, ns, a);
    EraseConcat(blocks, tail);
    assert tail[1..] == rest[..q];
  }

  /** The block of a note stands at p, before its line at q, with only blocks for that line between and
      the lines above it otherwise. */
  predicate Stands(ls: seq<Line>, n: Note, at: string, above: seq<string>, p: nat, q: nat) {
    && p < q < |ls| && ls[p] == Block(n, LeadingBlanks(at)) && ls[q] == Text(at)
    && Erase(ls[..q]) == above && BlocksOf(ls, p, q, n.line)
  }

  lemma {:induction false} StandsBehind(all: seq<Line>, rest: seq<Line>, d: nat, n: Note, at: string, first: string,
                                        above: seq<string>, p: nat, q: nat)
    requires Stands(rest, n, at, above, p, q) && d <= |all| && all[d..] == rest
    requires Erase(all[..d + q]) == [first] + Erase(rest[..q])
    ensures Stands(all, n, at, [first] + above, p + d, q + d)
  {
    assert forall k | d <= k < |all| :: all[k] == rest[k - d];
  }

  lemma {:induction false} StandsHere(lines: seq<string>, ns: seq<Note>, n: Note, a: nat, ls: seq<Line>)
    returns (p: nat, q: nat)
    requires n in ns && a == n.line - 1 && a < |lines| && ls == Weave(lines, ns, a)
    ensures Stands(ls, n, lines[a], [], p, q)
  {
    var blocks := BlocksAt(lines, ns, a);
    p := BlocksAtHas(lines, ns, a, n);
    q := |blocks|;
    EraseBlocks(lines, ns, a);
    assert ls[..q] == blocks && ls[q] == Text(lines[a]);
    forall k | p <= k < q ensures ls[k].Block? && ls[k].note.line == n.line {
      BlocksAtOnly(lines, ns, a, k);
    }
  }

  lemma {:induction false} StandsLater(lines: seq<string>, ns: seq<Note>, n: Note, a: nat, at: string, ls: seq<Line>,
                                       rest: seq<Line>, above: seq<string>, p: nat, q: nat)
    requires a < |lines| && ls == Weave(lines, ns, a) && rest == Weave(lines, ns, a + 1)
    requires Stands(rest, n, at, above, p, q)
    ensures var d := |BlocksAt(lines, ns, a)| + 1; Stands(ls, n, at, [lines[a]] + above, p + d, q + d)
  {
    WeaveCut(lines, ns, a, q);
    StandsBehind(ls, rest, |BlocksAt(lines, ns, a)| + 1, n, at, lines[a], above, p, q);
  }

  lemma {:induction false} SliceStep(lines: seq<string>, a: nat, b: nat)
    requires a < b <= |lines|
    ensures lines[a..b] == [lines[a]] + lines[a + 1..b]
  {
  }

  lemma {:induction false} BlockStandsIn(lines: seq<string>, ns: seq<Note>, n: Note, a: nat, ls: seq<Line>,
                                         above: seq<string>)
    returns (p: nat, q: nat)
    requires n in ns && a <= n.line - 1 < |lines| && ls == Weave(lines, ns, a) && above == lines[a..n.line - 1]
    ensures Stands(ls, n, lines[n.line - 1], above, p, q)
    decreases |lines| - a
  {
    if n.line - 1 == a {
      assert above == [];
      p, q := StandsHere(lines, ns, n, a, ls);
    } else {
      var rest, below := Weave(lines, ns, a + 1), lines[a + 1..n.line - 1];
      var p', q' := BlockStandsIn(lines, ns, n, a + 1, rest, below);
      StandsLater(lines, ns, n, a, lines[n.line - 1], ls, rest, below, p', q');
      SliceStep(lines, a, n.line - 1);
      p, q := p' + |BlocksAt(lines, ns, a)| + 1, q' + |BlocksAt(lines, ns, a)| + 1;
    }
  }

  /** A note's block stands before its line, with only blocks for that line between. */
  lemma {:induction false} BlockStands(lines: seq<string>, ns: seq<Note>, n: Note) returns (p: nat, q: nat)
    requires n in ns && 0 <= n.line - 1 < |lines|
    ensures Stands(Weave(lines, ns, 0), n, lines[n.line - 1], lines[..n.line - 1], p, q)
  {
    p, q := BlockStandsIn(lines, ns, n, 0, Weave(lines, ns, 0), lines[..n.line - 1]);
  }

  // ---- All files -----------------------------------------------------------------------------------

  function OfFile(notes: seq<Note>, file: string): seq<Note> {
    if notes == [] then []
    else
      var front, last := notes[..|notes| - 1], notes[|notes| - 1];
      if last.file == file then OfFile(front, file) + [last] else OfFile(front, file)
  }

  function Get(m: map<string, seq<Note>>, file: string): seq<Note> {
    if file in m then m[file] else []
  }

  /** The notes that can be planted: their file is there and has the line. */
  function Plantable(files: map<string, seq<string>>, notes: seq<Note>, among: set<string>): nat {
    if notes == [] then 0
    else
      var front, last := notes[..|notes| - 1], notes[|notes| - 1];
      Plantable(files, front, among)
      + if last.file in among && last.file in files && InRange(files[last.file], last) then 1 else 0
  }

  lemma {:induction false} PlantableFile(files: map<string, seq<string>>, notes: seq<Note>, among: set<string>,
                                         file: string)
    requires file !in among
    ensures Plantable(files, notes, among + {file})
         == Plantable(files, notes, among) + if file in files then CountInRange(files[file], OfFile(notes, file)) else 0
  {
    if notes != [] {
      var front, last := notes[..|notes| - 1], notes[|notes| - 1];
      PlantableFile(files, front, among, file);
      if file in files {
        CountConcat(files[file], OfFile(front, file), [last]);
        assert [last][1..] == [];
      }
    }
  }

  /** The first loop of apply_notes: the notes by file, and the files in the order of their first note. */
  method GroupByFile(notes: seq<Note>) returns (byFile: map<string, seq<Note>>, order: seq<string>)
    ensures forall f :: Get(byFile, f) == OfFile(notes, f)
    ensures forall f | f in order :: f in byFile && byFile[f] != []
    ensures forall i, j | 0 <= i < j < |order| :: order[i] != order[j]
    ensures forall i | 0 <= i < |notes| :: notes[i].file in order
  {
    byFile, order := map[], [];
    for i := 0 to |notes|
      invariant forall f :: Get(byFile, f) == OfFile(notes[..i], f)
      invariant forall f :: f in order <==> f in byFile
      invariant forall f | f in byFile :: byFile[f] != []
      invariant forall a, b | 0 <= a < b < |order| :: order[a] != order[b]
      invariant forall k | 0 <= k < i :: notes[k].file in order
    {
      assert notes[..i + 1][..i] == notes[..i];
      var n := notes[i];
      if n.file !in byFile {
        order := order + [n.file];
      }
      byFile := byFile[n.file := Get(byFile, n.file) + [n]];
    }
    assert notes[..|notes|] == notes;
  }

  function KeySet(s: seq<string>): set<string> {
    set f | f in s
  }

  /** apply_notes: every file with notes is rewritten, the others stay; the count is that of the notes
      that could be planted. */
  method ApplyNotes(files: map<string, seq<string>>, notes: seq<Note>)
    returns (out: map<string, seq<Line>>, touched: nat)
    ensures touched == Plantable(files, notes, files.Keys)
    ensures forall f :: f in out <==> f in files && OfFile(notes, f) != []
    ensures forall f | f in out :: out[f] == Weave(files[f], OfFile(notes, f), 0)
  {
    var byFile, order := GroupByFile(notes);
    out, touched := map[], 0;
    PlantableNone(files, notes);
    assert KeySet(order[..0]) == {};
    for i := 0 to |order|
      invariant touched == Plantable(files, notes, KeySet(order[..i]))
      invariant forall f :: f in out <==> f in files && f in order[..i]
      invariant forall f | f in out :: out[f] == Weave(files[f], OfFile(notes, f), 0)
    {
      var f := order[i];
      assert Get(byFile, f) == OfFile(notes, f);
      TakeStep(order, i);
      assert KeySet(order[..i + 1]) == KeySet(order[..i]) + {f};
      PlantableFile(files, notes, KeySet(order[..i]), f);
      if f !in files {
        continue;
      }
      var cur, n := AnnotateFile(files[f], byFile[f]);
      out, touched := out[f := cur], touched + n;
    }
    assert order[..|order|] == order;
    forall f ensures f in order <==> OfFile(notes, f) != [] {
      assert Get(byFile, f) == OfFile(notes, f);
      OfFileEmpty(notes, f);
    }
    PlantableExisting(files, notes, KeySet(order));
  }

  lemma {:induction false} PlantableNone(files: map<string, seq<string>>, notes: seq<Note>)
    ensures Plantable(files, notes, {}) == 0
  {
    if notes != [] {
      PlantableNone(files, notes[..|notes| - 1]);
    }
  }

  lemma {:induction false} PlantableExisting(files: map<string, seq<string>>, notes: seq<Note>, a: set<string>)
    requires forall i | 0 <= i < |notes| :: notes[i].file in a
    ensures Plantable(files, notes, a) == Plantable(files, notes, files.Keys)
  {
    if notes != [] {
      PlantableExisting(files, notes[..|notes| - 1], a);
    }
  }

  lemma {:induction false} OfFileEmpty(notes: seq<Note>, file: string)
    ensures OfFile(notes, file) == [] <==> forall i | 0 <= i < |notes| :: notes[i].file != file
  {
    if notes != [] {
      OfFileEmpty(notes[..|notes| - 1], file);
    }
  }
}
