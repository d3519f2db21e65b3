/**
  The text of a unified diff (POSIX.1-2017 diff, "Diff -u or -U Output Format"; git's headers) as
  tagged lines, and the diff that shows a given edit script.  A removed line whose text begins
  with "-- " and an added line whose text begins with "++ " look like file headers: the tags keep
  that ambiguity, since the readers tell them apart by those prefixes only.
 */
module DiffText {
  import opened Collections
  import opened DiffScript
  import opened Strings

  /** One line of a diff by its first characters.  Other header lines of git are left out. */
  datatype Line =
    | Git                                            // diff --git
    | At(os: nat, oc: nat, ns: nat, nc: nat)         // @@ -os,oc +ns,nc @@
    | Plus(text: string)
    | Minus(text: string)
    | Context(text: string)
    | Mark                                           // \ No newline at end of file

  predicate LooksOld(l: Line) {
    l.Minus? && "-- " <= l.text
  }

  predicate LooksNew(l: Line) {
    l.Plus? && "++ " <= l.text
  }

  /** The parts of one file's diff: kept lines it does not show, hunk starts, shown lines, marks. */
  datatype Item = Hidden(text: string) | Open | Shown(op: Op) | NoEol

  function LineOf(op: Op): Line {
    match op
    case Keep(t) => Context(t)
    case Del(t) => Minus(t)
    case Add(t) => Plus(t)
  }

  /** The script that the parts describe. */
  function Script(ms: seq<Item>): seq<Op> {
    if ms == [] then []
    else
      match ms[0]
      case Hidden(t) => [Keep(t)] + Script(ms[1..])
      case Shown(op) => [op] + Script(ms[1..])
      case Open => Script(ms[1..])
      case NoEol => Script(ms[1..])
  }

  predicate HunkEnds(ms: seq<Item>) {
    ms == [] || ms[0].Hidden? || ms[0].Open?
  }

  /** The old lines shown in the rest of the hunk. */
  function OldShown(ms: seq<Item>): nat {
    if HunkEnds(ms) then 0
    else if ms[0].Shown? && !ms[0].op.Add? then 1 + OldShown(ms[1..]) else OldShown(ms[1..])
  }

  /** The new lines shown in the rest of the hunk. */
  function NewShown(ms: seq<Item>): nat {
    if HunkEnds(ms) then 0
    else if ms[0].Shown? && !ms[0].op.Del? then 1 + NewShown(ms[1..]) else NewShown(ms[1..])
  }

  /** Shown lines and marks stand inside a hunk, and every hunk begins with a shown line. */
  predicate Shaped(ms: seq<Item>, inHunk: bool) {
    ms == [] ||
    match ms[0]
    case Hidden(_) => Shaped(ms[1..], false)
    case Open => ms[1..] != [] && ms[1].Shown? && Shaped(ms[1..], true)
    case Shown(_) => inHunk && Shaped(ms[1..], true)
    case NoEol => inHunk && Shaped(ms[1..], true)
  }

  /** An added line that looks like a file header. */
  predicate IsPlus(m: Item) {
    m.Shown? && m.op.Add? && "++ " <= m.op.text
  }

  /** How many added lines look like file headers. */
  function Pluses(ms: seq<Item>): nat {
    if ms == [] then 0 else (if IsPlus(ms[0]) then 1 else 0) + Pluses(ms[1..])
  }

  /** The header of the hunk that begins after o old and n new lines; a side without lines names
      the line before. */
  function Header(ms: seq<Item>, o: nat, n: nat): Line {
    At(if OldShown(ms) == 0 then o else o + 1, OldShown(ms), if NewShown(ms) == 0 then n else n + 1, NewShown(ms))
  }

  function AfterOld(op: Op, o: nat): nat {
    if op.Add? then o else o + 1
  }

  function AfterNew(op: Op, n: nat): nat {
    if op.Del? then n else n + 1
  }

  /** The lines of the diff from a place after o old and n new lines. */
  function Render(ms: seq<Item>, o: nat, n: nat): seq<Line> {
    if ms == [] then []
    else
      match ms[0]
      case Hidden(_) => Render(ms[1..], o + 1, n + 1)
      case Open => [Header(ms[1..], o, n)] + Render(ms[1..], o, n)
      case Shown(op) => [LineOf(op)] + Render(ms[1..], AfterOld(op, o), AfterNew(op, n))
      case NoEol => [Mark] + Render(ms[1..], o, n)
  }

  /** The diff of one file; `name` is None for a deleted file. */
  datatype FileDiff = FileDiff(before: string, name: Option<string>, items: seq<Item>)

  const DEV_NULL := "/dev/null"

  function NewHeader(f: FileDiff): Line {
    Plus(if f.name.Some? then "++ b/" + f.name.value else "++ " + DEV_NULL)
  }

  function Top(f: FileDiff): seq<Line> {
    [Git, Minus("-- " + f.before), NewHeader(f)]
  }

  function RenderFile(f: FileDiff): seq<Line> {
    Top(f) + Render(f.items, 0, 0)
  }

  function RenderAll(fs: seq<FileDiff>): seq<Line> {
    if fs == [] then [] else RenderFile(fs[0]) + RenderAll(fs[1..])
  }

  /** A name that stripping leaves alone. */
  predicate Trimmed(s: string) {
    s != [] && !IsSpace(s[0]) && !IsSpace(s[|s| - 1])
  }

  lemma {:induction false} TrimmedStays(s: string)
    requires Trimmed(s)
    ensures Strip(s) == s
  {
  }

  /** A diff as git writes it: each file at most once. */
  predicate Readable(fs: seq<FileDiff>) {
    && (forall i | 0 <= i < |fs| :: Shaped(fs[i].items, false))
    && (forall i, j | 0 <= i < j < |fs| && fs[i].name.Some? :: fs[i].name != fs[j].name)
  }

  lemma {:induction false} ReadableTail(fs: seq<FileDiff>)
    requires Readable(fs) && fs != []
    ensures Readable(fs[1..])
    ensures forall j | 0 <= j < |fs[1..]| && fs[0].name.Some? :: fs[1..][j].name != fs[0].name
  {
    var rest := fs[1..];
    forall i | 0 <= i < |rest| ensures Shaped(rest[i].items, false) {
      assert rest[i] == fs[i + 1];
    }
    forall i, j | 0 <= i < j < |rest| && rest[i].name.Some? ensures rest[i].name != rest[j].name {
      assert rest[i] == fs[i + 1] && rest[j] == fs[j + 1];
    }
  }
}
