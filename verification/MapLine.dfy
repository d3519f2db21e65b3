/**
  Following an old line through the hunks of a diff without context (Repo.hunks and
  Repo.map_line in tools/harness/source_facts_check.py).
 */
module MapLine {
  import opened Collections
  import opened DiffScript

  /** The numbers of a hunk header; a side that shows no line names the line before. */
  datatype Hunk = Hunk(os: int, oc: int, ns: int, nc: int)

  /** The header of a hunk after o old and n new lines that removes and adds so many lines. */
  function Header(o: nat, n: nat, removed: nat, added: nat): Hunk {
    Hunk(if removed == 0 then o else o + 1, removed, if added == 0 then n else n + 1, added)
  }

  /** The hunks of a diff without context: one for each block of changes.  The block being gathered
      starts after o old and n new lines. */
  function Hunks(s: seq<Op>, o: nat, n: nat, removed: nat, added: nat): seq<Hunk> {
    if s == [] then
      if removed + added == 0 then [] else [Header(o, n, removed, added)]
    else
      match s[0]
      case Del(_) => Hunks(s[1..], o, n, removed + 1, added)
      case Add(_) => Hunks(s[1..], o, n, removed, added + 1)
      case Keep(_) =>
        if removed + added == 0 then Hunks(s[1..], o + 1, n + 1, 0, 0)
        else [Header(o, n, removed, added)] + Hunks(s[1..], o + removed + 1, n + added + 1, 0, 0)
  }

  function Diff(s: seq<Op>): seq<Hunk> {
    Hunks(s, 0, 0, 0, 0)
  }

  /** map_line from a given point of its loop. */
  function Follow(hs: seq<Hunk>, n: int, delta: int): Option<int> {
    if hs == [] then Some(n + delta)
    else if hs[0].oc == 0 then Follow(hs[1..], n, if n > hs[0].os then delta + hs[0].nc else delta)
    else if n < hs[0].os then Some(n + delta)
    else if n < hs[0].os + hs[0].oc then None
    else Follow(hs[1..], n, delta + hs[0].nc - hs[0].oc)
  }

  datatype File = File(rev: string, path: string)

  class Repo {
    var diffs: map<File, seq<Hunk>>   // the cache of hunks against the head revision

    constructor ()
      ensures diffs == map[]
    {
      diffs := map[];
    }

    /** Every cached entry is what the diff of that file shows. */
    ghost predicate Valid(scripts: map<File, seq<Op>>)
      reads this
    {
      forall p | p in diffs :: p in scripts && diffs[p] == Diff(scripts[p])
    }

    /** hunks: from the cache, or read from the diff and kept. */
    method ReadHunks(file: File, shown: seq<Hunk>, ghost scripts: map<File, seq<Op>>) returns (hs: seq<Hunk>)
      requires Valid(scripts) && file in scripts && shown == Diff(scripts[file])
      modifies this
      ensures Valid(scripts) && hs == Diff(scripts[file])
      ensures diffs == old(diffs)[file := hs]
    {
      if file !in diffs {
        diffs := diffs[file := shown];
      }
      hs := diffs[file];
    }

    /** map_line: the old line n of the file in the new text. */
    method MapLine(file: File, n: int, shown: seq<Hunk>, ghost scripts: map<File, seq<Op>>) returns (r: Option<int>)
      requires Valid(scripts) && file in scripts && shown == Diff(scripts[file])
      modifies this
      ensures Valid(scripts)
      ensures r == Follow(Diff(scripts[file]), n, 0)
      ensures 1 <= n <= OldCount(scripts[file]) ==> r == ToNew(scripts[file], n)
    {
      var hs := ReadHunks(file, shown, scripts);
      if 1 <= n <= OldCount(scripts[file]) {
        FollowIsToNew(scripts[file], n);
      }
      var delta := 0;
      for i := 0 to |hs|
        invariant Follow(hs, n, 0) == Follow(hs[i..], n, delta)
      {
        assert hs[i..][1..] == hs[i + 1..];
        var Hunk(os, oc, _, nc) := hs[i];
        if oc == 0 {
          if n > os {
            delta := delta + nc;
          }
        } else if n < os {
          break;
        } else if n < os + oc {
          return None;
        } else {
          delta := delta + nc - oc;
        }
      }
      return Some(n + delta);
    }
  }

  /** A line before the block being gathered only moves by what was counted so far. */
  lemma {:induction false} FollowBefore(s: seq<Op>, o: nat, n: nat, removed: nat, added: nat, line: int, delta: int)
    requires line <= o
    ensures Follow(Hunks(s, o, n, removed, added), line, delta) == Some(line + delta)
  {
    if s != [] {
      match s[0]
      case Del(_) => FollowBefore(s[1..], o, n, removed + 1, added, line, delta);
      case Add(_) => FollowBefore(s[1..], o, n, removed, added + 1, line, delta);
      case Keep(_) => FollowBefore(s[1..], o + removed + 1, n + added + 1, 0, 0, line, delta);
    }
  }

  /** A line that the block being gathered removes is gone. */
  lemma {:induction false} FollowRemoved(s: seq<Op>, o: nat, n: nat, removed: nat, added: nat, line: int, delta: int)
    requires o < line <= o + removed
    ensures Follow(Hunks(s, o, n, removed, added), line, delta) == None
  {
    if s != [] {
      match s[0]
      case Del(_) => FollowRemoved(s[1..], o, n, removed + 1, added, line, delta);
      case Add(_) => FollowRemoved(s[1..], o, n, removed, added + 1, line, delta);
      case Keep(_) =>
    }
  }

  /** A line behind the block being gathered moves by what the block removes and adds. */
  lemma {:induction false} FollowBehind(s: seq<Op>, o: nat, n: nat, removed: nat, added: nat, line: int, delta: int)
    requires s != [] && s[0].Keep? && line > o + removed
    ensures Follow(Hunks(s, o, n, removed, added), line, delta)
         == Follow(Hunks(s[1..], o + removed + 1, n + added + 1, 0, 0), line, delta + added - removed)
  {
    if removed + added > 0 {
      var h, rest := Header(o, n, removed, added), Hunks(s[1..], o + removed + 1, n + added + 1, 0, 0);
      assert ([h] + rest)[1..] == rest;
    }
  }

  /** The line goes where the script takes it: to the new number of the same line, or to None exactly
      when the script removes it. */
  predicate GoesRight(s: seq<Op>, o: nat, n: nat, removed: nat, added: nat, k: int) {
    Follow(Hunks(s, o, n, removed, added), o + removed + k, n - o) == Shift(ToNew(s, k), n + added)
  }

  lemma {:induction false} KeptGoesRight(s: seq<Op>, o: nat, n: nat, removed: nat, added: nat, k: int)
    requires s != [] && s[0].Keep? && k >= 1
    requires k > 1 ==> GoesRight(s[1..], o + removed + 1, n + added + 1, 0, 0, k - 1)
    ensures GoesRight(s, o, n, removed, added, k)
  {
    var o', n' := o + removed + 1, n + added + 1;
    FollowBehind(s, o, n, removed, added, o + removed + k, n - o);
    if k == 1 {
      FollowBefore(s[1..], o', n', 0, 0, o', n' - o');
    }
  }

  lemma {:induction false} RemovedGoesRight(s: seq<Op>, o: nat, n: nat, removed: nat, added: nat, k: int)
    requires s != [] && s[0].Del? && k >= 1
    requires k > 1 ==> GoesRight(s[1..], o, n, removed + 1, added, k - 1)
    ensures GoesRight(s, o, n, removed, added, k)
  {
    if k == 1 {
      FollowRemoved(s[1..], o, n, removed + 1, added, o + removed + 1, n - o);
    }
  }

  lemma {:induction false} GoRight(s: seq<Op>, o: nat, n: nat, removed: nat, added: nat, k: int)
    requires 1 <= k <= OldCount(s)
    ensures GoesRight(s, o, n, removed, added, k)
  {
    match s[0]
    case Del(_) =>
      if k > 1 {
        GoRight(s[1..], o, n, removed + 1, added, k - 1);
      }
      RemovedGoesRight(s, o, n, removed, added, k);
    case Add(_) => GoRight(s[1..], o, n, removed, added + 1, k);
    case Keep(_) =>
      if k > 1 {
        GoRight(s[1..], o + removed + 1, n + added + 1, 0, 0, k - 1);
      }
      KeptGoesRight(s, o, n, removed, added, k);
  }

  /** Every old line goes where the script takes it. */
  lemma {:induction false} FollowIsToNew(s: seq<Op>, k: int)
    requires 1 <= k <= OldCount(s)
    ensures Follow(Diff(s), k, 0) == ToNew(s, k)
  {
    GoRight(s, 0, 0, 0, 0, k);
  }
}
