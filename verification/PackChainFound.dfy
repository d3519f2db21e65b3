/**
  What the scan does not miss: which declarations it judges, which buffers it gives up and why, and
  that an overflow of any other buffer is reported.
 */
module PackChainFound {
  import opened Collections
  import opened PackLayout
  import opened PackChain
  import opened PackFlow
  import opened PackChainSound

  // ---------------------------------------------------------------- declarations

  predicate Declares(found: seq<(Name, Option<nat>)>, i: nat, n: Name) {
    i < |found| && found[i].0 == n
  }

  /** The name is declared with two sizes. */
  ghost predicate TwoSizes(found: seq<(Name, Option<nat>)>, n: Name) {
    exists i: nat, j: nat :: Declares(found, i, n) && Declares(found, j, n) && found[i].1 != found[j].1
  }

  lemma {:induction false} LastSize(found: seq<(Name, Option<nat>)>, i: nat, n: Name)
    requires Declares(found, i, n) && forall j: nat | i < j :: !Declares(found, j, n)
    ensures n in DeclsOf(found).size && DeclsOf(found).size[n] == found[i].1
  {
    var front := found[..|found| - 1];
    if i < |found| - 1 {
      assert !Declares(found, |found| - 1, n);
      forall j: nat | i < j ensures !Declares(front, j, n) {
        assert !Declares(found, j, n);
      }
      LastSize(front, i, n);
    }
  }

  /** Each declared name has a last declaration. */
  lemma {:induction false} LastDeclared(found: seq<(Name, Option<nat>)>, n: Name, i: nat) returns (last: nat)
    requires Declares(found, i, n)
    ensures i <= last && Declares(found, last, n) && forall j: nat | last < j :: !Declares(found, j, n)
    decreases |found| - i
  {
    if j: nat :| i < j && Declares(found, j, n) {
      last := LastDeclared(found, n, j);
    } else {
      last := i;
    }
  }

  lemma {:induction false} SizedIff(found: seq<(Name, Option<nat>)>, n: Name)
    ensures n in DeclsOf(found).size <==> exists i :: Declares(found, i, n)
  {
    if i :| Declares(found, i, n) {
      var last := LastDeclared(found, n, i);
      LastSize(found, last, n);
    }
    if n in DeclsOf(found).size {
      var i := SizedFrom(found, n);
    }
  }

  lemma {:induction false} SizedFrom(found: seq<(Name, Option<nat>)>, n: Name) returns (i: nat)
    requires n in DeclsOf(found).size
    ensures Declares(found, i, n)
  {
    var front := found[..|found| - 1];
    if n in DeclsOf(front).size {
      i := SizedFrom(front, n);
    } else {
      i := |found| - 1;
    }
  }

  lemma {:induction false} DupFrom(found: seq<(Name, Option<nat>)>, n: Name)
    requires n in DeclsOf(found).dup
    ensures TwoSizes(found, n)
  {
    var front, last := found[..|found| - 1], found[|found| - 1];
    if n in DeclsOf(front).dup {
      DupFrom(front, n);
      var i: nat, j: nat :| Declares(front, i, n) && Declares(front, j, n) && front[i].1 != front[j].1;
      assert Declares(found, i, n) && Declares(found, j, n);
    } else {
      var i := SizedFrom(front, n);
      i := LastDeclared(front, n, i);
      LastSize(front, i, n);
      assert Declares(found, i, n) && Declares(found, |found| - 1, n);
    }
  }

  lemma {:induction false} DupOf(found: seq<(Name, Option<nat>)>, n: Name, i: nat, j: nat)
    requires Declares(found, i, n) && Declares(found, j, n) && i < j && found[i].1 != found[j].1
    ensures n in DeclsOf(found).dup
  {
    var front := found[..|found| - 1];
    if j < |found| - 1 {
      DupOf(front, n, i, j);
    } else {
      var last := LastDeclared(front, n, i);
      LastSize(front, last, n);
      if front[last].1 == found[j].1 {
        DupOf(front, n, i, last);
      }
    }
  }

  /** What the declarations of a function come to: exactly the declared names have a size, that of
      their last declaration, and exactly those declared with two sizes are not judged. */
  lemma {:induction false} DeclsMean(found: seq<(Name, Option<nat>)>, n: Name)
    ensures n in DeclsOf(found).size <==> exists i :: Declares(found, i, n)
    ensures forall i: nat | Declares(found, i, n) && (forall j: nat | i < j :: !Declares(found, j, n)) ::
              n in DeclsOf(found).size && DeclsOf(found).size[n] == found[i].1
    ensures n in DeclsOf(found).dup <==> TwoSizes(found, n)
  {
    SizedIff(found, n);
    forall i: nat | Declares(found, i, n) && (forall j: nat | i < j :: !Declares(found, j, n))
      ensures n in DeclsOf(found).size && DeclsOf(found).size[n] == found[i].1
    {
      LastSize(found, i, n);
    }
    if n in DeclsOf(found).dup {
      DupFrom(found, n);
    }
    if i: nat, j: nat :| Declares(found, i, n) && Declares(found, j, n) && found[i].1 != found[j].1 {
      if i < j {
        DupOf(found, n, i, j);
      } else {
        DupOf(found, n, j, i);
      }
    }
  }

  // ---------------------------------------------------------------- buffers with a chain

  /** Some line starts packing into the buffer. */
  ghost predicate Starts(t: Text, b: Name, n: nat) {
    exists i: nat, k: nat :: i < n && StartsAt(t, b, i, k)
  }

  predicate StartsAt(t: Text, b: Name, i: nat, k: nat) {
    i < |t.lines| && k < |t.lines[i].starts| && t.lines[i].starts[k].buf == b
  }

  predicate IsSeed(t: Text, b: Name) {
    t.seed.Some? && t.seed.value.buf == b
  }

  lemma {:induction false} StartsJudged(t: Text, i: nat, st: State, k: nat, b: Name)
    requires i < |t.lines| && Tracked(st) && k <= |t.lines[i].starts|
    ensures b in DoStarts(t.decls, i, t.lines[i], st, k).chains
       <==> b in st.chains || (Followed(t.decls, b) && exists j: nat :: j < k && StartsAt(t, b, i, j))
  {
    if k > 0 {
      StartsJudged(t, i, st, k - 1, b);
      if Followed(t.decls, b) && t.lines[i].starts[k - 1].buf == b {
        assert StartsAt(t, b, i, k - 1);
      }
    }
  }

  lemma {:induction false} ScanJudged(t: Text, i: nat, b: Name)
    requires i <= |t.lines|
    ensures b in Scan(t, i).chains <==> IsSeed(t, b) || (Followed(t.decls, b) && Starts(t, b, i))
  {
    if i > 0 {
      ScanJudged(t, i - 1, b);
      StartsJudged(t, i - 1, Scan(t, i - 1), |t.lines[i - 1].starts|, b);
      BodyOnlyKills(t, i - 1, AfterStarts(t, i - 1, Scan(t, i - 1)), b);
      if j: nat, k: nat :| j < i && StartsAt(t, b, j, k) {
        assert j < i - 1 || (j == i - 1 && k < |t.lines[j].starts|);
      }
    }
  }

  /** Judged are the seed's buffer and the declared ones that some line starts to pack into, unless two
      declarations give different sizes. */
  lemma {:induction false} JudgedIff(lines: seq<Line>, found: seq<(Name, Option<nat>)>, seed: Option<Start>, b: Name)
    ensures var t := Text(lines, DeclsOf(found), seed);
            b in Chains(t) <==> IsSeed(t, b) || (Starts(t, b, |lines|) && !TwoSizes(found, b)
                                                 && exists i :: Declares(found, i, b))
  {
    DeclsMean(found, b);
    ScanJudged(Text(lines, DeclsOf(found), seed), |lines|, b);
  }

  /** The size that a chain is judged by. */
  ghost predicate Sized(t: Text, st: State, b: Name) {
    b in st.chains ==> IsSeed(t, b) || (b in t.decls.size && st.chains[b].declared == t.decls.size[b])
  }

  lemma {:induction false} StartsSized(t: Text, i: nat, st: State, k: nat, b: Name)
    requires i < |t.lines| && Tracked(st) && k <= |t.lines[i].starts| && Sized(t, st, b)
    ensures Sized(t, DoStarts(t.decls, i, t.lines[i], st, k), b)
  {
    if k > 0 {
      StartsSized(t, i, st, k - 1, b);
    }
  }

  lemma {:induction false} BodySized(t: Text, i: nat, st: State, b: Name)
    requires i < |t.lines| && Tracked(st) && Sized(t, st, b)
    ensures Sized(t, DoPlain(t.lines[i], st), b) && Sized(t, DoPack(t.lines, i, st), b)
  {
  }

  lemma {:induction false} ScanSized(t: Text, i: nat, b: Name)
    requires i <= |t.lines|
    ensures Sized(t, Scan(t, i), b)
  {
    if i > 0 {
      ScanSized(t, i - 1, b);
      StartsSized(t, i - 1, Scan(t, i - 1), |t.lines[i - 1].starts|, b);
      BodySized(t, i - 1, AfterStarts(t, i - 1, Scan(t, i - 1)), b);
    }
  }

  // ---------------------------------------------------------------- buffers that are given up

  /** The names hold the buffer or a cursor that the scan takes to be in it. */
  ghost predicate Mentions(st: State, names: set<Name>, b: Name) {
    b in names || exists c :: c in names && c in st.track && st.track[c].buf == b
  }

  /** The line starts the buffer another time. */
  ghost predicate Restarts(t: Text, i: nat, st: State, b: Name, n: nat)
    requires i < |t.lines| && n <= |t.lines[i].starts| && Tracked(st)
  {
    Followed(t.decls, b) && exists k: nat :: k < n && RestartsAt(t, i, st, b, k)
  }

  predicate RestartsAt(t: Text, i: nat, st: State, b: Name, k: nat)
    requires i < |t.lines| && k < |t.lines[i].starts| && Tracked(st)
  {
    t.lines[i].starts[k].buf == b && b in DoStarts(t.decls, i, t.lines[i], st, k).chains
  }

  /** The line touches the buffer in a way that no pattern covers. */
  ghost predicate Spoils(line: Line, st: State, b: Name) {
    match line.pack
    case NoPack => line.foreign && Mentions(st, line.names, b)
    case Unreadable => Mentions(st, line.names, b)
    case Single(dst, _, src, rest) => dst.Some? && src !in st.track && Mentions(st, rest, b)
  }

  ghost predicate GivesUp(t: Text, i: nat, b: Name)
    requires i < |t.lines|
  {
    var st := AfterStarts(t, i, Scan(t, i));
    b in st.chains && (Restarts(t, i, Scan(t, i), b, |t.lines[i].starts|) || Spoils(t.lines[i], st, b))
  }

  lemma {:induction false} StartsStay(t: Text, i: nat, st: State, j: nat, k: nat, b: Name)
    requires i < |t.lines| && Tracked(st) && j <= k <= |t.lines[i].starts|
    ensures b in DoStarts(t.decls, i, t.lines[i], st, j).chains ==> b in DoStarts(t.decls, i, t.lines[i], st, k).chains
  {
    if j < k {
      StartsStay(t, i, st, j, k - 1, b);
    }
  }

  lemma {:induction false} StartsGiveUp(t: Text, i: nat, st: State, k: nat, b: Name)
    requires i < |t.lines| && Tracked(st) && k <= |t.lines[i].starts|
    ensures var st' := DoStarts(t.decls, i, t.lines[i], st, k);
            b in st'.chains ==>
              (st'.chains[b].poison <==> (b in st.chains && st.chains[b].poison) || Restarts(t, i, st, b, k))
  {
    if k > 0 {
      StartsGiveUp(t, i, st, k - 1, b);
      StartGivesUp(t, i, st, k - 1, b);
    }
  }

  lemma {:induction false} StartGivesUp(t: Text, i: nat, st: State, k: nat, b: Name)
    requires i < |t.lines| && Tracked(st) && k < |t.lines[i].starts|
    ensures var before, after := DoStarts(t.decls, i, t.lines[i], st, k), DoStarts(t.decls, i, t.lines[i], st, k + 1);
            b in after.chains ==>
              if b in before.chains
              then after.chains[b].poison
                   <==> before.chains[b].poison || (Followed(t.decls, b) && RestartsAt(t, i, st, b, k))
              else !after.chains[b].poison && b !in st.chains
    ensures Restarts(t, i, st, b, k + 1)
       <==> Restarts(t, i, st, b, k) || (Followed(t.decls, b) && RestartsAt(t, i, st, b, k))
    ensures b !in DoStarts(t.decls, i, t.lines[i], st, k).chains ==> !Restarts(t, i, st, b, k + 1)
  {
    StartsStay(t, i, st, 0, k, b);
    if j: nat :| j < k && RestartsAt(t, i, st, b, j) {
      StartsStay(t, i, st, j, k, b);
    }
    if j: nat :| j < k + 1 && RestartsAt(t, i, st, b, j) {
      assert j < k || j == k;
    }
  }

  lemma {:induction false} TouchedIff(st: State, names: set<Name>, b: Name)
    requires b in st.chains
    ensures b in Touched(st, names) <==> Mentions(st, names, b)
  {
  }

  lemma {:induction false} BodyGivesUp(t: Text, i: nat, st: State, b: Name)
    requires i < |t.lines| && Tracked(st) && b in st.chains
    ensures var line := t.lines[i];
            var st' := if line.pack.NoPack? then DoPlain(line, st) else DoPack(t.lines, i, st);
            b in st'.chains && (st'.chains[b].poison <==> st.chains[b].poison || Spoils(line, st, b))
  {
    var line := t.lines[i];
    match line.pack
    case NoPack => TouchedIff(st, line.names, b);
    case Unreadable => TouchedIff(st, line.names, b);
    case Single(_, _, _, rest) => TouchedIff(st, rest, b);
  }

  lemma {:induction false} LineGivesUp(t: Text, i: nat, b: Name)
    requires i < |t.lines| && b in Scan(t, i + 1).chains
    ensures Scan(t, i + 1).chains[b].poison
       <==> (b in Scan(t, i).chains && Scan(t, i).chains[b].poison) || GivesUp(t, i, b)
  {
    var st := AfterStarts(t, i, Scan(t, i));
    StartsGiveUp(t, i, Scan(t, i), |t.lines[i].starts|, b);
    BodyOnlyKills(t, i, st, b);
    BodyGivesUp(t, i, st, b);
  }

  lemma {:induction false} ScanGivesUp(t: Text, n: nat, b: Name)
    requires n <= |t.lines| && b in Scan(t, n).chains
    ensures Scan(t, n).chains[b].poison <==> exists i: nat :: i < n && GivesUp(t, i, b)
  {
    if n > 0 {
      LineGivesUp(t, n - 1, b);
      if b in Scan(t, n - 1).chains {
        ScanGivesUp(t, n - 1, b);
      } else {
        forall i: nat | i < n - 1 ensures !GivesUp(t, i, b) {
          NotYet(t, i, n - 1, b);
        }
      }
    }
  }

  lemma {:induction false} NotYet(t: Text, i: nat, n: nat, b: Name)
    requires i < n <= |t.lines| && b !in Scan(t, n).chains
    ensures b !in AfterStarts(t, i, Scan(t, i)).chains
  {
    BodyOnlyKills(t, i, AfterStarts(t, i, Scan(t, i)), b);
    ScanJudged(t, n, b);
    ScanJudged(t, i + 1, b);
  }

  /** A buffer is given up exactly if some line starts it again or touches it in a way that no pattern
      covers, or a loop keyword, goto or label stands between its start and its last call. */
  lemma {:induction false} GivenUpIff(t: Text, b: Name)
    requires b in Chains(t)
    ensures var c := Chains(t)[b];
            c.poison <==> (exists i: nat :: i < |t.lines| && GivesUp(t, i, b))
                          || (c.steps != [] && exists x | c.start <= x <= c.last && x < |t.lines| :: t.lines[x].loopy)
  {
    ScanGivesUp(t, |t.lines|, b);
  }

  /** The line's call ends the chain: its packer is not known, or a branch lies between it and the call
      before. */
  predicate Breaks(lines: seq<Line>, i: nat, c: Chain, p: Packer)
    requires i < |lines|
  {
    !Known(p) || (c.steps != [] && (lines[i].depth != c.depth || exists x | c.last < x < i :: lines[x].branch))
  }

  /** The buffer, if a cursor that the scan follows is in it, and the place. */
  ghost predicate Calls(t: Text, i: nat, b: Name, off: nat)
    requires i < |t.lines|
  {
    var st, pack := AfterStarts(t, i, Scan(t, i)), t.lines[i].pack;
    pack.Single? && pack.src in st.track && st.track[pack.src] == Pos(b, off) && Live(st, b)
  }

  /** A call into a live buffer is recorded, or it breaks the chain and ends it. */
  lemma {:induction false} CallCounts(t: Text, i: nat, b: Name, off: nat)
    requires i < |t.lines| && Calls(t, i, b, off)
    ensures var p, c := t.lines[i].pack.packer, AfterStarts(t, i, Scan(t, i)).chains[b];
            && b in Scan(t, i + 1).chains
            && (Scan(t, i + 1).chains[b].dead <==> Breaks(t.lines, i, c, p))
            && (!Breaks(t.lines, i, c, p) ==> Step(i, p, Begin(p, off), End(p, off)) in StepsOf(Scan(t, i + 1), b))
  {
  }

  ghost predicate EndsAt(t: Text, i: nat, b: Name) {
    && i < |t.lines|
    && exists off :: Calls(t, i, b, off)
                     && Breaks(t.lines, i, AfterStarts(t, i, Scan(t, i)).chains[b], t.lines[i].pack.packer)
  }

  lemma {:induction false} StartsKeepDead(t: Text, i: nat, st: State, k: nat, b: Name)
    requires i < |t.lines| && Tracked(st) && k <= |t.lines[i].starts|
    ensures var st' := DoStarts(t.decls, i, t.lines[i], st, k);
            b in st'.chains ==> (st'.chains[b].dead <==> b in st.chains && st.chains[b].dead)
  {
    if k > 0 {
      StartsKeepDead(t, i, st, k - 1, b);
      StartsStay(t, i, st, 0, k - 1, b);
    }
  }

  lemma {:induction false} LineEnds(t: Text, i: nat, b: Name)
    requires i < |t.lines| && b in Scan(t, i + 1).chains
    ensures Scan(t, i + 1).chains[b].dead
       <==> (b in Scan(t, i).chains && Scan(t, i).chains[b].dead) || EndsAt(t, i, b)
  {
    var st := AfterStarts(t, i, Scan(t, i));
    StartsKeepDead(t, i, Scan(t, i), |t.lines[i].starts|, b);
    if off :| Calls(t, i, b, off) {
      CallCounts(t, i, b, off);
    } else {
      NoCall(t, i, st, b);
    }
  }

  lemma {:induction false} NoCall(t: Text, i: nat, st: State, b: Name)
    requires i < |t.lines| && st == AfterStarts(t, i, Scan(t, i)) && b in Scan(t, i + 1).chains
    requires forall off: nat :: !Calls(t, i, b, off)
    ensures b in st.chains && Scan(t, i + 1).chains[b].dead == st.chains[b].dead
  {
    var pack := t.lines[i].pack;
    assert pack.Single? && pack.src in st.track ==> !Calls(t, i, b, st.track[pack.src].off);
  }

  lemma {:induction false} ScanEnds(t: Text, n: nat, b: Name)
    requires n <= |t.lines| && b in Scan(t, n).chains
    ensures Scan(t, n).chains[b].dead <==> exists i: nat :: i < n && EndsAt(t, i, b)
  {
    if n > 0 {
      LineEnds(t, n - 1, b);
      if b in Scan(t, n - 1).chains {
        ScanEnds(t, n - 1, b);
      } else {
        forall i: nat | i < n - 1 ensures !EndsAt(t, i, b) {
          NotYet(t, i, n - 1, b);
        }
      }
    }
  }

  /** A chain is ended exactly if some call into it, not given up and not ended then, has an unknown
      packer or stands behind a branch. */
  lemma {:induction false} EndedIff(t: Text, b: Name)
    requires b in Chains(t)
    ensures Chains(t)[b].dead <==> exists i: nat :: i < |t.lines| && EndsAt(t, i, b)
  {
    ScanEnds(t, |t.lines|, b);
  }

  // ---------------------------------------------------------------- overflows that are reported

  lemma {:induction false} LiveBefore(t: Text, i: nat, n: nat, b: Name)
    requires i < n <= |t.lines| && Live(Scan(t, n), b) && b in AfterStarts(t, i, Scan(t, i)).chains
    ensures Live(AfterStarts(t, i, Scan(t, i)), b) && Live(Scan(t, i + 1), b)
    ensures StepsOf(Scan(t, i + 1), b) <= StepsOf(Scan(t, n), b)
  {
    var m := n - 1;
    var st := AfterStarts(t, m, Scan(t, m));
    BodyOnlyKills(t, m, st, b);
    if i < m {
      NotYetStays(t, i, m, b);
      StartsGiveUp(t, m, Scan(t, m), |t.lines[m].starts|, b);
      StartsKeepDead(t, m, Scan(t, m), |t.lines[m].starts|, b);
      LiveBefore(t, i, m, b);
      LineRecords(t, m, b);
    }
  }

  lemma {:induction false} NotYetStays(t: Text, i: nat, n: nat, b: Name)
    requires i < n <= |t.lines| && b in AfterStarts(t, i, Scan(t, i)).chains
    ensures b in Scan(t, n).chains
  {
    if b !in Scan(t, n).chains {
      NotYet(t, i, n, b);
    }
  }

  lemma {:induction false} PastIsFirst(lines: seq<Line>, c: Chain, s: Step, size: nat)
    requires WellRecorded(lines, c) && s in c.steps && c.declared == Some(size) && s.end > size
    ensures c.over.Some? && c.over.value <= s.idx
  {
    var j :| 0 <= j < |c.steps| && c.steps[j] == s;
    if FirstPast(c.steps, size).None? {
      NonePast(c.steps, size);
    } else {
      var k := FirstPastIsFirst(c.steps, size);
      StepsInOrder(lines, c.steps, c.depth, k, j);
    }
  }

  /** When the lines run in turn and a call writes past the size of a buffer, the check reports an
      overflow of that buffer on this line or before, or it has given the buffer up or ended it. */
  lemma {:induction false} OverflowIsReported(t: Text, b: Name, i: nat)
    requires SeedApart(t) && i < |t.lines| && !IsSeed(t, b) && Followed(t.decls, b) && t.decls.size[b].Some?
    requires PastSize(WriteOf(t, Adversary(t, i)), b, t.decls.size[b].value)
    ensures b in Chains(t)
    ensures Chains(t)[b].poison || Chains(t)[b].dead || (Chains(t)[b].over.Some? && Chains(t)[b].over.value <= i)
  {
    var x, n := Adversary(t, i), |t.lines|;
    var st, env := AfterStarts(t, i, Scan(t, i)), Started(t.lines[i], Run(t, x));
    var c := t.lines[i].pack.src;
    OneLineMore(t, i);
    AdversaryMisleads(t, i, Scan(t, i), Stale(t, i), Run(t, x));
    StartsMislead(t, i, Scan(t, i), Stale(t, i), Run(t, x), |t.lines[i].starts|);
    assert Val(env, c).At? && Val(env, c).buf == b && b in st.chains;
    NotYetStays(t, i, n, b);
    if Live(Scan(t, n), b) && !Chains(t)[b].poison {
      LiveBefore(t, i, n, b);
      var off := st.track[c].off;
      CallCounts(t, i, b, off);
      var p := t.lines[i].pack.packer;
      ChainsWellRecorded(t, b);
      ScanSized(t, n, b);
      PastIsFirst(t.lines, Chains(t)[b], Step(i, p, Begin(p, off), End(p, off)), t.decls.size[b].value);
    }
  }
}
