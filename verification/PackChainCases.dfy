/**
  Three small functions on which the check reports an overflow that does not happen.
 */
module PackChainCases {
  import opened Collections
  import opened PackLayout
  import opened PackChain
  import opened PackFlow
  import opened PackChainSound
  import opened PackChainText

  const A := Name("a")
  const B := Name("b")
  const P := Name("p")
  const Q := Name("q")

  lemma {:induction false} NamesDiffer()
    ensures A != B && P != Q
  {
    assert A.text[0] != B.text[0] && P.text[0] != Q.text[0];
  }

  function Plain(starts: seq<Start>, pack: Pack, copy: Option<Copy>, branch: bool): Line {
    Line(1, starts, pack, false, copy, {}, branch, false, false, {})
  }

  // ---------------------------------------------------------------- what the lines do to the scan

  lemma {:induction false} StartLine(t: Text, i: nat, s: Start)
    requires i < |t.lines| && t.lines[i] == Plain([s], NoPack, None, false)
    requires s.buf in t.decls.size && s.buf !in t.decls.dup && s.buf !in Scan(t, i).chains
    ensures Scan(t, i + 1) == State(Scan(t, i).chains[s.buf := NewChain(t.decls.size[s.buf], i, 1)],
                                    Scan(t, i).track[s.cur := Pos(s.buf, 0)])
    ensures Stale(t, i + 1) == Stale(t, i) - {s.cur}
  {
    assert DoStarts(t.decls, i, t.lines[i], Scan(t, i), 0) == Scan(t, i);
    assert StaleStarts(t, i, Scan(t, i), Stale(t, i), 0) == Stale(t, i);
  }

  function AfterCall(c: Chain, i: nat, p: Packer, off: nat): Chain {
    var end := End(p, off);
    c.(steps := c.steps + [Step(i, p, Begin(p, off), end)], last := i, need := if end > c.need then end else c.need,
       over := if c.declared.Some? && end > c.declared.value && c.over.None? then Some(i) else c.over)
  }

  /** Without loops the scan returns its chains as they are. */
  lemma {:induction false} Returned(t: Text, st: State, b: Name)
    requires st == Scan(t, |t.lines|) && b in st.chains && forall i | 0 <= i < |t.lines| :: !t.lines[i].loopy
    ensures b in Chains(t) && Chains(t)[b] == st.chains[b]
  {
  }

  lemma {:induction false} StaleStep(t: Text, st: State, b: Name, c: Chain)
    requires st == Scan(t, |t.lines|) && b in st.chains && c == st.chains[b]
    requires c.steps != [] && c.steps[0].idx < |t.lines| && StaleCall(t, c.steps[0].idx)
    ensures !NoStaleSteps(t, b)
  {
    assert c.steps[0] in StepsOf(st, b);
  }

  lemma {:induction false} CallsApart(t: Text, c: Chain)
    requires c.steps != [] && c.steps[0].idx < c.last && !Joined(t.lines, c.steps[0].idx)
    ensures !CallsJoined(t, c)
  {
  }

  // ---------------------------------------------------------------- what the lines do to the cursors

  lemma {:induction false} Begins(t: Text, x: Pass, unseen: Env, i: nat, s: Start)
    requires x.line < |t.lines| && t.lines[x.line] == Plain([s], NoPack, None, false)
    ensures Val(Run(t, On(x, unseen, i)), s.cur) == At(s.buf, 0)
  {
    assert RunStarts(t.lines[x.line], Run(t, x), 0) == Run(t, x);
  }

  lemma {:induction false} Keeps(t: Text, x: Pass, unseen: Env, i: nat, s: Start, c: Name)
    requires x.line < |t.lines| && t.lines[x.line] == Plain([s], NoPack, None, false) && c != s.cur
    ensures Val(Run(t, On(x, unseen, i)), c) == Val(Run(t, x), c)
  {
    assert RunStarts(t.lines[x.line], Run(t, x), 0) == Run(t, x);
  }

  // ---------------------------------------------------------------- a copy from elsewhere

  /** p starts in a four-byte buffer, is then copied from an unrelated pointer, and packs eight bytes. */
  function Reassigned(): Text {
    Text([Plain([Start(P, B)], NoPack, None, false),
          Plain([], NoPack, Some(Copy(P, Q)), false),
          Plain([], Single(Some(P), Int64, P, {}), None, false)],
         Decls(map[B := Some(4)], {}), None)
  }

  const IN_TURN := Flow({0}, [{1}, {2}, {3}])

  lemma {:induction false} InTurnRespects()
    ensures Respects(Reassigned(), IN_TURN)
  {
  }

  lemma {:induction false} ReassignedScan()
    ensures var t := Reassigned();
            && Scan(t, 3) == State(map[B := AfterCall(NewChain(Some(4), 0, 1), 2, Int64, 0)], map[P := Pos(B, 8)])
            && StaleCall(t, 2)
  {
    var t := Reassigned();
    NamesDiffer();
    StartLine(t, 0, Start(P, B));
    assert Scan(t, 3).chains == map[B := AfterCall(NewChain(Some(4), 0, 1), 2, Int64, 0)];
    assert Scan(t, 3).track == map[P := Pos(B, 8)];
  }

  /** The line-by-line pass over the text, up to the call. */
  function InTurn(): Pass {
    On(On(Entry(0, map[]), map[], 1), map[], 2)
  }

  lemma {:induction false} InTurnMisses()
    ensures Goes(Reassigned(), IN_TURN, InTurn()) && WriteOf(Reassigned(), InTurn()).None?
  {
    var t := Reassigned();
    NamesDiffer();
    Keeps(t, Entry(0, map[]), map[], 1, Start(P, B), Q);
  }

  lemma {:induction false} ReassignedFound()
    ensures var t := Reassigned();
            && B in Chains(t) && !Chains(t)[B].poison && Chains(t)[B].over == Some(2)
            && !NoStaleSteps(t, B)
  {
    var t := Reassigned();
    var st := Scan(t, 3);
    ReassignedScan();
    Returned(t, st, B);
    StaleStep(t, st, B, st.chains[B]);
  }

  /** The scan keeps p in the buffer and reports an overflow on the last line, although the buffer is
      not written there at all. */
  lemma {:induction false} StaleFindingIsFalse()
    ensures var t := Reassigned();
            && B in Chains(t) && !Chains(t)[B].poison && Chains(t)[B].over == Some(2)
            && !NoStaleSteps(t, B)
    ensures Respects(Reassigned(), IN_TURN) && Goes(Reassigned(), IN_TURN, InTurn())
    ensures InTurn().line == 2 && WriteOf(Reassigned(), InTurn()).None?
  {
    ReassignedFound();
    InTurnRespects();
    InTurnMisses();
  }

  // ---------------------------------------------------------------- a copy on another branch

  /** p starts in a buffer of sixteen bytes and q in one of four; under an if p becomes q and the
      function returns; behind it p packs eight bytes. */
  function CopiedAside(): Text {
    Text([Plain([Start(P, A)], NoPack, None, false),
          Plain([Start(Q, B)], NoPack, None, false),
          Plain([], NoPack, None, true),
          Plain([], NoPack, Some(Copy(P, Q)), false),
          Plain([], NoPack, None, true),
          Plain([], Single(Some(P), Int64, P, {}), None, false)],
         Decls(map[A := Some(16), B := Some(4)], {}), None)
  }

  const ASIDE := Flow({0}, [{1}, {2}, {3, 5}, {4}, {6}, {6}])

  lemma {:induction false} AsideRespects()
    ensures Respects(CopiedAside(), ASIDE)
  {
  }

  lemma {:induction false} CopiedAsideScan()
    ensures var t := CopiedAside();
            && Scan(t, 1) == State(map[A := NewChain(Some(16), 0, 1)], map[P := Pos(A, 0)])
            && Scan(t, 3) == Scan(t, 2)
            && Scan(t, 2) == State(map[A := NewChain(Some(16), 0, 1), B := NewChain(Some(4), 1, 1)],
                                   map[P := Pos(A, 0), Q := Pos(B, 0)])
            && Scan(t, 5) == Scan(t, 4)
            && Scan(t, 4) == State(Scan(t, 2).chains, map[P := Pos(B, 0), Q := Pos(B, 0)])
  {
    var t := CopiedAside();
    NamesDiffer();
    StartLine(t, 0, Start(P, A));
    StartLine(t, 1, Start(Q, B));
    assert Scan(t, 1).chains == map[A := NewChain(Some(16), 0, 1)];
  }

  lemma {:induction false} CopiedAsideFound()
    ensures var t := CopiedAside();
            B in Chains(t) && !Chains(t)[B].poison && Chains(t)[B].over == Some(5) && Chains(t)[B].declared == Some(4)
  {
    var t := CopiedAside();
    NamesDiffer();
    CopiedAsideScan();
    var c := NewChain(Some(4), 1, 1);
    assert Scan(t, 6).chains[B] == AfterCall(c, 5, Int64, 0);
    Returned(t, Scan(t, 6), B);
  }

  lemma {:induction false} CopiedAsideOnlySeen()
    ensures OnlySeen(CopiedAside())
  {
    var t := CopiedAside();
    NamesDiffer();
    CopiedAsideScan();
    forall i | 0 <= i < |t.lines| ensures OnlySeenOn(t, i) {
      if i == 0 {
        assert DoStarts(t.decls, 0, t.lines[0], Scan(t, 0), 0) == State(map[], map[]);
      } else if i == 1 {
        assert DoStarts(t.decls, 1, t.lines[1], Scan(t, 1), 0) == Scan(t, 1);
      } else {
        assert AfterStarts(t, i, Scan(t, i)) == Scan(t, i);
      }
    }
  }

  /** The pass that does not take the branch. */
  function NotAside(): Pass {
    On(On(On(Entry(0, map[]), map[], 1), map[], 2), map[], 5)
  }

  lemma {:induction false} NotAsideGoes()
    ensures Goes(CopiedAside(), ASIDE, NotAside()) && NotAside().line == 5
  {
  }

  /** A line that does nothing to the cursors. */
  lemma {:induction false} Passes(t: Text, x: Pass, unseen: Env, i: nat, c: Name)
    requires x.line < |t.lines| && t.lines[x.line] == Plain([], NoPack, None, true)
    ensures Val(Run(t, On(x, unseen, i)), c) == Val(Run(t, x), c)
  {
  }

  lemma {:induction false} WritesThere(t: Text, x: Pass, p: Packer, cur: Name, b: Name)
    requires x.line < |t.lines| && t.lines[x.line] == Plain([], Single(Some(cur), p, cur, {}), None, false)
    requires Val(Run(t, x), cur) == At(b, 0)
    ensures WriteOf(t, x) == WriteFrom(p, At(b, 0))
  {
  }

  lemma {:induction false} NotAsideWrites()
    ensures WriteOf(CopiedAside(), NotAside()) == Some(Write(A, 0, 8))
  {
    var t := CopiedAside();
    NamesDiffer();
    var x0 := Entry(0, map[]);
    var x1 := On(x0, map[], 1);
    var x2 := On(x1, map[], 2);
    Begins(t, x0, map[], 1, Start(P, A));
    Keeps(t, x1, map[], 2, Start(Q, B), P);
    Passes(t, x2, map[], 5, P);
    WritesThere(t, NotAside(), Int64, P, A);
  }

  /** The scan takes p to be in the small buffer and reports an overflow of it on the last line, which
      writes into the large one; every assignment is of a kind that the check covers. */
  lemma {:induction false} SkippedCopyIsFalse()
    ensures var t := CopiedAside();
            B in Chains(t) && !Chains(t)[B].poison && Chains(t)[B].over == Some(5) && OnlySeen(t) && NoStaleSteps(t, B)
    ensures Respects(CopiedAside(), ASIDE) && Goes(CopiedAside(), ASIDE, NotAside())
    ensures NotAside().line == 5 && WriteOf(CopiedAside(), NotAside()) == Some(Write(A, 0, 8))
  {
    AsideRespects();
    CopiedAsideFound();
    CopiedAsideOnlySeen();
    OnlySeenMeansNoStaleSteps(CopiedAside(), B);
    NotAsideGoes();
    NotAsideWrites();
  }

  // ---------------------------------------------------------------- calls on two branches

  /** Into a buffer of eight bytes, an if packs eight bytes and its else packs four. */
  function EitherWay(): Text {
    Text([Plain([Start(P, B)], NoPack, None, false),
          Plain([], Single(Some(P), Int64, P, {}), None, true),
          Plain([], Single(Some(P), Int, P, {}), None, true)],
         Decls(map[B := Some(8)], {}), None)
  }

  const EITHER := Flow({0}, [{1, 2}, {3}, {3}])

  lemma {:induction false} EitherRespects()
    ensures Respects(EitherWay(), EITHER)
  {
  }

  lemma {:induction false} EitherWayFound()
    ensures var t := EitherWay();
            B in Chains(t) && !Chains(t)[B].poison && Chains(t)[B].over == Some(2)
            && Chains(t)[B].steps == [Step(1, Int64, 0, 8), Step(2, Int, 8, 12)] && Chains(t)[B].last == 2
  {
    var t := EitherWay();
    var c := NewChain(Some(8), 0, 1);
    StartLine(t, 0, Start(P, B));
    assert Scan(t, 2).chains[B] == AfterCall(c, 1, Int64, 0);
    assert Scan(t, 3).chains[B] == AfterCall(AfterCall(c, 1, Int64, 0), 2, Int, 8);
    Returned(t, Scan(t, 3), B);
  }

  lemma {:induction false} EitherWayFits(x: Pass)
    requires Goes(EitherWay(), EITHER, x) && (x.line == 1 || x.line == 2)
    ensures WriteOf(EitherWay(), x) == Some(Write(B, 0, if x.line == 1 then 8 else 4))
  {
    var t := EitherWay();
    assert x.On? && x.before.line == 0;
    Begins(t, x.before, x.unseen, x.line, Start(P, B));
  }

  /** The scan adds the two calls up and reports an overflow on the last line, although no pass makes
      both and none writes past the size. */
  lemma {:induction false} BranchedCallsAreFalse()
    ensures var t := EitherWay();
            B in Chains(t) && !Chains(t)[B].poison && Chains(t)[B].over == Some(2) && !CallsJoined(t, Chains(t)[B])
    ensures Respects(EitherWay(), EITHER)
    ensures forall x | Goes(EitherWay(), EITHER, x) && WriteOf(EitherWay(), x).Some? ::
      WriteOf(EitherWay(), x).value.end <= 8
  {
    EitherRespects();
    EitherWayFound();
    CallsApart(EitherWay(), Chains(EitherWay())[B]);
    forall x | Goes(EitherWay(), EITHER, x) && WriteOf(EitherWay(), x).Some?
      ensures WriteOf(EitherWay(), x).value.end <= 8
    {
      EitherWayFits(x);
    }
  }
}
