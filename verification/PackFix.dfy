/**
  The declaration size that the check proposes, against the chains of the scan: calls from copied
  cursors and calls whose result is dropped included.
 */
module PackFix {
  import opened Collections
  import opened PackLayout
  import opened PackChain

  /** An offset that leaves room for at least four bytes for each aligning call so far. */
  predicate Roomy(off: nat, steps: seq<Step>) {
    off % 4 == 0 && off + 4 * AlignedCalls(steps) <= FixTotal(steps)
  }

  lemma {:induction false} EndIsRoomy(off: nat, steps: seq<Step>, i: nat, p: Packer)
    requires Roomy(off, steps) && Known(p)
    ensures Roomy(End(p, off), steps + [Step(i, p, Begin(p, off), End(p, off))])
  {
    EndBounds(p, off);
    FixTotalPush(steps, Step(i, p, Begin(p, off), End(p, off)));
  }

  lemma {:induction false} StaysRoomy(off: nat, steps: seq<Step>, s: Step)
    requires Roomy(off, steps) && s.begin <= s.end
    ensures Roomy(off, steps + [s])
  {
    FixTotalPush(steps, s);
  }

  /** Every tracked offset, and what every chain needs, leaves room. */
  ghost predicate AllRoomy(st: State) {
    && Tracked(st)
    && (forall c | c in st.track :: Roomy(st.track[c].off, st.chains[st.track[c].buf].steps))
    && (forall b | b in st.chains :: Roomy(st.chains[b].need, st.chains[b].steps))
  }

  lemma {:induction false} StartRoomy(ds: Decls, i: nat, depth: int, st: State, s: Start)
    requires AllRoomy(st)
    ensures AllRoomy(DoStart(ds, i, depth, st, s))
  {
    assert Roomy(0, []);
  }

  lemma {:induction false} StartsRoomy(t: Text, i: nat, st: State, k: nat)
    requires i < |t.lines| && k <= |t.lines[i].starts| && AllRoomy(st)
    ensures AllRoomy(DoStarts(t.decls, i, t.lines[i], st, k))
  {
    if k > 0 {
      StartsRoomy(t, i, st, k - 1);
      StartRoomy(t.decls, i, t.lines[i].depth, DoStarts(t.decls, i, t.lines[i], st, k - 1), t.lines[i].starts[k - 1]);
    }
  }

  /** A recorded call keeps the offsets of its own chain roomy. */
  lemma {:induction false} CallRoomy(lines: seq<Line>, i: nat, c: Chain, p: Packer, off: nat, other: nat)
    requires i < |lines| && Roomy(off, c.steps) && Roomy(other, c.steps) && Roomy(c.need, c.steps)
    requires AddStep(lines, i, c, p, off).Some?
    ensures var c' := AddStep(lines, i, c, p, off).value;
            Roomy(End(p, off), c'.steps) && Roomy(other, c'.steps) && Roomy(c'.need, c'.steps)
  {
    var s := Step(i, p, Begin(p, off), End(p, off));
    EndIsRoomy(off, c.steps, i, p);
    StaysRoomy(other, c.steps, s);
    StaysRoomy(c.need, c.steps, s);
  }

  lemma {:induction false} ChainRoomy(st: State, buf: Name, c: Chain)
    requires AllRoomy(st) && Roomy(c.need, c.steps)
    requires forall n | n in st.track && st.track[n].buf == buf :: Roomy(st.track[n].off, c.steps)
    ensures AllRoomy(State(st.chains[buf := c], st.track))
  {
  }

  lemma {:induction false} CursorRoomy(st: State, n: Name, pos: Pos)
    requires AllRoomy(st) && pos.buf in st.chains && Roomy(pos.off, st.chains[pos.buf].steps)
    ensures AllRoomy(State(st.chains, st.track[n := pos]))
  {
  }

  /** A call that is recorded. */
  lemma {:induction false} StepRoomy(lines: seq<Line>, i: nat, st: State, p: Packer, src: Name, dst: Option<Name>)
    requires i < |lines| && AllRoomy(st) && src in st.track
    requires AddStep(lines, i, st.chains[st.track[src].buf], p, st.track[src].off).Some?
    ensures var Pos(buf, off) := st.track[src];
            AllRoomy(State(st.chains[buf := AddStep(lines, i, st.chains[buf], p, off).value],
                           if dst.Some? then st.track[dst.value := Pos(buf, End(p, off))] else st.track))
  {
    var Pos(buf, off) := st.track[src];
    var c := st.chains[buf];
    var c' := AddStep(lines, i, c, p, off).value;
    forall n | n in st.track && st.track[n].buf == buf ensures Roomy(st.track[n].off, c'.steps) {
      CallRoomy(lines, i, c, p, off, st.track[n].off);
    }
    CallRoomy(lines, i, c, p, off, off);
    ChainRoomy(st, buf, c');
    if dst.Some? {
      CursorRoomy(State(st.chains[buf := c'], st.track), dst.value, Pos(buf, End(p, off)));
    }
  }

  lemma {:induction false} PackRoomy(lines: seq<Line>, i: nat, st: State)
    requires i < |lines| && AllRoomy(st)
    ensures AllRoomy(DoPack(lines, i, st))
  {
    var pack := lines[i].pack;
    if pack.Single? && pack.src in st.track {
      var Pos(buf, off) := st.track[pack.src];
      if AddStep(lines, i, st.chains[buf], pack.packer, off).Some? {
        StepRoomy(lines, i, st, pack.packer, pack.src, pack.dst);
      }
    }
  }

  lemma {:induction false} ScanRoomy(t: Text, i: nat)
    requires i <= |t.lines|
    ensures AllRoomy(Scan(t, i))
  {
    if i == 0 {
      assert Roomy(0, []);
    } else {
      ScanRoomy(t, i - 1);
      LineRoomy(t, i - 1, Scan(t, i - 1));
    }
  }

  lemma {:induction false} LineRoomy(t: Text, i: nat, st: State)
    requires i < |t.lines| && AllRoomy(st)
    ensures AllRoomy(DoLine(t, i, st))
  {
    StartsRoomy(t, i, st, |t.lines[i].starts|);
    if t.lines[i].pack.NoPack? {
      PlainRoomy(t.lines[i], AfterStarts(t, i, st));
    } else {
      PackRoomy(t.lines, i, AfterStarts(t, i, st));
    }
  }

  lemma {:induction false} PlainRoomy(line: Line, st: State)
    requires AllRoomy(st)
    ensures AllRoomy(DoPlain(line, st))
  {
  }

  /** The proposed size covers the need of every chain that the scan returns, with at least four
      bytes to spare for each aligning call. */
  lemma {:induction false} FixCoversChains(t: Text, b: Name)
    requires b in Chains(t)
    ensures FixTotal(Chains(t)[b].steps) >= Chains(t)[b].need + 4 * AlignedCalls(Chains(t)[b].steps)
  {
    ScanRoomy(t, |t.lines|);
  }
}
