/**
  When the byte ranges that the scan records for a buffer are the bytes that its pack calls touch,
  and what a reported overflow rests on.
 */
module PackChainSound {
  import opened Collections
  import opened PackLayout
  import opened PackChain
  import opened PackFlow

  // ---------------------------------------------------------------- recorded steps

  function StepsOf(st: State, b: Name): seq<Step> {
    if b in st.chains then st.chains[b].steps else []
  }

  predicate Live(st: State, b: Name) {
    b in st.chains && !st.chains[b].poison && !st.chains[b].dead
  }

  lemma {:induction false} StartsKeepSteps(t: Text, i: nat, st: State, b: Name, k: nat)
    requires i < |t.lines| && Tracked(st) && k <= |t.lines[i].starts|
    ensures var st' := DoStarts(t.decls, i, t.lines[i], st, k);
            && StepsOf(st', b) == StepsOf(st, b)
            && (b in st.chains ==> b in st'.chains)
  {
    if k > 0 {
      StartsKeepSteps(t, i, st, b, k - 1);
    }
  }

  /** The step that line i adds to the buffer b, when its pack call is counted. */
  ghost predicate Counted(t: Text, i: nat, b: Name, s: Step)
    requires i < |t.lines|
  {
    var line, st := t.lines[i], AfterStarts(t, i, Scan(t, i));
    && line.pack.Single? && Known(line.pack.packer)
    && line.pack.src in st.track && st.track[line.pack.src].buf == b && Live(st, b)
    && var off := st.track[line.pack.src].off;
       s == Step(i, line.pack.packer, Begin(line.pack.packer, off), End(line.pack.packer, off))
  }

  lemma {:induction false} LineRecords(t: Text, i: nat, b: Name)
    requires i < |t.lines|
    ensures var before, after := StepsOf(Scan(t, i), b), StepsOf(Scan(t, i + 1), b);
            after == before || (exists s :: after == before + [s] && Counted(t, i, b, s))
  {
    StartsKeepSteps(t, i, Scan(t, i), b, |t.lines[i].starts|);
    var st, line := AfterStarts(t, i, Scan(t, i)), t.lines[i];
    if line.pack.Single? && line.pack.src in st.track && st.track[line.pack.src].buf == b && Live(st, b) {
      var off := st.track[line.pack.src].off;
      var r := AddStep(t.lines, i, st.chains[b], line.pack.packer, off);
      if r.Some? {
        var s := Step(i, line.pack.packer, Begin(line.pack.packer, off), End(line.pack.packer, off));
        assert StepsOf(Scan(t, i + 1), b) == StepsOf(Scan(t, i), b) + [s] && Counted(t, i, b, s);
      }
    }
  }

  /** Every recorded step was counted at its line. */
  lemma {:induction false} StepsCounted(t: Text, i: nat, b: Name)
    requires i <= |t.lines|
    ensures forall s | s in StepsOf(Scan(t, i), b) :: s.idx < i && Counted(t, s.idx, b, s)
  {
    if i > 0 {
      StepsCounted(t, i - 1, b);
      LineRecords(t, i - 1, b);
    }
  }

  // ---------------------------------------------------------------- main results

  /** Every pass that makes the recorded call touches the recorded bytes of the buffer. */
  ghost predicate StepHolds(t: Text, g: Flow, b: Name, s: Step) {
    forall x | Goes(t, g, x) && x.line == s.idx :: WriteOf(t, x) == Some(Write(b, s.begin, s.end))
  }

  /** From every place that the sweep finds, the call touches the recorded bytes. */
  predicate InPlace(t: Text, g: Flow, b: Name, s: Step)
    requires Forward(t, g)
  {
    s.idx < |t.lines| && t.lines[s.idx].pack.Single? &&
    forall v | v in Places(t, g, s.idx, t.lines[s.idx].pack.src) ::
      CallFrom(t, s.idx, v) == Some(Write(b, s.begin, s.end))
  }

  lemma {:induction false} StepHoldsIff(t: Text, g: Flow, b: Name, s: Step)
    requires Forward(t, g) && s in StepsOf(Scan(t, |t.lines|), b)
    ensures StepHolds(t, g, b, s) <==> InPlace(t, g, b, s)
  {
    StepsCounted(t, |t.lines|, b);
    var i := s.idx;
    if InPlace(t, g, b, s) {
      forall x | Goes(t, g, x) && x.line == i ensures WriteOf(t, x) == Some(Write(b, s.begin, s.end)) {
        var v := WriteFound(t, g, x);
      }
    } else {
      var v :| v in Places(t, g, i, t.lines[i].pack.src) && CallFrom(t, i, v) != Some(Write(b, s.begin, s.end));
      var x := WriteMade(t, g, i, v);
    }
  }

  ghost predicate AllHold(t: Text, g: Flow, b: Name) {
    forall s | s in StepsOf(Scan(t, |t.lines|), b) :: StepHolds(t, g, b, s)
  }

  predicate AllInPlace(t: Text, g: Flow, b: Name)
    requires Forward(t, g)
  {
    forall s | s in StepsOf(Scan(t, |t.lines|), b) :: InPlace(t, g, b, s)
  }

  /** The recorded ranges of a buffer are the bytes touched on every way that control takes, exactly
      when the sweep finds no other place for the cursor of a recorded call. */
  lemma {:induction false} RangesExactIff(t: Text, g: Flow, b: Name)
    requires Forward(t, g)
    ensures AllHold(t, g, b) <==> AllInPlace(t, g, b)
  {
    forall s | s in StepsOf(Scan(t, |t.lines|), b) ensures StepHolds(t, g, b, s) <==> InPlace(t, g, b, s) {
      StepHoldsIff(t, g, b, s);
    }
  }

  // ---------------------------------------------------------------- cursors the scan may be wrong about

  /** A tracked cursor goes stale when a line assigns it and the scan keeps the old position: a
      start of a buffer it does not follow, a copy from an untracked name, or an unseen
      assignment; and when it is computed from a stale cursor. */
  function StaleStart(ds: Decls, st: State, stale: set<Name>, s: Start): set<Name> {
    if s.buf in ds.size && s.buf !in ds.dup && s.buf !in st.chains then stale - {s.cur} else stale + {s.cur}
  }

  function StaleStarts(t: Text, i: nat, st: State, stale: set<Name>, k: nat): set<Name>
    requires i < |t.lines| && k <= |t.lines[i].starts| && Tracked(st)
  {
    if k == 0 then stale
    else StaleStart(t.decls, DoStarts(t.decls, i, t.lines[i], st, k - 1), StaleStarts(t, i, st, stale, k - 1),
                    t.lines[i].starts[k - 1])
  }

  function StaleStarted(t: Text, i: nat, st: State, stale: set<Name>): set<Name>
    requires i < |t.lines| && Tracked(st)
  {
    StaleStarts(t, i, st, stale, |t.lines[i].starts|)
  }

  function StaleBody(line: Line, st: State, stale: set<Name>): set<Name> {
    match line.pack
    case Single(Some(dst), _, src, _) => if src in st.track && src !in stale then stale - {dst} else stale + {dst}
    case NoPack =>
      if line.copy.None? || line.copy.value.dst == line.copy.value.src then stale
      else if line.copy.value.src in st.track && line.copy.value.src !in stale then stale - {line.copy.value.dst}
      else stale + {line.copy.value.dst}
    case _ => stale
  }

  function StaleAfter(t: Text, i: nat, st: State, stale: set<Name>): set<Name>
    requires i < |t.lines| && Tracked(st)
  {
    StaleBody(t.lines[i], AfterStarts(t, i, st), StaleStarted(t, i, st, stale)) + t.lines[i].wild
  }

  function Stale(t: Text, i: nat): set<Name>
    requires i <= |t.lines|
  {
    if i == 0 then {} else StaleAfter(t, i - 1, Scan(t, i - 1), Stale(t, i - 1))
  }

  /** The pack call on line i starts from a stale cursor. */
  predicate StaleCall(t: Text, i: nat)
    requires i < |t.lines|
  {
    t.lines[i].pack.Single? && t.lines[i].pack.src in StaleStarted(t, i, Scan(t, i), Stale(t, i))
  }

  // ---------------------------------------------------------------- fresh cursors are exact

  function Assigned(line: Line): set<Name> {
    (set k | 0 <= k < |line.starts| :: line.starts[k].cur)
    + (if line.pack.Single? && line.pack.dst.Some? then {line.pack.dst.value} else {})
    + (if line.pack.NoPack? && line.copy.Some? then {line.copy.value.dst} else {})
  }

  /** Line i makes some cursor follow this buffer. */
  ghost predicate Feeds(t: Text, i: nat, b: Name)
    requires i < |t.lines|
  {
    exists c :: c in Assigned(t.lines[i]) && c in Scan(t, i + 1).track && Scan(t, i + 1).track[c].buf == b
  }

  ghost predicate Exact(b: Name, st: State, stale: set<Name>, env: Env) {
    forall c | c in st.track && st.track[c].buf == b && c !in stale :: Val(env, c) == At(b, st.track[c].off)
  }

  lemma {:induction false} StartsExact(t: Text, i: nat, st: State, stale: set<Name>, env: Env, b: Name, k: nat)
    requires i < |t.lines| && Tracked(st) && k <= |t.lines[i].starts|
    requires Exact(b, st, stale, env)
    ensures Exact(b, DoStarts(t.decls, i, t.lines[i], st, k), StaleStarts(t, i, st, stale, k),
                  RunStarts(t.lines[i], env, k))
  {
    if k > 0 {
      StartsExact(t, i, st, stale, env, b, k - 1);
    }
  }

  lemma {:induction false} BodyExact(t: Text, i: nat, st: State, stale: set<Name>, env: Env, b: Name)
    requires i < |t.lines| && Tracked(st)
    requires Exact(b, st, stale, env)
    ensures var line := t.lines[i];
            var st' := if line.pack.NoPack? then DoPlain(line, st) else DoPack(t.lines, i, st);
            Exact(b, st', StaleBody(line, st, stale), RunBody(line, env))
  {
  }

  lemma {:induction false} LineExact(t: Text, i: nat, st: State, stale: set<Name>, env: Env, unseen: Env, b: Name)
    requires i < |t.lines| && Tracked(st)
    requires Exact(b, st, stale, env)
    ensures Exact(b, DoLine(t, i, st), StaleAfter(t, i, st, stale), RunLine(t.lines[i], env, unseen))
  {
    StartsExact(t, i, st, stale, env, b, |t.lines[i].starts|);
    BodyExact(t, i, AfterStarts(t, i, st), StaleStarted(t, i, st, stale), Started(t.lines[i], env), b);
    UnknownPackerDrops(t, i, AfterStarts(t, i, st));
  }

  /** A target of an unknown packer is not followed. */
  lemma {:induction false} UnknownPackerDrops(t: Text, i: nat, st: State)
    requires i < |t.lines| && Tracked(st)
    ensures var p := t.lines[i].pack;
            p.Single? && p.dst.Some? && !Known(p.packer) ==> p.dst.value !in DoPack(t.lines, i, st).track
  {
  }

  lemma {:induction false} StartsLeave(t: Text, i: nat, st: State, stale: set<Name>, c: Name, k: nat)
    requires i < |t.lines| && Tracked(st) && k <= |t.lines[i].starts|
    requires c !in Assigned(t.lines[i])
    ensures var st' := DoStarts(t.decls, i, t.lines[i], st, k);
            (c in st'.track <==> c in st.track) && (c in st.track ==> st'.track[c] == st.track[c])
    ensures c in StaleStarts(t, i, st, stale, k) <==> c in stale
  {
    if k > 0 {
      StartsLeave(t, i, st, stale, c, k - 1);
      assert t.lines[i].starts[k - 1].cur in Assigned(t.lines[i]);
    }
  }

  /** A line that does not assign a cursor leaves its position alone, and does not freshen it. */
  lemma {:induction false} LineLeaves(t: Text, i: nat, st: State, stale: set<Name>, c: Name)
    requires i < |t.lines| && Tracked(st)
    requires c !in Assigned(t.lines[i])
    ensures var st' := DoLine(t, i, st);
            (c in st'.track <==> c in st.track) && (c in st.track ==> st'.track[c] == st.track[c])
    ensures c in stale ==> c in StaleAfter(t, i, st, stale)
  {
    StartsLeave(t, i, st, stale, c, |t.lines[i].starts|);
  }

  /** Lines that no pass goes through leave the cursors of the buffer exact, unless they make one
      follow it. */
  lemma {:induction false} SkipExact(t: Text, b: Name, j: nat, i: nat, env: Env)
    requires j <= i <= |t.lines| && Exact(b, Scan(t, j), Stale(t, j), env)
    requires forall k | j <= k < i :: !Feeds(t, k, b)
    ensures Exact(b, Scan(t, i), Stale(t, i), env)
  {
    if j < i {
      SkipExact(t, b, j, i - 1, env);
      SkipLine(t, b, i, Scan(t, i - 1), Stale(t, i - 1), env, Scan(t, i), Stale(t, i));
    }
  }

  lemma {:induction false} SkipLine(t: Text, b: Name, i: nat, st: State, stale: set<Name>, env: Env, st': State,
                                    stale': set<Name>)
    requires 0 < i <= |t.lines| && st == Scan(t, i - 1) && stale == Stale(t, i - 1)
    requires st' == Scan(t, i) && stale' == Stale(t, i)
    requires Exact(b, st, stale, env) && !Feeds(t, i - 1, b)
    ensures Exact(b, st', stale', env)
  {
    forall c | c in st'.track && st'.track[c].buf == b && c !in stale' ensures Val(env, c) == At(b, st'.track[c].off) {
      assert c !in Assigned(t.lines[i - 1]);
      LineLeaves(t, i - 1, st, stale, c);
    }
  }

  /** The pass went through every line below i that makes a cursor follow the buffer, and began at
      the first line if the buffer is the seed's. */
  ghost predicate Fed(t: Text, x: Pass, b: Name) {
    && (forall k: nat | k < x.line && k < |t.lines| && Feeds(t, k, b) :: Through(x, k))
    && (t.seed.Some? && b == t.seed.value.buf ==> Through(x, 0))
  }

  lemma {:induction false} FedBefore(t: Text, g: Flow, x: Pass, b: Name)
    requires Forward(t, g) && Goes(t, g, x) && x.line <= |t.lines| && x.On? && Fed(t, x, b)
    ensures Fed(t, x.before, b)
    ensures forall k: nat | x.before.line < k < x.line :: !Feeds(t, k, b)
  {
    forall k: nat | x.before.line < k < x.line ensures !Feeds(t, k, b) {
      if Feeds(t, k, b) {
        ThroughIsBelow(t, g, x.before, k);
      }
    }
  }

  lemma {:induction false} PassExact(t: Text, g: Flow, x: Pass, b: Name)
    requires Forward(t, g) && Goes(t, g, x) && x.line <= |t.lines| && Fed(t, x, b)
    ensures Exact(b, Scan(t, x.line), Stale(t, x.line), Run(t, x))
  {
    match x
    case Entry(i, env) =>
      SkipExact(t, b, 0, i, env);
    case On(before, unseen, i) =>
      var j := before.line;
      FedBefore(t, g, x, b);
      PassExact(t, g, before, b);
      LineExact(t, j, Scan(t, j), Stale(t, j), Run(t, before), unseen, b);
      SkipExact(t, b, j + 1, i, Run(t, x));
  }

  /** Every way to a recorded call goes through all the lines before it that make a cursor follow
      the buffer. */
  ghost predicate Steady(t: Text, g: Flow, b: Name)
    requires Forward(t, g)
  {
    forall s | s in StepsOf(Scan(t, |t.lines|), b) && s.idx < |t.lines| :: SteadyAt(t, g, b, s.idx)
  }

  ghost predicate SteadyAt(t: Text, g: Flow, b: Name, i: nat)
    requires Forward(t, g) && i <= |t.lines|
  {
    && (forall k: nat | k < i && Feeds(t, k, b) :: Always(t, g, k, i))
    && (t.seed.Some? && b == t.seed.value.buf ==> Always(t, g, 0, i))
  }

  ghost predicate NoStaleSteps(t: Text, b: Name) {
    forall s | s in StepsOf(Scan(t, |t.lines|), b) :: s.idx < |t.lines| && !StaleCall(t, s.idx)
  }

  /** What the scan records is right when no recorded call starts from a stale cursor and no line
      that makes a cursor follow the buffer can be gone around on the way to a recorded call. */
  lemma {:induction false} SteadyIsExact(t: Text, g: Flow, b: Name)
    requires Forward(t, g) && Steady(t, g, b) && NoStaleSteps(t, b)
    ensures AllHold(t, g, b)
  {
    StepsCounted(t, |t.lines|, b);
    forall s | s in StepsOf(Scan(t, |t.lines|), b) ensures StepHolds(t, g, b, s) {
      forall x | Goes(t, g, x) && x.line == s.idx ensures WriteOf(t, x) == Some(Write(b, s.begin, s.end)) {
        SteadyStep(t, g, b, s, x);
      }
    }
  }

  lemma {:induction false} SteadyStep(t: Text, g: Flow, b: Name, s: Step, x: Pass)
    requires Forward(t, g) && Goes(t, g, x) && x.line == s.idx < |t.lines|
    requires SteadyAt(t, g, b, s.idx) && !StaleCall(t, s.idx) && Counted(t, s.idx, b, s)
    ensures WriteOf(t, x) == Some(Write(b, s.begin, s.end))
  {
    var i := s.idx;
    forall k: nat | Always(t, g, k, i) ensures Through(x, k) {
      AlwaysThrough(t, g, k, x);
    }
    PassExact(t, g, x, b);
    StartsExact(t, i, Scan(t, i), Stale(t, i), Run(t, x), b, |t.lines[i].starts|);
  }

  predicate Followed(ds: Decls, b: Name) {
    b in ds.size && b !in ds.dup
  }

  // ---------------------------------------------------------------- stale cursors really mislead

  /** The seed stands for a buffer that the text does not name. */
  ghost predicate SeedApart(t: Text) {
    t.seed.Some? ==>
      forall i, k | 0 <= i < |t.lines| && 0 <= k < |t.lines[i].starts| :: t.lines[i].starts[k].buf != t.seed.value.buf
  }

  /** A cursor that the scan does not follow, or follows wrongly, points into no live buffer. */
  ghost predicate Misled(t: Text, st: State, stale: set<Name>, env: Env) {
    && (forall c {:trigger Val(env, c)} ::
          (c in st.track && c !in stale && Val(env, c) == At(st.track[c].buf, st.track[c].off))
          || (Val(env, c).At? ==> !Live(st, Val(env, c).buf)))
    && (forall c {:trigger Val(env, c)} :: Val(env, c).At? && Followed(t.decls, Val(env, c).buf) ==>
      Val(env, c).buf in st.chains)
    && (forall b | b in st.chains :: Followed(t.decls, b) || (t.seed.Some? && b == t.seed.value.buf))
  }

  lemma {:induction false} StartMisleads(t: Text, i: nat, st: State, stale: set<Name>, env: Env, s: Start)
    requires i < |t.lines| && Tracked(st) && Misled(t, st, stale, env)
    requires t.seed.Some? ==> s.buf != t.seed.value.buf
    ensures Misled(t, DoStart(t.decls, i, t.lines[i].depth, st, s), StaleStart(t.decls, st, stale, s),
                   env[s.cur := At(s.buf, 0)])
  {
    var st', env' := DoStart(t.decls, i, t.lines[i].depth, st, s), env[s.cur := At(s.buf, 0)];
    assert forall c :: Val(env', c) == if c == s.cur then At(s.buf, 0) else Val(env, c);
    forall c | c != s.cur && Val(env, c).At? && !Live(st, Val(env, c).buf)
      ensures !Live(st', Val(env, c).buf)
    {
      assert Followed(t.decls, Val(env, c).buf) ==> Val(env, c).buf in st.chains;
    }
  }

  lemma {:induction false} StartsMislead(t: Text, i: nat, st: State, stale: set<Name>, env: Env, k: nat)
    requires i < |t.lines| && Tracked(st) && k <= |t.lines[i].starts|
    requires SeedApart(t) && Misled(t, st, stale, env)
    ensures Misled(t, DoStarts(t.decls, i, t.lines[i], st, k), StaleStarts(t, i, st, stale, k),
                   RunStarts(t.lines[i], env, k))
  {
    if k > 0 {
      StartsMislead(t, i, st, stale, env, k - 1);
      StartMisleads(t, i, DoStarts(t.decls, i, t.lines[i], st, k - 1), StaleStarts(t, i, st, stale, k - 1),
                    RunStarts(t.lines[i], env, k - 1), t.lines[i].starts[k - 1]);
    }
  }

  /** Buffers only stop being live within a line's pack call or copy. */
  lemma {:induction false} BodyOnlyKills(t: Text, i: nat, st: State, b: Name)
    requires i < |t.lines| && Tracked(st)
    ensures var line := t.lines[i];
            var st' := if line.pack.NoPack? then DoPlain(line, st) else DoPack(t.lines, i, st);
            (Live(st', b) ==> Live(st, b)) && (b in st'.chains <==> b in st.chains)
  {
  }

  lemma {:induction false} PackMisleads(t: Text, i: nat, st: State, stale: set<Name>, env: Env)
    requires i < |t.lines| && Tracked(st) && Misled(t, st, stale, env) && !t.lines[i].pack.NoPack?
    ensures Misled(t, DoPack(t.lines, i, st), StaleBody(t.lines[i], st, stale), RunBody(t.lines[i], env))
  {
    var line := t.lines[i];
    var st', env' := DoPack(t.lines, i, st), RunBody(line, env);
    forall b ensures (Live(st', b) ==> Live(st, b)) && (b in st'.chains <==> b in st.chains) {
      BodyOnlyKills(t, i, st, b);
    }
    if line.pack.Single? && line.pack.dst.Some? {
      var v := Val(env, line.pack.src);
      assert forall c :: Val(env', c) == if c == line.pack.dst.value then Advanced(v, line.pack.packer)
        else Val(env, c);
    }
  }

  lemma {:induction false} CopyMisleads(t: Text, i: nat, st: State, stale: set<Name>, env: Env)
    requires i < |t.lines| && Tracked(st) && Misled(t, st, stale, env) && t.lines[i].pack.NoPack?
    ensures Misled(t, DoPlain(t.lines[i], st), StaleBody(t.lines[i], st, stale), RunBody(t.lines[i], env))
  {
    var line := t.lines[i];
    var st', env' := DoPlain(line, st), RunBody(line, env);
    forall b ensures (Live(st', b) ==> Live(st, b)) && (b in st'.chains <==> b in st.chains) {
      BodyOnlyKills(t, i, st, b);
    }
    if line.copy.Some? {
      var v := Val(env, line.copy.value.src);
      assert forall c :: Val(env', c) == if c == line.copy.value.dst then v else Val(env, c);
    }
  }

  lemma {:induction false} UnseenMisleads(t: Text, st: State, stale: set<Name>, env: Env, names: set<Name>)
    requires Misled(t, st, stale, env)
    ensures Misled(t, st, stale + names, env + (map n | n in names :: Elsewhere))
  {
    var env' := env + (map n | n in names :: Elsewhere);
    assert forall c :: Val(env', c) == if c in names then Elsewhere else Val(env, c);
  }

  /** The pass that runs every line, with every unseen assignment leading elsewhere. */
  function Adversary(t: Text, i: nat): Pass {
    if i == 0 then Entry(0, if t.seed.Some? then map[t.seed.value.cur := At(t.seed.value.buf, 0)] else map[])
    else On(Adversary(t, i - 1), map[], i)
  }

  /** Running the lines in turn is one of the ways to line n. */
  ghost predicate InTurn(t: Text, g: Flow, n: nat)
    requires Forward(t, g)
  {
    0 in g.first && forall i: nat | i < n && i < |t.lines| :: i + 1 in g.next[i]
  }

  lemma {:induction false} AdversaryGoes(t: Text, g: Flow, i: nat)
    requires Forward(t, g) && i <= |t.lines| && InTurn(t, g, i)
    ensures Goes(t, g, Adversary(t, i)) && Adversary(t, i).line == i
  {
    if i > 0 {
      AdversaryGoes(t, g, i - 1);
    }
  }

  lemma {:induction false} LineMisleads(t: Text, i: nat, st: State, stale: set<Name>, env: Env)
    requires i < |t.lines| && Tracked(st) && SeedApart(t) && Misled(t, st, stale, env)
    ensures Misled(t, DoLine(t, i, st), StaleAfter(t, i, st, stale), RunLine(t.lines[i], env, map[]))
  {
    var line := t.lines[i];
    var st1, stale1, env1 := AfterStarts(t, i, st), StaleStarted(t, i, st, stale), Started(line, env);
    StartsMislead(t, i, st, stale, env, |line.starts|);
    if line.pack.NoPack? {
      CopyMisleads(t, i, st1, stale1, env1);
    } else {
      PackMisleads(t, i, st1, stale1, env1);
    }
    var st2, stale2, env2 := DoLine(t, i, st), StaleBody(line, st1, stale1), RunBody(line, env1);
    UnseenMisleads(t, st2, stale2, env2, Unseen(line));
    UnknownPackerDrops(t, i, st1);
    assert (map n | n in Unseen(line) :: Val(map[], n)) == (map n | n in Unseen(line) :: Elsewhere);
    assert forall c | c in st2.track && c !in stale2 + line.wild :: c !in stale2 + Unseen(line);
  }

  lemma {:induction false} SeedMisleads(t: Text)
    ensures Misled(t, Seeded(t), {}, Run(t, Adversary(t, 0)))
  {
    var env := Run(t, Adversary(t, 0));
    if t.seed.Some? {
      assert forall c :: Val(env, c) == if c == t.seed.value.cur then At(t.seed.value.buf, 0) else Elsewhere;
    }
  }

  lemma {:induction false} OneLineMore(t: Text, i: nat)
    requires i < |t.lines|
    ensures Adversary(t, i).line == i
    ensures Run(t, Adversary(t, i + 1)) == RunLine(t.lines[i], Run(t, Adversary(t, i)), map[])
    ensures Scan(t, i + 1) == DoLine(t, i, Scan(t, i))
    ensures Stale(t, i + 1) == StaleAfter(t, i, Scan(t, i), Stale(t, i))
  {
  }

  lemma {:induction false} AdversaryStep(t: Text, i: nat, st: State, stale: set<Name>, env: Env)
    requires i < |t.lines| && SeedApart(t)
    requires st == Scan(t, i) && stale == Stale(t, i) && env == Run(t, Adversary(t, i))
    requires Misled(t, st, stale, env)
    ensures Misled(t, Scan(t, i + 1), Stale(t, i + 1), Run(t, Adversary(t, i + 1)))
  {
    OneLineMore(t, i);
    LineMisleads(t, i, st, stale, env);
  }

  lemma {:induction false} AdversaryBegins(t: Text)
    ensures Misled(t, Scan(t, 0), Stale(t, 0), Run(t, Adversary(t, 0)))
  {
    SeedMisleads(t);
  }

  lemma {:induction false} AdversaryMisleads(t: Text, i: nat, st: State, stale: set<Name>, env: Env)
    requires i <= |t.lines| && SeedApart(t)
    requires st == Scan(t, i) && stale == Stale(t, i) && env == Run(t, Adversary(t, i))
    ensures Misled(t, st, stale, env)
  {
    if i == 0 {
      AdversaryBegins(t);
    } else {
      AdversaryMisleads(t, i - 1, Scan(t, i - 1), Stale(t, i - 1), Run(t, Adversary(t, i - 1)));
      AdversaryStep(t, i - 1, Scan(t, i - 1), Stale(t, i - 1), Run(t, Adversary(t, i - 1)));
    }
  }

  lemma {:induction false} StaleStepMisses(t: Text, g: Flow, b: Name, s: Step)
    requires Forward(t, g) && SeedApart(t) && s in StepsOf(Scan(t, |t.lines|), b) && InTurn(t, g, s.idx)
    requires s.idx < |t.lines| && StaleCall(t, s.idx)
    ensures !StepHolds(t, g, b, s)
  {
    var i, x := s.idx, Adversary(t, s.idx);
    StepsCounted(t, |t.lines|, b);
    AdversaryMisleads(t, i, Scan(t, i), Stale(t, i), Run(t, x));
    AdversaryGoes(t, g, i);
    StartsMislead(t, i, Scan(t, i), Stale(t, i), Run(t, x), |t.lines[i].starts|);
    assert Val(Started(t.lines[i], Run(t, x)), t.lines[i].pack.src).At? ==>
             !Live(AfterStarts(t, i, Scan(t, i)), Val(Started(t.lines[i], Run(t, x)), t.lines[i].pack.src).buf);
    assert WriteOf(t, x) != Some(Write(b, s.begin, s.end));
  }

  // ---------------------------------------------------------------- when nothing goes stale

  /** A line on which an unseen assignment is noticed: an unfamiliar call, or a pack call that
      cannot be read, that names what it assigns. */
  predicate Noticed(line: Line) {
    && line.wild <= line.names
    && (line.wild != {} ==> (line.pack.NoPack? && line.foreign && line.copy.None?) || line.pack.Unreadable?)
  }

  /** Cursors are assigned only by a first start of a uniquely declared buffer, a pack call, a copy
      of a tracked cursor, or on a line that is noticed. */
  ghost predicate OnlySeen(t: Text) {
    forall i | 0 <= i < |t.lines| :: OnlySeenOn(t, i)
  }

  ghost predicate OnlySeenOn(t: Text, i: nat)
    requires i < |t.lines|
  {
    var line, st := t.lines[i], AfterStarts(t, i, Scan(t, i));
    && Noticed(line)
    && (forall k: nat | k < |line.starts| :: GoodStartAt(t, i, Scan(t, i), k))
    && (line.pack.NoPack? && line.copy.Some? && line.copy.value.dst in st.track ==> line.copy.value.src in st.track)
  }

  ghost predicate GoodStart(t: Text, st: State, s: Start) {
    Followed(t.decls, s.buf) && (s.buf in st.chains && s.cur in st.track ==> st.track[s.cur].buf == s.buf)
  }

  ghost predicate GoodStartAt(t: Text, i: nat, st: State, k: nat)
    requires i < |t.lines| && Tracked(st) && k < |t.lines[i].starts|
  {
    GoodStart(t, DoStarts(t.decls, i, t.lines[i], st, k), t.lines[i].starts[k])
  }

  /** A stale cursor's buffer has been given up. */
  ghost predicate StalePoisoned(st: State, stale: set<Name>) {
    forall c | c in st.track && c in stale :: st.track[c].buf in st.chains && st.chains[st.track[c].buf].poison
  }

  lemma {:induction false} StartPoison(t: Text, i: nat, st: State, stale: set<Name>, s: Start)
    requires i < |t.lines| && Tracked(st) && GoodStart(t, st, s) && StalePoisoned(st, stale)
    ensures StalePoisoned(DoStart(t.decls, i, t.lines[i].depth, st, s), StaleStart(t.decls, st, stale, s))
  {
  }

  lemma {:induction false} StartsPoison(t: Text, i: nat, s0: State, k: nat, stale: set<Name>)
    requires i < |t.lines| && k <= |t.lines[i].starts| && Tracked(s0) && StalePoisoned(s0, stale)
    requires forall j: nat | j < k :: GoodStartAt(t, i, s0, j)
    ensures StalePoisoned(DoStarts(t.decls, i, t.lines[i], s0, k), StaleStarts(t, i, s0, stale, k))
  {
    if k > 0 {
      StartsPoison(t, i, s0, k - 1, stale);
      assert GoodStartAt(t, i, s0, k - 1);
      StartPoison(t, i, DoStarts(t.decls, i, t.lines[i], s0, k - 1), StaleStarts(t, i, s0, stale, k - 1),
                  t.lines[i].starts[k - 1]);
    }
  }

  lemma {:induction false} PlainPoison(t: Text, i: nat, st: State, stale: set<Name>, c: Name)
    requires i < |t.lines| && OnlySeenOn(t, i) && st == AfterStarts(t, i, Scan(t, i))
    requires t.lines[i].pack.NoPack? && StalePoisoned(st, stale)
    ensures var st' := DoPlain(t.lines[i], st);
            c in st'.track && c in StaleBody(t.lines[i], st, stale) + t.lines[i].wild ==>
              st'.chains[st'.track[c].buf].poison
  {
  }

  lemma {:induction false} PackPoison(t: Text, i: nat, st: State, stale: set<Name>, c: Name)
    requires i < |t.lines| && OnlySeenOn(t, i) && st == AfterStarts(t, i, Scan(t, i))
    requires !t.lines[i].pack.NoPack? && StalePoisoned(st, stale)
    ensures var st' := DoPack(t.lines, i, st);
            c in st'.track && c in StaleBody(t.lines[i], st, stale) + t.lines[i].wild ==>
              st'.chains[st'.track[c].buf].poison
  {
  }

  lemma {:induction false} BodyPoison(t: Text, i: nat, st: State, stale: set<Name>)
    requires i < |t.lines| && OnlySeen(t) && st == AfterStarts(t, i, Scan(t, i))
    requires StalePoisoned(st, stale)
    ensures StalePoisoned(DoLine(t, i, Scan(t, i)), StaleBody(t.lines[i], st, stale) + t.lines[i].wild)
  {
    var st' := DoLine(t, i, Scan(t, i));
    forall c | c in st'.track && c in StaleBody(t.lines[i], st, stale) + t.lines[i].wild
      ensures st'.chains[st'.track[c].buf].poison
    {
      assert OnlySeenOn(t, i);
      if t.lines[i].pack.NoPack? {
        PlainPoison(t, i, st, stale, c);
      } else {
        PackPoison(t, i, st, stale, c);
      }
    }
  }

  lemma {:induction false} ScanPoison(t: Text, i: nat)
    requires i <= |t.lines| && OnlySeen(t)
    ensures StalePoisoned(Scan(t, i), Stale(t, i))
  {
    if i > 0 {
      ScanPoison(t, i - 1);
      LinePoison(t, i - 1);
    }
  }

  lemma {:induction false} LinePoison(t: Text, i: nat)
    requires i < |t.lines| && OnlySeen(t) && StalePoisoned(Scan(t, i), Stale(t, i))
    ensures StalePoisoned(Scan(t, i + 1), Stale(t, i + 1))
  {
    var st, stale := AfterStarts(t, i, Scan(t, i)), StaleStarted(t, i, Scan(t, i), Stale(t, i));
    assert OnlySeenOn(t, i);
    StartsPoison(t, i, Scan(t, i), |t.lines[i].starts|, Stale(t, i));
    BodyPoison(t, i, st, stale);
  }

  /** On such a text giving buffers up is enough: no recorded call starts from a stale cursor. */
  lemma {:induction false} OnlySeenMeansNoStaleSteps(t: Text, b: Name)
    requires OnlySeen(t)
    ensures NoStaleSteps(t, b)
  {
    StepsCounted(t, |t.lines|, b);
    forall s | s in StepsOf(Scan(t, |t.lines|), b) ensures s.idx < |t.lines| && !StaleCall(t, s.idx) {
      ScanPoison(t, s.idx);
      assert OnlySeenOn(t, s.idx);
      StartsPoison(t, s.idx, Scan(t, s.idx), |t.lines[s.idx].starts|, Stale(t, s.idx));
    }
  }

  // ---------------------------------------------------------------- what a finding rests on

  /** The line of the first step that ends past the size. */
  function FirstPast(steps: seq<Step>, size: nat): Option<nat> {
    if steps == [] then None
    else
      var s, earlier := steps[|steps| - 1], FirstPast(steps[..|steps| - 1], size);
      if earlier.Some? then earlier else if s.end > size then Some(s.idx) else None
  }

  function FurthestEnd(steps: seq<Step>): nat {
    if steps == [] then 0
    else
      var s, before := steps[|steps| - 1], FurthestEnd(steps[..|steps| - 1]);
      if s.end > before then s.end else before
  }

  predicate Unbranched(lines: seq<Line>, lo: nat, hi: nat) {
    hi <= |lines| && forall x | lo <= x < hi :: !lines[x].branch
  }

  /** The steps stand on lines of one depth, in order, with no branch on the lines between. */
  predicate InOneBlock(lines: seq<Line>, steps: seq<Step>, depth: int) {
    steps == [] ||
    var n := |steps| - 1;
    && steps[n].idx < |lines| && lines[steps[n].idx].depth == depth
    && (n > 0 ==> steps[n - 1].idx < steps[n].idx && Unbranched(lines, steps[n - 1].idx + 1, steps[n].idx))
    && InOneBlock(lines, steps[..n], depth)
  }

  ghost predicate WellRecorded(lines: seq<Line>, c: Chain) {
    && InOneBlock(lines, c.steps, c.depth)
    && (c.steps != [] ==> c.last == c.steps[|c.steps| - 1].idx)
    && c.need == FurthestEnd(c.steps)
    && c.over == (if c.declared.None? then None else FirstPast(c.steps, c.declared.value))
  }

  lemma {:induction false} StepWellRecorded(lines: seq<Line>, i: nat, c: Chain, p: Packer, off: nat)
    requires i < |lines| && WellRecorded(lines, c) && (c.steps != [] ==> c.last < i)
    requires AddStep(lines, i, c, p, off).Some?
    ensures WellRecorded(lines, AddStep(lines, i, c, p, off).value)
  {
    var c' := AddStep(lines, i, c, p, off).value;
    var n := |c.steps|;
    assert c'.steps[..n] == c.steps;
    if n > 0 {
      assert c'.steps[n - 1] == c.steps[n - 1];
      assert Unbranched(lines, c.last + 1, i);
    }
  }

  ghost predicate RecordedBelow(lines: seq<Line>, i: nat, st: State, b: Name) {
    b in st.chains ==> WellRecorded(lines, st.chains[b]) && (st.chains[b].steps != [] ==> st.chains[b].last < i)
  }

  lemma {:induction false} StartsRecorded(t: Text, i: nat, st: State, k: nat, b: Name)
    requires i < |t.lines| && Tracked(st) && k <= |t.lines[i].starts|
    requires RecordedBelow(t.lines, i, st, b)
    ensures RecordedBelow(t.lines, i, DoStarts(t.decls, i, t.lines[i], st, k), b)
  {
    if k > 0 {
      StartsRecorded(t, i, st, k - 1, b);
    }
  }

  lemma {:induction false} PlainRecorded(t: Text, i: nat, st: State, b: Name)
    requires i < |t.lines| && Tracked(st) && RecordedBelow(t.lines, i, st, b)
    ensures RecordedBelow(t.lines, i + 1, DoPlain(t.lines[i], st), b)
  {
  }

  lemma {:induction false} PackRecorded(t: Text, i: nat, st: State, b: Name)
    requires i < |t.lines| && Tracked(st) && RecordedBelow(t.lines, i, st, b)
    ensures RecordedBelow(t.lines, i + 1, DoPack(t.lines, i, st), b)
  {
    var pack := t.lines[i].pack;
    if pack.Single? && pack.src in st.track && st.track[pack.src].buf == b {
      var off := st.track[pack.src].off;
      if AddStep(t.lines, i, st.chains[b], pack.packer, off).Some? {
        StepWellRecorded(t.lines, i, st.chains[b], pack.packer, off);
      }
    }
  }

  lemma {:induction false} SeedRecorded(t: Text, b: Name)
    ensures RecordedBelow(t.lines, 0, Seeded(t), b)
  {
  }

  lemma {:induction false} ScanRecorded(t: Text, i: nat, b: Name)
    requires i <= |t.lines|
    ensures RecordedBelow(t.lines, i, Scan(t, i), b)
  {
    if i == 0 {
      SeedRecorded(t, b);
    } else {
      ScanRecorded(t, i - 1, b);
      LineRecorded(t, i - 1, Scan(t, i - 1), b);
    }
  }

  lemma {:induction false} LineRecorded(t: Text, i: nat, st: State, b: Name)
    requires i < |t.lines| && Tracked(st) && RecordedBelow(t.lines, i, st, b)
    ensures RecordedBelow(t.lines, i + 1, DoLine(t, i, st), b)
  {
    StartsRecorded(t, i, st, |t.lines[i].starts|, b);
    if t.lines[i].pack.NoPack? {
      PlainRecorded(t, i, AfterStarts(t, i, st), b);
    } else {
      PackRecorded(t, i, AfterStarts(t, i, st), b);
    }
  }

  /** Every returned chain has its calls in one block, its need is the furthest end, and its
      overflow line is that of the first call to end past the declared size. */
  lemma {:induction false} ChainsWellRecorded(t: Text, b: Name)
    requires b in Chains(t)
    ensures WellRecorded(t.lines, Chains(t)[b])
    ensures Chains(t)[b].steps == StepsOf(Scan(t, |t.lines|), b)
  {
    ScanRecorded(t, |t.lines|, b);
  }

  lemma {:induction false} FirstPastIsFirst(steps: seq<Step>, size: nat) returns (k: nat)
    requires FirstPast(steps, size).Some?
    ensures k < |steps| && steps[k].idx == FirstPast(steps, size).value && steps[k].end > size
    ensures forall j | 0 <= j < k :: steps[j].end <= size
  {
    var n := |steps| - 1;
    if FirstPast(steps[..n], size).Some? {
      k := FirstPastIsFirst(steps[..n], size);
    } else {
      k := n;
      NonePast(steps[..n], size);
    }
  }

  lemma {:induction false} NonePast(steps: seq<Step>, size: nat)
    requires FirstPast(steps, size).None?
    ensures forall j | 0 <= j < |steps| :: steps[j].end <= size
  {
    if steps != [] {
      NonePast(steps[..|steps| - 1], size);
    }
  }

  predicate PastSize(w: Option<Write>, b: Name, size: nat) {
    w.Some? && w.value.buf == b && w.value.end > size
  }

  /** The finding of the check holds on every way to its line exactly when every place that the
      sweep finds for its cursor leads past the declared size of the buffer. */
  lemma {:induction false} OverflowIff(t: Text, g: Flow, b: Name)
    requires Forward(t, g) && b in Chains(t) && Chains(t)[b].over.Some?
    ensures var c := Chains(t)[b];
            var i := c.over.value;
            && c.declared.Some? && i < |t.lines| && t.lines[i].pack.Single?
            && ((forall x | Goes(t, g, x) && x.line == i :: PastSize(WriteOf(t, x), b, c.declared.value))
                <==> forall v | v in Places(t, g, i, t.lines[i].pack.src) ::
                  PastSize(CallFrom(t, i, v), b, c.declared.value))
  {
    var c := Chains(t)[b];
    var i := OverIsCall(t, b);
    var size := c.declared.value;
    if v :| v in Places(t, g, i, t.lines[i].pack.src) && !PastSize(CallFrom(t, i, v), b, size) {
      var x := WriteMade(t, g, i, v);
    } else {
      forall x | Goes(t, g, x) && x.line == i ensures PastSize(WriteOf(t, x), b, size) {
        var v := WriteFound(t, g, x);
      }
    }
  }

  /** The overflow line is the line of a recorded call. */
  lemma {:induction false} OverIsCall(t: Text, b: Name) returns (i: nat)
    requires b in Chains(t) && Chains(t)[b].over.Some?
    ensures Chains(t)[b].declared.Some? && Chains(t)[b].over == Some(i) && i < |t.lines| && t.lines[i].pack.Single?
  {
    ChainsWellRecorded(t, b);
    var c := Chains(t)[b];
    var k := FirstPastIsFirst(c.steps, c.declared.value);
    i := c.steps[k].idx;
    assert c.steps[k] in c.steps;
    StepsCounted(t, |t.lines|, b);
  }

  lemma {:induction false} StepsInOrder(lines: seq<Line>, steps: seq<Step>, depth: int, j: nat, k: nat)
    requires InOneBlock(lines, steps, depth) && j <= k < |steps|
    ensures steps[j].idx <= steps[k].idx && (j < k ==> steps[j].idx < steps[k].idx)
  {
    var n := |steps| - 1;
    if k < n {
      StepsInOrder(lines, steps[..n], depth, j, k);
    } else if j < n {
      StepsInOrder(lines, steps[..n], depth, j, n - 1);
    }
  }
}
