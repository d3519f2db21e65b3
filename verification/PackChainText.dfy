/**
  What the text alone says of a finding, whatever way control takes, loops included.
 */
module PackChainText {
  import opened Collections
  import opened PackLayout
  import opened PackChain
  import opened PackFlow
  import opened PackChainSound

  // ---------------------------------------------------------------- flows that respect the text

  /** The next line runs after line k, and nothing else does: neither has a branch, and line k is no
      jump and no body without a brace. */
  predicate Joined(lines: seq<Line>, k: nat) {
    k + 1 < |lines| && !lines[k].branch && !lines[k].loose && !lines[k + 1].branch
  }

  /** Nothing but the line before goes to line l. */
  predicate Follows(lines: seq<Line>, l: nat) {
    l > 0 && Joined(lines, l - 1)
  }

  /** Control goes as the text says: joined lines run one after the other. */
  ghost predicate Respects(t: Text, g: Flow) {
    Roams(t, g) &&
    forall k: nat | Joined(t.lines, k) ::
      g.next[k] == {k + 1} && k + 1 !in g.first && forall j: nat | j < |t.lines| && k + 1 in g.next[j] :: j == k
  }

  /** The most that the text allows, rounds apart. */
  function Loosest(t: Text): (g: Flow)
    ensures Forward(t, g)
  {
    var n := |t.lines|;
    Flow(set i: nat | i <= n && !Follows(t.lines, i),
         seq(n, k requires 0 <= k < n =>
           if Joined(t.lines, k) then {k + 1} else set l: nat | k < l <= n && !Follows(t.lines, l)))
  }

  lemma {:induction false} LoosestRespects(t: Text)
    ensures Roams(t, Loosest(t)) && Respects(t, Loosest(t))
  {
  }

  lemma {:induction false} LoosestRunsInTurn(t: Text)
    requires t.lines != []
    ensures InTurn(t, Loosest(t), |t.lines|)
  {
  }

  /** One flow allows all that another does. */
  ghost predicate Within(g: Flow, h: Flow) {
    g.first <= h.first && |g.next| == |h.next| && forall i: nat | i < |g.next| :: g.next[i] <= h.next[i]
  }

  lemma {:induction false} RoundsWithinLoosest(t: Text, g: Flow)
    requires Respects(t, g)
    ensures Forward(t, Rounds(g)) && Within(Rounds(g), Loosest(t))
  {
    RoundsGoForward(t, g);
    var h := Loosest(t);
    forall i | i in Rounds(g).first ensures i in h.first {
    }
    forall k: nat | k < |g.next| ensures Rounds(g).next[k] <= h.next[k] {
      forall l | l in Rounds(g).next[k] ensures l in h.next[k] {
        if Follows(t.lines, l) {
          assert k == l - 1;
        }
      }
    }
  }

  /** Places only grow with the flow. */
  lemma {:induction false} PlacesGrow(t: Text, g: Flow, h: Flow, i: nat, c: Name)
    requires Forward(t, g) && Forward(t, h) && Within(g, h) && i <= |t.lines|
    ensures Places(t, g, i, c) <= Places(t, h, i, c)
  {
    forall v | v in Places(t, g, i, c) ensures v in Places(t, h, i, c) {
      if !(i in g.first && v == EntryPlace(t, i, c)) {
        var j: nat, u :| j < i && i in g.next[j] && u in Places(t, g, j, Source(t.lines[j], c))
                         && v == Carried(t.lines[j], c, u);
        PlacesGrow(t, g, h, j, Source(t.lines[j], c));
      }
    }
  }

  lemma {:induction false} InPlaceShrinks(t: Text, g: Flow, h: Flow, b: Name)
    requires Forward(t, g) && Forward(t, h) && Within(g, h) && AllInPlace(t, h, b)
    ensures AllInPlace(t, g, b)
  {
    forall s | s in StepsOf(Scan(t, |t.lines|), b) ensures InPlace(t, g, b, s) {
      assert InPlace(t, h, b, s);
      PlacesGrow(t, g, h, s.idx, t.lines[s.idx].pack.src);
    }
  }

  /** What holds of single rounds holds however often control goes back. */
  lemma {:induction false} RoundsHold(t: Text, g: Flow, b: Name)
    requires Roams(t, g) && AllHold(t, Rounds(g), b)
    ensures AllHold(t, g, b)
  {
    forall s | s in StepsOf(Scan(t, |t.lines|), b) ensures StepHolds(t, g, b, s) {
      assert StepHolds(t, Rounds(g), b, s);
      forall x | Goes(t, g, x) && x.line == s.idx ensures WriteOf(t, x) == Some(Write(b, s.begin, s.end)) {
        var y := LastRound(t, g, x);
        assert WriteOf(t, y) == WriteOf(t, x);
      }
    }
  }

  /** The recorded ranges are the bytes touched, whatever way control takes through the text, loops
      included, exactly when the sweep along the loosest flow finds no other place. */
  lemma {:induction false} TextExactIff(t: Text, b: Name)
    ensures (forall g | Respects(t, g) :: AllHold(t, g, b)) <==> AllInPlace(t, Loosest(t), b)
  {
    LoosestRespects(t);
    RangesExactIff(t, Loosest(t), b);
    if AllInPlace(t, Loosest(t), b) {
      forall g | Respects(t, g) ensures AllHold(t, g, b) {
        RoundsWithinLoosest(t, g);
        InPlaceShrinks(t, Rounds(g), Loosest(t), b);
        RangesExactIff(t, Rounds(g), b);
        RoundsHold(t, g, b);
      }
    }
  }

  // ---------------------------------------------------------------- chains without a branch

  /** Every line from lo to hi is joined with the next. */
  predicate Unbroken(lines: seq<Line>, lo: nat, hi: nat) {
    forall k: nat | lo <= k < hi :: Joined(lines, k)
  }

  lemma {:induction false} StartsGrow(t: Text, i: nat, st: State, k: nat, b: Name)
    requires i < |t.lines| && Tracked(st) && k <= |t.lines[i].starts|
    ensures var st' := DoStarts(t.decls, i, t.lines[i], st, k);
            b in st'.chains ==> if b in st.chains then st'.chains[b].start == st.chains[b].start
              else st'.chains[b].start == i
    ensures b in st.chains ==> b in DoStarts(t.decls, i, t.lines[i], st, k).chains
  {
    if k > 0 {
      StartsGrow(t, i, st, k - 1, b);
    }
  }

  /** A line keeps the starts of the chains, and a chain that it begins starts there. */
  lemma {:induction false} LineGrows(t: Text, i: nat, st: State, b: Name)
    requires i < |t.lines| && Tracked(st)
    ensures var st' := DoLine(t, i, st);
            b in st'.chains ==> if b in st.chains then st'.chains[b].start == st.chains[b].start
              else st'.chains[b].start == i
    ensures b in st.chains ==> b in DoLine(t, i, st).chains
    ensures b in DoLine(t, i, st).chains ==> b in AfterStarts(t, i, st).chains
    ensures b in AfterStarts(t, i, st).chains ==> b in DoLine(t, i, st).chains
  {
    StartsGrow(t, i, st, |t.lines[i].starts|, b);
  }

  predicate NotSeed(t: Text, b: Name) {
    t.seed.Some? ==> b != t.seed.value.buf
  }

  /** Before its start a buffer has no chain. */
  lemma {:induction false} NoneBeforeStart(t: Text, b: Name, i: nat, j: nat)
    requires j <= i <= |t.lines| && NotSeed(t, b) && b in Scan(t, i).chains
    ensures Scan(t, i).chains[b].start < i
    ensures j <= Scan(t, i).chains[b].start ==> b !in Scan(t, j).chains
  {
    var before := Scan(t, i - 1);
    LineGrows(t, i - 1, before, b);
    if b in before.chains {
      NoneBeforeStart(t, b, i - 1, if j < i then j else i - 1);
    } else if j < i {
      NoneBefore(t, b, j, i - 1);
    }
  }

  lemma {:induction false} NoneBefore(t: Text, b: Name, j: nat, i: nat)
    requires j <= i <= |t.lines| && b !in Scan(t, i).chains
    ensures b !in Scan(t, j).chains
  {
    if j < i {
      LineGrows(t, i - 1, Scan(t, i - 1), b);
      NoneBefore(t, b, j, i - 1);
    }
  }

  /** A line that makes a cursor follow the buffer, or that a call of it stands on, is not before its
      start. */
  lemma {:induction false} FromStart(t: Text, b: Name, k: nat)
    requires b in Chains(t) && NotSeed(t, b) && k < |t.lines|
    requires Feeds(t, k, b) || b in AfterStarts(t, k, Scan(t, k)).chains
    ensures Chains(t)[b].start <= k
  {
    LineGrows(t, k, Scan(t, k), b);
    NoneBeforeStart(t, b, |t.lines|, k + 1);
  }

  lemma {:induction false} AlwaysInBlock(t: Text, g: Flow, k: nat, i: nat)
    requires Respects(t, g) && Forward(t, g) && k <= i < |t.lines| && Unbroken(t.lines, k, i)
    ensures Always(t, g, k, i)
  {
    if k < i {
      assert Joined(t.lines, i - 1);
      AlwaysInBlock(t, g, k, i - 1);
    }
  }

  /** The recorded calls stand between the start and the last line of the chain. */
  lemma {:induction false} StepsInRange(t: Text, b: Name, s: Step)
    requires b in Chains(t) && NotSeed(t, b) && s in StepsOf(Scan(t, |t.lines|), b)
    ensures Chains(t)[b].start <= s.idx <= Chains(t)[b].last && s.idx < |t.lines|
  {
    StepsCounted(t, |t.lines|, b);
    FromStart(t, b, s.idx);
    ChainsWellRecorded(t, b);
    NotBehindLast(t.lines, Chains(t)[b], s);
  }

  lemma {:induction false} NotBehindLast(lines: seq<Line>, c: Chain, s: Step)
    requires WellRecorded(lines, c) && s in c.steps
    ensures s.idx <= c.last
  {
    var k: nat :| k < |c.steps| && c.steps[k] == s;
    StepsInOrder(lines, c.steps, c.depth, k, |c.steps| - 1);
  }

  /** When no line from the start to the last call breaks the flow, every way to a call goes through
      every line that makes a cursor follow the buffer. */
  lemma {:induction false} UnbrokenIsSteady(t: Text, g: Flow, b: Name)
    requires Respects(t, g) && Forward(t, g) && b in Chains(t) && NotSeed(t, b)
    requires Unbroken(t.lines, Chains(t)[b].start, Chains(t)[b].last)
    ensures Steady(t, g, b)
  {
    forall s | s in StepsOf(Scan(t, |t.lines|), b) && s.idx < |t.lines| ensures SteadyAt(t, g, b, s.idx) {
      StepsInRange(t, b, s);
      forall k: nat | k < s.idx && Feeds(t, k, b) ensures Always(t, g, k, s.idx) {
        FromStart(t, b, k);
        AlwaysInBlock(t, g, k, s.idx);
      }
    }
  }

  /** Where no line that makes a cursor follow the buffer can be gone around on the way to a recorded
      call, the recorded ranges are the bytes touched, whatever way control takes, exactly when no
      recorded call starts from a stale cursor. */
  lemma {:induction false} SteadyExactIff(t: Text, b: Name)
    requires SeedApart(t) && Steady(t, Loosest(t), b)
    ensures (forall g | Respects(t, g) :: AllHold(t, g, b)) <==> NoStaleSteps(t, b)
  {
    var h := Loosest(t);
    LoosestRespects(t);
    StepsCounted(t, |t.lines|, b);
    if NoStaleSteps(t, b) {
      SteadyIsExact(t, h, b);
      RangesExactIff(t, h, b);
      TextExactIff(t, b);
    } else {
      var s :| s in StepsOf(Scan(t, |t.lines|), b) && StaleCall(t, s.idx);
      LoosestRunsInTurn(t);
      StaleStepMisses(t, h, b, s);
      assert !AllHold(t, h, b);
    }
  }

  /** That is so when no line from the start to the last call of the buffer breaks the flow. */
  lemma {:induction false} UnbrokenExactIff(t: Text, b: Name)
    requires SeedApart(t) && b in Chains(t) && NotSeed(t, b)
    requires Unbroken(t.lines, Chains(t)[b].start, Chains(t)[b].last)
    ensures (forall g | Respects(t, g) :: AllHold(t, g, b)) <==> NoStaleSteps(t, b)
  {
    LoosestRespects(t);
    UnbrokenIsSteady(t, Loosest(t), b);
    SteadyExactIff(t, b);
  }

  // ---------------------------------------------------------------- calls that are made together

  /** The pass has left the function. */
  predicate Left(t: Text, x: Pass) {
    x.line == |t.lines|
  }

  lemma {:induction false} NextThrough(t: Text, g: Flow, x: Pass, k: nat)
    requires Respects(t, g) && Goes(t, g, x) && Joined(t.lines, k)
    ensures Through(x, k + 1) ==> Through(x, k)
    ensures Through(x, k) && x.line != k ==> Through(x, k + 1)
  {
    if x.On? {
      NextThrough(t, g, x.before, k);
    }
  }

  lemma {:induction false} BlockThrough(t: Text, g: Flow, x: Pass, i: nat, j: nat)
    requires Respects(t, g) && Goes(t, g, x) && Left(t, x) && i <= j < |t.lines| && Unbroken(t.lines, i, j)
    ensures Through(x, i) <==> Through(x, j)
  {
    if i < j {
      BlockThrough(t, g, x, i, j - 1);
      assert Joined(t.lines, j - 1);
      NextThrough(t, g, x, j - 1);
    }
  }

  /** Whoever makes one of the calls and leaves makes them all. */
  ghost predicate Together(t: Text, c: Chain) {
    forall g, x | Respects(t, g) && Goes(t, g, x) && Left(t, x) :: AllOrNone(x, c)
  }

  ghost predicate AllOrNone(x: Pass, c: Chain) {
    forall j, k | 0 <= j < |c.steps| && 0 <= k < |c.steps| && Through(x, c.steps[j].idx) :: Through(x, c.steps[k].idx)
  }

  /** No line from the first to the last recorded call breaks the flow. */
  predicate CallsJoined(t: Text, c: Chain) {
    c.steps == [] || Unbroken(t.lines, c.steps[0].idx, c.last)
  }

  lemma {:induction false} JoinedTogether(t: Text, c: Chain, g: Flow, x: Pass)
    requires WellRecorded(t.lines, c) && CallsJoined(t, c) && forall s | s in c.steps :: s.idx < |t.lines|
    requires Respects(t, g) && Goes(t, g, x) && Left(t, x)
    ensures AllOrNone(x, c)
  {
    forall k: nat | k < |c.steps| ensures Through(x, c.steps[0].idx) <==> Through(x, c.steps[k].idx) {
      StepsInOrder(t.lines, c.steps, c.depth, 0, k);
      StepsInOrder(t.lines, c.steps, c.depth, k, |c.steps| - 1);
      assert c.steps[k] in c.steps;
      BlockThrough(t, g, x, c.steps[0].idx, c.steps[k].idx);
    }
  }

  /** Every line in turn, except that line m can also leave. */
  function Leaving(n: nat, m: nat): Flow
    requires m < n
  {
    Flow({0}, seq(n, i => if i == m then {m + 1, n} else {i + 1}))
  }

  lemma {:induction false} LeavingRespects(t: Text, m: nat)
    requires m < |t.lines| && !Joined(t.lines, m)
    ensures Respects(t, Leaving(|t.lines|, m))
  {
  }

  lemma {:induction false} GoesInTurn(t: Text, m: nat, i: nat) returns (x: Pass)
    requires i <= m < |t.lines|
    ensures Goes(t, Leaving(|t.lines|, m), x) && x.line == i
    ensures forall k: nat :: Through(x, k) <==> k <= i
  {
    if i == 0 {
      x := Entry(0, if t.seed.Some? then map[t.seed.value.cur := At(t.seed.value.buf, 0)] else map[]);
    } else {
      var y := GoesInTurn(t, m, i - 1);
      x := On(y, map[], i);
      assert i in Leaving(|t.lines|, m).next[i - 1];
    }
  }

  /** The recorded calls of a chain are always made together, in every flow that respects the text, if
      and only if no line between them breaks the flow, or there is only one. */
  lemma {:induction false} TogetherIff(t: Text, b: Name)
    requires b in Chains(t)
    ensures Together(t, Chains(t)[b]) <==> CallsJoined(t, Chains(t)[b]) || |Chains(t)[b].steps| <= 1
  {
    var c := Chains(t)[b];
    ChainsWellRecorded(t, b);
    StepsCounted(t, |t.lines|, b);
    if CallsJoined(t, c) {
      forall g, x | Respects(t, g) && Goes(t, g, x) && Left(t, x) ensures AllOrNone(x, c) {
        JoinedTogether(t, c, g, x);
      }
    } else if |c.steps| > 1 {
      var m: nat :| c.steps[0].idx <= m < c.last && !Joined(t.lines, m);
      SomeLeave(t, c, m);
    }
  }

  lemma {:induction false} SomeLeave(t: Text, c: Chain, m: nat)
    requires c.steps != [] && c.last == c.steps[|c.steps| - 1].idx < |t.lines|
    requires c.steps[0].idx <= m < c.last && !Joined(t.lines, m)
    ensures !Together(t, c)
  {
    var n := |t.lines|;
    LeavingRespects(t, m);
    var y := GoesInTurn(t, m, m);
    var x := On(y, map[], n);
    assert n in Leaving(n, m).next[m];
    assert Through(y, c.steps[0].idx) && !Through(y, c.last);
    assert !AllOrNone(x, c);
  }

  // ---------------------------------------------------------------- what a finding promises

  lemma {:induction false} StageAt(x: Pass, i: nat) returns (y: Pass)
    requires Through(x, i)
    ensures Stage(x, y) && y.line == i
  {
    if x.line == i {
      y := x;
    } else {
      y := StageAt(x.before, i);
    }
  }

  lemma {:induction false} GoesWithin(t: Text, g: Flow, h: Flow, x: Pass)
    requires Goes(t, g, x) && Within(g, h)
    ensures Goes(t, h, x)
  {
    if x.On? {
      GoesWithin(t, g, h, x.before);
    }
  }

  /** The finding holds of every way to its line, loops included, exactly when every place that the
      sweep along the loosest flow finds for its cursor leads past the declared size. */
  lemma {:induction false} OverflowInTextIff(t: Text, b: Name)
    requires b in Chains(t) && Chains(t)[b].over.Some?
    ensures var c := Chains(t)[b];
            var i := c.over.value;
            && c.declared.Some? && i < |t.lines| && t.lines[i].pack.Single?
            && ((forall g, x | Respects(t, g) && Goes(t, g, x) && x.line == i ::
                   PastSize(WriteOf(t, x), b, c.declared.value))
                <==> forall v | v in Places(t, Loosest(t), i, t.lines[i].pack.src) ::
                  PastSize(CallFrom(t, i, v), b, c.declared.value))
  {
    var h := Loosest(t);
    LoosestRespects(t);
    OverflowIff(t, h, b);
    var i, size := Chains(t)[b].over.value, Chains(t)[b].declared.value;
    if forall x | Goes(t, h, x) && x.line == i :: PastSize(WriteOf(t, x), b, size) {
      forall g, x | Respects(t, g) && Goes(t, g, x) && x.line == i ensures PastSize(WriteOf(t, x), b, size) {
        var y := LastRound(t, g, x);
        RoundsWithinLoosest(t, g);
        GoesWithin(t, Rounds(g), h, y);
        assert WriteOf(t, y) == WriteOf(t, x);
      }
    }
  }

  /** When the recorded ranges are right, whatever way control takes, every pass that gets to the line
      of the finding writes past the declared size there, and no recorded call on an earlier line does. */
  lemma {:induction false} FindingIsReal(t: Text, g: Flow, b: Name, x: Pass)
    requires AllInPlace(t, Loosest(t), b) && b in Chains(t) && Chains(t)[b].over.Some?
    requires Respects(t, g) && Goes(t, g, x) && x.line == Chains(t)[b].over.value
    ensures Chains(t)[b].declared.Some? && PastSize(WriteOf(t, x), b, Chains(t)[b].declared.value)
    ensures forall z, s | Goes(t, g, z) && s in Chains(t)[b].steps && z.line == s.idx < x.line ::
              WriteOf(t, z) == Some(Write(b, s.begin, s.end)) && s.end <= Chains(t)[b].declared.value
  {
    var c := Chains(t)[b];
    TextExactIff(t, b);
    ChainsWellRecorded(t, b);
    var k := FirstPastIsFirst(c.steps, c.declared.value);
    assert c.steps[k] in c.steps && StepHolds(t, g, b, c.steps[k]);
    forall z, s | Goes(t, g, z) && s in c.steps && z.line == s.idx < x.line
      ensures WriteOf(t, z) == Some(Write(b, s.begin, s.end)) && s.end <= c.declared.value
    {
      assert StepHolds(t, g, b, s);
      EarlierFits(t.lines, c, k, s);
    }
  }

  /** The finding is real: on a text whose cursors are assigned in ways that the check covers, and with
      no break in the flow from the start of the buffer to its last call, whoever makes the first
      recorded call and leaves, loops or not, writes past the declared size on the line of the finding,
      and no recorded call on an earlier line ever does. */
  lemma {:induction false} FindingIsRealInText(t: Text, g: Flow, b: Name, x: Pass) returns (y: Pass)
    requires OnlySeen(t) && b in Chains(t) && NotSeed(t, b) && Chains(t)[b].over.Some?
    requires Unbroken(t.lines, Chains(t)[b].start, Chains(t)[b].last)
    requires Respects(t, g) && Goes(t, g, x) && Left(t, x)
    requires Chains(t)[b].steps != [] && Through(x, Chains(t)[b].steps[0].idx)
    ensures Stage(x, y) && y.line == Chains(t)[b].over.value
    ensures Chains(t)[b].declared.Some? && PastSize(WriteOf(t, y), b, Chains(t)[b].declared.value)
    ensures forall z, s | Goes(t, g, z) && s in Chains(t)[b].steps && z.line == s.idx < Chains(t)[b].over.value ::
              WriteOf(t, z) == Some(Write(b, s.begin, s.end)) && s.end <= Chains(t)[b].declared.value
  {
    y := FindingIsReached(t, g, b, x);
    AllInPlaceInText(t, b);
    FindingIsReal(t, g, b, y);
  }

  /** Whoever makes the first call gets to the line of the finding. */
  lemma {:induction false} FindingIsReached(t: Text, g: Flow, b: Name, x: Pass) returns (y: Pass)
    requires b in Chains(t) && NotSeed(t, b) && Chains(t)[b].over.Some? && Chains(t)[b].steps != []
    requires Unbroken(t.lines, Chains(t)[b].start, Chains(t)[b].last)
    requires Respects(t, g) && Goes(t, g, x) && Left(t, x) && Through(x, Chains(t)[b].steps[0].idx)
    ensures Stage(x, y) && Goes(t, g, y) && y.line == Chains(t)[b].over.value
  {
    var c := Chains(t)[b];
    ChainsWellRecorded(t, b);
    var k := FirstPastIsFirst(c.steps, c.declared.value);
    assert c.steps[k] in c.steps && c.steps[0] in c.steps;
    StepsInRange(t, b, c.steps[k]);
    StepsInRange(t, b, c.steps[0]);
    StepsInOrder(t.lines, c.steps, c.depth, 0, k);
    BlockThrough(t, g, x, c.steps[0].idx, c.steps[k].idx);
    y := StageAt(x, c.steps[k].idx);
    StageGoes(t, g, x, y);
  }

  lemma {:induction false} AllInPlaceInText(t: Text, b: Name)
    requires OnlySeen(t) && b in Chains(t) && NotSeed(t, b)
    requires Unbroken(t.lines, Chains(t)[b].start, Chains(t)[b].last)
    ensures AllInPlace(t, Loosest(t), b)
  {
    OnlySeenMeansNoStaleSteps(t, b);
    LoosestRespects(t);
    UnbrokenIsSteady(t, Loosest(t), b);
    SteadyIsExact(t, Loosest(t), b);
    RangesExactIff(t, Loosest(t), b);
  }

  lemma {:induction false} EarlierFits(lines: seq<Line>, c: Chain, k: nat, s: Step)
    requires WellRecorded(lines, c) && c.declared.Some? && k < |c.steps| && s in c.steps && s.idx < c.steps[k].idx
    requires forall j | 0 <= j < k :: c.steps[j].end <= c.declared.value
    ensures s.end <= c.declared.value
  {
    var j: nat :| j < |c.steps| && c.steps[j] == s;
    if k <= j {
      StepsInOrder(lines, c.steps, c.depth, k, j);
      assert false;
    }
  }

  // ---------------------------------------------------------------- loops within a chain

  ghost predicate LoopyBetween(lines: seq<Line>, lo: nat, hi: nat) {
    exists x :: lo <= x <= hi && x < |lines| && lines[x].loopy
  }

  /** Control goes back only over a loop keyword, goto or label. */
  ghost predicate LoopsSeen(t: Text, g: Flow) {
    Roams(t, g) && forall i: nat, j | i < |g.next| && j in g.next[i] && j <= i :: LoopyBetween(t.lines, j, i)
  }

  /** A pass that stays between the start and the last call of a buffer that was not given up never goes
      back there. */
  lemma {:induction false} UnpoisonedGoesForward(t: Text, g: Flow, x: Pass, b: Name)
    requires b in Chains(t) && !Chains(t)[b].poison && Chains(t)[b].steps != []
    requires LoopsSeen(t, g) && Goes(t, g, x)
    requires forall y | Stage(x, y) :: Chains(t)[b].start <= y.line <= Chains(t)[b].last
    ensures Goes(t, Flow(g.first, Ahead(g)), x)
  {
    if x.On? {
      assert Stage(x, x) && Stage(x, x.before);
      forall y | Stage(x.before, y) ensures Chains(t)[b].start <= y.line <= Chains(t)[b].last {
        assert Stage(x, y);
      }
      UnpoisonedGoesForward(t, g, x.before, b);
      if x.line <= x.before.line {
        assert LoopyBetween(t.lines, x.line, x.before.line);
        LoopPoisons(t, b, x.line, x.before.line);
        assert false;
      }
    }
  }

  lemma {:induction false} LoopPoisons(t: Text, b: Name, lo: nat, hi: nat)
    requires b in Chains(t) && Chains(t)[b].steps != []
    requires Chains(t)[b].start <= lo && hi <= Chains(t)[b].last && LoopyBetween(t.lines, lo, hi)
    ensures Chains(t)[b].poison
  {
    var x :| lo <= x <= hi && x < |t.lines| && t.lines[x].loopy;
    assert LoopInside(t.lines, Scan(t, |t.lines|).chains[b]);
  }
}
