/**
  What the lines of a scanned function do to its cursors when they run, along every way that
  control can take, and a sweep that finds where a cursor can point before a line.
 */
module PackFlow {
  import opened Collections
  import opened PackLayout
  import opened PackChain

  // ---------------------------------------------------------------- lines that run

  /** Where a cursor points: into a named buffer, or anywhere else. */
  datatype Value = At(buf: Name, off: nat) | Elsewhere

  type Env = map<Name, Value>

  function Val(env: Env, n: Name): Value {
    if n in env then env[n] else Elsewhere
  }

  function RunStarts(line: Line, env: Env, k: nat): Env
    requires k <= |line.starts|
  {
    if k == 0 then env else RunStarts(line, env, k - 1)[line.starts[k - 1].cur := At(line.starts[k - 1].buf, 0)]
  }

  /** The cursors when the pack call of the line happens. */
  function Started(line: Line, env: Env): Env {
    RunStarts(line, env, |line.starts|)
  }

  function Advanced(v: Value, p: Packer): Value {
    if v.At? && Known(p) then At(v.buf, End(p, v.off)) else Elsewhere
  }

  function RunBody(line: Line, env: Env): Env {
    match line.pack
    case Single(Some(dst), p, src, _) => env[dst := Advanced(Val(env, src), p)]
    case NoPack => if line.copy.Some? then env[line.copy.value.dst := Val(env, line.copy.value.src)] else env
    case _ => env
  }

  /** Names that the line assigns without the patterns seeing the value. */
  function Unseen(line: Line): set<Name> {
    line.wild
    + if line.pack.Single? && line.pack.dst.Some? && !Known(line.pack.packer) then {line.pack.dst.value} else {}
  }

  function RunLine(line: Line, env: Env, unseen: Env): Env {
    RunBody(line, Started(line, env)) + (map n | n in Unseen(line) :: Val(unseen, n))
  }

  datatype Write = Write(buf: Name, begin: nat, end: nat)

  /** The bytes that a packer touches from a place. */
  function WriteFrom(p: Packer, v: Value): Option<Write> {
    if v.Elsewhere? || !Known(p) then None else Some(Write(v.buf, Begin(p, v.off), End(p, v.off)))
  }

  // ---------------------------------------------------------------- the ways that control takes

  /** Where a pass can begin, and the lines that can run after each line; the number of lines stands for
      leaving.  A statement under an if on its own line runs exactly if control gets to the line. */
  datatype Flow = Flow(first: set<nat>, next: seq<set<nat>>)

  /** Control goes anywhere, back included, but not back to the first line. */
  predicate Roams(t: Text, g: Flow) {
    && |g.next| == |t.lines|
    && (forall i | i in g.first :: i <= |t.lines|)
    && (forall i: nat | i < |g.next| :: forall j | j in g.next[i] :: j <= |t.lines| && (j <= i ==> j > 0))
  }

  /** Control goes forward only. */
  predicate Forward(t: Text, g: Flow) {
    && |g.next| == |t.lines|
    && (forall i | i in g.first :: i <= |t.lines|)
    && (forall i: nat | i < |g.next| :: forall j | j in g.next[i] :: i < j <= |t.lines|)
  }

  /** A pass that has got to a line: it began there, with its cursors anywhere, or it ran another
      line before, whose unseen assignments put some values into their names. */
  datatype Pass = Entry(line: nat, env: Env) | On(before: Pass, unseen: Env, line: nat)

  /** The pass takes a way of the flow. */
  predicate Goes(t: Text, g: Flow, x: Pass) {
    match x
    case Entry(i, env) =>
      && i in g.first
      && (i == 0 && t.seed.Some? ==> Val(env, t.seed.value.cur) == At(t.seed.value.buf, 0))
    case On(before, _, i) =>
      before.line < |g.next| && i in g.next[before.line] && Goes(t, g, before)
  }

  /** The cursors when the pass has got to its line. */
  function Run(t: Text, x: Pass): Env {
    match x
    case Entry(_, env) => env
    case On(before, unseen, _) =>
      if before.line < |t.lines| then RunLine(t.lines[before.line], Run(t, before), unseen) else map[]
  }

  /** The bytes that the pack call on the line that the pass has got to touches. */
  function WriteOf(t: Text, x: Pass): Option<Write> {
    if x.line >= |t.lines| || !t.lines[x.line].pack.Single? then None
    else
      var line := t.lines[x.line];
      WriteFrom(line.pack.packer, Val(Started(line, Run(t, x)), line.pack.src))
  }

  /** y is the pass x, or what x was some lines before. */
  predicate Stage(x: Pass, y: Pass) {
    x == y || (x.On? && Stage(x.before, y))
  }

  /** The pass has got to line i. */
  predicate Through(x: Pass, i: nat) {
    x.line == i || (x.On? && Through(x.before, i))
  }

  lemma {:induction false} StageGoes(t: Text, g: Flow, x: Pass, y: Pass)
    requires Goes(t, g, x) && Stage(x, y)
    ensures Goes(t, g, y)
    ensures Forward(t, g) && x != y ==> y.line < x.line
  {
    if x != y {
      StageGoes(t, g, x.before, y);
    }
  }

  lemma {:induction false} ThroughIsBelow(t: Text, g: Flow, x: Pass, i: nat)
    requires Goes(t, g, x) && Forward(t, g) && Through(x, i)
    ensures i <= x.line
  {
    if x.line != i {
      ThroughIsBelow(t, g, x.before, i);
    }
  }

  // ---------------------------------------------------------------- rounds

  /** The flow of single rounds: going back begins another pass, with the cursors as they are. */
  function Rounds(g: Flow): Flow {
    Flow(g.first + (set i: nat, j | i < |g.next| && j in g.next[i] && j <= i :: j), Ahead(g))
  }

  function Ahead(g: Flow): seq<set<nat>> {
    seq(|g.next|, i requires 0 <= i < |g.next| => set j | j in g.next[i] && j > i)
  }

  lemma {:induction false} RoundsGoForward(t: Text, g: Flow)
    requires Roams(t, g)
    ensures Forward(t, Rounds(g))
  {
  }

  /** Wherever control has got to, however often it went back, the last round is a pass that goes
      forward, with the same cursors. */
  lemma {:induction false} LastRound(t: Text, g: Flow, x: Pass) returns (y: Pass)
    requires Roams(t, g) && Goes(t, g, x)
    ensures Goes(t, Rounds(g), y) && y.line == x.line && Run(t, y) == Run(t, x)
  {
    match x
    case Entry(i, env) => y := x;
    case On(before, unseen, i) =>
      if i <= before.line {
        y := Entry(i, Run(t, x));
      } else {
        var z := LastRound(t, g, before);
        y := On(z, unseen, i);
      }
  }

  // ---------------------------------------------------------------- the sweep

  /** The place of a cursor after the first k starts of a line, from its place before. */
  function StartPlace(line: Line, k: nat, c: Name, v: Value): Value
    requires k <= |line.starts|
  {
    if k == 0 then v
    else if line.starts[k - 1].cur == c then At(line.starts[k - 1].buf, 0) else StartPlace(line, k - 1, c, v)
  }

  /** The place of a cursor at the line's pack call, from its place before the line. */
  function CallPlace(line: Line, c: Name, v: Value): Value {
    StartPlace(line, |line.starts|, c, v)
  }

  /** The cursor whose place decides where c points behind the line. */
  function Source(line: Line, c: Name): Name {
    if line.pack.Single? && line.pack.dst == Some(c) then line.pack.src
    else if line.pack.NoPack? && line.copy.Some? && line.copy.value.dst == c then line.copy.value.src else c
  }

  /** The place of c behind a line, from the place of its source before the line. */
  function Carried(line: Line, c: Name, v: Value): Value {
    var u := CallPlace(line, Source(line, c), v);
    if c in Unseen(line) then Elsewhere
    else if line.pack.Single? && line.pack.dst == Some(c) then Advanced(u, line.pack.packer) else u
  }

  function EntryPlace(t: Text, i: nat, c: Name): Value {
    if i == 0 && t.seed.Some? && c == t.seed.value.cur then At(t.seed.value.buf, 0) else Elsewhere
  }

  /** The places where a cursor can point before line i, followed along all ways; Elsewhere stands
      for any place. */
  function Places(t: Text, g: Flow, i: nat, c: Name): set<Value>
    requires Forward(t, g) && i <= |t.lines|
  {
    (if i in g.first then {EntryPlace(t, i, c)} else {})
    + (set j: nat, v | j < i && i in g.next[j] && v in Places(t, g, j, Source(t.lines[j], c)) ::
      Carried(t.lines[j], c, v))
  }

  lemma {:induction false} RunStartsCarry(line: Line, env: Env, k: nat, c: Name)
    requires k <= |line.starts|
    ensures Val(RunStarts(line, env, k), c) == StartPlace(line, k, c, Val(env, c))
  {
    if k > 0 {
      RunStartsCarry(line, env, k - 1, c);
    }
  }

  /** What the sweep carries over a line is what the line does, up to unseen assignments. */
  lemma {:induction false} RunLineCarries(line: Line, env: Env, unseen: Env, c: Name)
    ensures var v := Carried(line, c, Val(env, Source(line, c)));
            Val(RunLine(line, env, unseen), c) == if c in Unseen(line) then Val(unseen, c) else v
    ensures c in Unseen(line) ==> Carried(line, c, Val(env, Source(line, c))).Elsewhere?
  {
    RunStartsCarry(line, env, |line.starts|, Source(line, c));
    RunStartsCarry(line, env, |line.starts|, c);
  }

  /** A value is one of the places, or one of them is any place. */
  predicate Covered(v: Value, places: set<Value>) {
    v in places || Elsewhere in places
  }

  lemma {:induction false} CarriedFromElsewhere(line: Line, c: Name, v: Value)
    ensures Carried(line, c, Elsewhere) == Carried(line, c, v) || Carried(line, c, Elsewhere).Elsewhere?
  {
    StartFromElsewhere(line, |line.starts|, Source(line, c), v);
  }

  lemma {:induction false} StartFromElsewhere(line: Line, k: nat, c: Name, v: Value)
    requires k <= |line.starts|
    ensures StartPlace(line, k, c, Elsewhere) == StartPlace(line, k, c, v)
         || (StartPlace(line, k, c, Elsewhere).Elsewhere? && StartPlace(line, k, c, v) == v)
  {
    if k > 0 {
      StartFromElsewhere(line, k - 1, c, v);
    }
  }

  /** No way leads a cursor to a place that the sweep does not find. */
  lemma {:induction false} PlacesSound(t: Text, g: Flow, x: Pass, c: Name)
    requires Forward(t, g) && Goes(t, g, x) && x.line <= |t.lines|
    ensures Covered(Val(Run(t, x), c), Places(t, g, x.line, c))
  {
    if x.On? {
      var j, line := x.before.line, t.lines[x.before.line];
      var from := Source(line, c);
      var v := Val(Run(t, x.before), from);
      PlacesSound(t, g, x.before, from);
      RunLineCarries(line, Run(t, x.before), x.unseen, c);
      var u := if v in Places(t, g, j, from) then v else Elsewhere;
      CarriedFromElsewhere(line, c, v);
    }
  }

  /** Every place that the sweep finds is reached on some way. */
  lemma {:induction false} PlacesReached(t: Text, g: Flow, i: nat, c: Name, v: Value) returns (x: Pass)
    requires Forward(t, g) && i <= |t.lines| && v in Places(t, g, i, c)
    ensures Goes(t, g, x) && x.line == i && Val(Run(t, x), c) == v
  {
    if i in g.first && v == EntryPlace(t, i, c) {
      x := Entry(i, if t.seed.Some? && i == 0 then map[t.seed.value.cur := At(t.seed.value.buf, 0)] else map[]);
    } else {
      var j: nat, u :| j < i && i in g.next[j] && u in Places(t, g, j, Source(t.lines[j], c))
                       && v == Carried(t.lines[j], c, u);
      var y := PlacesReached(t, g, j, Source(t.lines[j], c), u);
      x := On(y, map[], i);
      RunLineCarries(t.lines[j], Run(t, y), map[], c);
    }
  }

  // ---------------------------------------------------------------- lines that every way goes through

  /** Every way to line i goes through line k. */
  predicate Always(t: Text, g: Flow, k: nat, i: nat)
    requires Forward(t, g) && i <= |t.lines|
  {
    i == k || (i !in g.first && forall j: nat | j < i && i in g.next[j] :: Always(t, g, k, j))
  }

  lemma {:induction false} AlwaysThrough(t: Text, g: Flow, k: nat, x: Pass)
    requires Forward(t, g) && Goes(t, g, x) && x.line <= |t.lines| && Always(t, g, k, x.line)
    ensures Through(x, k)
  {
    if x.line != k {
      AlwaysThrough(t, g, k, x.before);
    }
  }

  lemma {:induction false} SometimesRound(t: Text, g: Flow, k: nat, i: nat) returns (x: Pass)
    requires Forward(t, g) && i <= |t.lines| && !Always(t, g, k, i)
    ensures Goes(t, g, x) && x.line == i && !Through(x, k)
  {
    if i in g.first {
      x := Entry(i, if t.seed.Some? then map[t.seed.value.cur := At(t.seed.value.buf, 0)] else map[]);
    } else {
      var j: nat :| j < i && i in g.next[j] && !Always(t, g, k, j);
      var y := SometimesRound(t, g, k, j);
      x := On(y, map[], i);
    }
  }

  lemma {:induction false} AlwaysIff(t: Text, g: Flow, k: nat, i: nat)
    requires Forward(t, g) && i <= |t.lines|
    ensures Always(t, g, k, i) <==> forall x | Goes(t, g, x) && x.line == i :: Through(x, k)
  {
    if Always(t, g, k, i) {
      forall x | Goes(t, g, x) && x.line == i ensures Through(x, k) {
        AlwaysThrough(t, g, k, x);
      }
    } else {
      var x := SometimesRound(t, g, k, i);
    }
  }

  // ---------------------------------------------------------------- pack calls

  /** What the pack call on line i touches when its cursor is at v before the line. */
  function CallFrom(t: Text, i: nat, v: Value): Option<Write>
    requires i < |t.lines| && t.lines[i].pack.Single?
  {
    WriteFrom(t.lines[i].pack.packer, CallPlace(t.lines[i], t.lines[i].pack.src, v))
  }

  lemma {:induction false} WriteOfIs(t: Text, x: Pass)
    requires x.line < |t.lines| && t.lines[x.line].pack.Single?
    ensures WriteOf(t, x) == CallFrom(t, x.line, Val(Run(t, x), t.lines[x.line].pack.src))
  {
    RunStartsCarry(t.lines[x.line], Run(t, x), |t.lines[x.line].starts|, t.lines[x.line].pack.src);
  }

  /** Every call starts from one of the places. */
  lemma {:induction false} WriteFound(t: Text, g: Flow, x: Pass) returns (v: Value)
    requires Forward(t, g) && Goes(t, g, x) && x.line < |t.lines| && t.lines[x.line].pack.Single?
    ensures v in Places(t, g, x.line, t.lines[x.line].pack.src)
    ensures CallFrom(t, x.line, v) == WriteOf(t, x) || CallFrom(t, x.line, v).None?
  {
    var line := t.lines[x.line];
    var here := Val(Run(t, x), line.pack.src);
    PlacesSound(t, g, x, line.pack.src);
    WriteOfIs(t, x);
    StartFromElsewhere(line, |line.starts|, line.pack.src, here);
    v := if here in Places(t, g, x.line, line.pack.src) then here else Elsewhere;
  }

  /** From each of the places some pass makes the call. */
  lemma {:induction false} WriteMade(t: Text, g: Flow, i: nat, v: Value) returns (x: Pass)
    requires Forward(t, g) && i < |t.lines| && t.lines[i].pack.Single? && v in Places(t, g, i, t.lines[i].pack.src)
    ensures Goes(t, g, x) && x.line == i && WriteOf(t, x) == CallFrom(t, i, v)
  {
    x := PlacesReached(t, g, i, t.lines[i].pack.src, v);
    WriteOfIs(t, x);
  }
}
