/**
  The pack-chain simulator (scan_body in tools/harness/or_buf.py) against what the lines do.

  The scan follows cursors through buffer starts, pack calls and plain copies, records for every
  buffer the byte range of each pack call, and gives a buffer up ("poison") when a line touches
  it in a way the patterns do not cover.  Here a line carries what the patterns found in it, and
  also the names it assigns without the patterns seeing it.
 */
module PackChain {
  import opened Collections
  import opened PackLayout

  // ---------------------------------------------------------------- lines

  datatype Name = Name(text: string)

  /** A pack call as the patterns read it: none, one (with or without a target), or one they cannot read. */
  datatype Pack =
    | NoPack
    | Single(dst: Option<Name>, packer: Packer, src: Name, rest: set<Name>)
    | Unreadable

  datatype Start = Start(cur: Name, buf: Name)

  datatype Copy = Copy(dst: Name, src: Name)

  datatype Line = Line(
    depth: int,
    starts: seq<Start>,
    pack: Pack,
    foreign: bool,          // a call that is not known to leave the buffers alone
    copy: Option<Copy>,
    names: set<Name>,       // the identifiers on the line
    branch: bool,           // a brace, branch keyword, preprocessor conditional or label
    loopy: bool,            // a loop keyword, goto or label
    loose: bool,            // a jump, or the body of an if or else without a brace: not seen by the patterns
    wild: set<Name>)        // assigned in a way that no pattern shows

  /** Declared buffers with their sizes (None when the size is not a constant), and those declared
      twice with different sizes. */
  datatype Decls = Decls(size: map<Name, Option<nat>>, dup: set<Name>)

  datatype Text = Text(lines: seq<Line>, decls: Decls, seed: Option<Start>)

  function DeclsOf(found: seq<(Name, Option<nat>)>): Decls {
    if found == [] then Decls(map[], {})
    else
      var before, (n, v) := DeclsOf(found[..|found| - 1]), found[|found| - 1];
      Decls(before.size[n := v],
            if n in before.size && before.size[n] != v then before.dup + {n} else before.dup)
  }

  // ---------------------------------------------------------------- the scan

  datatype Chain = Chain(declared: Option<nat>, start: nat, last: nat, depth: int, need: nat,
                         over: Option<nat>, steps: seq<Step>, dead: bool, poison: bool)

  datatype Pos = Pos(buf: Name, off: nat)

  datatype State = State(chains: map<Name, Chain>, track: map<Name, Pos>)

  predicate Tracked(st: State) {
    forall c | c in st.track :: st.track[c].buf in st.chains
  }

  function NewChain(declared: Option<nat>, i: nat, depth: int): Chain {
    Chain(declared, i, i, depth, 0, None, [], false, false)
  }

  function PoisonAll(chains: map<Name, Chain>, bufs: set<Name>): (r: map<Name, Chain>)
    ensures r.Keys == chains.Keys
  {
    map b | b in chains :: if b in bufs then chains[b].(poison := true) else chains[b]
  }

  /** The buffers whose name, or one of whose cursors, is among the names. */
  function Touched(st: State, names: set<Name>): set<Name> {
    (set c | c in st.track && c in names :: st.track[c].buf) + (set b | b in st.chains && b in names)
  }

  function DoStart(ds: Decls, i: nat, depth: int, st: State, s: Start): (r: State)
    requires Tracked(st)
    ensures Tracked(r)
  {
    if s.buf !in ds.size || s.buf in ds.dup then st
    else if s.buf in st.chains then st.(chains := PoisonAll(st.chains, {s.buf}))
    else State(st.chains[s.buf := NewChain(ds.size[s.buf], i, depth)], st.track[s.cur := Pos(s.buf, 0)])
  }

  function DoStarts(ds: Decls, i: nat, line: Line, st: State, k: nat): (r: State)
    requires Tracked(st) && k <= |line.starts|
    ensures Tracked(r)
  {
    if k == 0 then st else DoStart(ds, i, line.depth, DoStarts(ds, i, line, st, k - 1), line.starts[k - 1])
  }

  /** One pack call at an offset, or None when the chain ends here: an unknown packer, or something
      other than straight code since the last call. */
  function AddStep(lines: seq<Line>, i: nat, c: Chain, p: Packer, off: nat): Option<Chain>
    requires i < |lines|
  {
    if !Known(p) then None
    else if c.steps != [] && (lines[i].depth != c.depth || exists x | c.last < x < i :: lines[x].branch) then None
    else
      var end := End(p, off);
      Some(c.(steps := c.steps + [Step(i, p, Begin(p, off), end)],
              depth := if c.steps == [] then lines[i].depth else c.depth,
              last := i,
              need := if end > c.need then end else c.need,
              over := if c.declared.Some? && end > c.declared.value && c.over.None? then Some(i) else c.over))
  }

  function DoPack(lines: seq<Line>, i: nat, st: State): (r: State)
    requires i < |lines| && Tracked(st)
    ensures Tracked(r)
  {
    match lines[i].pack
    case NoPack => st
    case Unreadable => st.(chains := PoisonAll(st.chains, Touched(st, lines[i].names)))
    case Single(dst, p, src, rest) =>
      var dropped := if dst.Some? then st.track - {dst.value} else st.track;
      if src !in st.track then
        if dst.Some? then State(PoisonAll(st.chains, Touched(st, rest)), dropped) else st
      else
        var Pos(buf, off) := st.track[src];
        var c := st.chains[buf];
        if c.poison || c.dead then st.(track := dropped)
        else
          match AddStep(lines, i, c, p, off)
          case None => State(st.chains[buf := c.(dead := true)], dropped)
          case Some(c') =>
            State(st.chains[buf := c'], if dst.Some? then st.track[dst.value := Pos(buf, End(p, off))] else st.track)
  }

  function DoPlain(line: Line, st: State): (r: State)
    requires Tracked(st)
    ensures Tracked(r)
  {
    var chains := if line.foreign then PoisonAll(st.chains, Touched(st, line.names)) else st.chains;
    if line.copy.Some? && line.copy.value.src in st.track && line.copy.value.dst != line.copy.value.src
    then State(chains, st.track[line.copy.value.dst := st.track[line.copy.value.src]])
    else State(chains, st.track)
  }

  function AfterStarts(t: Text, i: nat, st: State): (r: State)
    requires i < |t.lines| && Tracked(st)
    ensures Tracked(r)
  {
    DoStarts(t.decls, i, t.lines[i], st, |t.lines[i].starts|)
  }

  function DoLine(t: Text, i: nat, st: State): (r: State)
    requires i < |t.lines| && Tracked(st)
    ensures Tracked(r)
  {
    var s := AfterStarts(t, i, st);
    if t.lines[i].pack.NoPack? then DoPlain(t.lines[i], s) else DoPack(t.lines, i, s)
  }

  function Seeded(t: Text): (r: State)
    ensures Tracked(r)
  {
    if t.seed.None? then State(map[], map[])
    else
      var s := t.seed.value;
      State(map[s.buf := NewChain(None, 0, if t.lines == [] then 0 else t.lines[0].depth)],
            map[s.cur := Pos(s.buf, 0)])
  }

  function Scan(t: Text, i: nat): (r: State)
    requires i <= |t.lines|
    ensures Tracked(r)
  {
    if i == 0 then Seeded(t) else DoLine(t, i - 1, Scan(t, i - 1))
  }

  predicate LoopInside(lines: seq<Line>, c: Chain) {
    c.steps != [] && exists x | c.start <= x <= c.last && x < |lines| :: lines[x].loopy
  }

  /** The chains that scan_body returns. */
  function Chains(t: Text): map<Name, Chain> {
    var chains := Scan(t, |t.lines|).chains;
    map b | b in chains :: if LoopInside(t.lines, chains[b]) then chains[b].(poison := true) else chains[b]
  }

  // ---------------------------------------------------------------- the scan as code

  method CollectDecls(found: seq<(Name, Option<nat>)>) returns (ds: Decls)
    ensures ds == DeclsOf(found)
  {
    var size: map<Name, Option<nat>>, dup: set<Name> := map[], {};
    for i := 0 to |found|
      invariant Decls(size, dup) == DeclsOf(found[..i])
    {
      assert found[..i + 1][..i] == found[..i];
      var (n, v) := found[i];
      if n in size && size[n] != v {
        dup := dup + {n};
      }
      size := size[n := v];
    }
    assert found[..|found|] == found;
    ds := Decls(size, dup);
  }

  method ScanBody(lines: seq<Line>, found: seq<(Name, Option<nat>)>, seed: Option<Start>)
    returns (chains: map<Name, Chain>)
    ensures chains == Chains(Text(lines, DeclsOf(found), seed))
  {
    var ds := CollectDecls(found);
    ghost var t := Text(lines, ds, seed);
    var st := Seeded(Text(lines, ds, seed));
    for i := 0 to |lines|
      invariant Tracked(st) && st == Scan(t, i)
    {
      for k := 0 to |lines[i].starts|
        invariant Tracked(st) && st == DoStarts(ds, i, lines[i], Scan(t, i), k)
      {
        st := DoStart(ds, i, lines[i].depth, st, lines[i].starts[k]);
      }
      if lines[i].pack.NoPack? {
        st := DoPlain(lines[i], st);
      } else {
        st := DoPack(lines, i, st);
      }
    }
    chains := st.chains;
    var todo := chains.Keys;
    while todo != {}
      invariant chains.Keys == st.chains.Keys && todo <= st.chains.Keys
      invariant forall b | b in st.chains ::
                  chains[b] == if b !in todo && LoopInside(lines, st.chains[b])
                               then st.chains[b].(poison := true) else st.chains[b]
    {
      var b :| b in todo;
      if LoopInside(lines, chains[b]) {
        chains := chains[b := chains[b].(poison := true)];
      }
      todo := todo - {b};
    }
  }
}
