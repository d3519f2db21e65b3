/**
  Submitting inline review comments (tools/harness/post_review.py): comments the server
  already holds are dropped, the rest is cut into per-file groups, each group is one review
  submission, and a submission whose answer is lost is never sent again.

  The network is an explicit script: for every submission, what the server did and what the
  process saw.  A script that ends early is a process that was killed.
 */
module PostReview {
  import opened Collections
  import opened CommentKeys

  // ---------------------------------------------------------------- the keys of comments

  function Keys(cs: seq<Comment>): (ks: seq<Key>)
    ensures |ks| == |cs| && forall i | 0 <= i < |cs| :: ks[i] == KeyOf(cs[i])
  {
    seq(|cs|, i requires 0 <= i < |cs| => KeyOf(cs[i]))
  }

  function KeySet(cs: seq<Comment>): set<Key> {
    set k | k in Keys(cs)
  }

  /** No (path, body) key occurs twice. */
  ghost predicate AtMostOnce(cs: seq<Comment>) {
    forall k :: multiset(Keys(cs))[k] <= 1
  }

  lemma {:induction false} KeysConcat(a: seq<Comment>, b: seq<Comment>)
    ensures Keys(a + b) == Keys(a) + Keys(b)
    ensures multiset(Keys(a + b)) == multiset(Keys(a)) + multiset(Keys(b))
  {
    assert Keys(a + b) == Keys(a) + Keys(b);
  }

  // ---------------------------------------------------------------- per-file groups

  /** The distinct paths in the order in which they first occur. */
  function Paths(cs: seq<Comment>): seq<string> {
    if cs == [] then []
    else
      var ps, p := Paths(cs[..|cs| - 1]), cs[|cs| - 1].path;
      if p in ps then ps else ps + [p]
  }

  /** The comments on one path, in their order. */
  function OfPath(cs: seq<Comment>, p: string): seq<Comment> {
    if cs == [] then []
    else
      var rest, c := OfPath(cs[..|cs| - 1], p), cs[|cs| - 1];
      if c.path == p then rest + [c] else rest
  }

  function Chunks(cs: seq<Comment>, cap: nat): seq<seq<Comment>>
    requires cap >= 1
  {
    if cs == [] then []
    else if |cs| <= cap then [cs]
    else [cs[..cap]] + Chunks(cs[cap..], cap)
  }

  function GroupsOn(ps: seq<string>, cs: seq<Comment>, cap: nat): seq<seq<Comment>>
    requires cap >= 1
  {
    if ps == [] then [] else Chunks(OfPath(cs, ps[0]), cap) + GroupsOn(ps[1..], cs, cap)
  }

  /** What batches_by_file returns: stepping a range by zero raises, by a negative number yields nothing. */
  function Batches(cs: seq<Comment>, cap: int): Result<seq<seq<Comment>>> {
    if cs == [] then Ok([])
    else if cap == 0 then ValueError
    else if cap < 0 then Ok([])
    else Ok(GroupsOn(Paths(cs), cs, cap))
  }

  /** First half of batches_by_file: the dict of comments per path and the order of its keys. */
  method GroupByPath(cs: seq<Comment>) returns (order: seq<string>, grouped: map<string, seq<Comment>>)
    ensures order == Paths(cs)
    ensures forall p | p in order :: p in grouped && grouped[p] == OfPath(cs, p)
  {
    order, grouped := [], map[];
    for i := 0 to |cs|
      invariant order == Paths(cs[..i])
      invariant forall p :: p in grouped <==> p in order
      invariant forall p | p in order :: grouped[p] == OfPath(cs[..i], p)
    {
      var c := cs[i];
      assert cs[..i + 1][..i] == cs[..i];
      if c.path !in grouped {
        OfPathMembers(cs[..i], c.path);
        grouped := grouped[c.path := []];
        order := order + [c.path];
      }
      grouped := grouped[c.path := grouped[c.path] + [c]];
    }
    assert cs[..|cs|] == cs;
  }

  function ChunksFrom(cs: seq<Comment>, cap: nat, i: nat): seq<seq<Comment>>
    requires cap >= 1
  {
    if i < |cs| then Chunks(cs[i..], cap) else []
  }

  lemma {:induction false} ChunksStep(cs: seq<Comment>, cap: nat, i: nat)
    requires cap >= 1 && i < |cs|
    ensures ChunksFrom(cs, cap, i)
         == [if i + cap <= |cs| then cs[i..i + cap] else cs[i..]] + ChunksFrom(cs, cap, i + cap)
  {
    if i + cap < |cs| {
      assert cs[i..][cap..] == cs[i + cap..] && cs[i..][..cap] == cs[i..i + cap];
    } else if i + cap == |cs| {
      assert cs[i..i + cap] == cs[i..];
    }
  }

  method ChunkFile(cs: seq<Comment>, cap: int) returns (out: seq<seq<Comment>>)
    requires cap >= 1
    ensures out == Chunks(cs, cap)
  {
    out := [];
    var i := 0;
    assert cs[0..] == cs;
    while i < |cs|
      invariant 0 <= i
      invariant out + ChunksFrom(cs, cap, i) == Chunks(cs, cap)
    {
      ChunksStep(cs, cap, i);
      out := out + [if i + cap <= |cs| then cs[i..i + cap] else cs[i..]];
      i := i + cap;
    }
  }

  method BatchesByFile(cs: seq<Comment>, cap: int) returns (r: Result<seq<seq<Comment>>>)
    ensures r == Batches(cs, cap)
  {
    var order, grouped := GroupByPath(cs);
    if order == [] {
      return Ok([]);
    }
    if cap == 0 {
      return ValueError;
    }
    var out: seq<seq<Comment>> := [];
    if cap > 0 {
      for j := 0 to |order|
        invariant out + GroupsOn(order[j..], cs, cap) == GroupsOn(order, cs, cap)
      {
        assert order[j..][1..] == order[j + 1..];
        var mine := ChunkFile(grouped[order[j]], cap);
        assert out + (mine + GroupsOn(order[j + 1..], cs, cap)) == (out + mine) + GroupsOn(order[j + 1..], cs, cap);
        out := out + mine;
      }
    }
    r := Ok(out);
    assert cs != [] && (cap > 0 ==> order[|order|..] == [] && out + [] == out);
  }

  // ---------------------------------------------------------------- what the grouping keeps

  lemma {:induction false} ChunksLossless(cs: seq<Comment>, cap: nat)
    requires cap >= 1
    ensures Flatten(Chunks(cs, cap)) == cs
    ensures forall g | g in Chunks(cs, cap) :: 1 <= |g| <= cap && forall c | c in g :: c in cs
  {
    if cs == [] {
    } else if |cs| <= cap {
      FlattenOne(cs);
    } else {
      var first, rest := cs[..cap], cs[cap..];
      ChunksLossless(rest, cap);
      assert Chunks(cs, cap)[1..] == Chunks(rest, cap) && cs == first + rest;
      forall g | g in Chunks(cs, cap) ensures 1 <= |g| <= cap && forall c | c in g :: c in cs {
        assert g == first || g in Chunks(rest, cap);
      }
    }
  }

  /** Only the last group of a file is short of the cap. */
  lemma {:induction false} ChunksFull(cs: seq<Comment>, cap: nat, i: nat)
    requires cap >= 1 && i + 1 < |Chunks(cs, cap)|
    ensures |Chunks(cs, cap)[i]| == cap
  {
    if i > 0 {
      ChunksFull(cs[cap..], cap, i - 1);
    }
  }

  lemma {:induction false} OfPathMembers(cs: seq<Comment>, p: string)
    ensures forall c :: c in OfPath(cs, p) <==> c in cs && c.path == p
    ensures p in Paths(cs) <==> OfPath(cs, p) != []
  {
    if cs != [] {
      OfPathMembers(cs[..|cs| - 1], p);
      SplitLast(cs);
    }
  }

  lemma {:induction false} PathsDistinct(cs: seq<Comment>)
    ensures forall i, j | 0 <= i < j < |Paths(cs)| :: Paths(cs)[i] != Paths(cs)[j]
  {
    if cs != [] {
      PathsDistinct(cs[..|cs| - 1]);
    }
  }

  lemma {:induction false} OfPathConcat(a: seq<Comment>, b: seq<Comment>, p: string)
    ensures OfPath(a + b, p) == OfPath(a, p) + OfPath(b, p)
  {
    if b == [] {
      assert a + b == a;
    } else {
      assert (a + b)[..|a + b| - 1] == a + b[..|b| - 1];
      OfPathConcat(a, b[..|b| - 1], p);
    }
  }

  lemma {:induction false} OfPathSame(cs: seq<Comment>, p: string)
    requires forall c | c in cs :: c.path == p
    ensures OfPath(cs, p) == cs
    ensures forall q | q != p :: OfPath(cs, q) == []
  {
    if cs != [] {
      OfPathSame(cs[..|cs| - 1], p);
      SplitLast(cs);
    }
  }

  /** Each path's comments come out together, in order, at the place of that path in ps. */
  lemma {:induction false} GroupsOnPerPath(ps: seq<string>, cs: seq<Comment>, cap: nat, p: string)
    requires cap >= 1
    requires forall i, j | 0 <= i < j < |ps| :: ps[i] != ps[j]
    ensures OfPath(Flatten(GroupsOn(ps, cs, cap)), p) == if p in ps then OfPath(cs, p) else []
  {
    if ps != [] {
      var head, tail := Chunks(OfPath(cs, ps[0]), cap), GroupsOn(ps[1..], cs, cap);
      FlattenConcat(head, tail);
      ChunksLossless(OfPath(cs, ps[0]), cap);
      OfPathMembers(cs, ps[0]);
      OfPathSame(OfPath(cs, ps[0]), ps[0]);
      OfPathConcat(OfPath(cs, ps[0]), Flatten(tail), p);
      GroupsOnPerPath(ps[1..], cs, cap, p);
    }
  }

  lemma {:induction false} CountByPath(cs: seq<Comment>, c: Comment)
    ensures multiset(OfPath(cs, c.path))[c] == multiset(cs)[c]
  {
    if cs != [] {
      CountByPath(cs[..|cs| - 1], c);
      SplitLast(cs);
    }
  }

  lemma {:induction false} GroupsOnShape(ps: seq<string>, cs: seq<Comment>, cap: nat)
    requires cap >= 1
    ensures forall g | g in GroupsOn(ps, cs, cap) ::
              1 <= |g| <= cap && forall c | c in g :: c.path == g[0].path && c.path in ps
  {
    if ps != [] {
      GroupsOnShape(ps[1..], cs, cap);
      ChunksLossless(OfPath(cs, ps[0]), cap);
      OfPathMembers(cs, ps[0]);
    }
  }

  /** A group and the next one are on different paths, or the first of them is full. */
  ghost predicate FullOrLast(gs: seq<seq<Comment>>, cap: nat, i: nat)
    requires i + 1 < |gs|
  {
    gs[i] != [] && gs[i + 1] != [] && (gs[i][0].path == gs[i + 1][0].path ==> |gs[i]| == cap)
  }

  lemma {:induction false} GroupsAreFull(ps: seq<string>, cs: seq<Comment>, cap: nat, i: nat)
    requires cap >= 1 && i + 1 < |GroupsOn(ps, cs, cap)|
    requires forall i, j | 0 <= i < j < |ps| :: ps[i] != ps[j]
    ensures FullOrLast(GroupsOn(ps, cs, cap), cap, i)
  {
    var mine := OfPath(cs, ps[0]);
    var head, tail := Chunks(mine, cap), GroupsOn(ps[1..], cs, cap);
    var gs := head + tail;
    ChunksLossless(mine, cap);
    OfPathMembers(cs, ps[0]);
    GroupsOnShape(ps[1..], cs, cap);
    if i + 1 < |head| {
      ChunksFull(mine, cap, i);
      assert gs[i] == head[i] && gs[i + 1] == head[i + 1];
      assert head[i] in head && head[i + 1] in head;
    } else if i < |head| {
      assert gs[i] == head[i] && gs[i + 1] == tail[0];
      assert head[i] in head && tail[0] in tail;
      assert head[i][0].path == ps[0] && tail[0][0].path in ps[1..];
    } else {
      GroupsAreFull(ps[1..], cs, cap, i - |head|);
      assert gs[i] == tail[i - |head|] && gs[i + 1] == tail[i + 1 - |head|];
    }
  }

  /** A path comes before another if it is used first. */
  lemma {:induction false} PathsByFirstUse(cs: seq<Comment>, i: nat, j: nat) returns (k: nat)
    requires i < j < |Paths(cs)|
    ensures k < |cs| && cs[k].path == Paths(cs)[i] && forall m: nat | m <= k :: cs[m].path != Paths(cs)[j]
  {
    var front := cs[..|cs| - 1];
    if j < |Paths(front)| {
      k := PathsByFirstUse(front, i, j);
      assert forall m: nat | m <= k :: cs[m] == front[m];
    } else {
      var p, q := Paths(cs)[i], Paths(cs)[j];
      assert p in Paths(front) && q !in Paths(front);
      OfPathMembers(front, p);
      OfPathMembers(front, q);
      var c := OfPath(front, p)[0];
      assert c in OfPath(front, p);
      k :| 0 <= k < |front| && front[k] == c;
      forall m: nat | m <= k ensures cs[m].path != q {
        assert front[m] == cs[m] && front[m] in front && front[m] !in OfPath(front, q);
      }
    }
  }

  /** With a cap of at least one the groups are a rearrangement of the comments: every group holds
      one path and 1 to cap comments, only the last of a file is short of the cap, and every file
      keeps its own order. */
  lemma {:induction false} GroupsRearrange(cs: seq<Comment>, cap: int)
    requires cap >= 1
    ensures Batches(cs, cap).Ok?
    ensures var gs := Batches(cs, cap).value;
            && multiset(Flatten(gs)) == multiset(cs)
            && Flatten(gs) == FileByFile(Paths(cs), cs)
            && (forall p :: OfPath(Flatten(gs), p) == OfPath(cs, p))
            && (forall g | g in gs :: 1 <= |g| <= cap && forall c | c in g :: c.path == g[0].path)
            && (forall i: nat | i + 1 < |gs| :: FullOrLast(gs, cap, i))
  {
    var gs := Batches(cs, cap).value;
    if cs == [] {
      return;
    }
    PathsDistinct(cs);
    GroupsFollowFirstUse(Paths(cs), cs, cap);
    GroupsOnShape(Paths(cs), cs, cap);
    forall i: nat | i + 1 < |gs| ensures FullOrLast(gs, cap, i) {
      GroupsAreFull(Paths(cs), cs, cap, i);
    }
    forall p ensures OfPath(Flatten(gs), p) == OfPath(cs, p) {
      GroupsOnPerPath(Paths(cs), cs, cap, p);
      OfPathMembers(cs, p);
    }
    forall c: Comment ensures multiset(Flatten(gs))[c] == multiset(cs)[c] {
      CountByPath(cs, c);
      CountByPath(Flatten(gs), c);
    }
  }

  /** The groups hold exactly the given comments if and only if there are none or the cap is positive.
      With a negative cap every comment is lost without an error. */
  lemma {:induction false} BatchesLosslessIff(cs: seq<Comment>, cap: int)
    ensures (Batches(cs, cap).Ok? && multiset(Flatten(Batches(cs, cap).value)) == multiset(cs))
       <==> (cs == [] || cap >= 1)
  {
    if cap >= 1 {
      GroupsRearrange(cs, cap);
    } else if cs != [] && cap < 0 {
      assert cs[0] in multiset(cs);
      assert cs[0] !in multiset(Flatten<Comment>([]));
    }
  }

  /** All comments of the first path, then all of the second, and so on. */
  function FileByFile(ps: seq<string>, cs: seq<Comment>): seq<Comment> {
    if ps == [] then [] else OfPath(cs, ps[0]) + FileByFile(ps[1..], cs)
  }

  /** One after the other, the groups run through the files in the order of their first use. */
  lemma {:induction false} GroupsFollowFirstUse(ps: seq<string>, cs: seq<Comment>, cap: nat)
    requires cap >= 1
    ensures Flatten(GroupsOn(ps, cs, cap)) == FileByFile(ps, cs)
  {
    if ps != [] {
      var head, tail := Chunks(OfPath(cs, ps[0]), cap), GroupsOn(ps[1..], cs, cap);
      FlattenConcat(head, tail);
      ChunksLossless(OfPath(cs, ps[0]), cap);
      GroupsFollowFirstUse(ps[1..], cs, cap);
    }
  }

  // ---------------------------------------------------------------- one submission

  /** When a review whose answer was lost is written: never, or just before the given confirming
      GET (a number past the last one means after the process has gone on, but before a later run). */
  datatype Landing = Never | Before(get: nat)

  /** What happens to one submission.  A confirming GET fails (None) or shows some of what is stored. */
  datatype Answer =
    | Accepted
    | Rejected
    | Lost(landing: Landing, views: seq<Option<set<Key>>>)
    | Killed(landing: Landing)

  const CONFIRM_TRIES: nat := 3

  /** What a confirming GET returns: of the shown keys, those stored by then. */
  function Shown(store: seq<Comment>, a: Answer, get: nat): Option<set<Key>>
    requires a.Lost?
  {
    if get >= |a.views| || a.views[get].None? then None else Some(a.views[get].value * KeySet(store))
  }

  function View(store: seq<Comment>, g: seq<Comment>, a: Answer, get: nat): Option<set<Key>>
    requires a.Lost?
  {
    Shown(if a.landing.Before? && a.landing.get <= get then store + g else store, a, get)
  }

  function Hits(ks: seq<Key>, have: Option<set<Key>>): nat {
    if ks == [] then 0
    else Hits(ks[..|ks| - 1], have) + if have.Some? && ks[|ks| - 1] in have.value then 1 else 0
  }

  /** The number of this group's keys in the first confirming GET that shows any; 0 if none does. */
  function Confirmed(store: seq<Comment>, g: seq<Comment>, a: Answer, get: nat): nat
    requires a.Lost?
    decreases CONFIRM_TRIES - get
  {
    if get >= CONFIRM_TRIES then 0
    else
      var n := Hits(Keys(g), View(store, g, a, get));
      if n > 0 then n else Confirmed(store, g, a, get + 1)
  }

  /** How many of the group's comments a GET shows. */
  function CountShown(g: seq<Comment>, have: Option<set<Key>>): nat {
    |ShownIn(g, have)|
  }

  function ShownIn(g: seq<Comment>, have: Option<set<Key>>): set<nat> {
    set i: nat | i < |g| && have.Some? && KeyOf(g[i]) in have.value
  }

  /** The store once a submission is over: a review is created whole or not at all. */
  function After(store: seq<Comment>, g: seq<Comment>, a: Answer): seq<Comment> {
    match a
    case Accepted => store + g
    case Rejected => store
    case Lost(landing, _) => if landing.Before? then store + g else store
    case Killed(landing) => if landing.Before? then store + g else store
  }

  // ---------------------------------------------------------------- one run

  /** A group reported as posted, with the number of confirmed keys when its answer was lost. */
  datatype Posted = Posted(group: seq<Comment>, seen: Option<nat>)

  datatype Failure = NoList | Refused(group: seq<Comment>) | Unconfirmed(group: seq<Comment>)

  datatype Report =
    | Returned(posted: seq<Posted>, errors: seq<Failure>, left: seq<seq<Comment>>)
    | Raised
    | Died

  datatype Outcome = Outcome(store: seq<Comment>, report: Report)

  function AlsoPosted(p: Posted, o: Outcome): Outcome {
    if o.report.Returned? then o.(report := o.report.(posted := [p] + o.report.posted)) else o
  }

  function AlsoFailed(f: Failure, o: Outcome): Outcome {
    if o.report.Returned? then o.(report := o.report.(errors := [f] + o.report.errors)) else o
  }

  /** Submitting the groups in order under a script of answers. */
  function Submit(groups: seq<seq<Comment>>, script: seq<Answer>, store: seq<Comment>): Outcome {
    if groups == [] then Outcome(store, Returned([], [], []))
    else if script == [] then Outcome(store, Died)
    else
      var g, a := groups[0], script[0];
      var after := After(store, g, a);
      match a
      case Accepted => AlsoPosted(Posted(g, None), Submit(groups[1..], script[1..], after))
      case Rejected => AlsoFailed(Refused(g), Submit(groups[1..], script[1..], after))
      case Killed(_) => Outcome(after, Died)
      case Lost(_, _) =>
        var n := Confirmed(store, g, a, 0);
        if n > 0 then AlsoPosted(Posted(g, Some(n)), Submit(groups[1..], script[1..], after))
        else Outcome(after, Returned([], [Unconfirmed(g)], groups))
  }

  function Pending(comments: seq<Comment>, have: set<Key>): seq<Comment> {
    if comments == [] then []
    else
      var rest, c := Pending(comments[..|comments| - 1], have), comments[|comments| - 1];
      if KeyOf(c) in have then rest else rest + [c]
  }

  /** A whole run: list is the answer of the first GET. */
  function RunOnce(list: Option<set<Key>>, script: seq<Answer>, comments: seq<Comment>, cap: int,
                   store: seq<Comment>): Outcome
  {
    match list
    case None =>
      var gs := Batches(comments, cap);
      Outcome(store, if gs.Ok? then Returned([], [NoList], gs.value) else Raised)
    case Some(have) =>
      var gs := Batches(Pending(comments, have), cap);
      if gs.Ok? then Submit(gs.value, script, store) else Outcome(store, Raised)
  }

  // ---------------------------------------------------------------- the run as code

  /** An outcome with earlier entries in front of its report. */
  function Extend(posted: seq<Posted>, errors: seq<Failure>, o: Outcome): Outcome {
    if o.report.Returned?
    then o.(report := o.report.(posted := posted + o.report.posted, errors := errors + o.report.errors))
    else o
  }

  lemma {:induction false} ExtendPosted(posted: seq<Posted>, errors: seq<Failure>, p: Posted, o: Outcome)
    ensures Extend(posted, errors, AlsoPosted(p, o)) == Extend(posted + [p], errors, o)
  {
    if o.report.Returned? {
      assert posted + ([p] + o.report.posted) == (posted + [p]) + o.report.posted;
    }
  }

  lemma {:induction false} ExtendFailed(posted: seq<Posted>, errors: seq<Failure>, f: Failure, o: Outcome)
    ensures Extend(posted, errors, AlsoFailed(f, o)) == Extend(posted, errors + [f], o)
  {
    if o.report.Returned? {
      assert errors + ([f] + o.report.errors) == (errors + [f]) + o.report.errors;
    }
  }

  method CountHits(ks: seq<Key>, have: Option<set<Key>>) returns (n: nat)
    ensures n == Hits(ks, have)
  {
    n := 0;
    for j := 0 to |ks|
      invariant n == Hits(ks[..j], have)
    {
      assert ks[..j + 1][..j] == ks[..j];
      if have.Some? && ks[j] in have.value {
        n := n + 1;
      }
    }
    assert ks[..|ks|] == ks;
  }

  lemma {:induction false} ShownStep(front: seq<Comment>, c: Comment, have: Option<set<Key>>)
    ensures ShownIn(front + [c], have)
         == ShownIn(front, have) + if have.Some? && KeyOf(c) in have.value then {|front|} else {}
  {
  }

  lemma {:induction false} CountStep(front: seq<Comment>, c: Comment, have: Option<set<Key>>)
    ensures CountShown(front + [c], have)
         == CountShown(front, have) + if have.Some? && KeyOf(c) in have.value then 1 else 0
  {
    ShownStep(front, c, have);
  }

  lemma {:induction false} HitsStep(ks: seq<Key>, k: Key, have: Option<set<Key>>)
    ensures Hits(ks + [k], have) == Hits(ks, have) + if have.Some? && k in have.value then 1 else 0
  {
    assert (ks + [k])[..|ks|] == ks;
  }

  lemma {:induction false} HitsAreShown(g: seq<Comment>, have: Option<set<Key>>)
    ensures Hits(Keys(g), have) == CountShown(g, have)
  {
    if g != [] {
      var front, last := g[..|g| - 1], g[|g| - 1];
      SplitLast(g);
      HitsAreShown(front, have);
      KeysConcat(front, [last]);
      assert Keys([last]) == [KeyOf(last)];
      HitsStep(Keys(front), KeyOf(last), have);
      CountStep(front, last, have);
    }
  }

  method DropPresent(comments: seq<Comment>, have: set<Key>) returns (todo: seq<Comment>)
    ensures todo == Pending(comments, have)
  {
    todo := [];
    for k := 0 to |comments|
      invariant todo == Pending(comments[..k], have)
    {
      assert comments[..k + 1][..k] == comments[..k];
      if KeyOf(comments[k]) !in have {
        todo := todo + [comments[k]];
      }
    }
    assert comments[..|comments|] == comments;
  }

  /** One turn of the loop over the groups, with the report so far in front. */
  lemma {:induction false} SubmitAt(groups: seq<seq<Comment>>, script: seq<Answer>, i: nat, store: seq<Comment>,
                                    posted: seq<Posted>, errors: seq<Failure>)
    requires i < |groups| && i < |script|
    ensures var g, a := groups[i], script[i];
            var here := Extend(posted, errors, Submit(groups[i..], script[i..], store));
            var next := Submit(groups[i + 1..], script[i + 1..], After(store, g, a));
            match a
            case Accepted => here == Extend(posted + [Posted(g, None)], errors, next)
            case Rejected => here == Extend(posted, errors + [Refused(g)], next)
            case Killed(_) => here == Outcome(After(store, g, a), Died)
            case Lost(_, _) =>
              var n := Confirmed(store, g, a, 0);
              here == if n > 0 then Extend(posted + [Posted(g, Some(n))], errors, next)
                      else Outcome(After(store, g, a), Returned(posted, errors + [Unconfirmed(g)], groups[i..]))
  {
    var g, a := groups[i], script[i];
    assert groups[i..][1..] == groups[i + 1..] && script[i..][1..] == script[i + 1..];
    var next := Submit(groups[i + 1..], script[i + 1..], After(store, g, a));
    match a
    case Accepted => ExtendPosted(posted, errors, Posted(g, None), next);
    case Rejected => ExtendFailed(posted, errors, Refused(g), next);
    case Killed(_) =>
    case Lost(_, _) =>
      ExtendPosted(posted, errors, Posted(g, Some(Confirmed(store, g, a, 0))), next);
      assert posted + [] == posted;
  }

  class Server {
    var store: seq<Comment>

    constructor ()
      ensures store == []
    {
      store := [];
    }

    /** confirm_created: at most three GETs while a lost review may still be landing. */
    method ConfirmCreated(g: seq<Comment>, a: Answer) returns (n: nat, ghost gets: nat)
      requires a.Lost?
      modifies this
      ensures n == Confirmed(old(store), g, a, 0)
      ensures gets <= 3 && (n == 0 ==> gets == 3)
      ensures forall j: nat | j < gets :: CountShown(g, View(old(store), g, a, j)) == if j + 1 < gets then 0 else n
      ensures store == if a.landing.Before? then old(store) + g else old(store)
    {
      n := 0;
      var get := 0;
      ghost var before := store;
      var landed := false;
      while get < CONFIRM_TRIES && n == 0
        invariant get <= CONFIRM_TRIES
        invariant landed <==> a.landing.Before? && a.landing.get < get
        invariant store == if landed then before + g else before
        invariant Confirmed(before, g, a, 0) == if n == 0 then Confirmed(before, g, a, get) else n
        invariant forall j: nat | j < get :: CountShown(g, View(before, g, a, j)) == if j + 1 < get then 0 else n
      {
        if a.landing == Before(get) {
          store, landed := store + g, true;
        }
        n := CountHits(Keys(g), Shown(store, a, get));
        HitsAreShown(g, View(before, g, a, get));
        get := get + 1;
      }
      gets := get;
      if a.landing.Before? && !landed {
        store := store + g;
      }
    }

    /** The loop of post_inline over the groups. */
    method SubmitGroups(groups: seq<seq<Comment>>, script: seq<Answer>) returns (report: Report)
      modifies this
      ensures Outcome(store, report) == Submit(groups, script, old(store))
    {
      var posted: seq<Posted>, errors: seq<Failure> := [], [];
      for i := 0 to |groups|
        invariant i <= |script|
        invariant Submit(groups, script, old(store)) == Extend(posted, errors, Submit(groups[i..], script[i..], store))
      {
        if i == |script| {
          return Died;
        }
        var g, a := groups[i], script[i];
        SubmitAt(groups, script, i, store, posted, errors);
        match a
        case Accepted =>
          store := store + g;
          posted := posted + [Posted(g, None)];
        case Rejected =>
          errors := errors + [Refused(g)];
        case Killed(landing) =>
          if landing.Before? {
            store := store + g;
          }
          return Died;
        case Lost(_, _) =>
          var n, gets := ConfirmCreated(g, a);
          if n == 0 {
            return Returned(posted, errors + [Unconfirmed(g)], groups[i..]);
          }
          posted := posted + [Posted(g, Some(n))];
      }
      report := Returned(posted, errors, []);
    }

    /** post_inline: the store and the report of one run. */
    method PostInline(list: Option<set<Key>>, script: seq<Answer>, comments: seq<Comment>, cap: int)
      returns (report: Report)
      modifies this
      ensures Outcome(store, report) == RunOnce(list, script, comments, cap, old(store))
    {
      if list.None? {
        var gs := BatchesByFile(comments, cap);
        return if gs.Ok? then Returned([], [NoList], gs.value) else Raised;
      }
      var todo := DropPresent(comments, list.value);
      var batched := BatchesByFile(todo, cap);
      if batched.ValueError? {
        return Raised;
      }
      report := SubmitGroups(batched.value, script);
    }
  }

  // ---------------------------------------------------------------- keys

  lemma {:induction false} KeysFront(cs: seq<Comment>)
    requires cs != []
    ensures multiset(Keys(cs)) == multiset{KeyOf(cs[0])} + multiset(Keys(cs[1..]))
  {
    assert Keys(cs) == [KeyOf(cs[0])] + Keys(cs[1..]);
  }

  lemma {:induction false} KeysWithout(before: seq<Comment>, c: Comment, after: seq<Comment>)
    ensures multiset(Keys(before + ([c] + after))) == multiset{KeyOf(c)} + multiset(Keys(before + after))
  {
    KeysConcat(before, [c] + after);
    KeysConcat([c], after);
    KeysConcat(before, after);
  }

  lemma {:induction false} KeysPermute(a: seq<Comment>, b: seq<Comment>)
    requires multiset(a) == multiset(b)
    ensures multiset(Keys(a)) == multiset(Keys(b))
  {
    SameSize(a, b);
    if a != [] {
      KeysFront(a);
      var rest := KeysTakeOut(a, b);
      KeysPermute(a[1..], rest);
    }
  }

  lemma {:induction false} KeysTakeOut(a: seq<Comment>, b: seq<Comment>) returns (rest: seq<Comment>)
    requires multiset(a) == multiset(b) && a != []
    ensures multiset(a[1..]) == multiset(rest)
    ensures multiset(Keys(b)) == multiset{KeyOf(a[0])} + multiset(Keys(rest))
  {
    var before, after := TakeOut(a, b);
    rest := before + after;
    KeysWithout(before, a[0], after);
  }

  lemma {:induction false} KeyCounted(cs: seq<Comment>, k: Key)
    ensures multiset(Keys(cs))[k] > 0 <==> k in KeySet(cs)
    ensures k in KeySet(cs) <==> exists c :: c in cs && KeyOf(c) == k
  {
    if k in KeySet(cs) {
      var i :| 0 <= i < |Keys(cs)| && Keys(cs)[i] == k;
      assert cs[i] in cs;
    }
    assert k in multiset(Keys(cs)) <==> k in Keys(cs);
  }

  /** A comment with the same path and text is stored. */
  ghost predicate Held(c: Comment, store: seq<Comment>) {
    exists d :: d in store && Same(c, d)
  }

  lemma {:induction false} HeldIff(c: Comment, store: seq<Comment>)
    ensures KeyOf(c) in KeySet(store) <==> Held(c, store)
  {
    KeyCounted(store, KeyOf(c));
    if d :| d in store && Same(c, d) {
      SameKeyIff(c, d);
    }
    if d :| d in store && KeyOf(d) == KeyOf(c) {
      SameKeyIff(c, d);
    }
  }

  lemma {:induction false} KeysAt(cs: seq<Comment>, i: nat, j: nat)
    requires AtMostOnce(cs) && i < j < |cs|
    ensures KeyOf(cs[i]) != KeyOf(cs[j])
  {
    var a, b := cs[..j], cs[j..];
    assert cs == a + b && a[i] in a && b[0] in b;
    KeysConcat(a, b);
    KeyCounted(a, KeyOf(cs[i]));
    KeyCounted(b, KeyOf(cs[j]));
    assert multiset(Keys(cs))[KeyOf(cs[i])] <= 1;
  }

  /** No key occurs twice exactly if no two comments have the same path and text. */
  lemma {:induction false} OnceIff(cs: seq<Comment>)
    ensures AtMostOnce(cs) <==> forall i, j | 0 <= i < j < |cs| :: !Same(cs[i], cs[j])
  {
    forall i, j | 0 <= i < j < |cs| ensures Same(cs[i], cs[j]) <==> KeyOf(cs[i]) == KeyOf(cs[j]) {
      SameKeyIff(cs[i], cs[j]);
    }
    if AtMostOnce(cs) {
      forall i, j | 0 <= i < j < |cs| ensures !Same(cs[i], cs[j]) {
        KeysAt(cs, i, j);
      }
    } else {
      var k :| multiset(Keys(cs))[k] > 1;
      var i, j := TwiceAt(Keys(cs), k);
    }
  }

  lemma {:induction false} TwiceAt<T>(s: seq<T>, x: T) returns (i: nat, j: nat)
    requires multiset(s)[x] > 1
    ensures i < j < |s| && s[i] == x == s[j]
  {
    var front, last := s[..|s| - 1], s[|s| - 1];
    SplitLast(s);
    if multiset(front)[x] > 1 {
      i, j := TwiceAt(front, x);
    } else {
      assert x in multiset(front);
      i :| 0 <= i < |front| && front[i] == x;
      j := |s| - 1;
    }
  }

  // ---------------------------------------------------------------- nothing is stored twice

  lemma {:induction false} AfterAdds(store: seq<Comment>, g: seq<Comment>, a: Answer, k: Key)
    ensures multiset(Keys(store))[k] <= multiset(Keys(After(store, g, a)))[k]
                                    <= multiset(Keys(store))[k] + multiset(Keys(g))[k]
  {
    KeysConcat(store, g);
  }

  /** Whatever the answers, a run adds no more than its groups. */
  lemma {:induction false} SubmitStore(groups: seq<seq<Comment>>, script: seq<Answer>, store: seq<Comment>)
    requires groups != [] && script != []
    ensures var after := After(store, groups[0], script[0]);
            Submit(groups, script, store).store in {after, Submit(groups[1..], script[1..], after).store}
  {
  }

  lemma {:induction false} SubmitAddsAtMost(groups: seq<seq<Comment>>, script: seq<Answer>, store: seq<Comment>, k: Key)
    ensures multiset(Keys(Submit(groups, script, store).store))[k]
         <= multiset(Keys(store))[k] + multiset(Keys(Flatten(groups)))[k]
  {
    if groups != [] && script != [] {
      var after := After(store, groups[0], script[0]);
      AfterAdds(store, groups[0], script[0], k);
      KeysConcat(groups[0], Flatten(groups[1..]));
      SubmitAddsAtMost(groups[1..], script[1..], after, k);
      SubmitStore(groups, script, store);
    }
  }

  function AllAccepted(n: nat): seq<Answer> {
    if n == 0 then [] else [Accepted] + AllAccepted(n - 1)
  }

  lemma {:induction false} SubmitAccepted(groups: seq<seq<Comment>>, store: seq<Comment>)
    ensures var o := Submit(groups, AllAccepted(|groups|), store);
            && o.store == store + Flatten(groups)
            && o.report.Returned? && o.report.errors == [] && o.report.left == []
            && |o.report.posted| == |groups|
  {
    if groups != [] {
      assert AllAccepted(|groups|)[1..] == AllAccepted(|groups| - 1);
      SubmitAccepted(groups[1..], store + groups[0]);
      assert store + (groups[0] + Flatten(groups[1..])) == (store + groups[0]) + Flatten(groups[1..]);
    }
  }

  /** The pending comments have distinct keys, none of which is stored. */
  ghost predicate Fresh(todo: seq<Comment>, store: seq<Comment>) {
    AtMostOnce(todo) && forall c | c in todo :: KeyOf(c) !in KeySet(store)
  }

  lemma {:induction false} FreshMeansOnce(todo: seq<Comment>, store: seq<Comment>)
    requires AtMostOnce(store)
    ensures Fresh(todo, store) <==> AtMostOnce(store + todo)
  {
    KeysConcat(store, todo);
    forall k ensures multiset(Keys(todo))[k] > 0 <==> exists c :: c in todo && KeyOf(c) == k {
      KeyCounted(todo, k);
    }
    forall k ensures multiset(Keys(store))[k] > 0 <==> k in KeySet(store) {
      KeyCounted(store, k);
    }
    if AtMostOnce(store + todo) {
      forall k ensures multiset(Keys(todo))[k] <= 1 {
        assert multiset(Keys(store + todo))[k] <= 1;
      }
      forall c | c in todo ensures KeyOf(c) !in KeySet(store) {
        assert multiset(Keys(store + todo))[KeyOf(c)] <= 1;
      }
    }
  }

  /** One run keeps every key at most once under every script of answers, crashes and late
      landings included, exactly when its pending comments have distinct keys none of which is
      stored.  So a first GET that misses a stored comment, or two equal comments, can store
      one twice. */
  lemma {:induction false} OneRunAtMostOnceIff(have: set<Key>, comments: seq<Comment>, cap: int, store: seq<Comment>)
    requires cap >= 1 && AtMostOnce(store)
    ensures (forall script :: AtMostOnce(RunOnce(Some(have), script, comments, cap, store).store))
       <==> Fresh(Pending(comments, have), store)
  {
    var todo := Pending(comments, have);
    GroupsRearrange(todo, cap);
    var gs := Batches(todo, cap).value;
    KeysPermute(Flatten(gs), todo);
    KeysConcat(store, todo);
    KeysConcat(store, Flatten(gs));
    FreshMeansOnce(todo, store);
    if Fresh(todo, store) {
      forall script ensures AtMostOnce(RunOnce(Some(have), script, comments, cap, store).store) {
        forall k ensures multiset(Keys(Submit(gs, script, store).store))[k] <= 1 {
          SubmitAddsAtMost(gs, script, store, k);
          assert multiset(Keys(store + todo))[k] <= 1;
        }
      }
    } else {
      var script := AllAccepted(|gs|);
      SubmitAccepted(gs, store);
      assert RunOnce(Some(have), script, comments, cap, store).store == store + Flatten(gs);
      var k :| multiset(Keys(store + todo))[k] > 1;
      assert multiset(Keys(store + Flatten(gs)))[k] > 1;
    }
  }

  lemma {:induction false} PendingKeys(comments: seq<Comment>, have: set<Key>)
    ensures forall c :: c in Pending(comments, have) <==> c in comments && KeyOf(c) !in have
    ensures multiset(Keys(Pending(comments, have))) <= multiset(Keys(comments))
  {
    if comments != [] {
      var butLast, c := comments[..|comments| - 1], comments[|comments| - 1];
      SplitLast(comments);
      PendingKeys(butLast, have);
      KeysConcat(butLast, [c]);
      KeysConcat(Pending(butLast, have), [c]);
    }
  }

  /** With a first GET that shows just what is stored, those comments are about to be posted, in their
      order, of which no comment with the same path and text is stored. */
  lemma {:induction false} PendingAreNew(comments: seq<Comment>, store: seq<Comment>, c: Comment)
    ensures multiset(Pending(comments, KeySet(store)))[c] == if Held(c, store) then 0 else multiset(comments)[c]
  {
    HeldIff(c, store);
    if comments != [] {
      PendingAreNew(comments[..|comments| - 1], store, c);
      SplitLast(comments);
    }
  }

  lemma {:induction false} PendingInOrder(a: seq<Comment>, b: seq<Comment>, have: set<Key>)
    ensures Pending(a + b, have) == Pending(a, have) + Pending(b, have)
  {
    if b == [] {
      assert a + b == a;
    } else {
      assert (a + b)[..|a + b| - 1] == a + b[..|b| - 1];
      PendingInOrder(a, b[..|b| - 1], have);
    }
  }

  /** A run that reads what is stored and gets every submission accepted adds every comment of which
      none with the same path and text is stored, as often as it is given, and nothing else. */
  lemma {:induction false} AcceptedRunAdds(comments: seq<Comment>, cap: int, store: seq<Comment>)
    requires cap >= 1
    ensures var gs := Batches(Pending(comments, KeySet(store)), cap);
            && gs.Ok?
            && var o := RunOnce(Some(KeySet(store)), AllAccepted(|gs.value|), comments, cap, store);
            && store <= o.store && Clean(o.report) && |o.report.posted| == |gs.value|
            && forall c :: multiset(o.store)[c]
                        == multiset(store)[c] + if Held(c, store) then 0 else multiset(comments)[c]
  {
    var todo := Pending(comments, KeySet(store));
    GroupsRearrange(todo, cap);
    var gs := Batches(todo, cap).value;
    SubmitAccepted(gs, store);
    var o := Submit(gs, AllAccepted(|gs|), store);
    assert o.store == store + Flatten(gs);
    forall c ensures multiset(o.store)[c]
                  == multiset(store)[c] + if Held(c, store) then 0 else multiset(comments)[c]
    {
      PendingAreNew(comments, store, c);
      assert multiset(Flatten(gs))[c] == multiset(todo)[c];
    }
  }

  /** A run that cannot read what is there stores nothing, says so, and leaves every comment. */
  lemma {:induction false} UnreadableRun(script: seq<Answer>, comments: seq<Comment>, cap: int, store: seq<Comment>)
    ensures var o := RunOnce(None, script, comments, cap, store);
            && o.store == store && !Clean(o.report) && !o.report.Died?
            && (cap >= 1 ==> o.report.Returned?)
            && (o.report.Returned? ==> o.report.posted == [] && o.report.errors != [])
            && (cap >= 1 ==> multiset(Flatten(o.report.left)) == multiset(comments))
  {
    if cap >= 1 {
      GroupsRearrange(comments, cap);
    }
  }

  /** With a first GET that misses nothing, comments with distinct keys are fresh. */
  lemma {:induction false} CompleteListIsFresh(comments: seq<Comment>, have: set<Key>, store: seq<Comment>)
    requires AtMostOnce(comments) && KeySet(store) <= have
    ensures Fresh(Pending(comments, have), store)
  {
    PendingKeys(comments, have);
    forall k ensures multiset(Keys(Pending(comments, have)))[k] <= 1 {
      assert multiset(Keys(comments))[k] <= 1;
    }
  }

  /** A run of the command: what its first GET shows, if it works, and then everything else that
      decides it.  A review that an earlier run lost and that lands later is one not shown. */
  datatype Run = Run(shown: Option<set<Key>>, script: seq<Answer>, comments: seq<Comment>, cap: int)

  function Perform(r: Run, store: seq<Comment>): Outcome {
    RunOnce(r.shown, r.script, r.comments, r.cap, store)
  }

  function History(runs: seq<Run>, store: seq<Comment>): seq<Comment> {
    if runs == [] then store else History(runs[1..], Perform(runs[0], store).store)
  }

  /** What the run is about to post has distinct keys that are not stored. */
  ghost predicate Careful(r: Run, store: seq<Comment>) {
    r.shown.Some? && r.cap >= 1 ==> Fresh(Pending(r.comments, r.shown.value), store)
  }

  ghost predicate AllCareful(runs: seq<Run>, store: seq<Comment>)
    decreases |runs|
  {
    runs == [] || (Careful(runs[0], store) && AllCareful(runs[1..], Perform(runs[0], store).store))
  }

  /** The same runs with other answers of the server. */
  predicate Alike(runs: seq<Run>, others: seq<Run>) {
    if runs == [] then others == []
    else others != [] && others[0] == runs[0].(script := others[0].script) && Alike(runs[1..], others[1..])
  }

  lemma {:induction false} AlikeSelf(runs: seq<Run>)
    ensures Alike(runs, runs)
  {
    if runs != [] {
      AlikeSelf(runs[1..]);
    }
  }

  lemma {:induction false} CarefulRun(r: Run, store: seq<Comment>)
    requires AtMostOnce(store) && Careful(r, store)
    ensures AtMostOnce(Perform(r, store).store)
  {
    if r.shown.Some? && r.cap >= 1 {
      OneRunAtMostOnceIff(r.shown.value, r.comments, r.cap, store);
    }
  }

  lemma {:induction false} CarelessRun(r: Run, store: seq<Comment>) returns (worse: Run)
    requires AtMostOnce(store) && !Careful(r, store)
    ensures worse == r.(script := worse.script) && !AtMostOnce(Perform(worse, store).store)
  {
    OneRunAtMostOnceIff(r.shown.value, r.comments, r.cap, store);
    var script :| !AtMostOnce(RunOnce(Some(r.shown.value), script, r.comments, r.cap, store).store);
    worse := r.(script := script);
  }

  lemma {:induction false} SubmitStores(groups: seq<seq<Comment>>, script: seq<Answer>, store: seq<Comment>, k: Key)
    ensures multiset(Keys(store))[k] <= multiset(Keys(Submit(groups, script, store).store))[k]
  {
    if groups != [] && script != [] {
      AfterAdds(store, groups[0], script[0], k);
      SubmitStores(groups[1..], script[1..], After(store, groups[0], script[0]), k);
      SubmitStore(groups, script, store);
    }
  }

  lemma {:induction false} PerformStores(r: Run, store: seq<Comment>, k: Key)
    ensures multiset(Keys(store))[k] <= multiset(Keys(Perform(r, store).store))[k]
  {
    if r.shown.Some? && Batches(Pending(r.comments, r.shown.value), r.cap).Ok? {
      SubmitStores(Batches(Pending(r.comments, r.shown.value), r.cap).value, r.script, store, k);
    }
  }

  /** What is stored twice stays so. */
  lemma {:induction false} StaysTwice(runs: seq<Run>, store: seq<Comment>)
    requires !AtMostOnce(store)
    ensures !AtMostOnce(History(runs, store))
    decreases |runs|
  {
    if runs != [] {
      var k :| multiset(Keys(store))[k] > 1;
      PerformStores(runs[0], store, k);
      StaysTwice(runs[1..], Perform(runs[0], store).store);
    }
  }

  lemma {:induction false} CarefulRunsAreSafe(runs: seq<Run>, store: seq<Comment>)
    requires AtMostOnce(store) && AllCareful(runs, store)
    ensures AtMostOnce(History(runs, store))
    decreases |runs|
  {
    if runs != [] {
      CarefulRun(runs[0], store);
      CarefulRunsAreSafe(runs[1..], Perform(runs[0], store).store);
    }
  }

  /** Where some run is not careful, the server can answer so that a key is stored twice. */
  lemma {:induction false} CarelessRunsRepeat(runs: seq<Run>, store: seq<Comment>) returns (worse: seq<Run>)
    requires AtMostOnce(store) && !AllCareful(runs, store)
    ensures Alike(runs, worse) && !AtMostOnce(History(worse, store))
    decreases |runs|
  {
    var first, later: seq<Run> := runs[0], runs[1..];
    if Careful(first, store) {
      CarefulRun(first, store);
      later := CarelessRunsRepeat(later, Perform(first, store).store);
    } else {
      first := CarelessRun(first, store);
      AlikeSelf(later);
      StaysTwice(later, Perform(first, store).store);
    }
    worse := [first] + later;
    assert worse[0] == first && worse[1..] == later;
  }

  /** Over any sequence of runs no key is ever stored twice, whatever the server answers, exactly when
      every run is about to post only distinct keys that are not stored, whatever was answered before. */
  lemma {:induction false} RunsStoreAtMostOnceIff(runs: seq<Run>, store: seq<Comment>)
    requires AtMostOnce(store)
    ensures (forall others | Alike(runs, others) :: AtMostOnce(History(others, store)))
       <==> (forall others | Alike(runs, others) :: AllCareful(others, store))
  {
    if others :| Alike(runs, others) && !AllCareful(others, store) {
      var worse := CarelessRunsRepeat(others, store);
      AlikeTrans(runs, others, worse);
    } else {
      forall others | Alike(runs, others) ensures AtMostOnce(History(others, store)) {
        CarefulRunsAreSafe(others, store);
      }
    }
  }

  lemma {:induction false} AlikeTrans(a: seq<Run>, b: seq<Run>, c: seq<Run>)
    requires Alike(a, b) && Alike(b, c)
    ensures Alike(a, c)
  {
    if a != [] {
      AlikeTrans(a[1..], b[1..], c[1..]);
    }
  }

  /** The first GET of the run shows all that is stored then. */
  predicate Informed(r: Run, store: seq<Comment>) {
    r.shown.Some? ==> KeySet(store) <= r.shown.value
  }

  predicate AllInformed(runs: seq<Run>, store: seq<Comment>)
    decreases |runs|
  {
    runs == [] || (Informed(runs[0], store) && AllInformed(runs[1..], Perform(runs[0], store).store))
  }

  lemma {:induction false} InformedRun(r: Run, store: seq<Comment>)
    requires AtMostOnce(store) && AtMostOnce(r.comments) && Informed(r, store)
    ensures Careful(r, store) && AtMostOnce(Perform(r, store).store)
  {
    if r.shown.Some? {
      CompleteListIsFresh(r.comments, r.shown.value, store);
    }
    CarefulRun(r, store);
  }

  /** So a key is stored at most once over all runs whose first GETs miss nothing, each crashing or
      losing answers as it may. */
  lemma {:induction false} RunsStoreAtMostOnce(runs: seq<Run>, store: seq<Comment>)
    requires AtMostOnce(store) && AllInformed(runs, store)
    requires forall r | r in runs :: AtMostOnce(r.comments)
    ensures AllCareful(runs, store) && AtMostOnce(History(runs, store))
    decreases |runs|
  {
    if runs != [] {
      var r := runs[0];
      assert r in runs;
      InformedRun(r, store);
      RunsStoreAtMostOnce(runs[1..], Perform(r, store).store);
    }
  }

  // ---------------------------------------------------------------- nothing is lost from the report

  function PostedGroups(ps: seq<Posted>): seq<seq<Comment>> {
    if ps == [] then [] else [ps[0].group] + PostedGroups(ps[1..])
  }

  function RefusedGroups(fs: seq<Failure>): seq<seq<Comment>> {
    if fs == [] then []
    else (if fs[0].Refused? then [fs[0].group] else []) + RefusedGroups(fs[1..])
  }

  lemma {:induction false} NoHits(ks: seq<Key>, have: Option<set<Key>>)
    requires have.Some? ==> forall k | k in ks :: k !in have.value
    ensures Hits(ks, have) == 0
  {
    if ks != [] {
      NoHits(ks[..|ks| - 1], have);
    }
  }

  /** A confirmed submission was created, provided none of its keys was stored before. */
  lemma {:induction false} ConfirmedMeansCreated(store: seq<Comment>, g: seq<Comment>, a: Answer, get: nat)
    requires a.Lost? && Confirmed(store, g, a, get) > 0
    requires forall c | c in g :: KeyOf(c) !in KeySet(store)
    ensures After(store, g, a) == store + g
    decreases CONFIRM_TRIES - get
  {
    if a.landing.Never? {
      NoHits(Keys(g), View(store, g, a, get));
      ConfirmedMeansCreated(store, g, a, get + 1);
    }
  }

  /** A returned report puts every group in exactly one place: posted, refused, or left over; what
      is left over is the last groups, and the first of them is the last error. */
  ghost predicate PlacesEveryGroup(groups: seq<seq<Comment>>, r: Report) {
    r.Returned? ==>
      && multiset(PostedGroups(r.posted)) + multiset(RefusedGroups(r.errors)) + multiset(r.left) == multiset(groups)
      && |r.left| <= |groups|
      && r.left == groups[|groups| - |r.left|..]
      && (r.left != [] ==> r.errors != [] && r.errors[|r.errors| - 1] == Unconfirmed(r.left[0]))
  }

  lemma {:induction false} OneGroupMore(groups: seq<seq<Comment>>, posted: seq<seq<Comment>>,
                                        refused: seq<seq<Comment>>, left: seq<seq<Comment>>)
    requires groups != []
    requires multiset(posted) + multiset(refused) + multiset(left) == multiset(groups[1..])
    ensures multiset([groups[0]] + posted) + multiset(refused) + multiset(left) == multiset(groups)
    ensures multiset(posted) + multiset([groups[0]] + refused) + multiset(left) == multiset(groups)
  {
    assert groups == [groups[0]] + groups[1..];
  }

  lemma {:induction false} PlacedPosted(groups: seq<seq<Comment>>, p: Posted, o: Outcome)
    requires groups != [] && p.group == groups[0]
    requires PlacesEveryGroup(groups[1..], o.report)
    ensures PlacesEveryGroup(groups, AlsoPosted(p, o).report)
  {
    if o.report.Returned? {
      var Returned(posted, errors, left) := o.report;
      assert ([p] + posted)[1..] == posted;
      OneGroupMore(groups, PostedGroups(posted), RefusedGroups(errors), left);
      assert groups[1..][|groups[1..]| - |left|..] == groups[|groups| - |left|..];
    }
  }

  lemma {:induction false} PlacedRefused(groups: seq<seq<Comment>>, o: Outcome)
    requires groups != []
    requires PlacesEveryGroup(groups[1..], o.report)
    ensures PlacesEveryGroup(groups, AlsoFailed(Refused(groups[0]), o).report)
  {
    if o.report.Returned? {
      var Returned(posted, errors, left) := o.report;
      assert ([Refused(groups[0])] + errors)[1..] == errors;
      OneGroupMore(groups, PostedGroups(posted), RefusedGroups(errors), left);
      assert groups[1..][|groups[1..]| - |left|..] == groups[|groups| - |left|..];
    }
  }

  lemma {:induction false} SubmitPlaces(groups: seq<seq<Comment>>, script: seq<Answer>, store: seq<Comment>)
    ensures PlacesEveryGroup(groups, Submit(groups, script, store).report)
  {
    if groups != [] && script != [] {
      var g, a := groups[0], script[0];
      var rest := Submit(groups[1..], script[1..], After(store, g, a));
      SubmitPlaces(groups[1..], script[1..], After(store, g, a));
      PlacedRefused(groups, rest);
      if a.Accepted? {
        PlacedPosted(groups, Posted(g, None), rest);
      } else if a.Lost? && Confirmed(store, g, a, 0) > 0 {
        PlacedPosted(groups, Posted(g, Some(Confirmed(store, g, a, 0))), rest);
      } else if a.Lost? {
        assert groups[0..] == groups;
        assert [Unconfirmed(g)][1..] == [];
      }
    }
  }

  function Grown(store: seq<Comment>, posted: seq<Posted>): seq<Comment>
    decreases posted
  {
    if posted == [] then store else Grown(store + posted[0].group, posted[1..])
  }

  /** The store after a run that returned: what it held, the posted groups in order, and perhaps,
      late, the first group left over. */
  ghost predicate GrowsByPosted(store: seq<Comment>, o: Outcome) {
    o.report.Returned? ==>
      var grown := Grown(store, o.report.posted);
      o.store == grown || (o.report.left != [] && o.store == grown + o.report.left[0])
  }

  lemma {:induction false} GrowsPosted(store: seq<Comment>, p: Posted, o: Outcome)
    requires GrowsByPosted(store + p.group, o)
    ensures GrowsByPosted(store, AlsoPosted(p, o))
  {
    if o.report.Returned? {
      assert ([p] + o.report.posted)[1..] == o.report.posted;
    }
  }

  lemma {:induction false} OnceOfParts(store: seq<Comment>, g: seq<Comment>, rest: seq<Comment>)
    requires AtMostOnce(store + (g + rest))
    ensures AtMostOnce(store) && AtMostOnce(store + g) && AtMostOnce((store + g) + rest) && AtMostOnce(store + rest)
  {
    forall k
      ensures multiset(Keys(store + g))[k] <= 1 && multiset(Keys(store))[k] <= 1
      ensures multiset(Keys((store + g) + rest))[k] <= 1 && multiset(Keys(store + rest))[k] <= 1
    {
      assert multiset(Keys(store + (g + rest)))[k] <= 1;
      KeysConcat(store, g + rest);
      KeysConcat(g, rest);
      KeysConcat(store, g);
      KeysConcat(store + g, rest);
      KeysConcat(store, rest);
    }
  }

  lemma {:induction false} GrowsStep(groups: seq<seq<Comment>>, script: seq<Answer>, store: seq<Comment>)
    requires groups != [] && script != []
    requires forall c | c in groups[0] :: KeyOf(c) !in KeySet(store)
    requires var after := After(store, groups[0], script[0]);
             GrowsByPosted(after, Submit(groups[1..], script[1..], after))
    ensures GrowsByPosted(store, Submit(groups, script, store))
  {
    var g, a := groups[0], script[0];
    var rest := Submit(groups[1..], script[1..], After(store, g, a));
    match a
    case Accepted => GrowsPosted(store, Posted(g, None), rest);
    case Rejected =>
    case Killed(_) =>
    case Lost(_, _) =>
      var n := Confirmed(store, g, a, 0);
      if n > 0 {
        ConfirmedMeansCreated(store, g, a, 0);
        GrowsPosted(store, Posted(g, Some(n)), rest);
      }
  }

  lemma {:induction false} SubmitGrows(groups: seq<seq<Comment>>, script: seq<Answer>, store: seq<Comment>)
    requires AtMostOnce(store + Flatten(groups))
    ensures GrowsByPosted(store, Submit(groups, script, store))
  {
    if groups != [] && script != [] {
      var g, a := groups[0], script[0];
      OnceOfParts(store, g, Flatten(groups[1..]));
      FreshMeansOnce(g, store);
      SubmitGrows(groups[1..], script[1..], After(store, g, a));
      GrowsStep(groups, script, store);
    }
  }

  lemma {:induction false} PendingSplits(have: set<Key>, comments: seq<Comment>, cap: int, store: seq<Comment>)
    requires cap >= 1 && AtMostOnce(store) && Fresh(Pending(comments, have), store)
    ensures var gs := Batches(Pending(comments, have), cap);
            gs.Ok? && AtMostOnce(store + Flatten(gs.value))
  {
    var todo := Pending(comments, have);
    GroupsRearrange(todo, cap);
    var gs := Batches(todo, cap).value;
    FreshMeansOnce(todo, store);
    KeysPermute(Flatten(gs), todo);
    KeysConcat(store, todo);
    KeysConcat(store, Flatten(gs));
    forall k ensures multiset(Keys(store + Flatten(gs)))[k] <= 1 {
      assert multiset(Keys(store + todo))[k] <= 1;
    }
  }

  lemma {:induction false} GrownHolds(store: seq<Comment>, posted: seq<Posted>, c: Comment)
    requires c in store || exists p :: p in posted && c in p.group
    ensures c in Grown(store, posted)
    decreases posted
  {
    if posted != [] {
      GrownHolds(store + posted[0].group, posted[1..], c);
    }
  }

  lemma {:induction false} StoredIfGrown(c: Comment, posted: seq<Posted>, store: seq<Comment>, o: Outcome)
    requires GrowsByPosted(store, o) && o.report.Returned? && o.report.posted == posted
    requires (exists p :: p in posted && c in p.group) || KeyOf(c) in KeySet(store)
    ensures KeyOf(c) in KeySet(o.store)
  {
    var d := c;
    if !exists p :: p in posted && c in p.group {
      KeyCounted(store, KeyOf(c));
      d :| d in store && KeyOf(d) == KeyOf(c);
    }
    GrownHolds(store, posted, d);
    assert d in o.store;
    KeyCounted(o.store, KeyOf(c));
  }

  /** A comment's place after a run. */
  ghost predicate Settled(c: Comment, o: Outcome)
    requires o.report.Returned?
  {
    || KeyOf(c) in KeySet(o.store)
    || (exists g :: g in RefusedGroups(o.report.errors) && c in g)
    || (exists g :: g in o.report.left && c in g)
  }

  /** After a run that returns, whatever its first GET showed, every pending group is posted, refused
      or left over.  If the pending comments have new and distinct keys, the store has grown by
      exactly the posted groups (and perhaps, late, by the first one left over), and every comment
      that was not skipped wrongly is stored, refused or left over. */
  lemma {:induction false} RunAccounts(have: set<Key>, script: seq<Answer>, comments: seq<Comment>, cap: int,
                                       store: seq<Comment>)
    requires cap >= 1
    ensures var o := RunOnce(Some(have), script, comments, cap, store);
            var gs := Batches(Pending(comments, have), cap);
            && gs.Ok?
            && PlacesEveryGroup(gs.value, o.report)
            && (AtMostOnce(store) && Fresh(Pending(comments, have), store) ==>
                  GrowsByPosted(store, o)
                  && (o.report.Returned? ==>
                    forall c | c in comments && SkippedRightly(c, have, store) :: Settled(c, o)))
  {
    var todo := Pending(comments, have);
    GroupsRearrange(todo, cap);
    var gs := Batches(todo, cap).value;
    SubmitPlaces(gs, script, store);
    if AtMostOnce(store) && Fresh(todo, store) {
      PendingSplits(have, comments, cap, store);
      SubmitGrows(gs, script, store);
      var o := Submit(gs, script, store);
      if o.report.Returned? {
        forall c | c in comments && SkippedRightly(c, have, store) ensures Settled(c, o) {
          CommentSettled(c, have, comments, cap, store, o);
        }
      }
    }
  }

  /** If the first GET shows the comment, it is stored. */
  predicate SkippedRightly(c: Comment, have: set<Key>, store: seq<Comment>) {
    KeyOf(c) in have ==> KeyOf(c) in KeySet(store)
  }

  lemma {:induction false} CommentSettled(c: Comment, have: set<Key>, comments: seq<Comment>, cap: int,
                                          store: seq<Comment>, o: Outcome)
    requires cap >= 1 && c in comments && o.report.Returned? && SkippedRightly(c, have, store)
    requires var gs := Batches(Pending(comments, have), cap);
             gs.Ok? && PlacesEveryGroup(gs.value, o.report)
    requires GrowsByPosted(store, o)
    ensures Settled(c, o)
  {
    var todo := Pending(comments, have);
    PendingKeys(comments, have);
    if c !in todo {
      StoredIfGrown(c, o.report.posted, store, o);
    } else {
      var g := GroupOf(c, todo, cap);
      assert g in multiset(Batches(todo, cap).value);
      if g in multiset(PostedGroups(o.report.posted)) {
        var p := PostedWith(g, o.report.posted);
        StoredIfGrown(c, o.report.posted, store, o);
      }
    }
  }

  lemma {:induction false} GroupOf(c: Comment, todo: seq<Comment>, cap: int) returns (g: seq<Comment>)
    requires cap >= 1 && c in todo
    ensures Batches(todo, cap).Ok? && g in Batches(todo, cap).value && c in g
  {
    GroupsRearrange(todo, cap);
    var gs := Batches(todo, cap).value;
    assert c in multiset(todo);
    assert c in multiset(Flatten(gs));
    var i := FromFlatten(gs, c);
    g := gs[i];
  }

  lemma {:induction false} PostedWith(g: seq<Comment>, posted: seq<Posted>) returns (p: Posted)
    requires g in PostedGroups(posted)
    ensures p in posted && p.group == g
  {
    p := posted[0];
    if p.group != g {
      p := PostedWith(g, posted[1..]);
    }
  }

  ghost predicate Clean(r: Report) {
    r.Returned? && r.errors == [] && r.left == []
  }

  ghost predicate AllPresent(comments: seq<Comment>, store: seq<Comment>) {
    forall c | c in comments :: Held(c, store)
  }

  predicate KeysPresent(comments: seq<Comment>, store: seq<Comment>) {
    forall c | c in comments :: KeyOf(c) in KeySet(store)
  }

  lemma {:induction false} PresentIff(comments: seq<Comment>, store: seq<Comment>)
    ensures AllPresent(comments, store) <==> KeysPresent(comments, store)
  {
    forall c | c in comments ensures KeyOf(c) in KeySet(store) <==> Held(c, store) {
      HeldIff(c, store);
    }
  }

  /** Whether every group with the key k can be confirmed by another key although it is never created:
      each holds a key that is stored already or comes with an earlier group without k. */
  predicate Masked(groups: seq<seq<Comment>>, store: seq<Comment>, k: Key) {
    groups == [] ||
    if k in KeySet(groups[0]) then KeySet(groups[0]) * KeySet(store) != {} && Masked(groups[1..], store, k)
    else Masked(groups[1..], store + groups[0], k)
  }

  lemma {:induction false} KeySetConcat(a: seq<Comment>, b: seq<Comment>)
    ensures KeySet(a + b) == KeySet(a) + KeySet(b)
  {
    KeysConcat(a, b);
    assert forall k :: k in KeySet(a + b) <==> k in Keys(a) + Keys(b);
  }

  lemma {:induction false} MaskedGrows(groups: seq<seq<Comment>>, a: seq<Comment>, b: seq<Comment>, k: Key)
    requires KeySet(a) <= KeySet(b) && Masked(groups, a, k)
    ensures Masked(groups, b, k)
  {
    if groups != [] {
      KeySetConcat(a, groups[0]);
      KeySetConcat(b, groups[0]);
      if k in KeySet(groups[0]) {
        MaskedGrows(groups[1..], a, b, k);
      } else {
        MaskedGrows(groups[1..], a + groups[0], b + groups[0], k);
      }
    }
  }

  lemma {:induction false} SubmitKeeps(groups: seq<seq<Comment>>, script: seq<Answer>, store: seq<Comment>)
    ensures KeySet(store) <= KeySet(Submit(groups, script, store).store)
  {
    if groups != [] && script != [] {
      KeySetConcat(store, groups[0]);
      SubmitStore(groups, script, store);
      SubmitKeeps(groups[1..], script[1..], After(store, groups[0], script[0]));
    }
  }

  lemma {:induction false} HitsNeedAKey(ks: seq<Key>, have: Option<set<Key>>)
    requires Hits(ks, have) > 0
    ensures have.Some? && exists k :: k in ks && k in have.value
  {
    if !(have.Some? && ks[|ks| - 1] in have.value) {
      HitsNeedAKey(ks[..|ks| - 1], have);
    }
  }

  lemma {:induction false} ConfirmedNeedsAKey(store: seq<Comment>, g: seq<Comment>, a: Answer, get: nat)
    requires a.Lost? && a.landing.Never? && Confirmed(store, g, a, get) > 0
    ensures KeySet(g) * KeySet(store) != {}
    decreases CONFIRM_TRIES - get
  {
    if Hits(Keys(g), View(store, g, a, get)) > 0 {
      HitsNeedAKey(Keys(g), View(store, g, a, get));
      var k :| k in Keys(g) && k in View(store, g, a, get).value;
      assert k in KeySet(g) * KeySet(store);
    } else {
      ConfirmedNeedsAKey(store, g, a, get + 1);
    }
  }

  /** A key that a clean run does not bring to the store was masked. */
  lemma {:induction false} MissingIsMasked(groups: seq<seq<Comment>>, script: seq<Answer>, store: seq<Comment>, k: Key)
    requires Clean(Submit(groups, script, store).report) && k !in KeySet(Submit(groups, script, store).store)
    ensures Masked(groups, store, k)
  {
    if groups != [] {
      var g := groups[0];
      var after := After(store, g, script[0]);
      MissingIsMasked(groups[1..], script[1..], after, k);
      KeySetConcat(store, g);
      SubmitKeeps(groups[1..], script[1..], after);
      if k in KeySet(g) {
        ConfirmedNeedsAKey(store, g, script[0], 0);
      } else {
        MaskedGrows(groups[1..], after, store + g, k);
      }
    }
  }

  /** The answers that hide k: groups with k are lost and never created, the others are accepted. */
  function Hiding(groups: seq<seq<Comment>>, k: Key): seq<Answer> {
    if groups == [] then []
    else
      [if k in KeySet(groups[0]) then Lost(Never, [Some(KeySet(groups[0]))]) else Accepted] + Hiding(groups[1..], k)
  }

  lemma {:induction false} KeyHits(ks: seq<Key>, have: Option<set<Key>>, k: Key)
    requires k in ks && have.Some? && k in have.value
    ensures Hits(ks, have) > 0
  {
    if ks[|ks| - 1] != k {
      KeyHits(ks[..|ks| - 1], have, k);
    }
  }

  lemma {:induction false} OverlapConfirms(store: seq<Comment>, g: seq<Comment>)
    requires KeySet(g) * KeySet(store) != {}
    ensures Confirmed(store, g, Lost(Never, [Some(KeySet(g))]), 0) > 0
  {
    var a := Lost(Never, [Some(KeySet(g))]);
    var k :| k in KeySet(g) * KeySet(store);
    KeyHits(Keys(g), View(store, g, a, 0), k);
  }

  lemma {:induction false} MaskedIsHidden(groups: seq<seq<Comment>>, store: seq<Comment>, k: Key)
    requires Masked(groups, store, k) && k !in KeySet(store)
    ensures Clean(Submit(groups, Hiding(groups, k), store).report)
    ensures k !in KeySet(Submit(groups, Hiding(groups, k), store).store)
  {
    if groups != [] {
      var g := groups[0];
      assert Hiding(groups, k)[1..] == Hiding(groups[1..], k);
      KeySetConcat(store, g);
      if k in KeySet(g) {
        OverlapConfirms(store, g);
        MaskedIsHidden(groups[1..], store, k);
      } else {
        MaskedIsHidden(groups[1..], store + g, k);
      }
    }
  }

  lemma {:induction false} CleanMeansKeysIff(have: set<Key>, comments: seq<Comment>, cap: int, store: seq<Comment>)
    ensures (forall script ::
               Clean(RunOnce(Some(have), script, comments, cap, store).report) ==>
               KeysPresent(comments, RunOnce(Some(have), script, comments, cap, store).store))
       <==> (var gs := Batches(Pending(comments, have), cap);
             gs.Ok? ==> forall c | c in comments :: KeyOf(c) in KeySet(store) || !Masked(gs.value, store, KeyOf(c)))
  {
    var gs := Batches(Pending(comments, have), cap);
    if gs.Ok? {
      if c :| c in comments && KeyOf(c) !in KeySet(store) && Masked(gs.value, store, KeyOf(c)) {
        var script := Hiding(gs.value, KeyOf(c));
        MaskedIsHidden(gs.value, store, KeyOf(c));
        assert Clean(RunOnce(Some(have), script, comments, cap, store).report);
      } else {
        forall script | Clean(RunOnce(Some(have), script, comments, cap, store).report)
          ensures KeysPresent(comments, RunOnce(Some(have), script, comments, cap, store).store)
        {
          CleanBrings(have, script, comments, cap, store);
        }
      }
    }
  }

  /** A report without errors and without remaining groups means that every comment is stored, for
      every script and whatever the first GET showed, exactly when every key that is not stored is
      pending in some group that no other key can confirm. */
  lemma {:induction false} CleanMeansPresentIff(have: set<Key>, comments: seq<Comment>, cap: int, store: seq<Comment>)
    ensures (forall script ::
               Clean(RunOnce(Some(have), script, comments, cap, store).report) ==>
               AllPresent(comments, RunOnce(Some(have), script, comments, cap, store).store))
       <==> (var gs := Batches(Pending(comments, have), cap);
             gs.Ok? ==> forall c | c in comments :: KeyOf(c) in KeySet(store) || !Masked(gs.value, store, KeyOf(c)))
  {
    CleanMeansKeysIff(have, comments, cap, store);
    forall script {
      PresentIff(comments, RunOnce(Some(have), script, comments, cap, store).store);
    }
  }

  lemma {:induction false} CleanBrings(have: set<Key>, script: seq<Answer>, comments: seq<Comment>, cap: int,
                                       store: seq<Comment>)
    requires var gs := Batches(Pending(comments, have), cap);
             gs.Ok? && forall c | c in comments :: KeyOf(c) in KeySet(store) || !Masked(gs.value, store, KeyOf(c))
    requires Clean(RunOnce(Some(have), script, comments, cap, store).report)
    ensures KeysPresent(comments, RunOnce(Some(have), script, comments, cap, store).store)
  {
    var gs := Batches(Pending(comments, have), cap).value;
    SubmitKeeps(gs, script, store);
    forall c | c in comments ensures KeyOf(c) in KeySet(Submit(gs, script, store).store) {
      if KeyOf(c) !in KeySet(Submit(gs, script, store).store) {
        MissingIsMasked(gs, script, store, KeyOf(c));
      }
    }
  }

  lemma {:induction false} CleanSettled(comments: seq<Comment>, o: Outcome)
    requires Clean(o.report) && forall c | c in comments :: Settled(c, o)
    ensures KeysPresent(comments, o.store)
  {
  }

  /** With a complete first GET and distinct keys, every comment is stored, refused or left over. */
  lemma {:induction false} CompleteRunSettles(script: seq<Answer>, comments: seq<Comment>, cap: int,
                                              store: seq<Comment>)
    requires cap >= 1 && AtMostOnce(store) && AtMostOnce(comments)
    ensures var o := RunOnce(Some(KeySet(store)), script, comments, cap, store);
            o.report.Returned? ==> forall c | c in comments :: Settled(c, o)
  {
    var have := KeySet(store);
    CompleteListIsFresh(comments, KeySet(store), store);
    RunAccounts(have, script, comments, cap, store);
    forall c | c in comments ensures SkippedRightly(c, have, store) {
    }
  }

  lemma {:induction false} CompleteCleanBrings(script: seq<Answer>, comments: seq<Comment>, cap: int,
                                               store: seq<Comment>)
    requires AtMostOnce(store) && AtMostOnce(comments) && (cap >= 0 || Pending(comments, KeySet(store)) == [])
    requires Clean(RunOnce(Some(KeySet(store)), script, comments, cap, store).report)
    ensures KeysPresent(comments, RunOnce(Some(KeySet(store)), script, comments, cap, store).store)
  {
    if cap >= 1 {
      CompleteRunSettles(script, comments, cap, store);
      CleanSettled(comments, RunOnce(Some(KeySet(store)), script, comments, cap, store));
    } else {
      PendingKeys(comments, KeySet(store));
      assert Pending(comments, KeySet(store)) == [];
    }
  }

  lemma {:induction false} CompleteListKeysIff(comments: seq<Comment>, cap: int, store: seq<Comment>)
    requires AtMostOnce(store) && AtMostOnce(comments)
    ensures (forall script ::
               Clean(RunOnce(Some(KeySet(store)), script, comments, cap, store).report) ==>
               KeysPresent(comments, RunOnce(Some(KeySet(store)), script, comments, cap, store).store))
       <==> (cap >= 0 || Pending(comments, KeySet(store)) == [])
  {
    var todo := Pending(comments, KeySet(store));
    PendingKeys(comments, KeySet(store));
    if cap >= 0 || todo == [] {
      forall script | Clean(RunOnce(Some(KeySet(store)), script, comments, cap, store).report)
        ensures KeysPresent(comments, RunOnce(Some(KeySet(store)), script, comments, cap, store).store)
      {
        CompleteCleanBrings(script, comments, cap, store);
      }
    } else {
      var o := RunOnce(Some(KeySet(store)), [], comments, cap, store);
      assert todo[0] in todo;
      assert Clean(o.report) && !KeysPresent(comments, o.store);
    }
  }

  /** With a complete first GET and distinct keys that is so exactly when the cap is not negative or
      nothing is pending: with a negative cap the run reports success and posts nothing. */
  lemma {:induction false} CompleteListIff(comments: seq<Comment>, cap: int, store: seq<Comment>)
    requires AtMostOnce(store) && AtMostOnce(comments)
    ensures (forall script ::
               Clean(RunOnce(Some(KeySet(store)), script, comments, cap, store).report) ==>
               AllPresent(comments, RunOnce(Some(KeySet(store)), script, comments, cap, store).store))
       <==> (cap >= 0 || Pending(comments, KeySet(store)) == [])
  {
    CompleteListKeysIff(comments, cap, store);
    forall script {
      PresentIff(comments, RunOnce(Some(KeySet(store)), script, comments, cap, store).store);
    }
  }

  /** Running the same command again after any first run, now with every submission accepted,
      brings every comment to the server exactly once and keeps what was there. */
  lemma {:induction false} SecondRunCompletes(first: Run, store: seq<Comment>)
    requires AtMostOnce(store) && AtMostOnce(first.comments) && first.cap >= 1
    requires Informed(first, store)
    ensures var middle := Perform(first, store).store;
            var todo := Pending(first.comments, KeySet(middle));
            && Batches(todo, first.cap).Ok?
            && var gs := Batches(todo, first.cap).value;
               var second := first.(shown := Some(KeySet(middle)), script := AllAccepted(|gs|));
               var end := Perform(second, middle);
            && Clean(end.report)
            && middle <= end.store
            && AtMostOnce(end.store)
            && AllPresent(first.comments, end.store)
  {
    var middle := Perform(first, store).store;
    InformedRun(first, store);
    var todo := Pending(first.comments, KeySet(middle));
    GroupsRearrange(todo, first.cap);
    var gs := Batches(todo, first.cap).value;
    var second := first.(shown := Some(KeySet(middle)), script := AllAccepted(|gs|));
    SubmitAccepted(gs, middle);
    InformedRun(second, middle);
    CompleteListIff(first.comments, first.cap, middle);
  }
}
