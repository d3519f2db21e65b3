/**
  Grouping the batches of a large review by their main file (_batch_index in
  tools/harness/pipeline.py): the groups keep the order, and no grouping under the same limits
  needs fewer of them.
 */
module BatchIndex {
  import opened Collections

  /** How many changed functions of a file a batch holds. */
  datatype Count = Count(file: string, n: nat)

  /** A dictionary from file to number, in the order of insertion. */
  type Counts = seq<Count>

  function Files(c: Counts): (s: set<string>)
    ensures s == {} <==> c == []
  {
    if c == [] then {} else {c[0].file} + Files(c[1..])
  }

  predicate IsDict(c: Counts) {
    c == [] || (c[0].file !in Files(c[1..]) && IsDict(c[1..]))
  }

  datatype Batch = Batch(n: int, pack: string, counts: Counts)

  /** The order of strings, by code points. */
  predicate Less(a: string, b: string) {
    b != [] && (a == [] || a[0] < b[0] || (a[0] == b[0] && Less(a[1..], b[1..])))
  }

  /** The strings part at place i, and there a has ended or has the smaller character. */
  predicate PartsAt(a: string, b: string, i: nat) {
    i <= |a| && i < |b| && a[..i] == b[..i] && (i == |a| || a[i] < b[i])
  }

  lemma {:induction false} LessParts(a: string, b: string) returns (i: nat)
    requires Less(a, b)
    ensures PartsAt(a, b, i)
  {
    if a == [] || a[0] < b[0] {
      i := 0;
    } else {
      var k := LessParts(a[1..], b[1..]);
      i := k + 1;
      assert a[..i] == [a[0]] + a[1..][..k] && b[..i] == [b[0]] + b[1..][..k];
    }
  }

  lemma {:induction false} PartsLess(a: string, b: string, i: nat)
    requires PartsAt(a, b, i)
    ensures Less(a, b)
  {
    if i > 0 {
      assert a[0] == a[..i][0] == b[..i][0] == b[0];
      assert a[1..][..i - 1] == a[..i][1..] && b[1..][..i - 1] == b[..i][1..];
      PartsLess(a[1..], b[1..], i - 1);
    }
  }

  lemma {:induction false} LessIff(a: string, b: string)
    ensures Less(a, b) <==> exists i: nat :: PartsAt(a, b, i)
  {
    if Less(a, b) {
      var i := LessParts(a, b);
    }
    if i: nat :| PartsAt(a, b, i) {
      PartsLess(a, b, i);
    }
  }

  lemma {:induction false} LessIsTotal(a: string, b: string)
    ensures Less(a, b) || a == b || Less(b, a)
    ensures !(Less(a, b) && (a == b || Less(b, a)))
  {
    if a != [] && b != [] {
      LessIsTotal(a[1..], b[1..]);
      if a[0] == b[0] && a[1..] == b[1..] {
        assert a == [a[0]] + a[1..] && b == [b[0]] + b[1..];
      }
    }
  }

  lemma {:induction false} LessIsTransitive(a: string, b: string, c: string)
    requires Less(a, b) && Less(b, c)
    ensures Less(a, c)
  {
    if a != [] && a[0] == b[0] == c[0] {
      LessIsTransitive(a[1..], b[1..], c[1..]);
    }
  }

  /** The order that primary maximises: by number, then by name. */
  predicate Above(a: Count, b: Count) {
    a.n > b.n || (a.n == b.n && Less(b.file, a.file))
  }

  function Top(c: Counts): Count
    requires c != []
  {
    if |c| == 1 then c[0]
    else if Above(Top(c[1..]), c[0]) then Top(c[1..]) else c[0]
  }

  /** primary */
  function Primary(c: Counts): string {
    if c == [] then "" else Top(c).file
  }

  lemma {:induction false} AboveCarries(e: Count, a: Count, t: Count)
    requires Above(e, a) && !Above(t, a)
    ensures Above(e, t)
  {
    LessIsTotal(t.file, a.file);
    if e.n == t.n && Less(t.file, a.file) {
      LessIsTransitive(t.file, a.file, e.file);
    }
  }

  lemma {:induction false} AboveIsStrict(a: Count, b: Count)
    ensures !(Above(a, b) && (a == b || Above(b, a)))
  {
    LessIsTotal(a.file, b.file);
  }

  lemma {:induction false} TopIsTop(c: Counts)
    requires c != []
    ensures Top(c) in c && forall e | e in c :: !Above(e, Top(c))
  {
    AboveIsStrict(c[0], c[0]);
    if |c| > 1 {
      var t := Top(c[1..]);
      TopIsTop(c[1..]);
      AboveIsStrict(t, c[0]);
      forall e | e in c ensures !Above(e, Top(c)) {
        if e in c[1..] && !Above(t, c[0]) && Above(e, c[0]) {
          AboveCarries(e, c[0], t);
        }
      }
    }
  }

  /** The main file of a batch has the largest number and, among the files with that number, the
      greatest name. */
  lemma {:induction false} PrimaryIs(c: Counts, f: string)
    requires c != [] && IsDict(c)
    ensures Primary(c) == f <==>
      exists e :: e in c && e.file == f
                  && forall d | d in c && d != e ::
                       d.n < e.n || (d.n == e.n && exists i: nat :: PartsAt(d.file, e.file, i))
  {
    TopIsTop(c);
    var t := Top(c);
    forall d | d in c && d != t ensures d.n < t.n || (d.n == t.n && exists i: nat :: PartsAt(d.file, t.file, i)) {
      LessIff(d.file, t.file);
      LessIsTotal(d.file, t.file);
    }
    if e :| e in c && e.file == f
            && forall d | d in c && d != e :: d.n < e.n || (d.n == e.n && exists i: nat :: PartsAt(d.file, e.file, i))
    {
      LessIff(t.file, e.file);
    }
  }

  function Cap(maxGroup: int): nat {
    if maxGroup < 1 then 1 else maxGroup
  }

  /** A group as the plan allows it: not empty, of one main file, within the cap. */
  predicate Fit(g: seq<Batch>, maxGroup: int) {
    g != [] && |g| <= Cap(maxGroup) && forall i | 0 <= i < |g| :: Primary(g[i].counts) == Primary(g[0].counts)
  }

  predicate Grouping(gs: seq<seq<Batch>>, per: seq<Batch>, maxGroup: int) {
    Flatten(gs) == per && forall i | 0 <= i < |gs| :: Fit(gs[i], maxGroup)
  }

  /** No group could have taken the next batch: it has another main file, or the group is at the cap. */
  predicate Greedy(gs: seq<seq<Batch>>, maxGroup: int) {
    forall i: nat, j: nat | i + 1 == j < |gs| && gs[i] != [] && gs[j] != [] ::
      Main(gs[i]) != Main(gs[j]) || |gs[i]| == Cap(maxGroup)
  }

  function Main(g: seq<Batch>): string
    requires g != []
  {
    Primary(g[0].counts)
  }

  /** The number of groups the loop makes when the open group has k batches of main file p. */
  function Cost(k: nat, p: string, rest: seq<Batch>, maxGroup: int): nat
    decreases |rest|
  {
    if rest == [] then 1
    else
      var q := Primary(rest[0].counts);
      if q != p || k >= maxGroup then 1 + Cost(1, q, rest[1..], maxGroup) else Cost(k + 1, p, rest[1..], maxGroup)
  }

  /** The loop is never more than one group behind any other grouping, and not behind at all when
      its open group is no longer than the other's: k batches against k' of main file p' and the
      rest r of that group. */
  lemma {:induction false} StaysAhead(k: nat, p: string, k': nat, p': string, r: seq<Batch>, gs: seq<seq<Batch>>,
                                      maxGroup: int)
    requires k >= 1 && k' >= 1 && k' + |r| <= Cap(maxGroup)
    requires forall i | 0 <= i < |r| :: Primary(r[i].counts) == p'
    requires forall i | 0 <= i < |gs| :: Fit(gs[i], maxGroup)
    ensures Cost(k, p, r + Flatten(gs), maxGroup) <= 2 + |gs|
    ensures p == p' && k <= k' ==> Cost(k, p, r + Flatten(gs), maxGroup) <= 1 + |gs|
    decreases |gs|, |r|
  {
    var rest := r + Flatten(gs);
    if r != [] {
      assert rest[0] == r[0] && rest[1..] == r[1..] + Flatten(gs);
      StaysAhead(1, p', k' + 1, p', r[1..], gs, maxGroup);
      StaysAhead(k + 1, p, k' + 1, p', r[1..], gs, maxGroup);
    } else if gs != [] {
      var g := gs[0];
      assert Fit(g, maxGroup);
      assert rest[0] == g[0] && rest[1..] == g[1..] + Flatten(gs[1..]);
      StaysAhead(1, Primary(g[0].counts), 1, Primary(g[0].counts), g[1..], gs[1..], maxGroup);
      StaysAhead(k + 1, p, 1, Primary(g[0].counts), g[1..], gs[1..], maxGroup);
    }
  }

  /** The number of groups the loop makes. */
  function Groups(per: seq<Batch>, maxGroup: int): nat {
    if per == [] then 0 else Cost(1, Primary(per[0].counts), per[1..], maxGroup)
  }

  /** No grouping under the same limits has fewer groups. */
  lemma {:induction false} Fewest(per: seq<Batch>, gs: seq<seq<Batch>>, maxGroup: int)
    requires Grouping(gs, per, maxGroup)
    ensures Groups(per, maxGroup) <= |gs|
  {
    if per != [] {
      var g := gs[0];
      assert Fit(g, maxGroup);
      assert per[0] == g[0] && per[1..] == g[1..] + Flatten(gs[1..]);
      StaysAhead(1, Primary(g[0].counts), 1, Primary(g[0].counts), g[1..], gs[1..], maxGroup);
    }
  }

  function Last(g: seq<Batch>): string
    requires g != []
  {
    Primary(g[|g| - 1].counts)
  }

  lemma {:induction false} FitPush(g: seq<Batch>, b: Batch, maxGroup: int)
    requires Fit(g, maxGroup) && Primary(b.counts) == Main(g) && |g| < maxGroup
    ensures Fit(g + [b], maxGroup) && Main(g + [b]) == Main(g)
  {
  }

  lemma {:induction false} CostStep(k: nat, p: string, per: seq<Batch>, i: nat, maxGroup: int)
    requires i < |per|
    ensures Cost(k, p, per[i..], maxGroup)
         == if Primary(per[i].counts) != p || k >= maxGroup
            then 1 + Cost(1, Primary(per[i].counts), per[i + 1..], maxGroup)
            else Cost(k + 1, p, per[i + 1..], maxGroup)
  {
    assert per[i..][1..] == per[i + 1..];
  }

  /** The loop of _batch_index after i batches. */
  ghost predicate Grouped(groups: seq<seq<Batch>>, cur: seq<Batch>, per: seq<Batch>, i: nat, maxGroup: int)
    requires i <= |per|
  {
    && Flatten(groups) + cur == per[..i]
    && (forall k | 0 <= k < |groups| :: Fit(groups[k], maxGroup))
    && Fit(cur, maxGroup) && Last(cur) == Main(cur) && Greedy(groups + [cur], maxGroup)
    && |groups| + Cost(|cur|, Main(cur), per[i..], maxGroup) == Groups(per, maxGroup)
  }

  lemma {:induction false} Opens(per: seq<Batch>, maxGroup: int)
    requires per != []
    ensures Grouped([], [per[0]], per, 1, maxGroup)
  {
  }

  /** A batch that may not join the open group closes it. */
  lemma {:induction false} Closes(groups: seq<seq<Batch>>, cur: seq<Batch>, per: seq<Batch>, i: nat, maxGroup: int)
    requires i < |per| && Grouped(groups, cur, per, i, maxGroup)
    requires Primary(per[i].counts) != Last(cur) || |cur| >= maxGroup
    ensures Grouped(groups + [cur], [per[i]], per, i + 1, maxGroup)
  {
    FlattenPush(groups, cur);
    CostStep(|cur|, Main(cur), per, i, maxGroup);
    assert per[..i + 1] == per[..i] + [per[i]];
    GreedyCloses(groups, cur, per[i], maxGroup);
  }

  lemma {:induction false} GreedyCloses(groups: seq<seq<Batch>>, cur: seq<Batch>, b: Batch, maxGroup: int)
    requires Greedy(groups + [cur], maxGroup) && Fit(cur, maxGroup) && Last(cur) == Main(cur)
    requires Primary(b.counts) != Last(cur) || |cur| >= maxGroup
    ensures Greedy(groups + [cur] + [[b]], maxGroup)
  {
    var a, gs := groups + [cur], groups + [cur] + [[b]];
    forall i: nat, j: nat | i + 1 == j < |gs| && gs[i] != [] && gs[j] != []
      ensures Main(gs[i]) != Main(gs[j]) || |gs[i]| == Cap(maxGroup)
    {
      assert gs[i] == a[i] && (j < |a| ==> gs[j] == a[j]);
    }
  }

  lemma {:induction false} GreedyGrows(groups: seq<seq<Batch>>, cur: seq<Batch>, b: Batch, maxGroup: int)
    requires Greedy(groups + [cur], maxGroup) && cur != []
    ensures Greedy(groups + [cur + [b]], maxGroup)
  {
    var a, gs := groups + [cur], groups + [cur + [b]];
    forall i: nat, j: nat | i + 1 == j < |gs| && gs[i] != [] && gs[j] != []
      ensures Main(gs[i]) != Main(gs[j]) || |gs[i]| == Cap(maxGroup)
    {
      assert gs[i] == a[i] && (j < |groups| ==> gs[j] == a[j]);
      assert j == |groups| ==> a[j] == cur && Main(gs[j]) == Main(cur);
    }
  }

  lemma {:induction false} Grows(groups: seq<seq<Batch>>, cur: seq<Batch>, per: seq<Batch>, i: nat, maxGroup: int)
    requires i < |per| && Grouped(groups, cur, per, i, maxGroup)
    requires Primary(per[i].counts) == Last(cur) && |cur| < maxGroup
    ensures Grouped(groups, cur + [per[i]], per, i + 1, maxGroup)
  {
    Assoc(Flatten(groups), cur, [per[i]]);
    FitPush(cur, per[i], maxGroup);
    GreedyGrows(groups, cur, per[i], maxGroup);
    CostStep(|cur|, Main(cur), per, i, maxGroup);
    assert per[..i + 1] == per[..i] + [per[i]];
  }

  lemma {:induction false} Ends(groups: seq<seq<Batch>>, cur: seq<Batch>, per: seq<Batch>, maxGroup: int)
    requires Grouped(groups, cur, per, |per|, maxGroup)
    ensures Grouping(groups + [cur], per, maxGroup) && |groups| + 1 == Groups(per, maxGroup)
    ensures Greedy(groups + [cur], maxGroup)
  {
    FlattenPush(groups, cur);
    assert per[..|per|] == per;
  }

  /** The grouping loop of _batch_index. */
  method GroupBatches(per: seq<Batch>, maxGroup: int) returns (groups: seq<seq<Batch>>)
    ensures Grouping(groups, per, maxGroup) && Greedy(groups, maxGroup)
    ensures forall gs | Grouping(gs, per, maxGroup) :: |groups| <= |gs|
  {
    groups := [];
    var cur: seq<Batch> := [];
    for i := 0 to |per|
      invariant i == 0 ==> groups == [] && cur == []
      invariant i > 0 ==> Grouped(groups, cur, per, i, maxGroup)
    {
      var b := per[i];
      if cur != [] && (Primary(b.counts) != Last(cur) || |cur| >= maxGroup) {
        Closes(groups, cur, per, i, maxGroup);
        groups, cur := groups + [cur], [];
        assert cur + [b] == [b];
      } else if cur != [] {
        Grows(groups, cur, per, i, maxGroup);
      } else {
        Opens(per, maxGroup);
      }
      cur := cur + [b];
    }
    if cur != [] {
      Ends(groups, cur, per, maxGroup);
      groups := groups + [cur];
    }
    forall gs | Grouping(gs, per, maxGroup) ensures |groups| <= |gs| {
      Fewest(per, gs, maxGroup);
    }
  }

  function Lookup(c: Counts, file: string): nat {
    if c == [] then 0 else if c[0].file == file then c[0].n else Lookup(c[1..], file)
  }

  /** agg[k] = agg.get(k, 0) + v */
  function AddTo(c: Counts, e: Count): Counts {
    if c == [] then [e]
    else if c[0].file == e.file then [Count(e.file, c[0].n + e.n)] + c[1..]
    else [c[0]] + AddTo(c[1..], e)
  }

  lemma {:induction false} AddToAdds(c: Counts, e: Count, file: string)
    requires IsDict(c)
    ensures IsDict(AddTo(c, e)) && Files(AddTo(c, e)) == Files(c) + {e.file}
    ensures Lookup(AddTo(c, e), file) == Lookup(c, file) + if file == e.file then e.n else 0
  {
    if c != [] {
      if c[0].file == e.file {
        assert AddTo(c, e)[1..] == c[1..];
        NotThere(c[1..], e.file);
      } else {
        assert AddTo(c, e)[1..] == AddTo(c[1..], e);
        AddToAdds(c[1..], e, file);
      }
    }
  }

  lemma {:induction false} NotThere(c: Counts, file: string)
    requires file !in Files(c)
    ensures Lookup(c, file) == 0
  {
    if c != [] {
      NotThere(c[1..], file);
    }
  }

  /** The changed functions of a file in all batches of a group. */
  function Total(g: seq<Batch>, file: string): nat {
    if g == [] then 0 else Total(g[..|g| - 1], file) + Lookup(g[|g| - 1].counts, file)
  }

  function AllFiles(g: seq<Batch>): set<string> {
    if g == [] then {} else AllFiles(g[..|g| - 1]) + Files(g[|g| - 1].counts)
  }

  predicate AllDicts(g: seq<Batch>) {
    g == [] || (IsDict(g[0].counts) && AllDicts(g[1..]))
  }

  lemma {:induction false} AllDictsAt(g: seq<Batch>, i: nat)
    requires AllDicts(g) && i < |g|
    ensures IsDict(g[i].counts)
  {
    if i > 0 {
      AllDictsAt(g[1..], i - 1);
    }
  }

  /** The inner loop: the counts of one batch. */
  method AddBatch(was: Counts, c: Counts) returns (agg: Counts)
    requires IsDict(was) && IsDict(c)
    ensures IsDict(agg) && Files(agg) == Files(was) + Files(c)
    ensures forall file :: Lookup(agg, file) == Lookup(was, file) + Lookup(c, file)
  {
    agg := was;
    for j := 0 to |c|
      invariant IsDict(agg) && Files(agg) + Files(c[j..]) == Files(was) + Files(c)
      invariant IsDict(c[j..])
      invariant forall file :: Lookup(agg, file) + Lookup(c[j..], file) == Lookup(was, file) + Lookup(c, file)
    {
      assert c[j..][1..] == c[j + 1..];
      AddToAdds(agg, c[j], "");
      NotThere(c[j + 1..], c[j].file);
      forall file {
        AddToAdds(agg, c[j], file);
      }
      agg := AddTo(agg, c[j]);
    }
  }

  /** The loops that add up the counts of a group. */
  method Aggregate(g: seq<Batch>) returns (agg: Counts)
    requires AllDicts(g)
    ensures IsDict(agg) && Files(agg) == AllFiles(g)
    ensures forall file :: Lookup(agg, file) == Total(g, file)
  {
    agg := [];
    for i := 0 to |g|
      invariant IsDict(agg) && Files(agg) == AllFiles(g[..i])
      invariant forall file :: Lookup(agg, file) == Total(g[..i], file)
    {
      AllDictsAt(g, i);
      assert g[..i + 1][..i] == g[..i];
      agg := AddBatch(agg, g[i].counts);
    }
    assert g[..|g|] == g;
  }

  predicate Counted(c: Counts) {
    IsDict(c) && forall e | e in c :: e.n > 0
  }

  lemma {:induction false} LookupIn(c: Counts, e: Count)
    requires IsDict(c) && e in c
    ensures Lookup(c, e.file) == e.n && e.file in Files(c)
  {
    if e != c[0] {
      LookupIn(c[1..], e);
    }
  }

  lemma {:induction false} FileIn(c: Counts, file: string)
    requires file in Files(c)
    ensures Count(file, Lookup(c, file)) in c
  {
    if c[0].file != file {
      FileIn(c[1..], file);
    }
  }

  /** In one batch the main file is not below any other. */
  lemma {:induction false} PrimaryLeads(c: Counts, file: string)
    requires Counted(c)
    ensures Lookup(c, file) <= Lookup(c, Primary(c))
    ensures file in Files(c) && Lookup(c, file) == Lookup(c, Primary(c)) ==>
      file == Primary(c) || Less(file, Primary(c))
  {
    if file in Files(c) {
      var e := Count(file, Lookup(c, file));
      FileIn(c, file);
      TopIsTop(c);
      LookupIn(c, Top(c));
      assert !Above(e, Top(c));
      LessIsTotal(file, Top(c).file);
    } else {
      NotThere(c, file);
    }
  }

  /** Nor in the sum over batches with that main file. */
  lemma {:induction false} TotalLeads(g: seq<Batch>, p: string, file: string)
    requires forall i | 0 <= i < |g| :: Counted(g[i].counts) && Primary(g[i].counts) == p
    ensures Total(g, file) <= Total(g, p)
    ensures file in AllFiles(g) && Total(g, file) == Total(g, p) ==> file == p || Less(file, p)
  {
    if g != [] {
      TotalLeads(g[..|g| - 1], p, file);
      PrimaryLeads(g[|g| - 1].counts, file);
    }
  }

  /** The main file that the plan gives a group is the main file of each of its batches. */
  lemma {:induction false} PrimaryOfGroup(g: seq<Batch>, p: string, agg: Counts)
    requires g != [] && forall i | 0 <= i < |g| :: Counted(g[i].counts) && Primary(g[i].counts) == p
    requires IsDict(agg) && Files(agg) == AllFiles(g) && forall file :: Lookup(agg, file) == Total(g, file)
    ensures Primary(agg) == p
  {
    if agg != [] {
      var t := Top(agg);
      TopIsTop(agg);
      LookupIn(agg, t);
      TotalLeads(g, p, t.file);
      TotalPositive(g, t.file);
      if p !in Files(agg) {
        NotThere(agg, p);
      } else {
        FileIn(agg, p);
        assert !Above(Count(p, Lookup(agg, p)), t);
      }
    }
  }

  lemma {:induction false} TotalPositive(g: seq<Batch>, file: string)
    requires (forall i | 0 <= i < |g| :: Counted(g[i].counts)) && file in AllFiles(g)
    ensures Total(g, file) > 0
  {
    var c := g[|g| - 1].counts;
    if file in Files(c) {
      FileIn(c, file);
    } else {
      TotalPositive(g[..|g| - 1], file);
    }
  }
}
