/**
  The ternary-logic oracle (tools/difftest/logic_oracle.py): the five query forms over one predicate
  and one row source, and the check that compares their answers.  Truth values follow the boolean
  value expression of ISO/IEC 9075-2; sums are exact integers.
 */
module LogicOracle {
  import opened Collections

  datatype Truth = True | False | Null

  function Not(t: Truth): Truth {
    match t
    case True => False
    case False => True
    case Null => Null
  }

  /** case when t then 1 when not t then 0 end */
  function CaseOf(t: Truth): Option<int> {
    if t.True? then Some(1) else if Not(t).True? then Some(0) else None
  }

  /** (case ...) is null */
  function IsNull(v: Option<int>): Truth {
    if v.None? then True else False
  }

  /** A where clause keeps the rows on which the condition is true. */
  function Where<R>(rows: seq<R>, cond: R -> Truth): seq<R> {
    if rows == [] then []
    else if cond(rows[0]).True? then [rows[0]] + Where(rows[1..], cond) else Where(rows[1..], cond)
  }

  datatype Aggregate = Sum | Min | Max

  /** Two values under an aggregate; NULL is left out. */
  function Join(g: Aggregate, a: Option<int>, b: Option<int>): Option<int> {
    if a.None? then b
    else if b.None? then a
    else
      match g
      case Sum => Some(a.value + b.value)
      case Min => if a.value <= b.value then a else b
      case Max => if a.value >= b.value then a else b
  }

  function Total<R>(g: Aggregate, rows: seq<R>, col: R -> Option<int>): Option<int> {
    if rows == [] then None else Join(g, col(rows[0]), Total(g, rows[1..], col))
  }

  /** The values of a column that are not NULL. */
  function Values<R>(rows: seq<R>, col: R -> Option<int>): seq<int> {
    if rows == [] then []
    else if col(rows[0]).Some? then [col(rows[0]).value] + Values(rows[1..], col) else Values(rows[1..], col)
  }

  /** An aggregate of a column: NULL without values, otherwise their sum, or the least or greatest one. */
  lemma {:induction false} TotalIs<R>(g: Aggregate, rows: seq<R>, col: R -> Option<int>)
    ensures var vs, v := Values(rows, col), Total(g, rows, col);
      && (v.None? <==> vs == [])
      && (v.Some? ==> match g
                      case Sum => v.value == SumOf(vs)
                      case Min => v.value in vs && forall x | x in vs :: v.value <= x
                      case Max => v.value in vs && forall x | x in vs :: v.value >= x)
  {
    if rows != [] {
      TotalIs(g, rows[1..], col);
      var later := Values(rows[1..], col);
      if col(rows[0]).Some? {
        assert ([col(rows[0]).value] + later)[1..] == later;
      }
    }
  }

  /** The answer to select count(*), sum, min, max. */
  datatype Answer = Answer(count: int, sum: Option<int>, min: Option<int>, max: Option<int>)

  function Select<R>(rows: seq<R>, col: R -> Option<int>): Answer {
    Answer(|rows|, Total(Sum, rows, col), Total(Min, rows, col), Total(Max, rows, col))
  }

  /** select count(case when p then 1 end) */
  function CountCase<R>(rows: seq<R>, p: R -> Truth): int {
    if rows == [] then 0 else (if p(rows[0]).True? then 1 else 0) + CountCase(rows[1..], p)
  }

  /** The answers to the five queries of one check. */
  datatype Answers = Answers(all: Answer, p: Answer, np: Answer, nul: Answer, norec: int)

  function Correct<R>(rows: seq<R>, p: R -> Truth, col: R -> Option<int>): Answers {
    Answers(Select(rows, col),
            Select(Where(rows, p), col),
            Select(Where(rows, r => Not(p(r))), col),
            Select(Where(rows, r => IsNull(CaseOf(p(r)))), col),
            CountCase(rows, p))
  }

  // ---- check -------------------------------------------------------------------------------------

  datatype Problem = TlpCount | NoRec | TlpSum | TlpMin | TlpMax

  function Present(xs: seq<Option<int>>): seq<int> {
    if xs == [] then [] else if xs[0].Some? then [xs[0].value] + Present(xs[1..]) else Present(xs[1..])
  }

  function SumOf(vs: seq<int>): int {
    if vs == [] then 0 else vs[0] + SumOf(vs[1..])
  }

  function Least(vs: seq<int>): int
    requires vs != []
  {
    if |vs| == 1 then vs[0] else if vs[0] <= Least(vs[1..]) then vs[0] else Least(vs[1..])
  }

  function Greatest(vs: seq<int>): int
    requires vs != []
  {
    if |vs| == 1 then vs[0] else if vs[0] >= Greatest(vs[1..]) then vs[0] else Greatest(vs[1..])
  }

  /** The three parts put together, as check does it for one aggregate. */
  function Recombine(g: Aggregate, xs: seq<Option<int>>): Option<int> {
    var vs := Present(xs);
    if vs == [] then None
    else
      match g
      case Sum => Some(SumOf(vs))
      case Min => Some(Least(vs))
      case Max => Some(Greatest(vs))
  }

  /** Which comparisons fail. */
  datatype Flags = Flags(count: bool, norec: bool, sum: bool, min: bool, max: bool)

  function FlagsOf(r: Answers): Flags {
    Flags(r.p.count + r.np.count + r.nul.count != r.all.count,
          r.norec != r.p.count,
          Recombine(Sum, [r.p.sum, r.np.sum, r.nul.sum]) != r.all.sum,
          Recombine(Min, [r.p.min, r.np.min, r.nul.min]) != r.all.min,
          Recombine(Max, [r.p.max, r.np.max, r.nul.max]) != r.all.max)
  }

  function Report(bad: bool, p: Problem): seq<Problem> {
    if bad then [p] else []
  }

  /** The problems found, in the order of the comparisons. */
  function Listed(f: Flags): seq<Problem> {
    ListedCounts(f) + ListedValues(f)
  }

  function ListedCounts(f: Flags): seq<Problem> {
    Report(f.count, TlpCount) + Report(f.norec, NoRec)
  }

  function ListedValues(f: Flags): seq<Problem> {
    Report(f.sum, TlpSum) + Report(f.min, TlpMin) + Report(f.max, TlpMax)
  }

  function Problems(r: Answers): seq<Problem> {
    Listed(FlagsOf(r))
  }

  /** The list that check puts together. */
  method ListProblems(f: Flags) returns (problems: seq<Problem>)
    ensures problems == Listed(f)
  {
    problems := [];
    if f.count {
      problems := problems + [TlpCount];
    }
    if f.norec {
      problems := problems + [NoRec];
    }
    problems := AddValues(f, problems);
  }

  method AddValues(f: Flags, counts: seq<Problem>) returns (problems: seq<Problem>)
    ensures problems == counts + ListedValues(f)
  {
    problems := counts;
    if f.sum {
      problems := problems + [TlpSum];
    }
    if f.min {
      problems := problems + [TlpMin];
    }
    if f.max {
      problems := problems + [TlpMax];
    }
  }

  /** One parsed group: an answer is missing or is an error, or all five are there. */
  datatype Group = Failed | Parsed(answers: Answers)

  predicate Holds(g: Group) {
    g.Parsed? && Problems(g.answers) == []
  }

  function Passing(gs: seq<Group>): nat {
    if gs == [] then 0 else Passing(gs[..|gs| - 1]) + if Holds(gs[|gs| - 1]) then 1 else 0
  }

  function Skipping(gs: seq<Group>): nat {
    if gs == [] then 0 else Skipping(gs[..|gs| - 1]) + if gs[|gs| - 1].Failed? then 1 else 0
  }

  /** The groups with problems, by number. */
  function Violations(gs: seq<Group>): seq<(nat, seq<Problem>)> {
    if gs == [] then []
    else
      var n, g := |gs| - 1, gs[|gs| - 1];
      if g.Failed? || Holds(g) then Violations(gs[..n]) else Violations(gs[..n]) + [(n, Problems(g.answers))]
  }

  lemma {:induction false} OneGroupMore(gs: seq<Group>, g: Group)
    ensures Passing(gs + [g]) == Passing(gs) + if Holds(g) then 1 else 0
    ensures Skipping(gs + [g]) == Skipping(gs) + if g.Failed? then 1 else 0
    ensures Violations(gs + [g])
         == if g.Failed? || Holds(g) then Violations(gs) else Violations(gs) + [(|gs|, Problems(g.answers))]
  {
    assert (gs + [g])[..|gs|] == gs;
  }

  /** check: every group passes, is skipped, or is listed with its problems. */
  method Check(gs: seq<Group>) returns (ok: nat, skipped: nat, bad: seq<(nat, seq<Problem>)>)
    ensures ok == Passing(gs) && skipped == Skipping(gs) && bad == Violations(gs)
    ensures ok + skipped + |bad| == |gs|
  {
    ok, skipped, bad := 0, 0, [];
    for i := 0 to |gs|
      invariant ok == Passing(gs[..i]) && skipped == Skipping(gs[..i]) && bad == Violations(gs[..i])
      invariant ok + skipped + |bad| == i
    {
      TakeStep(gs, i);
      OneGroupMore(gs[..i], gs[i]);
      if gs[i].Failed? {
        skipped := skipped + 1;
        continue;
      }
      var problems := ListProblems(FlagsOf(gs[i].answers));
      if problems != [] {
        bad := bad + [(i, problems)];
      } else {
        ok := ok + 1;
      }
    }
    assert gs[..|gs|] == gs;
  }

  // ---- What the check is worth -------------------------------------------------------------------

  lemma {:induction false} RecombineCons(g: Aggregate, x: Option<int>, xs: seq<Option<int>>)
    ensures Recombine(g, [x] + xs) == Join(g, x, Recombine(g, xs))
  {
    var vs := Present(xs);
    assert ([x] + xs)[1..] == xs;
    if x.None? {
      assert Present([x] + xs) == vs;
    } else {
      var us := [x.value] + vs;
      assert us[1..] == vs && us[0] == x.value && Present([x] + xs) == us;
      if vs == [] {
        assert us == [x.value] && SumOf(us) == us[0] + SumOf(us[1..]);
      } else {
        assert |us| > 1;
      }
    }
  }

  lemma {:induction false} RecombineIs(g: Aggregate, a: Option<int>, b: Option<int>, c: Option<int>)
    ensures Recombine(g, [a, b, c]) == Join(g, a, Join(g, b, c))
  {
    RecombineCons(g, c, []);
    RecombineCons(g, b, [c]);
    RecombineCons(g, a, [b, c]);
    assert [c] + [] == [c] && [b] + [c] == [b, c] && [a] + [b, c] == [a, b, c];
  }

  lemma {:induction false} JoinMoves(g: Aggregate, v: Option<int>, a: Option<int>, b: Option<int>, c: Option<int>)
    ensures Join(g, v, Join(g, a, Join(g, b, c))) == Join(g, Join(g, v, a), Join(g, b, c))
    ensures Join(g, v, Join(g, a, Join(g, b, c))) == Join(g, a, Join(g, Join(g, v, b), c))
    ensures Join(g, v, Join(g, a, Join(g, b, c))) == Join(g, a, Join(g, b, Join(g, v, c)))
  {
  }

  /** Every row falls into exactly one of the three parts. */
  lemma {:induction false} PartsAddUp<R>(rows: seq<R>, p: R -> Truth, col: R -> Option<int>, g: Aggregate)
    ensures var np, nul := (r: R) => Not(p(r)), (r: R) => IsNull(CaseOf(p(r)));
      && |Where(rows, p)| + |Where(rows, np)| + |Where(rows, nul)| == |rows|
      && Total(g, rows, col)
      == Join(g, Total(g, Where(rows, p), col),
              Join(g, Total(g, Where(rows, np), col), Total(g, Where(rows, nul), col)))
      && CountCase(rows, p) == |Where(rows, p)|
  {
    if rows != [] {
      var np, nul := (r: R) => Not(p(r)), (r: R) => IsNull(CaseOf(p(r)));
      var rest := rows[1..];
      PartsAddUp(rest, p, col, g);
      JoinMoves(g, col(rows[0]), Total(g, Where(rest, p), col), Total(g, Where(rest, np), col),
                Total(g, Where(rest, nul), col));
    }
  }

  /** Correct answers raise no problem, whatever the predicate, the rows and the column. */
  lemma {:induction false} CorrectAnswersPass<R>(rows: seq<R>, p: R -> Truth, col: R -> Option<int>)
    ensures Problems(Correct(rows, p, col)) == []
  {
    var np, nul := (r: R) => Not(p(r)), (r: R) => IsNull(CaseOf(p(r)));
    var r := Correct(rows, p, col);
    assert r == Answers(Select(rows, col), Select(Where(rows, p), col), Select(Where(rows, np), col),
                        Select(Where(rows, nul), col), CountCase(rows, p));
    PartsAddUp(rows, p, col, Sum);
    PartsAddUp(rows, p, col, Min);
    PartsAddUp(rows, p, col, Max);
    RecombineIs(Sum, r.p.sum, r.np.sum, r.nul.sum);
    RecombineIs(Min, r.p.min, r.np.min, r.nul.min);
    RecombineIs(Max, r.p.max, r.np.max, r.nul.max);
  }

  /** The five counts of a check. */
  function Counts(r: Answers): seq<int> {
    [r.all.count, r.p.count, r.np.count, r.nul.count, r.norec]
  }

  function WithCount(r: Answers, k: nat, n: int): Answers
    requires k < 5
  {
    if k == 0 then r.(all := r.all.(count := n))
    else if k == 1 then r.(p := r.p.(count := n))
    else if k == 2 then r.(np := r.np.(count := n))
    else if k == 3 then r.(nul := r.nul.(count := n))
    else r.(norec := n)
  }

  /** One wrong count among the five never goes unseen. */
  lemma {:induction false} WrongCountIsSeen(r: Answers, k: nat, n: int)
    requires Problems(r) == [] && k < 5 && n != Counts(r)[k]
    ensures Problems(WithCount(r, k, n)) != []
  {
  }

  // ---- What each problem says --------------------------------------------------------------------

  predicate OneOf(a: Option<int>, b: Option<int>, c: Option<int>, v: int) {
    a == Some(v) || b == Some(v) || c == Some(v)
  }

  function OrZero(a: Option<int>): int {
    if a.Some? then a.value else 0
  }

  /** The value of the whole that goes with the values of three parts: NULL if all are NULL, and
      otherwise the sum of those present, the least or the greatest of them. */
  predicate IsWhole(g: Aggregate, a: Option<int>, b: Option<int>, c: Option<int>, v: Option<int>) {
    if v.None? then a.None? && b.None? && c.None?
    else
      match g
      case Sum => (a.Some? || b.Some? || c.Some?) && v.value == OrZero(a) + OrZero(b) + OrZero(c)
      case Min =>
        OneOf(a, b, c, v.value) && (a.Some? ==> v.value <= a.value) && (b.Some? ==> v.value <= b.value)
        && (c.Some? ==> v.value <= c.value)
      case Max =>
        OneOf(a, b, c, v.value) && (a.Some? ==> v.value >= a.value) && (b.Some? ==> v.value >= b.value)
        && (c.Some? ==> v.value >= c.value)
  }

  lemma {:induction false} RecombineIsWhole(g: Aggregate, a: Option<int>, b: Option<int>, c: Option<int>,
                                            v: Option<int>)
    ensures Recombine(g, [a, b, c]) == v <==> IsWhole(g, a, b, c, v)
  {
    RecombineIs(g, a, b, c);
  }

  /** The value of an aggregate in an answer, and the problem reported about it. */
  function ValueOf(g: Aggregate, a: Answer): Option<int> {
    match g
    case Sum => a.sum
    case Min => a.min
    case Max => a.max
  }

  function ProblemOf(g: Aggregate): Problem {
    match g
    case Sum => TlpSum
    case Min => TlpMin
    case Max => TlpMax
  }

  function Times(b: bool): nat {
    if b then 1 else 0
  }

  predicate Flagged(f: Flags, x: Problem) {
    match x
    case TlpCount => f.count
    case NoRec => f.norec
    case TlpSum => f.sum
    case TlpMin => f.min
    case TlpMax => f.max
  }

  lemma {:induction false} ListedOnce(f: Flags, x: Problem)
    ensures multiset(Listed(f))[x] == Times(Flagged(f, x))
  {
    CountsOnce(f, x);
    ValuesOnce(f, x);
    assert multiset(Listed(f)) == multiset(ListedCounts(f)) + multiset(ListedValues(f));
  }

  lemma {:induction false} CountsOnce(f: Flags, x: Problem)
    ensures multiset(ListedCounts(f))[x] == Times((x.TlpCount? || x.NoRec?) && Flagged(f, x))
  {
  }

  lemma {:induction false} ValuesOnce(f: Flags, x: Problem)
    ensures multiset(ListedValues(f))[x] == Times(!x.TlpCount? && !x.NoRec? && Flagged(f, x))
  {
  }

  lemma {:induction false} ListedNone(f: Flags)
    ensures Listed(f) == [] <==> forall x :: !Flagged(f, x)
  {
    if x :| Flagged(f, x) {
      ListedOnce(f, x);
    }
    assert (forall x :: !Flagged(f, x)) ==>
      !Flagged(f, TlpCount) && !Flagged(f, NoRec) && !Flagged(f, TlpSum) && !Flagged(f, TlpMin) && !Flagged(f, TlpMax);
  }

  lemma {:induction false} FlagsMean(r: Answers, x: Problem)
    ensures Flagged(FlagsOf(r), x) <==> Wrong(r, x)
  {
    RecombineIsWhole(Sum, r.p.sum, r.np.sum, r.nul.sum, r.all.sum);
    RecombineIsWhole(Min, r.p.min, r.np.min, r.nul.min, r.all.min);
    RecombineIsWhole(Max, r.p.max, r.np.max, r.nul.max, r.all.max);
  }

  /** The numbers that a problem is about disagree. */
  predicate Wrong(r: Answers, x: Problem) {
    match x
    case TlpCount => r.p.count + r.np.count + r.nul.count != r.all.count
    case NoRec => r.norec != r.p.count
    case TlpSum => !IsWhole(Sum, r.p.sum, r.np.sum, r.nul.sum, r.all.sum)
    case TlpMin => !IsWhole(Min, r.p.min, r.np.min, r.nul.min, r.all.min)
    case TlpMax => !IsWhole(Max, r.p.max, r.np.max, r.nul.max, r.all.max)
  }

  /** Each problem is listed, once, exactly when its numbers disagree. */
  lemma {:induction false} ProblemsIff(r: Answers, x: Problem)
    ensures x in Problems(r) <==> Wrong(r, x)
    ensures multiset(Problems(r))[x] <= 1
  {
    FlagsMean(r, x);
    ListedOnce(FlagsOf(r), x);
    assert x in Problems(r) <==> x in multiset(Problems(r));
  }

  /** The groups listed are exactly those with problems, in their order, and the number skipped is that
      of the groups without answers; so the others pass. */
  lemma {:induction false} CheckMeans(gs: seq<Group>, i: nat, ps: seq<Problem>)
    ensures (i, ps) in Violations(gs) <==> i < |gs| && gs[i].Parsed? && ps == Problems(gs[i].answers) && ps != []
    ensures forall j, k | 0 <= j < k < |Violations(gs)| :: Violations(gs)[j].0 < Violations(gs)[k].0 < |gs|
    ensures Skipping(gs) == |FailedAt(gs)|
  {
    if gs != [] {
      var front, last := gs[..|gs| - 1], gs[|gs| - 1];
      SplitLast(gs);
      CheckMeans(front, i, ps);
      OneGroupMore(front, last);
      FailedStep(front, last);
      ListedBelow(front);
    }
  }

  lemma {:induction false} ListedBelow(gs: seq<Group>)
    ensures forall j | 0 <= j < |Violations(gs)| :: Violations(gs)[j].0 < |gs|
  {
    if gs != [] {
      ListedBelow(gs[..|gs| - 1]);
    }
  }

  function FailedAt(gs: seq<Group>): set<nat> {
    set i: nat | i < |gs| && gs[i].Failed?
  }

  lemma {:induction false} FailedStep(gs: seq<Group>, g: Group)
    ensures |FailedAt(gs + [g])| == |FailedAt(gs)| + if g.Failed? then 1 else 0
  {
    assert FailedAt(gs + [g]) == FailedAt(gs) + if g.Failed? then {|gs|} else {};
  }

  // ---- What stays hidden -------------------------------------------------------------------------

  /** Two values that an aggregate cannot tell apart beside the others. */
  predicate Alike(g: Aggregate, a: Option<int>, b: Option<int>, others: Option<int>) {
    a == b ||
    (others.Some?
     && match g
        case Sum => (a.None? || a.value == 0) && (b.None? || b.value == 0)
        case Min => (a.None? || a.value >= others.value) && (b.None? || b.value >= others.value)
        case Max => (a.None? || a.value <= others.value) && (b.None? || b.value <= others.value))
  }

  datatype Part = P | NotP | Unknown

  function AnswerOf(r: Answers, k: Part): Answer {
    match k
    case P => r.p
    case NotP => r.np
    case Unknown => r.nul
  }

  function WithValue(a: Answer, g: Aggregate, x: Option<int>): Answer {
    match g
    case Sum => a.(sum := x)
    case Min => a.(min := x)
    case Max => a.(max := x)
  }

  /** The answers with another value of an aggregate in one part. */
  function WithPart(r: Answers, k: Part, g: Aggregate, x: Option<int>): Answers {
    match k
    case P => r.(p := WithValue(r.p, g, x))
    case NotP => r.(np := WithValue(r.np, g, x))
    case Unknown => r.(nul := WithValue(r.nul, g, x))
  }

  /** What the two other parts come to. */
  function Others(r: Answers, k: Part, g: Aggregate): Option<int> {
    match k
    case P => Join(g, ValueOf(g, r.np), ValueOf(g, r.nul))
    case NotP => Join(g, ValueOf(g, r.p), ValueOf(g, r.nul))
    case Unknown => Join(g, ValueOf(g, r.p), ValueOf(g, r.np))
  }

  /** A wrong sum, minimum or maximum of one part goes unseen exactly if the other parts hide it: a
      sum that is 0 for NULL, a minimum or maximum that another part decides.  Seen, it is the one
      problem listed. */
  lemma {:induction false} WrongPartHiddenIff(r: Answers, k: Part, g: Aggregate, x: Option<int>)
    requires Problems(r) == []
    ensures Problems(WithPart(r, k, g, x))
         == if Alike(g, ValueOf(g, AnswerOf(r, k)), x, Others(r, k, g)) then [] else [ProblemOf(g)]
  {
    var s := WithPart(r, k, g, x);
    OneProblem(r, s, g);
    RecombineIs(g, ValueOf(g, r.p), ValueOf(g, r.np), ValueOf(g, r.nul));
    RecombineIs(g, ValueOf(g, s.p), ValueOf(g, s.np), ValueOf(g, s.nul));
    JoinFrom(g, ValueOf(g, r.p), ValueOf(g, r.np), ValueOf(g, r.nul));
    JoinFrom(g, ValueOf(g, s.p), ValueOf(g, s.np), ValueOf(g, s.nul));
    JoinSame(g, ValueOf(g, AnswerOf(r, k)), x, Others(r, k, g));
  }

  /** A wrong sum, minimum or maximum of the whole is always the one problem listed. */
  lemma {:induction false} WrongWholeIsSeen(r: Answers, g: Aggregate, x: Option<int>)
    requires Problems(r) == [] && x != ValueOf(g, r.all)
    ensures Problems(r.(all := WithValue(r.all, g, x))) == [ProblemOf(g)]
  {
    OneProblem(r, r.(all := WithValue(r.all, g, x)), g);
  }

  lemma {:induction false} OneProblem(r: Answers, s: Answers, g: Aggregate)
    requires Problems(r) == [] && s.norec == r.norec && SameBeside(r.all, s.all, g)
    requires SameBeside(r.p, s.p, g) && SameBeside(r.np, s.np, g) && SameBeside(r.nul, s.nul, g)
    ensures Problems(s)
         == Report(Recombine(g, [ValueOf(g, s.p), ValueOf(g, s.np), ValueOf(g, s.nul)]) != ValueOf(g, s.all),
                   ProblemOf(g))
    ensures Recombine(g, [ValueOf(g, r.p), ValueOf(g, r.np), ValueOf(g, r.nul)]) == ValueOf(g, r.all)
  {
    ListedNone(FlagsOf(r));
    assert forall x :: !Flagged(FlagsOf(r), x);
    SameFlags(r, s, g);
    OnlyListed(FlagsOf(s), ProblemOf(g));
  }

  lemma {:induction false} SameFlags(r: Answers, s: Answers, g: Aggregate)
    requires (forall x :: !Flagged(FlagsOf(r), x)) && s.norec == r.norec && SameBeside(r.all, s.all, g)
    requires SameBeside(r.p, s.p, g) && SameBeside(r.np, s.np, g) && SameBeside(r.nul, s.nul, g)
    ensures forall x | x != ProblemOf(g) :: !Flagged(FlagsOf(s), x)
    ensures !Flagged(FlagsOf(r), ProblemOf(g))
  {
    forall x | x != ProblemOf(g) ensures !Flagged(FlagsOf(s), x) {
      assert !Flagged(FlagsOf(r), x);
      assert forall h: Aggregate | h != g ::
        ValueOf(h, r.p) == ValueOf(h, s.p) && ValueOf(h, r.np) == ValueOf(h, s.np)
        && ValueOf(h, r.nul) == ValueOf(h, s.nul) && ValueOf(h, r.all) == ValueOf(h, s.all);
      assert g != Sum ==> ValueOf(Sum, r.p) == ValueOf(Sum, s.p);
      assert g != Min ==> ValueOf(Min, r.p) == ValueOf(Min, s.p);
      assert g != Max ==> ValueOf(Max, r.p) == ValueOf(Max, s.p);
    }
  }

  lemma {:induction false} OnlyListed(f: Flags, x: Problem)
    requires forall y | y != x :: !Flagged(f, y)
    ensures Listed(f) == Report(Flagged(f, x), x)
  {
    assert (x != TlpCount ==> !Flagged(f, TlpCount)) && (x != NoRec ==> !Flagged(f, NoRec));
    assert (x != TlpSum ==> !Flagged(f, TlpSum)) && (x != TlpMin ==> !Flagged(f, TlpMin));
    assert x != TlpMax ==> !Flagged(f, TlpMax);
    var none: seq<Problem> := [];
    assert none + none == none && [x] + none == [x] && none + [x] == [x];
  }

  /** The two answers differ in no other aggregate. */
  predicate SameBeside(a: Answer, b: Answer, g: Aggregate) {
    a.count == b.count && forall h | h != g :: ValueOf(h, a) == ValueOf(h, b)
  }

  lemma {:induction false} JoinFrom(g: Aggregate, a: Option<int>, b: Option<int>, c: Option<int>)
    ensures Join(g, a, Join(g, b, c)) == Join(g, b, Join(g, a, c)) == Join(g, c, Join(g, a, b))
  {
  }

  lemma {:induction false} JoinSame(g: Aggregate, a: Option<int>, b: Option<int>, others: Option<int>)
    ensures Join(g, a, others) == Join(g, b, others) <==> Alike(g, a, b, others)
  {
  }
}
