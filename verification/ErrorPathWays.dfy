/**
  What the verdict of the walk means on the way that control takes behind the error: every verdict is
  given exactly when that way ends as the verdict says.
 */
module ErrorPathWays {
  import opened Collections
  import opened ErrorPath

  // ---------------------------------------------------------------- what was found to be NULL

  lemma {:induction false} UnderThen(t: Tree, n: nat, i: nat)
    requires Wf(t) && n < |t| && NearestIf(t, n) == Some(i) && ThenHolds(t, i, n)
    ensures Nulls(t, n) == t[i].nullTests
    decreases |t| - n
  {
    assert WfAt(t, n) && WfAt(t, i);
    var a := t[n].parent.value;
    if t[a].kind.If? {
      if t[i].cons != Some(n) {
        NotAbove(t, a, t[i].cons.value);
      }
    } else {
      NearestIsIf(t, n, i);
      UnderThen(t, a, i);
    }
  }

  lemma {:induction false} NearestIsIf(t: Tree, n: nat, i: nat)
    requires Wf(t) && n < |t| && NearestIf(t, n) == Some(i)
    ensures i < |t| && t[i].kind.If?
    decreases |t| - n
  {
    assert WfAt(t, n);
    if !t[t[n].parent.value].kind.If? {
      NearestIsIf(t, t[n].parent.value, i);
    }
  }

  /** What stands before a node is not above it. */
  lemma {:induction false} NotAbove(t: Tree, n: nat, a: nat)
    requires Wf(t) && n < |t| && a < n
    ensures !Under(t, n, a)
    decreases |t| - n
  {
    assert WfAt(t, n);
    if t[n].parent.Some? {
      NotAbove(t, t[n].parent.value, a);
    }
  }

  /** The pointers taken for checked are exactly those that the nearest if found to be NULL, when its
      then part holds the statement. */
  lemma {:induction false} NullsIff(t: Tree, n: nat, x: string)
    requires Wf(t) && n < |t|
    ensures x in Nulls(t, n) <==> FoundNull(t, n, x)
  {
    if x in Nulls(t, n) {
      var i := NullsAreTested(t, n, x);
    }
    if i :| NearestIf(t, n) == Some(i) && ThenHolds(t, i, n) && x in t[i].nullTests {
      UnderThen(t, n, i);
    }
  }

  ghost predicate FoundNull(t: Tree, stmt: nat, x: string)
    requires Wf(t) && stmt < |t|
  {
    exists i: nat :: NearestIf(t, stmt) == Some(i) && ThenHolds(t, i, stmt) && x in t[i].nullTests
  }

  // ---------------------------------------------------------------- the way of control

  /** Each position is where control goes from the one before, from the statement on. */
  predicate Way(t: Tree, stmt: nat, ps: seq<Pos>) {
    && ps != [] && ps[0] == Done(stmt)
    && forall j: nat | j + 1 < |ps| :: NextAt(t, ps, j)
  }

  predicate NextAt(t: Tree, ps: seq<Pos>, j: nat)
    requires j + 1 < |ps|
  {
    Succ(t, ps[j]) == Some(ps[j + 1])
  }

  /** Control has come out of an if on the way to the j-th position. */
  ghost predicate OutAt(t: Tree, ps: seq<Pos>, j: nat) {
    exists i: nat :: 0 < i <= j && i < |ps| && BehindIf(t, ps[i])
  }

  predicate Stands(t: Tree, p: Pos) {
    p.At? && p.n < |t|
  }

  /** The statement counts: an expression, or beyond the if a declaration. */
  ghost predicate CountsAt(t: Tree, ps: seq<Pos>, j: nat) {
    && j < |ps| && Stands(t, ps[j])
    && (t[ps[j].n].kind.Expr? || (t[ps[j].n].kind.Decl? && OutAt(t, ps, j)))
  }

  /** The statements that count before the j-th position. */
  ghost function Passed(t: Tree, ps: seq<Pos>, j: nat): seq<nat> {
    if j == 0 then []
    else Passed(t, ps, j - 1) + if CountsAt(t, ps, j - 1) then [ps[j - 1].n] else []
  }

  /** How many of them lie beyond the if. */
  ghost function Spent(t: Tree, ps: seq<Pos>, j: nat): nat {
    if j == 0 then 0
    else Spent(t, ps, j - 1) + if CountsAt(t, ps, j - 1) && OutAt(t, ps, j - 1) then 1 else 0
  }

  /** The statement looks at the error: at er_errid, at a given variable, or at one that a statement on
      the way assigned. */
  ghost predicate Looks(t: Tree, pre: set<string>, ps: seq<Pos>, j: nat)
    requires j < |ps| && Stands(t, ps[j])
  {
    var ids := t[ps[j].n].idents;
    || "er_errid" in ids
    || (exists x :: x in ids && x in pre)
    || (exists x, i: nat :: i < j && CountsAt(t, ps, i) && x in ids && x in t[ps[i].n].lhs)
  }

  /** The statement follows a pointer that was found to be NULL, and does not release it. */
  ghost predicate Follows(t: Tree, stmt: nat, n: nat)
    requires Wf(t) && stmt < |t| && n < |t|
  {
    !t[n].frees && !t[n].kind.If? && exists x :: x in t[n].derefs && FoundNull(t, stmt, x)
  }

  /** A label that the walk looks through. */
  predicate Through(t: Tree, n: nat) {
    n < |t| && t[n].kind.Labeled? && !Nested(t, n)
  }

  /** The statement leaves, or checks the error. */
  predicate Leaves(nd: Node) {
    nd.kind.Return? || nd.kind.Goto? || nd.kind.Break? || nd.kind.Throw? || (nd.kind.Expr? && nd.checks)
  }

  /** A statement that the rules about the error and the window are for. */
  predicate Weighed(t: Tree, n: nat) {
    n < |t| && !Leaves(t[n]) && !t[n].kind.Continue? && !Through(t, n)
  }

  /** Control goes on from the j-th position without a verdict. */
  ghost predicate GoesOn(t: Tree, stmt: nat, pre: set<string>, ps: seq<Pos>, j: nat)
    requires Wf(t) && stmt < |t| && j < |ps|
  {
    match ps[j]
    case Done(_) => Spent(t, ps, j) < 4
    case At(n) =>
      || Through(t, n)
      || (Weighed(t, n) && (t[n].kind.Expr? || t[n].kind.Decl?)
          && (OutAt(t, ps, j) ==> !Looks(t, pre, ps, j) && !Follows(t, stmt, n)))
    case _ => false
  }

  /** A way on which no position before the last gives a verdict. */
  ghost predicate Journey(t: Tree, stmt: nat, pre: set<string>, ps: seq<Pos>)
    requires Wf(t) && stmt < |t|
  {
    Way(t, stmt, ps) && forall j: nat | j + 1 < |ps| :: GoesOn(t, stmt, pre, ps, j)
  }

  /** What the verdict says of the j-th position of the way. */
  ghost predicate EndsAs(t: Tree, stmt: nat, pre: set<string>, ps: seq<Pos>, j: nat, v: Verdict)
    requires Wf(t) && stmt < |t| && j < |ps|
  {
    var p := ps[j];
    match v
    case Fine =>
      || p.FunctionEnd?
      || (Stands(t, p) && Leaves(t[p.n]))
      || (p.At? && Weighed(t, p.n) && OutAt(t, ps, j) && Looks(t, pre, ps, j))
    case Continues => Stands(t, p) && t[p.n].kind.Continue?
    case LoopEnds => p.BodyEnd?
    case UsesAfterFail =>
      p.At? && Weighed(t, p.n) && OutAt(t, ps, j) && !Looks(t, pre, ps, j) && Follows(t, stmt, p.n)
    case FallsThrough =>
      || (p.Done? && Spent(t, ps, j) >= 4)
      || (p.At? && Weighed(t, p.n) && OutAt(t, ps, j) && !Looks(t, pre, ps, j) && !Follows(t, stmt, p.n)
          && !t[p.n].kind.Expr? && !t[p.n].kind.Decl?)
    case Unknown =>
      || (p.Done? && Spent(t, ps, j) < 4 && Succ(t, p).None?)
      || (p.At? && p.n >= |t|)
      || (p.At? && Weighed(t, p.n) && !OutAt(t, ps, j) && !t[p.n].kind.Expr? && !t[p.n].kind.Decl?)
  }

  // ---------------------------------------------------------------- the small steps remember the way

  /** What the small steps carry is what the way says. */
  ghost predicate Remembers(t: Tree, ps: seq<Pos>, j: nat, r: Tour) {
    && j < |ps| && r.at == ps[j] && (r.left <==> OutAt(t, ps, j))
    && r.passed == Passed(t, ps, j) && r.beyond == Spent(t, ps, j)
  }

  lemma {:induction false} RemembersNext(t: Tree, ps: seq<Pos>, j: nat, r: Tour)
    requires j + 1 < |ps| && NextAt(t, ps, j) && Remembers(t, ps, j, r) && Movable(t, r)
    ensures Remembers(t, ps, j + 1, Move(t, r))
  {
    OutNext(t, ps, j);
  }

  lemma {:induction false} OutNext(t: Tree, ps: seq<Pos>, j: nat)
    requires j + 1 < |ps|
    ensures OutAt(t, ps, j + 1) <==> OutAt(t, ps, j) || BehindIf(t, ps[j + 1])
  {
    if i: nat :| 0 < i <= j + 1 && i < |ps| && BehindIf(t, ps[i]) {
      assert i <= j || i == j + 1;
    }
  }

  lemma {:induction false} LhsOfPassed(t: Tree, ps: seq<Pos>, j: nat, x: string)
    requires j <= |ps|
    ensures x in AllLhs(t, Passed(t, ps, j)) <==> exists i: nat :: i < j && CountsAt(t, ps, i) && x in t[ps[i].n].lhs
  {
    if j > 0 {
      LhsOfPassed(t, ps, j - 1, x);
      var before := Passed(t, ps, j - 1);
      if CountsAt(t, ps, j - 1) {
        assert (before + [ps[j - 1].n])[..|before|] == before;
        LhsStep(t, ps, j, x);
      } else {
        assert Passed(t, ps, j) == before;
        LhsStep(t, ps, j, x);
      }
    }
  }

  lemma {:induction false} LhsStep(t: Tree, ps: seq<Pos>, j: nat, x: string)
    requires 0 < j <= |ps|
    ensures (exists i: nat :: i < j && CountsAt(t, ps, i) && x in t[ps[i].n].lhs)
       <==> (exists i: nat :: i < j - 1 && CountsAt(t, ps, i) && x in t[ps[i].n].lhs)
            || (CountsAt(t, ps, j - 1) && x in t[ps[j - 1].n].lhs)
  {
  }

  lemma {:induction false} LooksIff(t: Tree, pre: set<string>, ps: seq<Pos>, j: nat)
    requires j < |ps| && Stands(t, ps[j])
    ensures Looks(t, pre, ps, j) <==> LooksAtError(t[ps[j].n], Known(t, pre, Passed(t, ps, j)))
  {
    var ids, known := t[ps[j].n].idents, Known(t, pre, Passed(t, ps, j));
    forall x ensures x in known <==>
      x in pre || exists i: nat :: i < j && CountsAt(t, ps, i) && x in t[ps[i].n].lhs
    {
      LhsOfPassed(t, ps, j, x);
    }
    assert ids * known != {} <==> exists x :: x in ids && x in known by {
      if x :| x in ids && x in known {
        assert x in ids * known;
      }
      if ids * known != {} {
        var x :| x in ids * known;
      }
    }
  }

  lemma {:induction false} FollowsIff(t: Tree, stmt: nat, n: nat)
    requires Wf(t) && stmt < |t| && n < |t|
    ensures Follows(t, stmt, n) <==> IsUse(t, stmt, n)
  {
    if x :| x in t[n].derefs && FoundNull(t, stmt, x) {
      NullsIff(t, stmt, x);
      assert x in Nulls(t, stmt) * t[n].derefs;
    }
    if Nulls(t, stmt) * t[n].derefs != {} {
      var x :| x in Nulls(t, stmt) * t[n].derefs;
      NullsIff(t, stmt, x);
    }
  }

  /** The rules of the small steps are those of the way. */
  lemma {:induction false} RulesAgree(t: Tree, stmt: nat, pre: set<string>, ps: seq<Pos>, j: nat, r: Tour)
    requires Wf(t) && stmt < |t| && Remembers(t, ps, j, r)
    ensures forall v :: Ruling(t, stmt, pre, r) == Some(v) <==> EndsAs(t, stmt, pre, ps, j, v)
    ensures Ruling(t, stmt, pre, r).None? <==> GoesOn(t, stmt, pre, ps, j) && Succ(t, r.at).Some?
    ensures Ruling(t, stmt, pre, r).None? ==> Movable(t, r)
  {
    if Stands(t, ps[j]) {
      LooksIff(t, pre, ps, j);
      FollowsIff(t, stmt, ps[j].n);
    }
  }

  lemma {:induction false} StartRemembers(t: Tree, stmt: nat, ps: seq<Pos>)
    requires ps != [] && ps[0] == Done(stmt)
    ensures Remembers(t, ps, 0, Start(stmt))
  {
  }

  /** Appending a position changes nothing about those before it. */
  lemma {:induction false} SameSoFar(t: Tree, ps: seq<Pos>, p: Pos, j: nat)
    requires j < |ps|
    ensures OutAt(t, ps + [p], j) <==> OutAt(t, ps, j)
    ensures CountsAt(t, ps + [p], j) <==> CountsAt(t, ps, j)
    ensures Passed(t, ps + [p], j) == Passed(t, ps, j) && Spent(t, ps + [p], j) == Spent(t, ps, j)
  {
    var qs := ps + [p];
    assert forall i | 0 <= i < |ps| :: qs[i] == ps[i];
    if i: nat :| 0 < i <= j && i < |ps| && BehindIf(t, ps[i]) {
      assert BehindIf(t, qs[i]);
    }
    if j > 0 {
      SameSoFar(t, ps, p, j - 1);
    }
  }

  lemma {:induction false} StillGoesOn(t: Tree, stmt: nat, pre: set<string>, ps: seq<Pos>, p: Pos, j: nat)
    requires Wf(t) && stmt < |t| && j < |ps|
    ensures GoesOn(t, stmt, pre, ps + [p], j) <==> GoesOn(t, stmt, pre, ps, j)
  {
    SameSoFar(t, ps, p, j);
    assert (ps + [p])[j] == ps[j];
    if Stands(t, ps[j]) {
      LooksIff(t, pre, ps, j);
      LooksIff(t, pre, ps + [p], j);
    }
  }

  lemma {:induction false} JourneyOn(t: Tree, stmt: nat, pre: set<string>, ps: seq<Pos>, p: Pos)
    requires Wf(t) && stmt < |t| && Journey(t, stmt, pre, ps)
    requires GoesOn(t, stmt, pre, ps, |ps| - 1) && Succ(t, ps[|ps| - 1]) == Some(p)
    ensures Journey(t, stmt, pre, ps + [p])
  {
    var qs := ps + [p];
    forall j: nat | j + 1 < |qs| ensures NextAt(t, qs, j) && GoesOn(t, stmt, pre, qs, j) {
      StillGoesOn(t, stmt, pre, ps, p, j);
      if j + 1 < |ps| {
        assert NextAt(t, ps, j);
      }
    }
  }

  /** The small steps that decide nothing go along a journey. */
  lemma {:induction false} LeadsAlong(t: Tree, stmt: nat, pre: set<string>, ps: seq<Pos>, r: Tour, k: nat, q: Tour)
    returns (qs: seq<Pos>)
    requires Wf(t) && stmt < |t| && Journey(t, stmt, pre, ps) && Remembers(t, ps, |ps| - 1, r)
    requires Leads(t, stmt, pre, r, k, q)
    ensures Journey(t, stmt, pre, qs) && Remembers(t, qs, |qs| - 1, q)
    decreases k
  {
    if k == 0 {
      qs := ps;
    } else {
      var j := |ps| - 1;
      RulesAgree(t, stmt, pre, ps, j, r);
      var m := Move(t, r);
      JourneyOn(t, stmt, pre, ps, m.at);
      SameSoFar(t, ps, m.at, j);
      assert NextAt(t, ps + [m.at], j);
      RemembersNext(t, ps + [m.at], j, r);
      qs := LeadsAlong(t, stmt, pre, ps + [m.at], m, k - 1, q);
    }
  }

  /** Along a journey the small steps decide nothing before its end. */
  lemma {:induction false} AlongLeads(t: Tree, stmt: nat, pre: set<string>, ps: seq<Pos>, j: nat, r: Tour)
    returns (q: Tour)
    requires Wf(t) && stmt < |t| && Journey(t, stmt, pre, ps) && Remembers(t, ps, j, r)
    ensures Remembers(t, ps, |ps| - 1, q) && Leads(t, stmt, pre, r, |ps| - 1 - j, q)
    decreases |ps| - j
  {
    if j + 1 == |ps| {
      q := r;
    } else {
      assert NextAt(t, ps, j) && GoesOn(t, stmt, pre, ps, j);
      RulesAgree(t, stmt, pre, ps, j, r);
      RemembersNext(t, ps, j, r);
      q := AlongLeads(t, stmt, pre, ps, j + 1, Move(t, r));
    }
  }

  /** What is reported with a verdict: the statements that count on the way, and the one that control has
      got to if the verdict is about it. */
  ghost function Told(t: Tree, ps: seq<Pos>, v: Verdict): seq<nat>
    requires ps != []
  {
    var j := |ps| - 1;
    Passed(t, ps, j) + if ps[j].At? && (v.UsesAfterFail? || v.FallsThrough?) then [ps[j].n] else []
  }

  /** Every verdict is given, with these statements, exactly when the way of control behind the error
      ends as the verdict says and nothing before its end decides. */
  lemma {:induction false} VerdictIff(t: Tree, stmt: nat, pre: set<string>, v: Verdict, told: seq<nat>)
    requires Wf(t) && stmt < |t|
    ensures (exists q :: DecidedAt(t, stmt, pre, q, v) && told == Reported(q, v))
       <==> (exists ps :: Journey(t, stmt, pre, ps) && EndsAs(t, stmt, pre, ps, |ps| - 1, v) && told == Told(t, ps, v))
  {
    if q :| DecidedAt(t, stmt, pre, q, v) && told == Reported(q, v) {
      var ps := WayOf(t, stmt, pre, q, v);
      assert told == Told(t, ps, v);
    }
    if ps :| Journey(t, stmt, pre, ps) && EndsAs(t, stmt, pre, ps, |ps| - 1, v) && told == Told(t, ps, v) {
      var q := StepsOf(t, stmt, pre, ps, v);
      assert told == Reported(q, v);
    }
  }

  lemma {:induction false} WayOf(t: Tree, stmt: nat, pre: set<string>, q: Tour, v: Verdict) returns (ps: seq<Pos>)
    requires Wf(t) && stmt < |t| && DecidedAt(t, stmt, pre, q, v)
    ensures Journey(t, stmt, pre, ps) && EndsAs(t, stmt, pre, ps, |ps| - 1, v) && Reported(q, v) == Told(t, ps, v)
  {
    var k: nat :| Leads(t, stmt, pre, Start(stmt), k, q);
    StartRemembers(t, stmt, [Done(stmt)]);
    ps := LeadsAlong(t, stmt, pre, [Done(stmt)], Start(stmt), k, q);
    RulesAgree(t, stmt, pre, ps, |ps| - 1, q);
    assert Passed(t, ps, |ps| - 1) + [] == Passed(t, ps, |ps| - 1);
  }

  lemma {:induction false} StepsOf(t: Tree, stmt: nat, pre: set<string>, ps: seq<Pos>, v: Verdict) returns (q: Tour)
    requires Wf(t) && stmt < |t| && Journey(t, stmt, pre, ps) && EndsAs(t, stmt, pre, ps, |ps| - 1, v)
    ensures DecidedAt(t, stmt, pre, q, v) && Reported(q, v) == Told(t, ps, v)
  {
    StartRemembers(t, stmt, ps);
    q := AlongLeads(t, stmt, pre, ps, 0, Start(stmt));
    RulesAgree(t, stmt, pre, ps, |ps| - 1, q);
    assert Toured(t, stmt, pre, q);
    assert Passed(t, ps, |ps| - 1) + [] == Passed(t, ps, |ps| - 1);
  }

  /** A continue that control gets to by quiet statements inside the block of the error is always
      reported, and so is the end of a loop's body. */
  lemma {:induction false} NextRoundIsFound(t: Tree, stmt: nat, pre: set<string>, ps: seq<Pos>)
    requires Wf(t) && stmt < |t| && Way(t, stmt, ps) && !OutAt(t, ps, |ps| - 1)
    requires forall j: nat | j + 1 < |ps| && ps[j].At? :: Quiet(t, ps[j].n) && !Nested(t, ps[j].n)
    ensures ps[|ps| - 1].BodyEnd? ==> exists q :: DecidedAt(t, stmt, pre, q, LoopEnds)
    ensures Stands(t, ps[|ps| - 1]) && t[ps[|ps| - 1].n].kind.Continue? ==>
      exists q :: DecidedAt(t, stmt, pre, q, Continues)
  {
    forall j: nat | j + 1 < |ps| ensures GoesOn(t, stmt, pre, ps, j) {
      assert NextAt(t, ps, j);
      InsideSpendsNothing(t, ps, j);
    }
    if ps[|ps| - 1].BodyEnd? {
      var q := StepsOf(t, stmt, pre, ps, LoopEnds);
    } else if Stands(t, ps[|ps| - 1]) && t[ps[|ps| - 1].n].kind.Continue? {
      var q := StepsOf(t, stmt, pre, ps, Continues);
    }
  }

  lemma {:induction false} InsideSpendsNothing(t: Tree, ps: seq<Pos>, j: nat)
    requires j < |ps| && !OutAt(t, ps, |ps| - 1)
    ensures !OutAt(t, ps, j) && Spent(t, ps, j) == 0
  {
    if j > 0 {
      InsideSpendsNothing(t, ps, j - 1);
    }
  }
}
