/**
  What follows a reported error on the straight path through the statements of a C function
  (_null_checked and _after_er_set in tools/harness/static_lint.py).  A syntax tree is a sequence of
  nodes in postorder: a node stands after its children and after its left siblings.
 */
module ErrorPath {
  import opened Collections

  datatype Kind =
    | Return | Goto | Break | Throw | Continue | Expr | Decl
    | Compound | Case | If | Else | Loop | Labeled | Function | Other

  /** A node, with what the regular expressions find in its text. */
  datatype Node = Node(
    kind: Kind,
    parent: Option<nat>,
    next: Option<nat>,          // the next sibling that is not a comment
    inner: Option<nat>,         // the statement of a label
    cons: Option<nat>,          // the then part of an if
    checks: bool,               // no return, a checking macro or er_stack_pop
    lhs: set<string>,           // variables assigned
    idents: set<string>,        // names used
    derefs: set<string>,        // pointers followed
    frees: bool,                // a releasing call
    nullTests: set<string>)     // what an if's condition finds to be NULL

  type Tree = seq<Node>

  predicate WfAt(t: Tree, n: nat)
    requires n < |t|
  {
    && (t[n].parent.Some? ==> n < t[n].parent.value < |t|)
    && (t[n].next.Some? ==> n < t[n].next.value < |t| && t[t[n].next.value].parent == t[n].parent)
    && (t[n].inner.Some? ==> t[n].inner.value < n && t[t[n].inner.value].parent == Some(n))
    && (t[n].cons.Some? ==> t[n].cons.value < n && t[t[n].cons.value].parent == Some(n))
    && (t[n].kind.Else? && t[n].parent.Some? ==> t[t[n].parent.value].kind.If?)
  }

  predicate Wf(t: Tree) {
    forall n: nat | n < |t| :: WfAt(t, n)
  }

  // The control flow of straight code: where control stands, and where it goes next.

  datatype Pos =
    | At(n: nat)          // about to run the statement
    | Done(n: nat)        // the statement has run
    | BodyEnd(n: nat)     // the body of the loop has run
    | FunctionEnd

  /** The next position, if the code there neither branches nor leaves. */
  function Succ(t: Tree, p: Pos): Option<Pos> {
    match p
    case At(n) =>
      if n >= |t| then None
      else if t[n].kind.Labeled? then Some(if t[n].inner.Some? then At(t[n].inner.value) else Done(n))
      else if t[n].kind.Expr? || t[n].kind.Decl? then Some(Done(n))
      else None
    case Done(n) =>
      if n >= |t| || t[n].parent.None? || t[n].parent.value >= |t| then None
      else
        var up := t[n].parent.value;
        (match t[up].kind
         case Compound => Some(if t[n].next.Some? then At(t[n].next.value) else Done(up))
         case Case => if t[n].next.Some? then Some(At(t[n].next.value)) else None
         case If => Some(Done(up))
         case Else => Some(Done(up))
         case Labeled => Some(Done(up))
         case Loop => Some(BodyEnd(up))
         case Function => Some(FunctionEnd)
         case _ => None)
    case BodyEnd(_) => None
    case FunctionEnd => None
  }

  /** A statement that neither ends the path nor looks at an error. */
  predicate Quiet(t: Tree, n: nat) {
    n < |t| && (t[n].kind.Labeled? || t[n].kind.Decl? || (t[n].kind.Expr? && !t[n].checks))
  }

  /** The position behind an if: control has come out of it. */
  predicate BehindIf(t: Tree, p: Pos) {
    p.Done? && p.n < |t| && t[p.n].kind.If?
  }

  /** In k steps control goes from p to q and runs only quiet statements. */
  predicate QuietRun(t: Tree, p: Pos, k: nat, q: Pos)
    decreases k
  {
    if k == 0 then p == q
    else (p.At? ==> Quiet(t, p.n)) && Succ(t, p).Some? && QuietRun(t, Succ(t, p).value, k - 1, q)
  }

  /** The null tests of the nearest if that holds the node in its then part; none if the nearest if
      holds it elsewhere. */
  function Nulls(t: Tree, n: nat): set<string>
    requires Wf(t) && n < |t|
    decreases |t| - n
  {
    assert WfAt(t, n);
    if t[n].parent.None? then {}
    else
      var a := t[n].parent.value;
      if t[a].kind.Function? then {}
      else if t[a].kind.If? then if t[a].cons == Some(n) then t[a].nullTests else {}
      else Nulls(t, a)
  }

  /** _null_checked */
  method NullChecked(t: Tree, stmt: nat) returns (xs: set<string>)
    requires Wf(t) && stmt < |t|
    ensures xs == Nulls(t, stmt)
  {
    var child := stmt;
    assert WfAt(t, stmt);
    var a := t[stmt].parent;
    while a.Some? && !t[a.value].kind.Function?
      invariant child < |t| && a == t[child].parent && (a.Some? ==> child < a.value < |t|)
      invariant Nulls(t, stmt) == Nulls(t, child)
      decreases |t| - child
    {
      if t[a.value].kind.If? {
        return if t[a.value].cons == Some(child) then t[a.value].nullTests else {};
      }
      child := a.value;
      assert WfAt(t, child);
      a := t[child].parent;
    }
    return {};
  }

  /** The node stands under another one. */
  predicate Under(t: Tree, n: nat, a: nat)
    requires Wf(t) && n < |t|
    decreases |t| - n
  {
    assert WfAt(t, n);
    n == a || (t[n].parent.Some? && Under(t, t[n].parent.value, a))
  }

  /** The nearest if around the node within its function. */
  function NearestIf(t: Tree, n: nat): Option<nat>
    requires Wf(t) && n < |t|
    decreases |t| - n
  {
    assert WfAt(t, n);
    if t[n].parent.None? then None
    else
      var a := t[n].parent.value;
      if t[a].kind.Function? then None else if t[a].kind.If? then Some(a) else NearestIf(t, a)
  }

  /** A pointer taken for checked was found to be NULL by the nearest if, whose then part holds the
      statement. */
  lemma {:induction false} NullsAreTested(t: Tree, n: nat, x: string) returns (i: nat)
    requires Wf(t) && n < |t| && x in Nulls(t, n)
    ensures NearestIf(t, n) == Some(i)
    ensures i < |t| && t[i].kind.If? && x in t[i].nullTests
    ensures t[i].cons.Some? && t[i].cons.value < |t| && Under(t, n, t[i].cons.value)
    decreases |t| - n
  {
    assert WfAt(t, n);
    var a := t[n].parent.value;
    if t[a].kind.If? {
      i := a;
    } else {
      i := NullsAreTested(t, a, x);
    }
  }

  datatype Verdict = Fine | Continues | LoopEnds | UsesAfterFail | FallsThrough | Unknown

  const WINDOW := 4

  predicate Exits(k: Kind) {
    k.Return? || k.Goto? || k.Break? || k.Throw?
  }

  predicate IsPlain(k: Kind) {
    k.Expr? || k.Decl?
  }

  predicate IsBlock(k: Kind) {
    k.Compound? || k.Case?
  }

  function AllLhs(t: Tree, ns: seq<nat>): set<string> {
    if ns == [] then {}
    else AllLhs(t, ns[..|ns| - 1]) + if ns[|ns| - 1] < |t| then t[ns[|ns| - 1]].lhs else {}
  }

  /** The variables that hold the error: those given, and those that the passed statements assign. */
  function Known(t: Tree, pre: set<string>, ns: seq<nat>): set<string> {
    pre + AllLhs(t, ns)
  }

  /** The statement looks at a variable that holds the error, or at er_errid. */
  predicate LooksAtError(nd: Node, known: set<string>) {
    nd.idents * known != {} || "er_errid" in nd.idents
  }

  /** The statement follows a pointer that was found to be NULL. */
  predicate IsUse(t: Tree, stmt: nat, n: nat)
    requires Wf(t) && stmt < |t| && n < |t|
  {
    Nulls(t, stmt) * t[n].derefs != {} && !t[n].frees && !t[n].kind.If?
  }

  // ---- The small steps behind the statement: control flow with what the rules need to remember.

  /** Where control stands, whether it has come out of an if, the statements that count, and how
      many of them lie beyond the if. */
  datatype Tour = Tour(at: Pos, left: bool, passed: seq<nat>, beyond: nat)

  function Start(stmt: nat): Tour {
    Tour(Done(stmt), false, [], 0)
  }

  predicate Movable(t: Tree, r: Tour) {
    Succ(t, r.at).Some? && (r.at.At? ==> Quiet(t, r.at.n))
  }

  /** Inside the block expression statements count, beyond it declarations too. */
  predicate Records(t: Tree, r: Tour) {
    r.at.At? && r.at.n < |t| && (t[r.at.n].kind.Expr? || (t[r.at.n].kind.Decl? && r.left))
  }

  function Move(t: Tree, r: Tour): Tour
    requires Movable(t, r)
  {
    var p := Succ(t, r.at).value;
    Tour(p, r.left || BehindIf(t, p),
         if Records(t, r) then r.passed + [r.at.n] else r.passed,
         if Records(t, r) && r.left then r.beyond + 1 else r.beyond)
  }

  /** A label on a label, which the walk does not look through. */
  predicate Nested(t: Tree, n: nat) {
    n < |t| && t[n].kind.Labeled? && t[n].parent.Some? && t[n].parent.value < |t| && t[t[n].parent.value].kind.Labeled?
  }

  /** What is decided at a statement: inside the block by its kind alone, beyond it also by what it
      looks at. */
  function RulingAt(t: Tree, stmt: nat, pre: set<string>, r: Tour, n: nat): Option<Verdict>
    requires Wf(t) && stmt < |t| && n < |t|
  {
    var nd := t[n];
    if Exits(nd.kind) || (nd.kind.Expr? && nd.checks) then Some(Fine)
    else if nd.kind.Continue? then Some(Continues)
    else if nd.kind.Labeled? && !Nested(t, n) then None
    else if !r.left then if IsPlain(nd.kind) then None else Some(Unknown)
    else if LooksAtError(nd, Known(t, pre, r.passed)) then Some(Fine)
    else if IsUse(t, stmt, n) then Some(UsesAfterFail)
    else if IsPlain(nd.kind) then None else Some(FallsThrough)
  }

  /** What is decided at a place, if anything. */
  function Ruling(t: Tree, stmt: nat, pre: set<string>, r: Tour): Option<Verdict>
    requires Wf(t) && stmt < |t|
  {
    match r.at
    case FunctionEnd => Some(Fine)
    case BodyEnd(_) => Some(LoopEnds)
    case Done(_) =>
      if r.beyond >= WINDOW then Some(FallsThrough) else if Succ(t, r.at).None? then Some(Unknown) else None
    case At(n) => if n < |t| then RulingAt(t, stmt, pre, r, n) else Some(Unknown)
  }

  /** In k small steps r becomes q, and nothing was decided on the way. */
  predicate Leads(t: Tree, stmt: nat, pre: set<string>, r: Tour, k: nat, q: Tour)
    requires Wf(t) && stmt < |t|
    decreases k
  {
    if k == 0 then r == q
    else Ruling(t, stmt, pre, r).None? && Movable(t, r) && Leads(t, stmt, pre, Move(t, r), k - 1, q)
  }

  ghost predicate Toured(t: Tree, stmt: nat, pre: set<string>, q: Tour)
    requires Wf(t) && stmt < |t|
  {
    exists k: nat :: Leads(t, stmt, pre, Start(stmt), k, q)
  }

  /** The verdict is what the first place that decides anything decides. */
  ghost predicate DecidedAt(t: Tree, stmt: nat, pre: set<string>, q: Tour, v: Verdict)
    requires Wf(t) && stmt < |t|
  {
    Toured(t, stmt, pre, q) && Ruling(t, stmt, pre, q) == Some(v)
  }

  /** The statements reported: those passed, and the one beyond the block that decides. */
  function Reported(q: Tour, v: Verdict): seq<nat> {
    if q.at.At? && (v.UsesAfterFail? || v.FallsThrough?) then q.passed + [q.at.n] else q.passed
  }

  lemma {:induction false} LeadsOn(t: Tree, stmt: nat, pre: set<string>, r: Tour, k: nat, q: Tour)
    requires Wf(t) && stmt < |t| && Leads(t, stmt, pre, r, k, q)
    requires Ruling(t, stmt, pre, q).None? && Movable(t, q)
    ensures Leads(t, stmt, pre, r, k + 1, Move(t, q))
    decreases k
  {
    if k == 0 {
      assert Leads(t, stmt, pre, Move(t, q), 0, Move(t, q));
    } else {
      LeadsOn(t, stmt, pre, Move(t, r), k - 1, q);
    }
  }

  lemma {:induction false} Advance(t: Tree, stmt: nat, pre: set<string>, q: Tour)
    requires Wf(t) && stmt < |t| && Toured(t, stmt, pre, q)
    requires Ruling(t, stmt, pre, q).None? && Movable(t, q)
    ensures Toured(t, stmt, pre, Move(t, q))
  {
    var k: nat :| Leads(t, stmt, pre, Start(stmt), k, q);
    LeadsOn(t, stmt, pre, Start(stmt), k, q);
  }

  lemma {:induction false} LeadsToOne(t: Tree, stmt: nat, pre: set<string>, r: Tour, j: nat, q: Tour, k: nat, q': Tour)
    requires Wf(t) && stmt < |t| && Leads(t, stmt, pre, r, j, q) && Leads(t, stmt, pre, r, k, q')
    requires Ruling(t, stmt, pre, q).Some? && Ruling(t, stmt, pre, q').Some?
    ensures q == q'
    decreases k
  {
    if j > 0 && k > 0 {
      LeadsToOne(t, stmt, pre, Move(t, r), j - 1, q, k - 1, q');
    }
  }

  /** There is only one verdict. */
  lemma {:induction false} OneVerdict(t: Tree, stmt: nat, pre: set<string>, q: Tour, v: Verdict, q': Tour, v': Verdict)
    requires Wf(t) && stmt < |t| && DecidedAt(t, stmt, pre, q, v) && DecidedAt(t, stmt, pre, q', v')
    ensures q == q' && v == v'
  {
    var j: nat :| Leads(t, stmt, pre, Start(stmt), j, q);
    var k: nat :| Leads(t, stmt, pre, Start(stmt), k, q');
    LeadsToOne(t, stmt, pre, Start(stmt), j, q, k, q');
  }

  predicate InWindow(r: Tour) {
    r.beyond <= WINDOW && (r.at.At? ==> r.beyond < WINDOW)
  }

  /** The if that control at the position is going to leave first. */
  function IfAround(t: Tree, p: Pos): Option<nat>
    requires Wf(t)
  {
    if (p.At? || p.Done?) && p.n < |t| then NearestIf(t, p.n) else None
  }

  /** One step of control comes out of the nearest if, or stays inside it, or ends the path. */
  lemma {:induction false} StepsInsideIf(t: Tree, p: Pos)
    requires Wf(t) && Succ(t, p).Some? && (p.At? ==> Quiet(t, p.n))
    ensures var q := Succ(t, p).value;
            if BehindIf(t, q) then IfAround(t, p) == Some(q.n)
            else IfAround(t, q) == IfAround(t, p) || Succ(t, q).None?
  {
    if (p.At? || p.Done?) && p.n < |t| {
      assert WfAt(t, p.n);
    }
  }

  /** Control has come out of the if around p, by quiet steps, j of them. */
  ghost predicate LeavesIf(t: Tree, p: Pos, k: nat, i: nat)
    requires Wf(t)
  {
    IfAround(t, p) == Some(i) && BehindIf(t, Done(i)) && exists j: nat :: j <= k && QuietRun(t, p, j, Done(i))
  }

  /** Undecided steps are steps of control through quiet statements, and no more than WINDOW
      statements are passed beyond the block. */
  lemma {:induction false} LeadsIsQuiet(t: Tree, stmt: nat, pre: set<string>, r: Tour, k: nat, q: Tour)
    requires Wf(t) && stmt < |t| && Leads(t, stmt, pre, r, k, q) && InWindow(r)
    ensures QuietRun(t, r.at, k, q.at) && InWindow(q)
    decreases k
  {
    if k > 0 {
      LeadsIsQuiet(t, stmt, pre, Move(t, r), k - 1, q);
    }
  }

  lemma {:induction false} LeadsOut(t: Tree, stmt: nat, pre: set<string>, r: Tour, k: nat, q: Tour) returns (i: nat)
    requires Wf(t) && stmt < |t| && Leads(t, stmt, pre, r, k, q) && q.left && !r.left
    ensures LeavesIf(t, r.at, k, i)
    decreases k
  {
    var m := Move(t, r);
    StepsInsideIf(t, r.at);
    if m.left {
      i := m.at.n;
      assert QuietRun(t, m.at, 0, m.at) && QuietRun(t, r.at, 1, Done(i));
    } else {
      i := LeadsOut(t, stmt, pre, m, k - 1, q);
      var j: nat :| j <= k - 1 && QuietRun(t, m.at, j, Done(i));
      assert QuietRun(t, r.at, j + 1, Done(i));
    }
  }

  /** The use goes wrong: it follows a pointer that the if that control has come out of found to be
      NULL in the part that holds the statement, and no statement that counts has assigned a pointer
      it names. */
  ghost predicate BadUse(t: Tree, stmt: nat, k: nat, q: Tour)
    requires Wf(t) && stmt < |t| && q.at.At? && q.at.n < |t|
  {
    exists i: nat, x :: LeavesIf(t, Done(stmt), k, i) && x in t[i].nullTests && x in t[q.at.n].derefs
      && ThenHolds(t, i, stmt) && (x in t[q.at.n].idents ==> x !in AllLhs(t, q.passed))
  }

  predicate ThenHolds(t: Tree, i: nat, stmt: nat)
    requires Wf(t) && stmt < |t|
  {
    i < |t| && t[i].cons.Some? && t[i].cons.value < |t| && Under(t, stmt, t[i].cons.value)
  }

  lemma {:induction false} UseIsBad(t: Tree, stmt: nat, pre: set<string>, k: nat, q: Tour)
    requires Wf(t) && stmt < |t| && Leads(t, stmt, pre, Start(stmt), k, q)
    requires Ruling(t, stmt, pre, q) == Some(UsesAfterFail)
    ensures q.at.At? && q.at.n < |t| && IsUse(t, stmt, q.at.n)
    ensures !LooksAtError(t[q.at.n], Known(t, pre, q.passed))
    ensures BadUse(t, stmt, k, q)
  {
    var nd := t[q.at.n];
    var x :| x in Nulls(t, stmt) && x in nd.derefs;
    var i := NullsAreTested(t, stmt, x);
    var i' := LeadsOut(t, stmt, pre, Start(stmt), k, q);
    assert i' == i && ThenHolds(t, i, stmt);
    assert x !in nd.idents * Known(t, pre, q.passed);
  }

  /** A verdict of continue, loop end or use after fail has its witness on the real control path from
      the statement, on which no exit statement and no checking macro was run; at most WINDOW
      statements were passed beyond the block. */
  lemma {:induction false} VerdictIsReal(t: Tree, stmt: nat, pre: set<string>, q: Tour, v: Verdict) returns (k: nat)
    requires Wf(t) && stmt < |t| && DecidedAt(t, stmt, pre, q, v)
    ensures QuietRun(t, Done(stmt), k, q.at) && q.beyond <= WINDOW
    ensures v.Continues? ==> q.at.At? && q.at.n < |t| && t[q.at.n].kind.Continue?
    ensures v.LoopEnds? ==> q.at.BodyEnd?
    ensures v.UsesAfterFail? ==>
      && q.at.At? && q.at.n < |t| && IsUse(t, stmt, q.at.n)
      && !LooksAtError(t[q.at.n], Known(t, pre, q.passed))
      && BadUse(t, stmt, k, q)
  {
    k :| Leads(t, stmt, pre, Start(stmt), k, q);
    LeadsIsQuiet(t, stmt, pre, Start(stmt), k, q);
    if v.UsesAfterFail? {
      UseIsBad(t, stmt, pre, k, q);
    }
  }

  // ---- The walk, which jumps over the small steps.

  /** Where the walk has got to. */
  ghost predicate Walking(t: Tree, stmt: nat, pre: set<string>, r: Tour, cur: nat) {
    && Wf(t) && stmt < |t| && cur < |t| && r.at == Done(cur) && r.beyond < WINDOW && Toured(t, stmt, pre, r)
  }

  /** At the end of a compound statement control stands behind it. */
  lemma {:induction false} LeaveCompound(t: Tree, stmt: nat, pre: set<string>, r: Tour, cur: nat)
    requires Walking(t, stmt, pre, r, cur) && t[cur].parent.Some?
    ensures t[cur].parent.value < |t|
    ensures t[t[cur].parent.value].kind.Compound? && t[cur].next.None? ==>
      Walking(t, stmt, pre, r.(at := Done(t[cur].parent.value)), t[cur].parent.value)
  {
    assert WfAt(t, cur);
    if t[t[cur].parent.value].kind.Compound? && t[cur].next.None? {
      Advance(t, stmt, pre, r);
    }
  }

  /** Control that stands behind the last statement inside `up` goes on behind it. */
  lemma {:induction false} GoUp(t: Tree, stmt: nat, pre: set<string>, r: Tour, n: nat, up: nat)
    requires Walking(t, stmt, pre, r, n) && t[n].parent == Some(up)
    ensures up < |t|
    ensures t[up].kind.If? ==> Walking(t, stmt, pre, r.(at := Done(up), left := true), up)
    ensures t[up].kind.Else? || t[up].kind.Labeled? ==> Walking(t, stmt, pre, r.(at := Done(up)), up)
    ensures t[up].kind.Loop? ==> Toured(t, stmt, pre, r.(at := BodyEnd(up)))
    ensures t[up].kind.Function? ==> Toured(t, stmt, pre, r.(at := FunctionEnd))
  {
    assert WfAt(t, n);
    if !IsBlock(t[up].kind) && Succ(t, Done(n)).Some? {
      Advance(t, stmt, pre, r);
    }
  }

  /** Control comes to the next statement of the block, and into a label's statement. */
  lemma {:induction false} GoNext(t: Tree, stmt: nat, pre: set<string>, r: Tour, cur: nat, sib: nat)
    requires Walking(t, stmt, pre, r, cur) && t[cur].next == Some(sib)
    requires t[cur].parent.Some? && t[cur].parent.value < |t| && IsBlock(t[t[cur].parent.value].kind)
    ensures cur < sib < |t| && Toured(t, stmt, pre, r.(at := At(sib))) && !Nested(t, sib)
    ensures t[sib].kind.Labeled? && t[sib].inner.Some? ==>
      && t[sib].inner.value < |t| && t[t[sib].inner.value].parent == Some(sib)
      && Toured(t, stmt, pre, r.(at := At(t[sib].inner.value)))
    ensures t[sib].kind.Labeled? && t[sib].inner.None? ==> Walking(t, stmt, pre, r.(at := Done(sib)), sib)
  {
    assert WfAt(t, cur) && WfAt(t, sib);
    Advance(t, stmt, pre, r);
    if t[sib].kind.Labeled? {
      Advance(t, stmt, pre, r.(at := At(sib)));
    }
  }

  /** An undecided plain statement runs, and with it the label it may stand behind. */
  lemma {:induction false} RunPlain(t: Tree, stmt: nat, pre: set<string>, r: Tour, sib: nat, st: nat)
    requires Wf(t) && stmt < |t| && sib < |t| && st < |t| && r.at == At(st) && r.beyond < WINDOW
    requires Toured(t, stmt, pre, r) && Ruling(t, stmt, pre, r).None? && IsPlain(t[st].kind)
    requires st == sib || (t[st].parent == Some(sib) && t[sib].kind.Labeled?)
    ensures Toured(t, stmt, pre, Move(t, r)) && Move(t, r).at == Done(st) && Move(t, r).left == r.left
    ensures Move(t, r).beyond < WINDOW ==> Walking(t, stmt, pre, Move(t, r).(at := Done(sib)), sib)
  {
    Advance(t, stmt, pre, r);
    var m := Move(t, r);
    if st != sib && m.beyond < WINDOW {
      Advance(t, stmt, pre, m);
    }
  }

  datatype Out = Halt(v: Verdict) | Behind(n: nat, leaves: bool)

  /** Where control goes behind the last statement of its block. */
  method Outward(t: Tree, stmt: nat, ghost pre: set<string>, ghost r: Tour, cur: nat) returns (out: Out)
    requires Walking(t, stmt, pre, r, cur)
    requires t[cur].parent.Some? && t[cur].parent.value < |t| && IsBlock(t[t[cur].parent.value].kind)
         ==> t[cur].next.None?
    ensures out.Halt? ==> exists p :: DecidedAt(t, stmt, pre, r.(at := p), out.v) && !p.At?
    ensures out.Halt? ==> !out.v.UsesAfterFail? && !out.v.FallsThrough?
    ensures out.Behind? ==>
      cur < out.n && Walking(t, stmt, pre, r.(at := Done(out.n), left := r.left || out.leaves), out.n)
  {
    assert WfAt(t, cur);
    var blk := t[cur].parent;
    if blk.None? || t[blk.value].kind.Case? {
      assert DecidedAt(t, stmt, pre, r.(at := Done(cur)), Unknown);
      return Halt(Unknown);
    }
    LeaveCompound(t, stmt, pre, r, cur);
    assert WfAt(t, blk.value);
    var up := if t[blk.value].kind.Compound? then t[blk.value].parent else blk;
    ghost var last := if t[blk.value].kind.Compound? then blk.value else cur;
    ghost var q := r.(at := Done(last));
    if up.None? {
      assert DecidedAt(t, stmt, pre, q, Unknown);
      return Halt(Unknown);
    }
    assert WfAt(t, up.value);
    GoUp(t, stmt, pre, q, last, up.value);
    if t[up.value].kind.Function? {
      assert DecidedAt(t, stmt, pre, r.(at := FunctionEnd), Fine);
      return Halt(Fine);
    }
    if t[up.value].kind.Loop? {
      assert DecidedAt(t, stmt, pre, r.(at := BodyEnd(up.value)), LoopEnds);
      return Halt(LoopEnds);
    }
    if t[up.value].kind.If? || t[up.value].kind.Else? {
      var next := if t[up.value].kind.If? then up else t[up.value].parent;
      if next.None? {
        assert DecidedAt(t, stmt, pre, r.(at := Done(up.value)), Unknown);
        return Halt(Unknown);
      }
      if t[up.value].kind.Else? {
        GoUp(t, stmt, pre, r.(at := Done(up.value)), up.value, next.value);
      }
      return Behind(next.value, true);
    }
    if IsBlock(t[up.value].kind) || t[up.value].kind.Labeled? {
      return Behind(if IsBlock(t[up.value].kind) then blk.value else up.value, false);
    }
    assert DecidedAt(t, stmt, pre, q, Unknown);
    return Halt(Unknown);
  }

  /** The rules for the next statement: those common to both sides of the block's end, then those
      inside, then those beyond. */
  method Judge(t: Tree, stmt: nat, ghost pre: set<string>, ghost r: Tour, st: nat, left: bool, known: set<string>,
               nulls: set<string>)
    returns (v: Option<Verdict>)
    requires Wf(t) && stmt < |t| && st < |t| && r.at == At(st) && r.left == left
    requires nulls == Nulls(t, stmt) && known == Known(t, pre, r.passed)
    requires t[st].kind.Labeled? ==> Nested(t, st)
    ensures v == Ruling(t, stmt, pre, r)
    ensures v.None? ==> IsPlain(t[st].kind)
    ensures v.Some? && (v.value.UsesAfterFail? || v.value.FallsThrough?) ==> left
  {
    var nd := t[st];
    if Exits(nd.kind) {
      return Some(Fine);
    }
    if nd.kind.Continue? {
      return Some(Continues);
    }
    if nd.kind.Expr? && nd.checks {
      return Some(Fine);
    }
    if !left {
      return if IsPlain(nd.kind) then None else Some(Unknown);
    }
    if (known != {} && nd.idents * known != {}) || "er_errid" in nd.idents {
      return Some(Fine);
    }
    var used := if nd.frees then {} else nulls * nd.derefs;
    if used != {} && !nd.kind.If? {
      return Some(UsesAfterFail);
    }
    return if IsPlain(nd.kind) then None else Some(FallsThrough);
  }

  /** _after_er_set: the walk comes to the verdict of the small steps, and reports the statements that
      they passed. */
  method AfterErSet(t: Tree, stmt: nat, pre: set<string>) returns (v: Verdict, passed: seq<nat>)
    requires Wf(t) && stmt < |t|
    ensures exists q :: DecidedAt(t, stmt, pre, q, v) && passed == Reported(q, v)
  {
    var known, cur, left, budget := pre, stmt, false, WINDOW;
    passed := [];
    var nulls := NullChecked(t, stmt);
    ghost var r := Start(stmt);
    assert Leads(t, stmt, pre, r, 0, r);
    while true
      invariant Walking(t, stmt, pre, r, cur) && r.left == left && r.passed == passed && r.beyond == WINDOW - budget
      invariant known == Known(t, pre, passed)
      decreases |t| - cur
    {
      assert WfAt(t, cur);
      var blk := t[cur].parent;
      var sib := if blk.Some? && IsBlock(t[blk.value].kind) then t[cur].next else None;
      if sib.None? {
        var out := Outward(t, stmt, pre, r, cur);
        if out.Halt? {
          ghost var p :| DecidedAt(t, stmt, pre, r.(at := p), out.v) && !p.At?;
          assert passed == Reported(r.(at := p), out.v);
          return out.v, passed;
        }
        cur, left := out.n, left || out.leaves;
        r := r.(at := Done(cur), left := left);
        continue;
      }
      GoNext(t, stmt, pre, r, cur, sib.value);
      var st := sib.value;
      if t[st].kind.Labeled? {
        if t[st].inner.None? {
          cur := sib.value;
          r := r.(at := Done(cur));
          continue;
        }
        st := t[st].inner.value;
      }
      r := r.(at := At(st));
      var nd := t[st];
      var verdict := Judge(t, stmt, pre, r, st, left, known, nulls);
      if verdict.Some? {
        v := verdict.value;
        assert DecidedAt(t, stmt, pre, r, v);
        if v.UsesAfterFail? || v.FallsThrough? {
          passed := passed + [st];
        }
        return;
      }
      RunPlain(t, stmt, pre, r, sib.value, st);
      r := Move(t, r);
      if left || nd.kind.Expr? {
        passed := passed + [st];
        known := known + nd.lhs;
      }
      if left {
        budget := budget - 1;
        if budget == 0 {
          assert DecidedAt(t, stmt, pre, r, FallsThrough);
          return FallsThrough, passed;
        }
      }
      cur := sib.value;
      r := r.(at := Done(cur));
    }
  }
}
