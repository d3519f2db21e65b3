/**
  The bounded search for call paths from a changed function to the functions that call domain
  gates (paths_to_gates in tools/harness/reachability.py).
 */
module Reachability {
  import opened CodeGraph

  datatype Found = Found(nodes: seq<nat>, reason: set<string>, complete: bool)
  datatype Entry = Entry(path: seq<nat>, complete: bool)
  datatype Search = Search(g: Graph, start: nat, kinds: set<string>, maxLen: int)

  function Hit(q: Search, a: nat): set<string> {
    Kinds(q.g, a) * q.kinds
  }

  predicate Gate(q: Search, a: nat) {
    Hit(q, a) != {}
  }

  /** The reason reported for a function: the wanted kinds of its facts.  It is a gate if there are any. */
  lemma {:induction false} ReasonIs(q: Search, a: nat, kind: string)
    ensures kind in Hit(q, a) <==> kind in q.kinds && exists i :: 0 <= i < |q.g.facts| && q.g.facts[i] == Fact(a, kind)
    ensures Gate(q, a) <==> exists i :: 0 <= i < |q.g.facts| && q.g.facts[i].fn == a && q.g.facts[i].kind in q.kinds
  {
    if kind in Kinds(q.g, a) {
      var i :| 0 <= i < |q.g.facts| && q.g.facts[i].fn == a && q.g.facts[i].kind == kind;
      assert q.g.facts[i] == Fact(a, kind);
    }
    if i :| 0 <= i < |q.g.facts| && q.g.facts[i].fn == a && q.g.facts[i].kind in q.kinds {
      assert q.g.facts[i].kind in Hit(q, a);
    }
    if Gate(q, a) {
      var k :| k in Hit(q, a);
    }
  }

  function Last(p: seq<nat>): nat
    requires p != []
  {
    p[|p| - 1]
  }

  function Front(p: seq<nat>): seq<nat>
    requires p != []
  {
    p[..|p| - 1]
  }

  /** A call path from the start whose inner nodes are not gates. */
  predicate Legal(q: Search, p: seq<nat>) {
    && p != [] && p[0] == q.start
    && (|p| == 1 || (Legal(q, Front(p)) && Calls(q.g, Last(Front(p)), Last(p))))
    && (|p| <= 2 || !Gate(q, Last(Front(p))))
  }

  /** No node of the path has an unresolved call. */
  predicate Clean(g: Graph, p: seq<nat>) {
    forall i | 0 <= i < |p| :: !HasUnresolved(g, p[i])
  }

  function Bound(q: Search): nat {
    if q.maxLen < 1 then 1 else q.maxLen
  }

  /** A legal path within the length bound. */
  predicate Within(q: Search, p: seq<nat>) {
    Legal(q, p) && |p| <= Bound(q)
  }

  /** No legal path to the same function is shorter. */
  ghost predicate Shortest(q: Search, p: seq<nat>)
    requires p != []
  {
    forall r | Legal(q, r) && Last(r) == Last(p) :: |p| <= |r|
  }

  // The entries ever queued, in order; `pos` finds the one entry of each function seen.

  ghost predicate EntryOk(q: Search, e: Entry) {
    && Within(q, e.path) && Last(e.path) < |q.g.fns|
    && (e.complete <==> Clean(q.g, Front(e.path)))
  }

  // The clauses below speak of an entry through a predicate on its index, so that each is used only
  // where a proof names the index.

  ghost predicate OkAt(q: Search, es: seq<Entry>, i: nat)
    requires i < |es|
  {
    EntryOk(q, es[i])
  }

  ghost predicate AllOk(q: Search, es: seq<Entry>) {
    forall i: nat | i < |es| :: OkAt(q, es, i)
  }

  ghost predicate Indexed(es: seq<Entry>, pos: map<nat, nat>) {
    && (forall v | v in pos :: pos[v] < |es| && es[pos[v]].path != [] && Last(es[pos[v]].path) == v)
    && (forall i: nat | i < |es| :: es[i].path != [] && Last(es[i].path) in pos && pos[Last(es[i].path)] == i)
  }

  ghost predicate Ordered(es: seq<Entry>) {
    forall i, j | 0 <= i < j < |es| :: |es[i].path| <= |es[j].path|
  }

  /** Every path extends the path of an entry. */
  ghost predicate RootedAt(es: seq<Entry>, pos: map<nat, nat>, i: nat)
    requires i < |es|
  {
    && |es[i].path| > 1 && Last(Front(es[i].path)) in pos && pos[Last(Front(es[i].path))] < |es|
    && es[pos[Last(Front(es[i].path))]].path == Front(es[i].path)
  }

  ghost predicate Rooted(q: Search, es: seq<Entry>, pos: map<nat, nat>) {
    && es != [] && es[0].path == [q.start]
    && forall i: nat | 0 < i < |es| :: RootedAt(es, pos, i)
  }

  /** v has been reached by a path of at most n nodes. */
  ghost predicate Reached(es: seq<Entry>, pos: map<nat, nat>, v: nat, n: int) {
    v in pos && pos[v] < |es| && |es[pos[v]].path| <= n
  }

  /** The search goes on from the entry. */
  predicate Expands(q: Search, p: seq<nat>)
    requires p != []
  {
    (|p| == 1 || !Gate(q, Last(p))) && |p| < q.maxLen
  }

  ghost predicate Explored(q: Search, es: seq<Entry>, pos: map<nat, nat>, head: nat)
    requires head <= |es| && forall i | 0 <= i < |es| :: es[i].path != []
  {
    forall k, v: nat | 0 <= k < head && Expands(q, es[k].path) && Calls(q.g, Last(es[k].path), v) ::
      Reached(es, pos, v, |es[k].path| + 1)
  }

  ghost predicate Level(es: seq<Entry>, n: int) {
    forall i | 0 <= i < |es| :: |es[i].path| <= n
  }

  ghost predicate Inv(q: Search, es: seq<Entry>, pos: map<nat, nat>, head: nat) {
    && head <= |es|
    && AllOk(q, es)
    && Indexed(es, pos) && Ordered(es) && Rooted(q, es, pos)
    && Explored(q, es, pos, head)
    && (head < |es| ==> Level(es, |es[head].path| + 1))
  }

  /** Breadth-first order: a legal path is either matched by an entry no longer than it, or longer
      than the next entry to look at. */
  lemma {:induction false} Covered(q: Search, es: seq<Entry>, pos: map<nat, nat>, head: nat, p: seq<nat>)
    requires Inv(q, es, pos, head) && Within(q, p)
    ensures Reached(es, pos, Last(p), |p|) || (head < |es| && |p| > |es[head].path|)
    decreases |p|
  {
    if |p| == 1 {
      assert Last(es[0].path) == q.start;
    } else {
      var f := Front(p);
      Covered(q, es, pos, head, f);
      if Reached(es, pos, Last(f), |f|) {
        var k := pos[Last(f)];
        if k < head {
          if |f| == 1 {
            assert pos[Last(es[0].path)] == 0;
          }
          assert Expands(q, es[k].path);
          assert Reached(es, pos, Last(p), |es[k].path| + 1);
        } else {
          assert |es[head].path| <= |es[k].path|;
        }
      }
    }
  }

  /** Each node of an entry's path was reached by the path up to it. */
  lemma {:induction false} NodeDepth(q: Search, es: seq<Entry>, pos: map<nat, nat>, k: nat, m: nat)
    requires AllOk(q, es) && Indexed(es, pos) && Rooted(q, es, pos)
    requires k < |es| && m < |es[k].path|
    ensures es[k].path[m] in pos && pos[es[k].path[m]] < |es| && |es[pos[es[k].path[m]]].path| == m + 1
    decreases |es[k].path|
  {
    var p := es[k].path;
    if m == |p| - 1 {
      assert Last(p) in pos && pos[Last(p)] == k;
    } else {
      assert k > 0 ==> RootedAt(es, pos, k);
      var j := pos[Last(Front(p))];
      NodeDepth(q, es, pos, j, m);
    }
  }

  /** No path visits a function twice. */
  lemma {:induction false} NoRepeat(q: Search, es: seq<Entry>, pos: map<nat, nat>, k: nat)
    requires AllOk(q, es) && Indexed(es, pos) && Rooted(q, es, pos)
    requires k < |es|
    ensures Distinct(es[k].path)
  {
    forall i, j | 0 <= i < j < |es[k].path| ensures es[k].path[i] != es[k].path[j] {
      NodeDepth(q, es, pos, k, i);
      NodeDepth(q, es, pos, k, j);
    }
  }

  /** An entry that was looked at has a shortest path. */
  lemma {:induction false} LookedAtIsShortest(q: Search, es: seq<Entry>, pos: map<nat, nat>, head: nat, k: nat)
    requires Inv(q, es, pos, head) && k < head
    ensures Shortest(q, es[k].path)
  {
    var p := es[k].path;
    forall r | Legal(q, r) && Last(r) == Last(p) ensures |p| <= |r| {
      assert OkAt(q, es, k) && pos[Last(p)] == k;
      if |r| < |p| {
        Covered(q, es, pos, head, r);
      }
    }
  }

  lemma {:induction false} CleanFront(g: Graph, p: seq<nat>)
    requires p != []
    ensures Clean(g, p) <==> Clean(g, Front(p)) && !HasUnresolved(g, Last(p))
  {
    forall i | 0 <= i < |p| ensures i < |p| - 1 ==> p[i] == Front(p)[i] {
    }
  }

  /** The entry that a call from the entry under the head adds. */
  ghost function Next(q: Search, e: Entry, v: nat): Entry
    requires e.path != []
  {
    Entry(e.path + [v], e.complete && !HasUnresolved(q.g, Last(e.path)))
  }

  lemma {:induction false} NextOk(q: Search, e: Entry, v: nat)
    requires EntryOk(q, e) && Expands(q, e.path) && Calls(q.g, Last(e.path), v) && v < |q.g.fns|
    ensures EntryOk(q, Next(q, e, v)) && Front(Next(q, e, v).path) == e.path && Last(Next(q, e, v).path) == v
  {
    var p := e.path + [v];
    assert Front(p) == e.path;
    CleanFront(q.g, e.path);
  }

  lemma {:induction false} ReachedStays(es: seq<Entry>, pos: map<nat, nat>, e: Entry, v: nat, u: nat, n: int)
    requires Reached(es, pos, u, n) && v !in pos
    ensures Reached(es + [e], pos[v := |es|], u, n)
  {
    assert (es + [e])[pos[u]] == es[pos[u]];
  }

  lemma {:induction false} IndexedPush(es: seq<Entry>, pos: map<nat, nat>, e: Entry, v: nat)
    requires Indexed(es, pos) && v !in pos && e.path != [] && Last(e.path) == v
    ensures Indexed(es + [e], pos[v := |es|])
  {
    var es', pos' := es + [e], pos[v := |es|];
    forall u | u in pos' ensures pos'[u] < |es'| && es'[pos'[u]].path != [] && Last(es'[pos'[u]].path) == u {
      if u != v {
        assert es'[pos[u]] == es[pos[u]];
      }
    }
    forall i: nat | i < |es'| ensures es'[i].path != [] && Last(es'[i].path) in pos' && pos'[Last(es'[i].path)] == i {
      if i < |es| {
        assert es'[i] == es[i];
      }
    }
  }

  lemma {:induction false} RootedPush(q: Search, es: seq<Entry>, pos: map<nat, nat>, head: nat, e: Entry, v: nat)
    requires Rooted(q, es, pos) && Indexed(es, pos) && v !in pos && head < |es|
    requires |e.path| > 1 && Front(e.path) == es[head].path
    ensures Rooted(q, es + [e], pos[v := |es|])
  {
    var es', pos' := es + [e], pos[v := |es|];
    assert es'[0] == es[0] && pos[Last(es[head].path)] == head && es'[head] == es[head];
    forall i: nat | 0 < i < |es'| ensures RootedAt(es', pos', i) {
      if i < |es| {
        assert es'[i] == es[i] && RootedAt(es, pos, i);
        var k := pos[Last(Front(es[i].path))];
        assert es'[k] == es[k];
      }
    }
  }

  lemma {:induction false} ExploredPush(q: Search, es: seq<Entry>, pos: map<nat, nat>, head: nat, e: Entry, v: nat)
    requires head <= |es| && (forall i | 0 <= i < |es| :: es[i].path != []) && e.path != []
    requires Explored(q, es, pos, head) && v !in pos
    ensures Explored(q, es + [e], pos[v := |es|], head)
  {
    var es', pos' := es + [e], pos[v := |es|];
    forall k, u: nat | 0 <= k < head && Expands(q, es'[k].path) && Calls(q.g, Last(es'[k].path), u)
      ensures Reached(es', pos', u, |es'[k].path| + 1)
    {
      assert es'[k] == es[k];
      ReachedStays(es, pos, e, v, u, |es[k].path| + 1);
    }
  }

  lemma {:induction false} OrderedPush(q: Search, es: seq<Entry>, e: Entry)
    requires AllOk(q, es) && EntryOk(q, e) && Ordered(es) && Level(es, |e.path|)
    ensures AllOk(q, es + [e]) && Ordered(es + [e]) && Level(es + [e], |e.path|)
  {
    var es' := es + [e];
    forall i: nat | i < |es'| ensures OkAt(q, es', i) && |es'[i].path| <= |e.path| {
      assert i < |es| ==> es'[i] == es[i] && OkAt(q, es, i);
    }
    forall i, j | 0 <= i < j < |es'| ensures |es'[i].path| <= |es'[j].path| {
      assert es'[i] == es[i] && (j < |es| ==> es'[j] == es[j]);
    }
  }

  lemma {:induction false} PushKeeps(q: Search, es: seq<Entry>, pos: map<nat, nat>, head: nat, v: nat)
    requires Inv(q, es, pos, head) && head < |es| && Expands(q, es[head].path)
    requires Calls(q.g, Last(es[head].path), v) && v !in pos && v < |q.g.fns|
    ensures Inv(q, es + [Next(q, es[head], v)], pos[v := |es|], head)
    ensures Reached(es + [Next(q, es[head], v)], pos[v := |es|], v, |es[head].path| + 1)
  {
    assert OkAt(q, es, head);
    var e := Next(q, es[head], v);
    NextOk(q, es[head], v);
    IndexedPush(es, pos, e, v);
    RootedPush(q, es, pos, head, e, v);
    ExploredPush(q, es, pos, head, e, v);
    OrderedPush(q, es, e);
    assert (es + [e])[head] == es[head];
  }

  lemma {:induction false} PassHead(q: Search, es: seq<Entry>, pos: map<nat, nat>, head: nat)
    requires Inv(q, es, pos, head) && head < |es|
    requires Expands(q, es[head].path) ==>
      forall v: nat | Calls(q.g, Last(es[head].path), v) :: Reached(es, pos, v, |es[head].path| + 1)
    ensures Inv(q, es, pos, head + 1)
  {
  }

  // What has been reported: `at` gives the entries of the reported paths.

  ghost predicate Reported(q: Search, es: seq<Entry>, f: Found, k: nat) {
    k < |es| && es[k].path != [] && Gate(q, Last(es[k].path))
    && f == Found(es[k].path, Hit(q, Last(es[k].path)), es[k].complete)
  }

  ghost predicate ReportedAt(q: Search, es: seq<Entry>, out: seq<Found>, at: seq<nat>, i: nat)
    requires |at| == |out| && i < |out|
  {
    Reported(q, es, out[i], at[i])
  }

  ghost predicate AllReported(q: Search, es: seq<Entry>, out: seq<Found>, at: seq<nat>)
    requires |at| == |out|
  {
    forall i: nat | i < |out| :: ReportedAt(q, es, out, at, i)
  }

  ghost predicate Rising(at: seq<nat>, head: nat) {
    && (forall i: nat | i < |at| :: at[i] < head)
    && (forall i: nat, j: nat | i < j < |at| :: at[i] < at[j])
  }

  ghost predicate GateListed(q: Search, es: seq<Entry>, at: seq<nat>, k: nat)
    requires k < |es|
  {
    es[k].path != [] && Gate(q, Last(es[k].path)) ==> k in at
  }

  ghost predicate AllGates(q: Search, es: seq<Entry>, head: nat, at: seq<nat>) {
    forall k: nat | k < head && k < |es| :: GateListed(q, es, at, k)
  }

  ghost predicate Listed(q: Search, es: seq<Entry>, head: nat, out: seq<Found>, at: seq<nat>) {
    |at| == |out| && Rising(at, head) && AllReported(q, es, out, at) && AllGates(q, es, head, at)
  }

  lemma {:induction false} ListedStays(q: Search, es: seq<Entry>, es': seq<Entry>, head: nat, out: seq<Found>,
                                       at: seq<nat>)
    requires Listed(q, es, head, out, at) && head <= |es| && es <= es'
    ensures Listed(q, es', head, out, at)
  {
    forall i: nat | i < |out| ensures ReportedAt(q, es', out, at, i) {
      assert ReportedAt(q, es, out, at, i) && es'[at[i]] == es[at[i]];
    }
    forall k: nat | k < head ensures GateListed(q, es', at, k) {
      assert GateListed(q, es, at, k) && es'[k] == es[k];
    }
  }

  lemma {:induction false} ListedStep(q: Search, es: seq<Entry>, head: nat, out: seq<Found>, at: seq<nat>, f: Found)
    requires Listed(q, es, head, out, at) && head < |es| && es[head].path != []
    ensures Gate(q, Last(es[head].path)) && Reported(q, es, f, head) ==>
      Listed(q, es, head + 1, out + [f], at + [head])
    ensures !Gate(q, Last(es[head].path)) ==> Listed(q, es, head + 1, out, at)
  {
    var out', at' := out + [f], at + [head];
    if Gate(q, Last(es[head].path)) && Reported(q, es, f, head) {
      forall i: nat | i < |out'| ensures ReportedAt(q, es, out', at', i) {
        if i < |out| {
          assert ReportedAt(q, es, out, at, i) && out'[i] == out[i] && at'[i] == at[i];
        }
      }
      forall k: nat | k < head + 1 ensures GateListed(q, es, at', k) {
        if k < head {
          assert GateListed(q, es, at, k);
        } else {
          assert at'[|at|] == head;
        }
      }
    } else if !Gate(q, Last(es[head].path)) {
      forall k: nat | k < head + 1 ensures GateListed(q, es, at, k) {
        assert k < head ==> GateListed(q, es, at, k);
      }
    }
  }

  /** A reported path: a call path to a gate within the bound that visits no function twice, with no
      shorter one to that gate; complete exactly if no function before the gate has an unresolved call. */
  ghost predicate GoodPath(q: Search, f: Found) {
    && Within(q, f.nodes) && Distinct(f.nodes) && Shortest(q, f.nodes)
    && Gate(q, Last(f.nodes)) && f.reason == Hit(q, Last(f.nodes))
    && (f.complete <==> Clean(q.g, Front(f.nodes)))
  }

  ghost predicate Ends(f: Found, v: nat) {
    f.nodes != [] && Last(f.nodes) == v
  }

  lemma {:induction false} ReportedIsGood(q: Search, es: seq<Entry>, pos: map<nat, nat>, head: nat, f: Found, k: nat)
    requires Inv(q, es, pos, head) && Reported(q, es, f, k) && k < head
    ensures GoodPath(q, f)
  {
    assert OkAt(q, es, k);
    NoRepeat(q, es, pos, k);
    LookedAtIsShortest(q, es, pos, head, k);
  }

  /** A gate that can be reached within the bound is reported, or nothing farther is. */
  lemma {:induction false} GatesFound(q: Search, es: seq<Entry>, pos: map<nat, nat>, head: nat, out: seq<Found>,
                                      at: seq<nat>, p: seq<nat>)
    requires Inv(q, es, pos, head) && Listed(q, es, head, out, at)
    requires Within(q, p) && Gate(q, Last(p))
    ensures (exists i :: 0 <= i < |out| && Ends(out[i], Last(p)))
         || (head < |es| && forall i | 0 <= i < |out| :: |out[i].nodes| <= |p|)
  {
    Covered(q, es, pos, head, p);
    if Reached(es, pos, Last(p), |p|) && pos[Last(p)] < head {
      var k := pos[Last(p)];
      assert GateListed(q, es, at, k);
      var i: nat :| i < |at| && at[i] == k;
      assert ReportedAt(q, es, out, at, i);
      assert Ends(out[i], Last(p));
    } else {
      assert |es[head].path| <= |p|;
      forall i | 0 <= i < |out| ensures |out[i].nodes| <= |p| {
        assert ReportedAt(q, es, out, at, i);
        assert |es[at[i]].path| <= |es[head].path|;
      }
    }
  }

  function Below(n: nat): (s: set<nat>)
    ensures |s| == n && forall v: nat :: v in s <==> v < n
  {
    if n == 0 then {} else Below(n - 1) + {n - 1}
  }

  lemma {:induction false} SubsetSize(a: set<nat>, b: set<nat>)
    requires a <= b
    ensures |a| <= |b|
  {
    if a != {} {
      var v :| v in a;
      SubsetSize(a - {v}, b - {v});
    }
  }

  ghost function Lasts(es: seq<Entry>): set<nat>
    requires forall i | 0 <= i < |es| :: es[i].path != []
  {
    if es == [] then {} else Lasts(es[..|es| - 1]) + {Last(es[|es| - 1].path)}
  }

  lemma {:induction false} LastsCount(q: Search, es: seq<Entry>, pos: map<nat, nat>, n: nat)
    requires AllOk(q, es) && Indexed(es, pos) && n <= |es|
    ensures |Lasts(es[..n])| == n
    ensures forall v :: v in Lasts(es[..n]) ==> v < |q.g.fns| && v in pos && pos[v] < n
  {
    if n > 0 {
      LastsCount(q, es, pos, n - 1);
      assert es[..n][..n - 1] == es[..n - 1];
      assert OkAt(q, es, n - 1) && pos[Last(es[n - 1].path)] == n - 1;
    }
  }

  /** No function is queued twice, so the queue cannot go on for ever. */
  lemma {:induction false} EntriesFit(q: Search, es: seq<Entry>, pos: map<nat, nat>)
    requires AllOk(q, es) && Indexed(es, pos)
    ensures |es| <= |q.g.fns|
  {
    LastsCount(q, es, pos, |es|);
    assert es[..|es|] == es;
    SubsetSize(Lasts(es), Below(|q.g.fns|));
  }

  /** The first n callees have been reached. */
  ghost predicate ReachedAll(es: seq<Entry>, pos: map<nat, nat>, nexts: seq<nat>, n: nat, len: int)
    requires n <= |nexts|
  {
    forall j | 0 <= j < n :: Reached(es, pos, nexts[j], len)
  }

  /** One more callee that was not seen: the new entries, and what they keep. */
  lemma {:induction false} PushStep(q: Search, es: seq<Entry>, pos: map<nat, nat>, head: nat, nexts: seq<nat>, i: nat)
    returns (es': seq<Entry>, pos': map<nat, nat>)
    requires Inv(q, es, pos, head) && head < |es| && Expands(q, es[head].path) && i < |nexts|
    requires Closed(q.g) && nexts == Callees(q.g, Last(es[head].path)) && nexts[i] !in pos
    requires ReachedAll(es, pos, nexts, i, |es[head].path| + 1)
    ensures Inv(q, es', pos', head) && head < |es'| && es'[head] == es[head]
    ensures es <= es' && es'[head + 1..] == es[head + 1..] + [Next(q, es[head], nexts[i])]
    ensures pos'.Keys == pos.Keys + {nexts[i]}
    ensures ReachedAll(es', pos', nexts, i + 1, |es[head].path| + 1)
  {
    var e := Next(q, es[head], nexts[i]);
    CalleeIs(q.g, Last(es[head].path), nexts[i]);
    PushKeeps(q, es, pos, head, nexts[i]);
    es', pos' := es + [e], pos[nexts[i] := |es|];
    forall j | 0 <= j < i ensures Reached(es', pos', nexts[j], |es[head].path| + 1) {
      ReachedStays(es, pos, e, nexts[i], nexts[j], |es[head].path| + 1);
    }
  }

  /** A callee seen before was reached by a path no longer than one more node. */
  lemma {:induction false} SeenStep(q: Search, es: seq<Entry>, pos: map<nat, nat>, head: nat, nexts: seq<nat>, i: nat)
    requires Inv(q, es, pos, head) && head < |es| && i < |nexts| && nexts[i] in pos
    requires ReachedAll(es, pos, nexts, i, |es[head].path| + 1)
    ensures ReachedAll(es, pos, nexts, i + 1, |es[head].path| + 1)
  {
    assert |es[pos[nexts[i]]].path| <= |es[head].path| + 1;
  }

  lemma {:induction false} PassExpanded(q: Search, es: seq<Entry>, pos: map<nat, nat>, head: nat, nexts: seq<nat>)
    requires Closed(q.g) && Inv(q, es, pos, head) && head < |es| && nexts == Callees(q.g, Last(es[head].path))
    requires ReachedAll(es, pos, nexts, |nexts|, |es[head].path| + 1)
    ensures Inv(q, es, pos, head + 1)
  {
    CalleesAre(q.g, Last(es[head].path));
    forall v: nat | Calls(q.g, Last(es[head].path), v) ensures Reached(es, pos, v, |es[head].path| + 1) {
      assert v in nexts;
    }
    PassHead(q, es, pos, head);
  }

  lemma {:induction false} CalleeIs(g: Graph, a: nat, b: nat)
    requires Closed(g) && b in Callees(g, a)
    ensures Calls(g, a, b) && b < |g.fns|
  {
    CalleesAre(g, a);
  }

  /** One reported path comes before another. */
  ghost predicate Before(f: Found, f': Found) {
    f.nodes != [] && f'.nodes != [] && Last(f.nodes) != Last(f'.nodes) && |f.nodes| <= |f'.nodes|
  }

  lemma {:induction false} ReportedInOrder(q: Search, es: seq<Entry>, pos: map<nat, nat>, head: nat, out: seq<Found>,
                                           at: seq<nat>, i: nat, j: nat)
    requires Inv(q, es, pos, head) && Listed(q, es, head, out, at) && i < j < |out|
    ensures Before(out[i], out[j])
  {
    assert ReportedAt(q, es, out, at, i) && ReportedAt(q, es, out, at, j) && at[i] < at[j];
    assert pos[Last(es[at[i]].path)] == at[i] && pos[Last(es[at[j]].path)] == at[j];
  }

  /** Taking the head entry off the queue, reporting it if it is a gate. */
  lemma {:induction false} TakeHead(q: Search, es: seq<Entry>, pos: map<nat, nat>, head: nat, out: seq<Found>,
                                    at: seq<nat>, e: Entry)
    returns (out': seq<Found>, at': seq<nat>)
    requires Inv(q, es, pos, head) && Listed(q, es, head, out, at) && head < |es| && e == es[head]
    ensures e.path != [] && head < |q.g.fns|
    ensures out' == if Hit(q, Last(e.path)) != {} then out + [Found(e.path, Hit(q, Last(e.path)), e.complete)] else out
    ensures Listed(q, es, head + 1, out', at')
    ensures Last(e.path) == q.start <==> |e.path| == 1
    ensures !Expands(q, e.path) ==> Inv(q, es, pos, head + 1)
  {
    assert OkAt(q, es, head);
    ListedStep(q, es, head, out, at, Found(e.path, Hit(q, Last(e.path)), e.complete));
    EntriesFit(q, es, pos);
    out', at' := out, at;
    if Hit(q, Last(e.path)) != {} {
      out', at' := out + [Found(e.path, Hit(q, Last(e.path)), e.complete)], at + [head];
    }
    assert pos[Last(es[0].path)] == 0 && pos[Last(e.path)] == head;
    if !Expands(q, e.path) {
      PassHead(q, es, pos, head);
    }
  }

  /** The loop over the callees of the path's last function. */
  method PushCallees(q: Search, path: seq<nat>, complete: bool, seen: set<nat>, queue: seq<Entry>,
                     ghost es: seq<Entry>, ghost pos: map<nat, nat>, ghost head: nat)
    returns (seen': set<nat>, queue': seq<Entry>, ghost es': seq<Entry>, ghost pos': map<nat, nat>)
    requires Closed(q.g) && Inv(q, es, pos, head) && head < |es|
    requires path != [] && es[head].path == path && Expands(q, path)
    requires complete == (es[head].complete && !HasUnresolved(q.g, Last(path)))
    requires queue == es[head + 1..] && seen == pos.Keys
    ensures Inv(q, es', pos', head + 1) && head < |es'| && es <= es'
    ensures queue' == es'[head + 1..] && seen' == pos'.Keys
  {
    seen', queue', es', pos' := seen, queue, es, pos;
    var nexts := Callees(q.g, Last(path));
    for i := 0 to |nexts|
      invariant head < |es'| && es'[head] == es[head] && es <= es'
      invariant Inv(q, es', pos', head)
      invariant queue' == es'[head + 1..] && seen' == pos'.Keys
      invariant ReachedAll(es', pos', nexts, i, |path| + 1)
    {
      var nxt := nexts[i];
      if nxt !in seen' {
        es', pos' := PushStep(q, es', pos', head, nexts, i);
        seen' := seen' + {nxt};
        queue' := queue' + [Entry(path + [nxt], complete)];
      } else {
        SeenStep(q, es', pos', head, nexts, i);
      }
    }
    PassExpanded(q, es', pos', head, nexts);
  }

  /** What the search promises about its list: good paths, nearest first, one for each gate; none is
      missing unless the list is full, and then none that is missing is nearer. */
  ghost predicate Answers(q: Search, maxPaths: int, out: seq<Found>) {
    && (forall i | 0 <= i < |out| :: GoodPath(q, out[i]))
    && (forall i: nat, j: nat | i < j < |out| :: Before(out[i], out[j]))
    && (forall p | Within(q, p) && Gate(q, Last(p)) :: ReportedOrFar(out, p, maxPaths))
  }

  ghost predicate ReportedOrFar(out: seq<Found>, p: seq<nat>, maxPaths: int)
    requires p != []
  {
    || (exists i :: 0 <= i < |out| && Ends(out[i], Last(p)))
    || (|out| >= maxPaths && forall i | 0 <= i < |out| :: |out[i].nodes| <= |p|)
  }

  lemma {:induction false} SearchAnswers(q: Search, es: seq<Entry>, pos: map<nat, nat>, head: nat, out: seq<Found>,
                                         at: seq<nat>, maxPaths: int)
    requires Inv(q, es, pos, head) && Listed(q, es, head, out, at)
    requires head == |es| || |out| >= maxPaths
    ensures Answers(q, maxPaths, out)
  {
    forall i | 0 <= i < |out| ensures GoodPath(q, out[i]) {
      assert ReportedAt(q, es, out, at, i);
      ReportedIsGood(q, es, pos, head, out[i], at[i]);
    }
    forall p | Within(q, p) && Gate(q, Last(p)) ensures ReportedOrFar(out, p, maxPaths) {
      GatesFound(q, es, pos, head, out, at, p);
    }
    forall i: nat, j: nat | i < j < |out| ensures Before(out[i], out[j]) {
      ReportedInOrder(q, es, pos, head, out, at, i, j);
    }
  }

  lemma {:induction false} SearchStarts(q: Search)
    requires q.start < |q.g.fns|
    ensures var es, pos := [Entry([q.start], true)], map[q.start := 0];
            Inv(q, es, pos, 0) && Listed(q, es, 0, [], [])
  {
    assert Front([q.start]) == [];
  }

  /** paths_to_gates */
  method PathsToGates(q: Search, maxPaths: int) returns (out: seq<Found>)
    requires Closed(q.g) && q.start < |q.g.fns|
    ensures |out| <= maxPaths || out == []
    ensures Answers(q, maxPaths, out)
  {
    out := [];
    var seen: set<nat>, queue: seq<Entry> := {q.start}, [Entry([q.start], true)];
    ghost var es: seq<Entry>, pos: map<nat, nat>, head: nat, at: seq<nat> := queue, map[q.start := 0], 0, [];
    SearchStarts(q);
    while queue != [] && |out| < maxPaths
      invariant Inv(q, es, pos, head) && Listed(q, es, head, out, at)
      invariant queue == es[head..] && seen == pos.Keys
      invariant |out| <= maxPaths || out == []
      decreases |q.g.fns| - head
    {
      var Entry(path, complete) := queue[0];
      ghost var es0, out' := es, out;
      out', at := TakeHead(q, es, pos, head, out, at, queue[0]);
      queue, head := queue[1..], head + 1;
      var cur := Last(path);
      var hit := Hit(q, cur);
      if hit != {} {
        out := out + [Found(path, hit, complete)];
        if cur != q.start {
          continue;
        }
      }
      if |path| >= q.maxLen {
        continue;
      }
      if HasUnresolved(q.g, cur) {
        complete := false;
      }
      seen, queue, es, pos := PushCallees(q, path, complete, seen, queue, es, pos, head - 1);
      ListedStays(q, es0, es, head, out, at);
    }
    SearchAnswers(q, es, pos, head, out, at, maxPaths);
  }
}
