/**
  The call graph (tools/harness/codegraph.py): the tables after parsing, the resolution of called
  names, and the queries the searches run on.  A function is named by its row in the function
  table, which is kept in the order of function ids.
 */
module CodeGraph {
  import opened Collections

  datatype Fn = Fn(name: string, file: string, isStatic: bool)
  datatype Call = Call(caller: nat, callee: string, resolved: Option<nat>)
  datatype Fact = Fact(fn: nat, kind: string)
  datatype Graph = Graph(fns: seq<Fn>, calls: seq<Call>, facts: seq<Fact>)

  /** The rows below n of the functions with a name. */
  function Rows(fns: seq<Fn>, name: string, n: nat): seq<nat>
    requires n <= |fns|
  {
    if n == 0 then []
    else if fns[n - 1].name == name then Rows(fns, name, n - 1) + [n - 1] else Rows(fns, name, n - 1)
  }

  predicate InTable(fns: seq<Fn>, rows: seq<nat>) {
    forall k | 0 <= k < |rows| :: rows[k] < |fns|
  }

  function SameFile(fns: seq<Fn>, cands: seq<nat>, file: string): seq<nat>
    requires InTable(fns, cands)
  {
    if cands == [] then []
    else if fns[cands[0]].file == file then [cands[0]] + SameFile(fns, cands[1..], file)
    else SameFile(fns, cands[1..], file)
  }

  function Global(fns: seq<Fn>, cands: seq<nat>): seq<nat>
    requires InTable(fns, cands)
  {
    if cands == [] then []
    else if !fns[cands[0]].isStatic then [cands[0]] + Global(fns, cands[1..]) else Global(fns, cands[1..])
  }

  /** The function a call is resolved to. */
  function Target(fns: seq<Fn>, cands: seq<nat>, file: string): Option<nat>
    requires InTable(fns, cands)
  {
    var same, glob := SameFile(fns, cands, file), Global(fns, cands);
    if |same| == 1 then Some(same[0]) else if |glob| == 1 then Some(glob[0]) else None
  }

  lemma {:induction false} RowsAre(fns: seq<Fn>, name: string, n: nat)
    requires n <= |fns|
    ensures InTable(fns, Rows(fns, name, n))
    ensures forall t: nat :: t in Rows(fns, name, n) <==> t < n && fns[t].name == name
    ensures Distinct(Rows(fns, name, n))
  {
    if n > 0 {
      RowsAre(fns, name, n - 1);
      var s := Rows(fns, name, n - 1);
      forall i | 0 <= i < |s| ensures s[i] != n - 1 {
        assert s[i] in s;
      }
    }
  }

  predicate Distinct(s: seq<nat>) {
    forall i, j | 0 <= i < j < |s| :: s[i] != s[j]
  }

  lemma {:induction false} SameFileAre(fns: seq<Fn>, cands: seq<nat>, file: string)
    requires InTable(fns, cands) && Distinct(cands)
    ensures forall t: nat :: t in SameFile(fns, cands, file) <==> t in cands && fns[t].file == file
    ensures Distinct(SameFile(fns, cands, file))
  {
    if cands != [] {
      SameFileAre(fns, cands[1..], file);
    }
  }

  lemma {:induction false} GlobalAre(fns: seq<Fn>, cands: seq<nat>)
    requires InTable(fns, cands) && Distinct(cands)
    ensures forall t: nat :: t in Global(fns, cands) <==> t in cands && !fns[t].isStatic
    ensures Distinct(Global(fns, cands))
  {
    if cands != [] {
      GlobalAre(fns, cands[1..]);
    }
  }

  /** t is the one function of that name in the file. */
  predicate OnlyInFile(fns: seq<Fn>, name: string, file: string, t: nat) {
    t < |fns| && forall k :: 0 <= k < |fns| ==> ((fns[k].name == name && fns[k].file == file) <==> k == t)
  }

  /** t is the one function of that name that other files can see. */
  predicate OnlyGlobal(fns: seq<Fn>, name: string, t: nat) {
    t < |fns| && forall k :: 0 <= k < |fns| ==> ((fns[k].name == name && !fns[k].isStatic) <==> k == t)
  }

  lemma {:induction false} Another(s: seq<nat>, t: nat) returns (k: nat)
    requires Distinct(s) && |s| > 1
    ensures k in s && k != t
  {
    k := if s[0] == t then s[1] else s[0];
  }

  lemma {:induction false} OneElement(s: seq<nat>, t: nat)
    requires Distinct(s)
    ensures (|s| == 1 && s[0] == t) <==> (forall k: nat :: k in s <==> k == t)
  {
    if |s| > 1 {
      var k := Another(s, t);
      assert k in s && k != t;
    } else if |s| == 1 {
      assert s[0] in s && forall k :: k in s ==> k == s[0];
    } else {
      assert t !in s;
    }
  }

  lemma {:induction false} SameOnly(fns: seq<Fn>, name: string, file: string, same: seq<nat>, u: nat)
    requires Distinct(same)
    requires forall k: nat :: k in same <==> k < |fns| && fns[k].name == name && fns[k].file == file
    ensures OnlyInFile(fns, name, file, u) <==> |same| == 1 && same[0] == u
  {
    OneElement(same, u);
    if |same| == 1 && same[0] == u {
      assert u in same;
    }
    if OnlyInFile(fns, name, file, u) {
      assert forall k: nat :: k in same <==> k == u;
    }
  }

  lemma {:induction false} GlobalOnly(fns: seq<Fn>, name: string, glob: seq<nat>, u: nat)
    requires Distinct(glob)
    requires forall k: nat :: k in glob <==> k < |fns| && fns[k].name == name && !fns[k].isStatic
    ensures OnlyGlobal(fns, name, u) <==> |glob| == 1 && glob[0] == u
  {
    OneElement(glob, u);
    if |glob| == 1 && glob[0] == u {
      assert u in glob;
    }
    if OnlyGlobal(fns, name, u) {
      assert forall k: nat :: k in glob <==> k == u;
    }
  }

  /** A call goes to the one function of that name in its file, else to the one visible everywhere,
      and stays unresolved when neither is unique. */
  lemma {:induction false} TargetMeans(fns: seq<Fn>, name: string, file: string, t: nat)
    ensures InTable(fns, Rows(fns, name, |fns|))
    ensures Target(fns, Rows(fns, name, |fns|), file) == Some(t)
       <==> OnlyInFile(fns, name, file, t)
            || ((forall u: nat :: !OnlyInFile(fns, name, file, u)) && OnlyGlobal(fns, name, t))
  {
    var cands := Rows(fns, name, |fns|);
    RowsAre(fns, name, |fns|);
    SameFileAre(fns, cands, file);
    GlobalAre(fns, cands);
    var same, glob := SameFile(fns, cands, file), Global(fns, cands);
    forall u: nat ensures OnlyInFile(fns, name, file, u) <==> |same| == 1 && same[0] == u {
      SameOnly(fns, name, file, same, u);
    }
    GlobalOnly(fns, name, glob, t);
    if |same| == 1 {
      assert OnlyInFile(fns, name, file, same[0]);
    }
  }

  /** Where a call goes: to the one function of that name in the caller's file or, if there is no such
      one, to the one of that name that other files can see. */
  ghost predicate GoesTo(fns: seq<Fn>, c: Call, t: nat) {
    && c.caller < |fns|
    && (OnlyInFile(fns, c.callee, fns[c.caller].file, t)
        || ((forall u: nat :: !OnlyInFile(fns, c.callee, fns[c.caller].file, u)) && OnlyGlobal(fns, c.callee, t)))
  }

  /** What the resolution makes of a call: its target is filled in if it has one, and nothing else changes. */
  ghost predicate Settled(fns: seq<Fn>, before: Call, after: Call) {
    && after.caller == before.caller && after.callee == before.callee
    && (forall t: nat | GoesTo(fns, before, t) :: after.resolved == Some(t))
    && ((forall t: nat :: !GoesTo(fns, before, t)) ==> after.resolved == before.resolved)
  }

  lemma {:induction false} ResolvedIsSettled(fns: seq<Fn>, c: Call)
    requires c.caller < |fns|
    ensures Settled(fns, c, Resolved(fns, c))
  {
    var name, file := c.callee, fns[c.caller].file;
    RowsAre(fns, name, |fns|);
    forall t: nat ensures Target(fns, Rows(fns, name, |fns|), file) == Some(t) <==> GoesTo(fns, c, t) {
      TargetMeans(fns, name, file, t);
    }
  }

  /** A call as the resolution leaves it. */
  function Resolved(fns: seq<Fn>, c: Call): Call
    requires c.caller < |fns|
  {
    RowsAre(fns, c.callee, |fns|);
    var t := Target(fns, Rows(fns, c.callee, |fns|), fns[c.caller].file);
    if t.Some? then c.(resolved := t) else c
  }

  /** Every call and every fact belongs to a row of the function table. */
  predicate Closed(g: Graph) {
    && (forall i | 0 <= i < |g.calls| :: g.calls[i].caller < |g.fns|)
    && (forall i | 0 <= i < |g.calls| :: g.calls[i].resolved.Some? ==> g.calls[i].resolved.value < |g.fns|)
  }

  function Get(m: map<string, seq<nat>>, name: string): seq<nat> {
    if name in m then m[name] else []
  }

  /** Row k after a list of updates. */
  function Applied(upd: seq<(nat, nat)>, k: nat, c: Call): Call {
    if upd == [] then c
    else
      var last := upd[|upd| - 1];
      if last.1 == k then Applied(upd[..|upd| - 1], k, c).(resolved := Some(last.0))
      else Applied(upd[..|upd| - 1], k, c)
  }

  lemma {:induction false} AppliedLast(upd: seq<(nat, nat)>, u: (nat, nat), k: nat, c: Call)
    ensures Applied(upd + [u], k, c)
         == if u.1 == k then Applied(upd, k, c).(resolved := Some(u.0)) else Applied(upd, k, c)
  {
    assert (upd + [u])[..|upd|] == upd;
  }

  lemma {:induction false} NotYet(upd: seq<(nat, nat)>, i: nat, c: Call)
    requires forall u | u in upd :: u.1 < i
    ensures Applied(upd, i, c) == c
  {
    if upd != [] {
      assert upd[|upd| - 1] in upd;
      NotYet(upd[..|upd| - 1], i, c);
    }
  }

  /** The updates settle the first n calls, and speak of no other. */
  ghost predicate Settles(fns: seq<Fn>, calls: seq<Call>, upd: seq<(nat, nat)>, n: nat)
    requires n <= |calls| && forall i | 0 <= i < |calls| :: calls[i].caller < |fns|
  {
    && (forall u | u in upd :: u.1 < n && u.0 < |fns|)
    && (forall k: nat | k < n :: Applied(upd, k, calls[k]) == Resolved(fns, calls[k]))
  }

  lemma {:induction false} SettlesNext(fns: seq<Fn>, calls: seq<Call>, upd: seq<(nat, nat)>, i: nat)
    requires i < |calls| && (forall j | 0 <= j < |calls| :: calls[j].caller < |fns|) && Settles(fns, calls, upd, i)
    ensures Resolved(fns, calls[i]) == calls[i] ==> Settles(fns, calls, upd, i + 1)
    ensures forall t: nat | t < |fns| && Resolved(fns, calls[i]) == calls[i].(resolved := Some(t)) ::
              Settles(fns, calls, upd + [(t, i)], i + 1)
  {
    NotYet(upd, i, calls[i]);
    forall t: nat | t < |fns| && Resolved(fns, calls[i]) == calls[i].(resolved := Some(t))
      ensures Settles(fns, calls, upd + [(t, i)], i + 1)
    {
      forall k: nat | k <= i {
        AppliedLast(upd, (t, i), k, calls[k]);
      }
    }
  }

  /** The first loop of _resolve: the rows by name. */
  method IndexByName(fns: seq<Fn>) returns (byName: map<string, seq<nat>>)
    ensures forall name :: Get(byName, name) == Rows(fns, name, |fns|)
  {
    byName := map[];
    for i := 0 to |fns|
      invariant forall name :: Get(byName, name) == Rows(fns, name, i)
    {
      byName := byName[fns[i].name := Get(byName, fns[i].name) + [i]];
    }
  }

  /** The second loop of _resolve: the updates for the calls that can be resolved. */
  method GatherUpdates(fns: seq<Fn>, calls: seq<Call>, byName: map<string, seq<nat>>) returns (upd: seq<(nat, nat)>)
    requires forall i | 0 <= i < |calls| :: calls[i].caller < |fns|
    requires forall name :: Get(byName, name) == Rows(fns, name, |fns|)
    ensures forall u | u in upd :: u.1 < |calls| && u.0 < |fns|
    ensures forall k: nat | k < |calls| :: Applied(upd, k, calls[k]) == Resolved(fns, calls[k])
  {
    upd := [];
    for i := 0 to |calls|
      invariant Settles(fns, calls, upd, i)
    {
      var cands, file := Get(byName, calls[i].callee), fns[calls[i].caller].file;
      RowsAre(fns, calls[i].callee, |fns|);
      SettlesNext(fns, calls, upd, i);
      var same := SameFile(fns, cands, file);
      if |same| == 1 {
        SameFileAre(fns, cands, file);
        assert same[0] in same;
        upd := upd + [(same[0], i)];
        continue;
      }
      var glob := Global(fns, cands);
      if |glob| == 1 {
        GlobalAre(fns, cands);
        assert glob[0] in glob;
        upd := upd + [(glob[0], i)];
      }
    }
  }

  class Store {
    var fns: seq<Fn>
    var calls: seq<Call>
    var facts: seq<Fact>

    function Tables(): Graph
      reads this
    {
      Graph(fns, calls, facts)
    }

    /** _resolve: the updates are gathered first and applied at the end. */
    method Resolve()
      requires Closed(Tables())
      modifies this`calls
      ensures Closed(Tables()) && |calls| == |old(calls)|
      ensures forall i | 0 <= i < |calls| :: Settled(fns, old(calls)[i], calls[i])
    {
      var byName := IndexByName(fns);
      var upd := GatherUpdates(fns, calls, byName);
      for j := 0 to |upd|
        invariant Closed(Tables()) && |calls| == |old(calls)|
        invariant forall k: nat | k < |calls| :: calls[k] == Applied(upd[..j], k, old(calls)[k])
      {
        forall k: nat | k < |calls| {
          AppliedLast(upd[..j], upd[j], k, old(calls)[k]);
        }
        assert upd[..j + 1] == upd[..j] + [upd[j]];
        assert upd[j] in upd;
        var (target, row) := upd[j];
        calls := calls[row := calls[row].(resolved := Some(target))];
      }
      assert upd[..|upd|] == upd;
      forall i | 0 <= i < |calls| ensures Settled(fns, old(calls)[i], calls[i]) {
        ResolvedIsSettled(fns, old(calls)[i]);
      }
    }
  }

  /** The call relation of the resolved calls. */
  predicate Calls(g: Graph, a: nat, b: nat) {
    exists i :: 0 <= i < |g.calls| && g.calls[i].caller == a && g.calls[i].resolved == Some(b)
  }

  /** callees, in the order of function ids. */
  function Callees(g: Graph, a: nat): seq<nat> {
    CalleesBelow(g, a, |g.fns|)
  }

  function CalleesBelow(g: Graph, a: nat, n: nat): seq<nat> {
    if n == 0 then []
    else if Calls(g, a, n - 1) then CalleesBelow(g, a, n - 1) + [n - 1] else CalleesBelow(g, a, n - 1)
  }

  lemma {:induction false} CalleesBelowAre(g: Graph, a: nat, n: nat)
    ensures forall b: nat :: b in CalleesBelow(g, a, n) <==> b < n && Calls(g, a, b)
  {
    if n > 0 {
      CalleesBelowAre(g, a, n - 1);
    }
  }

  lemma {:induction false} CalleesAre(g: Graph, a: nat)
    requires Closed(g)
    ensures forall b: nat :: b in Callees(g, a) <==> Calls(g, a, b)
    ensures forall b: nat :: Calls(g, a, b) ==> b < |g.fns|
  {
    CalleesBelowAre(g, a, |g.fns|);
  }

  /** unresolved is not empty. */
  predicate HasUnresolved(g: Graph, a: nat) {
    exists i :: 0 <= i < |g.calls| && g.calls[i].caller == a && g.calls[i].resolved.None?
  }

  function Kinds(g: Graph, a: nat): set<string> {
    set i | 0 <= i < |g.facts| && g.facts[i].fn == a :: g.facts[i].kind
  }

  /** The searches see the resolved tables: a calls b exactly if some call in a goes to b, and a has an
      unresolved call exactly if some call in a goes nowhere. */
  lemma {:induction false} SeenResolved(before: Graph, after: Graph, a: nat)
    requires Closed(before) && after.fns == before.fns && |after.calls| == |before.calls|
    requires forall i | 0 <= i < |before.calls| :: before.calls[i].resolved.None?
    requires forall i | 0 <= i < |before.calls| :: Settled(before.fns, before.calls[i], after.calls[i])
    ensures forall b: nat :: b in Callees(after, a) <==>
      exists i :: 0 <= i < |before.calls| && before.calls[i].caller == a && GoesTo(before.fns, before.calls[i], b)
    ensures HasUnresolved(after, a) <==>
      exists i :: 0 <= i < |before.calls| && before.calls[i].caller == a
                  && forall b: nat :: !GoesTo(before.fns, before.calls[i], b)
  {
    forall i, b: nat | 0 <= i < |before.calls| && after.calls[i].resolved == Some(b)
      ensures b < |before.fns| && GoesTo(before.fns, before.calls[i], b)
    {
      assert Settled(before.fns, before.calls[i], after.calls[i]);
    }
    forall i, b: nat | 0 <= i < |before.calls| && GoesTo(before.fns, before.calls[i], b)
      ensures after.calls[i].resolved == Some(b)
    {
      assert Settled(before.fns, before.calls[i], after.calls[i]);
    }
    CalleesAre(after, a);
  }
}
