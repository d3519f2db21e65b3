/**
  Fitting the sections of a context pack into a token budget (tools/harness/context_pack.py): the
  cut at the end of build, and batches, which splits an oversized pack by function.
 */
module ContextPack {
  import opened Collections

  /** What a section's title says about it. */
  datatype Kind =
    | Header(i: nat, n: nat)                       // batch i/n
    | Invariants
    | Pitfalls(root: string)                       // known pitfalls of a module
    | Changed(fid: string, root: string)           // changed function, of a module
    | Evidence(fid: string, root: string)          // graph evidence
    | Candidate(root: string)                      // candidate function
    | Plain

  datatype Section = Section(kind: Kind, body: string, priority: int, tokens: nat)

  function EstTokens(body: string): nat {
    |body| * 10 / 32 + 1
  }

  function Tokens(ss: seq<Section>): nat {
    if ss == [] then 0 else ss[0].tokens + Tokens(ss[1..])
  }

  lemma {:induction false} TokensConcat(a: seq<Section>, b: seq<Section>)
    ensures Tokens(a + b) == Tokens(a) + Tokens(b)
  {
    if a == [] {
      assert a + b == b;
    } else {
      assert (a + b)[1..] == a[1..] + b;
      TokensConcat(a[1..], b);
    }
  }

  // ---- The budget cut of build -----------------------------------------------------------------

  /** a may be cut no later than b: a larger priority number, or as large and no fewer tokens. */
  predicate CutFirst(a: Section, b: Section) {
    a.priority > b.priority || (a.priority == b.priority && a.tokens >= b.tokens)
  }

  /** The stable sort by (-priority, -tokens). */
  function Insert(s: Section, ss: seq<Section>): seq<Section> {
    if ss == [] || CutFirst(s, ss[0]) then [s] + ss else [ss[0]] + Insert(s, ss[1..])
  }

  function CutOrder(ss: seq<Section>): seq<Section> {
    if ss == [] then [] else Insert(ss[0], CutOrder(ss[1..]))
  }

  predicate InOrder(ss: seq<Section>) {
    forall i, j | 0 <= i < j < |ss| :: CutFirst(ss[i], ss[j])
  }

  predicate Leads(a: Section, ss: seq<Section>) {
    forall j | 0 <= j < |ss| :: CutFirst(a, ss[j])
  }

  lemma {:induction false} LedInOrder(a: Section, ss: seq<Section>)
    requires Leads(a, ss) && InOrder(ss)
    ensures InOrder([a] + ss)
  {
  }

  lemma {:induction false} InsertIsLed(a: Section, s: Section, ss: seq<Section>)
    requires CutFirst(a, s) && Leads(a, ss)
    ensures Leads(a, Insert(s, ss))
  {
    if ss != [] && !CutFirst(s, ss[0]) {
      InsertIsLed(a, s, ss[1..]);
    }
  }

  lemma {:induction false} InsertKeeps(s: Section, ss: seq<Section>)
    requires InOrder(ss)
    ensures InOrder(Insert(s, ss))
  {
    if ss != [] && !CutFirst(s, ss[0]) {
      InsertKeeps(s, ss[1..]);
      InsertIsLed(ss[0], s, ss[1..]);
      LedInOrder(ss[0], Insert(s, ss[1..]));
    }
  }

  lemma {:induction false} InsertAdds(s: Section, ss: seq<Section>)
    ensures multiset(Insert(s, ss)) == multiset{s} + multiset(ss)
  {
    if ss != [] && !CutFirst(s, ss[0]) {
      InsertAdds(s, ss[1..]);
      assert ss == [ss[0]] + ss[1..];
    }
  }

  lemma {:induction false} CutOrderSorts(ss: seq<Section>)
    ensures InOrder(CutOrder(ss)) && multiset(CutOrder(ss)) == multiset(ss)
  {
    if ss != [] {
      CutOrderSorts(ss[1..]);
      InsertKeeps(ss[0], CutOrder(ss[1..]));
      InsertAdds(ss[0], CutOrder(ss[1..]));
      assert ss == [ss[0]] + ss[1..];
    }
  }

  /** The sections of one priority and one number of tokens. */
  function Alike(ss: seq<Section>, p: int, n: nat): seq<Section> {
    if ss == [] then []
    else (if ss[0].priority == p && ss[0].tokens == n then [ss[0]] else []) + Alike(ss[1..], p, n)
  }

  lemma {:induction false} InsertKeepsTies(s: Section, ss: seq<Section>, p: int, n: nat)
    ensures Alike(Insert(s, ss), p, n) == Alike([s] + ss, p, n)
  {
    assert ([s] + ss)[1..] == ss;
    if ss != [] && !CutFirst(s, ss[0]) {
      InsertKeepsTies(s, ss[1..], p, n);
      assert ([s] + ss[1..])[1..] == ss[1..];
      assert ([ss[0]] + Insert(s, ss[1..]))[1..] == Insert(s, ss[1..]);
    }
  }

  /** Sections of the same priority and as many tokens keep their order. */
  lemma {:induction false} TiesKeepOrder(ss: seq<Section>, p: int, n: nat)
    ensures Alike(CutOrder(ss), p, n) == Alike(ss, p, n)
  {
    if ss != [] {
      TiesKeepOrder(ss[1..], p, n);
      var rest := CutOrder(ss[1..]);
      InsertKeepsTies(ss[0], rest, p, n);
      assert ([ss[0]] + rest)[1..] == rest;
    }
  }

  /** list.remove: the first equal section. */
  function Remove(ss: seq<Section>, s: Section): seq<Section> {
    if ss == [] then [] else if ss[0] == s then ss[1..] else [ss[0]] + Remove(ss[1..], s)
  }

  lemma {:induction false} RemoveOne(ss: seq<Section>, s: Section)
    requires s in ss
    ensures multiset(Remove(ss, s)) == multiset(ss) - multiset{s}
    ensures Tokens(Remove(ss, s)) == Tokens(ss) - s.tokens
  {
    assert ss == [ss[0]] + ss[1..];
    if ss[0] != s {
      RemoveOne(ss[1..], s);
      assert ([ss[0]] + Remove(ss[1..], s))[1..] == Remove(ss[1..], s);
    }
  }

  /** The sections without the dropped ones; the others keep their order. */
  function RemoveAll(ss: seq<Section>, dropped: seq<Section>): seq<Section> {
    if dropped == [] then ss else Remove(RemoveAll(ss, dropped[..|dropped| - 1]), dropped[|dropped| - 1])
  }

  /** The sections that may be dropped. */
  function Droppable(ss: seq<Section>): seq<Section> {
    if ss == [] then [] else if ss[0].priority > 2 then [ss[0]] + Droppable(ss[1..]) else Droppable(ss[1..])
  }

  /** What the cut promises about the sections kept and dropped. */
  ghost predicate FairCut(sections: seq<Section>, budget: int, kept: seq<Section>, dropped: seq<Section>) {
    && multiset(kept) + multiset(dropped) == multiset(sections)
    && (forall d | d in dropped :: d.priority > 2)
    && (forall d, k | d in dropped && k in kept && k.priority > 2 ::
          d.priority > k.priority || (d.priority == k.priority && d.tokens >= k.tokens))
    && (Tokens(kept) <= budget || forall k | k in kept :: k.priority <= 2)
    && (dropped != [] ==> Tokens(kept) + dropped[|dropped| - 1].tokens > budget)
  }

  /** What has been dropped so far, in which order, and what it leaves. */
  predicate InLine(sections: seq<Section>, rest: seq<Section>, kept: seq<Section>, dropped: seq<Section>) {
    kept == RemoveAll(sections, dropped) && dropped + Droppable(rest) == Droppable(CutOrder(sections))
  }

  /** Every section is kept or dropped, and of the kept ones those that may go are still to be looked at. */
  ghost predicate Accounted(sections: seq<Section>, rest: seq<Section>, kept: seq<Section>, dropped: seq<Section>) {
    && multiset(kept) + multiset(dropped) == multiset(sections)
    && multiset(rest) <= multiset(kept)
    && (forall k: Section :: k.priority > 2 ==> multiset(kept)[k] == multiset(rest)[k])
  }

  /** The dropped sections were droppable, and none of the rest should have gone before them. */
  ghost predicate InTurn(rest: seq<Section>, dropped: seq<Section>) {
    && InOrder(rest)
    && (forall d | d in dropped :: d.priority > 2)
    && (forall d, k | d in dropped && k in rest :: CutFirst(d, k))
  }

  /** The cut with the sections of `rest` still to look at. */
  ghost predicate Cutting(sections: seq<Section>, budget: int, rest: seq<Section>, kept: seq<Section>,
                          dropped: seq<Section>) {
    && Accounted(sections, rest, kept, dropped) && InTurn(rest, dropped)
    && (dropped != [] ==> Tokens(kept) + dropped[|dropped| - 1].tokens > budget)
  }

  lemma {:induction false} CutSkips(sections: seq<Section>, budget: int, s: Section, rest: seq<Section>,
                                    kept: seq<Section>, dropped: seq<Section>)
    requires Cutting(sections, budget, [s] + rest, kept, dropped) && s.priority <= 2
    ensures Cutting(sections, budget, rest, kept, dropped)
  {
    assert ([s] + rest)[1..] == rest;
    assert multiset([s] + rest) == multiset{s} + multiset(rest);
  }

  lemma {:induction false} DropAccounts(sections: seq<Section>, s: Section, rest: seq<Section>, kept: seq<Section>,
                                        dropped: seq<Section>, left: seq<Section>)
    requires Accounted(sections, [s] + rest, kept, dropped) && s.priority > 2
    requires s in kept && multiset(left) == multiset(kept) - multiset{s}
    ensures Accounted(sections, rest, left, dropped + [s])
  {
    assert multiset([s] + rest) == multiset{s} + multiset(rest);
    assert multiset(dropped + [s]) == multiset(dropped) + multiset{s};
  }

  lemma {:induction false} DropInTurn(s: Section, rest: seq<Section>, dropped: seq<Section>)
    requires InTurn([s] + rest, dropped) && s.priority > 2
    ensures InTurn(rest, dropped + [s])
  {
    var order := [s] + rest;
    assert order[1..] == rest && order[0] == s;
    forall k | k in rest ensures CutFirst(s, k) && k in order {
      var j :| 0 <= j < |rest| && rest[j] == k;
      assert CutFirst(order[0], order[j + 1]);
    }
  }

  lemma {:induction false} CutDrops(sections: seq<Section>, budget: int, s: Section, rest: seq<Section>,
                                    kept: seq<Section>, dropped: seq<Section>)
    requires Cutting(sections, budget, [s] + rest, kept, dropped) && s.priority > 2 && Tokens(kept) > budget
    ensures Cutting(sections, budget, rest, Remove(kept, s), dropped + [s])
    ensures Tokens(Remove(kept, s)) == Tokens(kept) - s.tokens
  {
    assert s in multiset([s] + rest) && s in multiset(kept);
    RemoveOne(kept, s);
    DropAccounts(sections, s, rest, kept, dropped, Remove(kept, s));
    DropInTurn(s, rest, dropped);
  }

  lemma {:induction false} CutEnds(sections: seq<Section>, budget: int, rest: seq<Section>, kept: seq<Section>,
                                   dropped: seq<Section>)
    requires Cutting(sections, budget, rest, kept, dropped) && (Tokens(kept) <= budget || rest == [])
    ensures FairCut(sections, budget, kept, dropped)
  {
    forall k | k in kept && k.priority > 2 ensures k in rest {
      assert multiset(kept)[k] > 0 && k in multiset(rest);
    }
  }

  lemma {:induction false} LineStep(sections: seq<Section>, s: Section, rest: seq<Section>, kept: seq<Section>,
                                    dropped: seq<Section>)
    requires InLine(sections, [s] + rest, kept, dropped)
    ensures s.priority <= 2 ==> InLine(sections, rest, kept, dropped)
    ensures s.priority > 2 ==> InLine(sections, rest, Remove(kept, s), dropped + [s])
  {
    assert ([s] + rest)[1..] == rest;
    assert (dropped + [s])[..|dropped|] == dropped;
    Assoc(dropped, [s], Droppable(rest));
  }

  /** The loop from a point where the sections of `rest` are still to look at. */
  function CutFrom(rest: seq<Section>, kept: seq<Section>, dropped: seq<Section>, budget: int)
    : (seq<Section>, seq<Section>)
  {
    if rest == [] || Tokens(kept) <= budget then (kept, dropped)
    else if rest[0].priority <= 2 then CutFrom(rest[1..], kept, dropped, budget)
    else CutFrom(rest[1..], Remove(kept, rest[0]), dropped + [rest[0]], budget)
  }

  lemma {:induction false} CutFromIsFair(sections: seq<Section>, budget: int, rest: seq<Section>, kept: seq<Section>,
                                        dropped: seq<Section>)
    requires Cutting(sections, budget, rest, kept, dropped)
    ensures var (k, d) := CutFrom(rest, kept, dropped, budget);
            FairCut(sections, budget, k, d)
    decreases |rest|
  {
    if rest == [] || Tokens(kept) <= budget {
      CutEnds(sections, budget, rest, kept, dropped);
    } else {
      var s, tail := rest[0], rest[1..];
      assert rest == [s] + tail;
      if s.priority <= 2 {
        CutSkips(sections, budget, s, tail, kept, dropped);
        CutFromIsFair(sections, budget, tail, kept, dropped);
      } else {
        CutDrops(sections, budget, s, tail, kept, dropped);
        CutFromIsFair(sections, budget, tail, Remove(kept, s), dropped + [s]);
      }
    }
  }

  lemma {:induction false} CutFromInLine(sections: seq<Section>, budget: int, rest: seq<Section>, kept: seq<Section>,
                                        dropped: seq<Section>)
    requires InLine(sections, rest, kept, dropped)
    ensures var (k, d) := CutFrom(rest, kept, dropped, budget);
            k == RemoveAll(sections, d) && d <= Droppable(CutOrder(sections))
    decreases |rest|
  {
    if rest != [] && Tokens(kept) > budget {
      var s, tail := rest[0], rest[1..];
      assert rest == [s] + tail;
      LineStep(sections, s, tail, kept, dropped);
      if s.priority <= 2 {
        CutFromInLine(sections, budget, tail, kept, dropped);
      } else {
        CutFromInLine(sections, budget, tail, Remove(kept, s), dropped + [s]);
      }
    }
  }

  lemma {:induction false} CutBegins(sections: seq<Section>, budget: int)
    ensures Cutting(sections, budget, CutOrder(sections), sections, [])
    ensures InLine(sections, CutOrder(sections), sections, [])
  {
    CutOrderSorts(sections);
  }

  /** The cut at the end of build: sections are dropped from the largest priority number on, and
      only as many as the budget asks for. */
  method Cut(sections: seq<Section>, budget: int) returns (kept: seq<Section>, dropped: seq<Section>)
    ensures FairCut(sections, budget, kept, dropped)
    ensures kept == RemoveAll(sections, dropped) && dropped <= Droppable(CutOrder(sections))
  {
    kept, dropped := sections, [];
    var total := Tokens(sections);
    var order := CutOrder(sections);
    CutOrderSorts(sections);
    for i := 0 to |order|
      invariant total == Tokens(kept)
      invariant multiset(order[i..]) <= multiset(kept)
      invariant CutFrom(order[i..], kept, dropped, budget) == CutFrom(order, sections, [], budget)
    {
      var s := order[i];
      if total <= budget {
        break;
      }
      TailStep(order, i, kept);
      if s.priority <= 2 {
        continue;
      }
      kept, dropped := Remove(kept, s), dropped + [s];
      total := total - s.tokens;
    }
    CutBegins(sections, budget);
    CutFromIsFair(sections, budget, order, sections, []);
    CutFromInLine(sections, budget, order, sections, []);
  }

  lemma {:induction false} TailStep(order: seq<Section>, i: nat, kept: seq<Section>)
    requires i < |order| && multiset(order[i..]) <= multiset(kept)
    ensures order[i..] != [] && order[i..][0] == order[i] && order[i..][1..] == order[i + 1..]
    ensures multiset(order[i + 1..]) <= multiset(kept)
    ensures multiset(order[i + 1..]) <= multiset(Remove(kept, order[i]))
    ensures Tokens(Remove(kept, order[i])) == Tokens(kept) - order[i].tokens
  {
    DropStep(order, i);
    assert multiset(order[i..]) == multiset{order[i]} + multiset(order[i + 1..]);
    assert order[i] in multiset(kept);
    RemoveOne(kept, order[i]);
  }
}
