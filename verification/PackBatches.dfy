/**
  Splitting an oversized context pack by function (batches in tools/harness/context_pack.py).
  Sections are values here: the pack that is split keeps its sections.
 */
module PackBatches {
  import opened Collections
  import opened ContextPack

  predicate IsPitfalls(s: Section) {
    s.kind.Pitfalls?
  }

  predicate IsShared(s: Section) {
    (s.priority >= 5 || s.kind.Invariants?) && !IsPitfalls(s)
  }

  const OTHER := "_other"

  /** The function a section belongs to. */
  function KeyOf(s: Section): string {
    if s.kind.Changed? || s.kind.Evidence? then s.kind.fid else OTHER
  }

  /** The modules of the functions that the sections speak of. */
  function Roots(ss: seq<Section>): set<string> {
    if ss == [] then {}
    else
      var k := ss[0].kind;
      (if k.Changed? || k.Evidence? || k.Candidate? then {k.root} else {}) + Roots(ss[1..])
  }

  function Shared(ss: seq<Section>): seq<Section> {
    if ss == [] then [] else if IsShared(ss[0]) then [ss[0]] + Shared(ss[1..]) else Shared(ss[1..])
  }

  function Scoped(ss: seq<Section>): seq<Section> {
    if ss == [] then [] else if IsPitfalls(ss[0]) then [ss[0]] + Scoped(ss[1..]) else Scoped(ss[1..])
  }

  predicate IsOwn(s: Section) {
    !IsShared(s) && !IsPitfalls(s)
  }

  /** The sections of one function, in order. */
  function OfKey(ss: seq<Section>, key: string): seq<Section> {
    if ss == [] then []
    else if IsOwn(ss[|ss| - 1]) && KeyOf(ss[|ss| - 1]) == key then OfKey(ss[..|ss| - 1], key) + [ss[|ss| - 1]]
    else OfKey(ss[..|ss| - 1], key)
  }

  /** The functions in the order of their first section. */
  function Order(ss: seq<Section>): seq<string> {
    if ss == [] then []
    else
      var front, last := Order(ss[..|ss| - 1]), ss[|ss| - 1];
      if IsOwn(last) && KeyOf(last) !in front then front + [KeyOf(last)] else front
  }

  /** scoped_for: the pitfall sections of these modules. */
  function ScopedFor(scoped: seq<Section>, roots: set<string>): seq<Section> {
    if scoped == [] then []
    else if scoped[0].kind.Pitfalls? && scoped[0].kind.root in roots then [scoped[0]] + ScopedFor(scoped[1..], roots)
    else ScopedFor(scoped[1..], roots)
  }

  /** need: the tokens of the pitfall sections that come with `new` modules beside those at hand. */
  function Need(scoped: seq<Section>, extra: set<string>, have: set<string>): nat {
    if scoped == [] then 0
    else if scoped[0].kind.Pitfalls? && scoped[0].kind.root in have + extra && scoped[0].kind.root !in have then
      scoped[0].tokens + Need(scoped[1..], extra, have)
    else Need(scoped[1..], extra, have)
  }

  function Digits(n: nat): string {
    if n < 10 then [['0', '1', '2', '3', '4', '5', '6', '7', '8', '9'][n]] else Digits(n / 10) + Digits(n % 10)
  }

  function Note(tokens: nat): string {
    "\n      ... (truncated to fit batch budget: " + Digits(tokens) + " tok; ask for the rest by line range)\n```"
  }

  predicate IsDigit(c: char) {
    '0' <= c <= '9'
  }

  /** The number that decimal digits stand for. */
  function NumberOf(s: string): int {
    if s == [] then 0 else 10 * NumberOf(s[..|s| - 1]) + (s[|s| - 1] as int - '0' as int)
  }

  lemma {:induction false} DigitsAreOf(n: nat)
    ensures NumberOf(Digits(n)) == n && forall d | d in Digits(n) :: IsDigit(d)
  {
    if n >= 10 {
      DigitsAreOf(n / 10);
      assert Digits(n)[..|Digits(n)| - 1] == Digits(n / 10);
      assert Digits(n)[|Digits(n)| - 1] as int - '0' as int == n % 10;
    } else {
      assert Digits(n)[..0] == [];
    }
  }

  /** The note tells the number of tokens of the whole text. */
  lemma {:induction false} NoteTells(tokens: nat) returns (i: nat, j: nat)
    ensures i < j < |Note(tokens)| && NumberOf(Note(tokens)[i..j]) == tokens
    ensures forall d | d in Note(tokens)[i..j] :: IsDigit(d)
  {
    DigitsAreOf(tokens);
    i := |"\n      ... (truncated to fit batch budget: "|;
    j := i + |Digits(tokens)|;
    assert Note(tokens)[i..j] == Digits(tokens);
  }

  /** The part of a text of length n that a share of `half` tokens out of `tokens` allows. */
  function Share(n: nat, half: nat, tokens: nat): (keep: nat)
    requires half < tokens
    ensures keep <= n
  {
    ShareFits(n, half, tokens);
    n * half / tokens
  }

  lemma {:induction false} ShareFits(n: nat, half: nat, tokens: nat)
    requires half < tokens
    ensures 0 <= n * half / tokens <= n
  {
    Times(half, tokens, n);
    Quotient(n * half, n, tokens);
  }

  lemma {:induction false} Quotient(a: nat, n: nat, t: nat)
    requires t > 0 && a <= t * n
    ensures 0 <= a / t <= n
  {
    var q := a / t;
    assert q * t <= a;
    if q > n {
      TimesStrict(n, q, t);
    }
  }

  lemma {:induction false} Times(a: int, b: int, c: nat)
    requires a <= b
    ensures a * c <= b * c
  {
  }

  lemma {:induction false} TimesStrict(a: int, b: int, c: nat)
    requires a < b && c > 0
    ensures a * c < b * c
  {
  }

  /** The text of a changed function that takes more than half the budget is cut to that share. */
  function Truncated(s: Section, budget: nat): Section {
    if s.kind.Changed? && s.tokens > budget / 2 then
      var body := s.body[..Share(|s.body|, budget / 2, s.tokens)] + Note(s.tokens);
      s.(body := body, tokens := EstTokens(body))
    else s
  }

  function TruncateAll(ss: seq<Section>, budget: nat): seq<Section> {
    if ss == [] then [] else [Truncated(ss[0], budget)] + TruncateAll(ss[1..], budget)
  }

  /** The sections of a function as they go into a batch. */
  function Fitted(pack: seq<Section>, key: string, budget: nat): seq<Section> {
    var secs := OfKey(pack, key);
    if Tokens(secs) + Tokens(Shared(pack)) + Need(Scoped(pack), Roots(secs), {}) > budget then TruncateAll(secs, budget)
    else secs
  }

  /** Of a text that is cut, the kept part bears the proportion to the whole that half the budget bears
      to its tokens, rounded down; the note follows it, and 3.2 characters make a token.  Nothing else is
      cut. */
  lemma {:induction false} TruncatedIs(s: Section, budget: nat) returns (keep: nat)
    ensures s.kind.Changed? && s.tokens > budget / 2 ==>
      && keep <= |s.body| && Truncated(s, budget).body == s.body[..keep] + Note(s.tokens)
      && keep * s.tokens <= |s.body| * (budget / 2) < (keep + 1) * s.tokens
      && 32 * (Truncated(s, budget).tokens - 1) <= 10 * |s.body[..keep] + Note(s.tokens)|
      && 10 * |s.body[..keep] + Note(s.tokens)| < 32 * Truncated(s, budget).tokens
    ensures Truncated(s, budget).kind == s.kind && Truncated(s, budget).priority == s.priority
    ensures !(s.kind.Changed? && s.tokens > budget / 2) ==> Truncated(s, budget) == s
  {
    keep := 0;
    if s.kind.Changed? && s.tokens > budget / 2 {
      keep := Share(|s.body|, budget / 2, s.tokens);
      Floor(|s.body| * (budget / 2), s.tokens);
    }
  }

  lemma {:induction false} Floor(a: nat, t: nat)
    requires t > 0
    ensures (a / t) * t <= a < (a / t + 1) * t
  {
  }

  lemma {:induction false} TruncateAllAt(ss: seq<Section>, budget: nat, i: nat)
    requires i < |ss|
    ensures |TruncateAll(ss, budget)| == |ss| && TruncateAll(ss, budget)[i] == Truncated(ss[i], budget)
  {
    if |ss| > 1 {
      TruncateAllAt(ss[1..], budget, if i > 0 then i - 1 else 0);
    }
  }

  /** A function stays whole exactly if, with the shared sections and the pitfalls of its modules, it is
      within the budget, or nothing in it is too large for half of it. */
  lemma {:induction false} FittedMeans(pack: seq<Section>, key: string, budget: nat, i: nat)
    requires i < |OfKey(pack, key)|
    ensures var secs := OfKey(pack, key);
      var all := Tokens(secs) + Tokens(Shared(pack)) + Tokens(ScopedFor(Scoped(pack), Roots(secs)));
      && |Fitted(pack, key, budget)| == |secs|
      && Fitted(pack, key, budget)[i] == if all <= budget then secs[i] else Truncated(secs[i], budget)
  {
    var secs := OfKey(pack, key);
    NeedAdds(Scoped(pack), Roots(secs), {});
    NoRoots(Scoped(pack));
    assert {} + Roots(secs) == Roots(secs);
    TruncateAllAt(secs, budget, i);
  }

  /** The sections of a group of functions. */
  function Joined(pack: seq<Section>, keys: seq<string>, budget: nat): seq<Section> {
    if keys == [] then [] else Fitted(pack, keys[0], budget) + Joined(pack, keys[1..], budget)
  }

  /** A batch without its header: shared sections, pitfalls of its modules, its functions. */
  function Body(pack: seq<Section>, keys: seq<string>, budget: nat): seq<Section> {
    var own := Joined(pack, keys, budget);
    Shared(pack) + ScopedFor(Scoped(pack), Roots(own)) + own
  }

  lemma {:induction false} TruncateKeepsRoots(ss: seq<Section>, budget: nat)
    ensures Roots(TruncateAll(ss, budget)) == Roots(ss) && |TruncateAll(ss, budget)| == |ss|
  {
    if ss != [] {
      TruncateKeepsRoots(ss[1..], budget);
      assert TruncateAll(ss, budget)[1..] == TruncateAll(ss[1..], budget);
    }
  }

  lemma {:induction false} RootsConcat(a: seq<Section>, b: seq<Section>)
    ensures Roots(a + b) == Roots(a) + Roots(b)
  {
    if a == [] {
      assert a + b == b;
    } else {
      assert (a + b)[1..] == a[1..] + b;
      RootsConcat(a[1..], b);
    }
  }

  /** What need counts is what the batch's pitfall sections grow by. */
  lemma {:induction false} NeedAdds(scoped: seq<Section>, extra: set<string>, have: set<string>)
    ensures Tokens(ScopedFor(scoped, have + extra)) == Tokens(ScopedFor(scoped, have)) + Need(scoped, extra, have)
  {
    if scoped != [] {
      NeedAdds(scoped[1..], extra, have);
      var a, b := ScopedFor(scoped[1..], have + extra), ScopedFor(scoped[1..], have);
      assert ([scoped[0]] + a)[1..] == a && ([scoped[0]] + b)[1..] == b;
    }
  }

  function BodyTokens(pack: seq<Section>, own: seq<Section>): nat {
    Tokens(Shared(pack)) + Tokens(ScopedFor(Scoped(pack), Roots(own))) + Tokens(own)
  }

  lemma {:induction false} BodyTokensAre(pack: seq<Section>, keys: seq<string>, budget: nat)
    ensures Tokens(Body(pack, keys, budget)) == BodyTokens(pack, Joined(pack, keys, budget))
  {
    var own := Joined(pack, keys, budget);
    var scoped := ScopedFor(Scoped(pack), Roots(own));
    TokensConcat(Shared(pack) + scoped, own);
    TokensConcat(Shared(pack), scoped);
  }

  lemma {:induction false} BodyTokensGrow(pack: seq<Section>, own: seq<Section>, secs: seq<Section>)
    ensures BodyTokens(pack, own + secs)
         == BodyTokens(pack, own) + Tokens(secs) + Need(Scoped(pack), Roots(secs), Roots(own))
  {
    RootsConcat(own, secs);
    TokensConcat(own, secs);
    NeedAdds(Scoped(pack), Roots(secs), Roots(own));
  }

  lemma {:induction false} JoinedPush(pack: seq<Section>, keys: seq<string>, key: string, budget: nat)
    ensures Joined(pack, keys + [key], budget) == Joined(pack, keys, budget) + Fitted(pack, key, budget)
  {
    if keys == [] {
      assert [] + [key] == [key];
    } else {
      assert (keys + [key])[1..] == keys[1..] + [key];
      JoinedPush(pack, keys[1..], key, budget);
      Assoc(Fitted(pack, keys[0], budget), Joined(pack, keys[1..], budget), Fitted(pack, key, budget));
    }
  }

  predicate DistinctKeys(s: seq<string>) {
    forall i, j | 0 <= i < j < |s| :: s[i] != s[j]
  }

  /** The functions are listed once each, and each has sections. */
  lemma {:induction false} OrderIs(ss: seq<Section>)
    ensures DistinctKeys(Order(ss))
    ensures forall key | key in Order(ss) :: OfKey(ss, key) != []
    ensures forall s | s in ss && IsOwn(s) :: KeyOf(s) in Order(ss)
  {
    if ss != [] {
      OrderIs(ss[..|ss| - 1]);
      assert ss == ss[..|ss| - 1] + [ss[|ss| - 1]];
    }
  }

  /** A section that is neither shared nor about pitfalls stands in its function's list as often as
      in the pack, and in no other. */
  lemma {:induction false} OwnListOnly(ss: seq<Section>, key: string, s: Section)
    ensures multiset(OfKey(ss, key))[s]
         == if !s.kind.Pitfalls? && s.priority < 5 && !s.kind.Invariants?
               && key == (if s.kind.Changed? || s.kind.Evidence? then s.kind.fid else "_other")
            then multiset(ss)[s] else 0
  {
    if ss != [] {
      OwnListOnly(ss[..|ss| - 1], key, s);
      assert ss == ss[..|ss| - 1] + [ss[|ss| - 1]];
    }
  }

  /** The sections of a function keep their order. */
  lemma {:induction false} OfKeyInOrder(a: seq<Section>, b: seq<Section>, key: string)
    ensures OfKey(a + b, key) == OfKey(a, key) + OfKey(b, key)
  {
    if b == [] {
      assert a + b == a;
    } else {
      assert (a + b)[..|a + b| - 1] == a + b[..|b| - 1];
      OfKeyInOrder(a, b[..|b| - 1], key);
    }
  }

  predicate OwnedAt(ss: seq<Section>, k: nat, key: string) {
    k < |ss| && IsOwn(ss[k]) && KeyOf(ss[k]) == key
  }

  /** A function comes before another as its first section does. */
  lemma {:induction false} OrderByFirst(ss: seq<Section>, i: nat, j: nat) returns (k: nat)
    requires i < j < |Order(ss)|
    ensures OwnedAt(ss, k, Order(ss)[i]) && forall m: nat | m <= k :: !OwnedAt(ss, m, Order(ss)[j])
  {
    var front := ss[..|ss| - 1];
    if j < |Order(front)| {
      k := OrderByFirst(front, i, j);
      assert forall m: nat | m <= k :: ss[m] == front[m];
      forall m: nat | m <= k ensures !OwnedAt(ss, m, Order(ss)[j]) {
        assert !OwnedAt(front, m, Order(ss)[j]);
      }
    } else {
      k := Owner(front, Order(ss)[i]);
      OrderIs(front);
      forall m: nat | m <= k ensures !OwnedAt(ss, m, Order(ss)[j]) {
        assert front[m] == ss[m] && front[m] in front;
      }
    }
  }

  lemma {:induction false} Owner(ss: seq<Section>, key: string) returns (k: nat)
    requires key in Order(ss)
    ensures OwnedAt(ss, k, key)
  {
    var front := ss[..|ss| - 1];
    if key in Order(front) {
      k := Owner(front, key);
      assert ss[k] == front[k];
    } else {
      k := |ss| - 1;
    }
  }

  /** The loop that gathers the sections of each function. */
  method GroupByKey(pack: seq<Section>) returns (order: seq<string>, perFn: map<string, seq<Section>>)
    ensures order == Order(pack) && perFn.Keys == set key | key in order
    ensures forall key | key in order :: perFn[key] == OfKey(pack, key)
  {
    order, perFn := [], map[];
    for i := 0 to |pack|
      invariant order == Order(pack[..i]) && perFn.Keys == set key | key in order
      invariant forall key | key in order :: perFn[key] == OfKey(pack[..i], key)
      invariant forall key | key !in order :: OfKey(pack[..i], key) == []
    {
      assert pack[..i + 1][..i] == pack[..i];
      var s := pack[i];
      if IsShared(s) || IsPitfalls(s) {
        continue;
      }
      var key := KeyOf(s);
      if key !in perFn {
        perFn, order := perFn[key := []], order + [key];
      }
      perFn := perFn[key := perFn[key] + [s]];
    }
    assert pack[..|pack|] == pack;
  }

  /** A group of functions that batches lets stand: one function, or several within 0.7 of the budget. */
  ghost predicate Stands(pack: seq<Section>, budget: nat, g: seq<string>) {
    g != [] && (|g| >= 2 ==> 10 * Tokens(Body(pack, g, budget)) <= 7 * budget)
  }

  /** The next function would not have fitted into the group before it. */
  ghost predicate Full(pack: seq<Section>, budget: nat, g: seq<string>, next: seq<string>) {
    next != [] && 10 * Tokens(Body(pack, g + [next[0]], budget)) > 7 * budget
  }

  ghost predicate StandsAt(pack: seq<Section>, budget: nat, groups: seq<seq<string>>, i: nat)
    requires i < |groups|
  {
    Stands(pack, budget, groups[i])
  }

  ghost predicate FullAt(pack: seq<Section>, budget: nat, groups: seq<seq<string>>, i: nat)
    requires i < |groups|
  {
    i + 1 < |groups| ==> Full(pack, budget, groups[i], groups[i + 1])
  }

  ghost predicate SplitWell(pack: seq<Section>, budget: nat, groups: seq<seq<string>>) {
    forall i: nat | i < |groups| :: StandsAt(pack, budget, groups, i) && FullAt(pack, budget, groups, i)
  }

  lemma {:induction false} SplitGrows(pack: seq<Section>, budget: nat, groups: seq<seq<string>>, cur: seq<string>,
                                      key: string)
    requires SplitWell(pack, budget, groups + [cur]) && Stands(pack, budget, cur + [key])
    ensures SplitWell(pack, budget, groups + [cur + [key]])
  {
    var a, b := groups + [cur], groups + [cur + [key]];
    assert StandsAt(pack, budget, a, |groups|);
    forall i: nat | i < |b| ensures StandsAt(pack, budget, b, i) && FullAt(pack, budget, b, i) {
      assert StandsAt(pack, budget, a, i) && FullAt(pack, budget, a, i);
    }
  }

  lemma {:induction false} SplitCloses(pack: seq<Section>, budget: nat, groups: seq<seq<string>>, cur: seq<string>,
                                       key: string)
    requires SplitWell(pack, budget, groups + [cur]) && Full(pack, budget, cur, [key])
    ensures SplitWell(pack, budget, groups + [cur] + [[key]])
  {
    var a, b := groups + [cur], groups + [cur] + [[key]];
    forall i: nat | i < |b| ensures StandsAt(pack, budget, b, i) && FullAt(pack, budget, b, i) {
      assert i < |a| ==> StandsAt(pack, budget, a, i) && FullAt(pack, budget, a, i);
    }
  }

  /** The bodies of the batches of the groups. */
  function Bodies(pack: seq<Section>, budget: nat, groups: seq<seq<string>>): seq<seq<Section>> {
    if groups == [] then []
    else [Body(pack, groups[0], budget)] + Bodies(pack, budget, groups[1..])
  }

  lemma {:induction false} BodiesPush(pack: seq<Section>, budget: nat, groups: seq<seq<string>>, g: seq<string>)
    ensures Bodies(pack, budget, groups + [g]) == Bodies(pack, budget, groups) + [Body(pack, g, budget)]
  {
    if groups == [] {
      assert [] + [g] == [g];
    } else {
      assert (groups + [g])[1..] == groups[1..] + [g];
      BodiesPush(pack, budget, groups[1..], g);
      Assoc([Body(pack, groups[0], budget)], Bodies(pack, budget, groups[1..]), [Body(pack, g, budget)]);
    }
  }

  /** Where the loop of batches stands: the closed groups and the open one. */
  ghost predicate Splitting(pack: seq<Section>, budget: nat, done: seq<string>, groups: seq<seq<string>>,
                            cur: seq<string>) {
    && Flatten(groups + [cur]) == done
    && (cur == [] ==> groups == [])
    && (cur != [] ==> SplitWell(pack, budget, groups + [cur]))
  }

  lemma {:induction false} NextKey(pack: seq<Section>, budget: nat, done: seq<string>, groups: seq<seq<string>>,
                                   cur: seq<string>, key: string)
    requires Splitting(pack, budget, done, groups, cur)
    ensures Stands(pack, budget, cur + [key]) ==> Splitting(pack, budget, done + [key], groups, cur + [key])
    ensures cur != [] && Full(pack, budget, cur, [key]) ==>
      Splitting(pack, budget, done + [key], groups + [cur], [key])
  {
    FlattenPush(groups, cur);
    FlattenPush(groups, cur + [key]);
    FlattenPush(groups + [cur], [key]);
    Assoc(Flatten(groups), cur, [key]);
    if cur == [] {
      assert groups + [cur + [key]] == [cur + [key]];
    } else {
      if Stands(pack, budget, cur + [key]) {
        SplitGrows(pack, budget, groups, cur, key);
      }
      if Full(pack, budget, cur, [key]) {
        SplitCloses(pack, budget, groups, cur, key);
      }
    }
  }

  lemma {:induction false} BodiesAt(pack: seq<Section>, budget: nat, groups: seq<seq<string>>, i: nat)
    requires i < |groups|
    ensures |Bodies(pack, budget, groups)| == |groups|
    ensures Bodies(pack, budget, groups)[i] == Body(pack, groups[i], budget)
  {
    if |groups| > 1 {
      BodiesAt(pack, budget, groups[1..], if i > 0 then i - 1 else 0);
    }
  }

  /** The loop that cuts the texts of a function too large for the budget. */
  method Truncate(secs: seq<Section>, budget: nat) returns (cut: seq<Section>)
    ensures cut == TruncateAll(secs, budget)
  {
    cut := [];
    for i := 0 to |secs|
      invariant cut + TruncateAll(secs[i..], budget) == TruncateAll(secs, budget)
    {
      DropStep(secs, i);
      var sec := secs[i];
      if sec.kind.Changed? && sec.tokens > budget / 2 {
        var keep := Share(|sec.body|, budget / 2, sec.tokens);
        var body := sec.body[..keep] + Note(sec.tokens);
        sec := sec.(body := body, tokens := EstTokens(body));
      }
      assert TruncateAll(secs[i..], budget) == [sec] + TruncateAll(secs[i + 1..], budget);
      Assoc(cut, [sec], TruncateAll(secs[i + 1..], budget));
      cut := cut + [sec];
    }
  }

  function HeaderOf(i: nat, n: nat, notice: string): Section {
    Section(Header(i, n), notice, 0, EstTokens(notice))
  }

  lemma {:induction false} NoRoots(scoped: seq<Section>)
    ensures ScopedFor(scoped, {}) == []
  {
    if scoped != [] {
      NoRoots(scoped[1..]);
    }
  }

  lemma {:induction false} FittedIs(pack: seq<Section>, key: string, budget: nat)
    requires key in Order(pack)
    ensures Fitted(pack, key, budget) != [] && Roots(Fitted(pack, key, budget)) == Roots(OfKey(pack, key))
  {
    OrderIs(pack);
    TruncateKeepsRoots(OfKey(pack, key), budget);
  }

  /** The tokens of the open batch with one more function. */
  lemma {:induction false} OneMore(pack: seq<Section>, budget: nat, keys: seq<string>, key: string, own: seq<Section>,
                                   secs: seq<Section>)
    requires own == Joined(pack, keys, budget) && secs == Fitted(pack, key, budget)
    ensures own + secs == Joined(pack, keys + [key], budget)
    ensures Tokens(Body(pack, keys + [key], budget)) == BodyTokens(pack, own + secs)
    ensures BodyTokens(pack, own + secs)
         == BodyTokens(pack, own) + Tokens(secs) + Need(Scoped(pack), Roots(secs), Roots(own))
  {
    JoinedPush(pack, keys, key, budget);
    BodyTokensAre(pack, keys + [key], budget);
    BodyTokensGrow(pack, own, secs);
  }

  /** What each function brings, in the order of the functions. */
  function Parts(pack: seq<Section>, budget: nat, order: seq<string>): (parts: seq<seq<Section>>)
    ensures |parts| == |order|
  {
    if order == [] then []
    else [Fitted(pack, order[0], budget)] + Parts(pack, budget, order[1..])
  }

  lemma {:induction false} PartsAt(pack: seq<Section>, budget: nat, order: seq<string>, parts: seq<seq<Section>>,
                                   i: nat)
    requires i < |order| && parts == Parts(pack, budget, order)
    ensures parts[i] == Fitted(pack, order[i], budget)
  {
    if i > 0 {
      PartsAt(pack, budget, order[1..], parts[1..], i - 1);
    }
  }

  /** The sections of the next function, cut if they are too large. */
  method NextSections(pack: seq<Section>, budget: nat, order: seq<string>, i: nat, perFn: map<string, seq<Section>>,
                      scoped: seq<Section>, sharedTok: nat, ghost parts: seq<seq<Section>>)
    returns (secs: seq<Section>)
    requires i < |order| && order[i] in perFn && perFn[order[i]] == OfKey(pack, order[i])
    requires scoped == Scoped(pack) && sharedTok == Tokens(Shared(pack)) && parts == Parts(pack, budget, order)
    ensures secs == parts[i]
  {
    PartsAt(pack, budget, order, parts, i);
    secs := perFn[order[i]];
    if Tokens(secs) + sharedTok + Need(scoped, Roots(secs), {}) > budget {
      secs := Truncate(secs, budget);
    }
  }

  /** The batch of the sections gathered, as flush makes it. */
  function Flushed(shared: seq<Section>, scoped: seq<Section>, cur: seq<Section>): seq<Section> {
    shared + ScopedFor(scoped, Roots(cur)) + cur
  }

  /** The tokens of the open batch with one more function. */
  function With(scoped: seq<Section>, cur: seq<Section>, curTok: nat, secs: seq<Section>): nat {
    curTok + Tokens(secs) + Need(scoped, Roots(secs), Roots(cur))
  }

  /** What the loop over the functions carries: the closed batches, the open one and its tokens. */
  datatype State = State(out: seq<seq<Section>>, cur: seq<Section>, tok: nat)

  /** The turn of a function: the open batch closes when it is not empty and the function's sections
      would take it past 0.7 of the budget. */
  function Turn(shared: seq<Section>, scoped: seq<Section>, budget: nat, st: State, secs: seq<Section>): State {
    if st.cur != [] && 10 * With(scoped, st.cur, st.tok, secs) > 7 * budget
    then State(st.out + [Flushed(shared, scoped, st.cur)], secs, With(scoped, [], Tokens(shared), secs))
    else State(st.out, st.cur + secs, With(scoped, st.cur, st.tok, secs))
  }

  function Turning(shared: seq<Section>, scoped: seq<Section>, budget: nat): (State, seq<Section>) -> State {
    (st, secs) => Turn(shared, scoped, budget, st, secs)
  }

  /** The state after the first i functions. */
  function After(shared: seq<Section>, scoped: seq<Section>, budget: nat, parts: seq<seq<Section>>, i: nat): State
    requires i <= |parts|
  {
    Fold(Turning(shared, scoped, budget), State([], [], Tokens(shared)), parts, i)
  }

  /** The batches once the last one is flushed. */
  function Ended(shared: seq<Section>, scoped: seq<Section>, st: State): seq<seq<Section>> {
    if st.cur == [] then st.out else st.out + [Flushed(shared, scoped, st.cur)]
  }

  /** The open batch, its group and its tokens. */
  ghost predicate OpenBatch(pack: seq<Section>, budget: nat, keys: seq<string>, cur: seq<Section>, curTok: nat) {
    cur == Joined(pack, keys, budget) && (keys == [] <==> cur == []) && curTok == BodyTokens(pack, cur)
  }

  lemma {:induction false} NoTokens(pack: seq<Section>)
    ensures BodyTokens(pack, []) == Tokens(Shared(pack))
  {
    NoRoots(Scoped(pack));
  }

  /** Groups of functions: the closed ones and the open one. */
  datatype Split = Split(groups: seq<seq<string>>, keys: seq<string>)

  /** The turn of a function: the open group closes when its body with the function would be past
      0.7 of the budget. */
  function Put(pack: seq<Section>, budget: nat, split: Split, key: string): Split {
    if split.keys != [] && 10 * Tokens(Body(pack, split.keys + [key], budget)) > 7 * budget
    then Split(split.groups + [split.keys], [key])
    else Split(split.groups, split.keys + [key])
  }

  function Putting(pack: seq<Section>, budget: nat): (Split, string) -> Split {
    (split, key) => Put(pack, budget, split, key)
  }

  /** The groups after the first i functions. */
  function Grouping(pack: seq<Section>, budget: nat, order: seq<string>, i: nat): Split
    requires i <= |order|
  {
    Fold(Putting(pack, budget), Split([], []), order, i)
  }

  lemma {:induction false} GroupingIsWell(pack: seq<Section>, budget: nat, order: seq<string>, i: nat)
    requires i <= |order|
    ensures var split := Grouping(pack, budget, order, i);
      Splitting(pack, budget, order[..i], split.groups, split.keys)
  {
    if i == 0 {
      FlattenOne<string>([]);
    } else {
      GroupingIsWell(pack, budget, order, i - 1);
      PutIsWell(pack, budget, order, i - 1, Grouping(pack, budget, order, i - 1));
    }
  }

  lemma {:induction false} PutIsWell(pack: seq<Section>, budget: nat, order: seq<string>, i: nat, split: Split)
    requires i < |order| && Splitting(pack, budget, order[..i], split.groups, split.keys)
    ensures var next := Put(pack, budget, split, order[i]);
      Splitting(pack, budget, order[..i + 1], next.groups, next.keys)
  {
    TakeStep(order, i);
    NextKey(pack, budget, order[..i], split.groups, split.keys, order[i]);
  }

  /** The next function closes the open batch and starts another. */
  lemma {:induction false} TurnCloses(pack: seq<Section>, budget: nat, key: string, keys: seq<string>,
                                      cur: seq<Section>, curTok: nat, secs: seq<Section>)
    requires key in Order(pack) && secs == Fitted(pack, key, budget) && OpenBatch(pack, budget, keys, cur, curTok)
    ensures With(Scoped(pack), cur, curTok, secs) == Tokens(Body(pack, keys + [key], budget))
    ensures OpenBatch(pack, budget, [key], secs, With(Scoped(pack), [], Tokens(Shared(pack)), secs))
  {
    FittedIs(pack, key, budget);
    OneMore(pack, budget, keys, key, cur, secs);
    JoinedOne(pack, key, budget, [key]);
    NoTokens(pack);
    BodyTokensGrow(pack, [], secs);
    assert [] + secs == secs;
  }

  /** The next function joins the open batch. */
  lemma {:induction false} TurnJoins(pack: seq<Section>, budget: nat, key: string, keys: seq<string>,
                                     cur: seq<Section>, curTok: nat, secs: seq<Section>)
    requires key in Order(pack) && secs == Fitted(pack, key, budget) && OpenBatch(pack, budget, keys, cur, curTok)
    ensures With(Scoped(pack), cur, curTok, secs) == Tokens(Body(pack, keys + [key], budget))
    ensures OpenBatch(pack, budget, keys + [key], cur + secs, With(Scoped(pack), cur, curTok, secs))
  {
    FittedIs(pack, key, budget);
    OneMore(pack, budget, keys, key, cur, secs);
  }

  /** A state of the loop and the groups that belong to it. */
  ghost predicate Matches(pack: seq<Section>, budget: nat, st: State, split: Split) {
    OpenBatch(pack, budget, split.keys, st.cur, st.tok) && st.out == Bodies(pack, budget, split.groups)
  }

  lemma {:induction false} TurnMatches(pack: seq<Section>, budget: nat, key: string, secs: seq<Section>, st: State,
                                       split: Split)
    requires key in Order(pack) && secs == Fitted(pack, key, budget) && Matches(pack, budget, st, split)
    ensures Matches(pack, budget, Turn(Shared(pack), Scoped(pack), budget, st, secs), Put(pack, budget, split, key))
  {
    TurnJoins(pack, budget, key, split.keys, st.cur, st.tok, secs);
    if st.cur != [] && 10 * With(Scoped(pack), st.cur, st.tok, secs) > 7 * budget {
      TurnCloses(pack, budget, key, split.keys, st.cur, st.tok, secs);
      BodiesPush(pack, budget, split.groups, split.keys);
    }
  }

  /** At every turn the closed batches are the bodies of the closed groups. */
  lemma {:induction false} AfterMatches(pack: seq<Section>, budget: nat, order: seq<string>, parts: seq<seq<Section>>,
                                        i: nat)
    requires order == Order(pack) && parts == Parts(pack, budget, order) && i <= |order|
    ensures Matches(pack, budget, After(Shared(pack), Scoped(pack), budget, parts, i), Grouping(pack, budget, order, i))
  {
    var turn, put := Turning(Shared(pack), Scoped(pack), budget), Putting(pack, budget);
    var related := (st, split) => Matches(pack, budget, st, split);
    forall st, split, k | 0 <= k < |parts| && related(st, split)
      ensures related(turn(st, parts[k]), put(split, order[k]))
    {
      PartsAt(pack, budget, order, parts, k);
      TurnMatches(pack, budget, order[k], parts[k], st, split);
    }
    NoTokens(pack);
    FoldsMatch(turn, put, State([], [], Tokens(Shared(pack))), Split([], []), parts, order, i, related);
  }

  /** The batches are the bodies of groups that are split well. */
  lemma {:induction false} EndedIsWell(pack: seq<Section>, budget: nat, order: seq<string>, st: State)
    returns (groups: seq<seq<string>>)
    requires order == Order(pack)
    requires st == After(Shared(pack), Scoped(pack), budget, Parts(pack, budget, order), |order|)
    ensures Flatten(groups) == order && SplitWell(pack, budget, groups)
    ensures Ended(Shared(pack), Scoped(pack), st) == Bodies(pack, budget, groups)
  {
    assert order[..|order|] == order;
    var split := Grouping(pack, budget, order, |order|);
    AfterMatches(pack, budget, order, Parts(pack, budget, order), |order|);
    GroupingIsWell(pack, budget, order, |order|);
    FlattenPush(split.groups, split.keys);
    BodiesPush(pack, budget, split.groups, split.keys);
    groups := if split.keys == [] then split.groups else split.groups + [split.keys];
  }

  lemma {:induction false} JoinedOne(pack: seq<Section>, key: string, budget: nat, one: seq<string>)
    requires one == [] + [key]
    ensures Joined(pack, one, budget) == Fitted(pack, key, budget)
  {
    JoinedPush(pack, [], key, budget);
  }

  /** The test of the loop: whether the open batch closes before the next function. */
  predicate Closes(open: bool, over: nat, budget: nat, files: set<string>, key: string) {
    open && (over > budget || (files != {} && key !in files && |files| >= 1 && 10 * over > 7 * budget))
  }

  predicate Among(files: set<string>, keys: seq<string>) {
    forall key | key in files :: key in keys
  }

  /** A function comes once only, so it is not among the files of the open batch, and the test comes
      down to 0.7 of the budget. */
  lemma {:induction false} NewKey(order: seq<string>, i: nat, files: set<string>, open: bool, over: nat, budget: nat)
    requires i < |order| && DistinctKeys(order) && Among(files, order[..i]) && (open ==> files != {})
    ensures Closes(open, over, budget, files, order[i]) <==> open && 10 * over > 7 * budget
    ensures Among(files + {order[i]}, order[..i + 1]) && Among({order[i]}, order[..i + 1])
  {
    TakeStep(order, i);
  }

  /** The loop over the functions that fills the batches. */
  method SplitKeys(pack: seq<Section>, budget: nat, order: seq<string>, perFn: map<string, seq<Section>>)
    returns (out: seq<seq<Section>>, ghost st: State)
    requires order == Order(pack) && forall key | key in order :: key in perFn && perFn[key] == OfKey(pack, key)
    ensures st == After(Shared(pack), Scoped(pack), budget, Parts(pack, budget, order), |order|)
    ensures out == Ended(Shared(pack), Scoped(pack), st)
  {
    OrderIs(pack);
    ghost var parts := Parts(pack, budget, order);
    var scoped, shared := Scoped(pack), Shared(pack);
    var sharedTok := Tokens(shared);
    out := [];
    var cur: seq<Section>, curTok: nat, curFiles: set<string> := [], sharedTok, {};
    for i := 0 to |order|
      invariant State(out, cur, curTok) == After(shared, scoped, budget, parts, i)
      invariant Among(curFiles, order[..i]) && (cur != [] ==> curFiles != {})
    {
      var key := order[i];
      var secs := NextSections(pack, budget, order, i, perFn, scoped, sharedTok, parts);
      var over := With(scoped, cur, curTok, secs);
      NewKey(order, i, curFiles, cur != [], over, budget);
      if Closes(cur != [], over, budget, curFiles, key) {
        out := out + [Flushed(shared, scoped, cur)];
        cur, curTok, curFiles := secs, With(scoped, [], sharedTok, secs), {key};
      } else {
        cur, curTok, curFiles := cur + secs, over, curFiles + {key};
      }
    }
    st := State(out, cur, curTok);
    if cur != [] {
      out := out + [Flushed(shared, scoped, cur)];
    }
  }

  /** batches */
  method Batches(pack: seq<Section>, budget: nat, notice: string)
    returns (out: seq<seq<Section>>, ghost groups: seq<seq<string>>)
    ensures Tokens(pack) <= budget ==> out == [pack]
    ensures Tokens(pack) > budget ==> Flatten(groups) == Order(pack) && SplitWell(pack, budget, groups)
    ensures Tokens(pack) > budget ==> |out| == |groups| && forall i | 0 <= i < |out| ::
      out[i] == [HeaderOf(i + 1, |out|, notice)] + Body(pack, groups[i], budget)
  {
    groups := [];
    if Tokens(pack) <= budget {
      return [pack], groups;
    }
    var order, perFn := GroupByKey(pack);
    ghost var st: State;
    out, st := SplitKeys(pack, budget, order, perFn);
    groups := EndedIsWell(pack, budget, order, st);
    if groups != [] {
      BodiesAt(pack, budget, groups, 0);
    }
    forall i: nat | i < |groups| {
      BodiesAt(pack, budget, groups, i);
    }
    out := Headed(out, notice);
  }

  /** The header in front of each batch. */
  method Headed(bodies: seq<seq<Section>>, notice: string) returns (out: seq<seq<Section>>)
    ensures |out| == |bodies|
    ensures forall i | 0 <= i < |out| :: out[i] == [HeaderOf(i + 1, |out|, notice)] + bodies[i]
  {
    out := bodies;
    for i := 0 to |out|
      invariant |out| == |bodies|
      invariant forall j | 0 <= j < i :: out[j] == [HeaderOf(j + 1, |out|, notice)] + bodies[j]
      invariant forall j | i <= j < |out| :: out[j] == bodies[j]
    {
      out := out[i := [HeaderOf(i + 1, |out|, notice)] + out[i]];
    }
  }

  /** Each function is in exactly one group, so its sections are in exactly one batch. */
  lemma {:induction false} OneGroup(groups: seq<seq<string>>, order: seq<string>, key: string) returns (i: nat)
    requires Flatten(groups) == order && DistinctKeys(order) && key in order
    ensures i < |groups| && key in groups[i]
    ensures forall j | 0 <= j < |groups| && key in groups[j] :: j == i
  {
    var first, rest := groups[0], groups[1..];
    var tail := Flatten(rest);
    assert order == first + tail;
    if key in first {
      i := 0;
      forall j | 0 <= j < |groups| && key in groups[j] ensures j == 0 {
        if j > 0 {
          InTail(groups, order, key, j);
        }
      }
    } else {
      forall a, b | 0 <= a < b < |tail| ensures tail[a] != tail[b] {
        assert order[|first| + a] == tail[a] && order[|first| + b] == tail[b];
      }
      var k := OneGroup(rest, tail, key);
      i := k + 1;
      forall j | 0 <= j < |groups| && key in groups[j] ensures j == i {
        assert j > 0 && rest[j - 1] == groups[j];
      }
    }
  }

  lemma {:induction false} InTail(groups: seq<seq<string>>, order: seq<string>, key: string, j: nat)
    requires Flatten(groups) == order && DistinctKeys(order) && 0 < j < |groups| && key in groups[j]
    ensures key !in groups[0]
  {
    var tail := Flatten(groups[1..]);
    var m :| 0 <= m < |groups[j]| && groups[j][m] == key;
    InFlatten(groups[1..], j - 1, m);
    var b :| 0 <= b < |tail| && tail[b] == key;
    forall a | 0 <= a < |groups[0]| ensures groups[0][a] != key {
      assert order[a] == groups[0][a] && order[|groups[0]| + b] == key;
    }
  }

  /** A function of the group brings its sections, whole or cut, and nothing else is brought. */
  predicate Brings(pack: seq<Section>, keys: seq<string>, budget: nat, s: Section) {
    exists i: nat :: i < |keys| && BringsAt(pack, keys, budget, s, i)
  }

  predicate BringsAt(pack: seq<Section>, keys: seq<string>, budget: nat, s: Section, i: nat)
    requires i < |keys|
  {
    s in Fitted(pack, keys[i], budget)
  }

  lemma {:induction false} JoinedFrom(pack: seq<Section>, keys: seq<string>, budget: nat, s: Section) returns (i: nat)
    requires s in Joined(pack, keys, budget)
    ensures i < |keys| && BringsAt(pack, keys, budget, s, i)
  {
    if s in Fitted(pack, keys[0], budget) {
      i := 0;
    } else {
      var j := JoinedFrom(pack, keys[1..], budget, s);
      i := j + 1;
    }
  }

  lemma {:induction false} JoinedTakes(pack: seq<Section>, keys: seq<string>, budget: nat, s: Section, i: nat)
    requires i < |keys| && BringsAt(pack, keys, budget, s, i)
    ensures s in Joined(pack, keys, budget)
  {
    if i > 0 {
      JoinedTakes(pack, keys[1..], budget, s, i - 1);
    }
  }

  lemma {:induction false} JoinedHas(pack: seq<Section>, keys: seq<string>, budget: nat, s: Section)
    ensures s in Joined(pack, keys, budget) <==> Brings(pack, keys, budget, s)
  {
    if s in Joined(pack, keys, budget) {
      var i := JoinedFrom(pack, keys, budget, s);
    }
    if i: nat :| i < |keys| && BringsAt(pack, keys, budget, s, i) {
      JoinedTakes(pack, keys, budget, s, i);
    }
  }

  predicate OfModule(s: Section, root: string) {
    (s.kind.Changed? || s.kind.Evidence? || s.kind.Candidate?) && s.kind.root == root
  }

  lemma {:induction false} RootsAre(ss: seq<Section>, root: string)
    ensures root in Roots(ss) <==> exists i :: 0 <= i < |ss| && OfModule(ss[i], root)
  {
    if ss != [] {
      RootsAre(ss[1..], root);
      if i :| 0 <= i < |ss[1..]| && OfModule(ss[1..][i], root) {
        assert OfModule(ss[i + 1], root);
      }
      if i :| 0 <= i < |ss| && OfModule(ss[i], root) {
        assert i > 0 ==> ss[1..][i - 1] == ss[i];
      }
    }
  }

  lemma {:induction false} ScopedForAre(scoped: seq<Section>, roots: set<string>, s: Section)
    ensures s in ScopedFor(scoped, roots) <==> s in scoped && s.kind.Pitfalls? && s.kind.root in roots
  {
    if scoped != [] {
      ScopedForAre(scoped[1..], roots, s);
    }
  }

  /** Every shared section and every pitfalls section is taken as often as it stands in the pack. */
  lemma {:induction false} SharedAndScopedCount(pack: seq<Section>, s: Section)
    ensures multiset(Shared(pack))[s]
         == if (s.priority >= 5 || s.kind.Invariants?) && !s.kind.Pitfalls? then multiset(pack)[s] else 0
    ensures multiset(Scoped(pack))[s] == if s.kind.Pitfalls? then multiset(pack)[s] else 0
  {
    if pack != [] {
      SharedAndScopedCount(pack[1..], s);
      assert pack == [pack[0]] + pack[1..];
    }
  }

  /** They keep their order. */
  lemma {:induction false} SharedAndScopedInOrder(a: seq<Section>, b: seq<Section>)
    ensures Shared(a + b) == Shared(a) + Shared(b)
    ensures Scoped(a + b) == Scoped(a) + Scoped(b)
  {
    if a == [] {
      assert a + b == b;
    } else {
      assert (a + b)[1..] == a[1..] + b;
      SharedAndScopedInOrder(a[1..], b);
    }
  }

  lemma {:induction false} SharedAndScopedAre(pack: seq<Section>, s: Section)
    ensures s in Shared(pack) <==> s in pack && IsShared(s)
    ensures s in Scoped(pack) <==> s in pack && IsPitfalls(s)
  {
    if pack != [] {
      SharedAndScopedAre(pack[1..], s);
    }
  }

  lemma {:induction false} JoinedOwn(pack: seq<Section>, keys: seq<string>, budget: nat, s: Section)
    requires s in Joined(pack, keys, budget)
    ensures IsOwn(s)
  {
    var i := JoinedFrom(pack, keys, budget, s);
    FittedOwn(pack, keys[i], budget, s);
  }

  lemma {:induction false} FittedOwn(pack: seq<Section>, key: string, budget: nat, s: Section)
    requires s in Fitted(pack, key, budget)
    ensures IsOwn(s) && KeyOf(s) == key
  {
    var secs := OfKey(pack, key);
    if s in secs {
      OwnListOnly(pack, key, s);
      assert multiset(secs)[s] > 0;
    } else {
      var u := TruncatedFrom(secs, budget, s);
      OwnListOnly(pack, key, u);
      assert multiset(secs)[u] > 0;
    }
  }

  lemma {:induction false} TruncatedFrom(secs: seq<Section>, budget: nat, s: Section) returns (u: Section)
    requires s in TruncateAll(secs, budget)
    ensures u in secs && s == Truncated(u, budget)
  {
    if s == Truncated(secs[0], budget) {
      u := secs[0];
    } else {
      u := TruncatedFrom(secs[1..], budget, s);
    }
  }

  /** What a batch holds: every shared section; a pitfalls section exactly if one of the batch's
      functions is of that module; of the other sections, those of its functions. */
  lemma {:induction false} BatchHolds(pack: seq<Section>, keys: seq<string>, budget: nat, s: Section)
    requires s in pack
    ensures !s.kind.Pitfalls? && (s.priority >= 5 || s.kind.Invariants?) ==> s in Body(pack, keys, budget)
    ensures s.kind.Pitfalls? ==>
      (s in Body(pack, keys, budget)
       <==> exists i :: 0 <= i < |Joined(pack, keys, budget)| && OfModule(Joined(pack, keys, budget)[i], s.kind.root))
    ensures !s.kind.Pitfalls? && s.priority < 5 && !s.kind.Invariants? ==>
      (s in Body(pack, keys, budget) <==> Brings(pack, keys, budget, s))
  {
    var own := Joined(pack, keys, budget);
    SharedAndScopedAre(pack, s);
    ScopedForAre(Scoped(pack), Roots(own), s);
    JoinedHas(pack, keys, budget, s);
    if s in own {
      JoinedOwn(pack, keys, budget, s);
    }
    if IsPitfalls(s) {
      RootsAre(own, s.kind.root);
    }
  }

  /** A pack whose sections are all shared or about pitfalls yields no batch at all when it is over
      budget: what it holds is lost. */
  lemma {:induction false} NothingOwnedNothingSent(pack: seq<Section>, budget: nat, groups: seq<seq<string>>)
    requires Flatten(groups) == Order(pack) && SplitWell(pack, budget, groups)
    ensures groups == [] <==> forall i | 0 <= i < |pack| :: !IsOwn(pack[i])
  {
    OrderIs(pack);
    if groups == [] {
      forall i | 0 <= i < |pack| ensures !IsOwn(pack[i]) {
        assert pack[i] in pack;
      }
    } else {
      assert StandsAt(pack, budget, groups, 0);
      OrderOwned(pack, Order(pack)[0]);
    }
  }

  lemma {:induction false} OrderOwned(ss: seq<Section>, key: string)
    requires key in Order(ss)
    ensures exists i :: 0 <= i < |ss| && IsOwn(ss[i])
  {
    var front, last := ss[..|ss| - 1], ss[|ss| - 1];
    if key in Order(front) {
      OrderOwned(front, key);
      var i :| 0 <= i < |front| && IsOwn(front[i]);
      assert ss[i] == front[i];
    }
  }

  lemma {:induction false} ShareBound(n: nat, half: nat, t: nat)
    requires half < t && 10 * n <= 32 * t
    ensures 10 * Share(n, half, t) <= 32 * half
  {
    var keep := Share(n, half, t);
    var product := n * half;
    assert keep == product / t && keep * t <= product;
    Times(10 * n, 32 * t, half);
    assert 10 * n * half == 10 * product;
    assert 10 * (keep * t) <= 32 * t * half;
    assert 32 * half * t == 32 * t * half && 10 * keep * t == 10 * (keep * t);
    if 10 * keep > 32 * half {
      TimesStrict(32 * half, 10 * keep, t);
    }
  }

  /** A text that is cut takes about half the budget: the share, the note and rounding. */
  lemma {:induction false} TruncatedIsSmall(s: Section, budget: nat)
    requires s.kind.Changed? && s.tokens > budget / 2 && s.tokens == EstTokens(s.body)
    ensures Truncated(s, budget).tokens <= budget / 2 + EstTokens(Note(s.tokens)) + 1
  {
    var keep, note := Share(|s.body|, budget / 2, s.tokens), Note(s.tokens);
    ShareBound(|s.body|, budget / 2, s.tokens);
    assert |s.body[..keep] + note| == keep + |note|;
  }
}
