/**
  Edit scripts, the common meaning of the unified-diff readers: what each script keeps, removes
  and adds, and how line numbers of the old and the new text correspond.  Lines count from one.
 */
module DiffScript {
  import opened Collections

  datatype Op = Keep(text: string) | Del(text: string) | Add(text: string)

  function Old(s: seq<Op>): seq<string> {
    if s == [] then [] else if s[0].Add? then Old(s[1..]) else [s[0].text] + Old(s[1..])
  }

  function New(s: seq<Op>): seq<string> {
    if s == [] then [] else if s[0].Del? then New(s[1..]) else [s[0].text] + New(s[1..])
  }

  function OldCount(s: seq<Op>): (n: nat)
    ensures n == |Old(s)|
  {
    if s == [] then 0 else (if s[0].Add? then 0 else 1) + OldCount(s[1..])
  }

  function NewCount(s: seq<Op>): (n: nat)
    ensures n == |New(s)|
  {
    if s == [] then 0 else (if s[0].Del? then 0 else 1) + NewCount(s[1..])
  }

  function Shift(r: Option<int>, d: int): Option<int> {
    if r.Some? then Some(r.value + d) else None
  }

  /** The new number of old line n; None when the script removes it. */
  function ToNew(s: seq<Op>, n: int): Option<int> {
    if s == [] then None
    else
      match s[0]
      case Keep(_) => if n == 1 then Some(1) else Shift(ToNew(s[1..], n - 1), 1)
      case Del(_) => if n == 1 then None else ToNew(s[1..], n - 1)
      case Add(_) => Shift(ToNew(s[1..], n), 1)
  }

  /** The old number of new line n; None when the script adds it. */
  function ToOld(s: seq<Op>, n: int): Option<int> {
    if s == [] then None
    else
      match s[0]
      case Keep(_) => if n == 1 then Some(1) else Shift(ToOld(s[1..], n - 1), 1)
      case Add(_) => if n == 1 then None else ToOld(s[1..], n - 1)
      case Del(_) => Shift(ToOld(s[1..], n), 1)
  }

  /** The two numberings are inverse to each other. */
  lemma {:induction false} ToNewBack(s: seq<Op>, n: int)
    requires 1 <= n <= OldCount(s)
    ensures ToNew(s, n).Some? ==> 1 <= ToNew(s, n).value <= NewCount(s) && ToOld(s, ToNew(s, n).value) == Some(n)
  {
    match s[0]
    case Keep(_) =>
      if n > 1 {
        ToNewBack(s[1..], n - 1);
      }
    case Del(_) =>
      if n > 1 {
        ToNewBack(s[1..], n - 1);
      }
    case Add(_) => ToNewBack(s[1..], n);
  }

  lemma {:induction false} ToOldBack(s: seq<Op>, n: int)
    requires 1 <= n <= NewCount(s)
    ensures ToOld(s, n).Some? ==> 1 <= ToOld(s, n).value <= OldCount(s) && ToNew(s, ToOld(s, n).value) == Some(n)
  {
    match s[0]
    case Keep(_) =>
      if n > 1 {
        ToOldBack(s[1..], n - 1);
      }
    case Add(_) =>
      if n > 1 {
        ToOldBack(s[1..], n - 1);
      }
    case Del(_) => ToOldBack(s[1..], n);
  }

  lemma {:induction false} NumbersAreInverse(s: seq<Op>, o: int, n: int)
    requires 1 <= o <= OldCount(s) && 1 <= n <= NewCount(s)
    ensures ToNew(s, o) == Some(n) <==> ToOld(s, n) == Some(o)
  {
    ToNewBack(s, o);
    ToOldBack(s, n);
  }

  /** A kept line has the same text on both sides. */
  lemma {:induction false} ToNewKeepsText(s: seq<Op>, n: int)
    requires 1 <= n <= OldCount(s) && ToNew(s, n).Some?
    ensures 1 <= ToNew(s, n).value <= NewCount(s)
    ensures New(s)[ToNew(s, n).value - 1] == Old(s)[n - 1]
  {
    ToNewBack(s, n);
    var m := ToNew(s, n).value;
    match s[0]
    case Keep(_) =>
      if n > 1 {
        ToNewKeepsText(s[1..], n - 1);
        assert Old(s)[n - 1] == Old(s[1..])[n - 2] && New(s)[m - 1] == New(s[1..])[m - 2];
      }
    case Del(_) =>
      ToNewKeepsText(s[1..], n - 1);
      assert Old(s)[n - 1] == Old(s[1..])[n - 2];
    case Add(_) =>
      ToNewKeepsText(s[1..], n);
      assert New(s)[m - 1] == New(s[1..])[m - 2];
  }

  /** Kept lines stay in order. */
  lemma {:induction false} ToNewIncreases(s: seq<Op>, n: int, k: int)
    requires 1 <= n < k <= OldCount(s)
    requires ToNew(s, n).Some? && ToNew(s, k).Some?
    ensures ToNew(s, n).value < ToNew(s, k).value
  {
    match s[0]
    case Keep(_) =>
      ToNewBack(s[1..], k - 1);
      if n > 1 {
        ToNewIncreases(s[1..], n - 1, k - 1);
      }
    case Del(_) => ToNewIncreases(s[1..], n - 1, k - 1);
    case Add(_) => ToNewIncreases(s[1..], n, k);
  }
}
