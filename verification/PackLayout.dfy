/**
  The layout arithmetic of the pack-chain check (tools/harness/or_buf.py): the advance and
  alignment tables, the offset simulation, and the proposed declaration size.
 */
module PackLayout {
  import opened Collections

  /** The cursor packers (or_pack_x and or_unpack_x share a row); Other is any packer whose
      advance is not a constant or not known. */
  datatype Packer =
    | Int | Short | Errcode | Lock | Float | Int64 | Double | Ptr | Oid | Mvccid
    | Hfid | Ehid | Btid | LogLsa | Sha1 | Other

  predicate Known(p: Packer) {
    !p.Other?
  }

  /** Packers that align the cursor first. */
  predicate Aligned(p: Packer) {
    p.Int64? || p.Double? || p.Ptr?
  }

  function Advance(p: Packer): nat {
    match p
    case Int => 4
    case Short => 4
    case Errcode => 4
    case Lock => 4
    case Float => 4
    case Int64 => 8
    case Double => 8
    case Ptr => 8
    case Oid => 8
    case Mvccid => 8
    case Hfid => 12
    case Ehid => 12
    case Btid => 12
    case LogLsa => 12
    case Sha1 => 20
    case Other => 0
  }

  const MAX_ALIGNMENT: nat := 8

  /** Rounding up: adding seven and clearing the low three bits. */
  function Align(off: nat): nat {
    off + MAX_ALIGNMENT - 1 - (off + MAX_ALIGNMENT - 1) % MAX_ALIGNMENT
  }

  function Begin(p: Packer, off: nat): nat {
    if Aligned(p) then Align(off) else off
  }

  function End(p: Packer, off: nat): nat {
    Begin(p, off) + Advance(p)
  }

  // ---------------------------------------------------------------- whole chains

  /** The end offset of packing the list from an offset; the need of a fresh chain is PackEnd(ps, 0). */
  function PackEnd(ps: seq<Packer>, off: nat): nat {
    if ps == [] then off else PackEnd(ps[1..], End(ps[0], off))
  }

  function Sum(ps: seq<Packer>): nat {
    if ps == [] then 0 else Advance(ps[0]) + Sum(ps[1..])
  }

  function CountAligned(ps: seq<Packer>): nat {
    if ps == [] then 0 else (if Aligned(ps[0]) then 1 else 0) + CountAligned(ps[1..])
  }

  lemma {:induction false} EndBounds(p: Packer, off: nat)
    requires off % 4 == 0
    ensures End(p, off) % 4 == 0
    ensures off + Advance(p) <= End(p, off) <= off + Advance(p) + if Aligned(p) then 4 else 0
  {
  }

  /** Padding is at most four bytes before each aligning packer. */
  lemma {:induction false} NeedBounds(ps: seq<Packer>, off: nat)
    requires off % 4 == 0
    ensures off + Sum(ps) <= PackEnd(ps, off) <= off + Sum(ps) + 4 * CountAligned(ps)
    ensures PackEnd(ps, off) % 4 == 0
  {
    if ps != [] {
      EndBounds(ps[0], off);
      NeedBounds(ps[1..], End(ps[0], off));
    }
  }

  function Select(ps: seq<Packer>, aligned: bool): seq<Packer> {
    if ps == [] then []
    else (if Aligned(ps[0]) == aligned then [ps[0]] else []) + Select(ps[1..], aligned)
  }

  /** The proposed order: the aligning packers first. */
  function AlignedFirst(ps: seq<Packer>): seq<Packer> {
    Select(ps, true) + Select(ps, false)
  }

  lemma {:induction false} SelectSplits(ps: seq<Packer>)
    ensures multiset(Select(ps, true)) + multiset(Select(ps, false)) == multiset(ps)
    ensures forall p | p in Select(ps, true) :: Aligned(p)
    ensures forall p | p in Select(ps, false) :: !Aligned(p)
  {
    if ps != [] {
      SelectSplits(ps[1..]);
      assert ps == [ps[0]] + ps[1..];
    }
  }

  lemma {:induction false} SumSplit(a: seq<Packer>, b: seq<Packer>)
    ensures Sum(a + b) == Sum(a) + Sum(b)
  {
    if a == [] {
      assert a + b == b;
    } else {
      assert (a + b)[1..] == a[1..] + b;
      SumSplit(a[1..], b);
    }
  }

  lemma {:induction false} SumSelect(ps: seq<Packer>)
    ensures Sum(Select(ps, true)) + Sum(Select(ps, false)) == Sum(ps)
  {
    if ps != [] {
      SumSelect(ps[1..]);
      assert [ps[0]][1..] == [];
      assert [] + Select(ps[1..], !Aligned(ps[0])) == Select(ps[1..], !Aligned(ps[0]));
      SumSplit([ps[0]], Select(ps[1..], Aligned(ps[0])));
    }
  }

  lemma {:induction false} NoPadding(ps: seq<Packer>, qs: seq<Packer>, off: nat)
    requires forall p | p in ps :: Aligned(p)
    requires forall p | p in qs :: !Aligned(p)
    requires off % 8 == 0 || ps == []
    ensures PackEnd(ps + qs, off) == off + Sum(ps) + Sum(qs)
    decreases |ps| + |qs|
  {
    if ps != [] {
      assert (ps + qs)[1..] == ps[1..] + qs && (ps + qs)[0] == ps[0];
      assert Align(off) == off;
      NoPadding(ps[1..], qs, End(ps[0], off));
    } else if qs != [] {
      assert ps + qs == qs && [] + qs[1..] == qs[1..];
      NoPadding([], qs[1..], End(qs[0], off));
    }
  }

  lemma {:induction false} SumPermute(ps: seq<Packer>, qs: seq<Packer>)
    requires multiset(ps) == multiset(qs)
    ensures Sum(ps) == Sum(qs)
  {
    SameSize(ps, qs);
    if ps != [] {
      var before, after := TakeOut(ps, qs);
      SumSplit(before, after);
      SumSplit(before, [ps[0]] + after);
      assert ([ps[0]] + after)[1..] == after;
      SumPermute(ps[1..], before + after);
    }
  }

  /** Placing the aligning packers first needs exactly the sum of the fields, which no order beats. */
  lemma {:induction false} AlignedFirstIsBest(ps: seq<Packer>, other: seq<Packer>)
    requires multiset(other) == multiset(ps)
    ensures multiset(AlignedFirst(ps)) == multiset(ps)
    ensures PackEnd(AlignedFirst(ps), 0) == Sum(ps) <= PackEnd(other, 0)
  {
    SelectSplits(ps);
    SumSelect(ps);
    NoPadding(Select(ps, true), Select(ps, false), 0);
    SumPermute(other, ps);
    NeedBounds(other, 0);
  }

  // ---------------------------------------------------------------- the proposed size

  datatype Step = Step(idx: nat, packer: Packer, begin: nat, end: nat)

  function Rest(ss: seq<Step>): int {
    if ss == [] then 0
    else
      var s := ss[|ss| - 1];
      Rest(ss[..|ss| - 1]) + (if Aligned(s.packer) then 0 else s.end - s.begin)
  }

  function CountOf(ss: seq<Step>, p: Packer): nat {
    if ss == [] then 0
    else CountOf(ss[..|ss| - 1], p) + if ss[|ss| - 1].packer == p then 1 else 0
  }

  function AlignedCalls(ss: seq<Step>): nat {
    CountOf(ss, Int64) + CountOf(ss, Double) + CountOf(ss, Ptr)
  }

  /** Sixteen bytes for each aligning packer, the plain fields as they are. */
  function FixTotal(ss: seq<Step>): int {
    Rest(ss) + 16 * AlignedCalls(ss)
  }

  /** _fix_expr */
  method FixSize(ss: seq<Step>) returns (size: int)
    ensures size == FixTotal(ss)
  {
    var n64, ndb, npt, rest := 0, 0, 0, 0;
    for i := 0 to |ss|
      invariant n64 == CountOf(ss[..i], Int64) && ndb == CountOf(ss[..i], Double) && npt == CountOf(ss[..i], Ptr)
      invariant rest == Rest(ss[..i])
    {
      assert ss[..i + 1][..i] == ss[..i];
      match ss[i].packer
      case Int64 => n64 := n64 + 1;
      case Double => ndb := ndb + 1;
      case Ptr => npt := npt + 1;
      case _ => rest := rest + ss[i].end - ss[i].begin;
    }
    assert ss[..|ss|] == ss;
    size := rest + 16 * (n64 + ndb + npt);
  }

  lemma {:induction false} FixTotalPush(ss: seq<Step>, s: Step)
    ensures FixTotal(ss + [s]) == FixTotal(ss) + if Aligned(s.packer) then 16 else s.end - s.begin
    ensures AlignedCalls(ss + [s]) == AlignedCalls(ss) + if Aligned(s.packer) then 1 else 0
  {
    assert (ss + [s])[..|ss|] == ss;
  }

  /** The steps of packing a list in one go. */
  function Steps(ps: seq<Packer>, off: nat): seq<Step> {
    if ps == [] then []
    else [Step(0, ps[0], Begin(ps[0], off), End(ps[0], off))] + Steps(ps[1..], End(ps[0], off))
  }

  lemma {:induction false} FixTotalFront(s: Step, ss: seq<Step>)
    ensures FixTotal([s] + ss) == FixTotal(ss) + if Aligned(s.packer) then 16 else s.end - s.begin
  {
    if ss == [] {
      assert [s] + ss == [s] && [s][..0] == [];
    } else {
      assert ([s] + ss)[..|[s] + ss| - 1] == [s] + ss[..|ss| - 1];
      FixTotalFront(s, ss[..|ss| - 1]);
    }
  }

  /** Packing a list in one go: the proposed size is the sum of the fields and eight bytes for each
      aligning packer, which covers the need with at least four of them to spare. */
  lemma {:induction false} FixCovers(ps: seq<Packer>, off: nat)
    requires off % 4 == 0
    ensures off + FixTotal(Steps(ps, off)) == off + Sum(ps) + 8 * CountAligned(ps)
    ensures off + FixTotal(Steps(ps, off)) >= PackEnd(ps, off) + 4 * CountAligned(ps)
  {
    if ps != [] {
      var end := End(ps[0], off);
      EndBounds(ps[0], off);
      FixTotalFront(Step(0, ps[0], Begin(ps[0], off), end), Steps(ps[1..], end));
      FixCovers(ps[1..], end);
    }
  }
}
