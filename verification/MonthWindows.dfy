/**
  The monthly search windows between two dates (month_windows in tools/review_recommend.py), in the
  Gregorian calendar.
 */
module MonthWindows {

  datatype Date = Date(year: int, month: int, day: int)

  predicate Leap(year: int) {
    year % 4 == 0 && (year % 100 != 0 || year % 400 == 0)
  }

  function Length(year: int, month: int): (n: int)
    ensures 28 <= n <= 31
  {
    if month == 2 then if Leap(year) then 29 else 28
    else if month == 4 || month == 6 || month == 9 || month == 11 then 30 else 31
  }

  predicate Valid(d: Date) {
    d.year >= 1 && 1 <= d.month <= 12 && 1 <= d.day <= Length(d.year, d.month)
  }

  /** a < b */
  predicate Less(a: Date, b: Date) {
    a.year < b.year || (a.year == b.year && (a.month < b.month || (a.month == b.month && a.day < b.day)))
  }

  /** The first day of the next month. */
  function NextFirst(d: Date): Date {
    if d.month == 12 then Date(d.year + 1, 1, 1) else Date(d.year, d.month + 1, 1)
  }

  /** The days from the first of January of year 1 to the month. */
  function DaysBefore(year: int, month: int): int
    decreases year, month
  {
    if year < 1 || (year == 1 && month <= 1) then 0
    else if month <= 1 then DaysBefore(year - 1, 12) + Length(year - 1, 12)
    else DaysBefore(year, month - 1) + Length(year, month - 1)
  }

  /** The number of a day. */
  function Number(d: Date): int {
    DaysBefore(d.year, d.month) + d.day
  }

  /** d + timedelta(days=k) */
  function Plus(d: Date, k: int): Date
    requires Valid(d) && k >= 0
    decreases k
  {
    if d.day + k <= Length(d.year, d.month) then d.(day := d.day + k)
    else Plus(NextFirst(d), k - (Length(d.year, d.month) - d.day + 1))
  }

  /** d - timedelta(days=1), for a day after the first of all. */
  function DayBefore(d: Date): Date {
    if d.day > 1 then d.(day := d.day - 1)
    else if d.month > 1 then Date(d.year, d.month - 1, Length(d.year, d.month - 1))
    else Date(d.year - 1, 12, Length(d.year - 1, 12))
  }

  function FirstOf(d: Date): Date {
    d.(day := 1)
  }

  function EndOf(d: Date): Date {
    d.(day := Length(d.year, d.month))
  }

  /** The days of the years before, with a leap day every fourth year, but not every hundredth, and yet
      every four hundredth. */
  function YearsDays(year: int): int {
    365 * (year - 1) + (year - 1) / 4 - (year - 1) / 100 + (year - 1) / 400
  }

  /** The days of the months before in a year. */
  function MonthsDays(year: int, month: int): int {
    (367 * month - 362) / 12 - if month <= 2 then 0 else if Leap(year) then 1 else 2
  }

  lemma {:induction false} YearStep(year: int)
    requires year >= 1
    ensures YearsDays(year + 1) == YearsDays(year) + if Leap(year) then 366 else 365
  {
    assert year / 4 == (year - 1) / 4 + if year % 4 == 0 then 1 else 0;
    assert year / 100 == (year - 1) / 100 + if year % 100 == 0 then 1 else 0;
    assert year / 400 == (year - 1) / 400 + if year % 400 == 0 then 1 else 0;
  }

  lemma {:induction false} MonthStep(year: int, month: int)
    requires 1 < month <= 12
    ensures MonthsDays(year, month) == MonthsDays(year, month - 1) + Length(year, month - 1)
  {
  }

  lemma {:induction false} YearEnds(year: int)
    ensures MonthsDays(year, 1) == 0
    ensures MonthsDays(year, 12) + Length(year, 12) == if Leap(year) then 366 else 365
  {
  }

  lemma {:induction false} DaysBeforeIs(year: int, month: int)
    requires year >= 1 && 1 <= month <= 12
    ensures DaysBefore(year, month) == YearsDays(year) + MonthsDays(year, month)
    decreases year, month
  {
    if month > 1 {
      DaysBeforeIs(year, month - 1);
      MonthStep(year, month);
    } else if year > 1 {
      DaysBeforeIs(year - 1, 12);
      YearEnds(year - 1);
      YearStep(year - 1);
    }
  }

  /** The number of a day is its day count in the Gregorian calendar, from the first of January of year 1. */
  lemma {:induction false} NumberIs(d: Date)
    requires Valid(d)
    ensures Number(d) == YearsDays(d.year) + MonthsDays(d.year, d.month) + d.day
  {
    DaysBeforeIs(d.year, d.month);
  }

  lemma {:induction false} NextFirstIs(d: Date)
    requires Valid(d)
    ensures Valid(NextFirst(d)) && Number(NextFirst(d)) == Number(EndOf(d)) + 1
    ensures DayBefore(NextFirst(d)) == EndOf(d)
  {
  }

  /** Adding days adds to the number of the day. */
  lemma {:induction false} PlusAdds(d: Date, k: int)
    requires Valid(d) && k >= 0
    ensures Valid(Plus(d, k)) && Number(Plus(d, k)) == Number(d) + k
    decreases k
  {
    if d.day + k > Length(d.year, d.month) {
      NextFirstIs(d);
      PlusAdds(NextFirst(d), k - (Length(d.year, d.month) - d.day + 1));
    }
  }

  /** The first of a month, 32 days on and back to the first: the next month. */
  lemma {:induction false} NextMonth(d: Date)
    requires Valid(d)
    ensures FirstOf(Plus(FirstOf(d), 32)) == NextFirst(d)
  {
    var rest := 32 - Length(d.year, d.month);
    assert Plus(FirstOf(d), 32) == Plus(NextFirst(d), rest);
    assert Plus(NextFirst(d), rest) == NextFirst(d).(day := 1 + rest);
  }

  /** Months in order. */
  lemma {:induction false} MonthsAdd(a: Date, b: Date)
    requires Valid(a) && Valid(b) && (a.year < b.year || (a.year == b.year && a.month < b.month))
    ensures DaysBefore(a.year, a.month) + Length(a.year, a.month) <= DaysBefore(b.year, b.month)
    decreases b.year, b.month
  {
    var p := if b.month > 1 then Date(b.year, b.month - 1, 1) else Date(b.year - 1, 12, 1);
    if a.year != p.year || a.month != p.month {
      MonthsAdd(a, p);
    }
  }

  /** The order of dates is the order of their numbers. */
  lemma {:induction false} LessIsNumber(a: Date, b: Date)
    requires Valid(a) && Valid(b)
    ensures Less(a, b) <==> Number(a) < Number(b)
    ensures Number(a) == Number(b) ==> a == b
  {
    if a.year < b.year || (a.year == b.year && a.month < b.month) {
      MonthsAdd(a, b);
    } else if b.year < a.year || (b.year == a.year && b.month < a.month) {
      MonthsAdd(b, a);
    }
  }

  /** A search window, both days included. */
  datatype Window = Window(first: Date, last: Date)

  predicate InMonth(w: Window) {
    && Valid(w.first) && Valid(w.last)
    && w.first.year == w.last.year && w.first.month == w.last.month && w.first.day <= w.last.day
  }

  /** The windows follow each other without gap or overlap from day number a to day number b, each
      inside one month. */
  predicate Tiles(ws: seq<Window>, a: int, b: int) {
    if ws == [] then a == b + 1
    else
      var w := ws[|ws| - 1];
      InMonth(w) && Number(w.last) == b && Tiles(ws[..|ws| - 1], a, Number(w.first) - 1)
  }

  /** The last day that the windows reach: a final day that is the first of a month is left out. */
  function Reach(until: Date): int {
    if until.day == 1 then Number(until) - 1 else Number(until)
  }

  /** A window of the loop: it begins where it may, and goes to the end of its month or to `until`. */
  predicate WholeWindow(w: Window, since: Date, until: Date) {
    && (w.first == since || w.first.day == 1)
    && w.last == if Less(until, EndOf(w.first)) then until else EndOf(w.first)
  }

  predicate WholeWindows(ws: seq<Window>, since: Date, until: Date) {
    forall i | 0 <= i < |ws| :: WholeWindow(ws[i], since, until)
  }

  /** Where the loop stands: nothing yet, or tiled up to the day before d, or up to `until`. */
  predicate Tiled(ws: seq<Window>, since: Date, until: Date, d: Date) {
    if ws == [] then d == since
    else
      && d.day == 1 && Less(since, until)
      && Tiles(ws, Number(since), if Less(until, d) then Number(until) else Number(d) - 1)
      && (Less(until, d) ==> until.day > 1)
  }

  /** One window more. */
  lemma {:induction false} TileStep(ws: seq<Window>, since: Date, until: Date, d: Date)
    requires Valid(since) && Valid(until) && Valid(d) && Less(d, until) && Tiled(ws, since, until, d)
    ensures Tiled(ws + [Window(d, if Less(until, EndOf(d)) then until else EndOf(d))], since, until, NextFirst(d))
  {
    var last := if Less(until, EndOf(d)) then until else EndOf(d);
    var more := ws + [Window(d, last)];
    assert more[..|more| - 1] == ws;
    NextFirstIs(d);
    LessIsNumber(d, until);
    LessIsNumber(until, EndOf(d));
    LessIsNumber(until, NextFirst(d));
  }

  /** month_windows */
  method Windows(since: Date, until: Date) returns (ws: seq<Window>)
    requires Valid(since) && Valid(until)
    ensures Less(since, until) ==> Tiles(ws, Number(since), Reach(until))
    ensures !Less(since, until) ==> ws == []
    ensures WholeWindows(ws, since, until)
  {
    ws := [];
    var d := since;
    while Less(d, until)
      invariant Valid(d) && Tiled(ws, since, until, d) && WholeWindows(ws, since, until)
      decreases Number(until) - Number(d)
    {
      NextMonth(d);
      NextFirstIs(d);
      TileStep(ws, since, until, d);
      LessIsNumber(d, until);
      var nxt := FirstOf(Plus(FirstOf(d), 32));
      var end := DayBefore(nxt);
      ws := ws + [Window(d, if Less(until, end) then until else end)];
      d := nxt;
    }
    LessIsNumber(d, until);
    LessIsNumber(until, d);
  }

  predicate Covers(w: Window, d: Date) {
    Number(w.first) <= Number(d) <= Number(w.last)
  }

  lemma {:induction false} TilesRange(ws: seq<Window>, a: int, b: int)
    requires Tiles(ws, a, b)
    ensures a <= b + 1
  {
    if ws != [] {
      TilesRange(ws[..|ws| - 1], a, Number(ws[|ws| - 1].first) - 1);
    }
  }

  /** Each day of the tiled range is in exactly one window, and no other day is in any. */
  lemma {:induction false} InOneWindow(ws: seq<Window>, a: int, b: int, d: Date)
    requires Tiles(ws, a, b)
    ensures (exists i :: 0 <= i < |ws| && Covers(ws[i], d)) <==> a <= Number(d) <= b
    ensures forall i, j | 0 <= i < j < |ws| :: !(Covers(ws[i], d) && Covers(ws[j], d))
  {
    if ws != [] {
      var front, w := ws[..|ws| - 1], ws[|ws| - 1];
      InOneWindow(front, a, Number(w.first) - 1, d);
      TilesRange(front, a, Number(w.first) - 1);
      if i :| 0 <= i < |front| && Covers(front[i], d) {
        assert Covers(ws[i], d);
      }
      if i :| 0 <= i < |ws| && Covers(ws[i], d) {
        assert i < |front| ==> Covers(front[i], d);
      }
      if Number(w.first) <= Number(d) <= b {
        assert Covers(ws[|ws| - 1], d);
      }
      forall i, j | 0 <= i < j < |ws| ensures !(Covers(ws[i], d) && Covers(ws[j], d)) {
        assert ws[i] == front[i];
        assert j < |front| ==> ws[j] == front[j];
      }
    }
  }

  /** The final day is searched if and only if it is not the first of a month. */
  lemma {:induction false} FinalDayIff(ws: seq<Window>, since: Date, until: Date)
    requires Valid(since) && Valid(until) && Less(since, until) && Tiles(ws, Number(since), Reach(until))
    ensures (exists i :: 0 <= i < |ws| && Covers(ws[i], until)) <==> until.day != 1
  {
    InOneWindow(ws, Number(since), Reach(until), until);
    LessIsNumber(since, until);
  }
}
