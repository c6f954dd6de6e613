/** Apprentice Thursdays: the day test, the list of coming Thursdays, and the closed working hours. */
module StudioApprentices {
  import opened Numbers
  import opened Text
  import opened Civil
  import opened Tehran
  import opened Hours
  import opened SlotTheorems

  const THURSDAY := 4

  predicate IsTehranThursday(dayKey: string) {
    var parts := Split(dayKey, '-');
    match (PartAt(parts, 0), PartAt(parts, 1), PartAt(parts, 2))
    case (Some(y), Some(m), Some(d)) => y != 0 && m != 0 && d != 0 && WeekDay(UtcDay(y, m - 1, d)) == THURSDAY
    case _ => false
  }

  lemma ThursdayOfKey(n: int)
    requires Dated(n)
    ensures IsTehranThursday(Key(n)) <==> WeekDay(n) == THURSDAY
  {
    hide DateOf, Key, YearOf, DayOf, WeekDay, Digits, Pad2;
    KeyParts(n);
    var c := DateOf(n);
    NumberOfDigits(c.y);
    NumberOfPad2(c.m);
    NumberOfPad2(c.d);
    UtcDayOfDate(n, 0);
  }

  /** A key with a part that is zero, empty or no number is of no day, and so of no Thursday. */
  lemma NoThursdayWithoutDate(y: string, m: string, d: string)
    requires '-' !in y && '-' !in m && '-' !in d
    requires exists part :: part in {y, m, d} && (!AllDigits(part) || ValueOf(part) == 0)
    ensures !IsTehranThursday(y + "-" + m + "-" + d)
  {
    hide Split, UtcDay, WeekDay, ValueOf, AllDigits;
    SplitThree(y, m, d);
  }

  /** The first Thursday on or after day n. */
  function NextThursday(n: int): int {
    n + (THURSDAY - WeekDay(n)) % 7
  }

  /** The keys of k Thursdays in a row. */
  function Thursdays(first: int, k: nat): seq<string> {
    if k == 0 then [] else Thursdays(first, k - 1) + [Key(first + 7 * (k - 1))]
  }

  /** How many of the 400 days looked at are Thursdays: 57, or 58 when the first day is one. */
  function ThursdaysSeen(n: int): nat {
    if WeekDay(n) == THURSDAY then 58 else 57
  }

  function ThursdayList(n: int, count: int): seq<string> {
    Thursdays(NextThursday(n), if count <= 0 then 0 else if count <= ThursdaysSeen(n) then count else ThursdaysSeen(n))
  }

  /** The UTC day number of an instant's Tehran date, as the list is started. */
  function StartDay(from: int): int {
    var c := TehranClock(from);
    UtcDay(c.y, c.m - 1, c.day)
  }

  lemma NextThursdayShape(n: int)
    ensures n <= NextThursday(n) <= n + 6 && NextThursday(n) % 7 == 0
    ensures WeekDay(n) == THURSDAY <==> NextThursday(n) == n
    ensures WeekDay(n) == THURSDAY <==> n % 7 == 0
  {
  }

  lemma NoThursdayBetween(first: int, k: int, n: int)
    requires first % 7 == 0 && first + 7 * (k - 1) < n <= first + 7 * k
    ensures n % 7 == 0 <==> n == first + 7 * k
  {
    var q := first / 7;
    assert first == 7 * q;
    if n % 7 == 0 {
      assert n == 7 * (n / 7);
    }
  }

  /** `upcomingThursdays`: looks at 400 days and stops at `count`. */
  method UpcomingThursdays(from: int, count: int) returns (out: seq<string>)
    ensures out == ThursdayList(StartDay(from), count)
  {
    hide StartDay, Key, WeekDay, NextThursday;
    var start := StartDay(from);
    ghost var first := NextThursday(start);
    NextThursdayShape(start);
    out := [];
    var i := 0;
    while i < 400 && |out| < count
      invariant 0 <= i <= 400 && |out| <= (if count < 0 then 0 else count)
      invariant out == Thursdays(first, |out|)
      invariant first + 7 * (|out| - 1) < start + i <= first + 7 * |out|
    {
      var day := start + i;
      NextThursdayShape(day);
      NoThursdayBetween(first, |out|, day);
      if WeekDay(day) == THURSDAY {
        out := out + [Key(day)];
      }
      i := i + 1;
    }
  }

  lemma {:induction false} ThursdaysAt(first: int, k: nat)
    ensures |Thursdays(first, k)| == k
    ensures forall j: nat :: j < k ==> Thursdays(first, k)[j] == Key(first + 7 * j)
  {
    hide Key;
    if k > 0 {
      ThursdaysAt(first, k - 1);
    }
  }

  /** Up to 57, the list is the first `count` Thursdays from today, in order and one week apart. */
  lemma ThursdaysAreTheFirst(from: int, count: nat)
    requires Dated(LocalDay(from)) && count <= 57
    ensures var n, list := LocalDay(from), ThursdayList(StartDay(from), count);
            && |list| == count
            && (forall j: nat :: j < count ==> list[j] == Key(NextThursday(n) + 7 * j))
            && n <= NextThursday(n) <= n + 6 && WeekDay(NextThursday(n)) == THURSDAY
  {
    hide YearOf, UtcDay, DateOf, LocalDay, Key, NextThursday, WeekDay;
    var n := LocalDay(from);
    ClockDay(from);
    NextThursdayShape(n);
    NextThursdayShape(NextThursday(n));
    ThursdaysAt(NextThursday(n), count);
  }

  predicate KeyOfDay(key: string, n: int, j: nat) {
    key == Key(n + j)
  }

  /** However many are asked for, the list holds Thursdays of the next 400 days only, and with enough asked for, all. */
  lemma ThursdaysOf400Days(from: int, count: int, i: nat)
    requires Dated(LocalDay(from)) && i < 400
    ensures var n, list := LocalDay(from), ThursdayList(StartDay(from), count);
            && |list| <= 58
            && (forall key :: key in list ==> exists j: nat :: j < 400 && KeyOfDay(key, n, j))
            && (count >= 58 && WeekDay(n + i) == THURSDAY ==> Key(n + i) in list)
  {
    hide YearOf, UtcDay, DateOf, LocalDay, Key, NextThursday, WeekDay, Thursdays;
    var n := LocalDay(from);
    ClockDay(from);
    NextThursdayShape(n);
    NextThursdayShape(n + i);
    var first, k: nat := NextThursday(n), if count <= 0 then 0 else if count <= ThursdaysSeen(n) then count
                                          else ThursdaysSeen(n);
    ThursdaysAt(first, k);
    assert Thursdays(first, k) == ThursdayList(n, count);
    forall key | key in Thursdays(first, k)
      ensures exists j: nat :: j < 400 && KeyOfDay(key, n, j)
    {
      var j: nat :| j < k && Thursdays(first, k)[j] == key;
      var day: nat := first - n + 7 * j;
      assert day < 400 && KeyOfDay(key, n, day);
    }
    if count >= 58 && WeekDay(n + i) == THURSDAY {
      WholeWeeks(first, n + i);
      var j: nat :| first + 7 * j == n + i;
      assert j < k;
      assert Thursdays(first, k)[j] == Key(n + i);
    }
  }

  lemma ClockDay(from: int)
    requires Dated(LocalDay(from))
    ensures StartDay(from) == LocalDay(from)
  {
    hide DateOf, YearOf, UtcDay, LocalDay;
    UtcDayOfDate(LocalDay(from), 0);
  }

  /** The Thursdays of the next 90 days are among the first 13, counted from the first one in whole weeks. */
  lemma ThursdayCount(first: int, n: int, i: nat, k: int)
    requires first % 7 == 0 && n <= first <= n + 6 && i < 90 && k >= 13
    ensures (n + i) % 7 == 0 ==> exists j: nat :: j < k && first + 7 * j == n + i
    ensures forall j: nat :: (first + 7 * j) % 7 == 0
  {
    forall j: nat
      ensures (first + 7 * j) % 7 == 0
    {
      WholeWeek(first, j);
    }
    if (n + i) % 7 == 0 {
      WholeWeeks(first, n + i);
      var j: nat :| first + 7 * j == n + i;
      assert j < k;
    }
  }

  lemma WholeWeek(first: int, j: int)
    requires first % 7 == 0
    ensures (first + 7 * j) % 7 == 0
  {
    assert first + 7 * j == 7 * (first / 7 + j);
  }

  lemma WholeWeeks(first: int, day: int)
    requires first % 7 == 0 && day % 7 == 0 && first - 6 <= day
    ensures exists j: nat :: first + 7 * j == day
  {
    var j := day / 7 - first / 7;
    assert first + 7 * j == day;
  }

  /** From 13 weeks on, the list decides "is a Thursday" for each of the next 90 days. */
  lemma ListDecidesThursday(n: int, weeks: int, i: nat)
    requires weeks >= 13 && i < 90
    ensures Key(n + i) in ThursdayList(n, weeks) <==> WeekDay(n + i) == THURSDAY
  {
    hide Key, WeekDay, NextThursday, Thursdays;
    var first, k := NextThursday(n), if weeks <= ThursdaysSeen(n) then weeks else ThursdaysSeen(n);
    NextThursdayShape(n);
    NextThursdayShape(n + i);
    ThursdaysAt(first, k);
    ThursdayCount(first, n, i, k);
    if Key(n + i) in ThursdayList(n, weeks) {
      var j: nat :| j < k && ThursdayList(n, weeks)[j] == Key(n + i);
      KeyInjective(n + i, first + 7 * j);
    }
    if WeekDay(n + i) == THURSDAY {
      var j: nat :| j < k && first + 7 * j == n + i;
      assert ThursdayList(n, weeks)[j] == Key(n + i);
    }
  }

  lemma {:induction false} KeyAfterIs(from: int, i: nat)
    requires Dated(LocalDay(from))
    ensures KeyAfter(from, i) == Key(LocalDay(from) + i)
  {
    hide Key, YearOf, LocalDay, ShiftDayKey;
    if i > 0 {
      KeyAfterIs(from, i - 1);
      DatedLater(LocalDay(from), i - 1);
      ShiftOfKey(LocalDay(from) + i - 1, 1);
    }
  }

  /** Day i from today has no job and is not a Thursday. */
  predicate OpenDay(occupied: seq<string>, today: int, i: nat) {
    Key(today + i) !in occupied && WeekDay(today + i) != THURSDAY
  }

  /** The first open day from day i on, or 90. */
  function EarliestOpen(occupied: seq<string>, today: int, i: nat): (j: nat)
    requires i <= 90
    ensures i <= j <= 90 && (j < 90 ==> OpenDay(occupied, today, j))
    ensures forall k: nat :: i <= k < j ==> !OpenDay(occupied, today, k)
    decreases 90 - i
  {
    hide Key, WeekDay;
    if i == 90 || OpenDay(occupied, today, i) then i else EarliestOpen(occupied, today, i + 1)
  }

  lemma OpenDayIs(occupied: seq<string>, weeks: int, from: int, i: nat)
    requires Dated(LocalDay(from)) && weeks >= 13 && i < 90
    ensures KeyAfter(from, i) == Key(LocalDay(from) + i)
    ensures KeyAfter(from, i) !in occupied && KeyAfter(from, i) !in ThursdayList(StartDay(from), weeks)
      <==> OpenDay(occupied, LocalDay(from), i)
  {
    hide Key, YearOf, LocalDay, StartDay, ThursdayList, WeekDay, KeyAfter;
    ClockDay(from);
    KeyAfterIs(from, i);
    ListDecidesThursday(LocalDay(from), weeks, i);
  }

  lemma {:induction false} FirstOpenIsEarliest(occupied: seq<string>, weeks: int, from: int, i: nat)
    requires Dated(LocalDay(from)) && weeks >= 13 && i <= 90
    ensures var today, j := LocalDay(from), EarliestOpen(occupied, LocalDay(from), i);
            FirstOpenFrom(occupied, ThursdayList(StartDay(from), weeks), from, i) ==
              Key(if j == 90 then today else today + j)
    decreases 90 - i
  {
    hide Key, YearOf, LocalDay, StartDay, ThursdayList, WeekDay, KeyAfter, OpenDay;
    if i < 90 {
      OpenDayIs(occupied, weeks, from, i);
      if !OpenDay(occupied, LocalDay(from), i) {
        FirstOpenIsEarliest(occupied, weeks, from, i + 1);
      }
    }
  }

  /**
   * Fed with the Thursdays of 13 or more weeks (the default is 52), the first open day is the
   * earliest unblocked day of the next 90 that is not a Thursday; today only when all are blocked.
   */
  lemma FirstOpenDay(occupied: seq<string>, weeks: int, from: int)
    requires Dated(LocalDay(from)) && weeks >= 13
    ensures var today := LocalDay(from);
            var key := FirstOpenFrom(occupied, ThursdayList(StartDay(from), weeks), from, 0);
            && ((exists j: nat :: j < 90 && OpenDay(occupied, today, j)) ==>
                  exists j: nat :: j < 90 && OpenDay(occupied, today, j) && key == Key(today + j)
                    && forall k: nat :: k < j ==> !OpenDay(occupied, today, k))
            && ((forall j: nat :: j < 90 ==> !OpenDay(occupied, today, j)) ==> key == Key(today))
  {
    hide Key, YearOf, LocalDay, StartDay, ThursdayList, OpenDay, FirstOpenFrom, EarliestOpen;
    FirstOpenIsEarliest(occupied, weeks, from, 0);
    var j := EarliestOpen(occupied, LocalDay(from), 0);
  }

  // Closed Thursdays.

  function Closed(row: WorkHour): WorkHour {
    if row.day == THURSDAY then WorkHour(row.day, "", "", true, row.shifts) else row
  }

  function ClosedRows(hours: seq<WorkHour>): seq<WorkHour> {
    seq(|hours|, i requires 0 <= i < |hours| => Closed(hours[i]))
  }

  function CloseThursday(hours: seq<WorkHour>): seq<WorkHour> {
    if exists row :: row in hours && row.day == THURSDAY then ClosedRows(hours)
    else ClosedRows(hours) + [WorkHour(THURSDAY, "", "", true, [])]
  }

  /** `closeThursdayHours`: close each Thursday row of a copy, and push one when there is none. */
  method CloseThursdayHours(hours: seq<WorkHour>) returns (next: seq<WorkHour>)
    ensures next == CloseThursday(hours)
  {
    next := [];
    var found := false;
    for i := 0 to |hours|
      invariant next == ClosedRows(hours)[..i]
      invariant found <==> exists row :: row in hours[..i] && row.day == THURSDAY
    {
      assert hours[..i + 1] == hours[..i] + [hours[i]];
      if hours[i].day == THURSDAY {
        next := next + [WorkHour(hours[i].day, "", "", true, hours[i].shifts)];
        found := true;
      } else {
        next := next + [hours[i]];
      }
    }
    assert hours[..|hours|] == hours;
    if !found {
      next := next + [WorkHour(THURSDAY, "", "", true, [])];
    }
  }

  /**
   * Closing touches Thursday rows only: each keeps its shifts but is closed and has no times. A week
   * without such a row gets one closed row more.
   */
  lemma ClosedHours(hours: seq<WorkHour>)
    ensures var next := CloseThursday(hours);
            && |hours| <= |next|
            && (forall i :: 0 <= i < |hours| && hours[i].day == 4 ==>
                  next[i] == hours[i].(open := "", close := "", closed := true))
            && (forall i :: 0 <= i < |hours| && hours[i].day != 4 ==> next[i] == hours[i])
            && if exists row :: row in hours && row.day == 4 then |next| == |hours|
               else |next| == |hours| + 1 && next[|hours|] == WorkHour(4, "", "", true, [])
  {
  }

  lemma RowOfSnoc(front: seq<WorkHour>, last: WorkHour, w: int)
    ensures RowOf(front + [last], w) == if last.day == w then Some(last) else RowOf(front, w)
  {
    assert (front + [last])[..|front|] == front;
  }

  lemma {:induction false} RowOfClosed(hours: seq<WorkHour>, w: int)
    ensures var row := RowOf(hours, w);
            RowOf(ClosedRows(hours), w) == match row case None => None case Some(h) => Some(Closed(h))
    ensures RowOf(hours, w).Some? <==> exists row :: row in hours && row.day == w
  {
    if hours != [] {
      hide RowOf;
      var front, last := hours[..|hours| - 1], hours[|hours| - 1];
      RowOfClosed(front, w);
      assert ClosedRows(hours) == ClosedRows(front) + [Closed(last)];
      assert hours == front + [last];
      RowOfSnoc(front, last, w);
      RowOfSnoc(ClosedRows(front), Closed(last), w);
    }
  }

  lemma RowOfClosedThursday(hours: seq<WorkHour>, w: int)
    ensures ShiftsFor(RowOf(CloseThursday(hours), w)) == if w == THURSDAY then [] else ShiftsFor(RowOf(hours, w))
  {
    RowOfClosed(hours, w);
    var rows := CloseThursday(hours);
    if !exists row :: row in hours && row.day == THURSDAY {
      assert rows[..|rows| - 1] == ClosedRows(hours);
    }
    if w != THURSDAY && RowOf(hours, w).Some? {
      RowOfHasDay(hours, w);
    }
    if w == THURSDAY && RowOf(hours, w).Some? {
      RowOfHasDay(hours, w);
    }
  }

  lemma {:induction false} RowOfHasDay(hours: seq<WorkHour>, w: int)
    requires RowOf(hours, w).Some?
    ensures RowOf(hours, w).value.day == w
  {
    if hours[|hours| - 1].day != w {
      RowOfHasDay(hours[..|hours| - 1], w);
    }
  }

  /** Closing Thursdays removes exactly the Thursday slots that no special day restores. */
  lemma ThursdayProtected(q: Query, busy: seq<Busy>, x: Slot)
    requires Dated(LocalDay(q.now))
    ensures x in Grid(q.(workHours := CloseThursday(q.workHours)), busy)
      <==> x in Grid(q, busy) && (SpecialOf(q.specialDays, x.dayKey).Some? || !IsTehranThursday(x.dayKey))
  {
    hide YearOf, GridDay, LocalDay, WindowDays, GridUpTo, Planned, Pushed, BusyRanges, Key, CloseThursday,
        IsTehranThursday, Max;
    var p := q.(workHours := CloseThursday(q.workHours));
    var ranges := BusyRanges(busy, Duration(q) * MINUTE_MS);
    SameWindow(p, q);
    var c := Max(0, WindowDays(q));
    GridExact(p, busy, x);
    GridExact(q, busy, x);
    if x in Grid(p, busy) {
      var i: nat, t: nat :| i < WindowDays(p) && Planned(p, i, t) && x in Pushed(p, ranges, GridDay(p, i), t);
      PlannedBoth(p, q, ranges, i, t, x);
    }
    if x in Grid(q, busy) && (SpecialOf(q.specialDays, x.dayKey).Some? || !IsTehranThursday(x.dayKey)) {
      var i: nat, t: nat :| i < WindowDays(q) && Planned(q, i, t) && x in Pushed(q, ranges, GridDay(q, i), t);
      PlannedBoth(p, q, ranges, i, t, x);
    }
  }

  lemma GridExact(q: Query, busy: seq<Busy>, x: Slot)
    ensures x in Grid(q, busy) <==>
      exists i: nat, t: nat :: i < WindowDays(q) && Planned(q, i, t)
        && x in Pushed(q, BusyRanges(busy, Duration(q) * MINUTE_MS), GridDay(q, i), t)
  {
    hide GridDay, WindowDays, GridUpTo, Planned, Pushed, BusyRanges, Duration;
    GridUpToExact(q, BusyRanges(busy, Duration(q) * MINUTE_MS), Max(0, WindowDays(q)), x);
  }

  lemma SameWindow(p: Query, q: Query)
    requires p == q.(workHours := p.workHours)
    ensures Duration(p) == Duration(q) && WindowDays(p) == WindowDays(q) && LongJob(p) == LongJob(q) &&
        DaySpan(p) == DaySpan(q)
    ensures forall i :: GridDay(p, i) == GridDay(q, i)
  {
    hide TehranClock, UtcDay;
  }

  lemma PlannedBoth(p: Query, q: Query, ranges: seq<Range>, i: nat, t: nat, x: Slot)
    requires p == q.(workHours := CloseThursday(q.workHours)) && Dated(LocalDay(q.now))
    requires x in Pushed(p, ranges, GridDay(p, i), t) || x in Pushed(q, ranges, GridDay(q, i), t)
    ensures Pushed(p, ranges, GridDay(p, i), t) == Pushed(q, ranges, GridDay(q, i), t)
    ensures Planned(p, i, t) <==>
      Planned(q, i, t) && (SpecialOf(q.specialDays, x.dayKey).Some? || !IsTehranThursday(x.dayKey))
  {
    hide YearOf, GridDay, LocalDay, WindowDays, StartOn, Key, CloseThursday, IsTehranThursday, LongJob, DaySpan,
        Duration, WeekDay, StartsAt, Opens;
    SameWindow(p, q);
    var n := GridDay(q, i);
    GridDayIs(q, i);
    ThursdayOfKey(n);
    RowOfClosedThursday(q.workHours, WeekDay(n));
    SamePushed(p, q, ranges, n, t);
    assert x.dayKey == Key(n);
    assert ShiftsOn(p, n) ==
      if SpecialOf(q.specialDays, Key(n)).None? && WeekDay(n) == THURSDAY then [] else ShiftsOn(q, n);
  }

  lemma SamePushed(p: Query, q: Query, ranges: seq<Range>, n: int, t: nat)
    requires p == q.(workHours := p.workHours)
    ensures Pushed(p, ranges, n, t) == Pushed(q, ranges, n, t)
  {
    hide StartOn, Key;
  }
}
