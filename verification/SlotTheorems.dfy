/** What the slot grid offers: exactly the planned, free, future starts; in order; never double-booked. */
module SlotTheorems {
  import opened Numbers
  import opened Text
  import opened Civil
  import opened Tehran
  import opened Hours

  predicate StartsAt(s: Shift, duration: nat, k: nat, t: nat) {
    t == Opens(s) + JobsSpan(k, duration) && t + duration <= Closes(s)
  }

  /** Minute t of day i of the window is a start: k whole jobs after an opening, done by closing. */
  ghost predicate Planned(q: Query, i: nat, t: nat) {
    var shifts := ShiftsOn(q, GridDay(q, i));
    && i < WindowDays(q)
    && shifts != []
    && if LongJob(q) then i % DaySpan(q) == 0 && t == Opens(shifts[0])
       else exists j: nat, k: nat :: j < |shifts| && StartsAt(shifts[j], Duration(q), k, t)
  }

  lemma {:induction false} ShiftSlotsExact(q: Query, ranges: seq<Range>, n: int, s: Shift, c: nat, x: Slot)
    ensures x in ShiftSlots(q, ranges, n, s, c)
      <==> exists k: nat :: k < c && x in Pushed(q, ranges, n, Opens(s) + JobsSpan(k, Duration(q)))
  {
    hide Pushed, Opens, Duration, JobsSpan;
    if c > 0 {
      ShiftSlotsExact(q, ranges, n, s, c - 1, x);
      if x in Pushed(q, ranges, n, Opens(s) + JobsSpan(c - 1, Duration(q))) {
        var k: nat := c - 1;
        assert k < c && x in Pushed(q, ranges, n, Opens(s) + JobsSpan(k, Duration(q)));
      }
    }
  }

  ghost predicate FromShift(q: Query, ranges: seq<Range>, n: int, s: Shift, x: Slot) {
    exists k: nat, t: nat :: StartsAt(s, Duration(q), k, t) && x in Pushed(q, ranges, n, t)
  }

  lemma ShiftExact(q: Query, ranges: seq<Range>, n: int, s: Shift, x: Slot)
    ensures x in ShiftSlots(q, ranges, n, s, Fits(s, Duration(q))) <==> FromShift(q, ranges, n, s, x)
  {
    hide Pushed, Opens, Closes, Duration, Fits, JobsSpan;
    var c := Fits(s, Duration(q));
    ShiftSlotsExact(q, ranges, n, s, c, x);
    if x in ShiftSlots(q, ranges, n, s, c) {
      var k: nat :| k < c && x in Pushed(q, ranges, n, Opens(s) + JobsSpan(k, Duration(q)));
      FitsBound(s, Duration(q), k);
      assert StartsAt(s, Duration(q), k, Opens(s) + JobsSpan(k, Duration(q)));
    }
    if FromShift(q, ranges, n, s, x) {
      var k: nat, t: nat :| StartsAt(s, Duration(q), k, t) && x in Pushed(q, ranges, n, t);
      FitsBound(s, Duration(q), k);
    }
  }

  lemma {:induction false} DaySlotsExact(q: Query, ranges: seq<Range>, n: int, shifts: seq<Shift>, x: Slot)
    ensures x in DaySlots(q, ranges, n, shifts) <==> exists s :: s in shifts && FromShift(q, ranges, n, s, x)
  {
    hide FromShift, Fits, ShiftSlots, Duration;
    if shifts != [] {
      var front, last := shifts[..|shifts| - 1], shifts[|shifts| - 1];
      DaySlotsExact(q, ranges, n, front, x);
      ShiftExact(q, ranges, n, last, x);
      assert shifts == front + [last];
    }
  }

  lemma DayPartExact(q: Query, ranges: seq<Range>, i: nat, x: Slot)
    requires i < WindowDays(q)
    ensures x in DayPart(q, ranges, i) <==>
              exists t: nat :: Planned(q, i, t) && x in Pushed(q, ranges, GridDay(q, i), t)
  {
    hide Pushed, Opens, Closes, Duration, Fits, GridDay, ShiftsOn, LongJob, DaySpan, ShiftSlots, WindowDays, StartsAt;
    var n := GridDay(q, i);
    var shifts := ShiftsOn(q, n);
    if shifts == [] {
    } else if LongJob(q) {
      assert i % DaySpan(q) == 0 ==> Planned(q, i, Opens(shifts[0]));
    } else {
      DaySlotsExact(q, ranges, n, shifts, x);
      if x in DayPart(q, ranges, i) {
        var s :| s in shifts && FromShift(q, ranges, n, s, x);
        var k: nat, t: nat :| StartsAt(s, Duration(q), k, t) && x in Pushed(q, ranges, n, t);
        var j: nat :| j < |shifts| && shifts[j] == s;
        assert Planned(q, i, t);
      }
      if t: nat :| Planned(q, i, t) && x in Pushed(q, ranges, n, t) {
        var j: nat, k: nat :| j < |shifts| && StartsAt(shifts[j], Duration(q), k, t);
        assert FromShift(q, ranges, n, shifts[j], x);
      }
    }
  }

  lemma {:induction false} GridUpToExact(q: Query, ranges: seq<Range>, c: nat, x: Slot)
    requires c <= WindowDays(q) || c == 0
    ensures x in GridUpTo(q, ranges, c)
      <==> exists i: nat, t: nat :: i < c && Planned(q, i, t) && x in Pushed(q, ranges, GridDay(q, i), t)
  {
    hide Pushed, Planned, DayPart, GridDay, WindowDays;
    if c > 0 {
      GridUpToExact(q, ranges, c - 1, x);
      DayPartExact(q, ranges, c - 1, x);
      if x in DayPart(q, ranges, c - 1) {
        var i: nat := c - 1;
        var t: nat :| Planned(q, i, t) && x in Pushed(q, ranges, GridDay(q, i), t);
        assert i < c && Planned(q, i, t) && x in Pushed(q, ranges, GridDay(q, i), t);
      }
    }
  }

  lemma {:induction false} FreeOnlyExact(slots: seq<Slot>, x: Slot)
    ensures x in FreeOnly(slots) <==> x in slots && !x.full
  {
    if slots != [] {
      var n := |slots| - 1;
      FreeOnlyExact(slots[..n], x);
      assert slots == slots[..n] + [slots[n]];
    }
  }

  lemma DatedLater(n: int, i: nat)
    requires Dated(n)
    ensures Dated(n + i)
  {
    hide YearOf, YearStart;
    var a, b := YearOf(n), YearOf(n + i);
    if b < a {
      YearsGrow(b + 1, a);
    }
  }

  /** Day i of the window is the i-th day from today, and minute t of it starts at that clock time. */
  lemma GridDayIs(q: Query, i: nat)
    requires Dated(LocalDay(q.now))
    ensures GridDay(q, i) == LocalDay(q.now) + i && Dated(LocalDay(q.now) + i)
  {
    hide DateOf, YearOf, UtcDay, LocalDay, WeekDay;
    UtcDayOfDate(LocalDay(q.now), i);
    DatedLater(LocalDay(q.now), i);
  }

  lemma StartIs(n: int, t: nat)
    requires Dated(n)
    ensures StartOn(n, t) == At(n, t % 1440)
    ensures LocalDay(At(n, t % 1440)) == n && MinuteOfDay(At(n, t % 1440)) == t % 1440
  {
    hide DateOf, YearOf, DayOf, UtcDay, LocalDay, MinuteOfDay;
    UtcDayOfDate(n, 0);
    MinuteParts(t);
    AtClock(n, t % 1440);
  }

  lemma MinuteParts(t: nat)
    ensures t % 1440 / 60 * 60 + t % 60 == t % 1440
  {
    var q, r := t / 1440, t % 1440;
    assert t == 60 * (24 * q + r / 60) + r % 60;
  }

  lemma PlannedInWindow(q: Query, i: nat, t: nat)
    requires Planned(q, i, t)
    ensures i < WindowDays(q)
  {
  }

  // The same in the query's own terms.

  /** Minute t is k whole jobs after the opening, and one more ends by closing. */
  predicate WholeJob(s: Shift, length: int, k: nat, t: nat) {
    t == Opens(s) + k * length && t + length <= Closes(s)
  }

  /**
   * Jobs of `length` minutes have a start at minute t of day i of the window. Jobs under twelve hours
   * start back to back in every shift of the given days; longer ones once, at the first opening, on
   * every day that is a multiple of the days they span, for five spans at least.
   */
  ghost predicate StartPlanned(q: Query, length: int, i: nat, t: nat) {
    var shifts, stride := ShiftsOn(q, LocalDay(q.now) + i), Max(1, Round(length as real / 1440.0));
    && shifts != []
    && if length < 720
       then i < q.days && exists j: nat, k: nat :: j < |shifts| && WholeJob(shifts[j], length, k, t)
       else (i < q.days || i < 5 * stride) && i % stride == 0 && t == Opens(shifts[0])
  }

  /** A busy entry takes the time from `from` to `to`: a bare start as long as a job. */
  predicate Occupies(b: Busy, length: int, from: int, to: int) {
    match b
    case From(start) => start == Some(from) && to == from + length * 60000
    case Span(start, end) => start == Some(from) && end == Some(to) && from < to
  }

  ghost predicate Blocked(q: Query, busy: seq<Busy>, length: int, start: int) {
    var from := start - (if q.bufferBefore > 0 then q.bufferBefore else 0) * 60000;
    var to := start + length * 60000 + (if q.bufferAfter > 0 then q.bufferAfter else 0) * 60000;
    exists b, bFrom, bTo :: b in busy && Occupies(b, length, bFrom, bTo) && from < bTo && bFrom < to
  }

  /** The slot of minute t on day n, at least twenty minutes from now; full when a busy entry blocks it. */
  ghost predicate Stands(q: Query, busy: seq<Busy>, length: int, n: int, t: nat, x: Slot) {
    && x.start == At(n, t % 1440) && x.end == x.start + length * 60000
    && x.clock == Pad2(t % 1440 / 60) + ":" + Pad2(t % 60) && x.dayKey == Key(n)
    && x.start >= q.now + 1200000
    && (x.full <==> Blocked(q, busy, length, x.start))
  }

  /** How long a job is: as many minutes as asked for, or as the shop's slots have; never under ten. */
  lemma LengthAsked(q: Query)
    ensures q.minutes.Some? && q.minutes.value >= 10 ==> Duration(q) == q.minutes.value
    ensures q.minutes.Some? && q.minutes.value < 10 ==> Duration(q) == 10
    ensures q.minutes.None? && q.slotMinutes >= 10 ==> Duration(q) == q.slotMinutes
    ensures q.minutes.None? && q.slotMinutes < 10 ==> Duration(q) == if q.slotMinutes == 0 then 60 else 10
  {
  }

  lemma SpanIsRounded(q: Query)
    requires Duration(q) >= 720
    ensures LongJob(q) && DaySpan(q) == Max(1, Round(Duration(q) as real / 1440.0))
  {
    hide Duration;
    RoundedQuotient(Duration(q));
  }

  lemma RoundedQuotient(d: int)
    ensures (d + 720) / 1440 == Round(d as real / 1440.0)
  {
    var k, r := (d + 720) / 1440, (d + 720) % 1440;
    assert d as real / 1440.0 + 0.5 == k as real + r as real / 1440.0;
    assert 0.0 <= r as real / 1440.0 < 1.0;
  }

  lemma PlannedIs(q: Query, length: int, i: nat, t: nat)
    requires Dated(LocalDay(q.now)) && length == Duration(q)
    ensures Planned(q, i, t) <==> StartPlanned(q, length, i, t)
  {
    hide YearOf, GridDay, LocalDay, ShiftsOn, Opens, Closes, Duration, Round;
    GridDayIs(q, i);
    if length >= 720 {
      SpanIsRounded(q);
    } else {
      var shifts := ShiftsOn(q, LocalDay(q.now) + i);
      forall j: nat, k: nat | j < |shifts|
        ensures StartsAt(shifts[j], length, k, t) <==> WholeJob(shifts[j], length, k, t)
      {
      }
    }
  }

  lemma {:induction false} RangesFromBusy(busy: seq<Busy>, fallbackMs: int, r: Range)
    ensures r in BusyRanges(busy, fallbackMs) <==> exists b :: b in busy && r in RangeOf(b, fallbackMs)
  {
    if busy != [] {
      var k := |busy| - 1;
      RangesFromBusy(busy[..k], fallbackMs, r);
      assert busy == busy[..k] + [busy[k]];
    }
  }

  lemma RangeIs(b: Busy, length: int, r: Range)
    ensures r in RangeOf(b, length * MINUTE_MS) <==> Occupies(b, length, r.start, r.end)
  {
  }

  lemma TakenIsBlocked(q: Query, busy: seq<Busy>, length: int, start: int)
    requires length == Duration(q)
    ensures Taken(q, BusyRanges(busy, length * MINUTE_MS), start) <==> Blocked(q, busy, length, start)
  {
    hide Duration, BusyRanges, RangeOf, Occupies;
    var ranges := BusyRanges(busy, length * MINUTE_MS);
    if Taken(q, ranges, start) {
      var r :| r in ranges && IntervalsOverlap(start - Max(0, q.bufferBefore) * MINUTE_MS,
                                start + length * MINUTE_MS + Max(0, q.bufferAfter) * MINUTE_MS, r.start, r.end);
      RangesFromBusy(busy, length * MINUTE_MS, r);
      var b :| b in busy && r in RangeOf(b, length * MINUTE_MS);
      RangeIs(b, length, r);
    }
    if Blocked(q, busy, length, start) {
      var from := start - (if q.bufferBefore > 0 then q.bufferBefore else 0) * 60000;
      var to := start + length * 60000 + (if q.bufferAfter > 0 then q.bufferAfter else 0) * 60000;
      var b, bFrom, bTo :| b in busy && Occupies(b, length, bFrom, bTo) && from < bTo && bFrom < to;
      var r := Range(bFrom, bTo);
      RangeIs(b, length, r);
      RangesFromBusy(busy, length * MINUTE_MS, r);
    }
  }

  lemma PushedStands(q: Query, busy: seq<Busy>, length: int, n: int, t: nat, x: Slot)
    requires Dated(n) && length == Duration(q)
    ensures x in Pushed(q, BusyRanges(busy, length * MINUTE_MS), n, t) <==>
              Stands(q, busy, length, n, t, x) && (q.includeOccupied || !x.full)
  {
    hide YearOf, Key, Duration, BusyRanges, StartOn, Taken, Blocked, At;
    StartIs(n, t);
    TakenIsBlocked(q, busy, length, StartOn(n, t));
  }

  /**
   * The grid holds exactly the planned starts of the window that begin at least twenty minutes from
   * now; of those that a busy entry blocks, buffers included, only when occupied slots are asked for.
   * Holds for all shifts and lengths: minutes past midnight fold onto the same date (t % 1440).
   */
  lemma GridHolds(q: Query, busy: seq<Busy>, length: int, x: Slot)
    requires Dated(LocalDay(q.now))
    requires length == match q.minutes
                       case Some(m) => if m < 10 then 10 else m
                       case None => if q.slotMinutes == 0 then 60 else if q.slotMinutes < 10 then 10 else q.slotMinutes
    ensures x in Grid(q, busy) <==>
              && (q.includeOccupied || !x.full)
              && exists i: nat, t: nat ::
                   StartPlanned(q, length, i, t) && Stands(q, busy, length, LocalDay(q.now) + i, t, x)
  {
    LengthAsked(q);
    hide YearOf, Planned, StartPlanned, Pushed, Stands, Duration, BusyRanges, GridUpTo, GridDay, LocalDay, WindowDays;
    var ranges, c := BusyRanges(busy, length * MINUTE_MS), Max(0, WindowDays(q));
    GridUpToExact(q, ranges, c, x);
    if x in Grid(q, busy) {
      var i: nat, t: nat :| i < c && Planned(q, i, t) && x in Pushed(q, ranges, GridDay(q, i), t);
      GridDayIs(q, i);
      PlannedIs(q, length, i, t);
      PushedStands(q, busy, length, GridDay(q, i), t, x);
    }
    if i: nat, t: nat :| StartPlanned(q, length, i, t) && Stands(q, busy, length, LocalDay(q.now) + i, t, x) {
      if q.includeOccupied || !x.full {
        GridDayIs(q, i);
        PlannedIs(q, length, i, t);
        PlannedInWindow(q, i, t);
        PushedStands(q, busy, length, GridDay(q, i), t, x);
      }
    }
  }

  /** The free slots are exactly the planned starts that no busy entry blocks, each as long as the job asked for. */
  lemma FreeSlotsExact(q: Query, busy: seq<Busy>, length: int, x: Slot)
    requires Dated(LocalDay(q.now))
    requires length == match q.minutes
                       case Some(m) => if m < 10 then 10 else m
                       case None => if q.slotMinutes == 0 then 60 else if q.slotMinutes < 10 then 10 else q.slotMinutes
    ensures x in FreeSlots(q, busy) <==>
              && !x.full
              && exists i: nat, t: nat ::
                   StartPlanned(q, length, i, t) && Stands(q, busy, length, LocalDay(q.now) + i, t, x)
  {
    hide YearOf, StartPlanned, Stands, Grid, LocalDay;
    FreeOnlyExact(Grid(q, busy), x);
    GridHolds(q, busy, length, x);
  }

  predicate Inside(t: int, from: int, to: int) {
    from <= t < to
  }

  /** Two non-empty stretches of time overlap exactly when they share an instant. */
  lemma OverlapShares(a: int, b: int, c: int, d: int)
    requires a < b && c < d
    ensures IntervalsOverlap(a, b, c, d) <==> exists t :: Inside(t, a, b) && Inside(t, c, d)
  {
    if IntervalsOverlap(a, b, c, d) {
      var t := if a >= c then a else c;
      assert Inside(t, a, b) && Inside(t, c, d);
    }
  }

  /** A shift given in clock times opens at its minute; a close at or before that is of the next day. */
  lemma ShiftOfClocks(oh: nat, om: nat, ch: nat, cm: nat)
    ensures var s := Shift(Pad2(oh) + ":" + Pad2(om), Pad2(ch) + ":" + Pad2(cm));
            var open := if oh == 0 && om == 0 then 1440 else oh * 60 + om;
            var close := if ch == 0 && cm == 0 then 1440 else ch * 60 + cm;
            Opens(s) == open && Closes(s) == if close <= open then close + 1440 else close
  {
    hide MinutesOf, Pad2;
    MinutesOfClock(oh, om);
    MinutesOfClock(ch, cm);
  }

  predicate Timed(s: Shift) {
    s.open != "" && s.close != ""
  }

  lemma {:induction false} WithTimesIs(shifts: seq<Shift>)
    ensures forall s :: s in WithTimes(shifts) <==> s in shifts && Timed(s)
    ensures (forall s :: s in shifts ==> Timed(s)) ==> WithTimes(shifts) == shifts
  {
    if shifts != [] {
      WithTimesIs(shifts[1..]);
      assert shifts == [shifts[0]] + shifts[1..];
      assert shifts[0] in shifts && forall s :: s in shifts[1..] ==> s in shifts;
    }
  }

  /** The last special day given for a key is the one in force. */
  lemma {:induction false} SpecialIsLast(rows: seq<SpecialDay>, key: string)
    ensures match SpecialOf(rows, key)
            case None => forall row :: row in rows ==> row.dayKey != key
            case Some(h) => exists i :: 0 <= i < |rows| && rows[i] == h && h.dayKey == key
                              && forall j :: i < j < |rows| ==> rows[j].dayKey != key
  {
    if rows != [] && rows[|rows| - 1].dayKey != key {
      SpecialIsLast(rows[..|rows| - 1], key);
      assert rows == rows[..|rows| - 1] + [rows[|rows| - 1]];
    }
  }

  /**
   * The shifts in force: those of the day's special entry, none when it is closed; without one, those of
   * the weekday's row that have both times, or its single pair of times when it lists no shift at all;
   * none when the row is closed or missing.
   */
  lemma ShiftsInForce(q: Query, n: int, s: Shift)
    ensures s in ShiftsOn(q, n) <==>
              match SpecialOf(q.specialDays, Key(n))
              case Some(special) => !special.closed && s in special.shifts
              case None =>
                match RowOf(q.workHours, (n + 4) % 7)
                case None => false
                case Some(row) =>
                  && !row.closed && Timed(s)
                  && (s in row.shifts || (row.shifts == [] && s == Shift(row.open, row.close)))
  {
    hide Key, SpecialOf, RowOf;
    match SpecialOf(q.specialDays, Key(n)) {
      case Some(_) =>
      case None =>
        match RowOf(q.workHours, (n + 4) % 7) {
          case None =>
          case Some(row) => WithTimesIs(row.shifts);
        }
    }
  }

  /** A two-digit clock time reads as its minute of the day, except that midnight reads as the end of the day. */
  lemma MinutesOfClock(h: nat, m: nat)
    ensures MinutesOf(Pad2(h) + ":" + Pad2(m)) == if h == 0 && m == 0 then 1440 else h * 60 + m
  {
    hide Pad2, Split;
    NumberOfPad2(h);
    NumberOfPad2(m);
    assert Pad2(h) + ":" + Pad2(m) == Pad2(h) + [':'] + Pad2(m);
    SplitFirst(Pad2(h), ':', Pad2(m));
    SplitWhole(Pad2(m), ':');
  }

  /** An hour alone is full, and what is no number counts as zero. */
  lemma LooseClock(h: nat, m: nat, text: string)
    requires ':' !in text && !AllDigits(text)
    ensures MinutesOf(Pad2(h)) == h * 60
    ensures MinutesOf(text + ":" + Pad2(m)) == m && MinutesOf(Pad2(h) + ":" + text) == h * 60
  {
    hide Pad2, Split;
    NumberOfPad2(h);
    NumberOfPad2(m);
    assert text + ":" + Pad2(m) == text + [':'] + Pad2(m);
    assert Pad2(h) + ":" + text == Pad2(h) + [':'] + text;
    SplitFirst(text, ':', Pad2(m));
    SplitFirst(Pad2(h), ':', text);
    SplitWhole(Pad2(m), ':');
    SplitWhole(Pad2(h), ':');
    SplitWhole(text, ':');
  }

  /** The row in force for a weekday is the last one given for it. */
  lemma {:induction false} RowIsLast(rows: seq<WorkHour>, weekday: int)
    ensures match RowOf(rows, weekday)
            case None => forall row :: row in rows ==> row.day != weekday
            case Some(h) => exists i :: 0 <= i < |rows| && rows[i] == h && h.day == weekday
                              && forall j :: i < j < |rows| ==> rows[j].day != weekday
  {
    if rows != [] && rows[|rows| - 1].day != weekday {
      RowIsLast(rows[..|rows| - 1], weekday);
      assert rows == rows[..|rows| - 1] + [rows[|rows| - 1]];
    }
  }

  /** Every slot of the grid, free or full, starts on the date its key names, at the time its clock shows. */
  lemma SlotKeepsItsDate(q: Query, busy: seq<Busy>, x: Slot)
    requires Dated(LocalDay(q.now)) && x in Grid(q, busy)
    ensures TehranDayKey(x.start) == x.dayKey && MinutesOf(x.clock) % 1440 == MinuteOfDay(x.start)
    ensures LocalDay(q.now) <= LocalDay(x.start) < LocalDay(q.now) + WindowDays(q)
  {
    hide YearOf, Planned, GridDay, BusyRanges, WindowDays, GridUpTo, Key, LocalDay, StartOn, Duration, MinutesOf,
        Pad2, MinuteOfDay;
    var ranges := BusyRanges(busy, Duration(q) * MINUTE_MS);
    GridUpToExact(q, ranges, Max(0, WindowDays(q)), x);
    var i: nat, t: nat :| i < Max(0, WindowDays(q)) && Planned(q, i, t) && x in Pushed(q, ranges, GridDay(q, i), t);
    GridDayIs(q, i);
    StartIs(GridDay(q, i), t);
    ClockShows(t);
  }

  lemma ClockShows(t: nat)
    ensures MinutesOf(Pad2(t % 1440 / 60) + ":" + Pad2(t % 60)) % 1440 == t % 1440
  {
    hide MinutesOf, Pad2;
    MinutesOfClock(t % 1440 / 60, t % 60);
    MinuteParts(t);
  }

  // Order.

  predicate Increasing(slots: seq<Slot>) {
    forall a, b :: 0 <= a < b < |slots| ==> slots[a].start < slots[b].start
  }

  predicate Within(slots: seq<Slot>, lo: int, hi: int) {
    forall x :: x in slots ==> lo <= x.start < hi
  }

  /** Shifts that follow one another and end by midnight. */
  predicate Tidy(shifts: seq<Shift>) {
    && (forall s :: s in shifts ==> Opens(s) < Closes(s) <= 1440)
    && (forall a, b :: 0 <= a < b < |shifts| ==> Closes(shifts[a]) <= Opens(shifts[b]))
  }

  lemma Appended(a: seq<Slot>, b: seq<Slot>, lo: int, mid: int, hi: int)
    requires Increasing(a) && Within(a, lo, mid) && Increasing(b) && Within(b, mid, hi) && lo <= mid <= hi
    ensures Increasing(a + b) && Within(a + b, lo, hi)
  {
    assert forall k :: 0 <= k < |a| ==> a[k] in a;
    assert forall k :: 0 <= k < |b| ==> b[k] in b;
  }

  lemma EarlyStart(n: int, t: nat)
    requires Dated(n) && t < 1440
    ensures StartOn(n, t) == At(n, t)
  {
    hide YearOf, StartOn, At;
    StartIs(n, t);
  }

  lemma {:induction false} ShiftOrdered(q: Query, ranges: seq<Range>, n: int, s: Shift, c: nat)
    requires Dated(n) && c <= Fits(s, Duration(q)) && Opens(s) < Closes(s) <= 1440
    ensures var part := ShiftSlots(q, ranges, n, s, c); var last := Opens(s) + JobsSpan(c, Duration(q));
            last <= Closes(s) && Increasing(part) && Within(part, At(n, Opens(s)), At(n, last))
  {
    hide YearOf, Opens, Closes, Fits, Duration, Pushed, Offered, StartOn, Increasing, Within, JobsSpan;
    if c == 0 {
      SpanStep(0, Duration(q));
      EmptyOrdered(At(n, Opens(s)));
    } else {
      var t := Opens(s) + JobsSpan(c - 1, Duration(q));
      ShiftOrdered(q, ranges, n, s, c - 1);
      FitsBound(s, Duration(q), c - 1);
      SpanStep(c - 1, Duration(q));
      EarlyStart(n, t);
      PushedOrdered(q, ranges, n, t);
      Appended(ShiftSlots(q, ranges, n, s, c - 1), Pushed(q, ranges, n, t), At(n, Opens(s)), At(n, t),
          At(n, t + Duration(q)));
    }
  }

  lemma EmptyOrdered(lo: int)
    ensures Increasing([]) && Within([], lo, lo)
  {
  }

  lemma PushedOrdered(q: Query, ranges: seq<Range>, n: int, t: nat)
    requires StartOn(n, t) == At(n, t)
    ensures Increasing(Pushed(q, ranges, n, t)) && Within(Pushed(q, ranges, n, t), At(n, t), At(n, t + Duration(q)))
  {
    hide StartOn, Offered, Duration;
  }

  lemma {:induction false} DayOrdered(q: Query, ranges: seq<Range>, n: int, shifts: seq<Shift>)
    requires Dated(n) && Tidy(shifts)
    ensures Increasing(DaySlots(q, ranges, n, shifts))
    ensures Within(DaySlots(q, ranges, n, shifts), At(n, 0),
        At(n, if shifts == [] then 0 else Closes(shifts[|shifts| - 1])))
  {
    hide YearOf, Opens, Closes, Fits, Duration, ShiftSlots, Increasing, Within, JobsSpan;
    if shifts == [] {
      EmptyOrdered(At(n, 0));
    } else {
      var k := |shifts| - 1;
      var front, last := shifts[..k], shifts[k];
      DayOrdered(q, ranges, n, front);
      var c := Fits(last, Duration(q));
      assert last in shifts;
      ShiftOrdered(q, ranges, n, last, c);
      var part := ShiftSlots(q, ranges, n, last, c);
      Widen(part, At(n, Opens(last)), At(n, Opens(last) + JobsSpan(c, Duration(q))), At(n, Opens(last)),
          At(n, Closes(last)));
      Widen(DaySlots(q, ranges, n, front), At(n, 0), At(n, if front == [] then 0 else Closes(front[k - 1])),
          At(n, 0), At(n, Opens(last)));
      Appended(DaySlots(q, ranges, n, front), part, At(n, 0), At(n, Opens(last)), At(n, Closes(last)));
    }
  }

  lemma Widen(a: seq<Slot>, lo: int, hi: int, lo': int, hi': int)
    requires Within(a, lo, hi) && lo' <= lo && (hi <= hi' || a == [])
    ensures Within(a, lo', hi')
  {
  }

  /** Long jobs, and days whose shifts are tidy, keep the starts in order. */
  ghost predicate Orderly(q: Query) {
    LongJob(q) || forall i: nat :: i < WindowDays(q) ==> Tidy(ShiftsOn(q, GridDay(q, i)))
  }

  lemma DayPartOrdered(q: Query, ranges: seq<Range>, i: nat)
    requires Dated(LocalDay(q.now)) && Orderly(q) && i < WindowDays(q)
    ensures var part := DayPart(q, ranges, i); var n := LocalDay(q.now) + i;
            Increasing(part) && Within(part, At(n, 0), At(n + 1, 0))
  {
    hide YearOf, GridDay, LocalDay, ShiftsOn, WindowDays, DaySlots, LongJob, DaySpan, Opens, Closes, Offered, StartOn;
    var n := GridDay(q, i);
    GridDayIs(q, i);
    var shifts := ShiftsOn(q, n);
    if shifts != [] {
      if LongJob(q) {
        StartIs(n, Opens(shifts[0]));
      } else {
        DayOrdered(q, ranges, n, shifts);
        assert shifts[|shifts| - 1] in shifts;
      }
    }
  }

  lemma {:induction false} GridOrdered(q: Query, ranges: seq<Range>, c: nat)
    requires Dated(LocalDay(q.now)) && Orderly(q) && (c <= WindowDays(q) || c == 0)
    ensures Increasing(GridUpTo(q, ranges, c))
    ensures Within(GridUpTo(q, ranges, c), At(LocalDay(q.now), 0), At(LocalDay(q.now) + c, 0))
  {
    hide YearOf, GridDay, LocalDay, WindowDays, DayPart, Orderly, Increasing, Within;
    var n := LocalDay(q.now);
    if c == 0 {
      EmptyOrdered(At(n, 0));
    } else {
      GridOrdered(q, ranges, c - 1);
      DayPartOrdered(q, ranges, c - 1);
      Appended(GridUpTo(q, ranges, c - 1), DayPart(q, ranges, c - 1), At(n, 0), At(n + c - 1, 0), At(n + c, 0));
    }
  }

  lemma {:induction false} FreeOnlyOrdered(slots: seq<Slot>)
    requires Increasing(slots)
    ensures Increasing(FreeOnly(slots))
  {
    if slots != [] {
      var n := |slots| - 1;
      FreeOnlyOrdered(slots[..n]);
      var free := FreeOnly(slots[..n]);
      forall a | 0 <= a < |free|
        ensures free[a].start < slots[n].start
      {
        FreeOnlyExact(slots[..n], free[a]);
      }
    }
  }

  /** The grid and its free slots are strictly increasing, so no start is ever listed twice. */
  lemma SlotsIncrease(q: Query, busy: seq<Busy>)
    requires Dated(LocalDay(q.now)) && Orderly(q)
    ensures Increasing(Grid(q, busy)) && Increasing(FreeSlots(q, busy))
  {
    hide YearOf, GridDay, LocalDay, WindowDays, Orderly, Increasing, GridUpTo, BusyRanges;
    GridOrdered(q, BusyRanges(busy, Duration(q) * MINUTE_MS), Max(0, WindowDays(q)));
    FreeOnlyOrdered(Grid(q, busy));
  }

  // Booking round after round.

  /** One round: a query, and the free slot taken from its answer. */
  datatype Turn = Turn(q: Query, slot: Slot)

  function Booked(slot: Slot): Busy {
    Span(Some(slot.start), Some(slot.end))
  }

  /** The busy list after the rounds. */
  function BusyAfter(busy: seq<Busy>, rounds: seq<Turn>): seq<Busy> {
    if rounds == [] then busy
    else BusyAfter(busy, rounds[..|rounds| - 1]) + [Booked(rounds[|rounds| - 1].slot)]
  }

  ghost predicate BookingRun(busy: seq<Busy>, rounds: seq<Turn>) {
    forall i :: 0 <= i < |rounds| ==> rounds[i].slot in FreeSlots(rounds[i].q, BusyAfter(busy, rounds[..i]))
  }

  predicate Padded(q: Query, slot: Slot, r: Range) {
    IntervalsOverlap(slot.start - Max(0, q.bufferBefore) * MINUTE_MS, slot.end + Max(0, q.bufferAfter) * MINUTE_MS,
        r.start, r.end)
  }

  lemma {:induction false} BusyAfterHolds(busy: seq<Busy>, rounds: seq<Turn>, i: nat)
    requires i < |rounds|
    ensures Booked(rounds[i].slot) in BusyAfter(busy, rounds)
    ensures forall b :: b in busy ==> b in BusyAfter(busy, rounds)
    decreases |rounds|
  {
    var k := |rounds| - 1;
    if i < k {
      BusyAfterHolds(busy, rounds[..k], i);
    } else if k > 0 {
      BusyAfterHolds(busy, rounds[..k], 0);
    }
  }

  lemma {:induction false} RangesOfBusy(busy: seq<Busy>, fallbackMs: int, b: Busy, r: Range)
    requires b in busy && r in RangeOf(b, fallbackMs)
    ensures r in BusyRanges(busy, fallbackMs)
  {
    var k := |busy| - 1;
    assert busy == busy[..k] + [busy[k]];
    if b != busy[k] {
      RangesOfBusy(busy[..k], fallbackMs, b, r);
    }
  }

  lemma {:induction false} FreeMissesBusy(q: Query, busy: seq<Busy>, x: Slot)
    requires x in FreeSlots(q, busy)
    ensures x.end == x.start + Duration(q) * MINUTE_MS
    ensures forall r :: r in BusyRanges(busy, Duration(q) * MINUTE_MS) ==> !Padded(q, x, r)
  {
    hide Planned, GridDay, BusyRanges, WindowDays, GridUpTo, StartOn, Key, Duration;
    var ranges := BusyRanges(busy, Duration(q) * MINUTE_MS);
    FreeOnlyExact(Grid(q, busy), x);
    var c := Max(0, WindowDays(q));
    GridUpToExact(q, ranges, c, x);
  }

  /**
   * Whatever each round asks (any now, duration and buffers, long jobs included), every slot taken
   * misses the original busy ranges and all earlier bookings, with its own buffers around it.
   */
  lemma NeverDoubleBooked(busy: seq<Busy>, rounds: seq<Turn>, i: nat)
    requires BookingRun(busy, rounds) && i < |rounds|
    ensures rounds[i].slot.start < rounds[i].slot.end
    ensures forall r :: r in BusyRanges(busy, Duration(rounds[i].q) * MINUTE_MS) ==>
        !Padded(rounds[i].q, rounds[i].slot, r)
    ensures forall j :: 0 <= j < i ==>
              !Padded(rounds[i].q, rounds[i].slot, Range(rounds[j].slot.start, rounds[j].slot.end))
  {
    hide FreeSlots, BusyRanges, Duration, Padded;
    var q, x := rounds[i].q, rounds[i].slot;
    var now := BusyAfter(busy, rounds[..i]);
    var ms := Duration(q) * MINUTE_MS;
    FreeMissesBusy(q, now, x);
    forall r | r in BusyRanges(busy, ms)
      ensures !Padded(q, x, r)
    {
      RangesKept(busy, rounds[..i], ms, r);
    }
    forall j | 0 <= j < i
      ensures !Padded(q, x, Range(rounds[j].slot.start, rounds[j].slot.end))
    {
      FreeMissesBusy(rounds[j].q, BusyAfter(busy, rounds[..j]), rounds[j].slot);
      BusyAfterHolds(busy, rounds[..i], j);
      RangesOfBusy(now, ms, Booked(rounds[j].slot), Range(rounds[j].slot.start, rounds[j].slot.end));
    }
  }

  lemma {:induction false} RangesKept(busy: seq<Busy>, rounds: seq<Turn>, ms: int, r: Range)
    requires r in BusyRanges(busy, ms)
    ensures r in BusyRanges(BusyAfter(busy, rounds), ms)
  {
    if rounds != [] {
      RangesKept(busy, rounds[..|rounds| - 1], ms, r);
    }
  }
}
