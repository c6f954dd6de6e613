/**
 * The Tehran wall clock of hours.ts: a fixed offset of three and a half hours, day keys
 * such as "2026-09-12", day swaps and Saturday-to-Friday weeks. Instants are milliseconds.
 */
module Tehran {
  import opened Text
  import opened Civil

  const DAY_MS := 86400000
  const MINUTE_MS := 60000
  const OFFSET_MS := 12600000

  datatype Clock = Clock(y: int, m: int, day: int, hh: int, mm: int, weekday: int)

  /** The day number of an instant's Tehran date. */
  function LocalDay(t: int): int {
    (t + OFFSET_MS) / DAY_MS
  }

  function MinuteOfDay(t: int): int {
    (t + OFFSET_MS) % DAY_MS / MINUTE_MS
  }

  function TehranClock(t: int): Clock {
    var c, minute := DateOf(LocalDay(t)), MinuteOfDay(t);
    Clock(c.y, c.m, c.d, minute / 60, minute % 60, WeekDay(UtcDay(c.y, c.m - 1, c.d)))
  }

  /** `tehranLocalToIso`, as an instant. */
  function LocalToInstant(y: int, m: int, day: int, hh: int, mm: int): int {
    At(UtcDay(y, m - 1, day), hh * 60 + mm)
  }

  /** The instant of a minute (from local midnight) of day number n. */
  function At(n: int, minute: int): int {
    n * DAY_MS + minute * MINUTE_MS - OFFSET_MS
  }

  /** Days whose year survives the trip through `Date.UTC` and a day key. */
  predicate Dated(n: int) {
    YearOf(n) >= 100
  }

  lemma AtClock(n: int, minute: int)
    requires 0 <= minute < 1440
    ensures LocalDay(At(n, minute)) == n && MinuteOfDay(At(n, minute)) == minute
  {
    assert At(n, minute) + OFFSET_MS == n * DAY_MS + minute * MINUTE_MS;
  }

  /** The clock undoes `tehranLocalToIso` on every valid date and minute ... */
  lemma ClockOfLocal(c: Date, hh: int, mm: int)
    requires Valid(c) && c.y >= 100 && 0 <= hh < 24 && 0 <= mm < 60
    ensures TehranClock(LocalToInstant(c.y, c.m, c.d, hh, mm))
         == Clock(c.y, c.m, c.d, hh, mm, WeekDay(DayOfDate(c)))
  {
    hide DateOf, DayOf, At, LocalDay, MinuteOfDay, WeekDay, Valid;
    AtClock(DayOfDate(c), hh * 60 + mm);
    DateRoundTrip(c);
  }

  /** ... and `tehranLocalToIso` undoes the clock up to the seconds it drops. */
  lemma LocalOfClock(t: int)
    requires Dated(LocalDay(t))
    ensures var c := TehranClock(t);
            LocalToInstant(c.y, c.m, c.day, c.hh, c.mm) == t - (t + OFFSET_MS) % MINUTE_MS
  {
    hide TehranClock, LocalToInstant, YearOf, LocalDay, MinuteOfDay;
    ClockIsAt(t);
    MinuteInDay(t);
  }

  lemma ClockIsAt(t: int)
    requires Dated(LocalDay(t))
    ensures var c := TehranClock(t);
            && LocalToInstant(c.y, c.m, c.day, c.hh, c.mm) == At(LocalDay(t), MinuteOfDay(t))
            && c.weekday == WeekDay(LocalDay(t))
            && 0 <= MinuteOfDay(t) < 1440 && 0 <= c.hh < 24 && 0 <= c.mm < 60
  {
    hide DateOf, DayOf, UtcDay, At, LocalDay, WeekDay;
    UtcDayOfDate(LocalDay(t), 0);
  }

  /** Days are 86 400 000 milliseconds apart, and Tehran is 12 600 000 ahead. */
  lemma AtIs(n: int, minute: int)
    ensures At(n, minute) == n * 86400000 + minute * 60000 - 12600000
  {
  }

  /** The epoch is half past three in the morning of a Thursday in Tehran. */
  lemma EpochInTehran()
    ensures TehranClock(0) == Clock(1970, 1, 1, 3, 30, 4)
  {
    hide DateOf, YearOf, DayOfDate, Valid, At, TehranClock, UtcDay;
    Epoch();
    var c := Date(1970, 1, 1);
    DateRoundTrip(c);
    DateParts(0);
    UtcDayOfDate(0, 0);
    AtIs(0, 210);
    ClockOfLocal(c, 3, 30);
  }

  // Day keys.

  /** A number in a template literal. */
  function IntText(k: int): string {
    if k < 0 then "-" + Digits(-k) else Digits(k)
  }

  /** The key of day number n, as `tehranDayKey` and every other caller prints it. */
  function Key(n: int): string {
    DayRoundTrip(n);
    var c := DateOf(n);
    IntText(c.y) + "-" + Pad2(c.m) + "-" + Pad2(c.d)
  }

  function TehranDayKey(t: int): string {
    Key(LocalDay(t))
  }

  function PartAt(parts: seq<string>, i: nat): Option<nat> {
    if i < |parts| then Number(parts[i]) else None
  }

  /** `x || 1`: a missing, unreadable or zero month or day counts as one. */
  function OrOne(x: Option<nat>): int {
    if x.None? || x.value == 0 then 1 else x.value
  }

  /** The day number a key stands for, moved by some days; None when the year is not a number. */
  function KeyDay(key: string, days: int): Option<int> {
    var parts := Split(key, '-');
    match PartAt(parts, 0)
    case None => None
    case Some(y) => Some(UtcDay(y, OrOne(PartAt(parts, 1)) - 1, OrOne(PartAt(parts, 2)) + days))
  }

  function ShiftDayKey(key: string, days: int): string {
    match KeyDay(key, days)
    case None => "NaN-NaN-NaN"
    case Some(n) => Key(n)
  }

  lemma SplitThree(a: string, b: string, c: string)
    requires '-' !in a && '-' !in b && '-' !in c
    ensures Split(a + "-" + b + "-" + c, '-') == [a, b, c]
  {
    assert a + "-" + b + "-" + c == a + ['-'] + (b + ['-'] + c);
    SplitFirst(a, '-', b + ['-'] + c);
    SplitFirst(b, '-', c);
    SplitWhole(c, '-');
  }

  lemma DateParts(n: int)
    ensures var c := DateOf(n); c.y == YearOf(n) && 1 <= c.m <= 12 && 1 <= c.d <= 31
  {
    hide Leap, MonthOf, MonthStart, YearOf, YearStart;
    DayRoundTrip(n);
  }

  lemma KeyParts(n: int)
    ensures var c := DateOf(n);
            c.y == YearOf(n) && 1 <= c.m <= 12 && 1 <= c.d <= 31 &&
            Split(Key(n), '-') ==
              (if c.y < 0 then ["", Digits(-c.y)] else [Digits(c.y)]) + [Pad2(c.m), Pad2(c.d)]
  {
    hide DateOf, YearOf, Digits, Pad2, Split, Valid, DayOfDate;
    DateParts(n);
    var c := DateOf(n);
    NumberOfPad2(c.m);
    NumberOfPad2(c.d);
    if c.y < 0 {
      var rest := Digits(-c.y) + "-" + Pad2(c.m) + "-" + Pad2(c.d);
      assert Key(n) == "" + ['-'] + rest;
      SplitFirst("", '-', rest);
      SplitThree(Digits(-c.y), Pad2(c.m), Pad2(c.d));
    } else {
      SplitThree(Digits(c.y), Pad2(c.m), Pad2(c.d));
    }
  }

  /** Different days have different keys. */
  lemma KeyInjective(a: int, b: int)
    requires Key(a) == Key(b)
    ensures a == b
  {
    hide DateOf, DayOfDate, Key, YearOf, Digits, Pad2, Valid;
    KeyParts(a);
    KeyParts(b);
    var c, d := DateOf(a), DateOf(b);
    var s, t := Split(Key(a), '-'), Split(Key(b), '-');
    assert s == t;
    var k := if c.y < 0 then 1 else 0;
    assert d.y < 0 <==> c.y < 0;
    assert s[k] == Digits(if c.y < 0 then -c.y else c.y) && t[k] == Digits(if d.y < 0 then -d.y else d.y);
    ValueOfDigits(if c.y < 0 then -c.y else c.y);
    ValueOfDigits(if d.y < 0 then -d.y else d.y);
    assert s[k + 1] == Pad2(c.m) == Pad2(d.m) && s[k + 2] == Pad2(c.d) == Pad2(d.d);
    NumberOfPad2(c.m);
    NumberOfPad2(c.d);
    NumberOfPad2(d.m);
    NumberOfPad2(d.d);
    DayRoundTrip(a);
    DayRoundTrip(b);
  }

  lemma KeyDayOfKey(n: int, days: int)
    requires Dated(n)
    ensures KeyDay(Key(n), days) == Some(n + days)
  {
    hide DateOf, Key, DayOf, YearOf;
    KeyParts(n);
    var c := DateOf(n);
    NumberOfDigits(c.y);
    NumberOfPad2(c.m);
    NumberOfPad2(c.d);
    UtcDayOfDate(n, days);
  }

  /** A key of a year before 100 does not lead back to its own day. */
  lemma UndatedKeyMisread(n: int, days: int)
    requires !Dated(n)
    ensures KeyDay(Key(n), days).Some? && KeyDay(Key(n), days).value != n + days
  {
    hide DateOf, Key, YearOf, YearStart, MonthStart, Leap, Digits, Pad2;
    KeyParts(n);
    var c := DateOf(n);
    NumberOfPad2(c.m);
    NumberOfPad2(c.d);
    if c.y < 0 {
      NumberOfDigits(-c.y);
      MisreadNegative(n, OrOne(Some(-c.y)), OrOne(Some(c.m)));
    } else {
      NumberOfDigits(c.y);
      MisreadShort(n);
    }
  }

  lemma MisreadNegative(n: int, m: int, d: int)
    requires YearOf(n) < 0 && m >= 1 && d >= 1
    ensures UtcDay(0, m - 1, d) > n
  {
    hide Leap, MonthDays, MonthOf, YearOf;
    YearsGrow(1900, 1900 + (m - 1) / 12);
    YearsGrow(YearOf(n) + 1, 1900);
  }

  lemma MisreadShort(n: int)
    requires 0 <= YearOf(n) < 100
    ensures UtcDay(DateOf(n).y, DateOf(n).m - 1, DateOf(n).d) > n
  {
    hide Leap, MonthDays, MonthOf, DayOf, YearStart;
    DayRoundTrip(n);
    var c := DateOf(n);
    DayInYear(c.y, c.m, c.d);
    DayInYear(1900 + c.y, c.m, c.d);
    YearsGrow(c.y, 1900 + c.y);
  }

  /** A year alone, or with zeros for month and day, is its first of January; without a year there is no day. */
  lemma LooseKeys(y: nat, days: int, key: string)
    ensures KeyDay(Digits(y), days) == Some(UtcDay(y, 0, 1 + days))
    ensures KeyDay(Digits(y) + "-" + "00" + "-" + "00", days) == Some(UtcDay(y, 0, 1 + days))
    ensures !AllDigits(Split(key, '-')[0]) ==> KeyDay(key, days) == None && ShiftDayKey(key, days) == "NaN-NaN-NaN"
  {
    hide Split, Digits, UtcDay, ValueOf, Key;
    NumberOfDigits(y);
    SplitWhole(Digits(y), '-');
    SplitThree(Digits(y), "00", "00");
    ZeroReads();
  }

  lemma ZeroReads()
    ensures Number("00") == Some(0)
  {
    assert "00"[..1] == "0" && "0"[..0] == "";
  }

  /** Shifting a key moves its day by exactly that many days. */
  lemma ShiftOfKey(n: int, days: int)
    requires Dated(n)
    ensures ShiftDayKey(Key(n), days) == Key(n + days)
  {
    hide Key, KeyDay, DateOf, YearOf;
    KeyDayOfKey(n, days);
  }

  /** Shifting by a and then by b is shifting by a + b, exactly when the day between has a year from 100 on. */
  lemma ShiftsAdd(n: int, a: int, b: int)
    requires Dated(n)
    ensures ShiftDayKey(ShiftDayKey(Key(n), a), b) == ShiftDayKey(Key(n), a + b) <==> Dated(n + a)
  {
    hide Key, KeyDay, DateOf, YearOf;
    KeyDayOfKey(n, a);
    KeyDayOfKey(n, a + b);
    if Dated(n + a) {
      KeyDayOfKey(n + a, b);
    } else {
      UndatedKeyMisread(n + a, b);
      var x := KeyDay(Key(n + a), b);
      if Key(x.value) == Key(n + a + b) {
        KeyInjective(x.value, n + a + b);
      }
    }
  }

  /** For four-digit years, keys compare as strings exactly as their days do. */
  lemma KeyOrder(a: int, b: int)
    requires 1000 <= YearOf(a) <= 9999 && 1000 <= YearOf(b) <= 9999
    ensures Before(Key(a), Key(b)) <==> a < b
  {
    hide DateOf, YearOf, Digits, Pad2, Valid, DayOfDate;
    DateParts(a);
    DateParts(b);
    var c, d := DateOf(a), DateOf(b);
    FourDigits(c.y);
    FourDigits(d.y);
    FieldOrder(Digits(c.y), Digits(d.y), "-" + Pad2(c.m) + "-" + Pad2(c.d), "-" + Pad2(d.m) + "-" + Pad2(d.d),
               c.y, d.y);
    assert Key(a) == Digits(c.y) + ("-" + Pad2(c.m) + "-" + Pad2(c.d));
    assert Key(b) == Digits(d.y) + ("-" + Pad2(d.m) + "-" + Pad2(d.d));
    MonthDayOrder(c.m, c.d, d.m, d.d);
    DayOrder(a, b);
  }

  lemma FourDigits(y: nat)
    requires 1000 <= y <= 9999
    ensures |Digits(y)| == 4 && ValueOf(Digits(y)) == y
  {
    ValueOfDigits(y);
    assert |Digits(y / 1000)| == 1 && |Digits(y / 100)| == 2 && |Digits(y / 10)| == 3;
  }

  lemma TwoDigits(k: nat)
    requires k < 100
    ensures |Pad2(k)| == 2 && AllDigits(Pad2(k)) && ValueOf(Pad2(k)) == k
  {
    NumberOfPad2(k);
    assert k >= 10 ==> |Digits(k / 10)| == 1;
  }

  lemma FieldOrder(a: string, b: string, x: string, y: string, p: int, q: int)
    requires AllDigits(a) && AllDigits(b) && |a| == |b| && ValueOf(a) == p && ValueOf(b) == q
    ensures Before(a + x, b + y) <==> p < q || (p == q && Before(x, y))
  {
    BeforeAppend(a, b, x, y);
    BeforeIsLess(a, b);
  }

  lemma MonthDayOrder(m: nat, d: nat, n: nat, e: nat)
    requires m < 100 && d < 100 && n < 100 && e < 100
    ensures Before("-" + Pad2(m) + "-" + Pad2(d), "-" + Pad2(n) + "-" + Pad2(e))
      <==> m < n || (m == n && d < e)
  {
    hide Pad2, Before;
    TwoDigits(m);
    TwoDigits(d);
    TwoDigits(n);
    TwoDigits(e);
    assert "-" + Pad2(m) + "-" + Pad2(d) == "-" + (Pad2(m) + ("-" + Pad2(d)));
    assert "-" + Pad2(n) + "-" + Pad2(e) == "-" + (Pad2(n) + ("-" + Pad2(e)));
    BeforeAppend("-", "-", Pad2(m) + ("-" + Pad2(d)), Pad2(n) + ("-" + Pad2(e)));
    FieldOrder(Pad2(m), Pad2(n), "-" + Pad2(d), "-" + Pad2(e), m, n);
    BeforeAppend("-", "-", Pad2(d), Pad2(e));
    BeforeIsLess(Pad2(d), Pad2(e));
    BeforeIrreflexive("-");
  }

  // Exchanging the days of two appointments.

  datatype Visit = Visit(start: int, end: int)

  function SwapDaySlots(aStart: int, aMinutes: int, bStart: int, bMinutes: int): Option<(Visit, Visit)> {
    var a, b := TehranClock(aStart), TehranClock(bStart);
    if a.y == b.y && a.m == b.m && a.day == b.day then None
    else
      var aNext := LocalToInstant(b.y, b.m, b.day, a.hh, a.mm);
      var bNext := LocalToInstant(a.y, a.m, a.day, b.hh, b.mm);
      Some((Visit(aNext, aNext + aMinutes * MINUTE_MS), Visit(bNext, bNext + bMinutes * MINUTE_MS)))
  }

  /** The clock fields as a day number and a minute. */
  lemma LocalOfClocks(day: int, time: int)
    requires Dated(LocalDay(day))
    ensures var d, t := TehranClock(day), TehranClock(time);
            LocalToInstant(d.y, d.m, d.day, t.hh, t.mm) == At(LocalDay(day), MinuteOfDay(time))
  {
    hide DateOf, DayOf, UtcDay, YearOf, LocalDay, MinuteOfDay;
    UtcDayOfDate(LocalDay(day), 0);
  }

  lemma SameDate(s: int, t: int)
    ensures (TehranClock(s).y == TehranClock(t).y && TehranClock(s).m == TehranClock(t).m
             && TehranClock(s).day == TehranClock(t).day)
      <==> LocalDay(s) == LocalDay(t)
  {
    hide DateOf, DayOfDate, Valid, UtcDay, LocalDay;
    DayRoundTrip(LocalDay(s));
    DayRoundTrip(LocalDay(t));
  }

  /** A swap exists exactly between different days; it trades the days and keeps both clock times and durations. */
  lemma SwapTradesDays(aStart: int, aMinutes: int, bStart: int, bMinutes: int)
    requires Dated(LocalDay(aStart)) && Dated(LocalDay(bStart))
    ensures var r := SwapDaySlots(aStart, aMinutes, bStart, bMinutes);
            && (r.None? <==> LocalDay(aStart) == LocalDay(bStart))
            && (r.Some? ==>
                  && LocalDay(r.value.0.start) == LocalDay(bStart)
                  && LocalDay(r.value.1.start) == LocalDay(aStart)
                  && MinuteOfDay(r.value.0.start) == MinuteOfDay(aStart)
                  && MinuteOfDay(r.value.1.start) == MinuteOfDay(bStart)
                  && r.value.0.end - r.value.0.start == aMinutes * MINUTE_MS
                  && r.value.1.end - r.value.1.start == bMinutes * MINUTE_MS)
  {
    hide TehranClock, LocalToInstant, At, YearOf;
    SameDate(aStart, bStart);
    LocalOfClocks(aStart, bStart);
    LocalOfClocks(bStart, aStart);
    MinuteInDay(aStart);
    MinuteInDay(bStart);
    AtClock(LocalDay(aStart), MinuteOfDay(bStart));
    AtClock(LocalDay(bStart), MinuteOfDay(aStart));
  }

  lemma MinuteInDay(t: int)
    ensures 0 <= MinuteOfDay(t) < 1440
    ensures At(LocalDay(t), MinuteOfDay(t)) == t - (t + OFFSET_MS) % MINUTE_MS
  {
    SecondsInMinute(t + OFFSET_MS);
  }

  lemma SecondsInMinute(u: int)
    ensures u % DAY_MS % MINUTE_MS == u % MINUTE_MS
  {
    var q, r := u / DAY_MS, u % DAY_MS;
    SameRemainder(u, 1440 * q + r / MINUTE_MS, r % MINUTE_MS);
  }

  lemma SameRemainder(u: int, k: int, s: int)
    requires u == MINUTE_MS * k + s && 0 <= s < MINUTE_MS
    ensures u % MINUTE_MS == s
  {
  }

  /** Swapping twice restores both starts, up to the seconds within the minute that the first swap drops. */
  lemma SwapTwice(aStart: int, aMinutes: int, bStart: int, bMinutes: int)
    requires Dated(LocalDay(aStart)) && Dated(LocalDay(bStart))
    requires LocalDay(aStart) != LocalDay(bStart)
    ensures var r := SwapDaySlots(aStart, aMinutes, bStart, bMinutes);
            r.Some? &&
            var s := SwapDaySlots(r.value.0.start, aMinutes, r.value.1.start, bMinutes);
            s.Some? &&
            (s.value.0.start == aStart <==> (aStart + OFFSET_MS) % MINUTE_MS == 0) &&
            (s.value.1.start == bStart <==> (bStart + OFFSET_MS) % MINUTE_MS == 0)
  {
    hide TehranClock, LocalToInstant, At, LocalDay, MinuteOfDay, YearOf;
    SwapTradesDays(aStart, aMinutes, bStart, bMinutes);
    var r := SwapDaySlots(aStart, aMinutes, bStart, bMinutes).value;
    SwapTradesDays(r.0.start, aMinutes, r.1.start, bMinutes);
    LocalOfClocks(r.0.start, r.1.start);
    LocalOfClocks(r.1.start, r.0.start);
    MinuteInDay(aStart);
    MinuteInDay(bStart);
  }

  // Saturday-to-Friday weeks.

  datatype Week = Week(startKey: string, endKey: string, start: int, end: int)

  /** Local midnight of a key; None where the source would throw on an invalid date. */
  function KeyMidnight(key: string): Option<int> {
    var parts := Split(key, '-');
    match (PartAt(parts, 0), PartAt(parts, 1), PartAt(parts, 2))
    case (Some(y), Some(m), Some(d)) => Some(LocalToInstant(y, m, d, 0, 0))
    case _ => None
  }

  function TehranWeekBounds(weekOffset: int, from: int): Option<Week> {
    var fromSaturday := (TehranClock(from).weekday + 1) % 7;
    var startKey := ShiftDayKey(TehranDayKey(from), -fromSaturday + weekOffset * 7);
    var endKey := ShiftDayKey(startKey, 7);
    match (KeyMidnight(startKey), KeyMidnight(endKey))
    case (Some(start), Some(end)) => Some(Week(startKey, endKey, start, end))
    case _ => None
  }

  /** The Saturday on or before day n. */
  function Saturday(n: int): int {
    n - (WeekDay(n) + 1) % 7
  }

  lemma SaturdayIsSixth(n: int)
    ensures WeekDay(Saturday(n)) == 6 && Saturday(n) <= n < Saturday(n) + 7
    ensures (Saturday(n) - 2) % 7 == 0
    ensures forall k :: WeekDay(Saturday(n) + 7 * k) == 6
  {
  }

  lemma MidnightOfKey(n: int)
    requires Dated(n)
    ensures KeyMidnight(Key(n)) == Some(At(n, 0))
  {
    hide DateOf, Key, DayOf, YearOf, Digits, Pad2;
    KeyParts(n);
    var c := DateOf(n);
    NumberOfDigits(c.y);
    NumberOfPad2(c.m);
    NumberOfPad2(c.d);
    UtcDayOfDate(n, 0);
  }

  /** The bounds are the midnights of a Saturday and of the Saturday after it. */
  lemma WeekBounds(k: int, from: int)
    requires var s := Saturday(LocalDay(from)) + 7 * k;
             Dated(LocalDay(from)) && Dated(s) && Dated(s + 7)
    ensures var s := Saturday(LocalDay(from)) + 7 * k;
            WeekDay(s) == 6 && TehranWeekBounds(k, from) == Some(Week(Key(s), Key(s + 7), At(s, 0), At(s + 7, 0)))
  {
    hide DateOf, Key, DayOf, YearOf, LocalDay, KeyMidnight, ShiftDayKey, TehranClock, WeekDay, At, MinuteOfDay;
    var n := LocalDay(from);
    var s := Saturday(n) + 7 * k;
    ClockIsAt(from);
    SaturdayIsSixth(n);
    ShiftOfKey(n, s - n);
    ShiftOfKey(s, 7);
    MidnightOfKey(s);
    MidnightOfKey(s + 7);
  }

  /** Week k ends where week k + 1 starts; an instant is in week k exactly when its Saturday is k weeks away. */
  lemma WeeksTile(k: int, from: int, t: int)
    requires var s := Saturday(LocalDay(from)) + 7 * k;
             Dated(LocalDay(from)) && Dated(s) && Dated(s + 7) && Dated(s + 14)
    ensures var w, next := TehranWeekBounds(k, from), TehranWeekBounds(k + 1, from);
            && w.Some? && next.Some? && w.value.end == next.value.start && w.value.endKey == next.value.startKey
            && (w.value.start <= t < w.value.end <==> Saturday(LocalDay(t)) == Saturday(LocalDay(from)) + 7 * k)
  {
    hide TehranWeekBounds, WeekDay, Saturday, DateOf, YearOf, Key;
    WeekBounds(k, from);
    WeekBounds(k + 1, from);
    var s := Saturday(LocalDay(from)) + 7 * k;
    var m := LocalDay(t);
    SaturdayIsSixth(m);
    SaturdayIsSixth(LocalDay(from));
    assert At(s, 0) <= t < At(s + 7, 0) <==> s <= m < s + 7;
  }
}
