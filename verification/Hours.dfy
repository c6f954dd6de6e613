/**
 * The slot allocator of hours.ts: working shifts, special days, busy ranges and the grid of
 * bookable starts. Weekdays stand for their index in WEEKDAYS_FA (0 is Sunday).
 */
module Hours {
  import opened Numbers
  import opened Text
  import opened Civil
  import opened Tehran

  datatype Shift = Shift(open: string, close: string)
  datatype WorkHour = WorkHour(day: int, open: string, close: string, closed: bool, shifts: seq<Shift>)
  datatype SpecialDay = SpecialDay(dayKey: string, closed: bool, shifts: seq<Shift>)

  /** A busy entry: a bare start, or a start and an end; None is a date that does not parse. */
  datatype Busy = From(start: Option<int>) | Span(start: Option<int>, end: Option<int>)

  /** Half-open [start, end). */
  datatype Range = Range(start: int, end: int)

  datatype Slot = Slot(start: int, end: int, clock: string, dayKey: string, full: bool)

  datatype Query = Query(
    workHours: seq<WorkHour>, slotMinutes: int, days: int, now: int, minutes: Option<int>,
    specialDays: seq<SpecialDay>, bufferBefore: int, bufferAfter: int, includeOccupied: bool)

  /** `minutesOf`: "00:00" is the end of the day. */
  function MinutesOf(hhmm: string): nat {
    var parts := Split(hhmm, ':');
    var h, m := PartAt(parts, 0), PartAt(parts, 1);
    if h == Some(0) && m == Some(0) then 1440
    else (if h.Some? then h.value else 0) * 60 + (if m.Some? then m.value else 0)
  }

  function Opens(s: Shift): nat {
    MinutesOf(s.open)
  }

  /** A close at or before the opening belongs to the next morning. */
  function Closes(s: Shift): nat {
    if MinutesOf(s.close) <= Opens(s) then MinutesOf(s.close) + 1440 else MinutesOf(s.close)
  }

  function ShiftsFor(row: Option<WorkHour>): seq<Shift> {
    match row
    case None => []
    case Some(h) =>
      if h.closed then []
      else if |h.shifts| > 0 then WithTimes(h.shifts)
      else if h.open != "" && h.close != "" then [Shift(h.open, h.close)]
      else []
  }

  function WithTimes(shifts: seq<Shift>): seq<Shift> {
    if shifts == [] then []
    else
      var first := shifts[0];
      (if first.open != "" && first.close != "" then [first] else []) + WithTimes(shifts[1..])
  }

  /** `new Map(rows)` looked up: the last row of a day wins. */
  function RowOf(rows: seq<WorkHour>, weekday: int): Option<WorkHour> {
    if rows == [] then None
    else if rows[|rows| - 1].day == weekday then Some(rows[|rows| - 1])
    else RowOf(rows[..|rows| - 1], weekday)
  }

  function SpecialOf(rows: seq<SpecialDay>, key: string): Option<SpecialDay> {
    if rows == [] then None
    else if rows[|rows| - 1].dayKey == key then Some(rows[|rows| - 1])
    else SpecialOf(rows[..|rows| - 1], key)
  }

  /** The shifts in force on day number n: a special day overrides the week. */
  function ShiftsOn(q: Query, n: int): seq<Shift> {
    match SpecialOf(q.specialDays, Key(n))
    case Some(special) => if special.closed then [] else special.shifts
    case None => ShiftsFor(RowOf(q.workHours, WeekDay(n)))
  }

  // Busy ranges.

  predicate IntervalsOverlap(aStart: int, aEnd: int, bStart: int, bEnd: int) {
    aStart < bEnd && bStart < aEnd
  }

  function RangeOf(item: Busy, fallbackMs: int): seq<Range> {
    match item
    case From(Some(start)) => [Range(start, start + fallbackMs)]
    case Span(Some(start), Some(end)) => if end <= start then [] else [Range(start, end)]
    case _ => []
  }

  function BusyRanges(busy: seq<Busy>, fallbackMs: int): seq<Range> {
    if busy == [] then []
    else BusyRanges(busy[..|busy| - 1], fallbackMs) + RangeOf(busy[|busy| - 1], fallbackMs)
  }

  method ToBusyRanges(busy: seq<Busy>, fallbackMs: int) returns (out: seq<Range>)
    ensures out == BusyRanges(busy, fallbackMs)
  {
    out := [];
    for i := 0 to |busy|
      invariant out == BusyRanges(busy[..i], fallbackMs)
    {
      assert busy[..i + 1][..i] == busy[..i];
      match busy[i] {
        case From(start) =>
          if start.Some? {
            out := out + [Range(start.value, start.value + fallbackMs)];
          }
        case Span(start, end) =>
          if start.Some? && end.Some? && end.value > start.value {
            out := out + [Range(start.value, end.value)];
          }
      }
    }
    assert busy[..|busy|] == busy;
  }

  predicate Conflicts(start: int, end: int, ranges: seq<Range>) {
    exists r :: r in ranges && IntervalsOverlap(start, end, r.start, r.end)
  }

  // The grid.

  function Duration(q: Query): (d: int)
    ensures d >= 10
  {
    Max(10, match q.minutes case Some(m) => m case None => if q.slotMinutes == 0 then 60 else q.slotMinutes)
  }

  predicate LongJob(q: Query) {
    Duration(q) >= 720
  }

  /** `Math.max(1, Math.round(duration / 1440))` for long jobs. */
  function DaySpan(q: Query): (d: int)
    ensures d >= 1
  {
    if LongJob(q) then Max(1, (Duration(q) + 720) / 1440) else 1
  }

  function WindowDays(q: Query): int {
    if LongJob(q) then Max(q.days, DaySpan(q) * 5) else q.days
  }

  function GridDay(q: Query, i: int): int {
    var clock := TehranClock(q.now);
    UtcDay(clock.y, clock.m - 1, clock.day + i)
  }

  /** Minute t of the shift plan, folded back onto the same calendar date. */
  function StartOn(n: int, t: nat): int {
    var c := DateOf(n);
    LocalToInstant(c.y, c.m, c.d, t % 1440 / 60, t % 60)
  }

  predicate Taken(q: Query, ranges: seq<Range>, start: int) {
    Conflicts(start - Max(0, q.bufferBefore) * MINUTE_MS,
              start + Duration(q) * MINUTE_MS + Max(0, q.bufferAfter) * MINUTE_MS, ranges)
  }

  function SlotOn(q: Query, ranges: seq<Range>, n: int, t: nat): Slot {
    var start := StartOn(n, t);
    Slot(start, start + Duration(q) * MINUTE_MS, Pad2(t % 1440 / 60) + ":" + Pad2(t % 60),
         Key(n), Taken(q, ranges, start))
  }

  predicate Offered(q: Query, ranges: seq<Range>, n: int, t: nat) {
    && StartOn(n, t) >= q.now + 20 * MINUTE_MS
    && (q.includeOccupied || !Taken(q, ranges, StartOn(n, t)))
  }

  /** `pushSlot`: appends the slot unless it starts too soon or is taken. */
  function Pushed(q: Query, ranges: seq<Range>, n: int, t: nat): seq<Slot> {
    if Offered(q, ranges, n, t) then [SlotOn(q, ranges, n, t)] else []
  }

  function WholeJobs(room: nat, duration: nat): nat
    requires duration >= 10
  {
    room / duration
  }

  /** How many whole jobs fit between opening and closing. */
  function Fits(s: Shift, duration: int): (count: nat)
    requires duration >= 10
  {
    if Closes(s) <= Opens(s) then 0 else WholeJobs(Closes(s) - Opens(s), duration)
  }

  /** k jobs in a row. */
  function JobsSpan(k: nat, duration: nat): nat {
    k * duration
  }

  lemma SpanStep(k: nat, duration: nat)
    ensures JobsSpan(0, duration) == 0
    ensures JobsSpan(k + 1, duration) == JobsSpan(k, duration) + duration
  {
  }

  /** The first k starts of a shift, back to back. */
  function ShiftSlots(q: Query, ranges: seq<Range>, n: int, s: Shift, k: nat): seq<Slot> {
    if k == 0 then []
    else ShiftSlots(q, ranges, n, s, k - 1) + Pushed(q, ranges, n, Opens(s) + JobsSpan(k - 1, Duration(q)))
  }

  function DaySlots(q: Query, ranges: seq<Range>, n: int, shifts: seq<Shift>): seq<Slot> {
    if shifts == [] then []
    else
      var last := shifts[|shifts| - 1];
      DaySlots(q, ranges, n, shifts[..|shifts| - 1]) + ShiftSlots(q, ranges, n, last, Fits(last, Duration(q)))
  }

  /** What day i of the window contributes; a long job has one start, on every DaySpan-th day. */
  function DayPart(q: Query, ranges: seq<Range>, i: nat): seq<Slot> {
    var n := GridDay(q, i);
    var shifts := ShiftsOn(q, n);
    if shifts == [] then []
    else if LongJob(q) then (if i % DaySpan(q) == 0 then Pushed(q, ranges, n, Opens(shifts[0])) else [])
    else DaySlots(q, ranges, n, shifts)
  }

  function GridUpTo(q: Query, ranges: seq<Range>, k: nat): seq<Slot> {
    if k == 0 then [] else GridUpTo(q, ranges, k - 1) + DayPart(q, ranges, k - 1)
  }

  function Grid(q: Query, busy: seq<Busy>): seq<Slot> {
    GridUpTo(q, BusyRanges(busy, Duration(q) * MINUTE_MS), Max(0, WindowDays(q)))
  }

  function FreeOnly(slots: seq<Slot>): seq<Slot> {
    if slots == [] then []
    else FreeOnly(slots[..|slots| - 1]) + (if slots[|slots| - 1].full then [] else [slots[|slots| - 1]])
  }

  function FreeSlots(q: Query, busy: seq<Busy>): seq<Slot> {
    FreeOnly(Grid(q, busy))
  }

  lemma FitsBound(s: Shift, duration: int, k: nat)
    requires duration >= 10
    ensures Opens(s) + JobsSpan(k, duration) + duration <= Closes(s) <==> k < Fits(s, duration)
  {
    hide Opens, Closes, JobsSpan, WholeJobs;
    if Closes(s) > Opens(s) {
      SpanFits(Closes(s) - Opens(s), duration, k);
    }
  }

  lemma SpanFits(room: nat, duration: nat, k: nat)
    requires duration >= 10
    ensures JobsSpan(k, duration) + duration <= room <==> k < WholeJobs(room, duration)
  {
    var q := room / duration;
    assert room == q * duration + room % duration;
    if k < q {
      assert (k + 1) * duration <= q * duration;
    } else {
      assert k * duration >= q * duration;
    }
  }

  /** The innermost loop of the grid: one shift, stepping by the duration. */
  method PushShift(q: Query, ranges: seq<Range>, n: int, shift: Shift) returns (out: seq<Slot>)
    ensures out == ShiftSlots(q, ranges, n, shift, Fits(shift, Duration(q)))
  {
    hide Pushed, Opens, Closes, Duration, Fits, JobsSpan;
    var duration, open, close := Duration(q), Opens(shift), Closes(shift);
    out := [];
    var t := open;
    ghost var k: nat := 0;
    SpanStep(0, duration);
    FitsBound(shift, duration, k);
    while t + duration <= close
      invariant t == open + JobsSpan(k, duration) && k <= Fits(shift, duration)
      invariant t + duration <= close <==> k < Fits(shift, duration)
      invariant out == ShiftSlots(q, ranges, n, shift, k)
      decreases Fits(shift, duration) - k
    {
      out := out + Pushed(q, ranges, n, t);
      t := t + duration;
      SpanStep(k, duration);
      k := k + 1;
      FitsBound(shift, duration, k);
    }
  }

  method PushDay(q: Query, ranges: seq<Range>, i: nat) returns (out: seq<Slot>)
    ensures out == DayPart(q, ranges, i)
  {
    hide Pushed, Opens, Closes, Duration, Fits, GridDay, ShiftsOn, LongJob, DaySpan, ShiftSlots;
    var n := GridDay(q, i);
    var shifts := ShiftsOn(q, n);
    if |shifts| == 0 {
      return [];
    }
    if LongJob(q) {
      return if i % DaySpan(q) == 0 then Pushed(q, ranges, n, Opens(shifts[0])) else [];
    }
    out := [];
    for j := 0 to |shifts|
      invariant out == DaySlots(q, ranges, n, shifts[..j])
    {
      var part := PushShift(q, ranges, n, shifts[j]);
      out := out + part;
      assert shifts[..j + 1][..j] == shifts[..j];
    }
    assert shifts[..|shifts|] == shifts;
  }

  /** `buildSlotGrid`: the days of the window in turn. */
  method BuildSlotGrid(q: Query, busy: seq<Busy>) returns (out: seq<Slot>)
    ensures out == Grid(q, busy)
  {
    hide DayPart, BusyRanges, Duration;
    var ranges := ToBusyRanges(busy, Duration(q) * MINUTE_MS);
    out := [];
    for i := 0 to Max(0, WindowDays(q))
      invariant out == GridUpTo(q, ranges, i)
    {
      var part := PushDay(q, ranges, i);
      out := out + part;
    }
  }

  /** `buildSlots`: the free part of the grid. */
  method BuildSlots(q: Query, busy: seq<Busy>) returns (out: seq<Slot>)
    ensures out == FreeSlots(q, busy)
  {
    var grid := BuildSlotGrid(q, busy);
    out := FreeOnly(grid);
  }

  // The first day with no job and no class.

  /** The key after i rounds of `key = shiftTehranDayKey(key, 1)`. */
  function KeyAfter(from: int, i: nat): string {
    if i == 0 then TehranDayKey(from) else ShiftDayKey(KeyAfter(from, i - 1), 1)
  }

  function FirstOpenFrom(occupied: seq<string>, thursdays: seq<string>, from: int, i: nat): string
    decreases 90 - i
  {
    if i >= 90 then TehranDayKey(from)
    else if KeyAfter(from, i) !in occupied && KeyAfter(from, i) !in thursdays then KeyAfter(from, i)
    else FirstOpenFrom(occupied, thursdays, from, i + 1)
  }

  method FirstOpenCustomerDay(occupied: seq<string>, thursdays: seq<string>, from: int) returns (key: string)
    ensures key == FirstOpenFrom(occupied, thursdays, from, 0)
  {
    hide TehranDayKey, ShiftDayKey;
    key := TehranDayKey(from);
    var i := 0;
    while i < 90
      invariant i <= 90 && key == KeyAfter(from, i)
      invariant FirstOpenFrom(occupied, thursdays, from, 0) == FirstOpenFrom(occupied, thursdays, from, i)
    {
      if key !in occupied && key !in thursdays {
        return;
      }
      key := ShiftDayKey(key, 1);
      i := i + 1;
    }
    key := TehranDayKey(from);
  }
}
