/** The week label of studio-artists.ts, against the week numbers of section 4.1.4 of ISO 8601:2004. */
module StudioWeeks {
  import opened Text
  import opened Civil
  import opened Tehran

  /** The label `weekKey` prints for a day number. */
  function WeekLabel(n: int): string {
    var day := if WeekDay(n) == 0 then 7 else WeekDay(n);
    var tmp := n + 4 - day;
    var yearStart := UtcDay(YearOf(tmp), 0, 1);
    IntText(YearOf(tmp)) + "-W" + IntText(CeilSeventh(tmp - yearStart + 1))
  }

  /** `Math.ceil(k / 7)`. */
  function CeilSeventh(k: int): int {
    (k + 6) / 7
  }

  function WeekKey(dayKey: string): string {
    match KeyDay(dayKey, 0)
    case None => "NaN-WNaN"
    case Some(n) => WeekLabel(n)
  }

  /** `weekKey` itself: `tmp` starts on the day and is moved to the Thursday of its week. */
  method ComputeWeekKey(dayKey: string) returns (printed: string)
    ensures printed == WeekKey(dayKey)
  {
    hide YearStart, YearOf, UtcDay, CeilSeventh, IntText, WeekDay, KeyDay;
    var date := KeyDay(dayKey, 0);
    if date.None? {
      return "NaN-WNaN";
    }
    var tmp := date.value;
    var day := WeekDay(tmp);
    if day == 0 {
      day := 7;
    }
    tmp := tmp + 4 - day;
    var yearStart := UtcDay(YearOf(tmp), 0, 1);
    var week := CeilSeventh(tmp - yearStart + 1);
    printed := IntText(YearOf(tmp)) + "-W" + IntText(week);
  }

  // The standard's own terms.

  /** The Monday on or before day n. */
  function Monday(n: int): int {
    n - (WeekDay(n) + 6) % 7
  }

  function FirstThursday(y: int): int {
    YearStart(y) + (4 - WeekDay(YearStart(y))) % 7
  }

  datatype IsoWeek = IsoWeek(year: int, week: int)

  /** A week belongs to the year of its Thursday and counts from the week with that year's first Thursday. */
  function WeekOf(n: int): IsoWeek {
    var thursday := Monday(n) + 3;
    var y := YearOf(thursday);
    IsoWeek(y, 1 + (thursday - FirstThursday(y)) / 7)
  }

  lemma MondayShape(n: int)
    ensures Monday(n) % 7 == 4 && Monday(n) <= n <= Monday(n) + 6
    ensures Monday(n) + 3 == n + 4 - (if WeekDay(n) == 0 then 7 else WeekDay(n))
  {
  }

  lemma FirstThursdayShape(y: int)
    ensures FirstThursday(y) % 7 == 0 && YearStart(y) <= FirstThursday(y) <= YearStart(y) + 6
  {
    hide YearStart;
  }

  /** The Thursday's ordinal in its year counts the Thursdays of the year up to it. */
  lemma OrdinalCountsThursdays(thursday: int, start: int, first: int)
    requires thursday % 7 == 0 && first % 7 == 0 && start <= first <= start + 6 && first <= thursday
    ensures CeilSeventh(thursday - start + 1) == 1 + (thursday - first) / 7
    ensures thursday == first + 7 * ((thursday - first) / 7)
  {
    var q := (thursday - first) / 7;
    assert thursday == first + 7 * q;
    assert thursday - start + 1 == 7 * q + (first - start + 1);
  }

  /** No Thursday of the year comes before its first. */
  lemma NotBeforeFirst(thursday: int, start: int, first: int)
    requires thursday % 7 == 0 && first % 7 == 0 && first <= start + 6 && start <= thursday
    ensures first <= thursday
  {
    var q, r := thursday / 7, first / 7;
    assert thursday == 7 * q && first == 7 * r;
  }

  lemma WeekStarts(n: int)
    ensures var w, thursday := WeekOf(n), Monday(n) + 3;
            && thursday == FirstThursday(w.year) + 7 * (w.week - 1)
            && FirstThursday(w.year) <= thursday
            && CeilSeventh(thursday - YearStart(w.year) + 1) == w.week
            && YearOf(thursday) == w.year
  {
    hide YearStart, YearOf, Leap, CeilSeventh, Monday, FirstThursday, WeekDay;
    MondayShape(n);
    var thursday := Monday(n) + 3;
    ThreeLater(Monday(n));
    var y := YearOf(thursday);
    FirstThursdayShape(y);
    NotBeforeFirst(thursday, YearStart(y), FirstThursday(y));
    OrdinalCountsThursdays(thursday, YearStart(y), FirstThursday(y));
  }

  lemma ThreeLater(monday: int)
    requires monday % 7 == 4
    ensures (monday + 3) % 7 == 0
  {
  }

  lemma JanuaryFirst(y: int)
    requires y >= 100
    ensures UtcDay(y, 0, 1) == YearStart(y)
  {
    hide YearStart, Leap;
  }

  /** The printed label is the year and week of the standard. */
  lemma LabelIsIsoWeek(n: int)
    requires Dated(Monday(n) + 3)
    ensures WeekLabel(n) == IntText(WeekOf(n).year) + "-W" + IntText(WeekOf(n).week)
  {
    hide YearStart, YearOf, Leap, CeilSeventh, UtcDay, WeekOf;
    MondayShape(n);
    WeekStarts(n);
    JanuaryFirst(WeekOf(n).year);
  }

  /** Week numbers run from 1 to 53; week 1 is the one that holds the first Thursday, and the fourth of January. */
  lemma WeekNumbers(n: int)
    ensures 1 <= WeekOf(n).week <= 53
    ensures WeekOf(n).week == 1 <==> Monday(n) == Monday(FirstThursday(WeekOf(n).year))
    ensures WeekOf(n).week == 1 <==> Monday(n) == Monday(YearStart(WeekOf(n).year) + 3)
    ensures WeekOf(n).week == 53 ==>
              var first := WeekDay(YearStart(WeekOf(n).year));
              first == 4 || (first == 3 && Leap(WeekOf(n).year))
  {
    hide YearStart, YearOf, Leap, CeilSeventh, WeekOf, WeekDay;
    var y := WeekOf(n).year;
    WeekStarts(n);
    FirstThursdayShape(y);
    MondayShape(n);
    MondayShape(FirstThursday(y));
    MondayShape(YearStart(y) + 3);
    assert YearStart(y + 1) == YearStart(y) + YearDays(y) by {
      YearsStep(y);
    }
    FirstThursdayOffset(y);
  }

  lemma YearsStep(y: int)
    ensures YearStart(y + 1) == YearStart(y) + YearDays(y)
  {
  }

  lemma FirstThursdayOffset(y: int)
    ensures FirstThursday(y) == YearStart(y) ==> WeekDay(YearStart(y)) == 4
    ensures FirstThursday(y) == YearStart(y) + 1 ==> WeekDay(YearStart(y)) == 3
  {
    hide YearStart;
  }

  lemma LabelParts(y: int, w: int)
    requires y >= 0 && w >= 0
    ensures Split(IntText(y) + "-W" + IntText(w), '-') == [Digits(y), "W" + Digits(w)]
  {
    hide Digits, Split;
    assert IntText(y) + "-W" + IntText(w) == Digits(y) + ['-'] + ("W" + Digits(w));
    SplitFirst(Digits(y), '-', "W" + Digits(w));
    SplitWhole("W" + Digits(w), '-');
  }

  lemma LabelInjective(y: int, w: int, z: int, v: int)
    requires y >= 0 && w >= 0 && z >= 0 && v >= 0
    requires IntText(y) + "-W" + IntText(w) == IntText(z) + "-W" + IntText(v)
    ensures y == z && w == v
  {
    LabelParts(y, w);
    LabelParts(z, v);
    var s := Split(IntText(y) + "-W" + IntText(w), '-');
    assert s[0] == Digits(y) == Digits(z);
    assert s[1][1..] == Digits(w) == Digits(v);
    ValueOfDigits(y);
    ValueOfDigits(z);
    ValueOfDigits(w);
    ValueOfDigits(v);
  }

  /** Two days get the same key exactly when they lie in the same Monday-to-Sunday week. */
  lemma SameKeySameWeek(a: int, b: int)
    requires Dated(a) && Dated(b) && Dated(Monday(a) + 3) && Dated(Monday(b) + 3)
    ensures WeekKey(Key(a)) == WeekKey(Key(b)) <==> Monday(a) == Monday(b)
  {
    hide YearStart, YearOf, Key, KeyDay, WeekLabel, WeekOf, Monday, WeekDay, IntText;
    KeyDayOfKey(a, 0);
    KeyDayOfKey(b, 0);
    LabelIsIsoWeek(a);
    LabelIsIsoWeek(b);
    WeekStarts(a);
    WeekStarts(b);
    WeekNumbers(a);
    WeekNumbers(b);
    if WeekKey(Key(a)) == WeekKey(Key(b)) {
      LabelInjective(WeekOf(a).year, WeekOf(a).week, WeekOf(b).year, WeekOf(b).week);
    }
  }

  /** A key without a year has no week. */
  lemma NoWeek(key: string)
    requires !AllDigits(Split(key, '-')[0])
    ensures WeekKey(key) == "NaN-WNaN"
  {
    hide Split, UtcDay, WeekLabel;
    LooseKeys(0, 0, key);
  }
}
