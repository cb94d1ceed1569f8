/**
 * The due-date predicate of the scheduler: a schedule has four optional
 * axes (weekday names, days of the month, month names, weeks of the month)
 * and a task is due on a date when every axis that is present and non-empty
 * contains that date's value.
 */
module Schedule {
  import opened Wrappers

  /** Index of the weekday as JavaScript's `Date.getDay()` gives it: 0 is Sunday. */
  type Weekday = w: int | 0 <= w < 7
  /** Day of the month as `Date.getDate()` gives it. */
  type DayOfMonth = d: int | 1 <= d <= 31 witness 1
  /** Index of the month as `Date.getMonth()` gives it: 0 is January. */
  type Month = m: int | 0 <= m < 12

  /** The parts of the reference date that the predicate reads. */
  datatype CalendarDate = CalendarDate(weekday: Weekday, dayOfMonth: DayOfMonth, month: Month)

  /** `ScheduleOptions`: every axis may be absent; an absent or empty axis does not constrain. */
  datatype ScheduleOptions = ScheduleOptions(
    days: Option<seq<string>>,
    dates: Option<seq<int>>,
    months: Option<seq<string>>,
    weekNumbers: Option<seq<int>>)

  const DayNames: seq<string> :=
    ["sunday", "monday", "tuesday", "wednesday", "thursday", "friday", "saturday"]

  const MonthNames: seq<string> :=
    ["january", "february", "march", "april", "may", "june", "july",
     "august", "september", "october", "november", "december"]

  /** `String.prototype.toLowerCase` on one character, restricted to ASCII letters. */
  function LowerChar(c: char): (r: char)
    ensures !('A' <= r <= 'Z')
    ensures ('a' <= r <= 'z') <==> ('A' <= c <= 'Z' || 'a' <= c <= 'z')
    ensures !('A' <= c <= 'Z') ==> r == c
    ensures 'A' <= c <= 'Z' ==> r as int - 'a' as int == c as int - 'A' as int
  {
    if 'A' <= c <= 'Z' then (c as int + 32) as char else c
  }

  /** `String.prototype.toLowerCase`, character by character. */
  function Lower(s: string): (r: string)
    ensures |r| == |s|
    ensures forall i :: 0 <= i < |s| ==> r[i] == LowerChar(s[i])
    ensures forall i :: 0 <= i < |r| ==> !('A' <= r[i] <= 'Z')
  {
    seq(|s|, i requires 0 <= i < |s| => LowerChar(s[i]))
  }

  /** A string that no upper-case ASCII letter occurs in. */
  predicate IsLowerCase(s: string)
  {
    forall i :: 0 <= i < |s| ==> !('A' <= s[i] <= 'Z')
  }

  /** Lower-casing leaves lower-case strings alone, so it is idempotent. */
  lemma LowerOfLowerCase(s: string)
    requires IsLowerCase(s)
    ensures Lower(s) == s
  {
  }

  lemma LowerIdempotent(s: string)
    ensures Lower(Lower(s)) == Lower(s)
  {
  }

  /**
   * The week of the month, `Math.ceil(dayOfMonth / 7)`; for a positive day
   * the integer quotient `(d + 6) / 7` is that ceiling, i.e. the one `w`
   * with `7 * (w - 1) < d <= 7 * w`.
   */
  function WeekNumber(dayOfMonth: DayOfMonth): (w: int)
    ensures 1 <= w <= 5
    ensures 7 * (w - 1) < dayOfMonth <= 7 * w
  {
    (dayOfMonth + 6) / 7
  }

  /** The weekday name the predicate compares against: a non-empty lower-cased override wins. */
  function EffectiveDay(date: CalendarDate, dayOverride: Option<string>): (d: string)
    ensures dayOverride.Some? && dayOverride.value != "" ==> d == Lower(dayOverride.value)
    ensures (dayOverride.None? || dayOverride.value == "") ==> d == DayNames[date.weekday]
  {
    if dayOverride.Some? && Lower(dayOverride.value) != "" then Lower(dayOverride.value)
    else DayNames[date.weekday]
  }

  /** A name axis matches when it is absent, empty, or holds `current` up to case. */
  predicate NameAxisMatches(axis: Option<seq<string>>, current: string)
  {
    axis.None? || |axis.value| == 0 || exists n :: n in axis.value && Lower(n) == current
  }

  /** A number axis matches when it is absent, empty, or contains `current`. */
  predicate NumberAxisMatches(axis: Option<seq<int>>, current: int)
  {
    axis.None? || |axis.value| == 0 || current in axis.value
  }

  /** A schedule object with no keys at all. */
  predicate HasNoKeys(s: ScheduleOptions)
  {
    s.days.None? && s.dates.None? && s.months.None? && s.weekNumbers.None?
  }

  /** `shouldTaskRun`: the early return for a schedule without keys, then the four axis matches. */
  predicate ShouldRun(s: ScheduleOptions, date: CalendarDate, dayOverride: Option<string>)
  {
    if HasNoKeys(s) then true
    else
      var currentDayName := EffectiveDay(date, dayOverride);
      var currentDateOfMonth := date.dayOfMonth;
      var currentMonth := MonthNames[date.month];
      var weekNumber := WeekNumber(currentDateOfMonth);
      && NameAxisMatches(s.days, currentDayName)
      && NumberAxisMatches(s.dates, currentDateOfMonth)
      && NameAxisMatches(s.months, currentMonth)
      && NumberAxisMatches(s.weekNumbers, weekNumber)
  }

  // ---------------------------------------------------------------------
  // Single-axis schedules, used to state that the axes are independent.

  function OnlyDays(s: ScheduleOptions): ScheduleOptions { ScheduleOptions(s.days, None, None, None) }
  function OnlyDates(s: ScheduleOptions): ScheduleOptions { ScheduleOptions(None, s.dates, None, None) }
  function OnlyMonths(s: ScheduleOptions): ScheduleOptions { ScheduleOptions(None, None, s.months, None) }
  function OnlyWeekNumbers(s: ScheduleOptions): ScheduleOptions { ScheduleOptions(None, None, None, s.weekNumbers) }

  /** An axis that is absent or empty. */
  predicate Unconstrained<T>(axis: Option<seq<T>>)
  {
    axis.None? || |axis.value| == 0
  }

  /**
   * `shouldTaskRun` is exactly the conjunction of the four axis matches,
   * taken on the effective weekday, the day of the month, the month's name
   * and the week number; the early return for a schedule without keys
   * gives the same answer as the matches would.
   */
  lemma ShouldRunIffAllAxesMatch(s: ScheduleOptions, date: CalendarDate, dayOverride: Option<string>)
    ensures ShouldRun(s, date, dayOverride) <==>
      && NameAxisMatches(s.days, EffectiveDay(date, dayOverride))
      && NumberAxisMatches(s.dates, date.dayOfMonth)
      && NameAxisMatches(s.months, MonthNames[date.month])
      && NumberAxisMatches(s.weekNumbers, WeekNumber(date.dayOfMonth))
  {
  }

  /**
   * For a name axis whose entries are all lower-case, as in every schedule
   * the repository registers, matching is plain membership of the current
   * name.
   */
  lemma LowerCaseNameAxisIsMembership(a: seq<string>, current: string)
    requires |a| > 0
    requires forall i :: 0 <= i < |a| ==> IsLowerCase(a[i])
    ensures NameAxisMatches(Some(a), current) <==> current in a
  {
    forall i | 0 <= i < |a|
      ensures Lower(a[i]) == a[i]
    {
      LowerOfLowerCase(a[i]);
    }
  }

  /**
   * A days or months axis that is present and non-empty but has no entry
   * lower-casing to the current weekday or month makes the task not due,
   * whatever the other axes say.
   */
  lemma UnmatchedNameAxisNotDue(s: ScheduleOptions, date: CalendarDate, dayOverride: Option<string>)
    requires
      || (!Unconstrained(s.days) &&
          forall i :: 0 <= i < |s.days.value| ==> Lower(s.days.value[i]) != EffectiveDay(date, dayOverride))
      || (!Unconstrained(s.months) &&
          forall i :: 0 <= i < |s.months.value| ==> Lower(s.months.value[i]) != MonthNames[date.month])
    ensures !ShouldRun(s, date, dayOverride)
  {
  }

  /** A schedule whose every axis is absent or empty is due on every date, whatever the override. */
  lemma UnconstrainedAlwaysDue(s: ScheduleOptions, date: CalendarDate, dayOverride: Option<string>)
    requires Unconstrained(s.days) && Unconstrained(s.dates)
    requires Unconstrained(s.months) && Unconstrained(s.weekNumbers)
    ensures ShouldRun(s, date, dayOverride)
  {
  }

  /**
   * The schedule is the conjunction of its axes: it is due exactly when each
   * of the four one-axis schedules cut out of it is due. In particular the
   * early return for a key-less schedule agrees with the axis matches.
   */
  lemma AxesAreConjunctive(s: ScheduleOptions, date: CalendarDate, dayOverride: Option<string>)
    ensures ShouldRun(s, date, dayOverride) <==>
      && ShouldRun(OnlyDays(s), date, dayOverride)
      && ShouldRun(OnlyDates(s), date, dayOverride)
      && ShouldRun(OnlyMonths(s), date, dayOverride)
      && ShouldRun(OnlyWeekNumbers(s), date, dayOverride)
  {
  }

  /** Week numbers: days 1-7 are week 1, 8-14 week 2, 15-21 week 3, 22-28 week 4, 29-31 week 5. */
  lemma WeekNumberRanges(d: DayOfMonth)
    ensures WeekNumber(d) == 1 <==> 1 <= d <= 7
    ensures WeekNumber(d) == 2 <==> 8 <= d <= 14
    ensures WeekNumber(d) == 3 <==> 15 <= d <= 21
    ensures WeekNumber(d) == 4 <==> 22 <= d <= 28
    ensures WeekNumber(d) == 5 <==> 29 <= d <= 31
  {
  }

  /** `weekNumbers: [1, 3]` is due exactly on days 1-7 and 15-21 of any month. */
  lemma FirstAndThirdWeek(date: CalendarDate, dayOverride: Option<string>)
    ensures ShouldRun(ScheduleOptions(None, None, None, Some([1, 3])), date, dayOverride) <==>
      (1 <= date.dayOfMonth <= 7 || 15 <= date.dayOfMonth <= 21)
  {
  }

  /** `dates: [1]` is due exactly on the first of the month, whatever the override. */
  lemma FirstOfMonth(date: CalendarDate, dayOverride: Option<string>)
    ensures ShouldRun(ScheduleOptions(None, Some([1]), None, None), date, dayOverride) <==>
      date.dayOfMonth == 1
  {
  }

  /** The weekday names are pairwise distinct and lower-case. */
  lemma DayNamesDistinct(i: Weekday, j: Weekday)
    ensures IsLowerCase(DayNames[i])
    ensures DayNames[i] == DayNames[j] <==> i == j
  {
  }

  /** The month names are lower-case. */
  lemma MonthNameLowerCase(i: Month)
    ensures IsLowerCase(MonthNames[i])
  {
  }

  /** A months axis that names the current month, as the month table spells it, matches it. */
  lemma MonthAxisNamingTheMonth(date: CalendarDate, dayOverride: Option<string>)
    ensures ShouldRun(ScheduleOptions(None, None, Some([MonthNames[date.month]]), None), date, dayOverride)
  {
    MonthNameLowerCase(date.month);
    LowerOfLowerCase(MonthNames[date.month]);
  }

  /** The month names are pairwise distinct. */
  lemma MonthNamesDistinct(i: Month, j: Month)
    ensures MonthNames[i] == MonthNames[j] <==> i == j
  {
  }

  /**
   * `days: ["Monday"]`: due exactly when the effective weekday is "monday",
   * whether that comes from the override or from the date, and independent
   * of the date, month and week.
   */
  lemma MondayOnly(date: CalendarDate, dayOverride: Option<string>)
    ensures ShouldRun(ScheduleOptions(Some(["Monday"]), None, None, None), date, dayOverride) <==>
      EffectiveDay(date, dayOverride) == "monday"
    ensures dayOverride.None? ==>
      (ShouldRun(ScheduleOptions(Some(["Monday"]), None, None, None), date, dayOverride) <==> date.weekday == 1)
  {
    assert Lower("Monday") == "monday";
    if dayOverride.None? {
      DayNamesDistinct(date.weekday, 1);
    }
  }

  /**
   * Quarterly schedule, `months: ["january", "april", "july", "october"]` with
   * `dates: [1]`: due exactly on the first day of the first month of a quarter.
   */
  lemma QuarterlyFirstDay(date: CalendarDate, dayOverride: Option<string>)
    ensures ShouldRun(ScheduleOptions(None, Some([1]), Some(["january", "april", "july", "october"]), None),
                      date, dayOverride) <==>
      date.dayOfMonth == 1 && date.month % 3 == 0
  {
    var quarter := ["january", "april", "july", "october"];
    var mon := MonthNames[date.month];
    forall n | n in quarter ensures Lower(n) == n {
      LowerOfLowerCase(n);
    }
    if date.month % 3 == 0 {
      assert mon in quarter;
    } else {
      MonthNamesDistinct(date.month, 0);
      MonthNamesDistinct(date.month, 3);
      MonthNamesDistinct(date.month, 6);
      MonthNamesDistinct(date.month, 9);
    }
  }

  /** Two overrides that are equal up to case select the same tasks. */
  lemma OverrideCaseInsensitive(s: ScheduleOptions, date: CalendarDate, o1: string, o2: string)
    requires Lower(o1) == Lower(o2)
    ensures ShouldRun(s, date, Some(o1)) == ShouldRun(s, date, Some(o2))
  {
  }

  /** Two name lists that agree entry by entry up to case. */
  predicate SameUpToCase(a: seq<string>, b: seq<string>)
  {
    |a| == |b| && forall i :: 0 <= i < |a| ==> Lower(a[i]) == Lower(b[i])
  }

  /** Two name axes that are both absent, or both present and equal up to case. */
  predicate SameAxisUpToCase(a: Option<seq<string>>, b: Option<seq<string>>)
  {
    (a.None? && b.None?) || (a.Some? && b.Some? && SameUpToCase(a.value, b.value))
  }

  lemma NameAxisUpToCase(a: seq<string>, b: seq<string>, current: string)
    requires SameUpToCase(a, b)
    ensures NameAxisMatches(Some(a), current) == NameAxisMatches(Some(b), current)
  {
  }

  /** Day and month names in a schedule match without regard to case. */
  lemma ScheduleNamesCaseInsensitive(s: ScheduleOptions, days: Option<seq<string>>, months: Option<seq<string>>,
                                     date: CalendarDate, dayOverride: Option<string>)
    requires SameAxisUpToCase(s.days, days) && SameAxisUpToCase(s.months, months)
    ensures ShouldRun(s, date, dayOverride) == ShouldRun(s.(days := days, months := months), date, dayOverride)
  {
  }

  /**
   * The override replaces only the weekday: two dates with the same day of
   * the month and the same month give the same answer under a non-empty
   * override, whatever their weekdays.
   */
  lemma OverrideOnlyReplacesWeekday(s: ScheduleOptions, d1: CalendarDate, d2: CalendarDate, o: string)
    requires o != ""
    requires d1.dayOfMonth == d2.dayOfMonth && d1.month == d2.month
    ensures ShouldRun(s, d1, Some(o)) == ShouldRun(s, d2, Some(o))
  {
  }

  /** When the days axis does not constrain, the override has no effect at all. */
  lemma OverrideIrrelevantWithoutDays(s: ScheduleOptions, date: CalendarDate, o1: Option<string>, o2: Option<string>)
    requires Unconstrained(s.days)
    ensures ShouldRun(s, date, o1) == ShouldRun(s, date, o2)
  {
  }

  /**
   * Overriding with a weekday's name (in any case) is the same as evaluating
   * on the date that has that weekday and the same day of month and month:
   * the override simulates "today is that weekday".
   */
  lemma OverrideSimulatesWeekday(s: ScheduleOptions, date: CalendarDate, o: string, w: Weekday)
    requires Lower(o) == DayNames[w]
    ensures ShouldRun(s, date, Some(o)) == ShouldRun(s, date.(weekday := w), None)
  {
  }
}
