/**
 * The history list's date helpers: formatRelativeDate words how long ago a
 * session was updated, and getPeriodStartDate gives the earliest creation
 * time the period filter admits. Instants are whole milliseconds since the
 * epoch; "now", local midnight and the locale date text are parameters.
 */
module RelativeDate {
  import opened Nullable
  import Text

  const MinuteMs: int := 60 * 1000
  const HourMs: int := 60 * 60 * 1000
  const DayMs: int := 24 * 60 * 60 * 1000

  /** How long ago something happened, as formatRelativeDate sorts it. */
  datatype Ago = JustNow | MinutesAgo(minutes: nat) | HoursAgo(hours: nat) | DaysAgo(days: nat) | OnDate

  /**
   * The bucket of an elapsed time. `Math.floor(diff / unit)` with a positive
   * unit is Dafny's Euclidean division, so the elapsed time in each unit is
   * `diff / unit` even for a negative difference.
   */
  function Classify(diffMs: int): (a: Ago)
    ensures a == JustNow <==> diffMs < MinuteMs
    ensures a.MinutesAgo? <==> MinuteMs <= diffMs < HourMs
    ensures a.HoursAgo? <==> HourMs <= diffMs < DayMs
    ensures a.DaysAgo? <==> DayMs <= diffMs < 7 * DayMs
    ensures a == OnDate <==> 7 * DayMs <= diffMs
    ensures a.MinutesAgo? ==> 1 <= a.minutes < 60 && a.minutes * MinuteMs <= diffMs < (a.minutes + 1) * MinuteMs
    ensures a.HoursAgo? ==> 1 <= a.hours < 24 && a.hours * HourMs <= diffMs < (a.hours + 1) * HourMs
    ensures a.DaysAgo? ==> 1 <= a.days < 7 && a.days * DayMs <= diffMs < (a.days + 1) * DayMs
  {
    var minutes := diffMs / MinuteMs;
    var hours := diffMs / HourMs;
    var days := diffMs / DayMs;
    FloorBelow(diffMs, MinuteMs, 1);
    FloorBelow(diffMs, MinuteMs, 60);
    FloorBelow(diffMs, HourMs, 1);
    FloorBelow(diffMs, HourMs, 24);
    FloorBelow(diffMs, DayMs, 1);
    FloorBelow(diffMs, DayMs, 7);
    FloorBounds(diffMs, MinuteMs);
    FloorBounds(diffMs, HourMs);
    FloorBounds(diffMs, DayMs);
    if minutes < 1 then JustNow
    else if minutes < 60 then MinutesAgo(minutes)
    else if hours < 24 then HoursAgo(hours)
    else if days < 7 then DaysAgo(days)
    else OnDate
  }

  /** The floor of d / u is below n exactly when d is below n units. */
  lemma FloorBelow(d: int, u: int, n: int)
    requires u > 0
    ensures d / u < n <==> d < n * u
  {
    var q := d / u;
    assert d == q * u + d % u && 0 <= d % u < u;
    if q < n {
      MulMonotone(q, n - 1, u);
      assert (n - 1) * u + u == n * u;
    } else {
      MulMonotone(n, q, u);
    }
  }

  lemma MulMonotone(a: int, b: int, u: int)
    requires a <= b && u > 0
    ensures a * u <= b * u
  {
    assert b * u - a * u == (b - a) * u;
  }

  /** d lies in the unit interval its floor names. */
  lemma FloorBounds(d: int, u: int)
    requires u > 0
    ensures (d / u) * u <= d < (d / u + 1) * u
  {
    assert d == (d / u) * u + d % u && 0 <= d % u < u;
  }

  /** The text of a bucket; the locale date is used for older instants. */
  function Render(a: Ago, localeDate: string): string {
    match a
    case JustNow => "たった今"
    case MinutesAgo(m) => Text.NatToString(m) + "分前"
    case HoursAgo(h) => Text.NatToString(h) + "時間前"
    case DaysAgo(d) => Text.NatToString(d) + "日前"
    case OnDate => localeDate
  }

  /** formatRelativeDate, with the locale rendering of a date passed in. */
  function FormatRelativeDate(dateMs: int, nowMs: int, localeDate: int -> string): string {
    Render(Classify(nowMs - dateMs), localeDate(dateMs))
  }

  /** The relative wordings never collide: the text names its bucket and its count. */
  lemma RenderInjective(a: Ago, b: Ago, localeDate: string)
    requires a != OnDate && b != OnDate
    requires Render(a, localeDate) == Render(b, localeDate)
    ensures a == b
  {
    RenderEnding(a, localeDate);
    RenderEnding(b, localeDate);
    match a {
      case JustNow =>
      case MinutesAgo(m) => SameUnitSameCount(m, b.minutes, "分前");
      case HoursAgo(m) => SameUnitSameCount(m, b.hours, "時間前");
      case DaysAgo(m) => SameUnitSameCount(m, b.days, "日前");
    }
  }

  /** The last two characters of each relative wording; they tell the buckets apart. */
  function Ending(a: Ago): (char, char)
    requires a != OnDate
  {
    match a
    case JustNow => ('た', '今')
    case MinutesAgo(_) => ('分', '前')
    case HoursAgo(_) => ('間', '前')
    case DaysAgo(_) => ('日', '前')
  }

  lemma RenderEnding(a: Ago, localeDate: string)
    requires a != OnDate
    ensures var s := Render(a, localeDate);
      |s| >= 2 && (s[|s| - 2], s[|s| - 1]) == Ending(a)
  {
    var s := Render(a, localeDate);
    match a {
      case JustNow =>
      case MinutesAgo(m) => UnitSplit(Text.NatToString(m), "分前", s);
      case HoursAgo(m) => UnitSplit(Text.NatToString(m), "時間前", s);
      case DaysAgo(m) => UnitSplit(Text.NatToString(m), "日前", s);
    }
  }

  /** Two counts with the same unit read the same only when the counts are equal. */
  lemma SameUnitSameCount(m: nat, n: nat, unit: string)
    requires |unit| >= 2 && !Text.IsDigit(unit[0])
    requires Text.NatToString(m) + unit == Text.NatToString(n) + unit
    ensures m == n
  {
    var s := Text.NatToString(m) + unit;
    UnitSplit(Text.NatToString(m), unit, s);
    UnitSplit(Text.NatToString(n), unit, s);
    Text.NatToStringInjective(m, n);
  }

  /** A count followed by its unit: the unit is the text after the last digit. */
  lemma UnitSplit(digits: string, unit: string, s: string)
    requires s == digits + unit
    requires forall i :: 0 <= i < |digits| ==> Text.IsDigit(digits[i])
    requires |unit| >= 2 && !Text.IsDigit(unit[0])
    ensures s[|s| - 2] == unit[|unit| - 2]
    ensures s[|s| - 1] == unit[|unit| - 1]
    ensures s[..|digits|] == digits
    ensures |digits| < |s| && !Text.IsDigit(s[|digits|])
  {
    assert s[..|digits|] == digits;
  }

  /** The examples the utility's tests use. */
  lemma TestExamples(now: int, localeDate: int -> string)
    ensures FormatRelativeDate(now, now, localeDate) == "たった今"
    ensures FormatRelativeDate(now - 30 * MinuteMs, now, localeDate) == "30分前"
    ensures FormatRelativeDate(now - 5 * HourMs, now, localeDate) == "5時間前"
    ensures FormatRelativeDate(now - 3 * DayMs, now, localeDate) == "3日前"
    ensures FormatRelativeDate(now - 14 * DayMs, now, localeDate) == localeDate(now - 14 * DayMs)
  {
    assert Classify(30 * MinuteMs) == MinutesAgo(30);
    assert Text.NatToString(30) == "30";
    assert Classify(5 * HourMs) == HoursAgo(5);
    assert Text.NatToString(5) == "5";
    assert Classify(3 * DayMs) == DaysAgo(3);
    assert Text.NatToString(3) == "3";
  }

  /** A time in the future is always "just now", however far ahead. */
  lemma FutureIsJustNow(dateMs: int, nowMs: int, localeDate: int -> string)
    requires nowMs <= dateMs
    ensures FormatRelativeDate(dateMs, nowMs, localeDate) == "たった今"
  {
  }

  // ---------------------------------------------------------------- periods

  datatype Period = Today | Week | Month | All

  /** getPeriodStartDate: None for "all"; local midnight for "today"; 7 or 30 days back otherwise. */
  function PeriodStart(period: Period, nowMs: int, midnightMs: int): (r: Option<int>)
    ensures r.None? <==> period == All
    ensures period == Today ==> r == Some(midnightMs)
    ensures period == Week ==> r.Some? && nowMs - r.value == 7 * DayMs
    ensures period == Month ==> r.Some? && nowMs - r.value == 30 * DayMs
  {
    match period
    case All => None
    case Today => Some(midnightMs)
    case Week => Some(nowMs - 7 * 24 * 60 * 60 * 1000)
    case Month => Some(nowMs - 30 * 24 * 60 * 60 * 1000)
  }

  function PeriodName(period: Period): string {
    match period
    case Today => "today"
    case Week => "week"
    case Month => "month"
    case All => "all"
  }

  /**
   * The period filter getHistoryList applies inline: no filter for an empty
   * or "all" period; an unrecognised name filters from the epoch.
   */
  function HistoryPeriodStart(period: string, nowMs: int, midnightMs: int): (r: Option<int>)
    ensures r.None? <==> period == "" || period == "all"
  {
    if period == "" || period == "all" then None
    else if period == "today" then Some(midnightMs)
    else if period == "week" then Some(nowMs - 7 * DayMs)
    else if period == "month" then Some(nowMs - 30 * DayMs)
    else Some(0)
  }

  /** The list's inline filter and the utility agree on every named period. */
  lemma {:induction false} PeriodFiltersAgree(period: Period, nowMs: int, midnightMs: int)
    ensures HistoryPeriodStart(PeriodName(period), nowMs, midnightMs) == PeriodStart(period, nowMs, midnightMs)
  {
    match period {
      case Today => assert "today" != "all" && "today" != "";
      case Week => assert "week" != "all" && "week" != "today";
      case Month => assert "month" != "all" && "month" != "today" && "month" != "week";
      case All =>
    }
  }

  /** A longer period admits everything a shorter one does. */
  lemma PeriodsNest(nowMs: int, midnightMs: int)
    ensures PeriodStart(Month, nowMs, midnightMs).value < PeriodStart(Week, nowMs, midnightMs).value
  {
  }
}
