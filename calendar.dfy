/** Python's naive `datetime.datetime` in the proleptic Gregorian calendar:
    the fields, the range MINYEAR..MAXYEAR, comparison, and addition of a
    `timedelta` of whole hours or days (which raises OverflowError past
    9999-12-31, modelled as `None`). Microseconds are not modelled. */
module Calendar {
  import opened Wrappers

  const MinYear: int := 1
  const MaxYear: int := 9999
  /** Ordinal of 9999-12-31 (0001-01-01 has ordinal 1). */
  const MaxOrdinal: int := 3652059
  /** Seconds of 9999-12-31T23:59:59 counted from 0001-01-01T00:00:00. */
  const MaxSeconds: int := MaxOrdinal * 86400 - 1

  datatype DateTime = DateTime(year: int, month: int, day: int, hour: int, minute: int, second: int)

  predicate IsLeap(y: int) {
    y % 4 == 0 && (y % 100 != 0 || y % 400 == 0)
  }

  function DaysInMonth(y: int, m: int): int {
    if m == 2 then (if IsLeap(y) then 29 else 28)
    else if m == 4 || m == 6 || m == 9 || m == 11 then 30
    else 31
  }

  /** A day of a month, in any year. */
  predicate CalendarDate(y: int, m: int, d: int) {
    1 <= m <= 12 && 1 <= d <= DaysInMonth(y, m)
  }

  predicate ValidDate(y: int, m: int, d: int) {
    MinYear <= y <= MaxYear && CalendarDate(y, m, d)
  }

  /** What the datetime constructor accepts. */
  predicate Valid(t: DateTime) {
    && ValidDate(t.year, t.month, t.day)
    && 0 <= t.hour < 24 && 0 <= t.minute < 60 && 0 <= t.second < 60
  }

  /** Days in the years before `y` (Python's `_days_before_year`). */
  function DaysBeforeYear(y: int): int {
    var p := y - 1;
    365 * p + p / 4 - p / 100 + p / 400
  }

  /** Days in the months of year `y` before month `m`. */
  function DaysBeforeMonth(y: int, m: int): int
    requires 1 <= m <= 13
  {
    var common := [0, 31, 59, 90, 120, 151, 181, 212, 243, 273, 304, 334, 365][m - 1];
    if m > 2 && IsLeap(y) then common + 1 else common
  }

  /** Day number of a date, 0001-01-01 being day 1 (Python's `toordinal`). */
  function Ordinal(y: int, m: int, d: int): int
    requires 1 <= m <= 12
  {
    DaysBeforeYear(y) + DaysBeforeMonth(y, m) + d
  }

  function TimeOfDay(t: DateTime): int {
    t.hour * 3600 + t.minute * 60 + t.second
  }

  /** The instant a valid datetime names, in seconds from 0001-01-01T00:00:00. */
  function Seconds(t: DateTime): int
    requires Valid(t)
  {
    (Ordinal(t.year, t.month, t.day) - 1) * 86400 + TimeOfDay(t)
  }

  /** Python compares naive datetimes field by field: `a < b`. */
  predicate Lt(a: DateTime, b: DateTime) {
    if a.year != b.year then a.year < b.year
    else if a.month != b.month then a.month < b.month
    else if a.day != b.day then a.day < b.day
    else if a.hour != b.hour then a.hour < b.hour
    else if a.minute != b.minute then a.minute < b.minute
    else a.second < b.second
  }

  /** `a <= b` */
  predicate Le(a: DateTime, b: DateTime) {
    !Lt(b, a)
  }

  /** `datetime(t.year, t.month, 1)`: midnight on the first of t's month. */
  function FirstOfMonth(t: DateTime): (r: DateTime)
    requires Valid(t)
    ensures Valid(r) && r.day == 1 && TimeOfDay(r) == 0
    ensures r.year == t.year && r.month == t.month
    ensures Ordinal(r.year, r.month, r.day) == Ordinal(t.year, t.month, t.day) - (t.day - 1)
  {
    DateTime(t.year, t.month, 1, 0, 0, 0)
  }

  /** The same wall-clock time on the following calendar day, or `None`
      (OverflowError) when `t` is on 9999-12-31. */
  function NextDay(t: DateTime): (r: Option<DateTime>)
    requires Valid(t)
    ensures r.None? <==> Ordinal(t.year, t.month, t.day) == MaxOrdinal
    ensures r.Some? ==> Valid(r.value) && Seconds(r.value) == Seconds(t) + 86400
  {
    OrdinalBounds(t.year, t.month, t.day);
    if t.day < DaysInMonth(t.year, t.month) then
      Some(t.(day := t.day + 1))
    else if t.month < 12 then
      DaysBeforeNextMonth(t.year, t.month);
      Some(t.(month := t.month + 1, day := 1))
    else if t.year < MaxYear then
      DaysBeforeNextYear(t.year);
      Some(t.(year := t.year + 1, month := 1, day := 1))
    else
      None
  }

  /** Months counted from January of year 0: December of year y and
      January of year y + 1 are neighbours. */
  function MonthIndex(t: DateTime): int {
    t.year * 12 + t.month - 1
  }

  /** The calendar month after month m of year y, as (year, month). */
  function NextYearMonth(y: int, m: int): (r: (int, int))
    requires 1 <= m <= 12
    ensures 1 <= r.1 <= 12 && r.0 * 12 + r.1 == y * 12 + m + 1
  {
    if m == 12 then (y + 1, 1) else (y, m + 1)
  }

  /** `t + timedelta(hours=1)`. */
  function AddHour(t: DateTime): (r: Option<DateTime>)
    requires Valid(t)
    ensures r.None? <==> Seconds(t) + 3600 > MaxSeconds
    ensures r.Some? ==> Valid(r.value) && Seconds(r.value) == Seconds(t) + 3600
  {
    OrdinalBounds(t.year, t.month, t.day);
    if t.hour < 23 then Some(t.(hour := t.hour + 1))
    else NextDay(t.(hour := 0))
  }

  /** `t + timedelta(hours=n)`. */
  function AddHours(t: DateTime, n: nat): (r: Option<DateTime>)
    requires Valid(t)
    ensures r.None? <==> Seconds(t) + 3600 * n > MaxSeconds
    ensures r.Some? ==> Valid(r.value) && Seconds(r.value) == Seconds(t) + 3600 * n
    decreases n
  {
    if n == 0 then SecondsBounds(t); Some(t)
    else match AddHour(t)
      case None => None
      case Some(u) => AddHours(u, n - 1)
  }

  /** `t + timedelta(days=n)`. */
  function AddDays(t: DateTime, n: nat): (r: Option<DateTime>)
    requires Valid(t)
    ensures r.None? <==> Ordinal(t.year, t.month, t.day) + n > MaxOrdinal
    ensures r.Some? ==> Valid(r.value) && TimeOfDay(r.value) == TimeOfDay(t)
    ensures r.Some? ==> Ordinal(r.value.year, r.value.month, r.value.day) == Ordinal(t.year, t.month, t.day) + n
    decreases MaxOrdinal - Ordinal(t.year, t.month, t.day)
  {
    OrdinalBounds(t.year, t.month, t.day);
    if n == 0 then Some(t)
    else match NextDay(t)
      case None => None
      case Some(u) => AddDays(u, n - 1)
  }

  /** Adding n > 0 days is adding one day, then n - 1 more. */
  lemma AddDaysShift(t: DateTime, n: nat, u: DateTime)
    requires Valid(t) && AddDays(t, 1) == Some(u) && 0 < n
    ensures AddDays(t, n) == AddDays(u, n - 1)
  {
    assert NextDay(t) == Some(u);
  }

  // ---------------------------------------------------------------------
  // Calendar arithmetic

  /** The first of the next month is as many days on as this month has. */
  lemma FirstOfNextMonth(y: int, m: int)
    requires 1 <= m <= 12
    ensures var (y', m') := NextYearMonth(y, m);
            Ordinal(y', m', 1) == Ordinal(y, m, 1) + DaysInMonth(y, m)
  {
    if m == 12 {
      DaysBeforeNextYear(y);
    } else {
      DaysBeforeNextMonth(y, m);
    }
  }

  /** The days before month m + 1 are those before month m and those of m. */
  lemma DaysBeforeNextMonth(y: int, m: int)
    requires 1 <= m <= 12
    ensures DaysBeforeMonth(y, m + 1) == DaysBeforeMonth(y, m) + DaysInMonth(y, m)
  {
  }

  /** A date whose ordinal lies inside the run of days of month m of year y
      is in that month. */
  lemma DateInMonth(t: DateTime, y: int, m: int)
    requires CalendarDate(t.year, t.month, t.day) && 1 <= m <= 12
    requires Ordinal(y, m, 1) <= Ordinal(t.year, t.month, t.day) < Ordinal(y, m, 1) + DaysInMonth(y, m)
    ensures t.year == y && t.month == m
  {
    var (y', m') := NextYearMonth(y, m);
    FirstOfNextMonth(y, m);
    if t.year < y || (t.year == y && t.month < m) {
      OrdinalStrictlyMonotone(t.year, t.month, t.day, y, m, 1);
    } else if t.year < y' || (t.year == y' && t.month < m') {
      assert t.year == y && t.month == m;
    } else if t.year != y' || t.month != m' || t.day != 1 {
      OrdinalStrictlyMonotone(y', m', 1, t.year, t.month, t.day);
    }
  }

  lemma DaysBeforeNextYear(y: int)
    ensures DaysBeforeYear(y + 1) == DaysBeforeYear(y) + DaysBeforeMonth(y, 13)
  {
    var p := y - 1;
    assert (p + 1) / 4 == p / 4 + (if (p + 1) % 4 == 0 then 1 else 0);
    assert (p + 1) / 100 == p / 100 + (if (p + 1) % 100 == 0 then 1 else 0);
    assert (p + 1) / 400 == p / 400 + (if (p + 1) % 400 == 0 then 1 else 0);
  }

  lemma {:induction false} DaysBeforeYearMonotone(a: int, b: int)
    requires a <= b
    ensures DaysBeforeYear(a) + 365 * (b - a) <= DaysBeforeYear(b)
    decreases b - a
  {
    if a < b {
      DaysBeforeYearMonotone(a, b - 1);
      DaysBeforeNextYear(b - 1);
    }
  }

  /** Dates ordered field by field have strictly increasing ordinals. */
  lemma OrdinalStrictlyMonotone(y: int, m: int, d: int, y': int, m': int, d': int)
    requires CalendarDate(y, m, d) && CalendarDate(y', m', d')
    requires y < y' || (y == y' && (m < m' || (m == m' && d < d')))
    ensures Ordinal(y, m, d) < Ordinal(y', m', d')
  {
    if y < y' {
      DaysBeforeNextYear(y);
      DaysBeforeYearMonotone(y + 1, y');
    }
  }

  lemma OrdinalBounds(y: int, m: int, d: int)
    requires ValidDate(y, m, d)
    ensures 1 <= Ordinal(y, m, d) <= MaxOrdinal
    ensures Ordinal(y, m, d) == MaxOrdinal <==> (y == MaxYear && m == 12 && d == 31)
  {
    OrdinalOfMax();
    if y < MaxYear || m < 12 || d < 31 {
      OrdinalStrictlyMonotone(y, m, d, MaxYear, 12, 31);
    }
  }

  /** 9999-12-31 is day MaxOrdinal. */
  lemma OrdinalOfMax()
    ensures Ordinal(MaxYear, 12, 31) == MaxOrdinal
  {
  }

  lemma SecondsBounds(t: DateTime)
    requires Valid(t)
    ensures 0 <= Seconds(t) <= MaxSeconds
  {
    OrdinalBounds(t.year, t.month, t.day);
  }

  /** Python's field-by-field `<` is the order of the instants. */
  lemma LtIffSeconds(a: DateTime, b: DateTime)
    requires Valid(a) && Valid(b)
    ensures Lt(a, b) <==> Seconds(a) < Seconds(b)
    ensures a == b <==> Seconds(a) == Seconds(b)
  {
    var oa := Ordinal(a.year, a.month, a.day);
    var ob := Ordinal(b.year, b.month, b.day);
    if (a.year, a.month, a.day) == (b.year, b.month, b.day) {
    } else if Lt(a, b) {
      OrdinalStrictlyMonotone(a.year, a.month, a.day, b.year, b.month, b.day);
      assert oa + 1 <= ob;
    } else {
      OrdinalStrictlyMonotone(b.year, b.month, b.day, a.year, a.month, a.day);
      assert ob + 1 <= oa;
    }
  }

  lemma LeIffSeconds(a: DateTime, b: DateTime)
    requires Valid(a) && Valid(b)
    ensures Le(a, b) <==> Seconds(a) <= Seconds(b)
  {
    LtIffSeconds(b, a);
  }
}
