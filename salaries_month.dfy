/** What the month branch of `aggregate_salaries` (main.py:82-102)
    computes: which starts its loop visits, how its 31-day step moves from
    month to month, and what each bucket sums and is labelled with. */
module MonthProperties {
  import opened Wrappers
  import opened Calendar
  import opened IsoFormat
  import opened Salaries
  import opened ScanProperties

  /** The start of the i-th month bucket, or `None` if a step before it
      overflows. */
  function MonthStart(c: DateTime, fromMonth: int, i: nat): (r: Option<DateTime>)
    requires Valid(c)
    ensures r.Some? ==> Valid(r.value)
    decreases i
  {
    if i == 0 then Some(c)
    else
      match MonthStep(c, fromMonth)
      case None => None
      case Some(next) => MonthStart(next, fromMonth, i - 1)
  }

  lemma MonthStartShift(c: DateTime, fromMonth: int, i: nat, next: DateTime)
    requires Valid(c) && MonthStep(c, fromMonth) == Some(next) && 0 < i
    ensures MonthStart(c, fromMonth, i) == MonthStart(next, fromMonth, i - 1)
  {
  }

  /** Bucket i of `s` starts at the i-th start, which is not after `upto`;
      it is labelled with the first of that start's month at midnight and
      sums the used records dated in that year and month. */
  predicate MonthBucketAt(s: Series, c: DateTime, fromMonth: int, upto: DateTime, recs: seq<Record>, i: nat)
    requires Valid(c)
  {
    && i < |s.labels| && i < |s.dataset|
    && MonthStart(c, fromMonth, i).Some?
    && Le(MonthStart(c, fromMonth, i).value, upto)
    && s.labels[i] == Iso(FirstOfMonth(MonthStart(c, fromMonth, i).value))
    && TypedTotal(recs, MonthStart(c, fromMonth, i).value, ByMonth) == Success(s.dataset[i])
  }

  /** Every start the loop visits up to `upto` is a bucket, and the loop
      stops at the first start after `upto`. */
  lemma {:induction false} MonthBucketsShape(c: DateTime, fromMonth: int, upto: DateTime, recs: seq<Record>)
    requires Valid(c) && Valid(upto)
    ensures var r := MonthBuckets(c, fromMonth, upto, recs);
            r.Success? ==>
              && (forall i: nat | i < |r.value.labels| :: MonthBucketAt(r.value, c, fromMonth, upto, recs, i))
              && MonthStart(c, fromMonth, |r.value.labels|).Some?
              && !Le(MonthStart(c, fromMonth, |r.value.labels|).value, upto)
    decreases MaxSeconds - Seconds(c)
  {
    SecondsBounds(c);
    var r := MonthBuckets(c, fromMonth, upto, recs);
    if Le(c, upto) && r.Success? {
      var next := MonthStep(c, fromMonth).value;
      SecondsBounds(next);
      MonthBucketsShape(next, fromMonth, upto, recs);
      var rest := MonthBuckets(next, fromMonth, upto, recs).value;
      var total := TypedTotal(recs, c, ByMonth).value;
      assert r.value == Series([total] + rest.dataset, [Iso(FirstOfMonth(c))] + rest.labels);
      MonthStartShift(c, fromMonth, |rest.labels| + 1, next);
      forall i: nat | i < |r.value.labels|
        ensures MonthBucketAt(r.value, c, fromMonth, upto, recs, i)
      {
        if i > 0 {
          MonthBucketAtCons(c, fromMonth, upto, next, recs, total, rest, i);
        }
      }
    }
  }

  lemma MonthBucketAtCons(c: DateTime, fromMonth: int, upto: DateTime, next: DateTime, recs: seq<Record>, total: int, rest: Series, i: nat)
    requires Valid(c) && MonthStep(c, fromMonth) == Some(next) && 0 < i
    requires MonthBucketAt(rest, next, fromMonth, upto, recs, i - 1)
    ensures MonthBucketAt(Series([total] + rest.dataset, [Iso(FirstOfMonth(c))] + rest.labels), c, fromMonth, upto, recs, i)
  {
    MonthStartShift(c, fromMonth, i, next);
    var s := Series([total] + rest.dataset, [Iso(FirstOfMonth(c))] + rest.labels);
    assert s.labels[i] == rest.labels[i - 1] && s.dataset[i] == rest.dataset[i - 1];
  }

  /** The month loop fails only if it makes a bucket: with ValueError when a
      used record's date does not parse, and otherwise with OverflowError
      when some start not after `upto` cannot be stepped. */
  lemma {:induction false} MonthBucketsOutcome(c: DateTime, fromMonth: int, upto: DateTime, recs: seq<Record>)
    requires Valid(c) && Valid(upto)
    ensures var r := MonthBuckets(c, fromMonth, upto, recs);
            && (Le(c, upto) && !TypedDatesParse(recs) ==> r.Failure? && r.error.InvalidIsoFormat?)
            && (r.Failure? ==> Le(c, upto))
            && (r.Failure? && TypedDatesParse(recs) ==>
                  && r.error == Overflow
                  && exists i: nat :: MonthStart(c, fromMonth, i).Some? && Le(MonthStart(c, fromMonth, i).value, upto)
                                      && MonthStart(c, fromMonth, i + 1).None?)
    decreases MaxSeconds - Seconds(c)
  {
    SecondsBounds(c);
    TypedTotalOutcome(recs, c, ByMonth);
    var r := MonthBuckets(c, fromMonth, upto, recs);
    if Le(c, upto) && TypedDatesParse(recs) && r.Failure? {
      match MonthStep(c, fromMonth)
      case None =>
        assert MonthStart(c, fromMonth, 0) == Some(c);
        assert MonthStart(c, fromMonth, 0 + 1).None?;
      case Some(next) =>
        SecondsBounds(next);
        MonthBucketsOutcome(next, fromMonth, upto, recs);
        var i: nat :| MonthStart(next, fromMonth, i).Some? && Le(MonthStart(next, fromMonth, i).value, upto)
                      && MonthStart(next, fromMonth, i + 1).None?;
        MonthStartShift(c, fromMonth, i + 1, next);
        MonthStartShift(c, fromMonth, i + 2, next);
        assert MonthStart(c, fromMonth, i + 1).Some? && MonthStart(c, fromMonth, i + 2).None?;
    }
  }

  /** A record without an integer salary and a text date changes no month
      bucket: absent fields, a text salary or a non-text date are ignored. */
  lemma {:induction false} MonthSkipsRecord(c: DateTime, fromMonth: int, upto: DateTime, recs: seq<Record>, k: nat, rec: Record)
    requires Valid(c) && Valid(upto) && k <= |recs|
    requires rec.salary.None? || rec.date.None? || !rec.salary.value.Int? || !rec.date.value.Str?
    ensures MonthBuckets(c, fromMonth, upto, recs[..k] + [rec] + recs[k..]) == MonthBuckets(c, fromMonth, upto, recs)
    decreases MaxSeconds - Seconds(c)
  {
    SecondsBounds(c);
    TypedTotalSkip(recs, k, rec, c, ByMonth);
    if Le(c, upto) && TypedTotal(recs, c, ByMonth).Success? && MonthStep(c, fromMonth).Some? {
      SecondsBounds(MonthStep(c, fromMonth).value);
      MonthSkipsRecord(MonthStep(c, fromMonth).value, fromMonth, upto, recs, k, rec);
    }
  }

  /** A record with an integer salary and an unparseable text date ends the
      month loop with ValueError whenever there is a bucket at all. */
  lemma MonthBadDateFails(c: DateTime, fromMonth: int, upto: DateTime, recs: seq<Record>, k: nat, rec: Record)
    requires Valid(c) && Valid(upto) && k <= |recs| && Le(c, upto)
    requires rec.salary.Some? && rec.salary.value.Int? && rec.date.Some? && rec.date.value.Str?
    requires ParseIso(rec.date.value.text).None?
    ensures MonthBuckets(c, fromMonth, upto, recs[..k] + [rec] + recs[k..]).Failure?
    ensures MonthBuckets(c, fromMonth, upto, recs[..k] + [rec] + recs[k..]).error.InvalidIsoFormat?
  {
    BadDateBreaksScan(recs, k, rec, c, ByMonth);
    MonthBucketsOutcome(c, fromMonth, upto, recs[..k] + [rec] + recs[k..]);
  }

  // ---------------------------------------------------------------------
  // The 31-day step

  /** One step of main.py:99-102 lands in the next calendar month (December
      wrapping to January) when day + 31 stays within this month and the
      next, and otherwise skips a month. The start is then the first of its
      month at midnight, unless its month is `fromMonth + 1`, where it keeps
      the day and time 31 days brought. */
  lemma MonthStepMonths(c: DateTime, fromMonth: int)
    requires Valid(c) && MonthStep(c, fromMonth).Some?
    ensures var s := MonthStep(c, fromMonth).value;
            var (y1, m1) := NextYearMonth(c.year, c.month);
            && MonthIndex(s) == MonthIndex(c) + (if c.day + 31 <= DaysInMonth(c.year, c.month) + DaysInMonth(y1, m1) then 1 else 2)
            && (s.month != fromMonth + 1 ==> s.day == 1 && TimeOfDay(s) == 0)
            && (s.month == fromMonth + 1 ==>
                  TimeOfDay(s) == TimeOfDay(c) && Ordinal(s.year, s.month, s.day) == Ordinal(c.year, c.month, c.day) + 31)
  {
    var x := AddDays(c, 31).value;
    LaterMonth(c, x);
  }

  /** Where a date 31 days after `t` falls, by month index. */
  lemma LaterMonth(t: DateTime, x: DateTime)
    requires Valid(t) && Valid(x)
    requires Ordinal(x.year, x.month, x.day) == Ordinal(t.year, t.month, t.day) + 31
    ensures var (y1, m1) := NextYearMonth(t.year, t.month);
            MonthIndex(x) == MonthIndex(t) + (if t.day + 31 <= DaysInMonth(t.year, t.month) + DaysInMonth(y1, m1) then 1 else 2)
  {
    var (y1, m1) := NextYearMonth(t.year, t.month);
    FirstOfNextMonth(t.year, t.month);
    if t.day + 31 <= DaysInMonth(t.year, t.month) + DaysInMonth(y1, m1) {
      DateInMonth(x, y1, m1);
    } else {
      var (y2, m2) := NextYearMonth(y1, m1);
      FirstOfNextMonth(y1, m1);
      DateInMonth(x, y2, m2);
    }
  }

  /** Each step moves on to a later calendar month. */
  lemma StepAdvances(c: DateTime, fromMonth: int)
    requires Valid(c) && MonthStep(c, fromMonth).Some?
    ensures MonthIndex(c) < MonthIndex(MonthStep(c, fromMonth).value)
  {
    MonthStepMonths(c, fromMonth);
  }

  /** A start the loop has settled on: midnight, within the first four days
      of its month, and on the first unless its month is `fromMonth + 1`. */
  predicate Settled(t: DateTime, fromMonth: int) {
    TimeOfDay(t) == 0 && t.day <= 4 && (t.day == 1 || t.month == fromMonth + 1)
  }

  /** From a settled start the step goes to exactly the next calendar month
      and is settled again. */
  lemma SettledStep(c: DateTime, fromMonth: int)
    requires Valid(c) && Settled(c, fromMonth) && MonthStep(c, fromMonth).Some?
    ensures MonthIndex(MonthStep(c, fromMonth).value) == MonthIndex(c) + 1
    ensures Settled(MonthStep(c, fromMonth).value, fromMonth)
  {
    var s := MonthStep(c, fromMonth).value;
    MonthStepMonths(c, fromMonth);
    assert MonthIndex(s) == MonthIndex(c) + 1;
    if s.month == fromMonth + 1 {
      assert c.day == 1;
      EarlyInNextMonth(c, s);
    }
  }

  /** Thirty-one days after the first of a month is within the first four
      days of the next. */
  lemma EarlyInNextMonth(c: DateTime, s: DateTime)
    requires Valid(c) && Valid(s) && c.day == 1 && MonthIndex(s) == MonthIndex(c) + 1
    requires Ordinal(s.year, s.month, s.day) == Ordinal(c.year, c.month, c.day) + 31
    ensures s.day <= 4
  {
    if c.month == 12 {
      assert s.year == c.year + 1 && s.month == 1;
      DaysBeforeNextYear(c.year);
    } else {
      assert s.year == c.year && s.month == c.month + 1;
    }
  }

  /** Whatever `dt_from` is, the loop has settled by its third start: the
      first step either snaps to the first of a month or lands in month
      `fromMonth + 1`, and the step after that leaves that month and
      snaps. */
  lemma SettledAfterTwoSteps(from: DateTime, s1: DateTime, s2: DateTime)
    requires Valid(from) && MonthStep(from, from.month) == Some(s1)
    requires Valid(s1) && MonthStep(s1, from.month) == Some(s2)
    ensures Settled(s2, from.month)
  {
    var fm := from.month;
    if s1.month != fm + 1 {
      MonthStepMonths(from, fm);
      SettledStep(s1, fm);
    } else {
      StepLeavesMonth(s1, fm);
      MonthStepMonths(s1, fm);
    }
  }

  lemma StepLeavesMonth(c: DateTime, fromMonth: int)
    requires Valid(c) && MonthStep(c, fromMonth).Some?
    ensures MonthStep(c, fromMonth).value.month != c.month
  {
    var s := MonthStep(c, fromMonth).value;
    MonthStepMonths(c, fromMonth);
    var d := MonthIndex(s) - MonthIndex(c);
    assert 1 <= d <= 2;
    assert s.year * 12 + s.month == c.year * 12 + c.month + d;
  }

  /** Month indices follow the order of datetimes. */
  lemma MonthIndexOrder(a: DateTime, b: DateTime)
    requires Valid(a) && Valid(b) && Le(a, b)
    ensures MonthIndex(a) <= MonthIndex(b)
  {
  }

  /** One round of the month loop: a start not after `upto` whose month
      sums and whose step succeed is one bucket in front of the rest. */
  lemma MonthBucketsUnfold(c: DateTime, fromMonth: int, upto: DateTime, recs: seq<Record>)
    requires Valid(c) && Valid(upto) && Le(c, upto)
    requires MonthBuckets(c, fromMonth, upto, recs).Success?
    ensures TypedTotal(recs, c, ByMonth).Success? && MonthStep(c, fromMonth).Some?
    ensures MonthBuckets(MonthStep(c, fromMonth).value, fromMonth, upto, recs).Success?
    ensures MonthBuckets(c, fromMonth, upto, recs).value.labels
         == [Iso(FirstOfMonth(c))] + MonthBuckets(MonthStep(c, fromMonth).value, fromMonth, upto, recs).value.labels
  {
  }

  /** After its first bucket, a loop that made one goes on as the loop
      from the next start. */
  lemma MonthBucketsTail(c: DateTime, fromMonth: int, upto: DateTime, recs: seq<Record>)
    requires Valid(c) && Valid(upto)
    requires MonthBuckets(c, fromMonth, upto, recs).Success?
    requires 0 < |MonthBuckets(c, fromMonth, upto, recs).value.labels|
    ensures MonthStep(c, fromMonth).Some?
    ensures MonthBuckets(MonthStep(c, fromMonth).value, fromMonth, upto, recs).Success?
    ensures MonthBuckets(c, fromMonth, upto, recs).value.labels[1..]
         == MonthBuckets(MonthStep(c, fromMonth).value, fromMonth, upto, recs).value.labels
  {
    MonthBucketsUnfold(c, fromMonth, upto, recs);
  }

  /** From a settled start the loop makes one bucket per calendar month up
      to `upto`'s month, the last of them possibly missing: the number of
      buckets is M or M - 1 for the M months from the start's to `upto`'s,
      and none when the start is after `upto`. */
  lemma {:induction false} MonthCountSettled(c: DateTime, fromMonth: int, upto: DateTime, recs: seq<Record>)
    requires Valid(c) && Valid(upto) && Settled(c, fromMonth)
    ensures var r := MonthBuckets(c, fromMonth, upto, recs);
            r.Success? ==>
              && MonthIndex(upto) - MonthIndex(c) <= |r.value.labels|
              && (Le(c, upto) ==> |r.value.labels| <= MonthIndex(upto) - MonthIndex(c) + 1)
              && (!Le(c, upto) ==> |r.value.labels| == 0)
    decreases MaxSeconds - Seconds(c)
  {
    SecondsBounds(c);
    var r := MonthBuckets(c, fromMonth, upto, recs);
    if !Le(c, upto) {
      MonthIndexOrder(upto, c);
    } else if r.Success? {
      MonthIndexOrder(c, upto);
      MonthBucketsUnfold(c, fromMonth, upto, recs);
      var next := MonthStep(c, fromMonth).value;
      SecondsBounds(next);
      SettledStep(c, fromMonth);
      MonthCountSettled(next, fromMonth, upto, recs);
    }
  }

  /** The month loop from any `dt_from`: its first two buckets are those of
      `dt_from` and of one step later, and from the third bucket on it is
      the loop from a settled start. */
  lemma MonthBucketsFrom(from: DateTime, upto: DateTime, recs: seq<Record>)
    requires Valid(from) && Valid(upto)
    requires MonthBuckets(from, from.month, upto, recs).Success?
    requires 2 < |MonthBuckets(from, from.month, upto, recs).value.labels|
    ensures var fm := from.month;
            && MonthStep(from, fm).Some? && MonthStep(MonthStep(from, fm).value, fm).Some?
            && var s2 := MonthStep(MonthStep(from, fm).value, fm).value;
               && Settled(s2, fm)
               && MonthBuckets(s2, fm, upto, recs).Success?
               && MonthBuckets(from, fm, upto, recs).value.labels[2..] == MonthBuckets(s2, fm, upto, recs).value.labels
  {
    var fm := from.month;
    MonthBucketsTail(from, fm, upto, recs);
    var s1 := MonthStep(from, fm).value;
    MonthBucketsTail(s1, fm, upto, recs);
    var s2 := MonthStep(s1, fm).value;
    SettledAfterTwoSteps(from, s1, s2);
    var r0 := MonthBuckets(from, fm, upto, recs).value.labels;
    assert r0[2..] == r0[1..][1..];
  }
}
