/** Two ways the month branch of `aggregate_salaries` (main.py:82-102)
    misses calendar months, and the loop it was evidently meant to be: one
    bucket for every calendar month from `dt_from`'s to `dt_upto`'s. */
module MonthFindings {
  import opened Wrappers
  import opened Calendar
  import opened IsoFormat
  import opened Salaries
  import opened ScanProperties
  import opened MonthProperties
  import opened AggregateProperties

  // ---------------------------------------------------------------------
  // The corrected month loop

  /** The corrected loop from month m of year y on: a bucket labelled with
      the first of the month at midnight for every month up to `upto`'s,
      stepping by calendar month. */
  function IntendedFrom(y: int, m: int, upto: DateTime, recs: seq<Record>): Result<Series, Error>
    requires MinYear <= y && 1 <= m <= 12 && Valid(upto)
    decreases MonthIndex(upto) - (y * 12 + m - 1)
  {
    if y * 12 + m - 1 > MonthIndex(upto) then Success(Series([], []))
    else
      var first := DateTime(y, m, 1, 0, 0, 0);
      match TypedTotal(recs, first, ByMonth)
      case Failure(e) => Failure(e)
      case Success(total) =>
        var (y', m') := NextYearMonth(y, m);
        Prepend(total, Iso(first), IntendedFrom(y', m', upto, recs))
  }

  /** The month branch as evidently intended: no bucket when `dt_from` is
      after `dt_upto`, as the loop guard `current_date <= dt_upto` has it,
      and otherwise one bucket for each calendar month from `dt_from`'s to
      `dt_upto`'s. */
  function IntendedMonthBuckets(from: DateTime, upto: DateTime, recs: seq<Record>): Result<Series, Error>
    requires Valid(from) && Valid(upto)
  {
    if !Le(from, upto) then Success(Series([], []))
    else IntendedFrom(from.year, from.month, upto, recs)
  }

  /** `aggregate_salaries` with the corrected month branch; the hour and day
      branches are unchanged. */
  function CorrectedAggregate(dtFrom: string, dtUpto: string, groupType: string, recs: seq<Record>): (r: Result<Series, Error>)
    ensures groupType != "month" ==> r == Aggregate(dtFrom, dtUpto, groupType, recs)
  {
    match ParseIso(dtFrom)
    case None => Failure(InvalidIsoFormat(dtFrom))
    case Some(from) =>
      match ParseIso(dtUpto)
      case None => Failure(InvalidIsoFormat(dtUpto))
      case Some(upto) =>
        if groupType == "month" then IntendedMonthBuckets(from, upto, recs)
        else Aggregate(dtFrom, dtUpto, groupType, recs)
  }

  /** The corrected loop never overflows: it fails only with ValueError,
      and exactly when there is at least one bucket and some used record's
      date does not parse. */
  lemma {:induction false} IntendedOutcome(y: int, m: int, upto: DateTime, recs: seq<Record>)
    requires MinYear <= y && 1 <= m <= 12 && Valid(upto)
    ensures var r := IntendedFrom(y, m, upto, recs);
            && (r.Success? <==> y * 12 + m - 1 > MonthIndex(upto) || TypedDatesParse(recs))
            && (r.Failure? ==> r.error.InvalidIsoFormat?)
    decreases MonthIndex(upto) - (y * 12 + m - 1)
  {
    if y * 12 + m - 1 <= MonthIndex(upto) {
      TypedTotalOutcome(recs, DateTime(y, m, 1, 0, 0, 0), ByMonth);
      var (y', m') := NextYearMonth(y, m);
      IntendedOutcome(y', m', upto, recs);
    }
  }

  /** The corrected loop makes one bucket per calendar month from the
      start's to `upto`'s, and no bucket when the start is in a later
      month. */
  lemma {:induction false} IntendedCount(y: int, m: int, upto: DateTime, recs: seq<Record>)
    requires MinYear <= y && 1 <= m <= 12 && Valid(upto)
    ensures var k0 := y * 12 + m - 1;
            var r := IntendedFrom(y, m, upto, recs);
            r.Success? ==>
              && |r.value.dataset| == |r.value.labels|
              && |r.value.labels| == (if k0 <= MonthIndex(upto) then MonthIndex(upto) - k0 + 1 else 0)
    decreases MonthIndex(upto) - (y * 12 + m - 1)
  {
    if y * 12 + m - 1 <= MonthIndex(upto) {
      var (y', m') := NextYearMonth(y, m);
      assert y' * 12 + m' - 1 == y * 12 + m;
      IntendedCount(y', m', upto, recs);
    }
  }

  /** In the corrected loop's buckets from month m of year y on, the bucket
      for each later month m2 of year y2 up to `upto`'s sits at the
      distance in months between the two and is labelled with the first of
      month m2 at midnight. */
  lemma {:induction false} IntendedLabel(y: int, m: int, upto: DateTime, recs: seq<Record>, y2: int, m2: int)
    requires MinYear <= y && 1 <= m <= 12 && Valid(upto)
    requires y2 <= MaxYear && 1 <= m2 <= 12 && y * 12 + m - 1 <= y2 * 12 + m2 - 1 <= MonthIndex(upto)
    ensures var j := (y2 * 12 + m2) - (y * 12 + m);
            var r := IntendedFrom(y, m, upto, recs);
            r.Success? ==> j < |r.value.labels| && r.value.labels[j] == Iso(DateTime(y2, m2, 1, 0, 0, 0))
    decreases MonthIndex(upto) - (y * 12 + m - 1)
  {
    var r := IntendedFrom(y, m, upto, recs);
    if r.Success? {
      var first := DateTime(y, m, 1, 0, 0, 0);
      var (y', m') := NextYearMonth(y, m);
      var rest := IntendedFrom(y', m', upto, recs);
      assert r.value.labels == [Iso(first)] + rest.value.labels;
      if y2 * 12 + m2 == y * 12 + m {
        assert (y2 - y) * 12 == m - m2;
        assert DateTime(y2, m2, 1, 0, 0, 0) == first;
      } else {
        var j := (y2 * 12 + m2) - (y * 12 + m);
        assert (y2 * 12 + m2) - (y' * 12 + m') == j - 1;
        IntendedLabel(y', m', upto, recs, y2, m2);
        assert r.value.labels[j] == rest.value.labels[j - 1];
      }
    }
  }

  /** In the corrected loop's buckets from month m of year y on, the bucket
      for each later month m2 of year y2 up to `upto`'s sums the used
      records dated in that year and month. */
  lemma {:induction false} IntendedTotal(y: int, m: int, upto: DateTime, recs: seq<Record>, y2: int, m2: int)
    requires MinYear <= y && 1 <= m <= 12 && Valid(upto)
    requires y2 <= MaxYear && 1 <= m2 <= 12 && y * 12 + m - 1 <= y2 * 12 + m2 - 1 <= MonthIndex(upto)
    ensures var j := (y2 * 12 + m2) - (y * 12 + m);
            var r := IntendedFrom(y, m, upto, recs);
            r.Success? ==>
              j < |r.value.dataset| && TypedTotal(recs, DateTime(y2, m2, 1, 0, 0, 0), ByMonth) == Success(r.value.dataset[j])
    decreases MonthIndex(upto) - (y * 12 + m - 1)
  {
    var r := IntendedFrom(y, m, upto, recs);
    if r.Success? {
      var first := DateTime(y, m, 1, 0, 0, 0);
      var total := TypedTotal(recs, first, ByMonth);
      var (y', m') := NextYearMonth(y, m);
      var rest := IntendedFrom(y', m', upto, recs);
      assert r.value.dataset == [total.value] + rest.value.dataset;
      if y2 * 12 + m2 == y * 12 + m {
        assert (y2 - y) * 12 == m - m2;
        assert DateTime(y2, m2, 1, 0, 0, 0) == first;
      } else {
        var j := (y2 * 12 + m2) - (y * 12 + m);
        assert (y2 * 12 + m2) - (y' * 12 + m') == j - 1;
        IntendedTotal(y', m', upto, recs, y2, m2);
        assert r.value.dataset[j] == rest.value.dataset[j - 1];
      }
    }
  }

  /** The corrected month branch never overflows: it fails only with
      ValueError, and exactly when `dt_from` is not after `dt_upto` and some
      used record's date does not parse. */
  lemma IntendedMonthOutcome(from: DateTime, upto: DateTime, recs: seq<Record>)
    requires Valid(from) && Valid(upto)
    ensures var r := IntendedMonthBuckets(from, upto, recs);
            && (r.Success? <==> !Le(from, upto) || TypedDatesParse(recs))
            && (r.Failure? ==> r.error.InvalidIsoFormat?)
  {
    if Le(from, upto) {
      MonthIndexOrder(from, upto);
      IntendedOutcome(from.year, from.month, upto, recs);
    }
  }

  /** The corrected month branch makes one bucket per calendar month from
      `dt_from`'s to `dt_upto`'s, and none when `dt_from` is after
      `dt_upto`. */
  lemma IntendedMonthCount(from: DateTime, upto: DateTime, recs: seq<Record>)
    requires Valid(from) && Valid(upto)
    ensures var r := IntendedMonthBuckets(from, upto, recs);
            r.Success? ==>
              && |r.value.dataset| == |r.value.labels|
              && |r.value.labels| == (if Le(from, upto) then MonthIndex(upto) - MonthIndex(from) + 1 else 0)
  {
    if Le(from, upto) {
      MonthIndexOrder(from, upto);
      IntendedCount(from.year, from.month, upto, recs);
    }
  }

  /** With a known `group_type` and both timestamps parsed, the corrected
      call, like the code, returns two empty lists exactly when `dt_from`
      is later than `dt_upto`. */
  lemma CorrectedEmptyRange(dtFrom: string, dtUpto: string, groupType: string, recs: seq<Record>)
    requires groupType == "hour" || groupType == "day" || groupType == "month"
    requires ParseIso(dtFrom).Some? && ParseIso(dtUpto).Some?
    ensures CorrectedAggregate(dtFrom, dtUpto, groupType, recs) == Success(Series([], []))
            <==> Lt(ParseIso(dtUpto).value, ParseIso(dtFrom).value)
  {
    var from, upto := ParseIso(dtFrom).value, ParseIso(dtUpto).value;
    if groupType == "month" {
      IntendedMonthCount(from, upto, recs);
      LtIffSeconds(upto, from);
      LeIffSeconds(from, upto);
    } else {
      AggregateEmptyRange(dtFrom, dtUpto, groupType, recs);
    }
  }

  // ---------------------------------------------------------------------
  // Where the loop as written agrees with the corrected one

  /** From the first of a month at midnight, and with `dt_upto` no earlier
      than the 4th of its month and before December 9999, the loop as
      written makes exactly the corrected buckets. */
  lemma MonthBucketsAgree(from: DateTime, upto: DateTime, recs: seq<Record>)
    requires Valid(from) && Valid(upto)
    requires from.day == 1 && TimeOfDay(from) == 0
    requires upto.day >= 4 && (upto.year < MaxYear || upto.month < 12)
    ensures MonthBuckets(from, from.month, upto, recs) == IntendedMonthBuckets(from, upto, recs)
  {
    if Le(from, upto) {
      AgreeFrom(from, from.month, upto, recs);
    }
  }

  lemma {:induction false} AgreeFrom(c: DateTime, fromMonth: int, upto: DateTime, recs: seq<Record>)
    requires Valid(c) && Valid(upto) && Settled(c, fromMonth)
    requires upto.day >= 4 && (upto.year < MaxYear || upto.month < 12)
    ensures MonthBuckets(c, fromMonth, upto, recs) == IntendedFrom(c.year, c.month, upto, recs)
    decreases MaxSeconds - Seconds(c)
  {
    SecondsBounds(c);
    if MonthIndex(c) > MonthIndex(upto) {
      if Le(c, upto) {
        MonthIndexOrder(c, upto);
      }
    } else {
      assert Le(c, upto);
      var first := DateTime(c.year, c.month, 1, 0, 0, 0);
      TypedTotalByMonth(recs, c, first);
      if TypedTotal(recs, c, ByMonth).Success? {
        StepBeforeLastMonth(c);
        var next := MonthStep(c, fromMonth).value;
        SettledStep(c, fromMonth);
        SecondsBounds(next);
        AgreeFrom(next, fromMonth, upto, recs);
        var (y', m') := NextYearMonth(c.year, c.month);
        assert next.year == y' && next.month == m' by {
          assert (next.year - y') * 12 == m' - next.month;
        }
      }
    }
  }

  /** A step from any day before December 9999 stays within the calendar. */
  lemma StepBeforeLastMonth(c: DateTime)
    requires Valid(c) && (c.year < MaxYear || c.month < 12)
    ensures Ordinal(c.year, c.month, c.day) + 31 <= MaxOrdinal
  {
    OrdinalOfMax();
    if c.year < MaxYear || c.month < 11 || c.day < 30 {
      OrdinalStrictlyMonotone(c.year, c.month, c.day, MaxYear, 11, 30);
    }
  }

  // ---------------------------------------------------------------------
  // The loop as written: where it misses a month

  /** When `dt_from`'s day + 31 overruns its month and the next (from
      2023-01-31, say: 31 + 31 > 31 + 28), the first step skips the next
      calendar month, and no bucket is ever labelled with it (the corrected
      loop labels one with it: IntendedNextMonth). */
  lemma MonthSkipsNextMonth(from: DateTime, upto: DateTime, recs: seq<Record>)
    requires Valid(from) && Valid(upto) && (from.year < MaxYear || from.month < 12)
    requires var (y1, m1) := NextYearMonth(from.year, from.month);
             from.day + 31 > DaysInMonth(from.year, from.month) + DaysInMonth(y1, m1)
    ensures var (y1, m1) := NextYearMonth(from.year, from.month);
            var r := MonthBuckets(from, from.month, upto, recs);
            r.Success? ==> Iso(DateTime(y1, m1, 1, 0, 0, 0)) !in r.value.labels
  {
    var fm := from.month;
    var (y1, m1) := NextYearMonth(from.year, from.month);
    var r := MonthBuckets(from, fm, upto, recs);
    if Le(from, upto) && r.Success? {
      MonthBucketsUnfold(from, fm, upto, recs);
      var s1 := MonthStep(from, fm).value;
      StepSkipsMonth(from, fm);
      LabelsAfter(s1, fm, upto, recs, y1, m1);
      IsoDiffers(FirstOfMonth(from), DateTime(y1, m1, 1, 0, 0, 0));
    }
  }

  lemma StepSkipsMonth(c: DateTime, fromMonth: int)
    requires Valid(c) && MonthStep(c, fromMonth).Some?
    requires var (y1, m1) := NextYearMonth(c.year, c.month);
             c.day + 31 > DaysInMonth(c.year, c.month) + DaysInMonth(y1, m1)
    ensures MonthIndex(MonthStep(c, fromMonth).value) == MonthIndex(c) + 2
  {
    MonthStepMonths(c, fromMonth);
  }

  /** The corrected loop labels its second bucket with the month after
      `dt_from`'s whenever `dt_upto` is in that month or later. */
  lemma IntendedNextMonth(from: DateTime, upto: DateTime, recs: seq<Record>)
    requires Valid(from) && Valid(upto) && MonthIndex(from) < MonthIndex(upto)
    ensures var (y1, m1) := NextYearMonth(from.year, from.month);
            var r := IntendedMonthBuckets(from, upto, recs);
            r.Success? ==> 1 < |r.value.labels| && r.value.labels[1] == Iso(DateTime(y1, m1, 1, 0, 0, 0))
  {
    var (y1, m1) := NextYearMonth(from.year, from.month);
    assert Le(from, upto);
    var r := IntendedMonthBuckets(from, upto, recs);
    if r.Success? {
      var rest := IntendedFrom(y1, m1, upto, recs);
      assert rest.Success?;
      assert r.value.labels == [Iso(DateTime(from.year, from.month, 1, 0, 0, 0))] + rest.value.labels;
      assert rest.value.labels[0] == Iso(DateTime(y1, m1, 1, 0, 0, 0));
    }
  }

  /** When the step from `dt_from` lands in month `dt_from.month + 1` (from
      2023-01-15 on 2023-02-15, say), it keeps its day and time, so a
      `dt_upto` in that month but before `dt_from + timedelta(days=31)`
      (2023-02-10) ends the loop with one bucket (the corrected loop makes
      two: IntendedNextMonth). */
  lemma MonthStopsEarly(from: DateTime, upto: DateTime, recs: seq<Record>)
    requires Valid(from) && Valid(upto) && from.month < 12
    requires from.day + 31 <= DaysInMonth(from.year, from.month) + DaysInMonth(from.year, from.month + 1)
    requires MonthIndex(upto) == MonthIndex(from) + 1 && Seconds(upto) < Seconds(from) + 31 * 86400
    ensures var r := MonthBuckets(from, from.month, upto, recs);
            r.Success? ==> r.value.labels == [Iso(FirstOfMonth(from))]
  {
    var fm := from.month;
    StepBeforeLastMonth(from);
    var s1 := MonthStep(from, fm).value;
    StepToNextMonth(from, fm);
    MonthStepMonths(from, fm);
    assert Seconds(s1) == Seconds(from) + 31 * 86400;
    LtIffSeconds(upto, s1);
    SecondsBounds(s1);
    assert MonthBuckets(s1, fm, upto, recs) == Success(Series([], []));
  }

  lemma StepToNextMonth(c: DateTime, fromMonth: int)
    requires Valid(c) && MonthStep(c, fromMonth).Some? && c.month < 12
    requires c.day + 31 <= DaysInMonth(c.year, c.month) + DaysInMonth(c.year, c.month + 1)
    ensures MonthStep(c, fromMonth).value.year == c.year && MonthStep(c, fromMonth).value.month == c.month + 1
  {
    var s := MonthStep(c, fromMonth).value;
    MonthStepMonths(c, fromMonth);
    assert NextYearMonth(c.year, c.month) == (c.year, c.month + 1);
    assert MonthIndex(s) == MonthIndex(c) + 1;
    assert (s.year - c.year) * 12 == c.month + 1 - s.month;
  }

  /** No bucket of the loop from `c` on is labelled with a month before
      `c`'s: the steps only move forward by month. */
  lemma {:induction false} LabelsAfter(c: DateTime, fromMonth: int, upto: DateTime, recs: seq<Record>, y: int, m: int)
    requires Valid(c) && Valid(upto) && ValidDate(y, m, 1) && y * 12 + m - 1 < MonthIndex(c)
    ensures var r := MonthBuckets(c, fromMonth, upto, recs);
            r.Success? ==> Iso(DateTime(y, m, 1, 0, 0, 0)) !in r.value.labels
    decreases MaxSeconds - Seconds(c)
  {
    SecondsBounds(c);
    var r := MonthBuckets(c, fromMonth, upto, recs);
    if Le(c, upto) && r.Success? {
      MonthBucketsUnfold(c, fromMonth, upto, recs);
      var next := MonthStep(c, fromMonth).value;
      StepAdvances(c, fromMonth);
      SecondsBounds(next);
      LabelsAfter(next, fromMonth, upto, recs, y, m);
      IsoDiffers(FirstOfMonth(c), DateTime(y, m, 1, 0, 0, 0));
    }
  }
}
