/** What the day branch of `aggregate_salaries` (main.py:66-80) computes. */
module DayProperties {
  import opened Wrappers
  import opened Calendar
  import opened IsoFormat
  import opened Salaries
  import opened ScanProperties

  /** Number of day buckets the loop makes: floor((upto - c) / 1 day) + 1,
      or none when c is after upto. */
  function DayCount(c: DateTime, upto: DateTime): int
    requires Valid(c) && Valid(upto)
  {
    if Seconds(c) <= Seconds(upto) then (Seconds(upto) - Seconds(c)) / 86400 + 1 else 0
  }

  /** Bucket i of `s` starts at c + i days, is labelled with that start's
      isoformat, and sums the used records dated on that start's calendar
      date, whatever their time of day. */
  predicate DayBucketAt(s: Series, c: DateTime, recs: seq<Record>, i: nat)
    requires Valid(c)
  {
    && i < |s.labels| && i < |s.dataset|
    && AddDays(c, i).Some?
    && s.labels[i] == Iso(AddDays(c, i).value)
    && TypedTotal(recs, AddDays(c, i).value, ByDay) == Success(s.dataset[i])
  }

  /** The day loop fails with ValueError when a bucket exists and some used
      record's date does not parse, and otherwise with OverflowError exactly
      when the day after the last bucket is past 9999-12-31. */
  lemma {:induction false} DayBucketsOutcome(c: DateTime, upto: DateTime, recs: seq<Record>)
    requires Valid(c) && Valid(upto)
    ensures var n := DayCount(c, upto);
            var r := DayBuckets(c, upto, recs);
            && (r.Success? <==> n == 0 || (TypedDatesParse(recs) && Ordinal(c.year, c.month, c.day) + n <= MaxOrdinal))
            && (r.Failure? ==> if TypedDatesParse(recs) then r.error == Overflow else r.error.InvalidIsoFormat?)
    decreases MaxSeconds - Seconds(c)
  {
    LeIffSeconds(c, upto);
    SecondsBounds(c);
    if Le(c, upto) {
      TypedTotalOutcome(recs, c, ByDay);
      if TypedDatesParse(recs) && AddDays(c, 1).Some? {
        var next := AddDays(c, 1).value;
        DayBucketsOutcome(next, upto, recs);
        assert DayCount(next, upto) == DayCount(c, upto) - 1;
      }
    }
  }

  /** The day loop makes DayCount buckets, the i-th at c + i days. */
  lemma {:induction false} DayBucketsShape(c: DateTime, upto: DateTime, recs: seq<Record>)
    requires Valid(c) && Valid(upto)
    ensures var n := DayCount(c, upto);
            var r := DayBuckets(c, upto, recs);
            r.Success? ==> |r.value.labels| == n && forall i: nat | i < n :: DayBucketAt(r.value, c, recs, i)
    decreases MaxSeconds - Seconds(c)
  {
    LeIffSeconds(c, upto);
    SecondsBounds(c);
    var r := DayBuckets(c, upto, recs);
    if Le(c, upto) && r.Success? {
      var n := DayCount(c, upto);
      var next := AddDays(c, 1).value;
      DayBucketsShape(next, upto, recs);
      assert DayCount(next, upto) == n - 1;
      var rest := DayBuckets(next, upto, recs).value;
      var total := TypedTotal(recs, c, ByDay).value;
      assert r.value == Series([total] + rest.dataset, [Iso(c)] + rest.labels);
      DayBucketsCons(c, next, recs, total, rest, n);
    }
  }

  lemma DayBucketsCons(c: DateTime, next: DateTime, recs: seq<Record>, total: int, rest: Series, n: nat)
    requires Valid(c) && AddDays(c, 1) == Some(next) && n >= 1
    requires TypedTotal(recs, c, ByDay) == Success(total)
    requires |rest.labels| == n - 1 && forall i: nat | i < n - 1 :: DayBucketAt(rest, next, recs, i)
    ensures forall i: nat | i < n :: DayBucketAt(Series([total] + rest.dataset, [Iso(c)] + rest.labels), c, recs, i)
  {
    forall i: nat | i < n
      ensures DayBucketAt(Series([total] + rest.dataset, [Iso(c)] + rest.labels), c, recs, i)
    {
      if i > 0 {
        DayBucketAtCons(c, next, recs, total, rest, i);
      }
    }
  }

  lemma DayBucketAtCons(c: DateTime, next: DateTime, recs: seq<Record>, total: int, rest: Series, i: nat)
    requires Valid(c) && AddDays(c, 1) == Some(next) && 0 < i
    requires DayBucketAt(rest, next, recs, i - 1)
    ensures DayBucketAt(Series([total] + rest.dataset, [Iso(c)] + rest.labels), c, recs, i)
  {
    AddDaysShift(c, i, next);
    var s := Series([total] + rest.dataset, [Iso(c)] + rest.labels);
    assert s.labels[i] == rest.labels[i - 1] && s.dataset[i] == rest.dataset[i - 1];
  }

  /** A record without an integer salary and a text date changes no day
      bucket: absent fields, a text salary (even a numeric one) or a
      non-text date are ignored. */
  lemma {:induction false} DaySkipsRecord(c: DateTime, upto: DateTime, recs: seq<Record>, k: nat, rec: Record)
    requires Valid(c) && Valid(upto) && k <= |recs|
    requires rec.salary.None? || rec.date.None? || !rec.salary.value.Int? || !rec.date.value.Str?
    ensures DayBuckets(c, upto, recs[..k] + [rec] + recs[k..]) == DayBuckets(c, upto, recs)
    decreases MaxSeconds - Seconds(c)
  {
    SecondsBounds(c);
    TypedTotalSkip(recs, k, rec, c, ByDay);
    if Le(c, upto) && TypedTotal(recs, c, ByDay).Success? && AddDays(c, 1).Some? {
      DaySkipsRecord(AddDays(c, 1).value, upto, recs, k, rec);
    }
  }

  /** A record with an integer salary and an unparseable text date ends the
      day loop with ValueError whenever there is a bucket at all. */
  lemma DayBadDateFails(c: DateTime, upto: DateTime, recs: seq<Record>, k: nat, rec: Record)
    requires Valid(c) && Valid(upto) && k <= |recs| && Le(c, upto)
    requires rec.salary.Some? && rec.salary.value.Int? && rec.date.Some? && rec.date.value.Str?
    requires ParseIso(rec.date.value.text).None?
    ensures DayBuckets(c, upto, recs[..k] + [rec] + recs[k..]).Failure?
    ensures DayBuckets(c, upto, recs[..k] + [rec] + recs[k..]).error.InvalidIsoFormat?
  {
    var more := recs[..k] + [rec] + recs[k..];
    BadDateBreaksScan(recs, k, rec, c, ByDay);
    DayBucketsOutcome(c, upto, more);
    LeIffSeconds(c, upto);
  }
}
