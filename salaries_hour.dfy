/** What the hour branch of `aggregate_salaries` (main.py:43-64) computes:
    bucket count, bucket starts and labels, which records each bucket sums,
    and which records are skipped. */
module HourProperties {
  import opened Wrappers
  import opened Calendar
  import opened IsoFormat
  import opened Salaries

  /** Number of hour buckets the loop makes: floor((upto - c) / 1h) + 1,
      or none when c is after upto. */
  function HourCount(c: DateTime, upto: DateTime): int
    requires Valid(c) && Valid(upto)
  {
    if Seconds(c) <= Seconds(upto) then (Seconds(upto) - Seconds(c)) / 3600 + 1 else 0
  }

  /** A record lies in the window [start, end) of the hour loop. */
  predicate InHourWindow(rec: Record, start: DateTime, end: DateTime) {
    HourEntry(rec).Some? && Le(start, HourEntry(rec).value.1) && Lt(HourEntry(rec).value.1, end)
  }

  function Sum(xs: seq<int>): int {
    if xs == [] then 0 else xs[0] + Sum(xs[1..])
  }

  /** Bucket i of `s` starts at c + i hours, is labelled with that start's
      isoformat, and sums the records in [c + i h, c + (i+1) h). */
  predicate HourBucketAt(s: Series, c: DateTime, recs: seq<Record>, i: nat)
    requires Valid(c)
  {
    && i < |s.labels| && i < |s.dataset|
    && AddHours(c, i + 1).Some?
    && s.labels[i] == Iso(AddHours(c, i).value)
    && s.dataset[i] == HourTotal(recs, AddHours(c, i).value, AddHours(c, i + 1).value)
  }

  /** The i-th hour bucket starts at from + i hours and is labelled with its
      isoformat; it sums the records in [from + i h, from + (i+1) h). The
      call fails (OverflowError) exactly when the end of the last bucket
      is past 9999-12-31T23:59:59. */
  lemma {:induction false} HourBucketsShape(c: DateTime, upto: DateTime, recs: seq<Record>)
    requires Valid(c) && Valid(upto)
    ensures var n := HourCount(c, upto);
            var r := HourBuckets(c, upto, recs);
            && (r.Success? <==> Seconds(c) + 3600 * n <= MaxSeconds)
            && (r.Failure? ==> r.error == Overflow)
            && (r.Success? ==>
                  && |r.value.labels| == n
                  && forall i: nat | i < n :: HourBucketAt(r.value, c, recs, i))
    decreases MaxSeconds - Seconds(c)
  {
    LeIffSeconds(c, upto);
    SecondsBounds(c);
    if Le(c, upto) {
      var n := HourCount(c, upto);
      match AddHour(c)
      case None =>
      case Some(next) =>
        HourBucketsShape(next, upto, recs);
        HourCountStep(c, next, upto);
        var r := HourBuckets(c, upto, recs);
        if r.Success? {
          var rest := HourBuckets(next, upto, recs).value;
          forall i: nat | i < n
            ensures HourBucketAt(r.value, c, recs, i)
          {
            if i > 0 {
              assert HourBucketAt(rest, next, recs, i - 1);
            }
            HourBucketCons(c, next, recs, r.value, rest, i);
          }
        }
    }
  }

  /** One hour later, the loop has one bucket fewer to make. */
  lemma HourCountStep(c: DateTime, next: DateTime, upto: DateTime)
    requires Valid(c) && Valid(next) && Valid(upto)
    requires Seconds(c) <= Seconds(upto) && Seconds(next) == Seconds(c) + 3600
    ensures HourCount(next, upto) == HourCount(c, upto) - 1
  {
    var d := Seconds(upto) - Seconds(c);
    if d >= 3600 {
      assert (d - 3600) / 3600 == d / 3600 - 1;
    }
  }

  /** Bucket i of the series the loop builds from c is bucket i - 1 of the
      series it builds from c + 1 h, and bucket 0 is c's own. */
  lemma HourBucketCons(c: DateTime, next: DateTime, recs: seq<Record>, s: Series, rest: Series, i: nat)
    requires Valid(c) && AddHour(c) == Some(next)
    requires s == Series([HourTotal(recs, c, next)] + rest.dataset, [Iso(c)] + rest.labels)
    requires i < |s.labels|
    requires i > 0 ==> HourBucketAt(rest, next, recs, i - 1)
    ensures HourBucketAt(s, c, recs, i)
  {
    assert AddHours(c, i + 1) == AddHours(next, i);
    if i > 0 {
      assert AddHours(c, i) == AddHours(next, i - 1);
    }
  }

  /** Windows of different buckets are disjoint: a record is counted in at
      most one hour bucket. */
  lemma HourWindowsDisjoint(c: DateTime, i: nat, j: nat, rec: Record)
    requires Valid(c) && AddHours(c, i + 1).Some? && AddHours(c, j + 1).Some?
    requires InHourWindow(rec, AddHours(c, i).value, AddHours(c, i + 1).value)
    requires InHourWindow(rec, AddHours(c, j).value, AddHours(c, j + 1).value)
    ensures i == j
  {
    var when := HourEntry(rec).value.1;
    LeIffSeconds(AddHours(c, i).value, when);
    LtIffSeconds(when, AddHours(c, i + 1).value);
    LeIffSeconds(AddHours(c, j).value, when);
    LtIffSeconds(when, AddHours(c, j + 1).value);
  }

  lemma HourShareSplit(rec: Record, a: DateTime, b: DateTime, e: DateTime)
    requires Valid(a) && Valid(b) && Valid(e) && Le(a, b) && Le(b, e)
    ensures HourShare(rec, a, b) + HourShare(rec, b, e) == HourShare(rec, a, e)
  {
    if HourEntry(rec).Some? {
      var when := HourEntry(rec).value.1;
      LeIffSeconds(a, b);
      LeIffSeconds(b, e);
      LeIffSeconds(a, when);
      LeIffSeconds(b, when);
      LtIffSeconds(when, b);
      LtIffSeconds(when, e);
    }
  }

  lemma {:induction false} HourTotalSplit(recs: seq<Record>, a: DateTime, b: DateTime, e: DateTime)
    requires Valid(a) && Valid(b) && Valid(e) && Le(a, b) && Le(b, e)
    ensures HourTotal(recs, a, b) + HourTotal(recs, b, e) == HourTotal(recs, a, e)
  {
    if recs != [] {
      HourTotalSplit(recs[..|recs| - 1], a, b, e);
      HourShareSplit(recs[|recs| - 1], a, b, e);
    }
  }

  lemma {:induction false} HourTotalEmptyWindow(recs: seq<Record>, a: DateTime)
    ensures HourTotal(recs, a, a) == 0
  {
    if recs != [] {
      HourTotalEmptyWindow(recs[..|recs| - 1], a);
    }
  }

  /** Nothing is lost or counted twice: the buckets together hold exactly
      the salaries of the usable records dated in [from, from + n hours). */
  lemma {:induction false} HourBucketsConserve(c: DateTime, upto: DateTime, recs: seq<Record>)
    requires Valid(c) && Valid(upto)
    ensures var r := HourBuckets(c, upto, recs);
            r.Success? ==>
              && AddHours(c, |r.value.dataset|).Some?
              && Sum(r.value.dataset) == HourTotal(recs, c, AddHours(c, |r.value.dataset|).value)
    decreases MaxSeconds - Seconds(c)
  {
    SecondsBounds(c);
    var r := HourBuckets(c, upto, recs);
    if !Le(c, upto) {
      HourTotalEmptyWindow(recs, c);
    } else if r.Success? {
      var next := AddHour(c).value;
      HourBucketsConserve(next, upto, recs);
      var rest := HourBuckets(next, upto, recs).value;
      var m := |rest.dataset|;
      assert AddHours(c, m + 1) == AddHours(next, m);
      var end := AddHours(next, m).value;
      LeIffSeconds(c, next);
      LeIffSeconds(next, end);
      HourTotalSplit(recs, c, next, end);
      assert r.value.dataset[1..] == rest.dataset;
    }
  }

  lemma {:induction false} HourTotalAppend(a: seq<Record>, b: seq<Record>, start: DateTime, end: DateTime)
    ensures HourTotal(a + b, start, end) == HourTotal(a, start, end) + HourTotal(b, start, end)
    decreases |b|
  {
    if b == [] {
      assert a + b == a;
    } else {
      assert (a + b)[..|a + b| - 1] == a + b[..|b| - 1];
      HourTotalAppend(a, b[..|b| - 1], start, end);
    }
  }

  lemma HourTotalSkip(recs: seq<Record>, k: nat, rec: Record, start: DateTime, end: DateTime)
    requires k <= |recs| && HourEntry(rec).None?
    ensures HourTotal(recs[..k] + [rec] + recs[k..], start, end) == HourTotal(recs, start, end)
  {
    HourTotalAppend(recs[..k] + [rec], recs[k..], start, end);
    HourTotalAppend(recs[..k], [rec], start, end);
    HourTotalAppend(recs[..k], recs[k..], start, end);
    assert [rec][..0] == [];
    assert recs[..k] + recs[k..] == recs;
  }

  /** A record the hour loop cannot use changes no bucket: an absent field,
      a non-text salary or date (an integer salary among them), a salary
      `int()` rejects or a date `fromisoformat` rejects is skipped and the
      other records are summed as before. */
  lemma {:induction false} HourSkipsRecord(c: DateTime, upto: DateTime, recs: seq<Record>, k: nat, rec: Record)
    requires Valid(c) && Valid(upto) && k <= |recs|
    requires || rec.salary.None? || rec.date.None?
             || !rec.salary.value.Str? || !rec.date.value.Str?
             || ParseInt(rec.salary.value.text).None? || ParseIso(rec.date.value.text).None?
    ensures HourBuckets(c, upto, recs[..k] + [rec] + recs[k..]) == HourBuckets(c, upto, recs)
    decreases MaxSeconds - Seconds(c)
  {
    SecondsBounds(c);
    if Le(c, upto) && AddHour(c).Some? {
      var next := AddHour(c).value;
      HourSkipsRecord(next, upto, recs, k, rec);
      HourTotalSkip(recs, k, rec, c, next);
    }
  }
}
