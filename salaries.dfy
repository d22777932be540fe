/** `aggregate_salaries` of main.py: sum the stored salaries into hour, day
    or month buckets between two ISO timestamps.

    The record store is a sequence of records, read in full for every
    bucket. The functions below give the meaning of each of the three
    bucket loops; `AggregateSalaries` is the loop program itself, proved
    to compute `Aggregate`. */
module Salaries {
  import opened Wrappers
  import opened Calendar
  import opened IsoFormat

  /** A stored field value: text, an integer, or anything else. */
  datatype Value = Str(text: string) | Int(number: int) | Other

  /** A stored document's `salary` and `date` fields; `None` when absent. */
  datatype Record = Record(salary: Option<Value>, date: Option<Value>)

  /** The result dictionary: bucket sums and bucket labels. */
  datatype Series = Series(dataset: seq<int>, labels: seq<string>)

  /** The exceptions that escape the call. */
  datatype Error =
    | InvalidIsoFormat(text: string)       // ValueError from fromisoformat
    | InvalidGroupType(groupType: string)  // ValueError for an unknown group_type
    | Overflow                             // OverflowError from datetime + timedelta

  /** Which calendar field(s) the day and month loops compare. */
  datatype Grain = ByDay | ByMonth

  /** Buckets already made, in front of the buckets that follow them, or
      the error that ends the call. */
  function Glue(dataset: seq<int>, labels: seq<string>, rest: Result<Series, Error>): Result<Series, Error> {
    match rest
    case Failure(e) => Failure(e)
    case Success(s) => Success(Series(dataset + s.dataset, labels + s.labels))
  }

  /** One more bucket in front of the buckets that follow it. */
  function Prepend(sum: int, stamp: string, rest: Result<Series, Error>): (r: Result<Series, Error>)
    ensures r.Success? <==> rest.Success?
    ensures r.Success? ==> r.value.dataset == [sum] + rest.value.dataset && r.value.labels == [stamp] + rest.value.labels
  {
    Glue([sum], [stamp], rest)
  }

  // ---------------------------------------------------------------------
  // Hour buckets

  /** The salary and instant of a record the hour loop uses: both fields
      text, `int(salary)` and `fromisoformat(date)` both succeed. */
  function HourEntry(rec: Record): Option<(int, DateTime)> {
    if rec.salary.Some? && rec.date.Some? && rec.salary.value.Str? && rec.date.value.Str? then
      match (ParseInt(rec.salary.value.text), ParseIso(rec.date.value.text))
      case (Some(amount), Some(when)) => Some((amount, when))
      case _ => None
    else None
  }

  /** What one record adds to the hour bucket [start, end). */
  function HourShare(rec: Record, start: DateTime, end: DateTime): int {
    match HourEntry(rec)
    case None => 0
    case Some((amount, when)) => if Le(start, when) && Lt(when, end) then amount else 0
  }

  /** The hour bucket's total over the records. */
  function HourTotal(recs: seq<Record>, start: DateTime, end: DateTime): int {
    if recs == [] then 0
    else HourTotal(recs[..|recs| - 1], start, end) + HourShare(recs[|recs| - 1], start, end)
  }

  /** The hour loop from bucket start `current` on. */
  function HourBuckets(current: DateTime, upto: DateTime, recs: seq<Record>): (r: Result<Series, Error>)
    requires Valid(current) && Valid(upto)
    ensures r.Success? ==> |r.value.dataset| == |r.value.labels|
    decreases MaxSeconds - Seconds(current)
  {
    if !Le(current, upto) then Success(Series([], []))
    else
      match AddHour(current)
      case None => Failure(Overflow)
      case Some(next) => Prepend(HourTotal(recs, current, next), Iso(current), HourBuckets(next, upto, recs))
  }

  // ---------------------------------------------------------------------
  // Day and month buckets

  /** The salary and date text of a record the day and month loops use:
      an integer salary and a text date. */
  function TypedEntry(rec: Record): Option<(int, string)> {
    if rec.salary.Some? && rec.date.Some? && rec.salary.value.Int? && rec.date.value.Str? then
      Some((rec.salary.value.number, rec.date.value.text))
    else None
  }

  /** `when` falls in the bucket of `current`: the same calendar date, or
      the same year and month. */
  predicate SameBucket(grain: Grain, when: DateTime, current: DateTime) {
    match grain
    case ByDay => when.year == current.year && when.month == current.month && when.day == current.day
    case ByMonth => when.year == current.year && when.month == current.month
  }

  /** What one record adds to the bucket of `current`; an unparseable date
      on a record the loop uses is an error that ends the call. */
  function TypedShare(rec: Record, current: DateTime, grain: Grain): Result<int, Error> {
    match TypedEntry(rec)
    case None => Success(0)
    case Some((amount, text)) =>
      match ParseIso(text)
      case None => Failure(InvalidIsoFormat(text))
      case Some(when) => Success(if SameBucket(grain, when, current) then amount else 0)
  }

  /** The bucket's total over the records, or the error of the first record
      whose date does not parse. */
  function TypedTotal(recs: seq<Record>, current: DateTime, grain: Grain): Result<int, Error> {
    if recs == [] then Success(0)
    else
      match TypedTotal(recs[..|recs| - 1], current, grain)
      case Failure(e) => Failure(e)
      case Success(sum) =>
        match TypedShare(recs[|recs| - 1], current, grain)
        case Failure(e) => Failure(e)
        case Success(x) => Success(sum + x)
  }

  /** The day loop from bucket start `current` on. */
  function DayBuckets(current: DateTime, upto: DateTime, recs: seq<Record>): (r: Result<Series, Error>)
    requires Valid(current) && Valid(upto)
    ensures r.Success? ==> |r.value.dataset| == |r.value.labels|
    decreases MaxSeconds - Seconds(current)
  {
    if !Le(current, upto) then Success(Series([], []))
    else
      match TypedTotal(recs, current, ByDay)
      case Failure(e) => Failure(e)
      case Success(total) =>
        match AddDays(current, 1)
        case None => Failure(Overflow)
        case Some(next) => Prepend(total, Iso(current), DayBuckets(next, upto, recs))
  }

  /** The month loop's step: 31 days on, then back to the first of the
      month unless that month is `fromMonth + 1`. */
  function MonthStep(current: DateTime, fromMonth: int): (r: Option<DateTime>)
    requires Valid(current)
    ensures r.None? <==> Ordinal(current.year, current.month, current.day) + 31 > MaxOrdinal
    ensures r.Some? ==> Valid(r.value) && Seconds(current) < Seconds(r.value)
  {
    match AddDays(current, 31)
    case None => None
    case Some(later) =>
      if later.month != fromMonth + 1 then Some(FirstOfMonth(later)) else Some(later)
  }

  /** The month loop from bucket start `current` on. */
  function MonthBuckets(current: DateTime, fromMonth: int, upto: DateTime, recs: seq<Record>): (r: Result<Series, Error>)
    requires Valid(current) && Valid(upto)
    ensures r.Success? ==> |r.value.dataset| == |r.value.labels|
    decreases MaxSeconds - Seconds(current)
  {
    if !Le(current, upto) then Success(Series([], []))
    else
      match TypedTotal(recs, current, ByMonth)
      case Failure(e) => Failure(e)
      case Success(total) =>
        match MonthStep(current, fromMonth)
        case None => Failure(Overflow)
        case Some(next) =>
          SecondsBounds(next);
          Prepend(total, Iso(FirstOfMonth(current)), MonthBuckets(next, fromMonth, upto, recs))
  }

  // ---------------------------------------------------------------------
  // The whole call

  /** `aggregate_salaries(dt_from, dt_upto, group_type)` over the records. */
  function Aggregate(dtFrom: string, dtUpto: string, groupType: string, recs: seq<Record>): (r: Result<Series, Error>)
    ensures r.Success? ==> |r.value.dataset| == |r.value.labels|
  {
    match ParseIso(dtFrom)
    case None => Failure(InvalidIsoFormat(dtFrom))
    case Some(from) =>
      match ParseIso(dtUpto)
      case None => Failure(InvalidIsoFormat(dtUpto))
      case Some(upto) =>
        if groupType == "hour" then HourBuckets(from, upto, recs)
        else if groupType == "day" then DayBuckets(from, upto, recs)
        else if groupType == "month" then MonthBuckets(from, from.month, upto, recs)
        else Failure(InvalidGroupType(groupType))
  }

  /** The loop program of main.py:37-107. */
  method AggregateSalaries(dtFrom: string, dtUpto: string, groupType: string, records: seq<Record>)
    returns (r: Result<Series, Error>)
    ensures r == Aggregate(dtFrom, dtUpto, groupType, records)
  {
    var parsedFrom := ParseIso(dtFrom);
    if parsedFrom.None? {
      return Failure(InvalidIsoFormat(dtFrom));
    }
    var parsedUpto := ParseIso(dtUpto);
    if parsedUpto.None? {
      return Failure(InvalidIsoFormat(dtUpto));
    }
    var from, upto := parsedFrom.value, parsedUpto.value;
    if groupType == "hour" {
      r := HourLoop(from, upto, records);
    } else if groupType == "day" {
      r := DayLoop(from, upto, records);
    } else if groupType == "month" {
      r := MonthLoop(from, upto, records);
    } else {
      r := Failure(InvalidGroupType(groupType));
    }
  }

  /** The hour branch, main.py:43-64. */
  method HourLoop(from: DateTime, upto: DateTime, records: seq<Record>) returns (r: Result<Series, Error>)
    requires Valid(from) && Valid(upto)
    ensures r == HourBuckets(from, upto, records)
  {
    var dataset: seq<int> := [];
    var labels: seq<string> := [];
    var current := from;
    GlueEnds(dataset, labels, HourBuckets(from, upto, records));
    while Le(current, upto)
      invariant Valid(current)
      invariant HourBuckets(from, upto, records) == Glue(dataset, labels, HourBuckets(current, upto, records))
      decreases MaxSeconds - Seconds(current)
    {
      var end := AddHour(current);
      if end.None? {
        return Failure(Overflow);
      }
      var total := HourScan(records, current, end.value);
      assert HourBuckets(current, upto, records) == Prepend(total, Iso(current), HourBuckets(end.value, upto, records));
      GluePrepend(dataset, labels, total, Iso(current), HourBuckets(end.value, upto, records));
      dataset, labels := dataset + [total], labels + [Iso(current)];
      current := end.value;
    }
    GlueEnds(dataset, labels, Success(Series([], [])));
    return Success(Series(dataset, labels));
  }

  /** One hour bucket's pass over the records, main.py:46-60. */
  method HourScan(records: seq<Record>, start: DateTime, end: DateTime) returns (total: int)
    ensures total == HourTotal(records, start, end)
  {
    total := 0;
    for k := 0 to |records|
      invariant total == HourTotal(records[..k], start, end)
    {
      var rec := records[k];
      if rec.salary.Some? && rec.date.Some? && rec.salary.value.Str? && rec.date.value.Str? {
        var amount := ParseInt(rec.salary.value.text);
        var when := ParseIso(rec.date.value.text);
        if amount.Some? && when.Some? && Le(start, when.value) && Lt(when.value, end) {
          total := total + amount.value;
        }
      }
      assert records[..k + 1][..k] == records[..k];
    }
    assert records[..|records|] == records;
  }

  /** The day branch, main.py:66-80. */
  method DayLoop(from: DateTime, upto: DateTime, records: seq<Record>) returns (r: Result<Series, Error>)
    requires Valid(from) && Valid(upto)
    ensures r == DayBuckets(from, upto, records)
  {
    var dataset: seq<int> := [];
    var labels: seq<string> := [];
    var current := from;
    GlueEnds(dataset, labels, DayBuckets(from, upto, records));
    while Le(current, upto)
      invariant Valid(current)
      invariant DayBuckets(from, upto, records) == Glue(dataset, labels, DayBuckets(current, upto, records))
      decreases MaxSeconds - Seconds(current)
    {
      var total := TypedScan(records, current, ByDay);
      if total.Failure? {
        return Failure(total.error);
      }
      var next := AddDays(current, 1);
      if next.None? {
        return Failure(Overflow);
      }
      assert DayBuckets(current, upto, records) == Prepend(total.value, Iso(current), DayBuckets(next.value, upto, records));
      GluePrepend(dataset, labels, total.value, Iso(current), DayBuckets(next.value, upto, records));
      dataset, labels := dataset + [total.value], labels + [Iso(current)];
      current := next.value;
    }
    GlueEnds(dataset, labels, Success(Series([], [])));
    return Success(Series(dataset, labels));
  }

  /** The month branch, main.py:82-102. */
  method MonthLoop(from: DateTime, upto: DateTime, records: seq<Record>) returns (r: Result<Series, Error>)
    requires Valid(from) && Valid(upto)
    ensures r == MonthBuckets(from, from.month, upto, records)
  {
    var dataset: seq<int> := [];
    var labels: seq<string> := [];
    var current := from;
    GlueEnds(dataset, labels, MonthBuckets(from, from.month, upto, records));
    while Le(current, upto)
      invariant Valid(current)
      invariant MonthBuckets(from, from.month, upto, records) == Glue(dataset, labels, MonthBuckets(current, from.month, upto, records))
      decreases MaxSeconds - Seconds(current)
    {
      var total := TypedScan(records, current, ByMonth);
      if total.Failure? {
        return Failure(total.error);
      }
      var later := AddDays(current, 31);
      if later.None? {
        return Failure(Overflow);
      }
      var next := later.value;
      if next.month != from.month + 1 {
        next := FirstOfMonth(next);
      }
      assert MonthStep(current, from.month) == Some(next);
      SecondsBounds(next);
      assert MonthBuckets(current, from.month, upto, records)
        == Prepend(total.value, Iso(FirstOfMonth(current)), MonthBuckets(next, from.month, upto, records));
      GluePrepend(dataset, labels, total.value, Iso(FirstOfMonth(current)), MonthBuckets(next, from.month, upto, records));
      dataset, labels := dataset + [total.value], labels + [Iso(FirstOfMonth(current))];
      current := next;
    }
    GlueEnds(dataset, labels, Success(Series([], [])));
    return Success(Series(dataset, labels));
  }

  /** One day or month bucket's pass over the records, main.py:69-77 and
      main.py:85-96: the first unparseable date ends the call. */
  method TypedScan(records: seq<Record>, current: DateTime, grain: Grain) returns (r: Result<int, Error>)
    ensures r == TypedTotal(records, current, grain)
  {
    var total := 0;
    for k := 0 to |records|
      invariant TypedTotal(records[..k], current, grain) == Success(total)
    {
      var rec := records[k];
      assert records[..k + 1][..k] == records[..k];
      if rec.salary.Some? && rec.date.Some? && rec.salary.value.Int? && rec.date.value.Str? {
        var when := ParseIso(rec.date.value.text);
        if when.None? {
          TypedTotalFails(records, k, current, grain);
          return Failure(InvalidIsoFormat(rec.date.value.text));
        }
        if SameBucket(grain, when.value, current) {
          total := total + rec.salary.value.number;
        }
      }
    }
    assert records[..|records|] == records;
    return Success(total);
  }

  lemma GlueEnds(dataset: seq<int>, labels: seq<string>, rest: Result<Series, Error>)
    ensures Glue([], [], rest) == rest
    ensures Glue(dataset, labels, Success(Series([], []))) == Success(Series(dataset, labels))
  {
    assert dataset + [] == dataset && labels + [] == labels;
    if rest.Success? {
      assert [] + rest.value.dataset == rest.value.dataset && [] + rest.value.labels == rest.value.labels;
    }
  }

  lemma GluePrepend(dataset: seq<int>, labels: seq<string>, sum: int, stamp: string, rest: Result<Series, Error>)
    ensures Glue(dataset, labels, Prepend(sum, stamp, rest)) == Glue(dataset + [sum], labels + [stamp], rest)
  {
    if rest.Success? {
      assert dataset + ([sum] + rest.value.dataset) == dataset + [sum] + rest.value.dataset;
      assert labels + ([stamp] + rest.value.labels) == labels + [stamp] + rest.value.labels;
    }
  }

  lemma {:induction false} TypedTotalFails(recs: seq<Record>, k: nat, current: DateTime, grain: Grain)
    requires k < |recs| && TypedTotal(recs[..k], current, grain).Success?
    requires TypedShare(recs[k], current, grain).Failure?
    ensures TypedTotal(recs, current, grain) == Failure(TypedShare(recs[k], current, grain).error)
    decreases |recs|
  {
    if |recs| - 1 == k {
      assert recs[..|recs| - 1] == recs[..k];
    } else {
      assert recs[..|recs| - 1][..k] == recs[..k];
      TypedTotalFails(recs[..|recs| - 1], k, current, grain);
    }
  }
}
