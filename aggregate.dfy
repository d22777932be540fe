/** What the whole call `aggregate_salaries(dt_from, dt_upto, group_type)`
    (main.py:24-107) returns before and around its three loops. */
module AggregateProperties {
  import opened Wrappers
  import opened Calendar
  import opened IsoFormat
  import opened Salaries
  import opened HourProperties
  import opened DayProperties
  import opened MonthProperties

  /** The timestamps are parsed first, `dt_from` before `dt_upto`, and an
      unparseable one is the call's ValueError; an unknown `group_type` is
      reported only once both parse, and no loop fails with that error. */
  lemma AggregateOutcome(dtFrom: string, dtUpto: string, groupType: string, recs: seq<Record>)
    ensures var r := Aggregate(dtFrom, dtUpto, groupType, recs);
            && (ParseIso(dtFrom).None? ==> r == Failure(InvalidIsoFormat(dtFrom)))
            && (ParseIso(dtFrom).Some? && ParseIso(dtUpto).None? ==> r == Failure(InvalidIsoFormat(dtUpto)))
            && ((r.Failure? && r.error.InvalidGroupType?) <==>
                  && ParseIso(dtFrom).Some? && ParseIso(dtUpto).Some?
                  && groupType != "hour" && groupType != "day" && groupType != "month")
  {
    if ParseIso(dtFrom).Some? && ParseIso(dtUpto).Some? {
      var from, upto := ParseIso(dtFrom).value, ParseIso(dtUpto).value;
      HourBucketsShape(from, upto, recs);
      DayBucketsOutcome(from, upto, recs);
      MonthBucketsOutcome(from, from.month, upto, recs);
    }
  }

  /** With a known `group_type` and both timestamps parsed, the result is
      two empty lists exactly when `dt_from` is later than `dt_upto`:
      otherwise the loop body runs at least once, and either appends a
      bucket or raises. */
  lemma AggregateEmptyRange(dtFrom: string, dtUpto: string, groupType: string, recs: seq<Record>)
    requires groupType == "hour" || groupType == "day" || groupType == "month"
    requires ParseIso(dtFrom).Some? && ParseIso(dtUpto).Some?
    ensures Aggregate(dtFrom, dtUpto, groupType, recs) == Success(Series([], []))
            <==> Lt(ParseIso(dtUpto).value, ParseIso(dtFrom).value)
  {
  }
}
