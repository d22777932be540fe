/** The record pass shared by the day and month branches of
    `aggregate_salaries` (main.py:69-77, 85-96): which records are summed,
    which are ignored, and which end the whole call. */
module ScanProperties {
  import opened Wrappers
  import opened Calendar
  import opened IsoFormat
  import opened Salaries

  /** Every record the day and month loops use (integer salary, text date)
      has a date `fromisoformat` accepts. */
  predicate TypedDatesParse(recs: seq<Record>) {
    forall i | 0 <= i < |recs| :: TypedEntry(recs[i]).Some? ==> ParseIso(TypedEntry(recs[i]).value.1).Some?
  }

  /** A record pass fails exactly when some used record's date does not
      parse, and then with ValueError; which bucket is scanned is irrelevant. */
  lemma {:induction false} TypedTotalOutcome(recs: seq<Record>, current: DateTime, grain: Grain)
    ensures TypedTotal(recs, current, grain).Success? <==> TypedDatesParse(recs)
    ensures TypedTotal(recs, current, grain).Failure? ==> TypedTotal(recs, current, grain).error.InvalidIsoFormat?
  {
    if recs != [] {
      var init := recs[..|recs| - 1];
      TypedTotalOutcome(init, current, grain);
      assert forall i | 0 <= i < |init| :: init[i] == recs[i];
    }
  }

  /** A record without an integer salary and a text date (a text salary
      among them) changes no record pass, wherever it stands. */
  lemma {:induction false} TypedTotalSkip(recs: seq<Record>, k: nat, rec: Record, current: DateTime, grain: Grain)
    requires k <= |recs| && TypedEntry(rec).None?
    ensures TypedTotal(recs[..k] + [rec] + recs[k..], current, grain) == TypedTotal(recs, current, grain)
    decreases |recs|
  {
    var s := recs[..k] + [rec] + recs[k..];
    if k == |recs| {
      assert s[..|s| - 1] == recs;
    } else {
      var init := recs[..|recs| - 1];
      assert s[..|s| - 1] == init[..k] + [rec] + init[k..];
      assert s[|s| - 1] == recs[|recs| - 1];
      TypedTotalSkip(init, k, rec, current, grain);
    }
  }

  /** The month pass looks only at the year and month of the bucket start. */
  lemma {:induction false} TypedTotalByMonth(recs: seq<Record>, a: DateTime, b: DateTime)
    requires a.year == b.year && a.month == b.month
    ensures TypedTotal(recs, a, ByMonth) == TypedTotal(recs, b, ByMonth)
  {
    if recs != [] {
      TypedTotalByMonth(recs[..|recs| - 1], a, b);
    }
  }

  /** A used record whose date does not parse makes every record pass over
      a collection holding it fail with ValueError. */
  lemma BadDateBreaksScan(recs: seq<Record>, k: nat, rec: Record, current: DateTime, grain: Grain)
    requires k <= |recs|
    requires rec.salary.Some? && rec.salary.value.Int? && rec.date.Some? && rec.date.value.Str?
    requires ParseIso(rec.date.value.text).None?
    ensures TypedTotal(recs[..k] + [rec] + recs[k..], current, grain).Failure?
    ensures TypedTotal(recs[..k] + [rec] + recs[k..], current, grain).error.InvalidIsoFormat?
  {
    var more := recs[..k] + [rec] + recs[k..];
    assert more[k] == rec;
    TypedTotalOutcome(more, current, grain);
  }
}
