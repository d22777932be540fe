# Salary aggregation: a verified model of `aggregate_salaries`

`aggregate_salaries(dt_from, dt_upto, group_type)` (main.py:24-107) is the
part of the salary bot that does the work. It reads the stored salary
documents and sums them into hour, day or month buckets between two ISO
timestamps. It returns two parallel lists: `dataset` holds the bucket sums
and `labels` holds each bucket's start as an `isoformat()` string.

The model follows the code. Each branch has its own rules:

- **hour** (main.py:43-64) uses only documents whose salary and date are
  both text. It coerces the salary with `int()`. A salary or date that does
  not parse skips only that document: the ValueError is caught and logged.
  A bucket sums the dates in the window [start, start + 1 hour).
- **day** (main.py:66-80) uses only documents with an integer salary and a
  text date. A bucket sums the dates on the bucket's calendar date. A date
  that does not parse raises ValueError out of the whole call.
- **month** (main.py:82-102) uses the same documents as day, matched on year
  and month. Each bucket is labelled with the first of its month at
  midnight. The loop steps by `timedelta(days=31)`. It then snaps back to the
  first of the month unless the new month is `dt_from.month + 1`.
- Any other `group_type` raises ValueError (main.py:104-105), but only after
  both timestamps have parsed (main.py:37-38).

The model has ten modules, one file each:

- `Wrappers` (wrappers.dfy): `Option` and `Result`.
- `Calendar` (calendar.dfy): Python's naive `datetime` in the proleptic
  Gregorian calendar, over years 1 to 9999.
  - Comparison is field by field.
  - Adding hours or days goes through day ordinals and seconds.
  - Going past 9999-12-31 is `None`. Python raises OverflowError there.
- `IsoFormat` (iso_format.dfy): `fromisoformat`, `isoformat`, `int(str)` and
  `str(int)` over a restricted grammar, with their round trips.
- `Salaries` (salaries.dfy): the documents, the result, the errors, a
  function per bucket loop, and `Aggregate` for the whole call.
  - The documents are a `seq<Record>`, read in full for every bucket.
  - `AggregateSalaries` is the program itself. It has a `while` loop per
    branch and a `for` loop per pass over the documents.
  - Its result is proved equal to `Aggregate`.
- `HourProperties`, `ScanProperties`, `DayProperties` and `MonthProperties`
  (salaries_hour.dfy, salaries_scan.dfy, salaries_day.dfy,
  salaries_month.dfy) hold what each loop computes:
  - how many buckets there are, where each starts and how it is labelled;
  - what each bucket sums;
  - which documents are skipped and which end the call;
  - how the month step moves from month to month.
- `AggregateProperties` (aggregate.dfy): the call's error outcomes, and the
  empty result.
- `MonthFindings` (month_findings.dfy): two ways the month step misses a
  calendar month, and the month loop as evidently intended (see "Findings").

A `DateTime` is proved valid wherever one is built. Every loop terminates,
measured by the seconds left before 9999-12-31T23:59:59.

One behaviour of the code is worth stating plainly. The last hour window
runs a full hour from its start even when that passes `dt_upto`. A document
dated after `dt_upto` can therefore still be counted. The model keeps this
behaviour (`HourProperties.HourBucketsShape`,
`HourProperties.HourBucketsConserve`).

## Model

| member | source | states |
|---|---|---|
| Salaries.AggregateSalaries | main.py:37-107 | The loop program returns exactly `Aggregate`: the parse errors, the group-type error, and each branch's buckets or exception |
| Salaries.Aggregate | main.py:37-107 | Whenever the call returns, `dataset` and `labels` have the same length |
| Salaries.HourLoop | main.py:43-64 | The hour `while` loop, which appends one sum and one label per start from `dt_from` while `current <= dt_upto`, computes `HourBuckets` |
| Salaries.HourScan | main.py:46-60 | One hour bucket's pass over the documents sums exactly `HourTotal`: text salary and date, both parsing, date in [start, end) |
| Salaries.HourBuckets | main.py:43-64 | Every hour bucket has one sum and one label |
| Salaries.DayLoop | main.py:66-80 | The day `while` loop computes `DayBuckets`, including the ValueError of a pass and the OverflowError of the step |
| Salaries.TypedScan | main.py:69-77 | One day or month pass sums the integer salaries with text dates in the bucket. The first unparseable date ends it with that ValueError |
| Salaries.TypedTotalFails | main.py:76 | A used document whose date does not parse, after documents that all parsed, makes the pass fail with that document's error |
| Salaries.DayBuckets | main.py:66-80 | Every day bucket has one sum and one label |
| Salaries.MonthLoop | main.py:82-102 | The month `while` loop, with the 31-day step and the conditional snap, computes `MonthBuckets` |
| Salaries.MonthBuckets | main.py:82-102 | Every month bucket has one sum and one label |
| Salaries.MonthStep | main.py:99-102 | The step overflows exactly when 31 days pass 9999-12-31. Otherwise it is a valid datetime strictly later than the current start |
| Calendar.FirstOfMonth | main.py:98 | `datetime(year, month, 1)` is midnight on the 1st of the same year and month, `day - 1` days earlier |
| Calendar.AddHour | main.py:64 | `+ timedelta(hours=1)` is one hour later in seconds, or OverflowError past 9999-12-31T23:59:59 |
| Calendar.AddHours | main.py:57 | `+ timedelta(hours=n)` is n hours later in seconds, or OverflowError |
| Calendar.AddDays | main.py:80 | `+ timedelta(days=n)` keeps the time of day and moves the day ordinal by n, or OverflowError past 9999-12-31 |
| Calendar.NextDay | main.py:80 | The next calendar day at the same time is 86400 seconds later, and fails only on 9999-12-31 |
| Calendar.LtIffSeconds | main.py:57 | Python's field-by-field `<` on datetimes is the order of the instants they name |
| Calendar.LeIffSeconds | main.py:45 | Python's field-by-field `<=` is the order of the instants |
| IsoFormat.ParseIso | main.py:37-38 | Whatever `fromisoformat` accepts is a valid datetime |
| IsoFormat.Iso | main.py:63 | `isoformat()` of a datetime without microseconds has 19 characters |
| IsoFormat.ParseIsoOfIso | main.py:63 | `fromisoformat(t.isoformat()) == t` |
| IsoFormat.IsoOfParseIso | main.py:37-38 | A 19-character timestamp with the `T` separator is the `isoformat()` of what it parses to |
| IsoFormat.IsoDiffers | main.py:63 | Different datetimes get different labels |
| IsoFormat.ParseIntLimit | main.py:54 | `int()` on a text salary accepts exactly an optional sign followed by one to 4300 digits, and reads them as their decimal value, negated after `-`. Anything else, including a longer digit string signed or not, is ValueError. Whatever it accepts, `str()` can print again |
| IsoFormat.ParseShowInt | main.py:54 | `int(str(n)) == n` for every integer `str()` can print (at most 4300 digits) |
| HourProperties.HourBucketsShape | main.py:44-64 | There are floor((upto - from) / 1h) + 1 hour buckets, or none when `dt_from > dt_upto`. Bucket i starts at `dt_from + i` hours, is labelled with its `isoformat()`, and sums the documents in [start, start + 1h). The call overflows exactly when the last window's end passes the calendar |
| HourProperties.HourWindowsDisjoint | main.py:57 | A document lies in at most one hour window |
| HourProperties.HourShareSplit | main.py:57 | What one document adds to [a, e) is what it adds to [a, b) plus what it adds to [b, e) |
| HourProperties.HourTotalSplit | main.py:46-58 | A window's total splits at any inner instant |
| HourProperties.HourTotalEmptyWindow | main.py:57 | No document is counted in an empty window |
| HourProperties.HourBucketsConserve | main.py:44-64 | The buckets together hold exactly the salaries of the usable documents dated in [from, from + n hours). Nothing is lost or counted twice |
| HourProperties.HourTotalAppend | main.py:47-58 | A bucket's total over two collections is the sum of the two totals |
| HourProperties.HourTotalSkip | main.py:51-60 | A document the hour pass cannot use leaves a bucket's total unchanged, wherever it stands |
| HourProperties.HourSkipsRecord | main.py:51-60 | An absent field, a non-text salary or date (an integer salary among them), or a salary or date that does not parse changes no hour bucket and raises nothing |
| ScanProperties.TypedTotalOutcome | main.py:69-77 | A day or month pass fails exactly when some used document's date does not parse, and only with ValueError, whichever bucket is scanned |
| ScanProperties.TypedTotalSkip | main.py:74 | A document without an integer salary and a text date changes no pass, wherever it stands |
| ScanProperties.TypedTotalByMonth | main.py:93-95 | The month pass depends only on the year and month of the bucket start |
| ScanProperties.BadDateBreaksScan | main.py:76 | A used document with an unparseable date makes every pass over a collection holding it fail with ValueError, for any bucket and either grain |
| DayProperties.DayBucketsOutcome | main.py:66-80 | The day loop succeeds exactly when there is no bucket, or all used dates parse and the day after the last bucket is in the calendar. Otherwise it fails with ValueError when a date is bad, and with OverflowError when none is |
| DayProperties.DayBucketsShape | main.py:67-80 | There are floor((upto - from) / 1 day) + 1 day buckets. Bucket i starts at `dt_from + i` days, is labelled with that start, and sums the used documents on its calendar date at any time of day |
| DayProperties.DaySkipsRecord | main.py:74 | An absent field, a text salary (even a numeric one) or a non-text date changes no day bucket |
| DayProperties.DayBadDateFails | main.py:76 | An integer salary with an unparseable text date ends the day loop with ValueError whenever there is a bucket |
| MonthProperties.MonthBucketsShape | main.py:83-98 | Bucket i is the loop's i-th start, which is not after `dt_upto`. It is labelled with the 1st of that start's month at midnight and sums the used documents of that year and month. The loop stops at the first start after `dt_upto` |
| MonthProperties.MonthBucketsOutcome | main.py:83-99 | The month loop fails only if it makes a bucket. It fails with ValueError when a used date does not parse. Otherwise its only failure is OverflowError, at a start not after `dt_upto` that cannot be stepped |
| MonthProperties.MonthSkipsRecord | main.py:91 | An absent field, a text salary or a non-text date changes no month bucket |
| MonthProperties.MonthBadDateFails | main.py:93-95 | An integer salary with an unparseable text date ends the month loop with ValueError whenever there is a bucket |
| MonthProperties.MonthStepMonths | main.py:99-102 | One step lands in the next calendar month (December to January) when day + 31 stays within this month and the next, and otherwise two months on. The start is the 1st at midnight unless its month is `dt_from.month + 1`, where it keeps the time and is 31 days on |
| MonthProperties.LaterMonth | main.py:99 | 31 days after a date is one or two months on, by the same day-count rule |
| MonthProperties.StepAdvances | main.py:99-102 | Every step moves to a later calendar month |
| MonthProperties.StepLeavesMonth | main.py:99-102 | No step stays in the current start's month |
| MonthProperties.SettledStep | main.py:99-102 | From a settled start (midnight, within the first four days, on the 1st unless in month `dt_from.month + 1`), the step goes to exactly the next calendar month and is settled again |
| MonthProperties.EarlyInNextMonth | main.py:99 | 31 days after the 1st of a month, when that is the next month, is within its first four days |
| MonthProperties.SettledAfterTwoSteps | main.py:99-102 | Whatever `dt_from` is, the third start is settled |
| MonthProperties.MonthIndexOrder | main.py:84 | Starts in datetime order are in month order |
| MonthProperties.MonthBucketsUnfold | main.py:84-102 | A start not after `dt_upto` whose pass and step succeed is one bucket, labelled with its month's 1st, in front of the buckets from the next start |
| MonthProperties.MonthCountSettled | main.py:84-102 | From a settled start there are M or M - 1 buckets for the M calendar months from the start's to `dt_upto`'s, and none when the start is after `dt_upto` |
| MonthProperties.MonthBucketsFrom | main.py:84-102 | From any `dt_from`, the third bucket on is the loop from a settled start two steps later |
| MonthProperties.MonthStartShift | main.py:99-102 | The i-th start from c is the (i - 1)-th start from c's step |
| AggregateProperties.AggregateOutcome | main.py:37-105 | An unparseable `dt_from`, then an unparseable `dt_upto`, is the call's ValueError. The group-type error happens exactly when both parse and `group_type` is not "hour", "day" or "month" |
| AggregateProperties.AggregateEmptyRange | main.py:43-98 | With a known group type, the result is two empty lists exactly when `dt_from > dt_upto` |
| MonthFindings.CorrectedAggregate | main.py:24-107 | The corrected call differs from the code only in the month branch |
| MonthFindings.CorrectedEmptyRange | main.py:43-98 | With a known group type, the corrected call returns two empty lists exactly when `dt_from > dt_upto`, as the code does |
| MonthFindings.IntendedMonthOutcome | main.py:83-102 | The corrected month loop succeeds when `dt_from > dt_upto` (the guard at main.py:84 stops it at once), and otherwise exactly when every used date parses. It fails only with ValueError |
| MonthFindings.IntendedMonthCount | main.py:84 | The corrected month loop makes no bucket when `dt_from > dt_upto`, and otherwise one per calendar month from `dt_from`'s to `dt_upto`'s |
| MonthFindings.IntendedOutcome | main.py:83-102 | The corrected loop's steps from a given month on never overflow. They fail only with ValueError, and exactly when there is a bucket to make and a used date does not parse |
| MonthFindings.IntendedCount | main.py:83-102 | The corrected loop's steps from a given month on make one bucket per calendar month from that month to `dt_upto`'s |
| MonthFindings.IntendedLabel | main.py:98 | In the corrected loop, the bucket of every month from `dt_from`'s to `dt_upto`'s sits at that month's distance and is labelled with its 1st at midnight |
| MonthFindings.IntendedTotal | main.py:91-96 | In the corrected loop, the bucket of every such month sums the used documents of that year and month |
| MonthFindings.MonthBucketsAgree | main.py:83-102 | From the 1st of a month at midnight, with `dt_upto` on or after the 4th of its month and before December 9999, the code's month loop equals the corrected one |
| MonthFindings.AgreeFrom | main.py:84-102 | Under the same conditions, from any settled start the code's loop equals the corrected loop from that start's month |
| MonthFindings.StepBeforeLastMonth | main.py:99 | A 31-day step from before December 9999 stays within the calendar |
| MonthFindings.MonthSkipsNextMonth | main.py:99-102 | When `dt_from`'s day + 31 overruns its month and the next, no bucket is labelled with the next month |
| MonthFindings.StepSkipsMonth | main.py:99-102 | The step from such a day lands two calendar months on |
| MonthFindings.IntendedNextMonth | main.py:98-102 | The corrected loop labels its second bucket with the month after `dt_from`'s whenever `dt_upto` is in that month or later |
| MonthFindings.MonthStopsEarly | main.py:84-101 | From a start in month `dt_from.month` (`dt_from` itself, or the start a year or more later), when the step lands in the next month unsnapped and `dt_upto` is in that month but earlier than the step, the loop from that start makes one bucket |
| MonthFindings.StepToNextMonth | main.py:99-101 | When day + 31 stays within the month and the next, the step lands in the next month of the same year |
| MonthFindings.LabelsAfter | main.py:98-102 | No bucket from a start on is labelled with an earlier month |

## Left out

- The Telegram bot, the token, the message handlers and polling (main.py:10-17, 110-134): network I/O and an event loop.
- The MongoDB client and `collection.find()` (main.py:19-21, 47): the collection is a `seq<Record>` parameter. The model reads it in full for every bucket and assumes it does not change during the call.
- Logging (main.py:14-15, 60): it has no effect on the result.
- JSON decoding, key extraction and error formatting in the message handler: a wrapper over library calls and the chat channel.
- IsoFormat.ParseIso: accepts only `YYYY-MM-DD` optionally followed by one separator character and `HH`, `HH:MM` or `HH:MM:SS`. Fractional seconds, UTC offsets and the other forms Python accepts are rejected, and microseconds are not modelled. As a result, aware datetimes, and the TypeError of comparing them with naive ones, do not arise.
- IsoFormat.ParseInt: accepts only an optional sign followed by ASCII digits. Surrounding whitespace, `_` separators and non-ASCII digits, which Python's `int()` allows, are rejected. It applies the 4300-digit default limit of Python 3.11 and 3.10.7 on, with leading zeros counted. Earlier Pythons have no limit, and a limit changed with `sys.set_int_max_str_digits` is not modelled.
- `bool` passing the `isinstance(..., int)` checks at main.py:74 and 91: a stored value is text, an integer or something else, and booleans are not distinguished.
- Salaries.HourLoop: computes the window end `current + 1 hour` once per bucket, before the pass. The code computes it per document (main.py:57), and only when the document is at or after the start. The outcome is the same: if that sum overflows, the step at main.py:64 raises the same OverflowError, and no result is returned either way.
- MonthProperties.MonthCountSettled: bounds the month loop's bucket count to M or M - 1 rather than giving it exactly. The exact count depends on where `dt_upto` falls against the unsnapped start; MonthFindings.MonthStopsEarly shows the short case.

## Findings

| source | as written | input that shows it | evidently intended | confidence | as-written member | corrected member |
|---|---|---|---|---|---|---|
| main.py:99-102 | The step adds 31 days and keeps the result unless it is in month `dt_from.month + 1`. From a late day of a month (day + 31 beyond that month and the next), it lands two months on and snaps to the 1st, so the month in between never gets a bucket | `dt_from` 2023-01-31T00:00:00, `dt_upto` 2023-03-15T00:00:00, `group_type` "month": the first step reaches 2023-03-03 and snaps to 2023-03-01. No label is 2023-02-01T00:00:00 | one bucket for every calendar month from `dt_from`'s to `dt_upto`'s | not executed | MonthFindings.MonthSkipsNextMonth | MonthFindings.IntendedLabel |
| main.py:101 | A start in month `dt_from.month + 1` is not snapped: it keeps the day and time of the start 31 days before it. A `dt_upto` earlier in that month ends the loop before that month gets a bucket. This comes back every year, even when `dt_from` is the 1st at midnight: the start in month `dt_from.month` of a later year is a 1st, and 31 days later is day 1 to 4 of the next month | `dt_from` 2023-01-15T00:00:00, `dt_upto` 2023-02-10T00:00:00, `group_type` "month": the second start is 2023-02-15T00:00:00, after `dt_upto`. The labels are only 2023-01-01T00:00:00. Also `dt_from` 2023-04-01T00:00:00, `dt_upto` 2024-05-01T00:00:00: the start after 2024-04-01 is 2024-05-02T00:00:00, after `dt_upto`, so no label is 2024-05-01T00:00:00 | a bucket for that month as well: February 2023, May 2024 | not executed | MonthFindings.MonthStopsEarly | MonthFindings.IntendedNextMonth |

The corrected month loop is `MonthFindings.IntendedMonthBuckets`: it keeps
the guard of main.py:84, so it makes no bucket when `dt_from` is after
`dt_upto`, and otherwise it steps by calendar month from `dt_from`'s month
to `dt_upto`'s.
`MonthFindings.CorrectedAggregate` is the whole call with that loop in place
of the code's.

`MonthFindings.MonthBucketsAgree` shows when the two loops agree. It holds
when `dt_from` is the 1st of a month at midnight and `dt_upto` is on or
after the 4th of its month, before December 9999.
