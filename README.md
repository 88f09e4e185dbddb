# backdrop core, modelled in Dafny

Backdrop is a small read/write API for time-stamped records grouped into
data sets. This project models the parts of it that hold the logic:

- **The period calendar** (`backdrop/timeutils.py`). Five periods: hour, day,
  week, month and quarter. For each there is:
  - the bucket start of a timestamp (`start`);
  - the boundary test (`valid_start_at`, `_is_boundary`);
  - the bucket ceiling (`end`);
  - bucket enumeration (`range`, `_period_range`).

  The same file also has `parse_period` and time-series densification:
  `timeseries` builds one entry per bucket, using stored records where they
  exist and a default record with the bucket's limits elsewhere.
- **Query arguments** (`backdrop/query.py`):
  - the structural rules of `query_schema2`, which `validate_query_args` applies to the raw multi-valued arguments;
  - `parse_query_args`, which turns those arguments into a query;
  - `validate_query`: it checks the query against `query_schema`, then checks every field the query refers to against the data set's schema.
- **Record enrichment** (`backdrop/data.py`):
  - `add_fields`;
  - `add_meta_fields`, which stores one `_<period>_start_at` bucket start per period, computed from a record's `_timestamp`.
- **Result post-processing** (`backdrop/results.py`): `strip_internal_fields` and `is_period_start`.

Timestamps are civil date-times in the proleptic Gregorian calendar, always
UTC (`Calendar.DateTime`). Ordinals and weekdays use CPython's `toordinal`
and `weekday` formulas, and ordering is Python's datetime comparison. The
calendar steps are modelled as written out:

- `timedelta` of an hour, a day or seven days;
- `relativedelta(months=n)`, which clamps the day to the length of the new month;
- `relativedelta(weekday=MO(-1))`.

Records are maps from field name to a value (`Records.Value`). Anything that
raises in the source is a `None` result in the model.

A few details of the parsed query:

- `parse_query_args` keeps filter values as strings. Nothing turns `"true"` or `"false"` into booleans.
- `collect` is a dictionary from field to function, so a later item for a field replaces an earlier one.
- `start_at` and `end_at` stay strings in the query.

Python's `re` matches `$` at the end of the string and also just before a
final newline (`Queries.Chomp`). So the structural check accepts
`sort_by=f:ascending` followed by a newline, and `validate_query` then
rejects the direction that `parse_query_args` splits off
(`Queries.TrailingNewlineSlipsThrough`).

Modules: `Wrappers` (Option), `Calendar`, `Records`, `TimeUtils`, `Queries`,
`Data`, `Results`.

## Model

| member | source | states |
|---|---|---|
| Calendar.TruncateTime | backdrop/timeutils.py:163-164 | `_truncate_time` gives midnight of the same date, which is not after its input |
| Calendar.AddHour | backdrop/timeutils.py:43-46 | adding an hour gives a time exactly one hour (3600 × 10⁶ microseconds) later, with the same minute, second and microsecond |
| Calendar.AddDays | backdrop/timeutils.py:58-61 | adding `n` days moves the ordinal forward by exactly `n` and keeps the time of day |
| Calendar.AddMonths | backdrop/timeutils.py:82-85 | `relativedelta(months=n)` for 1 ≤ n ≤ 12 moves the month index (`year * 12 + month`) forward by `n`, clamps the day to the new month's length, keeps the time of day, and so gives a strictly later time |
| Calendar.BackToMonday | backdrop/timeutils.py:75-76 | `relativedelta(weekday=MO(-1))` lands on a Monday that is `weekday()` days back, at the same time of day |
| Calendar.OrdinalOrder | backdrop/timeutils.py:78-79 | two dates have equal ordinals iff they are the same date, and a smaller ordinal iff they are earlier |
| Records.Merge | backdrop/timeutils.py:159-160 | `_merge`: the keys are the union of both key sets, the second record wins on shared keys, and the first record's other values are kept |
| TimeUtils.ValidStartAt | backdrop/timeutils.py:54-109 | no contract of its own: `valid_start_at` per period (zero minutes, seconds and microseconds; midnight; Monday; day 1; day 1 of a quarter month); `TimeUtils.IsBoundary` builds on it |
| TimeUtils.IsBoundary | backdrop/timeutils.py:23-28 | no contract of its own: `_is_boundary`, `valid_start_at` plus midnight except for `Hour`, which overrides it (lines 48-49); `TimeUtils.BoundaryIffFixed` proves it holds iff `start(t) == t` |
| TimeUtils.StartAtKeyShape | backdrop/timeutils.py:19-21 | `start_at_key` is `_`, then the period name, then `_start_at` |
| TimeUtils.StartAtKeyInjective | backdrop/timeutils.py:19-21 | different periods have different `start_at_key`s |
| TimeUtils.QuarterMonth | backdrop/timeutils.py:99-104 | the quarter month is the largest of 10, 7, 4, 1 that does not exceed the month, and the month is within its quarter |
| TimeUtils.WeekStart | backdrop/timeutils.py:75-76 | the week start is a Monday at midnight, `weekday()` days before the date, and not after the timestamp |
| TimeUtils.Start | backdrop/timeutils.py:43-109 | every period's `start(t)` is not after `t` and is a boundary of that period |
| TimeUtils.AddDelta | backdrop/timeutils.py:15-17 | each period's delta moves a timestamp strictly forward |
| TimeUtils.End | backdrop/timeutils.py:30-33 | `end(t)` is a boundary not before `t`, and it equals `t` exactly when `t` is a boundary |
| TimeUtils.BoundaryFixed | backdrop/timeutils.py:23-28 | a boundary is its own start |
| TimeUtils.InBucket | backdrop/timeutils.py:15-17 | every timestamp is before `start(t) + delta` |
| TimeUtils.DeltaOfBoundary | backdrop/timeutils.py:35-40 | one delta from a boundary is again a boundary |
| TimeUtils.NextBoundary | backdrop/timeutils.py:35-40 | no boundary lies strictly between a boundary and the boundary one delta later |
| TimeUtils.DeltaCommutes | backdrop/timeutils.py:30-33 | `start(t + delta) == start(t) + delta` for every period |
| TimeUtils.BoundaryIffFixed | backdrop/timeutils.py:23-28 | `_is_boundary(t)` holds iff `start(t) == t` |
| TimeUtils.StartIdempotent | backdrop/timeutils.py:43-109 | `start(start(t)) == start(t)` |
| TimeUtils.StartIsFloor | backdrop/timeutils.py:43-109 | every boundary at or before `t` is at or before `start(t)`, so `start` is the floor |
| TimeUtils.EndOfNonBoundary | backdrop/timeutils.py:30-33 | for a non-boundary `t`, `end(t) == start(t + delta) == start(t) + delta`, and it is strictly after `t` |
| TimeUtils.EndIsCeiling | backdrop/timeutils.py:30-33 | every boundary at or after `t` is at or after `end(t)`, so `end` is the ceiling |
| TimeUtils.WeekStartIsMonday | backdrop/timeutils.py:75-79 | `Week.start(t)` is a Monday at midnight, not after `t`, and at most six days before it |
| TimeUtils.WeekStartExamples | backdrop/test_webapp.py:47-55 | 2012-12-12T12:12:12 starts the week of 2012-12-10; 2012-12-21T12:12:12 starts the week of 2012-12-17 |
| TimeUtils.QuarterStartMonth | backdrop/timeutils.py:99-106 | `Quarter.start` keeps the year, takes the largest of 10, 7, 4, 1 not above the month, and sets day 1 at midnight |
| TimeUtils.QuarterStartExample | backdrop/timeutils.py:101-106 | 2013-02-15 starts the quarter of 2013-01-01 |
| TimeUtils.BucketsShape | backdrop/timeutils.py:153-156 | for any strictly advancing step, `_period_range` is empty iff `start >= stop`; it begins at `start`; each pair is `(s, s + step)` with `s < stop`; each pair ends where the next begins; the last one reaches or passes `stop` |
| TimeUtils.BucketsEnds | backdrop/timeutils.py:153-156 | the buckets are empty iff `start >= stop`; otherwise the first starts at `start` and the last ends at or after `stop` |
| TimeUtils.BucketsEach | backdrop/timeutils.py:153-156 | every bucket is `(s, s + step)` with `s < stop` |
| TimeUtils.BucketsContiguous | backdrop/timeutils.py:153-156 | each bucket ends where the next one begins |
| TimeUtils.BucketsOnGrid | backdrop/timeutils.py:38-40 | when a step from a grid point before `stop` lands on the grid, every bucket from a grid point starts on the grid |
| TimeUtils.BucketsEndOnGrid | backdrop/timeutils.py:38-40 | when, in addition, a step from a grid point never passes the grid point `stop`, the last bucket ends exactly at `stop` |
| TimeUtils.GridTiling | backdrop/timeutils.py:38-40 | under those two conditions the buckets tile `[start, stop)`: empty iff `start >= stop`, first at `start`, last ending exactly at `stop`, contiguous, each on the grid, one step long and starting before `stop` |
| TimeUtils.DeltaOnGrid | backdrop/timeutils.py:35-40 | one period's delta from a boundary before a boundary `stop` lands on a boundary that is not after `stop` |
| TimeUtils.BoundaryTiling | backdrop/timeutils.py:35-40 | between two boundaries, the buckets of one period tile the interval, each starting at a boundary |
| TimeUtils.PeriodRange | backdrop/timeutils.py:153-156 | the `while start < stop` loop yields exactly the bucket sequence described by `Buckets` |
| TimeUtils.RangeShape | backdrop/timeutils.py:35-40 | `range(a, b)` tiles `[start(a), end(b))`: it is empty iff `start(a) >= end(b)`, begins at `start(a)`, ends exactly at `end(b)`, and its buckets are contiguous, each starting at a boundary before `end(b)` and lasting one delta |
| TimeUtils.Range | backdrop/timeutils.py:35-40 | the loop in `range` (the same loop as `_period_range`, run with the period's delta) yields exactly the buckets from `start(a)` to `end(b)` |
| TimeUtils.ParsePeriod | backdrop/timeutils.py:120-123 | `parse_period(n)` returns the period named `n`, and nothing when no period has that name |
| TimeUtils.IndexByStartAt | backdrop/timeutils.py:149-150 | no contract of its own: `_index_by_start_at`, built record by record with a later record replacing an earlier one; `TimeUtils.IndexDefined` and `TimeUtils.IndexLastWins` state its properties |
| TimeUtils.IndexDefined | backdrop/timeutils.py:149-150 | `_index_by_start_at` succeeds iff every record has a datetime `_start_at` |
| TimeUtils.IndexLastWins | backdrop/timeutils.py:149-150 | the index has one key per distinct `_start_at`, and under each key the last record with that start |
| TimeUtils.PeriodLimits | backdrop/timeutils.py:142-146 | `_period_limits` has exactly the keys `_start_at` and `_end_at`, holding the two limits |
| TimeUtils.Entry | backdrop/timeutils.py:133-138 | no contract of its own: `entry`, the indexed record for the bucket's start, else `default` merged with the bucket's limits; `TimeUtils.Series` states what it yields |
| TimeUtils.Series | backdrop/timeutils.py:131-139 | the comprehension over a bucket list succeeds iff every record has a datetime `_start_at`; it then has one entry per bucket, and entry `k` is the last record whose `_start_at` is bucket `k`'s start or, when no record has that start, `default` merged with the bucket's limits |
| TimeUtils.Timeseries | backdrop/timeutils.py:130-139 | `timeseries` fails iff some record lacks a datetime `_start_at`; otherwise it has one entry per bucket of `range(start, end)`, entry `k` being the last record starting at bucket `k`'s start or `default` merged with that bucket's limits |
| Queries.FirstColon | backdrop/query.py:128-130 | the position of the first `:`, or the length when there is none |
| Queries.SplitFirst | backdrop/query.py:128-130 | `split(":", 1)` fails iff there is no `:`; otherwise field + `:` + value is the input and the field holds no `:` |
| Queries.SplitFirstExtend | backdrop/query.py:128-130 | text added after an item with a `:` ends up in its value |
| Queries.SplitFirstOfJoin | backdrop/query.py:142-144 | only the first `:` splits: any value, even one holding `:`, comes back whole |
| Queries.ParseInt | backdrop/query.py:138-139 | no contract of its own: Python 2's `int()` as `get(type=int)` applies it, `None` where it raises; the `Queries.ParseInt…` lemmas state its behaviour |
| Queries.ParseIntSpaces | backdrop/query.py:138-139 | for every digit string and any white space before and after it (a final newline included), `int()` gives the digits' decimal value |
| Queries.ParseIntNegative | backdrop/query.py:138-139 | for every digit string `d`, `int("-" + d)` is minus the value of `d` |
| Queries.ParseIntSignThenSpace | backdrop/query.py:138-139 | for either sign, any white space after it and any digit string, `int()` gives the digits' value with that sign |
| Queries.ParseIntRefuses | backdrop/query.py:138-139 | `int()` fails on any all-white-space string (the empty one included) and on a bare `+` or `-` with any white space before it and any, possibly different, white space after it, so `limit` becomes `None` |
| Queries.ParseIntInnerSpace | backdrop/query.py:138-139 | `int()` fails on two digit strings joined by any white-space character |
| Queries.ParseIntTrailingJunk | backdrop/query.py:138-139 | `int()` fails on a digit string followed by any character that is neither a digit nor white space |
| Queries.ParseDigits | backdrop/query.py:38-42 | a `limit` that matches `^[0-9]+$` parses as its non-negative decimal value |
| Queries.ArgsConform | backdrop/query.py:6-50 | no contract of its own: the rules of `query_schema2`, as `validate_query_args` (lines 115-117) applies them; `Queries.StructuralRejections`, `Queries.ConformingArgsParse` and `Queries.ConformingArgsWellShaped` state its consequences |
| Queries.StructuralRejections | backdrop/query.py:6-50 | the structural check rejects: an unknown argument; more than one value for a single-valued argument; a period outside the five names; a bad `group_by`; a non-digit `limit`; a bad sort direction; a bad collect function; duplicate `filter_by` or `collect` items |
| Queries.DateFormatNotChecked | backdrop/query.py:115-117 | the structural check does not check the date-time format of `start_at` and `end_at` |
| Queries.Get | backdrop/query.py:122-125 | `args.get(key)` is present iff the key is, and is then its first value |
| Queries.ItemsToMapDefined | backdrop/query.py:126-130 | the `filter_by` or `collect` items make a dictionary iff every item holds a `:` |
| Queries.ItemsKeys | backdrop/query.py:126-130 | the dictionary's keys are exactly the fields named by the items |
| Queries.ItemsLastWins | backdrop/query.py:140-144 | under each key is the value of the last item that names that field |
| Queries.RepeatedFieldOverwrites | backdrop/query.py:126-130 | `a:1`, `b:2`, `a:3` give `{a: 3, b: 2}` |
| Queries.ParseQuery | backdrop/query.py:119-146 | no contract of its own: `parse_query_args` as one expression; `Queries.ParseFailure`, `Queries.ParsedEntries` and `Queries.ParseQueryArgs` state its behaviour |
| Queries.ParseFailure | backdrop/query.py:119-146 | `parse_query_args` fails iff a `filter_by` item, a `collect` item or the `sort_by` value has no `:` |
| Queries.ParsedEntries | backdrop/query.py:119-146 | each query entry is present iff its argument is; `sort_by` `f:d` becomes field `f` and direction `d` |
| Queries.ParseIgnoresUnknown | backdrop/query.py:119-146 | arguments outside the eight recognised names do not change the parsed query |
| Queries.CollectItems | backdrop/query.py:126-130 | the loop over `getlist` builds the dictionary `ItemsToMap` describes, or fails where it does |
| Queries.ParseQueryArgs | backdrop/query.py:119-146 | filling the query entry by entry gives the query `ParseQuery` describes |
| Queries.AllKnown | backdrop/query.py:160-162 | the field loop accepts iff every field is a schema property |
| Queries.WellShaped | backdrop/query.py:52-113 | no contract of its own: the rules of `query_schema` on a parsed query; `Queries.ValidateQuery` uses it and `Queries.ConformingArgsWellShaped` shows when it holds |
| Queries.ValidateQuery | backdrop/query.py:148-175 | the query is accepted iff it satisfies `query_schema`, it has no `start_at`, `end_at` or `period` when `_timestamp` is not a property, and every field it filters, groups, sorts or collects on is a property |
| Queries.ConformingArgsParse | backdrop/query.py:115-146 | arguments that pass the structural check always parse |
| Queries.ConformingFilterFields | backdrop/query.py:18-22 | after the structural check, every parsed `filter_by` field is a token |
| Queries.ConformingCollectPairs | backdrop/query.py:43-47 | after the structural check, with no newline in the `collect` items, every parsed `collect` field is a token and every function is one of the allowed ones |
| Queries.ConformingArgsWellShaped | backdrop/query.py:6-113 | arguments that pass the structural check, with no newline in the sort and collect values, parse into a query that satisfies `query_schema` |
| Queries.NewlineSortConforms | backdrop/query.py:33-37 | `sort_by` `f:ascending` plus a newline passes the structural check |
| Queries.NewlineSortParses | backdrop/query.py:140-144 | it parses to field `f` and direction `ascending` plus a newline |
| Queries.TrailingNewlineSlipsThrough | backdrop/query.py:33-37 | `sort_by` `f:ascending` plus a newline passes the structural check and parses, but fails `query_schema` |
| Data.AddFields | backdrop/data.py:68-75 | no contract of its own: `add_fields` is `Records.Merge` of the record and the keyword fields, whose contract states the result |
| Data.AddFieldsExamples | backdrop/data.py:68-75 | `add_fields({}, foo="bar")` is `{foo: bar}`; `add_fields({foo: foo}, foo="bar")` is `{foo: bar}` |
| Data.MetaKeysAreStartKeys | backdrop/data.py:53-58 | the five added keys are `_hour_start_at`, `_day_start_at`, `_week_start_at`, `_month_start_at` and `_quarter_start_at`: the periods' `start_at_key`s, all different |
| Data.WithStartsKeys | backdrop/data.py:60-64 | after the loop over some periods, the keys are the record's keys plus those periods' `start_at_key`s |
| Data.WithStartsValues | backdrop/data.py:60-64 | after the loop, each period's key holds its stamp, and every other key keeps its value |
| Data.AddMetaFields | backdrop/data.py:53-65 | the loop over `PERIODS` computes `WithMetaFields`, and fails on a `_timestamp` that is not a datetime |
| Data.WithMetaFields | backdrop/data.py:53-65 | `add_meta_fields` fails iff the record has a `_timestamp` that is not a datetime |
| Data.MetaFieldsWithoutTimestamp | backdrop/data.py:59-65 | a record without `_timestamp` comes back unchanged |
| Data.MetaFieldsAdded | backdrop/data.py:59-64 | with a datetime `_timestamp`, exactly the five meta keys are added; each holds `period.start(_timestamp)`; every other key keeps its value, `_timestamp` included |
| Data.MetaFieldsIdempotent | backdrop/data.py:60-64 | adding the meta fields twice gives the same record as adding them once |
| Results.IsPeriodStart | backdrop/results.py:5-6 | no contract of its own: `is_period_start`, a leading `_` and a trailing `_start_at`; `Results.IsPeriodStartExamples` and `Results.MetaKeysArePeriodStarts` state what it accepts |
| Results.StripInternalFields | backdrop/results.py:2-3 | a key is kept iff it is in the input and is not a period start, and kept keys keep their values |
| Results.IsPeriodStartExamples | backdrop/results.py:5-6 | `_start_at` is a period start; `_end_at`, `_count`, `_timestamp` and `x_start_at` are not |
| Results.StartAtKeyIsPeriodStart | backdrop/results.py:5-6 | every `start_at_key` is a period start |
| Results.MetaKeysArePeriodStarts | backdrop/results.py:5-6 | every key `add_meta_fields` adds is a period start |
| Results.StripIdempotent | backdrop/results.py:2-3 | stripping twice gives the same result as stripping once |
| Results.StripUndoesAdded | backdrop/results.py:2-6 | stripping a record that holds another record's fields plus the meta keys gives that other record back, when none of its fields is a period start |
| Results.StripUndoesMetaFields | backdrop/results.py:2-6 | for a record with no period-start key, `strip_internal_fields(add_meta_fields(r)) == r` |

## Left out

- HTTP layer (`backdrop/webapp.py`), data set catalogue (`backdrop/models.py`) and storage (`backdrop/storage/`): I/O and external services. The storage `query` has no body, so there is no grouping or aggregation code to model.
- `parse_time_as_utc`, `as_utc`, `parse_values`, `validate_record` and `create_record_parser`: time-string parsing, time-zone conversion and JSON Schema validation of records. These sit in libraries that are not part of this model, so timestamps arrive already parsed as UTC `Calendar.DateTime` values.
- `_time_to_index`: it uses `time.mktime`, which reads the time as local time and returns whole seconds as a float. The model keys the index by the exact bucket start instead.
- `TimeUtils.Range`: the `replace(tzinfo=pytz.UTC)` in `range` is not modelled. All timestamps are UTC, so it changes nothing.
- Calendar range: years are unbounded. Python's 1–9999 limit, and the `OverflowError` or `ValueError` past it, are not modelled.
- Generators: `range` and `_period_range` return the whole sequence instead of yielding lazily. `_period_range` takes any strictly advancing step function, which every positive `timedelta` is; a zero or negative delta, which would make the loop run forever or yield nothing, is not modelled.
- Error kinds: a `ValidationError`, a bare `raise` (a `TypeError` in Python 2) and a `ValueError` from unpacking are all modelled as the same rejection or `None`.
- `Queries.ParseInt`: non-ASCII digits and Unicode white space, which Python 2's `int()` also accepts, are not modelled.
- `jsonschema` itself: only the rules `query_schema2` and `query_schema` state are modelled, as predicates, and `format` is never checked. The `type: string` and `type: object` rules always hold for the typed query.
- Record values: only datetimes are interpreted. Floats and nested structures are left out.
- Dictionary order: Python 2 dictionary iteration order does not matter for any result here. Maps are unordered in the model.
