/**
 * The period calendar of `backdrop/timeutils.py`: five bucket granularities,
 * the floor (`start`) and ceiling (`end`) of a timestamp, bucket enumeration
 * (`range`, `_period_range`) and time-series densification (`timeseries`).
 */
module TimeUtils {
  import opened Wrappers
  import opened Calendar
  import opened Records

  datatype Period = Hour | Day | Week | Month | Quarter

  /** `PERIODS`, in the source's order. */
  const Periods: seq<Period> := [Hour, Day, Week, Month, Quarter]

  /** `Quarter.quarter_starts`, searched in this order by `Quarter.start`. */
  const QuarterStarts: seq<int> := [10, 7, 4, 1]

  function Name(p: Period): string {
    match p
    case Hour => "hour"
    case Day => "day"
    case Week => "week"
    case Month => "month"
    case Quarter => "quarter"
  }

  /** `start_at_key`: the record field that holds the bucket start for `p`. */
  function StartAtKey(p: Period): string {
    "_" + Name(p) + "_start_at"
  }

  /** The key is the period's name between a leading `_` and `_start_at`. */
  lemma StartAtKeyShape(p: Period)
    ensures var k := StartAtKey(p);
      && |k| == |Name(p)| + 10
      && k[..1] == "_" && k[|k| - 9..] == "_start_at"
      && k[1..|k| - 9] == Name(p)
  {
    var k := StartAtKey(p);
    assert k[1..|k| - 9] == Name(p);
  }

  /** Different periods keep their bucket starts under different keys. */
  lemma StartAtKeyInjective(p: Period, q: Period)
    requires StartAtKey(p) == StartAtKey(q)
    ensures p == q
  {
    var k := StartAtKey(p);
    StartAtKeyShape(p);
    StartAtKeyShape(q);
    assert Name(p) == k[1..|k| - 9] == Name(q);
  }

  // ---------------------------------------------------------------------------
  // Boundaries.

  /** `valid_start_at` of each period class. */
  predicate ValidStartAt(p: Period, t: DateTime) {
    match p
    case Hour => t.minute == 0 && t.second == 0 && t.microsecond == 0
    case Day => IsMidnight(t)
    case Week => Weekday(t) == 0
    case Month => t.day == 1
    case Quarter => t.day == 1 && t.month in QuarterStarts
  }

  /**
   * `_is_boundary`: `Hour` overrides it; the others also demand midnight
   * (`_is_start_of_day`).
   */
  predicate IsBoundary(p: Period, t: DateTime) {
    if p == Hour then ValidStartAt(p, t) else ValidStartAt(p, t) && IsMidnight(t)
  }

  /**
   * The month `Quarter.start` picks: the first of 10, 7, 4, 1 that does not
   * exceed `m`.
   */
  function QuarterMonth(m: int): (q: int)
    requires 1 <= m <= 12
    ensures q in QuarterStarts && q <= m < q + 3
    ensures forall s :: s in QuarterStarts && s <= m ==> s <= q
  {
    if m >= 10 then 10 else if m >= 7 then 7 else if m >= 4 then 4 else 1
  }

  // ---------------------------------------------------------------------------
  // start, the bucket step, end.

  /** Week start: midnight of the Monday on or before the date. */
  function WeekStart(t: DateTime): (s: DateTime)
    ensures Weekday(s) == 0 && IsMidnight(s)
    ensures Ordinal(s) == Ordinal(t) - Weekday(t)
    ensures NotAfter(s, t)
  {
    var d := TruncateTime(t);
    var s := BackToMonday(d);
    assert NotAfter(s, t) by {
      if Weekday(t) == 0 {
        SameClockOrder(s, d);
      } else {
        LaterDate(s, t);
      }
    }
    s
  }

  /** `start` of each period class: floor `t` to its bucket. */
  function Start(p: Period, t: DateTime): (s: DateTime)
    ensures NotAfter(s, t) && IsBoundary(p, s)
  {
    match p
    case Hour => t.(minute := 0, second := 0, microsecond := 0)
    case Day => TruncateTime(t)
    case Week => WeekStart(t)
    case Month => t.(day := 1, hour := 0, minute := 0, second := 0, microsecond := 0)
    case Quarter =>
      t.(month := QuarterMonth(t.month), day := 1, hour := 0, minute := 0, second := 0, microsecond := 0)
  }

  /** `t + period.delta`: one hour, one day, seven days, one month, three months. */
  function AddDelta(p: Period, t: DateTime): (r: DateTime)
    ensures Before(t, r)
  {
    match p
    case Hour => AddHour(t)
    case Day => LaterDate(t, AddDays(t, 1)); AddDays(t, 1)
    case Week => LaterDate(t, AddDays(t, 7)); AddDays(t, 7)
    case Month => AddMonths(t, 1)
    case Quarter => AddMonths(t, 3)
  }

  /** `end`: a boundary is its own end; otherwise the start of the next bucket. */
  function End(p: Period, t: DateTime): (e: DateTime)
    ensures IsBoundary(p, e) && NotAfter(t, e)
    ensures e == t <==> IsBoundary(p, t)
  {
    if IsBoundary(p, t) then t
    else
      DeltaCommutes(p, t);
      InBucket(p, t);
      DeltaOfBoundary(p, Start(p, t));
      Start(p, AddDelta(p, t))
  }

  // ---------------------------------------------------------------------------
  // Per-period facts.

  /** A boundary is its own start. */
  lemma BoundaryFixed(p: Period, t: DateTime)
    requires IsBoundary(p, t)
    ensures Start(p, t) == t
  {
    if p == Week {
      SameClockOrder(WeekStart(t), t);
    }
  }

  /** Every timestamp lies before the end of its own bucket. */
  lemma InBucket(p: Period, t: DateTime)
    ensures Before(t, AddDelta(p, Start(p, t)))
  {
    match p
    case Hour =>
      var s := Start(p, t);
      if t.hour == 23 {
        LaterDate(t, AddDelta(p, s));
      }
    case Day => LaterDate(t, AddDelta(p, Start(p, t)));
    case Week => LaterDate(t, AddDelta(p, Start(p, t)));
    case Month =>
    case Quarter =>
  }

  /** One step from a boundary lands on a boundary. */
  lemma DeltaOfBoundary(p: Period, s: DateTime)
    requires IsBoundary(p, s)
    ensures IsBoundary(p, AddDelta(p, s))
  {
    match p
    case Hour =>
    case Day =>
    case Week => WeekDeltaOfBoundary(s);
    case Month =>
    case Quarter =>
  }

  lemma WeekDeltaOfBoundary(s: DateTime)
    requires IsBoundary(Week, s)
    ensures IsBoundary(Week, AddDays(s, 7))
  {
    WeekdayAfterWeek(s);
  }

  lemma SameResidueGap(x: int, y: int)
    requires x % 7 == y % 7 && x < y
    ensures x + 7 <= y
  {
    assert x == 7 * (x / 7) + x % 7;
    assert y == 7 * (y / 7) + y % 7;
  }

  /** No boundary lies strictly inside a bucket that starts at a boundary. */
  lemma NextBoundary(p: Period, s: DateTime, b: DateTime)
    requires IsBoundary(p, s) && IsBoundary(p, b) && Before(s, b)
    ensures NotAfter(AddDelta(p, s), b)
  {
    match p
    case Hour => HourNextBoundary(s, b);
    case Day => DayNextBoundary(s, b);
    case Week => WeekNextBoundary(s, b);
    case Month =>
    case Quarter =>
  }

  lemma HourNextBoundary(s: DateTime, b: DateTime)
    requires IsBoundary(Hour, s) && IsBoundary(Hour, b) && Before(s, b)
    ensures NotAfter(AddHour(s), b)
  {
    if DateBefore(s, b) && s.hour == 23 {
      var n := AddHour(s);
      OrdinalOrder(s, b);
      OrdinalOrder(n, b);
    }
  }

  lemma DayNextBoundary(s: DateTime, b: DateTime)
    requires IsBoundary(Day, s) && IsBoundary(Day, b) && Before(s, b)
    ensures NotAfter(AddDays(s, 1), b)
  {
    OrdinalOrder(s, b);
    SameClockOrder(AddDays(s, 1), b);
  }

  lemma WeekNextBoundary(s: DateTime, b: DateTime)
    requires IsBoundary(Week, s) && IsBoundary(Week, b) && Before(s, b)
    ensures NotAfter(AddDays(s, 7), b)
  {
    OrdinalOrder(s, b);
    SameResidueGap(Ordinal(s) + 6, Ordinal(b) + 6);
    SameClockOrder(AddDays(s, 7), b);
  }

  /** The step commutes with the floor. */
  lemma DeltaCommutes(p: Period, t: DateTime)
    ensures Start(p, AddDelta(p, t)) == AddDelta(p, Start(p, t))
  {
    match p
    case Hour => HourDeltaCommutes(t);
    case Day => OrdinalOrder(AddDays(t, 1), AddDays(Start(p, t), 1));
    case Week => WeekDeltaCommutes(t);
    case Month =>
    case Quarter =>
  }

  lemma HourDeltaCommutes(t: DateTime)
    ensures Start(Hour, AddHour(t)) == AddHour(Start(Hour, t))
  {
    if t.hour == 23 {
      OrdinalOrder(NextDay(t), NextDay(Start(Hour, t)));
    }
  }

  lemma WeekDeltaCommutes(t: DateTime)
    ensures WeekStart(AddDays(t, 7)) == AddDays(WeekStart(t), 7)
  {
    var a := WeekStart(AddDays(t, 7));
    var b := AddDays(WeekStart(t), 7);
    WeekdayAfterWeek(t);
    SameClockOrder(a, b);
  }

  // ---------------------------------------------------------------------------
  // What start and end mean.

  /** `_is_boundary(t)` holds exactly when `t` is its own start. */
  lemma BoundaryIffFixed(p: Period, t: DateTime)
    ensures IsBoundary(p, t) <==> Start(p, t) == t
  {
    if IsBoundary(p, t) {
      BoundaryFixed(p, t);
    }
  }

  /** `start` is idempotent. */
  lemma StartIdempotent(p: Period, t: DateTime)
    ensures Start(p, Start(p, t)) == Start(p, t)
  {
    BoundaryFixed(p, Start(p, t));
  }

  /** `start(t)` is the latest boundary at or before `t`. */
  lemma StartIsFloor(p: Period, t: DateTime, b: DateTime)
    requires IsBoundary(p, b) && NotAfter(b, t)
    ensures NotAfter(b, Start(p, t))
  {
    var s := Start(p, t);
    BeforeTotal(b, s);
    if Before(s, b) {
      NextBoundary(p, s, b);
      InBucket(p, t);
      BeforeTotal(t, AddDelta(p, s));
      assert false;
    }
  }

  /**
   * For a timestamp that is not a boundary, `end` is the start of the next
   * bucket: both `start(t + delta)` and `start(t) + delta`, strictly after `t`.
   */
  lemma EndOfNonBoundary(p: Period, t: DateTime)
    requires !IsBoundary(p, t)
    ensures End(p, t) == Start(p, AddDelta(p, t)) == AddDelta(p, Start(p, t))
    ensures Before(t, End(p, t))
  {
    DeltaCommutes(p, t);
  }

  /** `end(t)` is the earliest boundary at or after `t`. */
  lemma EndIsCeiling(p: Period, t: DateTime, b: DateTime)
    requires IsBoundary(p, b) && NotAfter(t, b)
    ensures NotAfter(End(p, t), b)
  {
    if !IsBoundary(p, t) {
      var s := Start(p, t);
      DeltaCommutes(p, t);
      BeforeTotal(s, t);
      NextBoundary(p, s, b);
    }
  }

  /**
   * `Week.start` is midnight of a Monday, at most six days before `t`.
   */
  lemma WeekStartIsMonday(t: DateTime)
    ensures var s := Start(Week, t);
      && Weekday(s) == 0 && IsMidnight(s) && NotAfter(s, t)
      && Ordinal(t) - 6 <= Ordinal(s) <= Ordinal(t)
  {
  }

  lemma WeekStartExamples()
    ensures Start(Week, Civil(2012, 12, 12, 12, 12, 12, 0)) == Civil(2012, 12, 10, 0, 0, 0, 0)
    ensures Start(Week, Civil(2012, 12, 21, 12, 12, 12, 0)) == Civil(2012, 12, 17, 0, 0, 0, 0)
  {
    var a: DateTime := Civil(2012, 12, 12, 12, 12, 12, 0);
    var b: DateTime := Civil(2012, 12, 21, 12, 12, 12, 0);
    assert Weekday(a) == 2;
    assert Weekday(b) == 4;
    SameClockOrder(WeekStart(a), Civil(2012, 12, 10, 0, 0, 0, 0));
    SameClockOrder(WeekStart(b), Civil(2012, 12, 17, 0, 0, 0, 0));
  }

  /**
   * `Quarter.start` keeps the year, takes the largest of 10, 7, 4, 1 not
   * exceeding the month, and sets day 1 at midnight.
   */
  lemma QuarterStartMonth(t: DateTime)
    ensures var s := Start(Quarter, t);
      && s.year == t.year && s.month in QuarterStarts && s.month <= t.month
      && (forall q :: q in QuarterStarts && q <= t.month ==> q <= s.month)
      && s.day == 1 && IsMidnight(s)
  {
  }

  lemma QuarterStartExample()
    ensures Start(Quarter, Civil(2013, 2, 15, 0, 0, 0, 0)) == Civil(2013, 1, 1, 0, 0, 0, 0)
  {
  }

  // ---------------------------------------------------------------------------
  // Bucket enumeration.

  /** Adding a positive delta: every date-time moves strictly forward. */
  type Step = f: DateTime -> DateTime | forall t :: Before(t, f(t)) witness AddHour

  /** `t + period.delta`, as a step. */
  function Delta(p: Period): Step {
    t => AddDelta(p, t)
  }

  /**
   * `_period_range(start, stop, delta)`: the pairs `(s, s + delta)` for `s`
   * stepping from `start` while `s < stop`.
   */
  function Buckets(step: Step, start: DateTime, stop: DateTime): (r: seq<(DateTime, DateTime)>)
    decreases Instant(stop) - Instant(start)
  {
    if Before(start, stop) then
      var next := step(start);
      InstantOrder(start, stop);
      InstantOrder(start, next);
      [(start, next)] + Buckets(step, next, stop)
    else
      []
  }

  /**
   * The buckets run from `start` until the first step that reaches `stop`;
   * each is one step long, each starts before `stop`, and each ends where
   * the next begins.
   */
  lemma BucketsShape(step: Step, start: DateTime, stop: DateTime)
    ensures var r := Buckets(step, start, stop);
      && (|r| == 0 <==> !Before(start, stop))
      && (|r| > 0 ==> r[0].0 == start && !Before(r[|r| - 1].1, stop))
      && (forall i :: 0 <= i < |r| ==> r[i].1 == step(r[i].0) && Before(r[i].0, stop))
      && (forall i, j :: 0 <= i && j == i + 1 < |r| ==> r[i].1 == r[j].0)
  {
    BucketsEnds(step, start, stop);
    BucketsEach(step, start, stop);
    BucketsContiguous(step, start, stop);
  }

  /** The buckets are empty exactly when `start` is not before `stop`; the last ends at or after `stop`. */
  lemma {:induction false} BucketsEnds(step: Step, start: DateTime, stop: DateTime)
    ensures var r := Buckets(step, start, stop);
      && (|r| == 0 <==> !Before(start, stop))
      && (|r| > 0 ==> r[0].0 == start && !Before(r[|r| - 1].1, stop))
    decreases |Buckets(step, start, stop)|
  {
    if Before(start, stop) {
      var next := step(start);
      BucketsStep(step, start, stop);
      BucketsEnds(step, next, stop);
    }
  }

  /** Each bucket is one step long and starts before `stop`. */
  lemma {:induction false} BucketsEach(step: Step, start: DateTime, stop: DateTime)
    ensures var r := Buckets(step, start, stop);
      forall i :: 0 <= i < |r| ==> r[i].1 == step(r[i].0) && Before(r[i].0, stop)
    decreases |Buckets(step, start, stop)|
  {
    if Before(start, stop) {
      var next := step(start);
      BucketsStep(step, start, stop);
      BucketsEach(step, next, stop);
      ConsIndex((start, next), Buckets(step, next, stop));
    }
  }

  /** Each bucket ends where the next begins. */
  lemma {:induction false} BucketsContiguous(step: Step, start: DateTime, stop: DateTime)
    ensures var r := Buckets(step, start, stop);
      forall i, j :: 0 <= i && j == i + 1 < |r| ==> r[i].1 == r[j].0
    decreases |Buckets(step, start, stop)|
  {
    if Before(start, stop) {
      var next := step(start);
      BucketsStep(step, start, stop);
      BucketsContiguous(step, next, stop);
      BucketsEnds(step, next, stop);
      ConsIndex((start, next), Buckets(step, next, stop));
    }
  }

  /** The elements after the head of `[x] + s` are those of `s`. */
  lemma ConsIndex<T>(x: T, s: seq<T>)
    ensures forall i :: 1 <= i < |[x] + s| ==> ([x] + s)[i] == s[i - 1]
  {
  }

  /** One step of `_period_range`: the first bucket, then the buckets from its end. */
  lemma BucketsStep(step: Step, start: DateTime, stop: DateTime)
    requires Before(start, stop)
    ensures Buckets(step, start, stop) == [(start, step(start))] + Buckets(step, step(start), stop)
  {
  }

  /** No bucket starts at or after `stop`. */
  lemma BucketsDone(step: Step, s: DateTime, stop: DateTime)
    requires !Before(s, stop)
    ensures Buckets(step, s, stop) == []
  {
  }

  /** The invariant of the bucket loops survives emitting one bucket, and fewer buckets remain. */
  lemma BucketsAppend(step: Step, first: DateTime, s: DateTime, stop: DateTime, r: seq<(DateTime, DateTime)>)
    requires Before(s, stop)
    requires r + Buckets(step, s, stop) == Buckets(step, first, stop)
    ensures (r + [(s, step(s))]) + Buckets(step, step(s), stop) == Buckets(step, first, stop)
    ensures |Buckets(step, step(s), stop)| < |Buckets(step, s, stop)|
  {
    var next := step(s);
    BucketsStep(step, s, stop);
    AppendCons(r, (s, next), Buckets(step, next, stop));
  }

  lemma AppendCons<T>(r: seq<T>, x: T, s: seq<T>)
    ensures (r + [x]) + s == r + ([x] + s)
  {
  }

  /**
   * When each step from a grid point before `stop` lands on the grid, every
   * bucket from a grid point starts on the grid.
   */
  lemma {:induction false} BucketsOnGrid(step: Step, onGrid: DateTime -> bool, start: DateTime, stop: DateTime)
    requires onGrid(start)
    requires forall t {:trigger step(t)} :: onGrid(t) && Before(t, stop) ==> onGrid(step(t))
    ensures var r := Buckets(step, start, stop);
      forall i :: 0 <= i < |r| ==> onGrid(r[i].0)
    decreases |Buckets(step, start, stop)|
  {
    if Before(start, stop) {
      var next := step(start);
      BucketsStep(step, start, stop);
      BucketsOnGrid(step, onGrid, next, stop);
      ConsIndex((start, next), Buckets(step, next, stop));
    }
  }

  /**
   * When, moreover, no step from a grid point passes `stop`, the last bucket
   * ends exactly at `stop`.
   */
  lemma BucketsEndOnGrid(step: Step, onGrid: DateTime -> bool, start: DateTime, stop: DateTime)
    requires onGrid(start)
    requires forall t {:trigger step(t)} :: onGrid(t) && Before(t, stop) ==> onGrid(step(t))
    requires forall t {:trigger step(t)} :: onGrid(t) && Before(t, stop) ==> NotAfter(step(t), stop)
    ensures var r := Buckets(step, start, stop);
      |r| > 0 ==> r[|r| - 1].1 == stop
  {
    var r := Buckets(step, start, stop);
    if |r| > 0 {
      BucketsOnGrid(step, onGrid, start, stop);
      BucketsEnds(step, start, stop);
      BucketsEach(step, start, stop);
      var x := r[|r| - 1].0;
      assert onGrid(x) && Before(x, stop) && r[|r| - 1].1 == step(x);
    }
  }

  /** The boundaries of a period, as a test on date-times. */
  function Grid(p: Period): DateTime -> bool {
    (t: DateTime) => IsBoundary(p, t)
  }

  /** From a boundary before a boundary `stop`, one period lands on a boundary no later than `stop`. */
  lemma DeltaOnGrid(p: Period, stop: DateTime)
    requires Grid(p)(stop)
    ensures forall t {:trigger Delta(p)(t)} :: Grid(p)(t) && Before(t, stop) ==> Grid(p)(Delta(p)(t))
    ensures forall t {:trigger Delta(p)(t)} :: Grid(p)(t) && Before(t, stop) ==> NotAfter(Delta(p)(t), stop)
  {
    forall t | IsBoundary(p, t) && Before(t, stop)
      ensures IsBoundary(p, Delta(p)(t)) && NotAfter(Delta(p)(t), stop)
    {
      DeltaOfBoundary(p, t);
      NextBoundary(p, t, stop);
    }
  }

  /**
   * `r` tiles `[start, stop)` in steps of `step` from points of the grid: it
   * is empty exactly when `start` is not before `stop`, otherwise it starts at
   * `start` and ends exactly at `stop`; every bucket starts on the grid and
   * before `stop`, is one step long, and ends where the next begins.
   */
  ghost predicate Tiles(r: seq<(DateTime, DateTime)>, step: Step, onGrid: DateTime -> bool, start: DateTime, stop: DateTime) {
    && (|r| == 0 <==> !Before(start, stop))
    && (|r| > 0 ==> r[0].0 == start && r[|r| - 1].1 == stop)
    && (forall i :: 0 <= i < |r| ==> onGrid(r[i].0))
    && (forall i :: 0 <= i < |r| ==> r[i].1 == step(r[i].0) && Before(r[i].0, stop))
    && (forall i, j :: 0 <= i && j == i + 1 < |r| ==> r[i].1 == r[j].0)
  }

  /**
   * When the step keeps grid points on the grid and never overshoots a grid
   * point `stop`, the buckets from a grid point tile `[start, stop)`.
   */
  lemma GridTiling(step: Step, onGrid: DateTime -> bool, start: DateTime, stop: DateTime)
    requires onGrid(start)
    requires forall t {:trigger step(t)} :: onGrid(t) && Before(t, stop) ==> onGrid(step(t))
    requires forall t {:trigger step(t)} :: onGrid(t) && Before(t, stop) ==> NotAfter(step(t), stop)
    ensures Tiles(Buckets(step, start, stop), step, onGrid, start, stop)
  {
    BucketsEnds(step, start, stop);
    BucketsOnGrid(step, onGrid, start, stop);
    BucketsEndOnGrid(step, onGrid, start, stop);
    BucketsEach(step, start, stop);
    BucketsContiguous(step, start, stop);
  }

  /**
   * The buckets of `range(start, end)` tile `[start(start), end(end))`: each
   * starts at a boundary and lasts one period.
   */
  lemma RangeShape(p: Period, start: DateTime, end: DateTime)
    ensures Tiles(Buckets(Delta(p), Start(p, start), End(p, end)), Delta(p), Grid(p), Start(p, start), End(p, end))
  {
    BoundaryTiling(p, Start(p, start), End(p, end));
  }

  /** Between two boundaries, the buckets of one period each tile the interval. */
  lemma BoundaryTiling(p: Period, first: DateTime, stop: DateTime)
    requires IsBoundary(p, first) && IsBoundary(p, stop)
    ensures Tiles(Buckets(Delta(p), first, stop), Delta(p), Grid(p), first, stop)
  {
    assert Grid(p)(first) && Grid(p)(stop);
    DeltaOnGrid(p, stop);
    GridTiling(Delta(p), Grid(p), first, stop);
  }

  /**
   * `range(start, end)`: the buckets from `start(start)` up to `end(end)`.
   * Its loop is the loop of `_period_range`, stepping by the period's delta.
   */
  method Range(p: Period, start: DateTime, end: DateTime) returns (r: seq<(DateTime, DateTime)>)
    ensures r == Buckets(Delta(p), Start(p, start), End(p, end))
  {
    r := PeriodRange(Start(p, start), End(p, end), Delta(p));
  }

  /** `_period_range(start, stop, delta)`, the delta given as the step it takes. */
  method PeriodRange(start: DateTime, stop: DateTime, step: Step) returns (r: seq<(DateTime, DateTime)>)
    ensures r == Buckets(step, start, stop)
  {
    var s := start;
    r := [];
    while Before(s, stop)
      invariant r + Buckets(step, s, stop) == Buckets(step, start, stop)
      decreases |Buckets(step, s, stop)|
    {
      var next := step(s);
      BucketsAppend(step, start, s, stop, r);
      r := r + [(s, next)];
      s := next;
    }
    BucketsDone(step, s, stop);
  }

  // ---------------------------------------------------------------------------
  // parse_period.

  /** `parse_period`: the period with that name, or nothing. */
  method ParsePeriod(name: string) returns (r: Option<Period>)
    ensures forall p :: r == Some(p) <==> Name(p) == name
  {
    for i := 0 to |Periods|
      invariant forall j :: 0 <= j < i ==> Name(Periods[j]) != name
    {
      if Name(Periods[i]) == name {
        return Some(Periods[i]);
      }
    }
    assert forall p :: Name(p) != name by {
      assert Name(Periods[0]) != name && Name(Periods[1]) != name && Name(Periods[2]) != name;
      assert Name(Periods[3]) != name && Name(Periods[4]) != name;
    }
    return None;
  }

  // ---------------------------------------------------------------------------
  // timeseries.

  /** The bucket start a result record carries, if it is a timestamp. */
  function StartAtOf(d: Record): Option<DateTime> {
    if "_start_at" in d && d["_start_at"].Timestamp? then Some(d["_start_at"].at) else None
  }

  /** `data[i]` is the last record of `data` whose `_start_at` is `t`. */
  ghost predicate IsLastWith(data: seq<Record>, i: int, t: DateTime) {
    && 0 <= i < |data|
    && StartAtOf(data[i]) == Some(t)
    && forall j :: i < j < |data| ==> StartAtOf(data[j]) != Some(t)
  }

  /** Every record of `data` carries a timestamp `_start_at`. */
  predicate AllStamped(data: seq<Record>) {
    forall i :: 0 <= i < |data| ==> StartAtOf(data[i]).Some?
  }

  /**
   * `_index_by_start_at`: records keyed by their `_start_at`, a later record
   * replacing an earlier one with the same key.  A record without a timestamp
   * `_start_at` raises in the source.
   */
  function IndexByStartAt(data: seq<Record>): (r: Option<map<DateTime, Record>>)
    decreases |data|
  {
    if data == [] then Some(map[])
    else
      match IndexByStartAt(data[..|data| - 1])
      case None => None
      case Some(index) =>
        match StartAtOf(data[|data| - 1])
        case None => None
        case Some(t) => Some(index[t := data[|data| - 1]])
  }

  /** The index exists exactly when every record carries a timestamp `_start_at`. */
  lemma {:induction false} IndexDefined(data: seq<Record>)
    ensures IndexByStartAt(data).Some? <==> AllStamped(data)
    decreases |data|
  {
    if data != [] {
      var init := data[..|data| - 1];
      IndexDefined(init);
      assert forall i :: 0 <= i < |init| ==> init[i] == data[i];
      if AllStamped(data) {
        assert AllStamped(init);
      } else if AllStamped(init) {
        assert StartAtOf(data[|data| - 1]).None?;
      }
    }
  }

  /**
   * The index has one key per distinct `_start_at`, and under each key the
   * last record that carries it.
   */
  lemma {:induction false} IndexLastWins(data: seq<Record>)
    requires IndexByStartAt(data).Some?
    ensures var index := IndexByStartAt(data).value;
      && (forall t :: t in index <==> exists i :: 0 <= i < |data| && StartAtOf(data[i]) == Some(t))
      && (forall t :: t in index ==> exists i :: IsLastWith(data, i, t) && index[t] == data[i])
    decreases |data|
  {
    if data != [] {
      var init := data[..|data| - 1];
      var last := data[|data| - 1];
      IndexLastWins(init);
      var index := IndexByStartAt(init).value;
      var t := StartAtOf(last).value;
      var r := index[t := last];
      assert IndexByStartAt(data).value == r;
      assert forall i :: 0 <= i < |init| ==> init[i] == data[i];
      forall u | u in r
        ensures exists i :: IsLastWith(data, i, u) && r[u] == data[i]
      {
        if u == t {
          assert IsLastWith(data, |data| - 1, u);
        } else {
          var i :| IsLastWith(init, i, u) && index[u] == init[i];
          assert IsLastWith(data, i, u);
        }
      }
      forall u | exists i :: 0 <= i < |data| && StartAtOf(data[i]) == Some(u)
        ensures u in r
      {
        var i :| 0 <= i < |data| && StartAtOf(data[i]) == Some(u);
        if i < |init| {
          assert StartAtOf(init[i]) == Some(u);
        }
      }
    }
  }

  /** `_period_limits`. */
  function PeriodLimits(start: DateTime, end: DateTime): (r: Record)
    ensures r.Keys == {"_start_at", "_end_at"}
    ensures r["_start_at"] == Timestamp(start) && r["_end_at"] == Timestamp(end)
  {
    map["_start_at" := Timestamp(start), "_end_at" := Timestamp(end)]
  }

  /** `entry` inside `timeseries`. */
  function Entry(index: map<DateTime, Record>, default: Record, bucket: (DateTime, DateTime)): Record {
    if bucket.0 in index then index[bucket.0] else Merge(default, PeriodLimits(bucket.0, bucket.1))
  }

  /**
   * `entry` is what `timeseries` promises for `bucket`: the last data record
   * whose `_start_at` is the bucket's start, or, when no record has that
   * start, `default` with the bucket's limits laid over it.
   */
  ghost predicate IsEntryFor(data: seq<Record>, default: Record, bucket: (DateTime, DateTime), entry: Record) {
    || (exists i :: IsLastWith(data, i, bucket.0) && entry == data[i])
    || (&& (forall i :: 0 <= i < |data| ==> StartAtOf(data[i]) != Some(bucket.0))
        && entry == Merge(default, PeriodLimits(bucket.0, bucket.1)))
  }

  /**
   * The timeseries over a list of buckets: one entry per bucket, in order.  A
   * record without a timestamp `_start_at` makes the whole call fail.
   */
  function Series(buckets: seq<(DateTime, DateTime)>, data: seq<Record>, default: Record): (r: Option<seq<Record>>)
    ensures r.Some? <==> AllStamped(data)
    ensures r.Some? ==> |r.value| == |buckets|
    ensures r.Some? ==> forall k :: 0 <= k < |buckets| ==> IsEntryFor(data, default, buckets[k], r.value[k])
  {
    IndexDefined(data);
    match IndexByStartAt(data)
    case None => None
    case Some(index) =>
      IndexLastWins(data);
      Some(seq(|buckets|, k requires 0 <= k < |buckets| => Entry(index, default, buckets[k])))
  }

  /**
   * `timeseries`: fails exactly when a record lacks a timestamp `_start_at`;
   * otherwise entry `k` is the entry for bucket `k` of `range(start, end)`.
   */
  function Timeseries(start: DateTime, end: DateTime, p: Period, data: seq<Record>, default: Record)
    : (r: Option<seq<Record>>)
    ensures r.Some? <==> AllStamped(data)
    ensures r.Some? ==> |r.value| == |Buckets(Delta(p), Start(p, start), End(p, end))|
    ensures r.Some? ==> forall k :: 0 <= k < |Buckets(Delta(p), Start(p, start), End(p, end))| ==>
      IsEntryFor(data, default, Buckets(Delta(p), Start(p, start), End(p, end))[k], r.value[k])
  {
    Series(Buckets(Delta(p), Start(p, start), End(p, end)), data, default)
  }
}
