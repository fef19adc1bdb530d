/**
 * FlightAnalyser.fetch_arrival / fetch_departure: for every date from the
 * lower bound's date to the upper bound's date, the daily buckets the record
 * source returns are scanned; buckets labelled with another date are
 * skipped, every flight group is normalised into a Flight when its status
 * reports the event inside the time window, the flights are collected into a
 * set keyed by Flight.__hash__ and returned sorted by actual time.
 */
module Analyser {
  import opened Common
  import opened Text
  import opened Calendar
  import opened Flights
  import opened Status

  datatype Direction = Arrival | Departure

  /** The record source's mode: "static" replays stored files, "dynamic" asks the airport. */
  datatype Mode = Static | Dynamic

  /**
   * One entry of a bucket's "list": the scheduled "time" (HH:MM), the free-text
   * "status", the airports ("origin" of an arrival, "destination" of a
   * departure) and the raw "flight" codes.
   */
  datatype Group = Group(time: string, status: string, airports: seq<string>, flight: seq<RawCode>)

  /** One daily record: its "date" label and its flight groups. */
  datatype Bucket = Bucket(date: string, list: seq<Group>)

  /** The record source: the buckets it returns for a queried date, or None when it raises. */
  type Source = CivilDate -> Option<seq<Bucket>>

  /** The accepted actual times [lower, upper]; an unbounded window accepts every time. */
  datatype Window = Window(lower: int, upper: int, bounded: bool)

  predicate InWindow(w: Window, t: int) {
    !w.bounded || (w.lower <= t && t <= w.upper)
  }

  /** FlightAnalyser.fixed_date: 2023-11-14T23:59:59+08:00, the reference time in static mode. */
  const FixedNow := InstantOf(CivilDate(2023, 11, 14), 23 * 3600 + 59 * 60 + 59)

  /** The upper bound of the window: the fixed date in static mode, the current time otherwise. */
  function UpperBound(mode: Mode, now: int): int {
    if mode == Static then FixedNow else now
  }

  /** today - timedelta(days=interval). */
  function LowerBound(mode: Mode, now: int, interval: int): int {
    UpperBound(mode, now) - interval * SecondsPerDay
  }

  /** The window applies to arrivals always and to departures only in dynamic mode. */
  function WindowOf(dir: Direction, mode: Mode, now: int, interval: int): (w: Window)
    ensures w.lower == LowerBound(mode, now, interval) && w.upper == UpperBound(mode, now)
    ensures w.bounded <==> dir == Arrival || mode == Dynamic
  {
    Window(LowerBound(mode, now, interval), UpperBound(mode, now), !(dir == Departure && mode == Static))
  }

  /** The status test and actual-time rule of the direction. */
  function StatusActual(dir: Direction, status: string, day: CivilDate): Result<Option<int>>
    requires WellFormed(day)
  {
    if dir == Arrival then ArrivalActual(status, day) else DepartureActual(status, day)
  }

  /**
   * The body of the group loop for query date `day`: the estimated time is
   * built first (an unreadable "time" raises even for a group that is then
   * ignored), then the status is read, then the window is checked.
   */
  function GroupFlight(dir: Direction, g: Group, day: CivilDate, w: Window): Result<Option<Flight>>
    requires WellFormed(day)
  {
    GroupOutcome(dir, g, day, w, ParseClock(g.time), StatusActual(dir, g.status, day))
  }

  /** The group loop's body once the "time" field and the status have been read. */
  function GroupOutcome(dir: Direction, g: Group, day: CivilDate, w: Window, clock: Option<int>, status: Result<Option<int>>): Result<Option<Flight>>
    requires WellFormed(day)
  {
    match clock
    case None => Err(BadClock)
    case Some(c) =>
      match status
      case Err(e) => Err(e)
      case Ok(None) => Ok(None)
      case Ok(Some(act)) =>
        if InWindow(w, act) then Ok(Some(MakeFlight(dir == Arrival, InstantOf(day, c), act, g.airports, g.flight)))
        else Ok(None)
  }

  /** What a group contributes, given what its "time" field and its status read as. */
  predicate OutcomeSpec(dir: Direction, g: Group, day: CivilDate, w: Window, clock: Option<int>, status: Result<Option<int>>, r: Result<Option<Flight>>)
    requires WellFormed(day)
  {
    && (clock.None? ==> r == Err(BadClock))
    && (clock.Some? && status.Err? ==> r == Err(status.error))
    && (clock.Some? && status == Ok(None) ==> r == Ok(None))
    && (clock.Some? && status.Ok? && status.value.Some? && !InWindow(w, status.value.value) ==> r == Ok(None))
    && (r.Ok? && r.value.Some? <==> clock.Some? && status.Ok? && status.value.Some? && InWindow(w, status.value.value))
    && (r.Ok? && r.value.Some? ==>
      var f := r.value.value;
      && f.arrival == (dir == Arrival)
      && f.estTime >= 0 && DateOf(f.estTime) == day && f.estTime - DayStart(day) == clock.value
      && f.actTime == status.value.value
      && InWindow(w, f.actTime)
      && f.airports == g.airports
      && |f.codes| == |g.flight|
      && forall i :: 0 <= i < |g.flight| ==> f.codes[i].number == g.flight[i].no && f.codes[i].airline == g.flight[i].airline)
  }

  lemma GroupOutcomeSpec(dir: Direction, g: Group, day: CivilDate, w: Window, clock: Option<int>, status: Result<Option<int>>)
    requires WellFormed(day) && (clock.Some? ==> 0 <= clock.value < SecondsPerDay)
    ensures OutcomeSpec(dir, g, day, w, clock, status, GroupOutcome(dir, g, day, w, clock, status))
  {
    if clock.Some? {
      DateOfInstant(day, clock.value);
    }
  }

  /**
   * What a group contributes: an error when its time or its status cannot be
   * read (the time first), nothing when the status reports no event or the
   * event lies outside the window, and otherwise a flight of the direction
   * whose estimated time is the group's time on the query date, whose actual
   * time is the status's, and whose airports and codes are the group's.
   */
  lemma GroupFlightSpec(dir: Direction, g: Group, day: CivilDate, w: Window)
    requires WellFormed(day)
    ensures OutcomeSpec(dir, g, day, w, ParseClock(g.time), StatusActual(dir, g.status, day), GroupFlight(dir, g, day, w))
  {
    GroupOutcomeSpec(dir, g, day, w, ParseClock(g.time), StatusActual(dir, g.status, day));
  }

  /**
   * The flights the groups of one bucket add, in order; the first group that
   * raises makes the whole scan raise.
   */
  function GroupsFlights(dir: Direction, gs: seq<Group>, day: CivilDate, w: Window): Result<seq<Flight>>
    requires WellFormed(day)
    decreases |gs|
  {
    if gs == [] then Ok([])
    else
      match GroupsFlights(dir, gs[..|gs| - 1], day, w)
      case Err(e) => Err(e)
      case Ok(fs) =>
        match GroupFlight(dir, gs[|gs| - 1], day, w)
        case Err(e) => Err(e)
        case Ok(None) => Ok(fs)
        case Ok(Some(f)) => Ok(fs + [f])
  }

  /** The flights the buckets returned for `day` add; buckets labelled with another date add none. */
  function BucketsFlights(dir: Direction, bs: seq<Bucket>, day: CivilDate, w: Window): Result<seq<Flight>>
    requires WellFormed(day)
    decreases |bs|
  {
    if bs == [] then Ok([])
    else
      match BucketsFlights(dir, bs[..|bs| - 1], day, w)
      case Err(e) => Err(e)
      case Ok(fs) =>
        var b := bs[|bs| - 1];
        if b.date != IsoFormat(day) then Ok(fs)
        else
          match GroupsFlights(dir, b.list, day, w)
          case Err(e) => Err(e)
          case Ok(gfs) => Ok(fs + gfs)
  }

  predicate AllWellFormed(dates: seq<CivilDate>) {
    forall i :: 0 <= i < |dates| ==> WellFormed(dates[i])
  }

  /** The flights all queried dates add, in query order; a date the source cannot serve raises. */
  function DatesFlights(dir: Direction, fetch: Source, dates: seq<CivilDate>, w: Window): Result<seq<Flight>>
    requires AllWellFormed(dates)
    decreases |dates|
  {
    if dates == [] then Ok([])
    else
      match DatesFlights(dir, fetch, dates[..|dates| - 1], w)
      case Err(e) => Err(e)
      case Ok(fs) =>
        var day := dates[|dates| - 1];
        match fetch(day)
        case None => Err(FetchFailed)
        case Some(bs) =>
          match BucketsFlights(dir, bs, day, w)
          case Err(e) => Err(e)
          case Ok(bfs) => Ok(fs + bfs)
  }

  // Once a prefix of the scan raises, the whole scan raises the same error.

  lemma {:induction false} GroupsErrorPrefix(dir: Direction, gs: seq<Group>, day: CivilDate, w: Window, n: nat)
    requires WellFormed(day) && n <= |gs| && GroupsFlights(dir, gs[..n], day, w).Err?
    ensures GroupsFlights(dir, gs, day, w) == GroupsFlights(dir, gs[..n], day, w)
    decreases |gs|
  {
    if n < |gs| {
      var init := gs[..|gs| - 1];
      assert init[..n] == gs[..n];
      GroupsErrorPrefix(dir, init, day, w, n);
    } else {
      assert gs[..n] == gs;
    }
  }

  lemma {:induction false} BucketsErrorPrefix(dir: Direction, bs: seq<Bucket>, day: CivilDate, w: Window, n: nat)
    requires WellFormed(day) && n <= |bs| && BucketsFlights(dir, bs[..n], day, w).Err?
    ensures BucketsFlights(dir, bs, day, w) == BucketsFlights(dir, bs[..n], day, w)
    decreases |bs|
  {
    if n < |bs| {
      var init := bs[..|bs| - 1];
      assert init[..n] == bs[..n];
      BucketsErrorPrefix(dir, init, day, w, n);
    } else {
      assert bs[..n] == bs;
    }
  }

  lemma {:induction false} DatesErrorPrefix(dir: Direction, fetch: Source, dates: seq<CivilDate>, w: Window, n: nat)
    requires AllWellFormed(dates) && n <= |dates| && DatesFlights(dir, fetch, dates[..n], w).Err?
    ensures DatesFlights(dir, fetch, dates, w) == DatesFlights(dir, fetch, dates[..n], w)
    decreases |dates|
  {
    if n < |dates| {
      var init := dates[..|dates| - 1];
      assert init[..n] == dates[..n];
      DatesErrorPrefix(dir, fetch, init, w, n);
    } else {
      assert dates[..n] == dates;
    }
  }

  /** Some group of `gs` normalises into `f`. */
  predicate GroupsYield(dir: Direction, gs: seq<Group>, day: CivilDate, w: Window, f: Flight)
    requires WellFormed(day)
  {
    exists k :: 0 <= k < |gs| && GroupFlight(dir, gs[k], day, w) == Ok(Some(f))
  }

  /** Some bucket labelled `day` has a group that normalises into `f`. */
  predicate BucketsYield(dir: Direction, bs: seq<Bucket>, day: CivilDate, w: Window, f: Flight)
    requires WellFormed(day)
  {
    exists j :: 0 <= j < |bs| && bs[j].date == IsoFormat(day) && GroupsYield(dir, bs[j].list, day, w, f)
  }

  /** The source serves `day`, and a bucket it returns for `day` yields `f`. */
  predicate DayYields(dir: Direction, fetch: Source, day: CivilDate, w: Window, f: Flight)
    requires WellFormed(day)
  {
    fetch(day).Some? && BucketsYield(dir, fetch(day).value, day, w, f)
  }

  /** For some queried date, a bucket the source returns for it yields `f` (read from the last date back). */
  predicate DatesYield(dir: Direction, fetch: Source, dates: seq<CivilDate>, w: Window, f: Flight)
    requires AllWellFormed(dates)
    decreases |dates|
  {
    && dates != []
    && (DatesYield(dir, fetch, dates[..|dates| - 1], w, f) || DayYields(dir, fetch, dates[|dates| - 1], w, f))
  }

  lemma GroupsYieldInit(dir: Direction, gs: seq<Group>, day: CivilDate, w: Window, f: Flight)
    requires WellFormed(day) && gs != [] && GroupsYield(dir, gs[..|gs| - 1], day, w, f)
    ensures GroupsYield(dir, gs, day, w, f)
  {
    var init := gs[..|gs| - 1];
    var k :| 0 <= k < |init| && GroupFlight(dir, init[k], day, w) == Ok(Some(f));
    assert gs[k] == init[k];
  }

  lemma GroupsYieldSplit(dir: Direction, gs: seq<Group>, day: CivilDate, w: Window, f: Flight)
    requires WellFormed(day) && gs != [] && GroupsYield(dir, gs, day, w, f)
    ensures GroupsYield(dir, gs[..|gs| - 1], day, w, f) || GroupFlight(dir, gs[|gs| - 1], day, w) == Ok(Some(f))
  {
    var init := gs[..|gs| - 1];
    var k :| 0 <= k < |gs| && GroupFlight(dir, gs[k], day, w) == Ok(Some(f));
    if k < |init| {
      assert init[k] == gs[k];
      assert GroupFlight(dir, init[k], day, w) == Ok(Some(f));
      assert GroupsYield(dir, init, day, w, f);
    } else {
      assert k == |gs| - 1;
    }
  }

  lemma GroupsYieldSnoc(dir: Direction, gs: seq<Group>, day: CivilDate, w: Window, f: Flight)
    requires WellFormed(day) && gs != []
    ensures GroupsYield(dir, gs, day, w, f) <==>
      GroupsYield(dir, gs[..|gs| - 1], day, w, f) || GroupFlight(dir, gs[|gs| - 1], day, w) == Ok(Some(f))
  {
    if GroupsYield(dir, gs[..|gs| - 1], day, w, f) {
      GroupsYieldInit(dir, gs, day, w, f);
    }
    if GroupsYield(dir, gs, day, w, f) {
      GroupsYieldSplit(dir, gs, day, w, f);
    }
  }

  /** A successful scan of groups holds exactly the flights the groups yield. */
  lemma {:induction false} GroupsMembers(dir: Direction, gs: seq<Group>, day: CivilDate, w: Window)
    requires WellFormed(day) && GroupsFlights(dir, gs, day, w).Ok?
    ensures forall f :: f in GroupsFlights(dir, gs, day, w).value <==> GroupsYield(dir, gs, day, w, f)
    decreases |gs|
  {
    if gs != [] {
      var init, last := gs[..|gs| - 1], gs[|gs| - 1];
      var before := GroupsFlights(dir, init, day, w);
      var out := GroupFlight(dir, last, day, w);
      assert before.Ok? && out.Ok?;
      GroupsMembers(dir, init, day, w);
      var all := GroupsFlights(dir, gs, day, w).value;
      assert all == before.value + (if out.value.Some? then [out.value.value] else []);
      forall f
        ensures f in all <==> GroupsYield(dir, gs, day, w, f)
      {
        GroupsYieldSnoc(dir, gs, day, w, f);
        assert f in all <==> f in before.value || out == Ok(Some(f));
      }
    }
  }

  lemma BucketsYieldInit(dir: Direction, bs: seq<Bucket>, day: CivilDate, w: Window, f: Flight)
    requires WellFormed(day) && bs != [] && BucketsYield(dir, bs[..|bs| - 1], day, w, f)
    ensures BucketsYield(dir, bs, day, w, f)
  {
    var init := bs[..|bs| - 1];
    var j :| 0 <= j < |init| && init[j].date == IsoFormat(day) && GroupsYield(dir, init[j].list, day, w, f);
    assert bs[j] == init[j];
  }

  lemma BucketsYieldSplit(dir: Direction, bs: seq<Bucket>, day: CivilDate, w: Window, f: Flight)
    requires WellFormed(day) && bs != [] && BucketsYield(dir, bs, day, w, f)
    ensures || BucketsYield(dir, bs[..|bs| - 1], day, w, f)
            || (bs[|bs| - 1].date == IsoFormat(day) && GroupsYield(dir, bs[|bs| - 1].list, day, w, f))
  {
    var init := bs[..|bs| - 1];
    var j :| 0 <= j < |bs| && bs[j].date == IsoFormat(day) && GroupsYield(dir, bs[j].list, day, w, f);
    if j < |init| {
      assert init[j] == bs[j];
      assert init[j].date == IsoFormat(day) && GroupsYield(dir, init[j].list, day, w, f);
      assert BucketsYield(dir, init, day, w, f);
    } else {
      assert j == |bs| - 1;
    }
  }

  lemma BucketsYieldSnoc(dir: Direction, bs: seq<Bucket>, day: CivilDate, w: Window, f: Flight)
    requires WellFormed(day) && bs != []
    ensures BucketsYield(dir, bs, day, w, f) <==>
      || BucketsYield(dir, bs[..|bs| - 1], day, w, f)
      || (bs[|bs| - 1].date == IsoFormat(day) && GroupsYield(dir, bs[|bs| - 1].list, day, w, f))
  {
    var last := bs[|bs| - 1];
    if BucketsYield(dir, bs[..|bs| - 1], day, w, f) {
      BucketsYieldInit(dir, bs, day, w, f);
    }
    if last.date == IsoFormat(day) && GroupsYield(dir, last.list, day, w, f) {
      assert bs[|bs| - 1] == last;
    }
    if BucketsYield(dir, bs, day, w, f) {
      BucketsYieldSplit(dir, bs, day, w, f);
    }
  }

  /** A successful scan of buckets holds exactly the flights the buckets labelled `day` yield. */
  lemma {:induction false} BucketsMembers(dir: Direction, bs: seq<Bucket>, day: CivilDate, w: Window)
    requires WellFormed(day) && BucketsFlights(dir, bs, day, w).Ok?
    ensures forall f :: f in BucketsFlights(dir, bs, day, w).value <==> BucketsYield(dir, bs, day, w, f)
    decreases |bs|
  {
    if bs != [] {
      var init, last := bs[..|bs| - 1], bs[|bs| - 1];
      var before := BucketsFlights(dir, init, day, w);
      assert before.Ok?;
      BucketsMembers(dir, init, day, w);
      var all := BucketsFlights(dir, bs, day, w).value;
      if last.date == IsoFormat(day) {
        var out := GroupsFlights(dir, last.list, day, w);
        assert out.Ok? && all == before.value + out.value;
        GroupsMembers(dir, last.list, day, w);
        forall f
          ensures f in all <==> BucketsYield(dir, bs, day, w, f)
        {
          BucketsYieldSnoc(dir, bs, day, w, f);
        }
      } else {
        assert all == before.value;
        forall f
          ensures f in all <==> BucketsYield(dir, bs, day, w, f)
        {
          BucketsYieldSnoc(dir, bs, day, w, f);
        }
      }
    }
  }

  /** A successful scan of the queried dates holds exactly the flights they yield. */
  lemma {:induction false} DatesMembers(dir: Direction, fetch: Source, dates: seq<CivilDate>, w: Window)
    requires AllWellFormed(dates) && DatesFlights(dir, fetch, dates, w).Ok?
    ensures forall f :: f in DatesFlights(dir, fetch, dates, w).value <==> DatesYield(dir, fetch, dates, w, f)
    decreases |dates|
  {
    if dates != [] {
      var init, day := dates[..|dates| - 1], dates[|dates| - 1];
      assert AllWellFormed(init) && WellFormed(day);
      var before := DatesFlights(dir, fetch, init, w);
      assert before.Ok? && fetch(day).Some?;
      var out := BucketsFlights(dir, fetch(day).value, day, w);
      assert out.Ok?;
      var all := DatesFlights(dir, fetch, dates, w).value;
      assert all == before.value + out.value;
      DatesMembers(dir, fetch, init, w);
      BucketsMembers(dir, fetch(day).value, day, w);
      assert forall f :: f in all <==> DatesYield(dir, fetch, dates, w, f);
    }
  }

  /** `count` consecutive dates from `start`: start + timedelta(days=i) for i in range(count). */
  function DatesFrom(start: CivilDate, count: nat): (ds: seq<CivilDate>)
    requires WellFormed(start)
    ensures |ds| == count
    ensures forall i :: 0 <= i < count ==> WellFormed(ds[i]) && OrdinalOf(ds[i]) == OrdinalOf(start) + i
    decreases count
  {
    if count == 0 then []
    else
      NextDayOrdinal(start);
      [start] + DatesFrom(NextDay(start), count - 1)
  }

  /** The dates the builder queries: interval + 1 dates from lower_bound.date() (none for a negative interval). */
  function QueryDates(interval: int, lower: int): (ds: seq<CivilDate>)
    requires lower >= 0
    ensures |ds| == if interval < 0 then 0 else interval + 1
    ensures AllWellFormed(ds)
  {
    DatesFrom(DateOf(lower), if interval < 0 then 0 else interval + 1)
  }

  lemma DivMonotone(a: int, b: int)
    requires 0 <= a <= b
    ensures a / SecondsPerDay <= b / SecondsPerDay
  {
  }

  /** The buckets of `bs` labelled with the query date, in order. */
  function Labelled(bs: seq<Bucket>, day: CivilDate): seq<Bucket>
    requires WellFormed(day)
    decreases |bs|
  {
    if bs == [] then []
    else
      var init, b := bs[..|bs| - 1], bs[|bs| - 1];
      if b.date == IsoFormat(day) then Labelled(init, day) + [b] else Labelled(init, day)
  }

  /** The labelled buckets are exactly the buckets of `bs` that carry the query date. */
  lemma {:induction false} LabelledMembers(bs: seq<Bucket>, day: CivilDate)
    requires WellFormed(day)
    ensures forall b :: b in Labelled(bs, day) <==> b in bs && b.date == IsoFormat(day)
    decreases |bs|
  {
    if bs != [] {
      var init, b := bs[..|bs| - 1], bs[|bs| - 1];
      LabelledMembers(init, day);
      assert bs == init + [b];
    }
  }

  /**
   * The bucket filter: scanning the buckets of a date gives the same result,
   * error or flights, as scanning only those labelled with that date, so a
   * bucket labelled otherwise contributes nothing whatever its groups hold.
   */
  lemma {:induction false} BucketFilter(dir: Direction, bs: seq<Bucket>, day: CivilDate, w: Window)
    requires WellFormed(day)
    ensures BucketsFlights(dir, bs, day, w) == BucketsFlights(dir, Labelled(bs, day), day, w)
    decreases |bs|
  {
    if bs != [] {
      BucketFilter(dir, bs[..|bs| - 1], day, w);
      if bs[|bs| - 1].date == IsoFormat(day) {
        BucketFilterKeep(dir, bs, day, w);
      } else {
        BucketFilterSkip(dir, bs, day, w);
      }
    }
  }

  lemma BucketFilterKeep(dir: Direction, bs: seq<Bucket>, day: CivilDate, w: Window)
    requires WellFormed(day) && bs != [] && bs[|bs| - 1].date == IsoFormat(day)
    requires BucketsFlights(dir, bs[..|bs| - 1], day, w) == BucketsFlights(dir, Labelled(bs[..|bs| - 1], day), day, w)
    ensures BucketsFlights(dir, bs, day, w) == BucketsFlights(dir, Labelled(bs, day), day, w)
  {
    var kept, b := Labelled(bs[..|bs| - 1], day), bs[|bs| - 1];
    var ls := kept + [b];
    assert Labelled(bs, day) == ls;
    assert ls[..|ls| - 1] == kept && ls[|ls| - 1] == b;
  }

  lemma BucketFilterSkip(dir: Direction, bs: seq<Bucket>, day: CivilDate, w: Window)
    requires WellFormed(day) && bs != [] && bs[|bs| - 1].date != IsoFormat(day)
    requires BucketsFlights(dir, bs[..|bs| - 1], day, w) == BucketsFlights(dir, Labelled(bs[..|bs| - 1], day), day, w)
    ensures BucketsFlights(dir, bs, day, w) == BucketsFlights(dir, Labelled(bs, day), day, w)
  {
    assert Labelled(bs, day) == Labelled(bs[..|bs| - 1], day);
  }

  /** A date whose buckets all carry other labels yields no flights and no error. */
  lemma NoLabelledBucket(dir: Direction, bs: seq<Bucket>, day: CivilDate, w: Window)
    requires WellFormed(day) && forall j :: 0 <= j < |bs| ==> bs[j].date != IsoFormat(day)
    ensures BucketsFlights(dir, bs, day, w) == Ok([])
  {
    BucketFilter(dir, bs, day, w);
    LabelledMembers(bs, day);
    if Labelled(bs, day) != [] {
      assert false;
    }
  }

  /** The first queried date is the date of the lower bound. */
  lemma QueryDatesFirst(interval: int, lower: int)
    requires interval >= 0 && lower >= 0
    ensures QueryDates(interval, lower)[0] == DateOf(lower)
  {
    var ds := QueryDates(interval, lower);
    OrdinalInjective(ds[0], DateOf(lower));
  }

  /** Consecutive queried dates are consecutive calendar days. */
  lemma QueryDatesConsecutive(interval: int, lower: int)
    requires lower >= 0
    ensures var ds := QueryDates(interval, lower);
      forall i :: 0 <= i < |ds| - 1 ==> NextDay(ds[i]) == ds[i + 1]
  {
    var ds := QueryDates(interval, lower);
    forall i | 0 <= i < |ds| - 1
      ensures NextDay(ds[i]) == ds[i + 1]
    {
      NextDayOrdinal(ds[i]);
      OrdinalInjective(NextDay(ds[i]), ds[i + 1]);
    }
  }

  /** Instants `t` days apart at the same time of day lie on dates `t` ordinals apart. */
  lemma DateOfShift(lower: int, days: nat)
    requires lower >= 0
    ensures OrdinalOf(DateOf(lower + days * SecondsPerDay)) == OrdinalOf(DateOf(lower)) + days
  {
    DivisionUnique(lower + days * SecondsPerDay, SecondsPerDay, lower / SecondsPerDay + days, lower % SecondsPerDay);
  }

  /** Whole days from the lower bound to an instant no later than `interval` days after it. */
  lemma DayOffset(interval: int, lower: int, t: int)
    requires interval >= 0 && lower >= 0 && lower <= t <= lower + interval * SecondsPerDay
    ensures 0 <= t / SecondsPerDay - lower / SecondsPerDay <= interval
  {
    var upper := lower + interval * SecondsPerDay;
    DivisionUnique(upper, SecondsPerDay, lower / SecondsPerDay + interval, lower % SecondsPerDay);
    DivMonotone(lower, t);
    DivMonotone(t, upper);
  }

  /** The date with ordinal `n` sits in DatesFrom(start, count) as many places on as `n` is days after `start`. */
  lemma DatesFromAt(start: CivilDate, count: nat, n: int, i: int)
    requires WellFormed(start) && OrdinalOf(start) <= n < OrdinalOf(start) + count && i == n - OrdinalOf(start)
    ensures DatesFrom(start, count)[i] == CivilFromOrdinal(n)
  {
    OrdinalInjective(DatesFrom(start, count)[i], CivilFromOrdinal(n));
  }

  lemma QueryDatesUnfold(interval: int, lower: int)
    requires interval >= 0 && lower >= 0
    ensures QueryDates(interval, lower) == DatesFrom(DateOf(lower), interval + 1)
  {
  }

  lemma LowerDateOrdinal(interval: int, lower: int, i: int, t: int)
    requires interval >= 0 && lower >= 0 && t >= 0 && 0 <= i <= interval
    requires lower / SecondsPerDay + i == t / SecondsPerDay
    ensures OrdinalOf(DateOf(lower)) <= t / SecondsPerDay + 1 < OrdinalOf(DateOf(lower)) + interval + 1
    ensures i == t / SecondsPerDay + 1 - OrdinalOf(DateOf(lower))
  {
  }

  /** The queried date `i` days on is the date of any instant `i` whole days after the lower bound's day. */
  lemma QueryDatesIndex(interval: int, lower: int, i: int, t: int)
    requires interval >= 0 && lower >= 0 && t >= 0 && 0 <= i <= interval
    requires lower / SecondsPerDay + i == t / SecondsPerDay
    ensures QueryDates(interval, lower)[i] == DateOf(t)
  {
    QueryDatesUnfold(interval, lower);
    LowerDateOrdinal(interval, lower, i, t);
    DatesFromAt(DateOf(lower), interval + 1, t / SecondsPerDay + 1, i);
  }

  lemma QueryDatesAt(interval: int, lower: int, t: int)
    requires interval >= 0 && lower >= 0 && lower <= t <= lower + interval * SecondsPerDay
    ensures var i := t / SecondsPerDay - lower / SecondsPerDay;
      0 <= i <= interval && QueryDates(interval, lower)[i] == DateOf(t)
  {
    DayOffset(interval, lower, t);
    QueryDatesIndex(interval, lower, t / SecondsPerDay - lower / SecondsPerDay, t);
  }

  /**
   * The last queried date is the date of the upper bound, and every instant
   * from the lower to the upper bound falls on a queried date.
   */
  lemma QueryDatesCover(interval: int, lower: int, upper: int)
    requires interval >= 0 && lower >= 0 && upper == lower + interval * SecondsPerDay
    ensures var ds := QueryDates(interval, lower);
      && ds[interval] == DateOf(upper)
      && forall t :: lower <= t <= upper ==> DateOf(t) in ds
  {
    DivisionUnique(upper, SecondsPerDay, lower / SecondsPerDay + interval, lower % SecondsPerDay);
    QueryDatesIndex(interval, lower, interval, upper);
    forall t | lower <= t <= upper
      ensures DateOf(t) in QueryDates(interval, lower)
    {
      QueryDatesAt(interval, lower, t);
    }
  }

  /** When the upper bound is a representable instant, so are all queried dates. */
  lemma QueryDatesRepresentable(interval: int, lower: int, upper: int)
    requires interval >= 0 && lower >= 0 && upper == lower + interval * SecondsPerDay
    requires InDatetimeRange(upper)
    ensures var ds := QueryDates(interval, lower);
      forall i :: 0 <= i < |ds| ==> IsPythonDate(ds[i])
  {
    var ds := QueryDates(interval, lower);
    QueryDatesCover(interval, lower, upper);
    PythonDateOrdinal(DateOf(upper));
    forall i | 0 <= i < |ds|
      ensures IsPythonDate(ds[i])
    {
      PythonDateOrdinal(ds[i]);
    }
  }

  /** The static reference time lies on 2023-11-14. */
  lemma FixedNowDate()
    ensures InDatetimeRange(FixedNow) && DateOf(FixedNow) == CivilDate(2023, 11, 14)
  {
    var d, seconds := CivilDate(2023, 11, 14), 86399;
    assert OrdinalOf(d) == 738838;
    DateOfInstant(d, seconds);
  }

  /**
   * What fetch_arrival (Arrival) and fetch_departure (Departure) return: an
   * overflow when the lower bound leaves the datetime range, the first error
   * the scan meets, or the key-deduplicated flights sorted by actual time.
   */
  function Analyse(dir: Direction, mode: Mode, now: int, interval: int, fetch: Source): Result<seq<Flight>>
  {
    var w := WindowOf(dir, mode, now, interval);
    if !InDatetimeRange(w.lower) then Err(DateOverflow)
    else
      match DatesFlights(dir, fetch, QueryDates(interval, w.lower), w)
      case Err(e) => Err(e)
      case Ok(fs) => Ok(SortByAct(Dedup(fs)))
  }

  lemma ConcatAssoc(a: seq<Flight>, b: seq<Flight>, c: seq<Flight>)
    ensures a + b + c == a + (b + c)
  {
  }

  // One more step of each scan, as the builder loop takes it.

  lemma GroupsStep(dir: Direction, gs: seq<Group>, day: CivilDate, w: Window, k: nat, fs: seq<Flight>)
    requires WellFormed(day) && k < |gs| && GroupsFlights(dir, gs[..k], day, w) == Ok(fs)
    requires GroupFlight(dir, gs[k], day, w).Ok?
    ensures GroupsFlights(dir, gs[..k + 1], day, w)
         == Ok(match GroupFlight(dir, gs[k], day, w).value case None => fs case Some(f) => fs + [f])
  {
    assert gs[..k + 1][..k] == gs[..k];
  }

  lemma GroupsStepError(dir: Direction, gs: seq<Group>, day: CivilDate, w: Window, k: nat, fs: seq<Flight>)
    requires WellFormed(day) && k < |gs| && GroupsFlights(dir, gs[..k], day, w) == Ok(fs)
    requires GroupFlight(dir, gs[k], day, w).Err?
    ensures GroupsFlights(dir, gs, day, w) == Err(GroupFlight(dir, gs[k], day, w).error)
  {
    assert gs[..k + 1][..k] == gs[..k];
    GroupsErrorPrefix(dir, gs, day, w, k + 1);
  }

  /** Adding one more flight to the set kept so far keeps it the deduplication of everything seen. */
  lemma DedupStep(seen: seq<Flight>, added: seq<Flight>, f: Flight, acc: seq<Flight>)
    requires acc == Dedup(seen + added)
    ensures Insert(acc, f) == Dedup(seen + (added + [f]))
  {
    DedupSnoc(seen + added, f);
    assert seen + added + [f] == seen + (added + [f]);
  }

  lemma BucketsStep(dir: Direction, bs: seq<Bucket>, day: CivilDate, w: Window, j: nat, fs: seq<Flight>)
    requires WellFormed(day) && j < |bs| && BucketsFlights(dir, bs[..j], day, w) == Ok(fs)
    requires bs[j].date == IsoFormat(day) ==> GroupsFlights(dir, bs[j].list, day, w).Ok?
    ensures BucketsFlights(dir, bs[..j + 1], day, w)
         == Ok(if bs[j].date == IsoFormat(day) then fs + GroupsFlights(dir, bs[j].list, day, w).value else fs)
  {
    assert bs[..j + 1][..j] == bs[..j];
  }

  lemma BucketsStepError(dir: Direction, bs: seq<Bucket>, day: CivilDate, w: Window, j: nat, fs: seq<Flight>)
    requires WellFormed(day) && j < |bs| && BucketsFlights(dir, bs[..j], day, w) == Ok(fs)
    requires bs[j].date == IsoFormat(day) && GroupsFlights(dir, bs[j].list, day, w).Err?
    ensures BucketsFlights(dir, bs[..j + 1], day, w) == GroupsFlights(dir, bs[j].list, day, w)
  {
    assert bs[..j + 1][..j] == bs[..j];
  }

  lemma DatesStep(dir: Direction, fetch: Source, dates: seq<CivilDate>, w: Window, i: nat, fs: seq<Flight>)
    requires AllWellFormed(dates) && i < |dates| && DatesFlights(dir, fetch, dates[..i], w) == Ok(fs)
    requires fetch(dates[i]).Some? && BucketsFlights(dir, fetch(dates[i]).value, dates[i], w).Ok?
    ensures DatesFlights(dir, fetch, dates[..i + 1], w)
         == Ok(fs + BucketsFlights(dir, fetch(dates[i]).value, dates[i], w).value)
  {
    assert dates[..i + 1][..i] == dates[..i];
  }

  lemma AnalyseOfScan(dir: Direction, mode: Mode, now: int, interval: int, fetch: Source, scan: Result<seq<Flight>>)
    requires InDatetimeRange(LowerBound(mode, now, interval))
    requires DatesFlights(dir, fetch, QueryDates(interval, LowerBound(mode, now, interval)), WindowOf(dir, mode, now, interval)) == scan
    ensures scan.Err? ==> Analyse(dir, mode, now, interval, fetch) == Err(scan.error)
    ensures scan.Ok? ==> Analyse(dir, mode, now, interval, fetch) == Ok(SortByAct(Dedup(scan.value)))
  {
  }

  /**
   * The group loop of one bucket: each flight a group yields is added to the
   * set `flights`, which holds the flights `seen` so far under key equality.
   */
  method ScanGroups(dir: Direction, gs: seq<Group>, day: CivilDate, w: Window, flights: seq<Flight>, ghost seen: seq<Flight>)
    returns (r: Result<seq<Flight>>)
    requires WellFormed(day) && flights == Dedup(seen)
    ensures GroupsFlights(dir, gs, day, w).Err? ==> r == Err(GroupsFlights(dir, gs, day, w).error)
    ensures GroupsFlights(dir, gs, day, w).Ok? ==> r == Ok(Dedup(seen + GroupsFlights(dir, gs, day, w).value))
  {
    var acc := flights;
    ghost var added: seq<Flight> := [];
    assert seen + added == seen;
    var k := 0;
    while k < |gs|
      invariant 0 <= k <= |gs|
      invariant GroupsFlights(dir, gs[..k], day, w) == Ok(added)
      invariant acc == Dedup(seen + added)
    {
      var out := GroupFlight(dir, gs[k], day, w);
      if out.Err? {
        GroupsStepError(dir, gs, day, w, k, added);
        return Err(out.error);
      }
      GroupsStep(dir, gs, day, w, k, added);
      if out.value.Some? {
        var f := out.value.value;
        DedupStep(seen, added, f, acc);
        acc := Insert(acc, f);
        added := added + [f];
      }
      k := k + 1;
    }
    assert gs[..k] == gs;
    r := Ok(acc);
  }

  /** The bucket loop of one queried date: buckets labelled with another date are skipped. */
  method ScanBuckets(dir: Direction, bs: seq<Bucket>, day: CivilDate, w: Window, flights: seq<Flight>, ghost seen: seq<Flight>)
    returns (r: Result<seq<Flight>>)
    requires WellFormed(day) && flights == Dedup(seen)
    ensures BucketsFlights(dir, bs, day, w).Err? ==> r == Err(BucketsFlights(dir, bs, day, w).error)
    ensures BucketsFlights(dir, bs, day, w).Ok? ==> r == Ok(Dedup(seen + BucketsFlights(dir, bs, day, w).value))
  {
    var acc := flights;
    ghost var added: seq<Flight> := [];
    assert seen + added == seen;
    var j := 0;
    while j < |bs|
      invariant 0 <= j <= |bs|
      invariant BucketsFlights(dir, bs[..j], day, w) == Ok(added)
      invariant acc == Dedup(seen + added)
    {
      var bucket := bs[j];
      if bucket.date == IsoFormat(day) {
        ghost var groups := GroupsFlights(dir, bucket.list, day, w);
        var scanned := ScanGroups(dir, bucket.list, day, w, acc, seen + added);
        if scanned.Err? {
          BucketsStepError(dir, bs, day, w, j, added);
          BucketsErrorPrefix(dir, bs, day, w, j + 1);
          return scanned;
        }
        assert groups.Ok?;
        ghost var yielded := groups.value;
        BucketsStep(dir, bs, day, w, j, added);
        acc := scanned.value;
        ConcatAssoc(seen, added, yielded);
        added := added + yielded;
      } else {
        BucketsStep(dir, bs, day, w, j, added);
      }
      j := j + 1;
    }
    assert bs[..j] == bs;
    r := Ok(acc);
  }

  /** The date loop: every queried date is fetched and its buckets scanned into one set. */
  method ScanDates(dir: Direction, fetch: Source, dates: seq<CivilDate>, w: Window) returns (r: Result<seq<Flight>>)
    requires AllWellFormed(dates)
    ensures DatesFlights(dir, fetch, dates, w).Err? ==> r == Err(DatesFlights(dir, fetch, dates, w).error)
    ensures DatesFlights(dir, fetch, dates, w).Ok? ==> r == Ok(Dedup(DatesFlights(dir, fetch, dates, w).value))
  {
    ghost var seen: seq<Flight> := [];
    var acc: seq<Flight> := [];
    var i := 0;
    while i < |dates|
      invariant 0 <= i <= |dates|
      invariant DatesFlights(dir, fetch, dates[..i], w) == Ok(seen)
      invariant acc == Dedup(seen)
    {
      var response := fetch(dates[i]);
      if response.None? {
        assert dates[..i + 1][..i] == dates[..i];
        DatesErrorPrefix(dir, fetch, dates, w, i + 1);
        return Err(FetchFailed);
      }
      var scanned := ScanBuckets(dir, response.value, dates[i], w, acc, seen);
      if scanned.Err? {
        assert dates[..i + 1][..i] == dates[..i];
        DatesErrorPrefix(dir, fetch, dates, w, i + 1);
        return scanned;
      }
      DatesStep(dir, fetch, dates, w, i, seen);
      acc := scanned.value;
      seen := seen + BucketsFlights(dir, response.value, dates[i], w).value;
      i := i + 1;
    }
    assert dates[..i] == dates;
    r := Ok(acc);
  }

  /**
   * fetch_arrival / fetch_departure: the window is computed from the
   * reference time, the queried dates are scanned into a set of flights, and
   * the set is returned sorted by actual time.
   */
  method FetchFlights(dir: Direction, mode: Mode, now: int, interval: int, fetch: Source)
    returns (r: Result<seq<Flight>>)
    ensures r == Analyse(dir, mode, now, interval, fetch)
  {
    var w := WindowOf(dir, mode, now, interval);
    if !InDatetimeRange(w.lower) {
      return Err(DateOverflow);
    }
    var dates := QueryDates(interval, w.lower);
    var scanned := ScanDates(dir, fetch, dates, w);
    AnalyseOfScan(dir, mode, now, interval, fetch, DatesFlights(dir, fetch, dates, w));
    if scanned.Err? {
      return scanned;
    }
    r := Ok(SortByAct(scanned.value));
  }

  /** What every flight a date yields carries: the direction, the window, a queried estimated date. */
  lemma DayYieldedFlight(dir: Direction, fetch: Source, day: CivilDate, w: Window, f: Flight)
    requires WellFormed(day) && DayYields(dir, fetch, day, w, f)
    ensures f.arrival == (dir == Arrival) && InWindow(w, f.actTime)
    ensures f.estTime >= 0 && DateOf(f.estTime) == day
  {
    var bs := fetch(day).value;
    var j :| 0 <= j < |bs| && bs[j].date == IsoFormat(day) && GroupsYield(dir, bs[j].list, day, w, f);
    var k :| 0 <= k < |bs[j].list| && GroupFlight(dir, bs[j].list[k], day, w) == Ok(Some(f));
    GroupFlightSpec(dir, bs[j].list[k], day, w);
  }

  lemma {:induction false} YieldedFlight(dir: Direction, fetch: Source, dates: seq<CivilDate>, w: Window, f: Flight)
    requires AllWellFormed(dates) && DatesYield(dir, fetch, dates, w, f)
    ensures f.arrival == (dir == Arrival) && InWindow(w, f.actTime)
    ensures f.estTime >= 0 && DateOf(f.estTime) in dates
    decreases |dates|
  {
    var init, day := dates[..|dates| - 1], dates[|dates| - 1];
    if DatesYield(dir, fetch, init, w, f) {
      YieldedFlight(dir, fetch, init, w, f);
    } else {
      DayYieldedFlight(dir, fetch, day, w, f);
    }
  }

  /**
   * The result is sorted by actual time and holds at most one flight per
   * key; every flight in it is one that some group of a queried date yields,
   * and every flight some group yields has its key in it.
   */
  lemma {:induction false} AnalyseResult(dir: Direction, mode: Mode, now: int, interval: int, fetch: Source)
    requires Analyse(dir, mode, now, interval, fetch).Ok?
    ensures var out := Analyse(dir, mode, now, interval, fetch).value;
      var w := WindowOf(dir, mode, now, interval);
      && InDatetimeRange(w.lower)
      && SortedByAct(out) && DistinctKeys(out)
      && (forall f :: f in out ==> DatesYield(dir, fetch, QueryDates(interval, w.lower), w, f))
      && (forall f :: DatesYield(dir, fetch, QueryDates(interval, w.lower), w, f) ==> HasKey(out, Key(f)))
  {
    var w := WindowOf(dir, mode, now, interval);
    var dates := QueryDates(interval, w.lower);
    var fs := DatesFlights(dir, fetch, dates, w).value;
    var kept := Dedup(fs);
    DatesMembers(dir, fetch, dates, w);
    DedupIsKeySet(fs);
    SortKeepsDistinctKeys(kept);
    SortKeepsMembers(kept);
    forall f | DatesYield(dir, fetch, dates, w, f)
      ensures HasKey(SortByAct(kept), Key(f))
    {
      var i :| 0 <= i < |fs| && fs[i] == f;
    }
  }

  /** fetch_arrival: arrivals inside [lower_bound, upper_bound], sorted, one per key. */
  method FetchArrival(mode: Mode, now: int, interval: int, fetch: Source) returns (r: Result<seq<Flight>>)
    ensures r == Analyse(Arrival, mode, now, interval, fetch)
    ensures !InDatetimeRange(LowerBound(mode, now, interval)) ==> r == Err(DateOverflow)
    ensures r.Ok? ==> SortedByAct(r.value) && DistinctKeys(r.value)
    ensures r.Ok? ==> forall f :: f in r.value ==>
      f.arrival && LowerBound(mode, now, interval) <= f.actTime <= UpperBound(mode, now)
  {
    r := FetchFlights(Arrival, mode, now, interval, fetch);
    if r.Ok? {
      AnalyseResult(Arrival, mode, now, interval, fetch);
      var w := WindowOf(Arrival, mode, now, interval);
      forall f | f in r.value
        ensures f.arrival && w.lower <= f.actTime <= w.upper
      {
        YieldedFlight(Arrival, fetch, QueryDates(interval, w.lower), w, f);
      }
    }
  }

  /** fetch_departure: departures, inside the window unless the mode is static, sorted, one per key. */
  method FetchDeparture(mode: Mode, now: int, interval: int, fetch: Source) returns (r: Result<seq<Flight>>)
    ensures r == Analyse(Departure, mode, now, interval, fetch)
    ensures !InDatetimeRange(LowerBound(mode, now, interval)) ==> r == Err(DateOverflow)
    ensures r.Ok? ==> SortedByAct(r.value) && DistinctKeys(r.value)
    ensures r.Ok? ==> forall f :: f in r.value ==>
      !f.arrival && (mode == Dynamic ==> LowerBound(mode, now, interval) <= f.actTime <= UpperBound(mode, now))
  {
    r := FetchFlights(Departure, mode, now, interval, fetch);
    if r.Ok? {
      AnalyseResult(Departure, mode, now, interval, fetch);
      var w := WindowOf(Departure, mode, now, interval);
      forall f | f in r.value
        ensures !f.arrival && (mode == Dynamic ==> w.lower <= f.actTime <= w.upper)
      {
        YieldedFlight(Departure, fetch, QueryDates(interval, w.lower), w, f);
      }
    }
  }
}
