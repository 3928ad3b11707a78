/** The start timestamp of a vehicle journey (kirin/core/model.py:103-162) and the window it is searched in. */
module StartDates {
  import opened Basics
  import opened StopTimes

  /** The start on the search period; Err when it would be after its end. */
  function StartTimestamp(since: int, until: int, startTime: TimeOfDay): Result<int> {
    var sameDay := Combine(DateOf(since), startTime);
    var start := if sameDay < since then sameDay + DAY else sameDay;
    if until < start then Err else Ok(start)
  }

  /** VehicleJourney.__init__: an added trip brings its own start, another one is dated from its first stop. */
  function MakeVehicleJourney(tripId: string, stops: seq<BaseStop>, since: int, until: int,
                              ownStart: Option<int>): Result<VehicleJourney> {
    if stops == [] then
      if ownStart.Some? then Ok(VehicleJourney(tripId, ownStart.value, stops)) else Err
    else
      var startTime := if stops[0].arr.Some? then stops[0].arr else stops[0].dep;
      if startTime.None? then Err
      else
        match StartTimestamp(since, until, startTime.value)
        case Ok(start) => Ok(VehicleJourney(tripId, start, stops))
        case Err => Err
  }

  /** An instant of the search period at this time of day. */
  predicate Candidate(since: int, until: int, startTime: TimeOfDay, instant: int) {
    since <= instant <= until && TimeOf(instant) == startTime
  }

  /** The start is the earliest instant of the period at this time of day, and is refused iff there is none. */
  lemma EarliestStart(since: int, until: int, startTime: TimeOfDay)
    ensures match StartTimestamp(since, until, startTime)
            case Ok(start) =>
              Candidate(since, until, startTime, start)
              && forall instant :: Candidate(since, until, startTime, instant) ==> start <= instant
            case Err => forall instant :: !Candidate(since, until, startTime, instant)
  {
  }

  /**
   * A true start is found from its time of day exactly when it lies in the period, less than a day after its
   * beginning.
   */
  lemma TrueStartFound(since: int, until: int, start: int)
    ensures StartTimestamp(since, until, TimeOf(start)) == Ok(start) <==> since <= start <= until && start < since + DAY
  {
  }

  /**
   * An added trip, without base schedule, starts when it says, whatever the search period, and is refused without a
   * start; a trip with a base schedule never does: it starts at its first time of day, and is refused without one.
   */
  lemma StartBySchedule(tripId: string, stops: seq<BaseStop>, since: int, until: int, ownStart: Option<int>)
    ensures var vj := MakeVehicleJourney(tripId, stops, since, until, ownStart);
      && (vj.Ok? ==> vj.value.tripId == tripId && vj.value.stops == stops)
      && (stops == [] ==> (vj.Ok? <==> ownStart.Some?) && (vj.Ok? ==> vj.value.start == ownStart.value))
      && (stops != [] ==>
            && (vj.Ok? ==> since <= vj.value.start <= until
                           && TimeOf(vj.value.start) == if stops[0].arr.Some? then stops[0].arr.value
                             else stops[0].dep.GetOr(0))
            && (stops[0].arr.None? && stops[0].dep.None? ==> vj.Err?)
            && (vj.Err? && (stops[0].arr.Some? || stops[0].dep.Some?) ==>
                  forall instant :: since <= instant <= until ==>
                    Some(TimeOf(instant)) != if stops[0].arr.Some? then stops[0].arr else stops[0].dep))
  {
    if stops != [] && (stops[0].arr.Some? || stops[0].dep.Some?) {
      var time := if stops[0].arr.Some? then stops[0].arr.value else stops[0].dep.value;
      EarliestStart(since, until, time);
      assert forall instant :: since <= instant <= until && TimeOf(instant) == time ==>
        Candidate(since, until, time, instant);
    }
  }

  // ---------------------------------------------------------------- the GTFS-RT search window

  const TOLERANCE: int := 3 * HOUR

  function FloorHour(instant: int): (r: int)
    ensures r <= instant < r + HOUR && r % HOUR == 0
  {
    instant - instant % HOUR
  }

  function Since(feedTime: int): int {
    FloorHour(feedTime - TOLERANCE)
  }

  function Until(feedTime: int): int {
    FloorHour(feedTime + TOLERANCE + HOUR)
  }

  /** A trip that truly starts within three hours of the feed's timestamp gets its true start. */
  lemma StartNearFeedFound(tripId: string, stops: seq<BaseStop>, feedTime: int, start: int)
    requires feedTime - 3 * HOUR <= start <= feedTime + 3 * HOUR
    requires stops != [] && (stops[0].arr == Some(TimeOf(start))
                             || (stops[0].arr.None? && stops[0].dep == Some(TimeOf(start))))
    ensures MakeVehicleJourney(tripId, stops, Since(feedTime), Until(feedTime), None)
      == Ok(VehicleJourney(tripId, start, stops))
  {
    TrueStartFound(Since(feedTime), Until(feedTime), start);
  }

  /** Any other start the window accepts lies less than four hours before or at most four hours after the feed. */
  lemma WindowIsTight(feedTime: int, startTime: TimeOfDay)
    ensures var r := StartTimestamp(Since(feedTime), Until(feedTime), startTime);
            r.Ok? ==> feedTime - 4 * HOUR < r.value <= feedTime + 4 * HOUR
  {
  }
}
