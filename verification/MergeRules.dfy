/** What `merge` computes (kirin/core/merge_utils.py), as functions on values. */
module MergeRules {
  import opened Basics
  import opened StopTimes

  // ---------------------------------------------------------------- which stops are visited

  /** A stop to visit, with the order it is given. */
  datatype Item = Item(order: nat, nav: BaseStop)

  function FindInBase(id: StopId, base: seq<BaseStop>): (r: Option<BaseStop>)
    ensures r.Some? ==> r.value in base && r.value.id == id
    ensures r.None? <==> forall b :: b in base ==> b.id != id
  {
    if base == [] then None
    else if base[0].id == id then Some(base[0])
    else FindInBase(id, base[1..])
  }

  /** It is the first one with that id. */
  lemma {:induction false} FindInBaseIsFirst(id: StopId, base: seq<BaseStop>, i: nat)
    requires i < |base| && base[i].id == id && forall k :: 0 <= k < i ==> base[k].id != id
    ensures FindInBase(id, base) == Some(base[i])
  {
    if i > 0 {
      FindInBaseIsFirst(id, base[1..], i - 1);
    }
  }

  function BaseTime(side: Side, nav: BaseStop): Option<TimeOfDay> {
    if side == Arrival then nav.arr else nav.dep
  }

  /** is_stop_event_served: the feed decides, else the stored trip, else the base schedule. */
  predicate Served(side: Side, id: StopId, order: int, nav: Option<BaseStop>, db: Option<seq<Stop>>,
                   entry: Option<Stop>) {
    if entry.Some? then !entry.value.At(side).Deleted()
    else
      var stored := if db.Some? then FindStop(db.value, id, order) else None;
      if stored.Some? then !stored.value.At(side).Deleted()
      else nav.Some? && BaseTime(side, nav.value).Some?
  }

  /** is_new_stop_event_valid, for a stop outside the base schedule. */
  predicate ValidOutsideBase(side: Side, id: StopId, order: int, db: Option<seq<Stop>>, entry: Stop) {
    var stored := if db.Some? then FindStop(db.value, id, order) else None;
    if stored.Some? && stored.value.At(side).status == entry.At(side).status then true
    else entry.At(side).Added() != Served(side, id, order, None, db, None)
  }

  /** make_fake_realtime_stop_time; None when it has no time to read and raises. */
  function FakeStop(order: int, entry: Stop, db: Option<seq<Stop>>): (r: Option<BaseStop>)
    ensures r.Some? ==> r.value.id == entry.id && r.value.arr.Some? && r.value.dep.Some?
  {
    var stored := if db.Some? then FindStop(db.value, entry.id, order) else None;
    var (arr, dep) :=
      if stored.Some? && entry.dep.time.None? && entry.arr.time.None? then
        (stored.value.arr.time, stored.value.dep.time)
      else
        (Delayed(if entry.arr.time.Some? then entry.arr.time else entry.dep.time, entry.arr.delay),
         Delayed(if entry.dep.time.Some? then entry.dep.time else entry.arr.time, entry.dep.delay));
    if arr.Some? && dep.Some? then Some(BaseStop(entry.id, Some(TimeOf(arr.value)), Some(TimeOf(dep.value))))
    else None
  }

  /**
   * Which times an invented stop is given: those of the feed when it has any, an event without time taking the other
   * one's, each with its own delay; else those of the stored stop, if it has both.
   */
  lemma FakeStopTimes(order: int, entry: Stop, db: Option<seq<Stop>>)
    ensures var fake := FakeStop(order, entry, db);
            var stored := if db.Some? then FindStop(db.value, entry.id, order) else None;
      if entry.arr.time.None? && entry.dep.time.None? then
        fake == (if stored.Some? && stored.value.arr.time.Some? && stored.value.dep.time.Some? then
                   Some(BaseStop(entry.id, Some(TimeOf(stored.value.arr.time.value)),
                                 Some(TimeOf(stored.value.dep.time.value))))
                 else None)
      else
        fake.Some? && forall side, other ::
          entry.At(side).time.Some? && (other == side || entry.At(other).time.None?) ==>
            BaseTime(other, fake.value) == Some(TimeOf(entry.At(side).time.value + entry.At(other).delay.GetOr(0)))
  {
    hide FindStop;
  }

  function Delayed(time: Option<int>, delay: Option<int>): Option<int> {
    if time.Some? then Some(time.value + delay.GetOr(0)) else None
  }

  /** How a complete feed visits its k-th stop: Err when the visit raises, Ok(None) when the stop is dropped. */
  function Visit(base: seq<BaseStop>, db: Option<seq<Stop>>, entry: Stop, k: nat): (r: Result<Option<Item>>)
    ensures r.Ok? && r.value.Some? ==> r.value.value.order == k && r.value.value.nav.id == entry.id
  {
    var nav := FindInBase(entry.id, base);
    if nav.Some? then Ok(Some(Item(k, nav.value)))
    else if ValidOutsideBase(Arrival, entry.id, k, db, entry)
      || ValidOutsideBase(Departure, entry.id, k, db, entry) then
      var fake := FakeStop(k, entry, db);
      if fake.Some? then Ok(Some(Item(k, fake.value))) else Err
    else Ok(None)
  }

  /** The stops visited for the first k stops of a complete feed; Err once a visit has raised. */
  function FeedItems(base: seq<BaseStop>, db: Option<seq<Stop>>, feed: seq<Stop>, k: nat): (r: Result<seq<Item>>)
    requires k <= |feed|
    ensures r.Ok? ==> |r.value| <= k
    ensures r.Ok? ==> forall j :: 0 <= j < |r.value| ==>
      j <= r.value[j].order < k && r.value[j].nav.id == feed[r.value[j].order].id
    ensures r.Ok? ==> forall i, j :: 0 <= i < j < |r.value| ==> r.value[i].order < r.value[j].order
  {
    if k == 0 then Ok([])
    else
      var before := FeedItems(base, db, feed, k - 1);
      var visit := Visit(base, db, feed[k - 1], k - 1);
      if before.Err? || visit.Err? then Err
      else if visit.value.None? then before
      else Ok(before.value + [visit.value.value])
  }

  function BaseItems(base: seq<BaseStop>): (r: seq<Item>)
    ensures |r| == |base| && forall i :: 0 <= i < |base| ==> r[i] == Item(i, base[i])
  {
    seq(|base|, i requires 0 <= i < |base| => Item(i, base[i]))
  }

  function Items(base: seq<BaseStop>, db: Option<seq<Stop>>, feed: seq<Stop>, complete: bool): Result<seq<Item>> {
    if complete then FeedItems(base, db, feed, |feed|) else Ok(BaseItems(base))
  }

  // ---------------------------------------------------------------- the clock: dates from times of day

  /** The last served event: nothing yet, or its time of day (possibly unknown) and feed delay. */
  datatype Memory = Nothing | Seen(time: Option<TimeOfDay>, delay: int)

  datatype Clock = Clock(date: int, memory: Memory)

  /** A stop event as the clock sees it. */
  datatype Tick = Tick(served: bool, time: Option<TimeOfDay>, delay: int)

  predicate PastMidnight(memory: Memory, time: TimeOfDay, delay: int) {
    && memory.Seen? && memory.time.Some?
    && memory.time.value > time
    && memory.time.value + memory.delay > time + delay
  }

  function Advance(c: Clock, t: Tick): Clock {
    if !t.served then c
    else
      Clock(if t.time.Some? && PastMidnight(c.memory, t.time.value, t.delay) then c.date + 1 else c.date,
            Seen(t.time, t.delay))
  }

  /** The base datetime the clock gives to the event it has just advanced over. */
  function Dated(after: Clock, t: Tick): Option<int> {
    if t.served && t.time.Some? then Some(Combine(after.date, t.time.value)) else None
  }

  function TickOf(side: Side, item: Item, db: Option<seq<Stop>>, entry: Option<Stop>): Tick {
    Tick(Served(side, item.nav.id, item.order, Some(item.nav), db, entry),
         BaseTime(side, item.nav),
         if entry.Some? then entry.value.At(side).delay.GetOr(0) else 0)
  }

  // ---------------------------------------------------------------- one stop

  /** _get_update_info_of_stop_event */
  function UpdateInfo(base: Option<int>, input: Event): (r: Event)
    requires input.CarriesDelay()
    ensures r.delay.Some? && r.status == input.status
  {
    match input.status
    case Update => Event(Delayed(base, input.delay), input.delay, Update)
    case Delete | DeletedForDetour => Event(None, Some(0), input.status)
    case Add | AddedForDetour => Event(Delayed(input.time, input.delay), Some(0), input.status)
    case NoChange => Event(base, Some(0), NoChange)
  }

  /** Moves an event with a delay to a later time, the delay growing as much. */
  function PushedTo(e: Event, time: int): Event
    requires e.time.Some? && e.delay.Some?
  {
    if e.time.value < time then e.(time := Some(time), delay := Some(e.delay.value + time - e.time.value)) else e
  }

  /** _make_stop_time_update */
  function Updated(baseArr: Option<int>, baseDep: Option<int>, last: Option<int>, input: Stop, id: StopId,
                   order: int): Stop
    requires input.CarriesDelay()
  {
    var dep0 := UpdateInfo(baseDep, input.dep);
    var arr0 := UpdateInfo(baseArr, input.arr);
    var arr1 := if arr0.time.Some? then arr0 else arr0.(time := if dep0.time.Some? then dep0.time else last);
    var dep1 := if dep0.time.Some? then dep0 else dep0.(time := arr1.time);
    var arr2 := if last.Some? && arr1.time.Some? then PushedTo(arr1, last.value) else arr1;
    var dep2 := if arr2.time.Some? then PushedTo(dep1, arr2.time.value) else dep1;
    Stop(id, Some(order), input.message, arr2, dep2)
  }

  /** A stop for which neither the feed nor the database has anything to say. */
  function Plain(baseArr: Option<int>, baseDep: Option<int>, id: StopId, order: int): Stop {
    Stop(id, Some(order), None, Event(baseArr, None, NoChange), Event(baseDep, None, NoChange))
  }

  // ---------------------------------------------------------------- the loop

  datatype Loop = Loop(clock: Clock, last: Option<int>, changed: bool, out: seq<Stop>)

  /** What the loop keeps for a stop, and whether something has changed so far. */
  datatype Kept = Kept(changed: bool, stop: Stop)

  /** The four cases: an entry of the feed or not, a stored stop or not. */
  function Keep(changed: bool, baseArr: Option<int>, baseDep: Option<int>, last: Option<int>,
                entry: Option<Stop>, stored: Option<Stop>, id: StopId, order: int): Kept
    requires entry.Some? ==> entry.value.CarriesDelay()
  {
    if entry.Some? then
      var updated := Updated(baseArr, baseDep, last, entry.value, id, order);
      var changed' := changed || stored != Some(updated);
      Kept(changed', if changed' then updated else stored.value)
    else if stored.Some? then Kept(changed, stored.value)
    else Kept(true, Plain(baseArr, baseDep, id, order))
  }

  function Step(s: Loop, item: Item, db: Option<seq<Stop>>, feed: seq<Stop>): (r: Loop)
    requires UpdatesCarryDelay(feed)
    ensures |r.out| == |s.out| + 1 && s.out <= r.out
  {
    var entry := FindStop(feed, item.nav.id, item.order);
    var stored := if db.Some? then FindStop(db.value, item.nav.id, item.order) else None;
    var arrTick := TickOf(Arrival, item, db, entry);
    var arrClock := Advance(s.clock, arrTick);
    var depTick := TickOf(Departure, item, db, entry);
    var depClock := Advance(arrClock, depTick);
    var kept := Keep(s.changed, Dated(arrClock, arrTick), Dated(depClock, depTick), s.last,
                     entry, stored, item.nav.id, item.order);
    Loop(depClock, kept.stop.dep.time, kept.changed, s.out + [kept.stop])
  }

  /** The loop's state after the first k visited stops. */
  function Run(date: int, items: seq<Item>, db: Option<seq<Stop>>, feed: seq<Stop>, k: nat): (r: Loop)
    requires UpdatesCarryDelay(feed) && k <= |items|
    ensures |r.out| == k
  {
    if k == 0 then Loop(Clock(date, Nothing), None, false, [])
    else Step(Run(date, items, db, feed, k - 1), items[k - 1], db, feed)
  }

  // ---------------------------------------------------------------- the whole merge

  /** How a merge ends; `trip` is the value then held by the stored trip, or by the feed's when none is stored. */
  datatype Outcome = Raised(trip: Trip) | Unchanged(trip: Trip) | Merged(trip: Trip)

  /** The part of a merge that happens whatever the stops: status, effect and message. */
  function WithHeader(db: Option<Trip>, feed: Trip, complete: bool): Trip {
    var res := db.GetOr(feed);
    Trip(feed.status, feed.effect,
         if feed.message.Some? || complete then feed.message else res.message,
         res.stops)
  }

  function StopsOf(db: Option<Trip>): Option<seq<Stop>> {
    if db.Some? then Some(db.value.stops) else None
  }

  function Merge(vj: VehicleJourney, db: Option<Trip>, feed: Trip, complete: bool): Outcome
    requires UpdatesCarryDelay(feed.stops)
  {
    var res := WithHeader(db, feed, complete);
    if feed.status == Delete then Merged(res.(stops := []))
    else MergeStops(vj, res, StopsOf(db), feed.stops, complete)
  }

  /** A merge once the header is set, for a trip that is not cancelled. */
  function MergeStops(vj: VehicleJourney, res: Trip, db: Option<seq<Stop>>, feed: seq<Stop>, complete: bool): Outcome
    requires UpdatesCarryDelay(feed)
  {
    var items := Items(vj.stops, db, feed, complete);
    if items.Err? then Raised(res)
    else
      var end := Run(vj.CirculationDate(), items.value, db, feed, |items.value|);
      if end.changed then Merged(res.(stops := end.out)) else Unchanged(res)
  }
}
