/** `merge` on the mutable records (kirin/core/merge_utils.py). */
module Merging {
  import opened Basics
  import opened StopTimes
  import Rules = MergeRules

  /** _make_stop_time_update: the stored record for a stop the feed mentions. */
  method MakeStopTimeUpdate(baseArrival: Option<int>, baseDeparture: Option<int>, lastDeparture: Option<int>,
                            input: StopTimeUpdate, id: StopId, order: int)
    returns (r: StopTimeUpdate)
    requires input.View().CarriesDelay()
    ensures fresh(r)
    ensures r.View() == Rules.Updated(baseArrival, baseDeparture, lastDeparture, input.View(), id, order)
  {
    var dep := Rules.UpdateInfo(baseDeparture, input.View().dep);
    var arr := Rules.UpdateInfo(baseArrival, input.View().arr);
    var arrTime, arrDelay := arr.time, arr.delay.value;
    var depTime, depDelay := dep.time, dep.delay.value;

    // missing times
    if arrTime.None? {
      arrTime := if depTime.Some? then depTime else lastDeparture;
    }
    if depTime.None? {
      depTime := arrTime;
    }
    // the arrival cannot precede the previous departure
    if lastDeparture.Some? && lastDeparture.value > arrTime.value {
      arrDelay := arrDelay + lastDeparture.value - arrTime.value;
      arrTime := lastDeparture;
    }
    // the departure cannot precede the arrival
    if arrTime.Some? && arrTime.value > depTime.value {
      depDelay := depDelay + arrTime.value - depTime.value;
      depTime := arrTime;
    }
    r := new StopTimeUpdate(Stop(id, Some(order), input.message,
                                 Event(arrTime, Some(arrDelay), arr.status),
                                 Event(depTime, Some(depDelay), dep.status)));
  }

  datatype Answer = Failed | NoNews | Result(trip: TripUpdate)

  function Snapshot(trip: TripUpdate?): Option<Trip>
    reads trip, if trip != null then trip.stops else []
  {
    if trip == null then None else Some(trip.View())
  }

  function StoredStops(trip: TripUpdate?): Option<seq<Stop>>
    reads trip, if trip != null then trip.stops else []
  {
    if trip == null then None else Some(Views(trip.stops))
  }

  /** What an answer tells about the outcome that the rules predict. */
  predicate Agrees(answer: Answer, outcome: Rules.Outcome, target: TripUpdate) {
    match answer
    case Failed => outcome.Raised?
    case NoNews => outcome.Unchanged?
    case Result(trip) => outcome.Merged? && trip == target
  }

  /** The clock over one event of a visited stop, and the base datetime it gives. */
  method DateEvent(side: Side, item: Rules.Item, stored: Option<seq<Stop>>, newSt: StopTimeUpdate?, date: int,
                   memory: Rules.Memory)
    returns (date': int, memory': Rules.Memory, base: Option<int>)
    ensures var tick := Rules.TickOf(side, item, stored, if newSt == null then None else Some(newSt.View()));
            var after := Rules.Advance(Rules.Clock(date, memory), tick);
            after == Rules.Clock(date', memory') && base == Rules.Dated(after, tick)
  {
    hide Rules.Served, Rules.PastMidnight;
    var entry := if newSt == null then None else Some(newSt.View());
    date', memory', base := date, memory, None;
    // considering only served events
    if Rules.Served(side, item.nav.id, item.order, Some(item.nav), stored, entry) {
      var navTime := Rules.BaseTime(side, item.nav);
      var delay :=
        if newSt != null && Truthy(newSt.View().At(side).delay) then newSt.View().At(side).delay.value else 0;
      if navTime.Some? {
        if Rules.PastMidnight(memory, navTime.value, delay) {
          date' := date + 1;
        }
        base := Some(Combine(date', navTime.value));
      }
      memory' := Rules.Seen(navTime, delay);
    }
  }

  /** One iteration of the loop: the record to keep for a visited stop. */
  method MergeStop(item: Rules.Item, db: TripUpdate?, feed: TripUpdate, ghost s: Rules.Loop,
                   date: int, memory: Rules.Memory, lastDeparture: Option<int>, hasChanges: bool)
    returns (date': int, memory': Rules.Memory, changes: bool, kept: StopTimeUpdate)
    requires UpdatesCarryDelay(Views(feed.stops))
    requires s.clock == Rules.Clock(date, memory) && s.last == lastDeparture && s.changed == hasChanges
    ensures fresh(kept) || (db != null && kept in db.stops)
    ensures Rules.Step(s, item, StoredStops(db), Views(feed.stops))
            == Rules.Loop(Rules.Clock(date', memory'), kept.departure, changes, s.out + [kept.View()])
  {
    hide Rules.TickOf, Rules.Advance, Rules.Dated, Rules.Keep, FindStop;
    var stored := StoredStops(db);
    var newSt := feed.Find(item.nav.id, item.order);
    var baseArrival, baseDeparture;
    date', memory', baseArrival := DateEvent(Arrival, item, stored, newSt, date, memory);
    date', memory', baseDeparture := DateEvent(Departure, item, stored, newSt, date', memory');
    changes, kept := KeepStop(item, db, newSt, baseArrival, baseDeparture, lastDeparture, hasChanges);
  }

  /** The four cases: what the feed says and what the database says about the stop. */
  method KeepStop(item: Rules.Item, db: TripUpdate?, newSt: StopTimeUpdate?,
                  baseArrival: Option<int>, baseDeparture: Option<int>, lastDeparture: Option<int>, hasChanges: bool)
    returns (changes: bool, kept: StopTimeUpdate)
    requires newSt != null ==> newSt.View().CarriesDelay()
    ensures fresh(kept) || (db != null && kept in db.stops)
    ensures Rules.Keep(hasChanges, baseArrival, baseDeparture, lastDeparture,
                       if newSt == null then None else Some(newSt.View()),
                       if db == null then None else FindStop(Views(db.stops), item.nav.id, item.order),
                       item.nav.id, item.order)
            == Rules.Kept(changes, kept.View())
  {
    var id, order := item.nav.id, item.order;
    changes := hasChanges;
    if db != null && newSt != null {
      var dbSt := db.Find(id, order);
      var update := MakeStopTimeUpdate(baseArrival, baseDeparture, lastDeparture, newSt, id, order);
      changes := changes || dbSt == null || dbSt.IsNotEqual(update);
      kept := if changes then update else dbSt;
    } else if db == null && newSt != null {
      changes := true;
      kept := MakeStopTimeUpdate(baseArrival, baseDeparture, lastDeparture, newSt, id, order);
    } else if db != null && newSt == null {
      var dbSt := db.Find(id, order);
      if dbSt != null {
        kept := dbSt;
      } else {
        changes := true;
        kept := new StopTimeUpdate(Rules.Plain(baseArrival, baseDeparture, id, order));
      }
    } else {
      changes := true;
      kept := new StopTimeUpdate(Rules.Plain(baseArrival, baseDeparture, id, order));
    }
  }

  /** The loop over the visited stops. */
  method MergeStops(items: seq<Rules.Item>, db: TripUpdate?, feed: TripUpdate)
    returns (hasChanges: bool, list: seq<StopTimeUpdate>)
    requires UpdatesCarryDelay(Views(feed.stops))
    ensures var end := Rules.Run(feed.vj.CirculationDate(), items, StoredStops(db), Views(feed.stops), |items|);
            hasChanges == end.changed && Views(list) == end.out
    ensures forall s :: s in list ==> fresh(s) || (db != null && s in db.stops)
  {
    hide Rules.Step, Views;
    ghost var stored, entries := StoredStops(db), Views(feed.stops);
    var memory, lastDeparture := Rules.Nothing, None;
    var date := feed.vj.CirculationDate();
    hasChanges, list := false, [];
    var k := 0;
    while k < |items|
      invariant 0 <= k <= |items|
      invariant Rules.Run(feed.vj.CirculationDate(), items, stored, entries, k)
             == Rules.Loop(Rules.Clock(date, memory), lastDeparture, hasChanges, Views(list))
      invariant forall s :: s in list ==> fresh(s) || (db != null && s in db.stops)
    {
      ghost var s := Rules.Run(feed.vj.CirculationDate(), items, stored, entries, k);
      var kept;
      date, memory, hasChanges, kept := MergeStop(items[k], db, feed, s, date, memory, lastDeparture, hasChanges);
      lastDeparture := kept.departure;
      list := list + [kept];
      assert Views(list) == s.out + [kept.View()];
      k := k + 1;
    }
  }

  /** merge: updates the stored trip if there is one, else the feed's own, as the rules say. */
  method Merge(db: TripUpdate?, feed: TripUpdate, complete: bool) returns (answer: Answer)
    requires UpdatesCarryDelay(Views(feed.stops)) && db != feed
    modifies if db != null then db else feed
    ensures var target := if db != null then db else feed;
            var outcome := Rules.Merge(feed.vj, old(Snapshot(db)), old(feed.View()), complete);
            && Agrees(answer, outcome, target)
            && target.View() == outcome.trip
            && (forall s :: s in target.stops ==> s in old(target.stops) || fresh(s))
  {
    var res := if db != null then db else feed;
    ghost var header := Rules.WithHeader(Snapshot(db), feed.View(), complete);
    MergeHeader(res, feed, complete);
    if res.status == Delete {
      res.stops := [];
      return Result(res);
    }
    answer := MergeBody(res, db, feed, complete, header);
  }

  /** What a merge changes whatever the stops: status, effect and message. */
  method MergeHeader(res: TripUpdate, feed: TripUpdate, complete: bool)
    modifies res`status, res`effect, res`message
    ensures res.status == old(feed.status) && res.effect == old(feed.effect)
    ensures res.message == if old(feed.message).Some? || complete then old(feed.message) else old(res.message)
  {
    res.status := feed.status;
    res.effect := feed.effect;
    if feed.message.Some? || complete {
      res.message := feed.message;
    }
  }

  /** The rest of a merge, for a trip that is not cancelled: the visits, the loop, and the stops if any has changed. */
  method MergeBody(res: TripUpdate, db: TripUpdate?, feed: TripUpdate, complete: bool, ghost header: Trip)
    returns (answer: Answer)
    requires UpdatesCarryDelay(Views(feed.stops)) && res == (if db != null then db else feed)
    requires res.View() == header && header.status != Delete
    modifies res`stops
    ensures var outcome := Rules.MergeStops(feed.vj, header, old(StoredStops(db)), old(Views(feed.stops)), complete);
            && Agrees(answer, outcome, res)
            && res.View() == outcome.trip
            && (forall s :: s in res.stops ==> s in old(res.stops) || fresh(s))
  {
    hide Rules.Run, Rules.Items, Views;
    var visits := Rules.Items(feed.vj.stops, StoredStops(db), Views(feed.stops), complete);
    if visits.Err? {
      return Failed;
    }
    var hasChanges, list := MergeStops(visits.value, db, feed);
    if hasChanges {
      res.stops := list;
      return Result(res);
    }
    return NoNews;
  }
}
