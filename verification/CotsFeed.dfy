/**
 * COTS: the stop loop that builds a trip's feed, and its fidelity through merge and repair
 * (kirin/cots/model_maker.py:387-557).
 */
module CotsFeed {
  import opened Basics
  import opened StopTimes
  import opened StopFilters
  import opened MergeRules
  import opened RepairLaws
  import opened MergeLaws
  import opened FeedLaws
  import opened Handling

  // ---------------------------------------------------------------- one stop

  /** A stop event read from the feed, with the time it is projected at. */
  datatype Reading = Reading(event: Event, projected: Option<int>)

  /** Adding a delay to a missing datetime raises, and so does an unknown status. */
  function ReadEvent(t: Option<TravellerTime>): Result<Reading> {
    if t.None? then Ok(Reading(Event(None, None, NoChange), None))
    else
      var TravellerTime(status, base, delay) := t.value;
      match status
      case Unspecified | Reactivation =>
        if delay.None? then Ok(Reading(Event(None, None, NoChange), base))
        else if base.None? then Err
        else Ok(Reading(Event(None, delay, Update), Some(base.value + delay.value)))
      case Suppression => Ok(Reading(Event(None, None, Delete), None))
      case DetourSuppression => Ok(Reading(Event(None, None, DeletedForDetour), None))
      case Creation | Detour =>
        if delay.Some? && base.None? then Err
        else
          var projected := Delayed(base, delay);
          Ok(Reading(Event(projected, None, if status == Creation then Add else AddedForDetour), projected))
      case Unknown => Err
  }

  /** _check_stop_time_consistency; `epoch` stands for the very first stop. */
  predicate Consistent(epoch: int, last: Option<int>, arr: Option<int>, dep: Option<int>) {
    var before := last.GetOr(epoch);
    var arrival := arr.GetOr(before);
    before <= arrival <= dep.GetOr(arrival)
  }

  // ---------------------------------------------------------------- the loop

  /** The stops read so far and the departure projected at the last of them. */
  datatype Feed = Feed(stops: seq<Stop>, last: Option<int>)

  function ReadStop(epoch: int, f: Feed, p: Pdp): Result<Feed> {
    if p.point.None? then Ok(f)
    else
      var arr, dep := ReadEvent(p.arr), ReadEvent(p.dep);
      if arr.Err? || dep.Err? || !Consistent(epoch, f.last, arr.value.projected, dep.value.projected) then Err
      else
        Ok(Feed(f.stops + [Stop(p.point.value, Some(|f.stops|), p.message, arr.value.event, dep.value.event)],
                dep.value.projected))
  }

  /** The feed read from the first k stops; Err as soon as one is rejected. */
  function ReadStops(epoch: int, pdps: seq<Pdp>, k: nat): Result<Feed>
    requires k <= |pdps|
  {
    if k == 0 then Ok(Feed([], None))
    else
      match ReadStops(epoch, pdps, k - 1)
      case Ok(f) => ReadStop(epoch, f, pdps[k - 1])
      case Err => Err
  }

  /** Fills one side of a stop record from what the feed says of it. */
  method FillEvent(stu: StopTimeUpdate, side: Side, t: Option<TravellerTime>) returns (r: Result<Option<int>>)
    requires stu.View().At(side) == Event(None, None, NoChange)
    modifies stu
    ensures match ReadEvent(t)
            case Ok(reading) =>
              r == Ok(reading.projected)
              && stu.View() == (if side == Arrival then old(stu.View()).(arr := reading.event)
                                else old(stu.View()).(dep := reading.event))
            case Err => r.Err?
  {
    if t.None? {
      return Ok(None);
    }
    var projected: Option<int> := None;
    var status, delay, time := NoChange, None, None;
    match t.value.status {
      case Unspecified | Reactivation =>
        projected := t.value.base;
        if t.value.delay.Some? {
          if projected.None? {
            return Err;
          }
          projected := Some(projected.value + t.value.delay.value);
          status, delay := Update, t.value.delay;
        }
      case Suppression =>
        status := Delete;
      case DetourSuppression =>
        status := DeletedForDetour;
      case Creation | Detour =>
        projected := t.value.base;
        if t.value.delay.Some? {
          if projected.None? {
            return Err;
          }
          projected := Some(projected.value + t.value.delay.value);
        }
        time := projected;
        status := if t.value.status == Creation then Add else AddedForDetour;
      case Unknown =>
        return Err;
    }
    if side == Arrival {
      stu.arrival, stu.arrivalDelay, stu.arrivalStatus := time, delay, status;
    } else {
      stu.departure, stu.departureDelay, stu.departureStatus := time, delay, status;
    }
    return Ok(projected);
  }

  /** One iteration of the stop loop: appends the record of a known stop, or rejects the feed. */
  method MakeStop(trip: TripUpdate, p: Pdp, epoch: int, last: Option<int>, ghost f: Feed)
    returns (r: Result<Option<int>>)
    requires p.point.Some? && Views(trip.stops) == f.stops && f.last == last
    modifies trip`stops
    ensures match ReadStop(epoch, f, p)
            case Ok(next) => r == Ok(next.last) && Views(trip.stops) == next.stops
            case Err => r.Err?
  {
    hide ReadEvent, Consistent;
    var stu := new StopTimeUpdate(Stop(p.point.value, None, p.message, Event(None, None, NoChange),
                                       Event(None, None, NoChange)));
    trip.Append(stu);
    var arr := FillEvent(stu, Arrival, p.arr);
    if arr.Err? {
      return Err;
    }
    var dep := FillEvent(stu, Departure, p.dep);
    if dep.Err? {
      return Err;
    }
    if !Consistent(epoch, last, arr.value, dep.value) {
      return Err;
    }
    assert forall i :: 0 <= i < |f.stops| ==> trip.stops[i].View() == f.stops[i];
    return dep;
  }

  /** The stop loop of _make_trip_update, on the filtered list. */
  method MakeStops(trip: TripUpdate, pdps: seq<Pdp>, epoch: int) returns (ok: bool)
    requires trip.stops == []
    modifies trip`stops
    ensures match ReadStops(epoch, pdps, |pdps|)
            case Ok(f) => ok && Views(trip.stops) == f.stops
            case Err => !ok
  {
    var last: Option<int> := None;
    var k := 0;
    while k < |pdps|
      invariant 0 <= k <= |pdps|
      invariant ReadStops(epoch, pdps, k) == Ok(Feed(Views(trip.stops), last))
    {
      if pdps[k].point.Some? {
        var r := MakeStop(trip, pdps[k], epoch, last, Feed(Views(trip.stops), last));
        if r.Err? {
          RejectedFeed(epoch, pdps, k + 1, |pdps|);
          return false;
        }
        last := r.value;
      }
      k := k + 1;
    }
    return true;
  }

  lemma {:induction false} RejectedFeed(epoch: int, pdps: seq<Pdp>, i: nat, k: nat)
    requires i <= k <= |pdps| && ReadStops(epoch, pdps, i).Err?
    ensures ReadStops(epoch, pdps, k).Err?
  {
    if i < k {
      RejectedFeed(epoch, pdps, i, k - 1);
    }
  }

  // ---------------------------------------------------------------- what the loop guarantees to the merge

  function TravellerOf(p: Pdp, side: Side): Option<TravellerTime> {
    if side == Arrival then p.arr else p.dep
  }

  /** The time an event is projected at, if any. */
  function Projected(p: Pdp, side: Side): Option<int> {
    var reading := ReadEvent(TravellerOf(p, side));
    if reading.Ok? then reading.value.projected else None
  }

  /** The stops that resolve to a known stop point: the loop skips the others. */
  function KnownStops(pdps: seq<Pdp>): (r: seq<Pdp>)
    ensures AllKnown(r)
  {
    if pdps == [] then []
    else
      var p := pdps[|pdps| - 1];
      KnownStops(pdps[..|pdps| - 1]) + if p.point.Some? then [p] else []
  }

  predicate AllKnown(pdps: seq<Pdp>) {
    forall i :: 0 <= i < |pdps| ==> pdps[i].point.Some?
  }

  lemma {:induction false} ReadPrefix(epoch: int, pdps: seq<Pdp>, more: seq<Pdp>, k: nat)
    requires k <= |pdps|
    ensures ReadStops(epoch, pdps + more, k) == ReadStops(epoch, pdps, k)
  {
    if k > 0 {
      ReadPrefix(epoch, pdps, more, k - 1);
    }
  }

  /** Unknown stops have no part in the feed. */
  lemma {:induction false} ReadKnownStops(epoch: int, pdps: seq<Pdp>)
    ensures ReadStops(epoch, pdps, |pdps|) == ReadStops(epoch, KnownStops(pdps), |KnownStops(pdps)|)
  {
    if pdps != [] {
      hide ReadStop;
      var n := |pdps| - 1;
      var before, p := pdps[..n], pdps[n];
      ReadKnownStops(epoch, before);
      assert before + [p] == pdps;
      ReadPrefix(epoch, before, [p], n);
      var known := KnownStops(before);
      ReadPrefix(epoch, known, [p], |known|);
      UnknownIsSkipped(epoch, p);
      assert KnownStops(pdps) == if p.point.Some? then known + [p] else known;
    }
  }

  lemma UnknownIsSkipped(epoch: int, p: Pdp)
    ensures p.point.None? ==> forall f :: ReadStop(epoch, f, p) == Ok(f)
  {
  }

  /** The departure projected at the last of the first k stops: what the next stop is checked against. */
  function DepartureToCheck(pdps: seq<Pdp>, k: nat): Option<int>
    requires k <= |pdps|
  {
    if k == 0 then None else Projected(pdps[k - 1], Departure)
  }

  /** The k-th stop can be read and is consistent with the departure of the one before. */
  predicate Readable(epoch: int, pdps: seq<Pdp>, k: nat)
    requires k < |pdps|
  {
    && ReadEvent(pdps[k].arr).Ok? && ReadEvent(pdps[k].dep).Ok?
    && Consistent(epoch, DepartureToCheck(pdps, k), Projected(pdps[k], Arrival), Projected(pdps[k], Departure))
  }

  /** The feed made of stops that can be read. */
  function StopsRead(pdps: seq<Pdp>, k: nat): (r: seq<Stop>)
    requires k <= |pdps| && AllKnown(pdps)
    requires forall i :: 0 <= i < k ==> ReadEvent(pdps[i].arr).Ok? && ReadEvent(pdps[i].dep).Ok?
    ensures |r| == k
  {
    seq(k, i requires 0 <= i < k =>
      Stop(pdps[i].point.value, Some(i), pdps[i].message, ReadEvent(pdps[i].arr).value.event,
           ReadEvent(pdps[i].dep).value.event))
  }

  /** A feed of known stops is accepted exactly when each of them is, and has one record for each. */
  lemma {:induction false} ReadExactly(epoch: int, pdps: seq<Pdp>, k: nat)
    requires k <= |pdps| && AllKnown(pdps)
    ensures ReadStops(epoch, pdps, k).Ok? <==> forall i :: 0 <= i < k ==> Readable(epoch, pdps, i)
    ensures ReadStops(epoch, pdps, k).Ok? ==>
      (forall i :: 0 <= i < k ==> ReadEvent(pdps[i].arr).Ok? && ReadEvent(pdps[i].dep).Ok?)
      && ReadStops(epoch, pdps, k).value == Feed(StopsRead(pdps, k), DepartureToCheck(pdps, k))
  {
    if k > 0 {
      hide ReadEvent, Consistent;
      ReadExactly(epoch, pdps, k - 1);
      assert ReadStops(epoch, pdps, k).Ok? <==> ReadStops(epoch, pdps, k - 1).Ok? && Readable(epoch, pdps, k - 1);
    }
  }

  /** Whatever the feed, its stops are numbered from zero and its updates carry their delay. */
  lemma {:induction false} ReadFeedIsWellFormed(epoch: int, pdps: seq<Pdp>, k: nat)
    requires k <= |pdps| && ReadStops(epoch, pdps, k).Ok?
    ensures OrdersAreIndexes(ReadStops(epoch, pdps, k).value.stops)
    ensures UpdatesCarryDelay(ReadStops(epoch, pdps, k).value.stops)
  {
    if k > 0 {
      ReadFeedIsWellFormed(epoch, pdps, k - 1);
    }
  }

  /** An event that the feed states, by status: what can be read of it, and what is. */
  lemma ReadByStatus(t: TravellerTime)
    ensures var timed := t.status in {Unspecified, Reactivation, Creation, EventStatus.Detour};
      && (ReadEvent(Some(t)).Err? <==> t.status == Unknown || (timed && t.delay.Some? && t.base.None?))
      && (ReadEvent(Some(t)).Ok? ==>
            var r := ReadEvent(Some(t)).value;
            && (timed && t.base.Some? ==>
                  r.projected.Some? && r.projected.value - t.base.value == if t.delay.Some? then t.delay.value else 0)
            && (!timed || t.base.None? ==> r.projected.None?)
            && (r.event.Added() ==> r.event.time == r.projected) && (!r.event.Added() ==> r.event.time.None?))
  {
  }

  /** The record of an accepted stop, side by side: its status and delay are those stated, whatever the other stops. */
  lemma RecordOfStop(epoch: int, pdps: seq<Pdp>, j: nat, side: Side)
    requires ReadStops(epoch, pdps, |pdps|).Ok? && j < |KnownStops(pdps)|
    ensures |ReadStops(epoch, pdps, |pdps|).value.stops| == |KnownStops(pdps)|
    ensures var s, p := ReadStops(epoch, pdps, |pdps|).value.stops[j], KnownStops(pdps)[j];
            var e, t := s.At(side), if side == Arrival then p.arr else p.dep;
      && Some(s.id) == p.point && s.order == Some(j) && s.message == p.message
      && (e.status == Delete <==> t.Some? && t.value.status == Suppression)
      && (e.status == DeletedForDetour <==> t.Some? && t.value.status == DetourSuppression)
      && (e.status == Add <==> t.Some? && t.value.status == Creation)
      && (e.status == AddedForDetour <==> t.Some? && t.value.status == EventStatus.Detour)
      && (e.status == Update <==> t.Some? && t.value.status in {Unspecified, Reactivation} && t.value.delay.Some?)
      && (e.status == NoChange <==> t.None? || (t.value.status in {Unspecified, Reactivation} && t.value.delay.None?))
      && e.delay == (if e.status == Update then t.value.delay else None)
      && e.time == (if e.status in {Add, AddedForDetour} then Projected(p, side) else None)
  {
    hide ReadStops;
    ReadKnownStops(epoch, pdps);
    ReadExactly(epoch, KnownStops(pdps), |KnownStops(pdps)|);
  }

  /** An order between two times, as far as both are known. */
  predicate NotAfter(s: Option<int>, t: Option<int>) {
    s.Some? && t.Some? ==> s.value <= t.value
  }

  /**
   * Consistency in plain terms: the previous departure, the arrival and the departure do not decrease, equality
   * allowed.
   */
  lemma ConsistentMeans(epoch: int, last: Option<int>, arr: Option<int>, dep: Option<int>)
    ensures Consistent(epoch, last, arr, dep) <==>
      var before := if last.None? then Some(epoch) else last;
      NotAfter(before, arr) && NotAfter(before, dep) && NotAfter(arr, dep)
  {
  }

  /** A list of known stops is accepted exactly when all its events can be read and its times follow, stop by stop. */
  lemma AcceptedExactly(epoch: int, pdps: seq<Pdp>)
    requires AllKnown(pdps)
    ensures ReadStops(epoch, pdps, |pdps|).Ok? <==>
      forall k :: 0 <= k < |pdps| ==>
        && ReadEvent(pdps[k].arr).Ok? && ReadEvent(pdps[k].dep).Ok?
        && var before := if k > 0 && Projected(pdps[k - 1], Departure).Some? then Projected(pdps[k - 1], Departure)
          else Some(epoch);
        && NotAfter(before, Projected(pdps[k], Arrival)) && NotAfter(before, Projected(pdps[k], Departure))
        && NotAfter(Projected(pdps[k], Arrival), Projected(pdps[k], Departure))
  {
    hide ReadStops, ReadEvent, Projected, Consistent, NotAfter;
    ReadExactly(epoch, pdps, |pdps|);
    forall k | 0 <= k < |pdps|
      ensures Readable(epoch, pdps, k) <==>
        && ReadEvent(pdps[k].arr).Ok? && ReadEvent(pdps[k].dep).Ok?
        && var before := if k > 0 && Projected(pdps[k - 1], Departure).Some? then Projected(pdps[k - 1], Departure)
          else Some(epoch);
        && NotAfter(before, Projected(pdps[k], Arrival)) && NotAfter(before, Projected(pdps[k], Departure))
        && NotAfter(Projected(pdps[k], Arrival), Projected(pdps[k], Departure))
    {
      ConsistentMeans(epoch, DepartureToCheck(pdps, k), Projected(pdps[k], Arrival), Projected(pdps[k], Departure));
    }
  }

  // ---------------------------------------------------------------- when projections go back

  /** The projected times of the first k stops never go back. */
  ghost predicate ProjectionsInOrder(pdps: seq<Pdp>, k: nat)
    requires k <= |pdps|
  {
    forall i, s, j, t ::
      0 <= i <= j < k && Before(i, s, j, t) && Projected(pdps[i], s).Some? && Projected(pdps[j], t).Some? ==>
        Projected(pdps[i], s).value <= Projected(pdps[j], t).value
  }

  /** The last projection of the first k stops. */
  function LastProjected(pdps: seq<Pdp>, k: nat): Option<int>
    requires k <= |pdps|
  {
    if k == 0 then None
    else if Projected(pdps[k - 1], Departure).Some? then Projected(pdps[k - 1], Departure)
    else if Projected(pdps[k - 1], Arrival).Some? then Projected(pdps[k - 1], Arrival)
    else LastProjected(pdps, k - 1)
  }

  function FirstProjected(p: Pdp): Option<int> {
    if Projected(p, Arrival).Some? then Projected(p, Arrival) else Projected(p, Departure)
  }

  /** The stop's first projection does not come before the last one of the stops before it. */
  predicate FollowsOn(pdps: seq<Pdp>, k: nat)
    requires k < |pdps|
  {
    LastProjected(pdps, k).Some? && FirstProjected(pdps[k]).Some? ==>
      LastProjected(pdps, k).value <= FirstProjected(pdps[k]).value
  }

  /** Where the last projection of the first k stops is. */
  lemma {:induction false} LastProjectedAt(pdps: seq<Pdp>, k: nat) returns (i: nat, s: Side)
    requires k <= |pdps| && LastProjected(pdps, k).Some?
    ensures i < k && Projected(pdps[i], s) == LastProjected(pdps, k)
  {
    hide Projected;
    if Projected(pdps[k - 1], Departure).Some? {
      i, s := k - 1, Departure;
    } else if Projected(pdps[k - 1], Arrival).Some? {
      i, s := k - 1, Arrival;
    } else {
      i, s := LastProjectedAt(pdps, k - 1);
    }
  }

  lemma {:induction false} LastIsLatestProjected(pdps: seq<Pdp>, k: nat, i: nat, s: Side)
    requires i < k <= |pdps| && ProjectionsInOrder(pdps, k) && Projected(pdps[i], s).Some?
    ensures LastProjected(pdps, k).Some? && Projected(pdps[i], s).value <= LastProjected(pdps, k).value
  {
    hide Projected;
    if Projected(pdps[k - 1], Departure).Some? {
      assert Before(i, s, k - 1, Departure) || (i == k - 1 && s == Departure);
    } else if Projected(pdps[k - 1], Arrival).Some? {
      assert Before(i, s, k - 1, Arrival) || (i == k - 1 && s == Arrival);
    } else {
      assert i < k - 1;
      LastIsLatestProjected(pdps, k - 1, i, s);
    }
  }

  lemma OneMoreProjected(epoch: int, pdps: seq<Pdp>, k: nat)
    requires k < |pdps| && Readable(epoch, pdps, k)
    ensures ProjectionsInOrder(pdps, k + 1) <==> ProjectionsInOrder(pdps, k) && FollowsOn(pdps, k)
  {
    hide Projected, ReadEvent;
    if ProjectionsInOrder(pdps, k + 1) && FirstProjected(pdps[k]).Some? && LastProjected(pdps, k).Some? {
      var i, s := LastProjectedAt(pdps, k);
      assert Before(i, s, k, Arrival) && Before(i, s, k, Departure);
    }
    var arr, dep := Projected(pdps[k], Arrival), Projected(pdps[k], Departure);
    assert arr.Some? && dep.Some? ==> arr.value <= dep.value;
    if ProjectionsInOrder(pdps, k) && FollowsOn(pdps, k) {
      forall i, s, j, t | 0 <= i <= j < k + 1 && Before(i, s, j, t)
        && Projected(pdps[i], s).Some? && Projected(pdps[j], t).Some?
        ensures Projected(pdps[i], s).value <= Projected(pdps[j], t).value
      {
        if j == k && i < k {
          LastIsLatestProjected(pdps, k, i, s);
          assert t == Arrival || t == Departure;
        } else if j == k {
          assert s == Arrival && t == Departure;
        }
      }
    }
  }

  /**
   * In an accepted feed projections go back exactly where a stop without projected departure hides those before it
   * from the check.
   */
  lemma {:induction false} ProjectionsNeverGoBack(epoch: int, pdps: seq<Pdp>, k: nat)
    requires k <= |pdps| && forall i :: 0 <= i < k ==> Readable(epoch, pdps, i)
    ensures ProjectionsInOrder(pdps, k) <==>
      forall i :: 0 < i < k && Projected(pdps[i - 1], Departure).None? ==> FollowsOn(pdps, i)
  {
    hide Projected, ReadEvent, ProjectionsInOrder;
    if k > 0 {
      ProjectionsNeverGoBack(epoch, pdps, k - 1);
      OneMoreProjected(epoch, pdps, k - 1);
      assert k > 1 && Projected(pdps[k - 2], Departure).Some? ==> FollowsOn(pdps, k - 1);
      assert k == 1 ==> FollowsOn(pdps, 0);
    } else {
      NothingProjected(pdps);
    }
  }

  lemma NothingProjected(pdps: seq<Pdp>)
    ensures ProjectionsInOrder(pdps, 0)
  {
  }

  // ---------------------------------------------------------------- fidelity

  /** The base datetimes rebuilt by the loop are those announced by the feed, wherever a stated event keeps its base. */
  ghost predicate BasesAgree(date: int, items: seq<Item>, feed: seq<Stop>, pdps: seq<Pdp>)
    requires UpdatesCarryDelay(feed) && |items| <= |pdps| && |feed| == |pdps|
  {
    forall j, side :: 0 <= j < |items| && KeepsBase(feed[j].At(side)) && TravellerOf(pdps[j], side).Some? ==>
      BaseAt(date, items, None, feed, j, side) == TravellerOf(pdps[j], side).value.base
  }

  /** What the merge announces for an event that the feed states is what the feed projects. */
  lemma AnnouncedIsProjected(base: Option<int>, p: Pdp, side: Side)
    requires TravellerOf(p, side).Some? && ReadEvent(TravellerOf(p, side)).Ok?
    requires var e := ReadEvent(TravellerOf(p, side)).value.event; KeepsBase(e) ==>
      base == TravellerOf(p, side).value.base
    ensures var e := ReadEvent(TravellerOf(p, side)).value.event;
            && e.CarriesDelay() && Announced(base, e) == Projected(p, side)
            && (KeepsBase(e) && base.Some? ==> Projected(p, side) == Some(base.value + FeedDelay(e)))
  {
  }

  /** The time that counts for an event: its projection if the feed states it, else its rebuilt base datetime. */
  function Expected(date: int, items: seq<Item>, feed: seq<Stop>, pdps: seq<Pdp>, i: nat, side: Side): Option<int>
    requires UpdatesCarryDelay(feed) && i < |items| <= |pdps|
  {
    if TravellerOf(pdps[i], side).Some? then Projected(pdps[i], side) else BaseAt(date, items, None, feed, i, side)
  }

  /** The merge reads a list of stops as the feed made of them. */
  ghost predicate ReadFor(pdps: seq<Pdp>, items: seq<Item>, feed: seq<Stop>) {
    && AllKnown(pdps) && |items| <= |pdps| == |feed|
    && (forall i :: 0 <= i < |pdps| ==> ReadEvent(pdps[i].arr).Ok? && ReadEvent(pdps[i].dep).Ok?)
    && feed == StopsRead(pdps, |pdps|)
    && Covering(items, feed)
    && forall i {:trigger items[i]} :: 0 <= i < |items| ==> Entry(items[i], feed) == feed[i]
  }

  lemma AnnouncedIsExpected(date: int, items: seq<Item>, feed: seq<Stop>, pdps: seq<Pdp>, i: nat, side: Side)
    requires UpdatesCarryDelay(feed) && ReadFor(pdps, items, feed) && BasesAgree(date, items, feed, pdps) && i < |items|
    ensures Announcements(date, items, feed)[i].At(side) == Expected(date, items, feed, pdps, i, side)
  {
    hide FindStop, BaseAt, ReadEvent, Announced;
    var item := items[i];
    assert feed[i].At(side) == ReadEvent(TravellerOf(pdps[i], side)).value.event;
    if TravellerOf(pdps[i], side).Some? {
      AnnouncedIsProjected(BaseAt(date, items, None, feed, i, side), pdps[i], side);
    } else {
      UnstatedIsBase(BaseAt(date, items, None, feed, i, side));
    }
  }

  lemma UnstatedIsBase(base: Option<int>)
    ensures ReadEvent(None).Ok? && ReadEvent(None).value.event.CarriesDelay()
    ensures Announced(base, ReadEvent(None).value.event) == base
  {
  }

  /** No event before this one is expected later than t. */
  ghost predicate NoneExpectedLater(date: int, items: seq<Item>, feed: seq<Stop>, pdps: seq<Pdp>, j: nat, side: Side,
                                    t: int)
    requires UpdatesCarryDelay(feed) && j < |items| <= |pdps|
  {
    forall i, s :: 0 <= i <= j && Before(i, s, j, side) && Expected(date, items, feed, pdps, i, s).Some? ==>
      Expected(date, items, feed, pdps, i, s).value <= t
  }

  /** Stored as projected exactly when nothing before is expected later; then with the feed's own delay. */
  lemma RebuiltAsProjected(date: int, items: seq<Item>, feed: seq<Stop>, pdps: seq<Pdp>, j: nat, side: Side)
    requires UpdatesCarryDelay(feed) && ReadFor(pdps, items, feed) && BasesAgree(date, items, feed, pdps)
    requires j < |items| && Projected(pdps[j], side).Some?
    ensures var e := Rebuilt(date, items, feed)[j].At(side);
      && (e.time == Projected(pdps[j], side) <==>
            NoneExpectedLater(date, items, feed, pdps, j, side, Projected(pdps[j], side).value))
      && (e.time == Projected(pdps[j], side) && KeepsBase(feed[j].At(side)) ==>
          e.delay == Some(FeedDelay(feed[j].At(side))))
  {
    hide Run, FindStop, BaseAt, ReadEvent, Announced, Expected, Rebuilt, Announcements;
    forall i, s | 0 <= i < |items|
      ensures Announcements(date, items, feed)[i].At(s) == Expected(date, items, feed, pdps, i, s)
    {
      AnnouncedIsExpected(date, items, feed, pdps, i, s);
    }
    ProjectedIsStated(date, items, feed, pdps, j, side);
    StoredAsAnnounced(date, items, feed, j, side);
    if KeepsBase(feed[j].At(side)) {
      var item := items[j];
      KeptDelay(date, items, feed, pdps, j, side);
      RebuiltConserves(date, items, feed, j, side);
    }
  }

  lemma ProjectedIsStated(date: int, items: seq<Item>, feed: seq<Stop>, pdps: seq<Pdp>, j: nat, side: Side)
    requires UpdatesCarryDelay(feed) && j < |items| <= |pdps| && Projected(pdps[j], side).Some?
    ensures TravellerOf(pdps[j], side).Some?
    ensures Expected(date, items, feed, pdps, j, side) == Projected(pdps[j], side)
  {
    hide BaseAt;
  }

  lemma KeptDelay(date: int, items: seq<Item>, feed: seq<Stop>, pdps: seq<Pdp>, j: nat, side: Side)
    requires UpdatesCarryDelay(feed) && ReadFor(pdps, items, feed) && BasesAgree(date, items, feed, pdps)
    requires j < |items| && Projected(pdps[j], side).Some? && KeepsBase(feed[j].At(side))
    ensures var base := BaseAt(date, items, None, feed, j, side);
            base.Some? && Projected(pdps[j], side) == Some(base.value + FeedDelay(feed[j].At(side)))
  {
    hide BaseAt, Covering, FindStop;
    assert feed[j].At(side) == ReadEvent(TravellerOf(pdps[j], side)).value.event;
  }

  lemma LinkedAsRead(epoch: int, pdps: seq<Pdp>, vj: VehicleJourney, db: Option<Trip>, feed: Trip)
    requires ReadStops(epoch, pdps, |pdps|).Ok? && feed.stops == ReadStops(epoch, pdps, |pdps|).value.stops
    requires feed.status != Delete && UpdatesCarryDelay(feed.stops) && Handle(vj, db, feed, true).linked
    ensures var items := FeedItems(vj.stops, StopsOf(db), feed.stops, |feed.stops|);
      && items.Ok? && ReadFor(KnownStops(pdps), items.value, feed.stops)
      && Handle(vj, db, feed, true).stored.value.stops == Rebuilt(vj.CirculationDate(), items.value, feed.stops)
  {
    hide Run, FindStop, ReadStops, Merge, FeedItems, Handle, Rebuilt, ReadEvent;
    ReadFeedIsWellFormed(epoch, pdps, |pdps|);
    LinkedCompleteFeed(vj, db, feed);
    ReadKnownStops(epoch, pdps);
    ReadExactly(epoch, KnownStops(pdps), |KnownStops(pdps)|);
  }

  /**
   * Feed fidelity, end to end: in an accepted feed an event is stored at exactly its projected time if and only if no
   * event before it is expected later, unstated ones at their base datetime; it then has the feed's own delay.
   */
  lemma FeedFidelity(epoch: int, pdps: seq<Pdp>, vj: VehicleJourney, db: Option<Trip>, feed: Trip, j: nat, side: Side)
    requires ReadStops(epoch, pdps, |pdps|).Ok? && feed.stops == ReadStops(epoch, pdps, |pdps|).value.stops
    requires feed.status != Delete && UpdatesCarryDelay(feed.stops) && Handle(vj, db, feed, true).linked
    requires var items := FeedItems(vj.stops, StopsOf(db), feed.stops, |feed.stops|);
      && items.Ok? && j < |items.value| <= |KnownStops(pdps)| == |feed.stops|
      && BasesAgree(vj.CirculationDate(), items.value, feed.stops, KnownStops(pdps))
    requires Projected(KnownStops(pdps)[j], side).Some?
    ensures var known, stored := KnownStops(pdps), Handle(vj, db, feed, true).stored.value.stops;
            var items := FeedItems(vj.stops, StopsOf(db), feed.stops, |feed.stops|).value;
            var t := Projected(known[j], side);
      && j < |stored|
      && (stored[j].At(side).time == t <==>
            NoneExpectedLater(vj.CirculationDate(), items, feed.stops, known, j, side, t.value))
      && (stored[j].At(side).time == t && KeepsBase(feed.stops[j].At(side)) ==>
            stored[j].At(side).delay == Some(FeedDelay(feed.stops[j].At(side))))
  {
    hide Run, FindStop, ReadStops, Merge, FeedItems, Handle, ReadFor, BasesAgree, NoneExpectedLater, Projected, Rebuilt;
    LinkedAsRead(epoch, pdps, vj, db, feed);
    var items := FeedItems(vj.stops, StopsOf(db), feed.stops, |feed.stops|).value;
    ReadForUnfolds(KnownStops(pdps), items, feed.stops);
    RebuiltAsProjected(vj.CirculationDate(), items, feed.stops, KnownStops(pdps), j, side);
  }

  /** A published feed is stored with the statuses it states, side by side, and with its messages. */
  lemma StoredAsStated(epoch: int, pdps: seq<Pdp>, vj: VehicleJourney, db: Option<Trip>, feed: Trip, j: nat, side: Side)
    requires ReadStops(epoch, pdps, |pdps|).Ok? && feed.stops == ReadStops(epoch, pdps, |pdps|).value.stops
    requires feed.status != Delete && UpdatesCarryDelay(feed.stops) && Handle(vj, db, feed, true).linked
    requires j < |Handle(vj, db, feed, true).stored.value.stops|
    ensures j < |KnownStops(pdps)|
    ensures var s, p := Handle(vj, db, feed, true).stored.value.stops[j], KnownStops(pdps)[j];
            var status, t := s.At(side).status, if side == Arrival then p.arr else p.dep;
      && Some(s.id) == p.point && s.message == p.message
      && (status == Delete <==> t.Some? && t.value.status == Suppression)
      && (status == DeletedForDetour <==> t.Some? && t.value.status == DetourSuppression)
      && (status == Add <==> t.Some? && t.value.status == Creation)
      && (status == AddedForDetour <==> t.Some? && t.value.status == EventStatus.Detour)
      && (status == Update <==> t.Some? && t.value.status in {Unspecified, Reactivation} && t.value.delay.Some?)
      && (status == NoChange <==> t.None? || (t.value.status in {Unspecified, Reactivation} && t.value.delay.None?))
  {
    hide Handle, ReadStops, ReadEvent;
    ReadFeedIsWellFormed(epoch, pdps, |pdps|);
    ReadKnownStops(epoch, pdps);
    ReadExactly(epoch, KnownStops(pdps), |KnownStops(pdps)|);
    LinkedCarries(vj, db, feed, true, j);
    RecordOfStop(epoch, pdps, j, side);
  }

  lemma ReadForUnfolds(pdps: seq<Pdp>, items: seq<Item>, feed: seq<Stop>)
    requires ReadFor(pdps, items, feed)
    ensures Covering(items, feed) && |items| <= |pdps| == |feed|
  {
  }

  /** An ordinary train: everything is projected but the arrival at its first stop and the departure from its last. */
  predicate OrdinaryTrain(pdps: seq<Pdp>) {
    && (forall i :: 0 <= i < |pdps| ==> Projected(pdps[i], Arrival).Some? || (i == 0 && pdps[i].arr.None?))
    && (forall i :: 0 <= i < |pdps| ==>
          Projected(pdps[i], Departure).Some? || (i == |pdps| - 1 && pdps[i].dep.None?))
  }

  /** The arrival that the base schedule gives to the first stop does not come after its projected departure. */
  predicate FirstArrivalInTime(date: int, items: seq<Item>, feed: seq<Stop>, pdps: seq<Pdp>)
    requires UpdatesCarryDelay(feed) && 0 < |items| <= |pdps|
  {
    var base, dep := BaseAt(date, items, None, feed, 0, Arrival), Projected(pdps[0], Departure);
    pdps[0].arr.None? && base.Some? && dep.Some? ==> base.value <= dep.value
  }

  lemma OrdinaryInOrder(epoch: int, pdps: seq<Pdp>)
    requires OrdinaryTrain(pdps) && forall i :: 0 <= i < |pdps| ==> Readable(epoch, pdps, i)
    ensures ProjectionsInOrder(pdps, |pdps|)
  {
    hide Projected, Readable;
    ProjectionsNeverGoBack(epoch, pdps, |pdps|);
  }

  lemma OrdinaryExpectations(date: int, items: seq<Item>, feed: seq<Stop>, pdps: seq<Pdp>, j: nat, side: Side)
    requires UpdatesCarryDelay(feed) && j < |items| <= |pdps| && OrdinaryTrain(pdps)
    requires ProjectionsInOrder(pdps, |pdps|) && Projected(pdps[j], side).Some?
    requires FirstArrivalInTime(date, items, feed, pdps)
    ensures NoneExpectedLater(date, items, feed, pdps, j, side, Projected(pdps[j], side).value)
  {
    hide BaseAt, Projected;
    forall i, s | 0 <= i <= j && Before(i, s, j, side) && Expected(date, items, feed, pdps, i, s).Some?
      ensures Expected(date, items, feed, pdps, i, s).value <= Projected(pdps[j], side).value
    {
      if Projected(pdps[i], s).None? {
        assert s == Arrival || s == Departure;
        assert i == 0 && s == Arrival && pdps[0].arr.None?;
        assert Before(0, Departure, j, side) || (j == 0 && side == Departure);
      } else {
        ProjectedIsStated(date, items, feed, pdps, i, s);
      }
    }
  }

  /**
   * An ordinary train is stored exactly as projected, at every event it projects, if and only if the base schedule does
   * not put its first arrival after the projected first departure.
   */
  lemma OrdinaryTrainIsKept(epoch: int, pdps: seq<Pdp>, vj: VehicleJourney, db: Option<Trip>, feed: Trip)
    requires ReadStops(epoch, pdps, |pdps|).Ok? && feed.stops == ReadStops(epoch, pdps, |pdps|).value.stops
    requires feed.status != Delete && UpdatesCarryDelay(feed.stops) && Handle(vj, db, feed, true).linked
    requires OrdinaryTrain(KnownStops(pdps))
    requires var items := FeedItems(vj.stops, StopsOf(db), feed.stops, |feed.stops|);
      && items.Ok? && 0 < |items.value| <= |KnownStops(pdps)| == |feed.stops|
      && BasesAgree(vj.CirculationDate(), items.value, feed.stops, KnownStops(pdps))
    ensures var known, stored := KnownStops(pdps), Handle(vj, db, feed, true).stored.value.stops;
            var items := FeedItems(vj.stops, StopsOf(db), feed.stops, |feed.stops|).value;
      && |stored| == |items|
      && (FirstArrivalInTime(vj.CirculationDate(), items, feed.stops, known) <==>
            forall j, side :: 0 <= j < |stored| && Projected(known[j], side).Some? ==>
              stored[j].At(side).time == Projected(known[j], side))
  {
    hide Run, FindStop, ReadStops, Merge, FeedItems, Handle, ReadFor, BasesAgree, NoneExpectedLater, Projected,
      Readable,
         OrdinaryTrain, FirstArrivalInTime, Rebuilt;
    var known, date := KnownStops(pdps), vj.CirculationDate();
    LinkedAsRead(epoch, pdps, vj, db, feed);
    var items := FeedItems(vj.stops, StopsOf(db), feed.stops, |feed.stops|).value;
    ReadKnownStops(epoch, pdps);
    ReadExactly(epoch, known, |known|);
    OrdinaryInOrder(epoch, known);
    var stored := Handle(vj, db, feed, true).stored.value.stops;
    forall j, side | 0 <= j < |items| && Projected(known[j], side).Some?
      ensures stored[j].At(side).time == Projected(known[j], side) <==>
        NoneExpectedLater(date, items, feed.stops, known, j, side, Projected(known[j], side).value)
      ensures FirstArrivalInTime(date, items, feed.stops, known) ==>
        NoneExpectedLater(date, items, feed.stops, known, j, side, Projected(known[j], side).value)
    {
      FeedFidelity(epoch, pdps, vj, db, feed, j, side);
      if FirstArrivalInTime(date, items, feed.stops, known) {
        OrdinaryExpectations(date, items, feed.stops, known, j, side);
      }
    }
    FirstDepartureDecides(date, items, feed.stops, known);
  }

  lemma FirstDepartureDecides(date: int, items: seq<Item>, feed: seq<Stop>, pdps: seq<Pdp>)
    requires UpdatesCarryDelay(feed) && 0 < |items| <= |pdps|
    ensures !FirstArrivalInTime(date, items, feed, pdps) ==>
      var dep := Projected(pdps[0], Departure);
      dep.Some? && !NoneExpectedLater(date, items, feed, pdps, 0, Departure, dep.value)
  {
    hide BaseAt, Projected;
    assert Before(0, Arrival, 0, Departure);
  }
}
