/** Inputs at which the engine falls short of what one would expect of it, followed through merge and repair. */
module Counterexamples {
  import opened Basics
  import opened StopTimes
  import opened MergeRules
  import opened RepairRules
  import opened RepairLaws
  import opened MergeLaws
  import opened FeedLaws
  import opened Handling
  import opened Driver
  import CotsFeed
  import StopFilters

  /** A feed entry with the same event at arrival and departure. */
  function Both(id: StopId, order: int, e: Event): Stop {
    Stop(id, Some(order), None, e, e)
  }

  const NORMAL: Event := Event(None, None, NoChange)

  function Late(seconds: int): Event {
    Event(None, Some(seconds), Update)
  }

  function TripOf(stops: seq<Stop>): Trip {
    Trip(Update, None, None, stops)
  }

  // ---------------------------------------------------------------- a train through an added stop

  /** The loop over a stop that the feed serves. */
  function ServedStep(s: Loop, nav: BaseStop, entry: Stop, k: nat): Loop
    requires entry.CarriesDelay()
  {
    var arr, dep := Tick(true, nav.arr, entry.arr.delay.GetOr(0)), Tick(true, nav.dep, entry.dep.delay.GetOr(0));
    var there := Advance(s.clock, arr);
    var gone := Advance(there, dep);
    var u := Updated(Dated(there, arr), Dated(gone, dep), s.last, entry, nav.id, k);
    Loop(gone, u.dep.time, true, s.out + [u])
  }

  lemma StepServed(s: Loop, item: Item, feed: seq<Stop>, entry: Stop)
    requires UpdatesCarryDelay(feed) && !entry.arr.Deleted() && !entry.dep.Deleted() && entry.CarriesDelay()
    requires FindStop(feed, item.nav.id, item.order) == Some(entry)
    ensures Step(s, item, None, feed) == ServedStep(s, item.nav, entry, item.order)
  {
    hide FindStop, Advance, Dated, Updated;
  }

  /** The k-th stop visited, when it is the feed's k-th and served. */
  lemma RunNext(date: int, items: seq<Item>, feed: seq<Stop>, k: nat)
    requires UpdatesCarryDelay(feed) && k < |items| && k < |feed| && OrdersAreIndexes(feed)
    requires items[k].order == k && feed[k].id == items[k].nav.id
    requires !feed[k].arr.Deleted() && !feed[k].dep.Deleted()
    ensures Run(date, items, None, feed, 0) == Loop(Clock(date, Nothing), None, false, [])
    ensures feed[k].CarriesDelay()
    ensures Run(date, items, None, feed, k + 1) == ServedStep(Run(date, items, None, feed, k), items[k].nav, feed[k], k)
  {
    hide Step, FindStop, ServedStep;
    FindStopAtItsOrder(feed, k);
    assert feed[k] in feed;
    StepServed(Run(date, items, None, feed, k), items[k], feed, feed[k]);
  }

  /** A base schedule of two stops, and the visits of a feed that goes through a third one in between. */
  function TwoStops(a: StopId, b: StopId): seq<BaseStop> {
    [BaseStop(a, Some(8 * HOUR), Some(8 * HOUR)), BaseStop(b, Some(10 * HOUR), Some(10 * HOUR))]
  }

  function Through(a: StopId, x: StopId, b: StopId, t: TimeOfDay): seq<Item> {
    [Item(0, TwoStops(a, b)[0]), Item(1, BaseStop(x, Some(t), Some(t))), Item(2, TwoStops(a, b)[1])]
  }

  function FeedThrough(a: StopId, x: StopId, b: StopId, e: Event): Trip {
    TripOf([Both(a, 0, NORMAL), Both(x, 1, e), Both(b, 2, NORMAL)])
  }

  function StoredThrough(date: int, t: TimeOfDay, e: Event): Event {
    if e.status == Add then Event(Some(date * DAY + t), Some(0), Add)
    else Event(Some(date * DAY + t + 600), Some(600), Update)
  }

  /** The added stop, at nine o'clock or ten past nine, and what is stored for it. */
  lemma ListThrough(date: int, a: StopId, x: StopId, b: StopId, t: TimeOfDay, e: Event)
    requires 9 * HOUR <= t <= 9 * HOUR + 600
    requires e == Event(Some(date * DAY + t), None, Add) || e == Late(600)
    ensures var feed := FeedThrough(a, x, b, e).stops;
            var out := Run(date, Through(a, x, b, t), None, feed, 3).out;
            out[0].arr.time == Some(date * DAY + 8 * HOUR) && out[1] == Both(x, 1, StoredThrough(date, t, e))
  {
    var feed, items := FeedThrough(a, x, b, e).stops, Through(a, x, b, t);
    RunNext(date, items, feed, 0);
    RunNext(date, items, feed, 1);
    RunNext(date, items, feed, 2);
    hide Run, ServedStep;
    StepsThrough(date, a, x, b, t, e);
  }

  lemma StepsThrough(date: int, a: StopId, x: StopId, b: StopId, t: TimeOfDay, e: Event)
    requires 9 * HOUR <= t <= 9 * HOUR + 600
    requires e == Event(Some(date * DAY + t), None, Add) || e == Late(600)
    ensures var base := TwoStops(a, b);
            var one := ServedStep(Loop(Clock(date, Nothing), None, false, []), base[0], Both(a, 0, NORMAL), 0);
            var two := ServedStep(one, BaseStop(x, Some(t), Some(t)), Both(x, 1, e), 1);
            var three := ServedStep(two, base[1], Both(b, 2, NORMAL), 2);
            three.out[0].arr.time == Some(date * DAY + 8 * HOUR)
              && three.out[1] == Both(x, 1, StoredThrough(date, t, e))
  {
    var one := ServedStep(Loop(Clock(date, Nothing), None, false, []), TwoStops(a, b)[0], Both(a, 0, NORMAL), 0);
    assert one.clock == Clock(date, Seen(Some(8 * HOUR), 0)) && one.last == Some(date * DAY + 8 * HOUR);
  }

  /** The visits of such a feed, given that of the added stop. */
  lemma VisitsThrough(a: StopId, x: StopId, b: StopId, db: Option<seq<Stop>>, e: Event, t: TimeOfDay)
    requires a != b && x != a && x != b
    requires Visit(TwoStops(a, b), db, Both(x, 1, e), 1) == Ok(Some(Through(a, x, b, t)[1]))
    ensures FeedItems(TwoStops(a, b), db, FeedThrough(a, x, b, e).stops, 3) == Ok(Through(a, x, b, t))
  {
    var base, feed, items := TwoStops(a, b), FeedThrough(a, x, b, e).stops, Through(a, x, b, t);
    assert base[1..] == [base[1]];
    VisitInBase(base, db, feed[0], 0);
    VisitInBase(base, db, feed[2], 2);
    hide Visit;
    assert FeedItems(base, db, feed, 0) == Ok([]);
    hide FeedItems;
    VisitedNext(base, db, feed, 1, items[0]);
    VisitedNext(base, db, feed, 2, items[1]);
    VisitedNext(base, db, feed, 3, items[2]);
    assert items == [] + [items[0]] + [items[1]] + [items[2]];
  }

  /** Handling such a feed: published, with the list above. */
  lemma HandledThrough(vj: VehicleJourney, a: StopId, x: StopId, b: StopId, db: Option<Trip>, e: Event, t: TimeOfDay)
    requires a != b && x != a && x != b && vj.stops == TwoStops(a, b) && 9 * HOUR <= t <= 9 * HOUR + 600
    requires e == Event(Some(vj.CirculationDate() * DAY + t), None, Add) || e == Late(600)
    requires Visit(vj.stops, StopsOf(db), Both(x, 1, e), 1) == Ok(Some(Through(a, x, b, t)[1]))
    requires db.Some? ==> FindStop(db.value.stops, x, 1) != Some(Both(x, 1, StoredThrough(vj.CirculationDate(), t, e)))
    ensures StoredAs(Sent(vj, db, a, x, b, e), x, StoredThrough(vj.CirculationDate(), t, e))
  {
    var feed, items, date := FeedThrough(a, x, b, e), Through(a, x, b, t), vj.CirculationDate();
    assert FullFeed(vj.stops, feed, true) && Gapless(items) && items[1].nav.id == x && items[1].order == 1;
    assert |feed.stops| == 3 && |items| == 3 && vj.stops == TwoStops(a, b);
    hide *;
    VisitsThrough(a, x, b, StopsOf(db), e, t);
    ListThrough(date, a, x, b, t, e);
    RebuiltThrough(date, items, feed.stops);
    NewsAt(vj, db, feed, items, 1);
    Concluded(vj, db, a, x, b, e, StoredThrough(date, t, e));
  }

  lemma RebuiltThrough(date: int, items: seq<Item>, feed: seq<Stop>)
    requires UpdatesCarryDelay(feed) && |items| == 3
    ensures Rebuilt(date, items, feed) == Run(date, items, None, feed, 3).out
  {
  }

  lemma Concluded(vj: VehicleJourney, db: Option<Trip>, a: StopId, x: StopId, b: StopId, e: Event, stored: Event)
    requires e.CarriesDelay() && UpdatesCarryDelay(FeedThrough(a, x, b, e).stops)
    requires var h := Handle(vj, db, FeedThrough(a, x, b, e), true);
      && h.linked && h.stored.Some? && |h.stored.value.stops| == 3 && OrdersAreIndexes(h.stored.value.stops)
      && h.stored.value.stops[1] == Both(x, 1, stored)
    ensures StoredAs(Sent(vj, db, a, x, b, e), x, stored)
  {
    hide Handle;
  }

  /** A complete feed is published, with its rebuilt list, when it drops no stop and the i-th one is news. */
  lemma NewsAt(vj: VehicleJourney, db: Option<Trip>, feed: Trip, items: seq<Item>, i: nat)
    requires FullFeed(vj.stops, feed, true)
    requires FeedItems(vj.stops, StopsOf(db), feed.stops, |feed.stops|) == Ok(items)
    requires Gapless(items) && i < |items|
    requires var out := Rebuilt(vj.CirculationDate(), items, feed.stops);
      && out[0].arr.time.Some?
      && (db.Some? ==> FindStop(db.value.stops, items[i].nav.id, items[i].order) != Some(out[i]))
    ensures var h := Handle(vj, db, feed, true);
      && h.linked && h.stored.Some? && OrdersAreIndexes(h.stored.value.stops)
      && h.stored.value.stops == Rebuilt(vj.CirculationDate(), items, feed.stops)
  {
    assert UpdatesCarryDelay(feed.stops);
    hide Handle, Rebuilt, FeedItems, FindStop, FullFeed, OrdersAreIndexes, Gapless;
    var out := Rebuilt(vj.CirculationDate(), items, feed.stops);
    var item := items[i];
    assert db.Some? ==> Differs(items, db.value.stops, out, |items|);
    FullFeedLinkedExactly(vj, db, feed, true);
    LinkedFullFeed(vj, db, feed, true);
    LinkedIsTimed(vj, db, feed, true);
  }

  /** What is sent, and what becomes of it. */
  function Sent(vj: VehicleJourney, db: Option<Trip>, a: StopId, x: StopId, b: StopId, e: Event): Handled
    requires e.CarriesDelay()
  {
    Handle(vj, db, FeedThrough(a, x, b, e), true)
  }

  /** Published with three stops, the added one with this event at arrival and departure. */
  predicate StoredAs(h: Handled, x: StopId, e: Event) {
    h.linked && h.stored.Some? && |h.stored.value.stops| == 3 && OrdersAreIndexes(h.stored.value.stops)
    && h.stored.value.stops[1] == Both(x, 1, e)
  }

  /** Visiting the added stop: with its own time the first time, then with the stored one. */
  lemma AddedVisit(a: StopId, x: StopId, b: StopId, instant: int)
    requires x != a && x != b
    ensures Visit(TwoStops(a, b), None, Both(x, 1, Event(Some(instant), None, Add)), 1)
            == Ok(Some(Item(1, BaseStop(x, Some(TimeOf(instant)), Some(TimeOf(instant))))))
  {
    assert TwoStops(a, b)[1..] == [TwoStops(a, b)[1]];
  }

  lemma LateVisit(a: StopId, x: StopId, b: StopId, stored: seq<Stop>, instant: int, status: Status)
    requires x != a && x != b && OrdersAreIndexes(stored) && |stored| > 1 && (status == Add || status == Update)
    requires stored[1].id == x && stored[1].arr.status == status && stored[1].dep.status == status
    requires stored[1].arr.time == Some(instant) && stored[1].dep.time == Some(instant)
    ensures FindStop(stored, x, 1) == Some(stored[1])
    ensures Visit(TwoStops(a, b), Some(stored), Both(x, 1, Late(600)), 1)
            == Ok(Some(Item(1, BaseStop(x, Some(TimeOf(instant)), Some(TimeOf(instant))))))
  {
    assert TwoStops(a, b)[1..] == [TwoStops(a, b)[1]];
    FindStopAtItsOrder(stored, 1);
    hide FindStop;
  }

  /**
   * A stop added at nine o'clock, then delayed by ten minutes by the very same feed twice: it is ten, then twenty
   * minutes late, and published each time.
   */
  lemma DelayOfAddedStopAccumulates(vj: VehicleJourney, a: StopId, x: StopId, b: StopId)
    requires a != b && x != a && x != b && vj.stops == TwoStops(a, b)
    ensures var nine := vj.CirculationDate() * DAY + 9 * HOUR;
            var added := Sent(vj, None, a, x, b, Event(Some(nine), None, Add));
            var once := Sent(vj, added.stored, a, x, b, Late(600));
            var twice := Sent(vj, once.stored, a, x, b, Late(600));
      && StoredAs(added, x, Event(Some(nine), Some(0), Add))
      && StoredAs(once, x, Event(Some(nine + 600), Some(600), Update))
      && StoredAs(twice, x, Event(Some(nine + 1200), Some(600), Update))
  {
    hide Handle, FindStop, Visit, Sent, OrdersAreIndexes;
    var date, t := vj.CirculationDate(), 9 * HOUR;
    var nine := date * DAY + t;
    assert TimeOf(nine) == t && TimeOf(nine + 600) == t + 600;
    AddedVisit(a, x, b, nine);
    HandledThrough(vj, a, x, b, None, Event(Some(nine), None, Add), t);
    var added := Sent(vj, None, a, x, b, Event(Some(nine), None, Add)).stored;
    LateVisit(a, x, b, added.value.stops, nine, Add);
    HandledThrough(vj, a, x, b, added, Late(600), t);
    var once := Sent(vj, added, a, x, b, Late(600)).stored;
    LateVisit(a, x, b, once.value.stops, nine + 600, Update);
    HandledThrough(vj, a, x, b, once, Late(600), t + 600);
  }

  // ---------------------------------------------------------------- midnights missed

  /** Stops at 23:00, 23:30 and 01:00, the second without a departure time. */
  function AroundMidnight(a: StopId, b: StopId, c: StopId): seq<BaseStop> {
    [BaseStop(a, Some(23 * HOUR), Some(23 * HOUR)), BaseStop(b, Some(23 * HOUR + 1800), None),
     BaseStop(c, Some(HOUR), Some(HOUR))]
  }

  /**
   * A train on time, through a stop without departure time just before midnight: its next stop, at one o'clock, is
   * dated one day early, pushed to its predecessor's time and published 22.5 hours late.
   */
  lemma MidnightMissedAfterUntimedStop(vj: VehicleJourney, a: StopId, b: StopId, c: StopId)
    requires vj.stops == AroundMidnight(a, b, c)
    ensures var feed := TripOf([Both(a, 0, NORMAL), Both(b, 1, NORMAL), Both(c, 2, NORMAL)]);
            var h := Handle(vj, None, feed, false); var day := vj.CirculationDate() * DAY;
      && h.linked && |h.stored.value.stops| == 3
      && h.stored.value.stops[1].arr == Event(Some(day + 23 * HOUR + 1800), Some(0), NoChange)
      && h.stored.value.stops[2].arr == Event(Some(day + 23 * HOUR + 1800), Some(22 * HOUR + 1800), NoChange)
  {
    var trip := TripOf([Both(a, 0, NORMAL), Both(b, 1, NORMAL), Both(c, 2, NORMAL)]);
    assert CoveringFeed(vj.stops, trip, false);
    MissedMidnight(vj, a, b, c);
    LinkedExactly(vj, None, trip, false);
    LinkedIsFeedList(vj, None, trip, false);
  }

  lemma MissedMidnight(vj: VehicleJourney, a: StopId, b: StopId, c: StopId)
    requires vj.stops == AroundMidnight(a, b, c)
    requires CoveringFeed(vj.stops, TripOf([Both(a, 0, NORMAL), Both(b, 1, NORMAL), Both(c, 2, NORMAL)]), false)
    ensures var feed := TripOf([Both(a, 0, NORMAL), Both(b, 1, NORMAL), Both(c, 2, NORMAL)]);
            var list := FeedList(vj, feed, false); var day := vj.CirculationDate() * DAY;
      && list[0].arr.time.Some?
      && list[1].arr == Event(Some(day + 23 * HOUR + 1800), Some(0), NoChange)
      && list[2].arr == Event(Some(day + 23 * HOUR + 1800), Some(22 * HOUR + 1800), NoChange)
  {
    MidnightRun(vj.CirculationDate(), a, b, c, [Both(a, 0, NORMAL), Both(b, 1, NORMAL), Both(c, 2, NORMAL)]);
    hide Run;
  }

  lemma MidnightRun(date: int, a: StopId, b: StopId, c: StopId, feed: seq<Stop>)
    requires feed == [Both(a, 0, NORMAL), Both(b, 1, NORMAL), Both(c, 2, NORMAL)]
    ensures var out := Run(date, BaseItems(AroundMidnight(a, b, c)), None, feed, 3).out;
      && out[0].arr.time.Some?
      && out[1].arr == Event(Some(date * DAY + 23 * HOUR + 1800), Some(0), NoChange)
      && out[2].arr == Event(Some(date * DAY + 23 * HOUR + 1800), Some(22 * HOUR + 1800), NoChange)
  {
    var base := AroundMidnight(a, b, c);
    RunNext(date, BaseItems(base), feed, 0);
    RunNext(date, BaseItems(base), feed, 1);
    RunNext(date, BaseItems(base), feed, 2);
    hide Run, BaseItems, ServedStep;
    MidnightSteps(date, a, b, c);
  }

  lemma MidnightSteps(date: int, a: StopId, b: StopId, c: StopId)
    ensures var base := AroundMidnight(a, b, c);
            var first := ServedStep(Loop(Clock(date, Nothing), None, false, []), base[0], Both(a, 0, NORMAL), 0);
            var second := ServedStep(first, base[1], Both(b, 1, NORMAL), 1);
            var third := ServedStep(second, base[2], Both(c, 2, NORMAL), 2);
      && third.out[0].arr.time.Some?
      && third.out[1].arr == Event(Some(date * DAY + 23 * HOUR + 1800), Some(0), NoChange)
      && third.out[2].arr == Event(Some(date * DAY + 23 * HOUR + 1800), Some(22 * HOUR + 1800), NoChange)
  {
    var base := AroundMidnight(a, b, c);
    var first := ServedStep(Loop(Clock(date, Nothing), None, false, []), base[0], Both(a, 0, NORMAL), 0);
    assert first.clock == Clock(date, Seen(Some(23 * HOUR), 0)) && first.last == Some(date * DAY + 23 * HOUR);
    var second := ServedStep(first, base[1], Both(b, 1, NORMAL), 1);
    assert second.clock == Clock(date, Seen(None, 0)) && second.last == Some(date * DAY + 23 * HOUR + 1800);
  }

  // ---------------------------------------------------------------- times left out of order

  /** Two stops nearly a day apart: the second is in the morning of the next day. */
  function NearlyADay(a: StopId, b: StopId): seq<BaseStop> {
    [BaseStop(a, Some(10 * HOUR), Some(10 * HOUR)), BaseStop(b, Some(9 * HOUR), Some(9 * HOUR))]
  }

  /** A delay of two hours over a gap of 23 hours: the second stop is dated one day early, just after the first. */
  lemma MidnightMissedByDelay(vj: VehicleJourney, a: StopId, b: StopId)
    requires vj.stops == NearlyADay(a, b)
    ensures var feed := TripOf([Both(a, 0, NORMAL), Both(b, 1, Late(2 * HOUR))]);
            var day := vj.CirculationDate() * DAY;
      && CoveringFeed(vj.stops, feed, false)
      && FeedList(vj, feed, false) == [Both(a, 0, Event(Some(day + 10 * HOUR), Some(0), NoChange)),
                                       Both(b, 1, Event(Some(day + 11 * HOUR), Some(2 * HOUR), Update))]
      && Handle(vj, None, feed, false).linked
      && Handle(vj, None, feed, false).stored == Some(feed.(stops := FeedList(vj, feed, false)))
  {
    var trip := TripOf([Both(a, 0, NORMAL), Both(b, 1, Late(2 * HOUR))]);
    assert CoveringFeed(vj.stops, trip, false);
    LateList(vj, a, b);
    hide FeedList, Handle, CoveringFeed;
    LinkedExactly(vj, None, trip, false);
    LinkedIsFeedList(vj, None, trip, false);
    FirstHandled(vj, trip);
  }

  lemma LateList(vj: VehicleJourney, a: StopId, b: StopId)
    requires vj.stops == NearlyADay(a, b)
    requires CoveringFeed(vj.stops, TripOf([Both(a, 0, NORMAL), Both(b, 1, Late(2 * HOUR))]), false)
    ensures var day := vj.CirculationDate() * DAY;
            FeedList(vj, TripOf([Both(a, 0, NORMAL), Both(b, 1, Late(2 * HOUR))]), false)
            == [Both(a, 0, Event(Some(day + 10 * HOUR), Some(0), NoChange)),
                Both(b, 1, Event(Some(day + 11 * HOUR), Some(2 * HOUR), Update))]
  {
    var feed := [Both(a, 0, NORMAL), Both(b, 1, Late(2 * HOUR))];
    var date, base := vj.CirculationDate(), vj.stops;
    RunNext(date, BaseItems(base), feed, 0);
    RunNext(date, BaseItems(base), feed, 1);
    hide Run, FindStop;
    var one := Run(date, BaseItems(base), None, feed, 1);
    assert one.clock == Clock(date, Seen(Some(10 * HOUR), 0)) && one.last == Some(date * DAY + 10 * HOUR);
  }

  lemma FirstHandled(vj: VehicleJourney, feed: Trip)
    requires CoveringFeed(vj.stops, feed, false) && Handle(vj, None, feed, false).linked
    ensures Handle(vj, None, feed, false).stored == Some(feed.(stops := FeedList(vj, feed, false)))
  {
    hide Run, FeedList, Repaired;
    FirstMerge(vj, feed, false);
    CoveringFeedNeedsNoRepair(vj, feed, false);
  }

  /**
   * Then a partial feed brings the first stop to a delay of 80 minutes: the repair lowers the second stop's arrival to
   * the same delay, which puts it one hour before the departure of the first. The trip is accepted and published so.
   */
  lemma RepairCanLeaveTimesOutOfOrder(vj: VehicleJourney, a: StopId, b: StopId)
    requires vj.stops == NearlyADay(a, b) && a != b
    ensures var first := TripOf([Both(a, 0, NORMAL), Both(b, 1, Late(2 * HOUR))]);
            var second := TripOf([Both(a, 0, Late(4800))]);
            var h := Handle(vj, Handle(vj, None, first, false).stored, second, false);
            var day := vj.CirculationDate() * DAY;
      && h.linked && |h.stored.value.stops| == 2
      && h.stored.value.stops[0].dep == Event(Some(day + 10 * HOUR + 4800), Some(4800), Update)
      && h.stored.value.stops[1].arr == Event(Some(day + 9 * HOUR + 4800), Some(4800), Update)
  {
    MidnightMissedByDelay(vj, a, b);
    var day, date, base := vj.CirculationDate() * DAY, vj.CirculationDate(), vj.stops;
    var stored := [Both(a, 0, Event(Some(day + 10 * HOUR), Some(0), NoChange)),
                   Both(b, 1, Event(Some(day + 11 * HOUR), Some(2 * HOUR), Update))];
    var feed := [Both(a, 0, Late(4800))];
    PartialMerge(vj, a, b, stored, feed);
    PartialRepair(a, b, day);
    hide Run, Repaired, BaseItems, FindStop, Merge, Handle, FeedList, CoveringFeed;
    MergeFromRun(vj, TripOf(stored), TripOf(feed), false, BaseItems(vj.stops));
    HandledFromMerge(vj, TripOf(stored), TripOf(feed), false);
  }

  lemma PartialMerge(vj: VehicleJourney, a: StopId, b: StopId, stored: seq<Stop>, feed: seq<Stop>)
    requires vj.stops == NearlyADay(a, b) && a != b && feed == [Both(a, 0, Late(4800))]
    requires |stored| == 2 && OrdersAreIndexes(stored) && stored[0].id == a && stored[1].id == b
    requires stored[0].dep.status == NoChange
    ensures var late := Event(Some(vj.CirculationDate() * DAY + 10 * HOUR + 4800), Some(4800), Update);
            var run := Run(vj.CirculationDate(), BaseItems(vj.stops), Some(stored), feed, 2);
            run.changed && run.out == [Both(a, 0, late), stored[1]]
  {
    var date, items := vj.CirculationDate(), BaseItems(vj.stops);
    FindStopAtItsOrder(feed, 0);
    FindStopAtItsOrder(stored, 0);
    FindStopAtItsOrder(stored, 1);
    FindStopFindsId(feed, b, 1);
    hide FindStop, PastMidnight;
    var late := Event(Some(date * DAY + 10 * HOUR + 4800), Some(4800), Update);
    var start := Run(date, items, Some(stored), feed, 0);
    var one := Run(date, items, Some(stored), feed, 1);
    assert one == Step(start, items[0], Some(stored), feed);
    FirstOnSameDay(date, 4800);
    assert one.changed && one.out == [Both(a, 0, late)];
    assert Run(date, items, Some(stored), feed, 2) == Step(one, items[1], Some(stored), feed);
    hide Step;
    SilentStopKept(one, items[1], stored, feed);
  }

  lemma FirstOnSameDay(date: int, delay: int)
    ensures !PastMidnight(Nothing, 10 * HOUR, delay) && !PastMidnight(Seen(Some(10 * HOUR), delay), 10 * HOUR, delay)
  {
  }

  lemma SilentStopKept(s: Loop, item: Item, stored: seq<Stop>, feed: seq<Stop>)
    requires UpdatesCarryDelay(feed) && FindStop(feed, item.nav.id, item.order).None?
    requires FindStop(stored, item.nav.id, item.order).Some?
    ensures var r := Step(s, item, Some(stored), feed);
            r.changed == s.changed && r.out == s.out + [FindStop(stored, item.nav.id, item.order).value]
  {
    hide FindStop;
  }

  lemma PartialRepair(a: StopId, b: StopId, day: int)
    ensures var merged := [Both(a, 0, Event(Some(day + 10 * HOUR + 4800), Some(4800), Update)),
                           Both(b, 1, Event(Some(day + 11 * HOUR), Some(2 * HOUR), Update))];
            var early := Event(Some(day + 9 * HOUR + 4800), Some(4800), Update);
            Repaired(merged).ok && Repaired(merged).stops == [merged[0], merged[1].(arr := early)]
  {
    var late := Event(Some(day + 10 * HOUR + 4800), Some(4800), Update);
    var kept := Event(Some(day + 11 * HOUR), Some(2 * HOUR), Update);
    var merged := [Both(a, 0, late), Both(b, 1, kept)];
    assert Repair(merged, 0) == Pass(true, None, []);
    assert Repair(merged, 1) == Pass(true, Some(Point(late.time.value, 4800)), [merged[0]]);
  }

  // ---------------------------------------------------------------- a shortened feed

  /** A complete feed that says of each stop that it runs as scheduled. */
  function AsScheduled(base: seq<BaseStop>, n: nat): Trip
    requires n <= |base|
  {
    TripOf(seq(n, i requires 0 <= i < n => Both(base[i].id, i, NORMAL)))
  }

  /** A trip published whole, then announced without its last stops: for any number of them, all stay stored. */
  lemma DroppedTailStaysStored(vj: VehicleJourney, n: nat)
    requires 0 < n < |vj.stops| && vj.stops[0].arr.Some?
    ensures var feed, shorter := AsScheduled(vj.stops, |vj.stops|), AsScheduled(vj.stops, n);
            var once := Handle(vj, None, feed, true);
            var twice := Handle(vj, once.stored, shorter, true);
      && |shorter.stops| == n && once.linked && !twice.linked
      && |once.stored.value.stops| == |vj.stops| && twice.stored.value.stops == once.stored.value.stops
  {
    var feed, shorter := AsScheduled(vj.stops, |vj.stops|), AsScheduled(vj.stops, n);
    assert shorter.stops <= feed.stops;
    AsScheduledCovers(vj.stops, |vj.stops|);
    AsScheduledCovers(vj.stops, n);
    StartsTimed(vj);
    hide Handle, FeedList, CoveringFeed, Merge, AsScheduled;
    LinkedExactly(vj, None, feed, true);
    LinkedIsFeedList(vj, None, feed, true);
    ShortenedFeedIsIgnored(vj, None, feed, shorter);
    HandledFromMerge(vj, Handle(vj, None, feed, true).stored.value, shorter, true);
  }

  lemma AsScheduledCovers(base: seq<BaseStop>, n: nat)
    requires n <= |base|
    ensures CoveringFeed(base, AsScheduled(base, n), true) && |AsScheduled(base, n).stops| == n
  {
    assert forall i :: 0 <= i < n ==> base[i] in base;
  }

  lemma FirstBaseKnown(date: int, items: seq<Item>, feed: seq<Stop>)
    requires UpdatesCarryDelay(feed) && items != [] && items[0].nav.arr.Some?
    requires FindStop(feed, items[0].nav.id, items[0].order) == Some(Both(items[0].nav.id, 0, NORMAL))
    ensures BaseAt(date, items, None, feed, 0, Arrival).Some?
  {
    hide FindStop;
  }

  lemma StartsTimed(vj: VehicleJourney)
    requires vj.stops != [] && vj.stops[0].arr.Some?
    requires CoveringFeed(vj.stops, AsScheduled(vj.stops, |vj.stops|), true)
    ensures FeedList(vj, AsScheduled(vj.stops, |vj.stops|), true)[0].arr.time.Some?
  {
    var feed := AsScheduled(vj.stops, |vj.stops|);
    var items := CoveredItems(vj.stops, feed, true);
    CoveredVisits(vj.stops, None, feed, true);
    FindStopAtItsOrder(feed.stops, 0);
    hide FindStop, BaseAt, Run;
    assert items[0].nav == vj.stops[0];
    FirstBaseKnown(vj.CirculationDate(), items, feed.stops);
    RebuiltTimes(vj.CirculationDate(), items, feed.stops, 0);
  }

  // ---------------------------------------------------------------- a first stop the day before

  /** Stops at 13:00 and 15:00. */
  function Afternoon(b: StopId, c: StopId): seq<BaseStop> {
    [BaseStop(b, Some(13 * HOUR), Some(13 * HOUR)), BaseStop(c, Some(15 * HOUR), Some(15 * HOUR))]
  }

  /** A departure at 21:30 the day before is added in front; no arrival is stated there, as is usual at a first stop. */
  function FromTheDayBefore(x: StopId, b: StopId, c: StopId, date: int): Trip {
    TripOf([Stop(x, Some(0), None, NORMAL, Event(Some(date * DAY - DAY + 21 * HOUR + 1800), None, Add)),
            Both(b, 1, NORMAL), Both(c, 2, NORMAL)])
  }

  function EarlyItems(x: StopId, b: StopId, c: StopId): seq<Item> {
    [Item(0, BaseStop(x, Some(21 * HOUR + 1800), Some(21 * HOUR + 1800))),
     Item(1, Afternoon(b, c)[0]), Item(2, Afternoon(b, c)[1])]
  }

  /**
   * The unstated arrival is dated on the base schedule's day: the departure is pushed to it, the rest to the next day.
   */
  lemma EarlyFirstStopIsADayLate(vj: VehicleJourney, x: StopId, b: StopId, c: StopId)
    requires x != b && x != c && b != c && vj.stops == Afternoon(b, c)
    ensures var date, h := vj.CirculationDate(),
      Handle(vj, None, FromTheDayBefore(x, b, c, vj.CirculationDate()), true);
      && h.linked && |h.stored.value.stops| == 3
      && h.stored.value.stops[0].dep == Event(Some(date * DAY + 21 * HOUR + 1800), Some(DAY), Add)
      && h.stored.value.stops[1].arr == Event(Some(date * DAY + DAY + 13 * HOUR), Some(0), NoChange)
  {
    hide *;
    EarlyShape(vj, x, b, c);
    EarlyRun(vj.CirculationDate(), x, b, c);
    EarlyPublished(vj, x, b, c);
  }

  lemma EarlyPublished(vj: VehicleJourney, x: StopId, b: StopId, c: StopId)
    requires x != b && x != c && b != c && vj.stops == Afternoon(b, c)
    ensures var feed := FromTheDayBefore(x, b, c, vj.CirculationDate());
      && UpdatesCarryDelay(feed.stops) && |EarlyItems(x, b, c)| == 3
      && var h := Handle(vj, None, feed, true);
      && h.linked && h.stored.value.stops == Run(vj.CirculationDate(), EarlyItems(x, b, c), None, feed.stops, 3).out
  {
    hide *;
    var date, feed, items := vj.CirculationDate(), FromTheDayBefore(x, b, c, vj.CirculationDate()), EarlyItems(x, b, c);
    EarlyVisits(x, b, c, date);
    EarlyRun(date, x, b, c);
    EarlyShape(vj, x, b, c);
    RebuiltThrough(date, items, feed.stops);
    NewsAt(vj, None, feed, items, 0);
  }

  lemma EarlyShape(vj: VehicleJourney, x: StopId, b: StopId, c: StopId)
    ensures var feed, items := FromTheDayBefore(x, b, c, vj.CirculationDate()), EarlyItems(x, b, c);
            FullFeed(vj.stops, feed, true) && Gapless(items) && |feed.stops| == 3 && |items| == 3
    ensures UpdatesCarryDelay(FromTheDayBefore(x, b, c, vj.CirculationDate()).stops) && StopsOf(None) == None
  {
  }

  lemma EarlyVisits(x: StopId, b: StopId, c: StopId, date: int)
    requires x != b && x != c && b != c
    ensures FeedItems(Afternoon(b, c), None, FromTheDayBefore(x, b, c, date).stops, 3) == Ok(EarlyItems(x, b, c))
  {
    var base, feed, items := Afternoon(b, c), FromTheDayBefore(x, b, c, date).stops, EarlyItems(x, b, c);
    assert base[1..] == [base[1]];
    EarlyVisit(x, b, c, date);
    VisitInBase(base, None, feed[1], 1);
    VisitInBase(base, None, feed[2], 2);
    hide Visit;
    assert FeedItems(base, None, feed, 0) == Ok([]);
    hide FeedItems;
    VisitedNext(base, None, feed, 1, items[0]);
    VisitedNext(base, None, feed, 2, items[1]);
    VisitedNext(base, None, feed, 3, items[2]);
    assert items == [] + [items[0]] + [items[1]] + [items[2]];
  }

  lemma EarlyVisit(x: StopId, b: StopId, c: StopId, date: int)
    requires x != b && x != c
    ensures Visit(Afternoon(b, c), None, FromTheDayBefore(x, b, c, date).stops[0], 0)
      == Ok(Some(EarlyItems(x, b, c)[0]))
  {
    assert Afternoon(b, c)[1..] == [Afternoon(b, c)[1]];
    assert TimeOf(date * DAY - DAY + 21 * HOUR + 1800) == 21 * HOUR + 1800;
  }

  lemma EarlyRun(date: int, x: StopId, b: StopId, c: StopId)
    ensures var out := Run(date, EarlyItems(x, b, c), None, FromTheDayBefore(x, b, c, date).stops, 3).out;
      && out[0].arr.time.Some?
      && out[0].dep == Event(Some(date * DAY + 21 * HOUR + 1800), Some(DAY), Add)
      && out[1].arr == Event(Some(date * DAY + DAY + 13 * HOUR), Some(0), NoChange)
  {
    var feed, items := FromTheDayBefore(x, b, c, date).stops, EarlyItems(x, b, c);
    RunNext(date, items, feed, 0);
    RunNext(date, items, feed, 1);
    RunNext(date, items, feed, 2);
    hide Run, ServedStep;
    EarlySteps(date, x, b, c);
  }

  lemma EarlySteps(date: int, x: StopId, b: StopId, c: StopId)
    ensures var feed, items := FromTheDayBefore(x, b, c, date).stops, EarlyItems(x, b, c);
            var one := ServedStep(Loop(Clock(date, Nothing), None, false, []), items[0].nav, feed[0], 0);
            var two := ServedStep(one, items[1].nav, feed[1], 1);
            var three := ServedStep(two, items[2].nav, feed[2], 2);
      && three.out[0].arr.time.Some?
      && three.out[0].dep == Event(Some(date * DAY + 21 * HOUR + 1800), Some(DAY), Add)
      && three.out[1].arr == Event(Some(date * DAY + DAY + 13 * HOUR), Some(0), NoChange)
  {
    var feed, items := FromTheDayBefore(x, b, c, date).stops, EarlyItems(x, b, c);
    var one := ServedStep(Loop(Clock(date, Nothing), None, false, []), items[0].nav, feed[0], 0);
    assert one.clock == Clock(date, Seen(Some(21 * HOUR + 1800), 0));
    assert one.last == Some(date * DAY + 21 * HOUR + 1800);
    var two := ServedStep(one, items[1].nav, feed[1], 1);
    assert two.clock.date == date + 1;
  }

  // ---------------------------------------------------------------- the check of projected times

  function Scheduled(t: int): Option<StopFilters.TravellerTime> {
    Some(StopFilters.TravellerTime(StopFilters.Unspecified, Some(t), None))
  }

  /** Departing at ten, arriving at eleven with no departure, arriving at nine: the check has forgotten the eleven. */
  lemma ProjectionsCanGoBack(id: StopId, epoch: int)
    requires epoch <= 0
    ensures var pdps := [StopFilters.Pdp(0, None, Some(id), None, None, Scheduled(10 * HOUR)),
                         StopFilters.Pdp(1, None, Some(id), None, Scheduled(11 * HOUR), None),
                         StopFilters.Pdp(2, None, Some(id), None, Scheduled(9 * HOUR), None)];
            CotsFeed.ReadStops(epoch, pdps, 3).Ok? && !CotsFeed.ProjectionsInOrder(pdps, 3)
  {
    var pdps := [StopFilters.Pdp(0, None, Some(id), None, None, Scheduled(10 * HOUR)),
                 StopFilters.Pdp(1, None, Some(id), None, Scheduled(11 * HOUR), None),
                 StopFilters.Pdp(2, None, Some(id), None, Scheduled(9 * HOUR), None)];
    CotsFeed.ReadExactly(epoch, pdps, 3);
    assert CotsFeed.Projected(pdps[1], Arrival) == Some(11 * HOUR);
    assert CotsFeed.Projected(pdps[2], Arrival) == Some(9 * HOUR);
    assert Before(1, Arrival, 2, Arrival);
  }

  // ---------------------------------------------------------------- batches with repeated keys

  /** A trip named twice in one batch, with two different lists: the second link fails the commit of the whole batch. */
  lemma TwoListsForOneTripFail(stored: seq<Row>, vj: VehicleJourney, first: Trip, second: Trip, complete: bool)
    requires UniqueKeys(stored) && CoveringFeed(vj.stops, first, complete) && CoveringFeed(vj.stops, second, complete)
    requires var db, list := StoredFor(stored, vj), FeedList(vj, first, complete);
             list != [] && list[0].arr.time.Some? && (db.Some? ==> !AllFound(list, db.value.stops))
    requires var list := FeedList(vj, second, complete);
             list != [] && list[0].arr.time.Some? && !AllFound(list, FeedList(vj, first, complete))
    ensures CarryDelays([Row(vj, first), Row(vj, second)])
    ensures Deliver(stored, Delivery([Row(vj, first), Row(vj, second)], complete)) == Ending(stored, [], true)
  {
    hide Handle, FeedList, CoveringFeed, AllFound, Deliver;
    assert UpdatesCarryDelay(first.stops) && UpdatesCarryDelay(second.stops) by {
      FullFeedsCarryDelays(vj, first, complete);
      FullFeedsCarryDelays(vj, second, complete);
    }
    var db := StoredFor(stored, vj);
    LinkedExactly(vj, db, first, complete);
    LinkedIsFeedList(vj, db, first, complete);
    LinkedExactly(vj, if db.Some? then Handle(vj, db, first, complete).stored else None, second, complete);
    TripLinkedTwiceFailsTheDelivery(stored, vj, first, second, complete);
  }

  lemma FullFeedsCarryDelays(vj: VehicleJourney, feed: Trip, complete: bool)
    requires CoveringFeed(vj.stops, feed, complete)
    ensures UpdatesCarryDelay(feed.stops)
  {
  }

  /** A cancelled trip comes back, then the same batch names it again with an unknown stop in front. */
  lemma RefusalAfterLinkIsPublished(vj: VehicleJourney, a: StopId, b: StopId, x: StopId)
    requires vj.stops == TwoStops(a, b) && a != b && x != a && x != b
    ensures var stored := [Row(vj, Trip(Delete, None, None, []))];
            var batch := [Row(vj, AsScheduled(vj.stops, 2)), Row(vj, FeedAfter(x, a, b))];
      && CarryDelays(batch)
      && var e := Deliver(stored, Delivery(batch, true));
      && !e.failed && e.published == [0] && |e.rows| > 0 && !Publishable(e.rows[0].trip)
  {
    var stored, first, second := [Row(vj, Trip(Delete, None, None, []))], AsScheduled(vj.stops, 2), FeedAfter(x, a, b);
    AsScheduledCovers(vj.stops, 2);
    StartsTimed(vj);
    var db := Some(stored[0].trip);
    assert StoredFor(stored, vj) == db;
    var list := FeedList(vj, first, true);
    assert FindStop([], list[0].id, 0) == None;
    LinkedExactly(vj, db, first, true);
    LinkedIsFeedList(vj, db, first, true);
    var once := Handle(vj, db, first, true).stored.value;
    FeedListShape(vj, first, true);
    DroppedFirst(a, b, x, once.stops);
    hide Handle, FeedList, Merge, Publishable, Deliver, FeedItems;
    RefusedAfter(vj, a, b, x, once);
    RefusedAfterLinkIsPublished(stored, vj, first, second, true);
  }

  function FeedAfter(x: StopId, a: StopId, b: StopId): Trip {
    TripOf([Both(x, 0, NORMAL), Both(a, 1, NORMAL), Both(b, 2, NORMAL)])
  }

  /** The unknown stop is not visited: it is neither in the base schedule, nor stored, nor added. */
  lemma DroppedFirst(a: StopId, b: StopId, x: StopId, stored: seq<Stop>)
    requires a != b && x != a && x != b && |stored| == 2 && stored[0].id == a && stored[1].id == b
    ensures FeedItems(TwoStops(a, b), Some(stored), FeedAfter(x, a, b).stops, 3)
            == Ok([Item(1, TwoStops(a, b)[0]), Item(2, TwoStops(a, b)[1])])
  {
    var base, feed := TwoStops(a, b), FeedAfter(x, a, b).stops;
    assert base[1..] == [base[1]];
    FindStopFindsId(stored, x, 0);
    assert Visit(base, Some(stored), feed[0], 0) == Ok(None) by {
      hide FindStop;
    }
    VisitInBase(base, Some(stored), feed[1], 1);
    VisitInBase(base, Some(stored), feed[2], 2);
    hide Visit;
    assert FeedItems(base, Some(stored), feed, 0) == Ok([]);
    assert FeedItems(base, Some(stored), feed, 1) == Ok([]);
    hide FeedItems;
    VisitedNext(base, Some(stored), feed, 2, Item(1, base[0]));
    VisitedNext(base, Some(stored), feed, 3, Item(2, base[1]));
    assert [] + [Item(1, base[0])] + [Item(2, base[1])] == [Item(1, base[0]), Item(2, base[1])];
  }

  lemma RefusedAfter(vj: VehicleJourney, a: StopId, b: StopId, x: StopId, once: Trip)
    requires a != b && vj.stops == TwoStops(a, b) && |once.stops| == 2 && OrdersAreIndexes(once.stops)
    requires FeedItems(vj.stops, Some(once.stops), FeedAfter(x, a, b).stops, 3)
             == Ok([Item(1, TwoStops(a, b)[0]), Item(2, TwoStops(a, b)[1])])
    ensures UpdatesCarryDelay(FeedAfter(x, a, b).stops)
    ensures Merge(vj, Some(once), FeedAfter(x, a, b), true).Merged?
    ensures !Handle(vj, Some(once), FeedAfter(x, a, b), true).linked
  {
    var feed, items := FeedAfter(x, a, b), [Item(1, TwoStops(a, b)[0]), Item(2, TwoStops(a, b)[1])];
    assert FullFeed(vj.stops, feed, true) && |feed.stops| == 3;
    hide Merge, Handle, FeedItems, Run, FullFeed, FindStop;
    FullFeedCovers(vj.stops, Some(once.stops), feed, true);
    var out := Rebuilt(vj.CirculationDate(), items, feed.stops);
    RebuiltIsChain(vj.CirculationDate(), items, feed.stops);
    StoredListAfterFullFeed(vj, once, feed, true);
    FullFeedLinkedExactly(vj, Some(once), feed, true);
    var last := items[1];
    BeyondTheEnd(once.stops, last.nav.id, 2, out[1]);
  }

  lemma BeyondTheEnd(stops: seq<Stop>, id: StopId, order: nat, s: Stop)
    requires OrdersAreIndexes(stops) && |stops| <= order && s.order == Some(order)
    ensures FindStop(stops, id, order) != Some(s)
  {
  }
}
