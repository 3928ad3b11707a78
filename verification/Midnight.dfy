/** When the dates rebuilt from times of day alone are the true ones (kirin/core/merge_utils.py:272-284, 338-408). */
module Midnight {
  import opened Basics
  import opened StopTimes
  import opened MergeRules
  import opened RepairRules
  import opened RepairLaws
  import opened MergeLaws
  import opened Handling
  import opened FeedLaws

  /** The clock after the first k events. */
  function After(date: int, ticks: seq<Tick>, k: nat): Clock
    requires k <= |ticks|
  {
    if k == 0 then Clock(date, Nothing) else Advance(After(date, ticks, k - 1), ticks[k - 1])
  }

  function DateGiven(date: int, ticks: seq<Tick>, k: nat): Option<int>
    requires k < |ticks|
  {
    Dated(After(date, ticks, k + 1), ticks[k])
  }

  /** Served, with a time of day to date. */
  predicate Datable(t: Tick) {
    t.served && t.time.Some?
  }

  /** The last datable event before the k-th. */
  function Previous(ticks: seq<Tick>, k: nat): (r: Option<nat>)
    requires k <= |ticks|
    ensures r.Some? ==> r.value < k && Datable(ticks[r.value])
  {
    if k == 0 then None
    else if Datable(ticks[k - 1]) then Some(k - 1)
    else Previous(ticks, k - 1)
  }

  /** The last served event before the k-th, datable or not: the one the clock remembers. */
  function Remembered(ticks: seq<Tick>, k: nat): (r: Option<nat>)
    requires k <= |ticks|
    ensures r.Some? ==> r.value < k && ticks[r.value].served
    ensures r.Some? && Datable(ticks[r.value]) ==> Previous(ticks, k) == r
    ensures r.None? ==> Previous(ticks, k).None?
  {
    if k == 0 then None
    else if ticks[k - 1].served then Some(k - 1)
    else Remembered(ticks, k - 1)
  }

  /** The true instants have the scheduled times of day, never go back, and leave less than a day between two events. */
  ghost predicate Timetable(ticks: seq<Tick>, truth: seq<int>) {
    && |truth| == |ticks|
    && (forall k :: 0 <= k < |ticks| && Datable(ticks[k]) ==> TimeOf(truth[k]) == ticks[k].time.value)
    && (forall k :: 0 <= k < |ticks| && Datable(ticks[k]) && Previous(ticks, k).Some? ==>
          truth[Previous(ticks, k).value] <= truth[k] < truth[Previous(ticks, k).value] + DAY)
  }

  /** What the feed must respect at the k-th event for its date to be found. */
  predicate DateDetectable(date: int, ticks: seq<Tick>, truth: seq<int>, k: nat)
    requires |truth| == |ticks| && k < |ticks|
  {
    var previous := Previous(ticks, k);
    if previous.None? then DateOf(truth[k]) == date
    else
      var j := previous.value;
      DateOf(truth[j]) != DateOf(truth[k]) ==>
        Remembered(ticks, k) == previous && ticks[k].delay - ticks[j].delay < DAY - (truth[k] - truth[j])
  }

  ghost predicate DatesDetectable(date: int, ticks: seq<Tick>, truth: seq<int>, n: nat)
    requires |truth| == |ticks| && n <= |ticks|
  {
    forall k :: 0 <= k < n && Datable(ticks[k]) ==> DateDetectable(date, ticks, truth, k)
  }

  ghost predicate TrueDatesGiven(date: int, ticks: seq<Tick>, truth: seq<int>, n: nat)
    requires |truth| == |ticks| && n <= |ticks|
  {
    forall k :: 0 <= k < n && Datable(ticks[k]) ==> DateGiven(date, ticks, k) == Some(truth[k])
  }

  lemma {:induction false} ClockRemembers(date: int, ticks: seq<Tick>, k: nat)
    requires k <= |ticks|
    ensures var l := Remembered(ticks, k);
            After(date, ticks, k).memory == if l.None? then Nothing else Seen(ticks[l.value].time, ticks[l.value].delay)
  {
    if k > 0 {
      ClockRemembers(date, ticks, k - 1);
    }
  }

  /** Calendar arithmetic of one step: two instants less than a day apart. */
  lemma MidnightCrossing(before: int, after: int, delayBefore: int, delayAfter: int)
    requires before <= after < before + DAY
    ensures var crossing := PastMidnight(Seen(Some(TimeOf(before)), delayBefore), TimeOf(after), delayAfter);
            && DateOf(before) <= DateOf(after) <= DateOf(before) + 1
            && (DateOf(after) == DateOf(before) ==> !crossing)
            && (DateOf(after) == DateOf(before) + 1 ==>
                (crossing <==> delayAfter - delayBefore < DAY - (after - before)))
  {
  }

  lemma OneEventDated(date: int, ticks: seq<Tick>, truth: seq<int>, k: nat)
    requires Timetable(ticks, truth) && k < |ticks| && Datable(ticks[k])
    requires After(date, ticks, k).date == if Previous(ticks, k).Some? then DateOf(truth[Previous(ticks, k).value])
      else date
    ensures DateGiven(date, ticks, k) == Some(truth[k]) <==> DateDetectable(date, ticks, truth, k)
    ensures DateGiven(date, ticks, k) == Some(truth[k]) ==> After(date, ticks, k + 1).date == DateOf(truth[k])
  {
    ClockRemembers(date, ticks, k);
    var previous := Previous(ticks, k);
    if previous.Some? {
      MidnightCrossing(truth[previous.value], truth[k], ticks[previous.value].delay, ticks[k].delay);
    }
  }

  lemma {:induction false} DatesFollowTruth(date: int, ticks: seq<Tick>, truth: seq<int>, n: nat)
    requires Timetable(ticks, truth) && n <= |ticks|
    ensures TrueDatesGiven(date, ticks, truth, n) <==> DatesDetectable(date, ticks, truth, n)
    ensures TrueDatesGiven(date, ticks, truth, n) ==>
      After(date, ticks, n).date == if Previous(ticks, n).Some? then DateOf(truth[Previous(ticks, n).value]) else date
  {
    if n > 0 {
      DatesFollowTruth(date, ticks, truth, n - 1);
      if TrueDatesGiven(date, ticks, truth, n - 1) && Datable(ticks[n - 1]) {
        OneEventDated(date, ticks, truth, n - 1);
      }
    }
  }

  // ---------------------------------------------------------------- the loop runs this clock

  /** The events of the visited stops in order: 2i is the arrival of stop i, 2i + 1 its departure. */
  function TicksOf(items: seq<Item>, db: Option<seq<Stop>>, feed: seq<Stop>, k: nat): (r: seq<Tick>)
    requires k <= |items|
    ensures |r| == 2 * k
  {
    if k == 0 then []
    else TicksOf(items, db, feed, k - 1) + [TickAt(items, db, feed, k - 1, Arrival),
                                            TickAt(items, db, feed, k - 1, Departure)]
  }

  lemma {:induction false} AfterPrefix(date: int, ticks: seq<Tick>, more: seq<Tick>, k: nat)
    requires k <= |ticks|
    ensures After(date, ticks + more, k) == After(date, ticks, k)
  {
    if k > 0 {
      AfterPrefix(date, ticks, more, k - 1);
    }
  }

  function EventIndex(i: nat, side: Side): nat {
    if side == Arrival then 2 * i else 2 * i + 1
  }

  lemma RunClockStep(date: int, items: seq<Item>, db: Option<seq<Stop>>, feed: seq<Stop>, k: nat)
    requires UpdatesCarryDelay(feed) && k < |items|
    ensures Run(date, items, db, feed, k + 1).clock
            == Advance(Advance(Run(date, items, db, feed, k).clock, TickAt(items, db, feed, k, Arrival)),
                       TickAt(items, db, feed, k, Departure))
  {
  }

  lemma {:induction false} LoopRunsClock(date: int, items: seq<Item>, db: Option<seq<Stop>>, feed: seq<Stop>, k: nat)
    requires UpdatesCarryDelay(feed) && k <= |items|
    ensures Run(date, items, db, feed, k).clock == After(date, TicksOf(items, db, feed, k), 2 * k)
  {
    hide Run, TickAt, Advance;
    if k > 0 {
      LoopRunsClock(date, items, db, feed, k - 1);
      RunClockStep(date, items, db, feed, k - 1);
      var before, ticks := TicksOf(items, db, feed, k - 1), TicksOf(items, db, feed, k);
      AfterPrefix(date, before, ticks[2 * k - 2..], 2 * k - 2);
      assert ticks == before + ticks[2 * k - 2..];
      assert After(date, ticks, 2 * k - 1) == Advance(After(date, ticks, 2 * k - 2), ticks[2 * k - 2]);
    } else {
      EmptyRunClock(date, items, db, feed);
    }
  }

  lemma EmptyRunClock(date: int, items: seq<Item>, db: Option<seq<Stop>>, feed: seq<Stop>)
    requires UpdatesCarryDelay(feed)
    ensures Run(date, items, db, feed, 0).clock == Clock(date, Nothing)
  {
  }

  lemma {:induction false} TicksPrefix(items: seq<Item>, db: Option<seq<Stop>>, feed: seq<Stop>, i: nat, k: nat)
    requires i <= k <= |items|
    ensures TicksOf(items, db, feed, k)[..2 * i] == TicksOf(items, db, feed, i)
  {
    hide TickAt;
    if i < k {
      TicksPrefix(items, db, feed, i, k - 1);
      assert TicksOf(items, db, feed, k)[..2 * i] == TicksOf(items, db, feed, k - 1)[..2 * i];
    }
  }

  /** The last two events of a beginning of the loop, and the clock over them. */
  lemma LastStopClock(date: int, items: seq<Item>, db: Option<seq<Stop>>, feed: seq<Stop>, i: nat)
    requires UpdatesCarryDelay(feed) && i < |items|
    ensures var upTo := TicksOf(items, db, feed, i + 1);
      && upTo[2 * i] == TickAt(items, db, feed, i, Arrival) && upTo[2 * i + 1] == TickAt(items, db, feed, i, Departure)
      && After(date, upTo, 2 * i + 1) == ClockAt(date, items, db, feed, i, Arrival)
      && After(date, upTo, 2 * i + 2) == ClockAt(date, items, db, feed, i, Departure)
  {
    hide Run, TickAt, Advance;
    var before, upTo := TicksOf(items, db, feed, i), TicksOf(items, db, feed, i + 1);
    LoopRunsClock(date, items, db, feed, i);
    assert upTo == before + upTo[2 * i..];
    AfterPrefix(date, before, upTo[2 * i..], 2 * i);
    assert After(date, upTo, 2 * i + 1) == Advance(After(date, upTo, 2 * i), upTo[2 * i]);
  }

  /** The base datetimes of the loop are those of the clock run over the flat sequence of events. */
  lemma LoopDatesAreClockDates(date: int, items: seq<Item>, db: Option<seq<Stop>>, feed: seq<Stop>, i: nat, side: Side)
    requires UpdatesCarryDelay(feed) && i < |items|
    ensures var ticks := TicksOf(items, db, feed, |items|);
            && ticks[EventIndex(i, side)] == TickAt(items, db, feed, i, side)
            && DateGiven(date, ticks, EventIndex(i, side)) == BaseAt(date, items, db, feed, i, side)
  {
    hide Run, TickAt, Advance, TicksOf, After, Dated;
    var ticks, upTo := TicksOf(items, db, feed, |items|), TicksOf(items, db, feed, i + 1);
    LastStopClock(date, items, db, feed, i);
    TicksPrefix(items, db, feed, i + 1, |items|);
    assert ticks == upTo + ticks[2 * i + 2..];
    AfterPrefix(date, upTo, ticks[2 * i + 2..], EventIndex(i, side) + 1);
    assert ticks[EventIndex(i, side)] == upTo[EventIndex(i, side)];
  }

  /** Midnight round trip: the loop finds every true base datetime exactly when the feed keeps the dates detectable. */
  lemma MidnightRoundTrip(date: int, items: seq<Item>, db: Option<seq<Stop>>, feed: seq<Stop>, truth: seq<int>)
    requires UpdatesCarryDelay(feed)
    requires Timetable(TicksOf(items, db, feed, |items|), truth)
    ensures DatesDetectable(date, TicksOf(items, db, feed, |items|), truth, |truth|)
      <==> forall i, side :: 0 <= i < |items| && Datable(TickAt(items, db, feed, i, side)) ==>
             BaseAt(date, items, db, feed, i, side) == Some(truth[EventIndex(i, side)])
  {
    var ticks := TicksOf(items, db, feed, |items|);
    DatesFollowTruth(date, ticks, truth, |truth|);
    hide Run, TickAt, After;
    forall i, side | 0 <= i < |items|
      ensures ticks[EventIndex(i, side)] == TickAt(items, db, feed, i, side)
      ensures DateGiven(date, ticks, EventIndex(i, side)) == BaseAt(date, items, db, feed, i, side)
    {
      LoopDatesAreClockDates(date, items, db, feed, i, side);
    }
    if forall i, side :: 0 <= i < |items| && Datable(TickAt(items, db, feed, i, side)) ==>
         BaseAt(date, items, db, feed, i, side) == Some(truth[EventIndex(i, side)])
    {
      forall k | 0 <= k < |truth| && Datable(ticks[k])
        ensures DateGiven(date, ticks, k) == Some(truth[k])
      {
        var side := if k % 2 == 0 then Arrival else Departure;
        assert k == EventIndex(k / 2, side);
        assert ticks[EventIndex(k / 2, side)] == TickAt(items, db, feed, k / 2, side);
      }
    }
  }

  /** A first event at the start's time of day is dated at the start of the vehicle journey. */
  lemma StartIsFirstInstant(vj: VehicleJourney, items: seq<Item>, db: Option<seq<Stop>>, feed: seq<Stop>, side: Side)
    requires UpdatesCarryDelay(feed) && items != []
    requires Datable(TickAt(items, db, feed, 0, side)) && BaseTime(side, items[0].nav) == Some(TimeOf(vj.start))
    requires side == Departure ==> !TickAt(items, db, feed, 0, Arrival).served
    ensures BaseAt(vj.CirculationDate(), items, db, feed, 0, side) == Some(vj.start)
  {
    hide Served;
  }

  /**
   * From times of day to publication, stops outside the base schedule included: events that keep their base are
   * stored at their true instant plus their delay.
   */
  lemma TrueInstantsAreStored(vj: VehicleJourney, db: Option<Trip>, feed: Trip, complete: bool, truth: seq<int>,
                              i: nat, side: Side)
    requires FullFeed(vj.stops, feed, complete) && Handle(vj, db, feed, complete).linked
    requires var items := Items(vj.stops, StopsOf(db), feed.stops, complete);
      && items.Ok? && i < |items.value| <= |feed.stops|
      && var ticks := TicksOf(items.value, None, feed.stops, |items.value|);
      && Timetable(ticks, truth) && DatesDetectable(vj.CirculationDate(), ticks, truth, |truth|)
      && KeepsBase(feed.stops[i].At(side)) && BaseTime(side, items.value[i].nav).Some?
    ensures var stored := Handle(vj, db, feed, complete).stored.value.stops;
            && i < |stored| <= |feed.stops| && Timed(stored[i]) && stored[i].id == feed.stops[i].id
            && Origin(stored[i].At(side)) == truth[EventIndex(i, side)]
            && FeedDelay(feed.stops[i].At(side)) <= stored[i].At(side).delay.value
  {
    hide Handle, Items, Run, FindStop, TicksOf, Timetable, DatesDetectable, BaseAt;
    LinkedFullFeed(vj, db, feed, complete);
    var items := Items(vj.stops, StopsOf(db), feed.stops, complete).value;
    var item := items[i];
    MidnightRoundTrip(vj.CirculationDate(), items, None, feed.stops, truth);
    assert Datable(TickAt(items, None, feed.stops, i, side));
    BaseConservation(vj, db, feed, complete, i, side);
  }
}
