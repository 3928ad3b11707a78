/**
 * A complete feed sent again: when stops outside the base schedule make it news (kirin/core/merge_utils.py:139-161,
 * 235-263).
 */
module Resending {
  import opened Basics
  import opened StopTimes
  import opened MergeRules
  import opened RepairRules
  import opened RepairLaws
  import opened MergeLaws
  import opened FeedLaws
  import opened Midnight
  import opened Handling
  import Runs

  // ---------------------------------------------------------------- lists and the base datetimes behind them

  function BaseOf(date: int, items: seq<Item>, feed: seq<Stop>, i: nat, side: Side): Option<int>
    requires UpdatesCarryDelay(feed) && i < |items|
  {
    BaseAt(date, items, None, feed, i, side)
  }

  /** Two visits of the same entries in the same places. */
  ghost predicate SameVisits(items: seq<Item>, others: seq<Item>, feed: seq<Stop>) {
    && Covering(items, feed) && Covering(others, feed) && |items| == |others|
    && forall i {:trigger items[i]} {:trigger others[i]} :: 0 <= i < |items| ==>
         items[i].order == others[i].order && items[i].nav.id == others[i].nav.id
         && (items[i].nav.arr.Some? <==> others[i].nav.arr.Some?)
           && (items[i].nav.dep.Some? <==> others[i].nav.dep.Some?)
  }

  /** Both visits date alike the events that keep their base. */
  ghost predicate SameBases(date: int, items: seq<Item>, others: seq<Item>, feed: seq<Stop>)
    requires UpdatesCarryDelay(feed) && SameVisits(items, others, feed)
  {
    forall i, side {:trigger BaseOf(date, items, feed, i, side)} ::
      0 <= i < |items| && KeepsBase(Entry(items[i], feed).At(side)) ==>
        BaseOf(date, items, feed, i, side) == BaseOf(date, others, feed, i, side)
  }

  /** A record depends on base datetimes only through the events that keep them. */
  lemma UpdatedFromBases(arr: Option<int>, dep: Option<int>, arr': Option<int>, dep': Option<int>, last: Option<int>,
                         input: Stop, id: StopId, order: int)
    requires input.CarriesDelay()
    requires KeepsBase(input.arr) ==> arr == arr'
    requires KeepsBase(input.dep) ==> dep == dep'
    ensures Updated(arr, dep, last, input, id, order) == Updated(arr', dep', last, input, id, order)
  {
  }

  lemma {:induction false} SameBasesSameList(date: int, items: seq<Item>, others: seq<Item>, feed: seq<Stop>, k: nat)
    requires UpdatesCarryDelay(feed) && SameVisits(items, others, feed) && k <= |items|
    requires SameBases(date, items, others, feed)
    ensures Run(date, items, None, feed, k).out == Run(date, others, None, feed, k).out
    ensures Run(date, items, None, feed, k).last == Run(date, others, None, feed, k).last
  {
    if k > 0 {
      hide Run, BaseAt, FindStop, Updated;
      SameBasesSameList(date, items, others, feed, k - 1);
      CoveringStop(date, items, feed, k - 1);
      CoveringStop(date, others, feed, k - 1);
      var item, other := items[k - 1], others[k - 1];
      var last := Run(date, items, None, feed, k - 1).last;
      UpdatedFromBases(BaseOf(date, items, feed, k - 1, Arrival), BaseOf(date, items, feed, k - 1, Departure),
                       BaseOf(date, others, feed, k - 1, Arrival), BaseOf(date, others, feed, k - 1, Departure),
                       last, Entry(item, feed), item.nav.id, item.order);
    }
  }

  /** An event that keeps its base has one exactly when its base stop gives it a time. */
  lemma KeptBaseKnown(date: int, items: seq<Item>, feed: seq<Stop>, i: nat, side: Side)
    requires UpdatesCarryDelay(feed) && Covering(items, feed) && i < |items|
    requires var item := items[i]; KeepsBase(Entry(item, feed).At(side))
    ensures BaseOf(date, items, feed, i, side).Some? <==> BaseTime(side, items[i].nav).Some?
    ensures BaseOf(date, items, feed, i, side).Some? ==>
      Some(TimeOf(BaseOf(date, items, feed, i, side).value)) == BaseTime(side, items[i].nav)
  {
    hide FindStop;
    var item := items[i];
    assert Served(side, item.nav.id, item.order, Some(item.nav), None, FindStop(feed, item.nav.id, item.order));
  }

  lemma SameListSameBases(date: int, items: seq<Item>, others: seq<Item>, feed: seq<Stop>)
    requires UpdatesCarryDelay(feed) && SameVisits(items, others, feed)
    requires Rebuilt(date, items, feed) == Rebuilt(date, others, feed)
    ensures SameBases(date, items, others, feed)
  {
    hide Rebuilt, BaseAt, FindStop;
    forall i, side | 0 <= i < |items| && KeepsBase(Entry(items[i], feed).At(side))
      ensures BaseOf(date, items, feed, i, side) == BaseOf(date, others, feed, i, side)
    {
      KeptBaseKnown(date, items, feed, i, side);
      KeptBaseKnown(date, others, feed, i, side);
      if BaseOf(date, items, feed, i, side).Some? {
        RebuiltConserves(date, items, feed, i, side);
        RebuiltConserves(date, others, feed, i, side);
      }
    }
  }

  /** The same list is rebuilt exactly when the events that keep their base are dated alike. */
  lemma SameListIffSameBases(date: int, items: seq<Item>, others: seq<Item>, feed: seq<Stop>)
    requires UpdatesCarryDelay(feed) && SameVisits(items, others, feed)
    ensures Rebuilt(date, items, feed) == Rebuilt(date, others, feed) <==> SameBases(date, items, others, feed)
  {
    hide Run;
    if SameBases(date, items, others, feed) {
      SameBasesSameList(date, items, others, feed, |items|);
    }
    if Rebuilt(date, items, feed) == Rebuilt(date, others, feed) {
      SameListSameBases(date, items, others, feed);
    }
  }

  // ---------------------------------------------------------------- the visits of a feed sent again

  /** A stop outside the base schedule whose entry has no time: its times are read from the stored trip. */
  predicate Reread(base: seq<BaseStop>, entry: Stop) {
    FindInBase(entry.id, base).None? && entry.arr.time.None? && entry.dep.time.None?
  }

  /** How a visited stop is visited once it is stored. */
  function ReadAgain(base: seq<BaseStop>, item: Item, entry: Stop, stored: Stop): Item
    requires Timed(stored)
  {
    if Reread(base, entry) then
      Item(item.order, BaseStop(entry.id, Some(TimeOf(stored.arr.time.value)), Some(TimeOf(stored.dep.time.value))))
    else item
  }

  function AllReadAgain(base: seq<BaseStop>, items: seq<Item>, feed: seq<Stop>, list: seq<Stop>): (r: seq<Item>)
    requires |items| == |list| <= |feed| && AllTimed(list)
    ensures |r| == |items|
  {
    seq(|items|, i requires 0 <= i < |items| => ReadAgain(base, items[i], feed[i], list[i]))
  }

  /** A stored stop is visited again: sending the same status again is valid. */
  lemma VisitedAgain(base: seq<BaseStop>, db: Option<seq<Stop>>, entry: Stop, k: nat, item: Item, list: seq<Stop>)
    requires Visit(base, db, entry, k) == Ok(Some(item))
    requires OrdersAreIndexes(list) && k < |list| && Timed(list[k])
    requires list[k].id == entry.id && list[k].arr.status == entry.arr.status
    ensures Visit(base, Some(list), entry, k) == Ok(Some(ReadAgain(base, item, entry, list[k])))
  {
    hide FindInBase;
    FindStopAtItsOrder(list, k);
    hide FindStop;
  }

  lemma DroppedNext(base: seq<BaseStop>, db: Option<seq<Stop>>, feed: seq<Stop>, k: nat)
    requires 0 < k <= |feed| && FeedItems(base, db, feed, k - 1).Ok? && Dropped(base, db, feed, k - 1)
    ensures FeedItems(base, db, feed, k) == FeedItems(base, db, feed, k - 1)
  {
    hide Visit;
  }

  /** The visits of a feed: those of its first stops when all others are dropped. */
  lemma {:induction false} VisitsOfPrefix(base: seq<BaseStop>, db: Option<seq<Stop>>, feed: seq<Stop>,
                                          items: seq<Item>, k: nat)
    requires |items| <= |feed| && k <= |feed|
    requires forall i :: 0 <= i < |items| ==> Visit(base, db, feed[i], i) == Ok(Some(items[i]))
    requires forall i :: |items| <= i < |feed| ==> Dropped(base, db, feed, i)
    ensures FeedItems(base, db, feed, k) == Ok(if k < |items| then items[..k] else items)
  {
    hide *;
    if k > 0 {
      VisitsOfPrefix(base, db, feed, items, k - 1);
      if k <= |items| {
        VisitedNext(base, db, feed, k, items[k - 1]);
        assert items[..k] == items[..k - 1] + [items[k - 1]];
        assert items[..|items|] == items;
      } else {
        DroppedNext(base, db, feed, k);
      }
    } else {
      NothingVisited(base, db, feed);
    }
  }

  lemma NothingVisited(base: seq<BaseStop>, db: Option<seq<Stop>>, feed: seq<Stop>)
    ensures FeedItems(base, db, feed, 0) == Ok([])
  {
  }

  lemma {:induction false} VisitedIsListed(base: seq<BaseStop>, db: Option<seq<Stop>>, feed: seq<Stop>, i: nat, k: nat)
    returns (j: nat)
    requires i < k <= |feed| && FeedItems(base, db, feed, k).Ok? && !Dropped(base, db, feed, i)
    ensures j < |FeedItems(base, db, feed, k).value| && FeedItems(base, db, feed, k).value[j].order == i
  {
    hide Visit;
    if i < k - 1 {
      j := VisitedIsListed(base, db, feed, i, k - 1);
    } else {
      j := |FeedItems(base, db, feed, k).value| - 1;
    }
  }

  // ---------------------------------------------------------------- merging the same feed again

  /** The stops that the stored list lacks are dropped once more. */
  ghost predicate DroppedAgain(base: seq<BaseStop>, list: seq<Stop>, feed: seq<Stop>) {
    forall k :: |list| <= k < |feed| ==> Dropped(base, Some(list), feed, k)
  }

  /** A newly visited stop is news. */
  lemma NewVisitIsNews(vj: VehicleJourney, once: Trip, feed: Trip, k: nat)
    requires FullFeed(vj.stops, feed, true) && OrdersAreIndexes(once.stops)
    requires |once.stops| <= k < |feed.stops| && !Dropped(vj.stops, Some(once.stops), feed.stops, k)
    ensures !Merge(vj, Some(once), feed, true).Unchanged?
  {
    hide Visit, Run, FindStop, FeedItems;
    var visits := FeedItems(vj.stops, Some(once.stops), feed.stops, |feed.stops|);
    if visits.Ok? {
      var items, date := visits.value, vj.CirculationDate();
      CompleteFeedCovers(vj.stops, Some(once.stops), feed.stops);
      CoveringRunIgnoresStored(date, items, once.stops, feed.stops, |items|);
      MergeFromRun(vj, once, feed, true, items);
      RebuiltIsChain(date, items, feed.stops);
      var j := VisitedIsListed(vj.stops, Some(once.stops), feed.stops, k, |feed.stops|);
      var item := items[j];
      FoundHasItsOrder(once.stops, item.nav.id, item.order);
      assert FindStop(once.stops, items[j].nav.id, items[j].order) != Some(Rebuilt(date, items, feed.stops)[j]);
    }
  }

  lemma FoundHasItsOrder(list: seq<Stop>, id: StopId, order: nat)
    requires OrdersAreIndexes(list) && |list| <= order
    ensures FindStop(list, id, order).Some? ==> FindStop(list, id, order).value.order != Some(order)
  {
  }

  /** The second merge of a list that starts with the same stops compares the two lists. */
  lemma ComparesLists(vj: VehicleJourney, once: Trip, feed: Trip, items: seq<Item>)
    requires FullFeed(vj.stops, feed, true) && OrdersAreIndexes(once.stops) && |items| == |once.stops|
    requires FeedItems(vj.stops, Some(once.stops), feed.stops, |feed.stops|) == Ok(items)
    requires Covering(items, feed.stops)
    requires forall i {:trigger items[i]} :: 0 <= i < |items| ==>
      items[i].order == i && items[i].nav.id == once.stops[i].id
    ensures Merge(vj, Some(once), feed, true).Unchanged?
      <==> Rebuilt(vj.CirculationDate(), items, feed.stops) == once.stops
  {
    hide Visit, Run, FindStop, FeedItems;
    var date := vj.CirculationDate();
    CoveringRunIgnoresStored(date, items, once.stops, feed.stops, |items|);
    MergeFromRun(vj, once, feed, true, items);
    var out := Rebuilt(date, items, feed.stops);
    forall i | 0 <= i < |items|
      ensures FindStop(once.stops, items[i].nav.id, items[i].order) == Some(once.stops[i])
    {
      FindStopAtItsOrder(once.stops, i);
    }
    assert Differs(items, once.stops, out, |items|)
      <==> exists i {:trigger items[i]} :: 0 <= i < |items| && once.stops[i] != out[i];
    if out != once.stops {
      var i :| 0 <= i < |items| && once.stops[i] != out[i];
      var item := items[i];
    }
  }

  /** What is known of a linked complete feed, stop by stop. */
  lemma LinkedStops(vj: VehicleJourney, db: Option<Trip>, feed: Trip)
    requires FullFeed(vj.stops, feed, true) && Handle(vj, db, feed, true).linked
    ensures var items := FeedItems(vj.stops, StopsOf(db), feed.stops, |feed.stops|);
            var list := Handle(vj, db, feed, true).stored.value.stops;
      && items.Ok? && |items.value| == |list| <= |feed.stops| && Covering(items.value, feed.stops)
      && list == Rebuilt(vj.CirculationDate(), items.value, feed.stops)
      && AllTimed(list) && OrdersAreIndexes(list)
      && forall i {:trigger items.value[i]} :: 0 <= i < |list| ==>
           && Visit(vj.stops, StopsOf(db), feed.stops[i], i) == Ok(Some(items.value[i]))
           && items.value[i].order == i && items.value[i].nav.id == feed.stops[i].id
           && Entry(items.value[i], feed.stops) == feed.stops[i]
           && list[i].id == feed.stops[i].id
           && list[i].arr.status == feed.stops[i].arr.status && list[i].dep.status == feed.stops[i].dep.status
  {
    hide Handle, Run, Rebuilt, FindStop, Visit, FeedItems;
    LinkedFullFeed(vj, db, feed, true);
    LinkedIsTimed(vj, db, feed, true);
    var items := FeedItems(vj.stops, StopsOf(db), feed.stops, |feed.stops|).value;
    RebuiltIsChain(vj.CirculationDate(), items, feed.stops);
    forall i | 0 <= i < |items|
      ensures Visit(vj.stops, StopsOf(db), feed.stops[i], i) == Ok(Some(items[i]))
      ensures Handle(vj, db, feed, true).stored.value.stops[i].arr.status == feed.stops[i].arr.status
      ensures Handle(vj, db, feed, true).stored.value.stops[i].dep.status == feed.stops[i].dep.status
    {
      Runs.FeedItemsOrigin(vj.stops, StopsOf(db), feed.stops, |feed.stops|, i);
      RebuiltCarries(vj.CirculationDate(), items, feed.stops, i);
      var s := Handle(vj, db, feed, true).stored.value.stops[i];
      assert s.At(Arrival) == s.arr && s.At(Departure) == s.dep;
    }
  }

  /**
   * When the dropped stops are dropped again, the others are visited again, some with times read from the stored trip.
   */
  lemma SecondVisits(vj: VehicleJourney, db: Option<Trip>, feed: Trip)
    requires FullFeed(vj.stops, feed, true) && Handle(vj, db, feed, true).linked
    requires DroppedAgain(vj.stops, Handle(vj, db, feed, true).stored.value.stops, feed.stops)
    ensures var items := FeedItems(vj.stops, StopsOf(db), feed.stops, |feed.stops|);
            var list := Handle(vj, db, feed, true).stored.value.stops;
      && items.Ok? && |items.value| == |list| <= |feed.stops| && AllTimed(list)
      && var again := AllReadAgain(vj.stops, items.value, feed.stops, list);
      && FeedItems(vj.stops, Some(list), feed.stops, |feed.stops|) == Ok(again)
      && SameVisits(items.value, again, feed.stops)
  {
    hide Handle, Run, Rebuilt, FindStop, Visit, FeedItems, FindInBase;
    LinkedStops(vj, db, feed);
    var items := FeedItems(vj.stops, StopsOf(db), feed.stops, |feed.stops|).value;
    var list := Handle(vj, db, feed, true).stored.value.stops;
    var again := AllReadAgain(vj.stops, items, feed.stops, list);
    forall i | 0 <= i < |items|
      ensures Visit(vj.stops, Some(list), feed.stops[i], i) == Ok(Some(again[i]))
      ensures again[i].order == i && again[i].nav.id == feed.stops[i].id
      ensures (again[i].nav.arr.Some? <==> items[i].nav.arr.Some?)
        && (again[i].nav.dep.Some? <==> items[i].nav.dep.Some?)
    {
      var item := items[i];
      VisitedAgain(vj.stops, StopsOf(db), feed.stops[i], i, item, list);
      if Reread(vj.stops, feed.stops[i]) {
        OutsideIsTimed(vj.stops, StopsOf(db), feed.stops[i], i, item);
      }
    }
    VisitsOfPrefix(vj.stops, Some(list), feed.stops, again, |feed.stops|);
    CompleteFeedCovers(vj.stops, Some(list), feed.stops);
  }

  lemma OutsideIsTimed(base: seq<BaseStop>, db: Option<seq<Stop>>, entry: Stop, k: nat, item: Item)
    requires Visit(base, db, entry, k) == Ok(Some(item)) && FindInBase(entry.id, base).None?
    ensures item.nav.arr.Some? && item.nav.dep.Some?
  {
  }

  /**
   * A linked complete feed sent again is no news exactly when it drops the same stops and dates the same base events
   * alike.
   */
  lemma ResentFeed(vj: VehicleJourney, db: Option<Trip>, feed: Trip)
    requires FullFeed(vj.stops, feed, true) && Handle(vj, db, feed, true).linked
    ensures var once := Handle(vj, db, feed, true).stored; var list := once.value.stops;
            var items := FeedItems(vj.stops, StopsOf(db), feed.stops, |feed.stops|);
      && items.Ok? && |items.value| == |list| <= |feed.stops| && AllTimed(list)
      && var again := AllReadAgain(vj.stops, items.value, feed.stops, list);
      && (Merge(vj, once, feed, true).Unchanged? <==>
            DroppedAgain(vj.stops, list, feed.stops)
            && SameVisits(items.value, again, feed.stops)
            && SameBases(vj.CirculationDate(), items.value, again, feed.stops))
  {
    hide Handle, Merge, Run, Rebuilt, FindStop, FeedItems, Dropped, SameVisits, SameBases;
    LinkedStops(vj, db, feed);
    var once := Handle(vj, db, feed, true).stored.value;
    var items := FeedItems(vj.stops, StopsOf(db), feed.stops, |feed.stops|).value;
    if DroppedAgain(vj.stops, once.stops, feed.stops) {
      SecondVisits(vj, db, feed);
      var again := AllReadAgain(vj.stops, items, feed.stops, once.stops);
      CompleteFeedCovers(vj.stops, Some(once.stops), feed.stops);
      forall i | 0 <= i < |again|
        ensures again[i].order == i && again[i].nav.id == once.stops[i].id
      {
        var item := items[i];
      }
      ComparesLists(vj, once, feed, again);
      SameListIffSameBases(vj.CirculationDate(), items, again, feed.stops);
    } else {
      var k :| |once.stops| <= k < |feed.stops| && !Dropped(vj.stops, Some(once.stops), feed.stops, k);
      NewVisitIsNews(vj, once, feed, k);
    }
  }

  // ---------------------------------------------------------------- the exact condition, on delays

  /** An added stop comes with a time, at its arrival or its departure. */
  predicate AddsAreTimed(stops: seq<Stop>) {
    forall s :: s in stops && (s.arr.Added() || s.dep.Added()) ==> s.arr.time.Some? || s.dep.time.Some?
  }

  /** No event that keeps its base, at a stop whose times are read from the stored trip, was stored with a delay. */
  ghost predicate NoRereadDelay(base: seq<BaseStop>, feed: seq<Stop>, list: seq<Stop>)
    requires |list| <= |feed| && AllTimed(list)
  {
    forall i, side :: 0 <= i < |list| && Reread(base, feed[i]) && KeepsBase(feed[i].At(side)) ==>
      list[i].At(side).delay.value % DAY == 0
  }

  /** The same tick, up to the time of an event that is not served. */
  predicate Alike(t: Tick, u: Tick) {
    t.served == u.served && t.delay == u.delay && (t.served ==> t.time == u.time)
  }

  lemma {:induction false} AlikeTicksSameClock(date: int, items: seq<Item>, others: seq<Item>, feed: seq<Stop>, k: nat)
    requires UpdatesCarryDelay(feed) && |items| == |others| && k <= |items|
    requires forall i, side :: 0 <= i < k ==>
      Alike(TickAt(items, None, feed, i, side), TickAt(others, None, feed, i, side))
    ensures Run(date, items, None, feed, k).clock == Run(date, others, None, feed, k).clock
  {
    if k > 0 {
      hide Run, TickAt;
      AlikeTicksSameClock(date, items, others, feed, k - 1);
      RunClockStep(date, items, None, feed, k - 1);
      RunClockStep(date, others, None, feed, k - 1);
    }
  }

  lemma AlikeTicksSameBases(date: int, items: seq<Item>, others: seq<Item>, feed: seq<Stop>)
    requires UpdatesCarryDelay(feed) && SameVisits(items, others, feed)
    requires forall i, side :: 0 <= i < |items| ==>
      Alike(TickAt(items, None, feed, i, side), TickAt(others, None, feed, i, side))
    ensures SameBases(date, items, others, feed)
  {
    hide Run, TickAt, FindStop;
    forall i, side | 0 <= i < |items|
      ensures BaseOf(date, items, feed, i, side) == BaseOf(date, others, feed, i, side)
    {
      AlikeTicksSameClock(date, items, others, feed, i);
      assert Alike(TickAt(items, None, feed, i, Arrival), TickAt(others, None, feed, i, Arrival));
      assert Alike(TickAt(items, None, feed, i, Departure), TickAt(others, None, feed, i, Departure));
    }
  }

  /** A time read again is the one behind the event exactly when the delay is a whole number of days. */
  lemma WholeDays(base: int, delay: int)
    ensures TimeOf(base + delay) == TimeOf(base) <==> delay % DAY == 0
  {
  }

  lemma TickOfEntry(items: seq<Item>, feed: seq<Stop>, i: nat, side: Side)
    requires i < |items| && FindStop(feed, items[i].nav.id, items[i].order).Some?
    ensures var e := Entry(items[i], feed).At(side);
            TickAt(items, None, feed, i, side) == Tick(!e.Deleted(), BaseTime(side, items[i].nav), e.delay.GetOr(0))
  {
    hide FindStop;
  }

  /** Stops read again give the clock the same times exactly when no delay was stored for them. */
  lemma RereadBases(vj: VehicleJourney, db: Option<Trip>, feed: Trip, items: seq<Item>, list: seq<Stop>)
    requires FullFeed(vj.stops, feed, true) && AddsAreTimed(feed.stops)
    requires |items| == |list| <= |feed.stops| && AllTimed(list) && Covering(items, feed.stops)
    requires list == Rebuilt(vj.CirculationDate(), items, feed.stops)
    requires forall i {:trigger items[i]} :: 0 <= i < |list| ==>
      && Visit(vj.stops, StopsOf(db), feed.stops[i], i) == Ok(Some(items[i]))
      && Entry(items[i], feed.stops) == feed.stops[i]
    requires SameVisits(items, AllReadAgain(vj.stops, items, feed.stops, list), feed.stops)
    ensures SameBases(vj.CirculationDate(), items, AllReadAgain(vj.stops, items, feed.stops, list), feed.stops)
      <==> NoRereadDelay(vj.stops, feed.stops, list)
  {
    hide Run, Rebuilt, TickAt, FindStop, Visit, FindInBase, BaseAt;
    var date, again := vj.CirculationDate(), AllReadAgain(vj.stops, items, feed.stops, list);
    forall i, side | 0 <= i < |list| && Reread(vj.stops, feed.stops[i]) && KeepsBase(feed.stops[i].At(side))
      ensures BaseOf(date, items, feed.stops, i, side).Some?
      ensures BaseTime(side, again[i].nav) == BaseTime(side, items[i].nav) <==> list[i].At(side).delay.value % DAY == 0
      ensures BaseOf(date, items, feed.stops, i, side) == BaseOf(date, again, feed.stops, i, side) ==>
        BaseTime(side, again[i].nav) == BaseTime(side, items[i].nav)
    {
      var item, other := items[i], again[i];
      OutsideIsTimed(vj.stops, StopsOf(db), feed.stops[i], i, item);
      KeptBaseKnown(date, items, feed.stops, i, side);
      KeptBaseKnown(date, again, feed.stops, i, side);
      RebuiltConserves(date, items, feed.stops, i, side);
      WholeDays(BaseOf(date, items, feed.stops, i, side).value, list[i].At(side).delay.value);
    }
    if SameBases(date, items, again, feed.stops) {
      forall i, side | 0 <= i < |list| && Reread(vj.stops, feed.stops[i]) && KeepsBase(feed.stops[i].At(side))
        ensures list[i].At(side).delay.value % DAY == 0
      {
        assert BaseOf(date, items, feed.stops, i, side) == BaseOf(date, again, feed.stops, i, side);
      }
    }
    if NoRereadDelay(vj.stops, feed.stops, list) {
      forall i, side | 0 <= i < |items|
        ensures Alike(TickAt(items, None, feed.stops, i, side), TickAt(again, None, feed.stops, i, side))
      {
        var item, other := items[i], again[i];
        TickOfEntry(items, feed.stops, i, side);
        TickOfEntry(again, feed.stops, i, side);
        assert feed.stops[i] in feed.stops;
        assert Reread(vj.stops, feed.stops[i]) ==> !feed.stops[i].At(side).Added();
      }
      AlikeTicksSameBases(date, items, again, feed.stops);
    }
  }

  /**
   * Fixpoint on complete feeds, stops outside the base schedule included: the same feed again is no news exactly when
   * the stops it dropped are dropped again and no stop whose times are read from the stored trip was delayed.
   */
  lemma ResentFeedExactly(vj: VehicleJourney, db: Option<Trip>, feed: Trip)
    requires FullFeed(vj.stops, feed, true) && AddsAreTimed(feed.stops)
    requires Handle(vj, db, feed, true).linked
    ensures var once := Handle(vj, db, feed, true).stored; var list := once.value.stops;
      && |list| <= |feed.stops| && AllTimed(list)
      && (Merge(vj, once, feed, true).Unchanged? <==>
            DroppedAgain(vj.stops, list, feed.stops) && NoRereadDelay(vj.stops, feed.stops, list))
  {
    hide Handle, Merge, Run, Rebuilt, FindStop, Visit, FeedItems, FindInBase, Dropped, SameBases, SameVisits,
         NoRereadDelay, DroppedAgain;
    ResentFeed(vj, db, feed);
    LinkedStops(vj, db, feed);
    var items := FeedItems(vj.stops, StopsOf(db), feed.stops, |feed.stops|).value;
    var list := Handle(vj, db, feed, true).stored.value.stops;
    if DroppedAgain(vj.stops, list, feed.stops) {
      SecondVisits(vj, db, feed);
      RereadBases(vj, db, feed, items, list);
    }
  }
}
