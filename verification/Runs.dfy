/** Invariants over whole runs of feeds for one trip. */
module Runs {
  import opened Basics
  import opened StopTimes
  import opened MergeRules
  import opened RepairRules
  import opened RepairLaws
  import opened Handling
  import FeedLaws
  import MergeLaws

  /** The stored trip after the first k feeds of a run that starts with nothing stored. */
  function StoredAfter(vj: VehicleJourney, feeds: seq<Trip>, complete: bool, k: nat): Option<Trip>
    requires k <= |feeds| && FeedsCarryDelays(feeds)
  {
    if k == 0 then None
    else Handle(vj, StoredAfter(vj, feeds, complete, k - 1), feeds[k - 1], complete).stored
  }

  ghost predicate FeedsCarryDelays(feeds: seq<Trip>) {
    forall f :: f in feeds ==> UpdatesCarryDelay(f.stops)
  }

  // ---------------------------------------------------------------- incremental feeds

  /** Exactly the stops of the base schedule, in order and without gap. */
  predicate FollowsBase(base: seq<BaseStop>, stops: seq<Stop>) {
    |stops| == |base| && OrdersAreIndexes(stops) && forall i :: 0 <= i < |base| ==> stops[i].id == base[i].id
  }

  /** Cancelled and empty, or the base schedule's stops. */
  predicate WellShaped(base: seq<BaseStop>, trip: Trip) {
    if trip.status == Delete then trip.stops == [] else FollowsBase(base, trip.stops)
  }

  lemma BaseStopFound(base: seq<BaseStop>, db: Trip, i: nat)
    requires WellShaped(base, db) && i < |base|
    ensures db.status != Delete ==> |db.stops| == |base| && db.stops[i].id == base[i].id && db.stops[i].order == Some(i)
    ensures FindStop(db.stops, base[i].id, i) == if db.status == Delete then None else Some(db.stops[i])
  {
  }

  lemma StepShape(s: Loop, item: Item, db: Option<seq<Stop>>, feed: seq<Stop>)
    requires UpdatesCarryDelay(feed)
    ensures var stored := if db.Some? then FindStop(db.value, item.nav.id, item.order) else None;
            var r := Step(s, item, db, feed); var x := r.out[|s.out|];
            && (stored == Some(x) || (x.id == item.nav.id && x.order == Some(item.order)))
            && (stored.None? ==> r.changed)
            && (s.changed ==> r.changed)
            && (FindStop(feed, item.nav.id, item.order).None? && stored.Some? ==> x == stored.value)
  {
  }

  /** The list built so far follows the base schedule and repeats what is stored where the feed is silent. */
  ghost predicate FollowsSoFar(base: seq<BaseStop>, db: Option<Trip>, feed: seq<Stop>, r: Loop)
    requires |r.out| <= |base|
  {
    && (forall i :: 0 <= i < |r.out| ==> r.out[i].id == base[i].id && r.out[i].order == Some(i))
    && (db.Some? && db.value.status != Delete ==>
          |db.value.stops| == |base|
          && forall i :: 0 <= i < |r.out| && FindStop(feed, base[i].id, i).None? ==> r.out[i] == db.value.stops[i])
    && (|r.out| > 0 && (db.None? || db.value.status == Delete) ==> r.changed)
  }

  lemma StepFollows(base: seq<BaseStop>, db: Option<Trip>, feed: seq<Stop>, r: Loop)
    requires UpdatesCarryDelay(feed) && |r.out| < |base| && FollowsSoFar(base, db, feed, r)
    requires db.Some? ==> WellShaped(base, db.value)
    ensures FollowsSoFar(base, db, feed, Step(r, Item(|r.out|, base[|r.out|]), StopsOf(db), feed))
  {
    hide Step, FindStop;
    var k := |r.out|;
    var next := Step(r, Item(k, base[k]), StopsOf(db), feed);
    StepShape(r, Item(k, base[k]), StopsOf(db), feed);
    if db.Some? {
      BaseStopFound(base, db.value, k);
    }
    assert next.out[k].id == base[k].id && next.out[k].order == Some(k);
    assert forall i :: 0 <= i < k ==> next.out[i] == r.out[i];
  }

  lemma {:induction false} IncrementalRunShape(vj: VehicleJourney, db: Option<Trip>, feed: seq<Stop>, k: nat)
    requires UpdatesCarryDelay(feed) && k <= |vj.stops|
    requires db.Some? ==> WellShaped(vj.stops, db.value)
    ensures FollowsSoFar(vj.stops, db, feed, Run(vj.CirculationDate(), BaseItems(vj.stops), StopsOf(db), feed, k))
  {
    hide Step, FindStop;
    if k > 0 {
      IncrementalRunShape(vj, db, feed, k - 1);
      StepFollows(vj.stops, db, feed, Run(vj.CirculationDate(), BaseItems(vj.stops), StopsOf(db), feed, k - 1));
    }
  }

  /** One incremental feed, accepted or not, keeps the shape of the stored trip. */
  lemma IncrementalStep(vj: VehicleJourney, db: Option<Trip>, feed: Trip)
    requires UpdatesCarryDelay(feed.stops)
    requires db.Some? ==> WellShaped(vj.stops, db.value)
    ensures var r := Handle(vj, db, feed, false);
            !r.raised && (r.stored.Some? ==>
                          WellShaped(vj.stops, r.stored.value) && r.stored.value.status == feed.status)
  {
    hide Step, Inspect, FindStop;
    var items := BaseItems(vj.stops);
    IncrementalRunShape(vj, db, feed.stops, |vj.stops|);
    if feed.status == Delete {
      assert Repaired([]).stops == [];
    } else {
      RepairKeepsIdentity(Run(vj.CirculationDate(), items, StopsOf(db), feed.stops, |items|).out, |items|);
    }
  }

  /**
   * Incremental runs: whatever ids and orders the feeds carry, the stored trip is cancelled and empty or follows the
   * base.
   */
  lemma {:induction false} IncrementalRunInvariant(vj: VehicleJourney, feeds: seq<Trip>, k: nat)
    requires k <= |feeds| && FeedsCarryDelays(feeds)
    ensures StoredAfter(vj, feeds, false, k).Some? ==> WellShaped(vj.stops, StoredAfter(vj, feeds, false, k).value)
  {
    hide Handle, WellShaped;
    if k > 0 {
      IncrementalRunInvariant(vj, feeds, k - 1);
      assert feeds[k - 1] in feeds;
      IncrementalStep(vj, StoredAfter(vj, feeds, false, k - 1), feeds[k - 1]);
    }
  }

  /** Through an incremental merge, a stop the feed does not mention keeps its stored entry. */
  lemma AbsentStopsKept(vj: VehicleJourney, db: Trip, feed: Trip, i: nat)
    requires UpdatesCarryDelay(feed.stops) && feed.status != Delete
    requires WellShaped(vj.stops, db) && db.status != Delete && i < |vj.stops|
    requires forall s :: s in feed.stops ==> s.id != vj.stops[i].id
    ensures var m := Merge(vj, Some(db), feed, false);
            |m.trip.stops| == |vj.stops| && m.trip.stops[i] == db.stops[i]
  {
    hide Step;
    FindStopFindsId(feed.stops, vj.stops[i].id, i);
    IncrementalRunShape(vj, Some(db), feed.stops, |vj.stops|);
  }

  ghost predicate AllAligned(vj: VehicleJourney, feeds: seq<Trip>) {
    forall f :: f in feeds ==> FeedLaws.CoveringFeed(vj.stops, f, false)
  }

  lemma AlignedFeed(vj: VehicleJourney, feeds: seq<Trip>, k: nat)
    requires k < |feeds| && AllAligned(vj, feeds)
    ensures FeedLaws.CoveringFeed(vj.stops, feeds[k], false) && UpdatesCarryDelay(feeds[k].stops)
    ensures |FeedLaws.FeedList(vj, feeds[k], false)| == |vj.stops|
    ensures OrdersAreIndexes(FeedLaws.FeedList(vj, feeds[k], false))
  {
    hide FeedLaws.FeedList;
    assert feeds[k] in feeds;
    FeedLaws.FeedListShape(vj, feeds[k], false);
  }

  /**
   * An incremental merge of a stored trip that runs reports a change exactly when the list it computes is another one.
   */
  lemma IncrementalNewsExactly(vj: VehicleJourney, db: Trip, feed: Trip)
    requires UpdatesCarryDelay(feed.stops) && feed.status != Delete
    requires WellShaped(vj.stops, db) && db.status != Delete
    ensures var out := Run(vj.CirculationDate(), BaseItems(vj.stops), Some(db.stops), feed.stops, |vj.stops|).out;
            var m := Merge(vj, Some(db), feed, false);
      && m.trip.stops == out
      && (m.Merged? <==> out != db.stops) && (m.Unchanged? <==> out == db.stops)
  {
    hide Step, FindStop, FollowsBase;
    var items := BaseItems(vj.stops);
    ChangedMeansOther(vj, db, feed.stops, |vj.stops|);
    assert db.stops[..|db.stops|] == db.stops;
  }

  lemma KeepsStoredUnlessChanged(s: Loop, item: Item, db: seq<Stop>, feed: seq<Stop>)
    requires UpdatesCarryDelay(feed) && FindStop(db, item.nav.id, item.order).Some?
    ensures var stored, r := FindStop(db, item.nav.id, item.order).value, Step(s, item, Some(db), feed);
            r.changed <==> s.changed || r.out[|s.out|] != stored
  {
    hide FindStop;
  }

  lemma {:induction false} ChangedMeansOther(vj: VehicleJourney, db: Trip, feed: seq<Stop>, k: nat)
    requires UpdatesCarryDelay(feed) && WellShaped(vj.stops, db) && db.status != Delete && k <= |vj.stops|
    ensures |db.stops| == |vj.stops|
    ensures var r := Run(vj.CirculationDate(), BaseItems(vj.stops), Some(db.stops), feed, k);
            r.changed <==> r.out != db.stops[..k]
  {
    hide Step, FindStop;
    if k > 0 {
      ChangedMeansOther(vj, db, feed, k - 1);
      BaseStopFound(vj.stops, db, k - 1);
      var before := Run(vj.CirculationDate(), BaseItems(vj.stops), Some(db.stops), feed, k - 1);
      KeepsStoredUnlessChanged(before, Item(k - 1, vj.stops[k - 1]), db.stops, feed);
      var r := Run(vj.CirculationDate(), BaseItems(vj.stops), Some(db.stops), feed, k);
      assert r.out == before.out + [r.out[k - 1]];
      assert db.stops[..k] == db.stops[..k - 1] + [db.stops[k - 1]];
    }
  }

  /** Whatever feeds say or not, the loop remembers the departure of the stop it has just kept. */
  lemma {:induction false} LastIsKeptDeparture(date: int, items: seq<Item>, db: Option<seq<Stop>>, feed: seq<Stop>,
                                               k: nat)
    requires UpdatesCarryDelay(feed) && k <= |items|
    ensures Run(date, items, db, feed, k).last == DepartureBefore(Run(date, items, db, feed, k).out, k)
  {
  }

  lemma EntryFollows(s: Loop, item: Item, db: Option<seq<Stop>>, feed: seq<Stop>)
    requires UpdatesCarryDelay(feed) && FindStop(feed, item.nav.id, item.order).Some?
    ensures InChain(s.last, Step(s, item, db, feed).out[|s.out|])
  {
    hide FindStop;
  }

  /** In any merge, partial feeds included, a stop that the feed mentions never comes before the stop kept before it. */
  lemma MentionedStopsFollow(date: int, items: seq<Item>, db: Option<seq<Stop>>, feed: seq<Stop>, i: nat)
    requires UpdatesCarryDelay(feed) && i < |items|
    requires FindStop(feed, items[i].nav.id, items[i].order).Some?
    ensures var out := Run(date, items, db, feed, |items|).out; InChain(DepartureBefore(out, i), out[i])
  {
    hide Step, FindStop, InChain;
    MergeLaws.RunPrefix(date, items, db, feed, i, |items|);
    if i > 0 {
      MergeLaws.RunPrefix(date, items, db, feed, i - 1, |items|);
      MergeLaws.RunPrefix(date, items, db, feed, i - 1, i);
    }
    LastIsKeptDeparture(date, items, db, feed, i);
    EntryFollows(Run(date, items, db, feed, i), items[i], db, feed);
  }

  /**
   * A stop that neither the feed nor the stored trip mentions is kept at its rebuilt base datetimes, with nothing
   * else.
   */
  lemma UnmentionedStopIsBase(date: int, items: seq<Item>, db: Option<seq<Stop>>, feed: seq<Stop>, i: nat)
    requires UpdatesCarryDelay(feed) && i < |items|
    requires FindStop(feed, items[i].nav.id, items[i].order).None?
    requires db.Some? ==> FindStop(db.value, items[i].nav.id, items[i].order).None?
    ensures var s := Run(date, items, db, feed, |items|).out[i];
      && s.id == items[i].nav.id && s.order == Some(items[i].order) && s.message == None
      && forall side :: s.At(side).time == MergeLaws.BaseAt(date, items, db, feed, i, side)
                        && s.At(side).delay == None && s.At(side).status == NoChange
  {
    hide FindStop, Served, PastMidnight, Advance, Dated;
    MergeLaws.RunPrefix(date, items, db, feed, i, |items|);
  }

  /**
   * Runs of feeds with one entry per base stop, such as aligned GTFS-RT feeds: the stored list, if any, is the one that
   * the last feed stands for.
   */
  lemma {:induction false} AlignedRunKeepsLastFeed(vj: VehicleJourney, feeds: seq<Trip>, k: nat)
    requires 0 < k <= |feeds| && FeedsCarryDelays(feeds) && AllAligned(vj, feeds)
    ensures FeedLaws.CoveringFeed(vj.stops, feeds[k - 1], false)
    ensures StoredAfter(vj, feeds, false, k).Some? ==>
      StoredAfter(vj, feeds, false, k).value.stops == FeedLaws.FeedList(vj, feeds[k - 1], false)
  {
    hide Handle, FeedLaws.FeedList, FeedLaws.CoveringFeed, AllAligned, FeedsCarryDelays;
    AlignedFeed(vj, feeds, k - 1);
    if k > 1 {
      AlignedRunKeepsLastFeed(vj, feeds, k - 1);
      AlignedFeed(vj, feeds, k - 2);
    }
    AlignedStep(vj, StoredAfter(vj, feeds, false, k - 1), feeds[k - 1]);
  }

  lemma AlignedStep(vj: VehicleJourney, db: Option<Trip>, feed: Trip)
    requires FeedLaws.CoveringFeed(vj.stops, feed, false)
    requires db.Some? ==> |db.value.stops| == |vj.stops| && OrdersAreIndexes(db.value.stops)
    ensures var h := Handle(vj, db, feed, false);
            h.stored.Some? ==> h.stored.value.stops == FeedLaws.FeedList(vj, feed, false)
  {
    hide Handle, FeedLaws.FeedList, Merge, Repaired;
    if db.Some? {
      FeedLaws.StoredListAfterFeed(vj, db.value, feed, false);
    } else {
      FeedLaws.HandledFirst(vj, feed, false);
      FeedLaws.FirstMerge(vj, feed, false);
      FeedLaws.CoveringFeedNeedsNoRepair(vj, feed, false);
    }
  }

  // ---------------------------------------------------------------- complete feeds

  /** Some of the first k feeds marked the arrival or the departure of a stop with this id as added. */
  ghost predicate MarkedAdded(feeds: seq<Trip>, k: nat, id: StopId)
    requires k <= |feeds|
  {
    exists j, i :: 0 <= j < k && 0 <= i < |feeds[j].stops| && feeds[j].stops[i].id == id
      && (feeds[j].stops[i].arr.Added() || feeds[j].stops[i].dep.Added())
  }

  ghost predicate OnlyAddedOutsideBase(base: seq<BaseStop>, feeds: seq<Trip>, k: nat, stops: seq<Stop>)
    requires k <= |feeds|
  {
    forall i :: 0 <= i < |stops| ==> FindInBase(stops[i].id, base).Some? || MarkedAdded(feeds, k, stops[i].id)
  }

  /** A visited stop is in the base schedule, already stored, or marked as added by the feed. */
  lemma VisitedStop(base: seq<BaseStop>, db: Option<seq<Stop>>, entry: Stop, k: nat)
    requires Visit(base, db, entry, k).Ok? && Visit(base, db, entry, k).value.Some?
    ensures FindInBase(entry.id, base).Some? || entry.arr.Added() || entry.dep.Added()
      || (db.Some? && exists i :: 0 <= i < |db.value| && db.value[i].id == entry.id)
  {
  }

  /**
   * When a stop outside the base schedule is dropped: nothing stored and nothing added, or both events contradict the
   * stored ones.
   */
  lemma DroppedExactly(base: seq<BaseStop>, db: Option<seq<Stop>>, entry: Stop, k: nat)
    requires FindInBase(entry.id, base).None?
    ensures var stored := if db.Some? then FindStop(db.value, entry.id, k) else None;
      Visit(base, db, entry, k) == Ok(None) <==>
        if stored.None? then !entry.arr.Added() && !entry.dep.Added()
        else forall side ::
          entry.At(side).status != stored.value.At(side).status
          && (entry.At(side).Added() <==> !stored.value.At(side).Deleted())
  {
    hide FindStop, FindInBase;
    assert entry.At(Arrival) == entry.arr && entry.At(Departure) == entry.dep;
  }

  lemma {:induction false} FeedItemsOrigin(base: seq<BaseStop>, db: Option<seq<Stop>>, feed: seq<Stop>, k: nat, j: nat)
    requires k <= |feed| && FeedItems(base, db, feed, k).Ok? && j < |FeedItems(base, db, feed, k).value|
    ensures var item := FeedItems(base, db, feed, k).value[j];
            Visit(base, db, feed[item.order], item.order) == Ok(Some(item))
  {
    hide Visit;
    if j < |FeedItems(base, db, feed, k - 1).value| {
      FeedItemsOrigin(base, db, feed, k - 1, j);
    }
  }

  lemma {:induction false} RunIds(date: int, items: seq<Item>, db: Option<seq<Stop>>, feed: seq<Stop>, k: nat)
    requires UpdatesCarryDelay(feed) && k <= |items|
    ensures forall i :: 0 <= i < k ==> Run(date, items, db, feed, k).out[i].id == items[i].nav.id
  {
    hide Step;
    if k > 0 {
      RunIds(date, items, db, feed, k - 1);
      StepShape(Run(date, items, db, feed, k - 1), items[k - 1], db, feed);
    }
  }

  /** The stops of a complete merge are in the base schedule, already stored, or added by this very feed. */
  lemma CompleteMergeStop(vj: VehicleJourney, db: Option<Trip>, feed: Trip, i: nat)
    requires UpdatesCarryDelay(feed.stops) && feed.status != Delete
    requires Merge(vj, db, feed, true).Merged? && i < |Merge(vj, db, feed, true).trip.stops|
    ensures var id := Merge(vj, db, feed, true).trip.stops[i].id;
            || FindInBase(id, vj.stops).Some?
            || (exists j :: 0 <= j < |feed.stops| && feed.stops[j].id == id &&
                  (feed.stops[j].arr.Added() || feed.stops[j].dep.Added()))
            || (db.Some? && exists j :: 0 <= j < |db.value.stops| && db.value.stops[j].id == id)
  {
    hide Step, Visit, FindInBase;
    var items := FeedItems(vj.stops, StopsOf(db), feed.stops, |feed.stops|).value;
    RunIds(vj.CirculationDate(), items, StopsOf(db), feed.stops, |items|);
    FeedItemsOrigin(vj.stops, StopsOf(db), feed.stops, |feed.stops|, i);
    VisitedStop(vj.stops, StopsOf(db), feed.stops[items[i].order], items[i].order);
  }

  lemma HandledIds(vj: VehicleJourney, db: Option<Trip>, feed: Trip, complete: bool, i: nat)
    requires UpdatesCarryDelay(feed.stops)
    requires Handle(vj, db, feed, complete).stored.Some? && i < |Handle(vj, db, feed, complete).stored.value.stops|
    ensures var m := Merge(vj, db, feed, complete); var id := Handle(vj, db, feed, complete).stored.value.stops[i].id;
            || (m.Merged? && i < |m.trip.stops| && m.trip.stops[i].id == id)
            || (!m.Merged? && db.Some? && i < |db.value.stops| && db.value.stops[i].id == id)
  {
    hide Inspect, Run, Items;
    var m := Merge(vj, db, feed, complete);
    if m.Merged? {
      RepairKeepsIdentity(m.trip.stops, |m.trip.stops|);
    }
  }

  /** Safety over complete runs: only stops that some feed marked as added are ever stored outside the base schedule. */
  lemma {:induction false} OnlyAddedStopsEnter(vj: VehicleJourney, feeds: seq<Trip>, k: nat)
    requires k <= |feeds| && FeedsCarryDelays(feeds)
    ensures StoredAfter(vj, feeds, true, k).Some? ==>
      OnlyAddedOutsideBase(vj.stops, feeds, k, StoredAfter(vj, feeds, true, k).value.stops)
  {
    hide Merge, Handle, FindInBase;
    if k > 0 && StoredAfter(vj, feeds, true, k).Some? {
      OnlyAddedStopsEnter(vj, feeds, k - 1);
      var db, feed := StoredAfter(vj, feeds, true, k - 1), feeds[k - 1];
      var stops := StoredAfter(vj, feeds, true, k).value.stops;
      forall i | 0 <= i < |stops|
        ensures FindInBase(stops[i].id, vj.stops).Some? || MarkedAdded(feeds, k, stops[i].id)
      {
        HandledIds(vj, db, feed, true, i);
        if Merge(vj, db, feed, true).Merged? {
          CancelledHasNoStop(vj, db, feed);
          CompleteMergeStop(vj, db, feed, i);
        }
        assert MarkedAdded(feeds, k - 1, stops[i].id) ==> MarkedAdded(feeds, k, stops[i].id);
      }
    }
  }

  lemma CancelledHasNoStop(vj: VehicleJourney, db: Option<Trip>, feed: Trip)
    requires UpdatesCarryDelay(feed.stops)
    ensures feed.status == Delete ==> Merge(vj, db, feed, true).trip.stops == []
  {
  }
}
