/** Whole merges: history independence, fixpoint, gap rejection, conservation through the repair. */
module FeedLaws {
  import opened Basics
  import opened StopTimes
  import opened MergeRules
  import opened RepairRules
  import opened RepairLaws
  import opened MergeLaws
  import opened Handling

  /**
   * A non-cancelled feed that says something about every stop the merge visits: a complete one, or one entry per base
   * stop.
   */
  ghost predicate FullFeed(base: seq<BaseStop>, feed: Trip, complete: bool) {
    && feed.status != Delete
    && UpdatesCarryDelay(feed.stops) && OrdersAreIndexes(feed.stops)
    && (!complete ==> |feed.stops| == |base| && forall i :: 0 <= i < |base| ==> feed.stops[i].id == base[i].id)
  }

  /** A full feed over stops of the base schedule only. */
  ghost predicate CoveringFeed(base: seq<BaseStop>, feed: Trip, complete: bool) {
    && FullFeed(base, feed, complete)
    && (complete ==> forall i :: 0 <= i < |feed.stops| ==> FindInBase(feed.stops[i].id, base).Some?)
  }

  function CoveredItems(base: seq<BaseStop>, feed: Trip, complete: bool): (r: seq<Item>)
    requires CoveringFeed(base, feed, complete)
    ensures |r| == |feed.stops|
    ensures forall i :: 0 <= i < |r| ==> r[i].order == i && r[i].nav.id == feed.stops[i].id
  {
    if complete then
      seq(|feed.stops|, i requires 0 <= i < |feed.stops| => Item(i, FindInBase(feed.stops[i].id, base).value))
    else BaseItems(base)
  }

  lemma VisitInBase(base: seq<BaseStop>, db: Option<seq<Stop>>, entry: Stop, k: nat)
    requires FindInBase(entry.id, base).Some?
    ensures Visit(base, db, entry, k) == Ok(Some(Item(k, FindInBase(entry.id, base).value)))
  {
  }

  lemma VisitedNext(base: seq<BaseStop>, db: Option<seq<Stop>>, feed: seq<Stop>, k: nat, item: Item)
    requires 0 < k <= |feed| && FeedItems(base, db, feed, k - 1).Ok?
    requires Visit(base, db, feed[k - 1], k - 1) == Ok(Some(item))
    ensures FeedItems(base, db, feed, k) == Ok(FeedItems(base, db, feed, k - 1).value + [item])
  {
    hide Visit;
  }

  lemma {:induction false} FeedItemsInBase(base: seq<BaseStop>, db: Option<seq<Stop>>, feed: Trip, k: nat)
    requires CoveringFeed(base, feed, true) && k <= |feed.stops|
    ensures FeedItems(base, db, feed.stops, k) == Ok(CoveredItems(base, feed, true)[..k])
  {
    hide Visit, FindInBase;
    if k > 0 {
      hide FeedItems;
      FeedItemsInBase(base, db, feed, k - 1);
      var all := CoveredItems(base, feed, true);
      VisitInBase(base, db, feed.stops[k - 1], k - 1);
      VisitedNext(base, db, feed.stops, k, all[k - 1]);
      assert all[..k] == all[..k - 1] + [all[k - 1]];
    }
  }

  lemma CoveredVisits(base: seq<BaseStop>, db: Option<seq<Stop>>, feed: Trip, complete: bool)
    requires CoveringFeed(base, feed, complete)
    ensures Items(base, db, feed.stops, complete) == Ok(CoveredItems(base, feed, complete))
    ensures Covering(CoveredItems(base, feed, complete), feed.stops)
    ensures forall i {:trigger feed.stops[i]} :: 0 <= i < |feed.stops| ==>
      FindStop(feed.stops, feed.stops[i].id, i) == Some(feed.stops[i])
  {
    var items := CoveredItems(base, feed, complete);
    forall i | 0 <= i < |items|
      ensures FindStop(feed.stops, feed.stops[i].id, i) == Some(feed.stops[i])
    {
      FindStopAtItsOrder(feed.stops, i);
    }
    if complete {
      FeedItemsInBase(base, db, feed, |feed.stops|);
      assert items[..|items|] == items;
    }
  }

  /** The list a covering feed stands for: a function of the base schedule and the feed. */
  function FeedList(vj: VehicleJourney, feed: Trip, complete: bool): (r: seq<Stop>)
    requires CoveringFeed(vj.stops, feed, complete)
    ensures |r| == |feed.stops|
  {
    Rebuilt(vj.CirculationDate(), CoveredItems(vj.stops, feed, complete), feed.stops)
  }

  lemma FeedListShape(vj: VehicleJourney, feed: Trip, complete: bool)
    requires CoveringFeed(vj.stops, feed, complete)
    ensures var list := FeedList(vj, feed, complete);
            && Chain(list) && OrdersAreIndexes(list)
            && forall i :: 0 <= i < |list| ==> list[i].id == feed.stops[i].id
  {
    CoveredVisits(vj.stops, None, feed, complete);
    var items := CoveredItems(vj.stops, feed, complete);
    RebuiltIsChain(vj.CirculationDate(), items, feed.stops);
    forall i | 0 <= i < |items|
      ensures FeedList(vj, feed, complete)[i].order == Some(i)
      ensures FeedList(vj, feed, complete)[i].id == feed.stops[i].id
    {
      var item := items[i];
    }
  }

  /** Every stop of the list is found as it is in the stored one, by id and position. */
  ghost predicate AllFound(list: seq<Stop>, stored: seq<Stop>) {
    forall i {:trigger list[i]} :: 0 <= i < |list| ==> FindStop(stored, list[i].id, i) == Some(list[i])
  }

  lemma DiffersUnlessAllFound(items: seq<Item>, list: seq<Stop>, stored: seq<Stop>)
    requires |list| == |items|
    requires forall i :: 0 <= i < |items| ==> items[i].order == i && items[i].nav.id == list[i].id
    ensures Differs(items, stored, list, |items|) <==> !AllFound(list, stored)
  {
  }

  lemma MergeFromRun(vj: VehicleJourney, db: Trip, feed: Trip, complete: bool, items: seq<Item>)
    requires feed.status != Delete && UpdatesCarryDelay(feed.stops)
    requires Items(vj.stops, Some(db.stops), feed.stops, complete) == Ok(items)
    ensures var end := Run(vj.CirculationDate(), items, Some(db.stops), feed.stops, |items|);
            var header := WithHeader(Some(db), feed, complete);
            Merge(vj, Some(db), feed, complete)
            == if end.changed then Merged(header.(stops := end.out)) else Unchanged(header)
  {
  }

  /** History independence: the stored list is replaced by the feed's own list, or already contains all of it. */
  lemma HistoryIndependence(vj: VehicleJourney, db: Trip, feed: Trip, complete: bool)
    requires CoveringFeed(vj.stops, feed, complete)
    ensures var list := FeedList(vj, feed, complete); var header := WithHeader(Some(db), feed, complete);
            Merge(vj, Some(db), feed, complete)
            == if AllFound(list, db.stops) then Unchanged(header) else Merged(header.(stops := list))
  {
    hide Run, FindStop, FindInBase;
    CoveredVisits(vj.stops, Some(db.stops), feed, complete);
    var items := CoveredItems(vj.stops, feed, complete);
    MergeFromRun(vj, db, feed, complete, items);
    CoveringRunIgnoresStored(vj.CirculationDate(), items, db.stops, feed.stops, |items|);
    FeedListShape(vj, feed, complete);
    DiffersUnlessAllFound(items, FeedList(vj, feed, complete), db.stops);
  }

  /** Without a stored trip, the feed's own list is what it becomes. */
  lemma FirstMerge(vj: VehicleJourney, feed: Trip, complete: bool)
    requires CoveringFeed(vj.stops, feed, complete)
    ensures Merge(vj, None, feed, complete)
            == if feed.stops == [] then Unchanged(feed)
               else Merged(feed.(stops := FeedList(vj, feed, complete)))
  {
    CoveredVisits(vj.stops, None, feed, complete);
    var items := CoveredItems(vj.stops, feed, complete);
    CoveringRunFromNothing(vj.CirculationDate(), items, feed.stops, |items|);
  }

  /** When the stored list has no gap, "contains all of it" means "starts with it". */
  lemma AllFoundIsPrefix(list: seq<Stop>, stored: seq<Stop>)
    requires OrdersAreIndexes(list) && OrdersAreIndexes(stored)
    ensures AllFound(list, stored) <==> list <= stored
  {
    if AllFound(list, stored) {
      forall i | 0 <= i < |list|
        ensures i < |stored| && stored[i] == list[i]
      {
        var s := list[i];
        assert s in stored;
      }
      assert |list| > 0 ==> |list| - 1 < |stored| by {
        if |list| > 0 {
          var s := list[|list| - 1];
        }
      }
    }
    if list <= stored {
      forall i | 0 <= i < |list|
        ensures FindStop(stored, list[i].id, i) == Some(list[i])
      {
        assert list[i] == stored[i];
        FindStopAtItsOrder(stored, i);
      }
    }
  }

  /** A covering feed leaves exactly its own list stored, except when it merely shortens the stored one. */
  lemma StoredListAfterFeed(vj: VehicleJourney, db: Trip, feed: Trip, complete: bool)
    requires CoveringFeed(vj.stops, feed, complete) && OrdersAreIndexes(db.stops)
    ensures var list := FeedList(vj, feed, complete);
            Handle(vj, Some(db), feed, complete).stored.value.stops == list <==> !(list < db.stops)
  {
    HistoryIndependence(vj, db, feed, complete);
    FeedListShape(vj, feed, complete);
    AllFoundIsPrefix(FeedList(vj, feed, complete), db.stops);
    ChainRepair(FeedList(vj, feed, complete));
  }

  /** The repair modifies nothing of a covering feed's list; it only asks for a time at the first stop. */
  lemma CoveringFeedNeedsNoRepair(vj: VehicleJourney, feed: Trip, complete: bool)
    requires CoveringFeed(vj.stops, feed, complete)
    ensures var list := FeedList(vj, feed, complete);
            Repaired(list).stops == list && (Repaired(list).ok <==> list == [] || list[0].arr.time.Some?)
  {
    FeedListShape(vj, feed, complete);
    ChainRepair(FeedList(vj, feed, complete));
  }

  lemma HandledFromMerge(vj: VehicleJourney, db: Trip, feed: Trip, complete: bool)
    requires UpdatesCarryDelay(feed.stops)
    ensures var m, h := Merge(vj, Some(db), feed, complete), Handle(vj, Some(db), feed, complete);
            && h.stored.Some?
            && (m.Unchanged? ==> h == Handled(Some(m.trip), false, false))
            && (m.Merged? ==> h.stored.value == m.trip.(stops := Repaired(m.trip.stops).stops)
                              && h.linked == Repaired(m.trip.stops).ok && !h.raised)
  {
  }

  /** After a covering feed the stored trip carries the feed's header and contains the feed's whole list. */
  lemma StoredAfterFeed(vj: VehicleJourney, db: Option<Trip>, feed: Trip, complete: bool)
    requires CoveringFeed(vj.stops, feed, complete)
    requires Handle(vj, db, feed, complete).stored.Some?
    ensures var once := Handle(vj, db, feed, complete).stored.value;
            && WithHeader(Some(once), feed, complete) == once
            && AllFound(FeedList(vj, feed, complete), once.stops)
  {
    hide Merge, Handle, FeedList, AllFound, Repaired, Chain;
    var list := FeedList(vj, feed, complete);
    CoveringFeedNeedsNoRepair(vj, feed, complete);
    FeedListShape(vj, feed, complete);
    AllFoundIsPrefix(list, list);
    if db.Some? {
      HistoryIndependence(vj, db.value, feed, complete);
      HandledFromMerge(vj, db.value, feed, complete);
    } else {
      FirstMerge(vj, feed, complete);
      HandledFirst(vj, feed, complete);
    }
  }

  lemma HandledFirst(vj: VehicleJourney, feed: Trip, complete: bool)
    requires UpdatesCarryDelay(feed.stops)
    ensures var m, h := Merge(vj, None, feed, complete), Handle(vj, None, feed, complete);
            h.stored.Some? ==> m.Merged? && h.stored.value == m.trip.(stops := Repaired(m.trip.stops).stops)
  {
    hide Merge;
  }

  /** Fixpoint: handling the same covering feed again reports no change, so it is never linked twice. */
  lemma SameFeedTwice(vj: VehicleJourney, db: Option<Trip>, feed: Trip, complete: bool)
    requires CoveringFeed(vj.stops, feed, complete)
    requires Handle(vj, db, feed, complete).stored.Some?
    ensures var once := Handle(vj, db, feed, complete).stored;
            && Merge(vj, once, feed, complete) == Unchanged(once.value)
            && Handle(vj, once, feed, complete) == Handled(once, false, false)
  {
    var once := Handle(vj, db, feed, complete).stored.value;
    StoredAfterFeed(vj, db, feed, complete);
    HistoryIndependence(vj, once, feed, complete);
    HandledFromMerge(vj, once, feed, complete);
  }

  /**
   * What a covering feed gets linked with is its own list, unmodified by the repair, with every time and delay known.
   */
  lemma LinkedIsFeedList(vj: VehicleJourney, db: Option<Trip>, feed: Trip, complete: bool)
    requires CoveringFeed(vj.stops, feed, complete)
    requires Handle(vj, db, feed, complete).linked
    ensures var stored := Handle(vj, db, feed, complete).stored.value.stops;
            stored == FeedList(vj, feed, complete) && AllTimed(stored) && OrdersAreIndexes(stored)
  {
    CoveringFeedNeedsNoRepair(vj, feed, complete);
    RepairKeepsIdentity(FeedList(vj, feed, complete), |feed.stops|);
    if db.Some? {
      HistoryIndependence(vj, db.value, feed, complete);
    } else {
      FirstMerge(vj, feed, complete);
    }
  }

  lemma EmptyListIsFound(list: seq<Stop>, stored: seq<Stop>)
    requires list == []
    ensures AllFound(list, stored)
  {
  }

  /** Handling a covering feed never raises, and links it exactly when its list has news and a time to start from. */
  lemma LinkedExactly(vj: VehicleJourney, db: Option<Trip>, feed: Trip, complete: bool)
    requires CoveringFeed(vj.stops, feed, complete)
    ensures var list, h := FeedList(vj, feed, complete), Handle(vj, db, feed, complete);
            && !h.raised
            && (h.linked <==> list != [] && list[0].arr.time.Some? && (db.Some? ==> !AllFound(list, db.value.stops)))
  {
    hide Merge, FeedList, AllFound, Repaired, CoveringFeed;
    CoveringFeedNeedsNoRepair(vj, feed, complete);
    if db.Some? {
      EmptyListIsFound([], db.value.stops);
      HistoryIndependence(vj, db.value, feed, complete);
    } else {
      FirstMerge(vj, feed, complete);
    }
  }

  // ---------------------------------------------------------------- gap rejection

  /** The k-th stop of a complete feed is not visited. */
  predicate Dropped(base: seq<BaseStop>, db: Option<seq<Stop>>, feed: seq<Stop>, k: nat)
    requires k < |feed|
  {
    Visit(base, db, feed[k], k) == Ok(None)
  }

  /** The dropped stops among the first k are those from position n on: a suffix. */
  ghost predicate DroppedFrom(base: seq<BaseStop>, db: Option<seq<Stop>>, feed: seq<Stop>, n: nat, k: nat)
    requires k <= |feed|
  {
    forall a :: 0 <= a < k ==> (Dropped(base, db, feed, a) <==> n <= a)
  }

  predicate Gapless(items: seq<Item>) {
    forall j :: 0 <= j < |items| ==> items[j].order == j
  }

  lemma {:induction false} GaplessIffSuffixDropped(base: seq<BaseStop>, db: Option<seq<Stop>>, feed: seq<Stop>, k: nat)
    requires k <= |feed| && FeedItems(base, db, feed, k).Ok?
    ensures var items := FeedItems(base, db, feed, k).value;
            Gapless(items) <==> DroppedFrom(base, db, feed, |items|, k)
  {
    hide Visit;
    if k > 0 {
      GaplessIffSuffixDropped(base, db, feed, k - 1);
      var before, items := FeedItems(base, db, feed, k - 1).value, FeedItems(base, db, feed, k).value;
      if Dropped(base, db, feed, k - 1) {
        assert items == before;
      } else {
        assert items == before + [items[|before|]] && items[|before|].order == k - 1;
        assert forall j :: 0 <= j < |before| ==> items[j] == before[j];
        assert Gapless(items) ==> items[|before|].order == |before|;
        assert Gapless(before) && |before| == k - 1 ==> Gapless(items);
        assert DroppedFrom(base, db, feed, |items|, k) ==> |items| == k;
      }
    }
  }

  /** A complete feed's stops are found by their own position, whatever they are. */
  lemma CompleteFeedCovers(base: seq<BaseStop>, db: Option<seq<Stop>>, feed: seq<Stop>)
    requires OrdersAreIndexes(feed) && FeedItems(base, db, feed, |feed|).Ok?
    ensures Covering(FeedItems(base, db, feed, |feed|).value, feed)
  {
  }

  /** The list a complete feed merges to, stops outside the base schedule included. */
  lemma CompleteMergeList(vj: VehicleJourney, db: Option<Trip>, feed: Trip)
    requires feed.status != Delete && UpdatesCarryDelay(feed.stops) && OrdersAreIndexes(feed.stops)
    requires Merge(vj, db, feed, true).Merged?
    ensures FeedItems(vj.stops, StopsOf(db), feed.stops, |feed.stops|).Ok?
    ensures Merge(vj, db, feed, true).trip.stops
            == Rebuilt(vj.CirculationDate(), FeedItems(vj.stops, StopsOf(db), feed.stops, |feed.stops|).value,
                       feed.stops)
  {
    var items := FeedItems(vj.stops, StopsOf(db), feed.stops, |feed.stops|).value;
    CompleteFeedCovers(vj.stops, StopsOf(db), feed.stops);
    if db.Some? {
      CoveringRunIgnoresStored(vj.CirculationDate(), items, db.value.stops, feed.stops, |items|);
    }
  }

  lemma GaplessList(items: seq<Item>, out: seq<Stop>)
    requires |items| == |out|
    requires forall i {:trigger items[i]} :: 0 <= i < |items| ==>
      out[i].id == items[i].nav.id && out[i].order == Some(items[i].order)
    ensures OrdersAreIndexes(out) <==> Gapless(items)
  {
    forall j | 0 <= j < |items|
      ensures out[j].order == Some(j) <==> items[j].order == j
    {
      var item := items[j];
    }
  }

  lemma RebuiltAcceptance(date: int, items: seq<Item>, feed: seq<Stop>)
    requires UpdatesCarryDelay(feed) && Covering(items, feed)
    ensures var out := Rebuilt(date, items, feed);
            && Repaired(out).stops == out
            && (Repaired(out).ok <==> Gapless(items) && (out == [] || out[0].arr.time.Some?))
            && (forall i {:trigger items[i]} :: 0 <= i < |items| ==> out[i].id == items[i].nav.id)
  {
    hide Run, Repair, FindStop;
    var out := Rebuilt(date, items, feed);
    RebuiltIsChain(date, items, feed);
    ChainRepair(out);
    GaplessList(items, out);
  }

  /**
   * The result of a complete feed is accepted iff the stops it drops form a suffix (all of it from position |out| on)
   * and the first stop has a time.
   */
  lemma GapRejection(vj: VehicleJourney, db: Option<Trip>, feed: Trip)
    requires feed.status != Delete && UpdatesCarryDelay(feed.stops) && OrdersAreIndexes(feed.stops)
    requires Merge(vj, db, feed, true).Merged?
    ensures var out := Merge(vj, db, feed, true).trip.stops;
            && Repaired(out).stops == out
            && (Repaired(out).ok <==>
                 DroppedFrom(vj.stops, StopsOf(db), feed.stops, |out|, |feed.stops|)
                   && (out == [] || out[0].arr.time.Some?))
            && (Repaired(out).ok ==>
                 |out| <= |feed.stops| && forall j :: 0 <= j < |out| ==> out[j].id == feed.stops[j].id)
  {
    hide Merge, Run, Rebuilt, Repair, Repaired, FindStop, Visit, FeedItems, Covering, Dropped;
    CompleteMergeList(vj, db, feed);
    var items := FeedItems(vj.stops, StopsOf(db), feed.stops, |feed.stops|).value;
    CompleteFeedCovers(vj.stops, StopsOf(db), feed.stops);
    RebuiltAcceptance(vj.CirculationDate(), items, feed.stops);
    GaplessIffSuffixDropped(vj.stops, StopsOf(db), feed.stops, |feed.stops|);
    var out := Merge(vj, db, feed, true).trip.stops;
    forall j | 0 <= j < |out| && Gapless(items)
      ensures out[j].id == feed.stops[j].id
    {
      var item := items[j];
    }
  }

  lemma LinkedMeansMerged(vj: VehicleJourney, db: Option<Trip>, feed: Trip, complete: bool)
    requires UpdatesCarryDelay(feed.stops) && Handle(vj, db, feed, complete).linked
    ensures var m := Merge(vj, db, feed, complete);
            && m.Merged? && Repaired(m.trip.stops).ok
            && Handle(vj, db, feed, complete).stored.value.stops == Repaired(m.trip.stops).stops
  {
    hide Run, Items, Repair;
  }

  /** A linked complete feed: its first stops, paired with the feed's entries by position. */
  lemma LinkedCompleteFeed(vj: VehicleJourney, db: Option<Trip>, feed: Trip)
    requires feed.status != Delete && UpdatesCarryDelay(feed.stops) && OrdersAreIndexes(feed.stops)
    requires Handle(vj, db, feed, true).linked
    ensures var items := FeedItems(vj.stops, StopsOf(db), feed.stops, |feed.stops|);
      && items.Ok? && |items.value| <= |feed.stops|
      && Covering(items.value, feed.stops) && Gapless(items.value)
      && (forall i {:trigger items.value[i]} :: 0 <= i < |items.value| ==>
          Entry(items.value[i], feed.stops) == feed.stops[i])
      && Handle(vj, db, feed, true).stored.value.stops == Rebuilt(vj.CirculationDate(), items.value, feed.stops)
  {
    hide Merge, Run, Rebuilt, Repair, Repaired, FindStop, Visit, Handle;
    LinkedMeansMerged(vj, db, feed, true);
    CompleteMergeList(vj, db, feed);
    CompleteFeedCovers(vj.stops, StopsOf(db), feed.stops);
    var items := FeedItems(vj.stops, StopsOf(db), feed.stops, |feed.stops|).value;
    RebuiltAcceptance(vj.CirculationDate(), items, feed.stops);
    forall i | 0 <= i < |items|
      ensures Entry(items[i], feed.stops) == feed.stops[i]
    {
      FindStopAtItsOrder(feed.stops, i);
    }
  }

  /**
   * A linked full feed, complete or not: what it stores is rebuilt from the stops it visits, each paired with its
   * entry.
   */
  lemma LinkedFullFeed(vj: VehicleJourney, db: Option<Trip>, feed: Trip, complete: bool)
    requires FullFeed(vj.stops, feed, complete) && Handle(vj, db, feed, complete).linked
    ensures var items := Items(vj.stops, StopsOf(db), feed.stops, complete);
      && items.Ok? && |items.value| <= |feed.stops|
      && Covering(items.value, feed.stops) && Gapless(items.value)
      && (forall i {:trigger items.value[i]} :: 0 <= i < |items.value| ==>
            Entry(items.value[i], feed.stops) == feed.stops[i] && items.value[i].nav.id == feed.stops[i].id)
      && Handle(vj, db, feed, complete).stored.value.stops == Rebuilt(vj.CirculationDate(), items.value, feed.stops)
  {
    hide Handle, Run, Rebuilt, FindStop, Visit;
    if complete {
      LinkedCompleteFeed(vj, db, feed);
    } else {
      LinkedIsFeedList(vj, db, feed, complete);
      CoveredVisits(vj.stops, StopsOf(db), feed, complete);
    }
  }

  lemma FullFeedCovers(base: seq<BaseStop>, db: Option<seq<Stop>>, feed: Trip, complete: bool)
    requires FullFeed(base, feed, complete) && Items(base, db, feed.stops, complete).Ok?
    ensures Covering(Items(base, db, feed.stops, complete).value, feed.stops)
  {
    hide Visit, FindStop, FeedItems;
    if complete {
      CompleteFeedCovers(base, db, feed.stops);
    } else {
      CoveredVisits(base, db, feed, complete);
    }
  }

  /**
   * What any full feed leaves stored, stops outside the base schedule included and whatever the stored orders: its own
   * list if some visited stop is not found in the stored one as rebuilt, and else the stored list as it was.
   */
  lemma StoredListAfterFullFeed(vj: VehicleJourney, db: Trip, feed: Trip, complete: bool)
    requires FullFeed(vj.stops, feed, complete) && Items(vj.stops, Some(db.stops), feed.stops, complete).Ok?
    ensures var items := Items(vj.stops, Some(db.stops), feed.stops, complete).value;
            var out := Rebuilt(vj.CirculationDate(), items, feed.stops);
            var h := Handle(vj, Some(db), feed, complete);
      && (Merge(vj, Some(db), feed, complete).Merged? <==> Differs(items, db.stops, out, |items|))
      && !h.raised && h.stored.value.stops == (if Differs(items, db.stops, out, |items|) then out else db.stops)
      && (h.stored.value.stops == out <==> Differs(items, db.stops, out, |items|) || db.stops == out)
      && (h.linked <==> Differs(items, db.stops, out, |items|) && Repaired(out).ok)
  {
    hide Run, FindStop, Visit, Items, Merge, Handle, Differs;
    var items := Items(vj.stops, Some(db.stops), feed.stops, complete).value;
    FullFeedCovers(vj.stops, Some(db.stops), feed, complete);
    MergeFromRun(vj, db, feed, complete, items);
    CoveringRunIgnoresStored(vj.CirculationDate(), items, db.stops, feed.stops, |items|);
    RebuiltAcceptance(vj.CirculationDate(), items, feed.stops);
    HandledFromMerge(vj, db, feed, complete);
  }

  lemma FirstFullFeed(vj: VehicleJourney, feed: Trip, complete: bool)
    requires FullFeed(vj.stops, feed, complete) && Items(vj.stops, None, feed.stops, complete).Ok?
    ensures var items := Items(vj.stops, None, feed.stops, complete).value;
            var out := Rebuilt(vj.CirculationDate(), items, feed.stops);
            var h := Handle(vj, None, feed, complete);
            !h.raised && (h.linked <==> items != [] && Repaired(out).ok)
  {
    hide Run, Items, Repair;
    var items := Items(vj.stops, None, feed.stops, complete).value;
    CoveringRunFromNothing(vj.CirculationDate(), items, feed.stops, |items|);
  }

  /**
   * A full feed raises exactly when one of its visits does; else it is linked exactly when it drops no stop but its
   * last ones, has a time to start from, and brings news.
   */
  lemma FullFeedLinkedExactly(vj: VehicleJourney, db: Option<Trip>, feed: Trip, complete: bool)
    requires FullFeed(vj.stops, feed, complete)
    ensures var items, h := Items(vj.stops, StopsOf(db), feed.stops, complete), Handle(vj, db, feed, complete);
      && (h.raised <==> items.Err?)
      && (h.linked <==>
            && items.Ok? && Gapless(items.value) && items.value != []
            && var out := Rebuilt(vj.CirculationDate(), items.value, feed.stops);
            && out[0].arr.time.Some? && (db.Some? ==> Differs(items.value, db.value.stops, out, |items.value|)))
  {
    hide Run, FindStop, Visit, Items, Handle, Differs, Repaired, Gapless, Rebuilt;
    var items := Items(vj.stops, StopsOf(db), feed.stops, complete);
    if items.Ok? {
      FullFeedCovers(vj.stops, StopsOf(db), feed, complete);
      RebuiltAcceptance(vj.CirculationDate(), items.value, feed.stops);
      if db.Some? {
        StoredListAfterFullFeed(vj, db.value, feed, complete);
        NothingDiffers(items.value, db.value.stops, Rebuilt(vj.CirculationDate(), items.value, feed.stops));
      } else {
        FirstFullFeed(vj, feed, complete);
      }
    } else {
      RaisedVisits(vj, db, feed, complete);
    }
  }

  lemma NothingDiffers(items: seq<Item>, stored: seq<Stop>, out: seq<Stop>)
    requires |items| == |out|
    ensures Differs(items, stored, out, |items|) ==> items != []
  {
  }

  lemma RaisedVisits(vj: VehicleJourney, db: Option<Trip>, feed: Trip, complete: bool)
    requires FullFeed(vj.stops, feed, complete) && Items(vj.stops, StopsOf(db), feed.stops, complete).Err?
    ensures Handle(vj, db, feed, complete).raised && !Handle(vj, db, feed, complete).linked
  {
  }

  /** A published full feed is stored with its own messages and statuses, stop by stop. */
  lemma LinkedCarries(vj: VehicleJourney, db: Option<Trip>, feed: Trip, complete: bool, i: nat)
    requires FullFeed(vj.stops, feed, complete) && Handle(vj, db, feed, complete).linked
    requires i < |Handle(vj, db, feed, complete).stored.value.stops|
    ensures var stored := Handle(vj, db, feed, complete).stored.value.stops;
      && |stored| <= |feed.stops| && stored[i].id == feed.stops[i].id && stored[i].order == Some(i)
      && stored[i].message == feed.stops[i].message
      && forall side :: stored[i].At(side).status == feed.stops[i].At(side).status
  {
    hide Handle, Items, Run, FindStop, Rebuilt;
    LinkedFullFeed(vj, db, feed, complete);
    var items := Items(vj.stops, StopsOf(db), feed.stops, complete).value;
    var item := items[i];
    RebuiltCarries(vj.CirculationDate(), items, feed.stops, i);
  }

  // ---------------------------------------------------------------- what happens whatever the stops

  /** A cancellation is always published, with no stop left, whether or not a trip was stored. */
  lemma Cancellation(vj: VehicleJourney, db: Option<Trip>, feed: Trip, complete: bool)
    requires UpdatesCarryDelay(feed.stops) && feed.status == Delete
    ensures var h := Handle(vj, db, feed, complete);
      && h.linked && !h.raised && h.stored.Some?
      && h.stored.value.status == Delete && h.stored.value.effect == feed.effect && h.stored.value.stops == []
  {
    assert Repaired([]) == Pass(true, None, []);
  }

  /**
   * Accepted or not, a stored trip takes the feed's status and effect; it takes the feed's message too, unless an
   * incremental feed has none: then a message stored before remains.
   */
  lemma HeaderOfFeed(vj: VehicleJourney, db: Option<Trip>, feed: Trip, complete: bool)
    requires UpdatesCarryDelay(feed.stops) && Handle(vj, db, feed, complete).stored.Some?
    ensures var trip := Handle(vj, db, feed, complete).stored.value;
      && trip.status == feed.status && trip.effect == feed.effect
      && (complete || feed.message.Some? || db.None? ==> trip.message == feed.message)
      && (!complete && feed.message.None? && db.Some? ==> trip.message == db.value.message)
  {
    hide Run, Items, Repaired;
  }

  /** What is kept: a new trip exactly when it is linked, a stored one always; a link is never made after an error. */
  lemma KeptTrips(vj: VehicleJourney, db: Option<Trip>, feed: Trip, complete: bool)
    requires UpdatesCarryDelay(feed.stops)
    ensures var h := Handle(vj, db, feed, complete);
      && (h.stored.Some? <==> db.Some? || h.linked) && !(h.linked && h.raised)
  {
    hide Run, Items, Repaired;
  }

  lemma LinkedIsTimed(vj: VehicleJourney, db: Option<Trip>, feed: Trip, complete: bool)
    requires UpdatesCarryDelay(feed.stops) && Handle(vj, db, feed, complete).linked
    ensures var stored := Handle(vj, db, feed, complete).stored.value.stops;
            AllTimed(stored) && OrdersAreIndexes(stored)
  {
    hide Merge, Repair;
    LinkedMeansMerged(vj, db, feed, complete);
    var merged := Merge(vj, db, feed, complete).trip.stops;
    RepairKeepsIdentity(merged, |merged|);
  }

  /**
   * End to end, stops outside the base schedule included: an event that keeps its base time is stored at base plus
   * delay, and never ahead of the feed's delay.
   */
  lemma BaseConservation(vj: VehicleJourney, db: Option<Trip>, feed: Trip, complete: bool, i: nat, side: Side)
    requires FullFeed(vj.stops, feed, complete) && Handle(vj, db, feed, complete).linked
    requires var items := Items(vj.stops, StopsOf(db), feed.stops, complete);
      && items.Ok? && i < |items.value| <= |feed.stops|
      && KeepsBase(feed.stops[i].At(side))
      && BaseAt(vj.CirculationDate(), items.value, None, feed.stops, i, side).Some?
    ensures var items := Items(vj.stops, StopsOf(db), feed.stops, complete).value;
            var stored := Handle(vj, db, feed, complete).stored.value.stops;
            && |stored| == |items| && Timed(stored[i]) && stored[i].id == feed.stops[i].id
            && Origin(stored[i].At(side)) == BaseAt(vj.CirculationDate(), items, None, feed.stops, i, side).value
            && FeedDelay(feed.stops[i].At(side)) <= stored[i].At(side).delay.value
  {
    hide Handle, Items, Run, FindStop, BaseAt;
    LinkedFullFeed(vj, db, feed, complete);
    LinkedIsTimed(vj, db, feed, complete);
    var items := Items(vj.stops, StopsOf(db), feed.stops, complete).value;
    var item := items[i];
    RebuiltIsChain(vj.CirculationDate(), items, feed.stops);
    RebuiltConserves(vj.CirculationDate(), items, feed.stops, i, side);
  }

  // ---------------------------------------------------------------- feeds that shorten the stored trip

  lemma SameEntrySameStep(s: Loop, item: Item, feed: seq<Stop>, other: seq<Stop>)
    requires UpdatesCarryDelay(feed) && UpdatesCarryDelay(other)
    requires FindStop(feed, item.nav.id, item.order) == FindStop(other, item.nav.id, item.order)
    ensures Step(s, item, None, feed) == Step(s, item, None, other)
  {
    hide FindStop;
  }

  lemma {:induction false} ShorterRun(date: int, base: seq<BaseStop>, feed: Trip, shorter: Trip, k: nat)
    requires CoveringFeed(base, feed, true) && CoveringFeed(base, shorter, true)
    requires shorter.stops <= feed.stops && k <= |shorter.stops|
    ensures Run(date, CoveredItems(base, shorter, true), None, shorter.stops, k)
            == Run(date, CoveredItems(base, feed, true), None, feed.stops, k)
  {
    hide Step, FindStop, FindInBase;
    if k > 0 {
      ShorterRun(date, base, feed, shorter, k - 1);
      FindStopAtItsOrder(feed.stops, k - 1);
      FindStopAtItsOrder(shorter.stops, k - 1);
      assert feed.stops[k - 1] == shorter.stops[k - 1];
      SameEntrySameStep(Run(date, CoveredItems(base, feed, true), None, feed.stops, k - 1),
                        CoveredItems(base, feed, true)[k - 1], feed.stops, shorter.stops);
    }
  }

  /**
   * A complete feed that merely drops the last stops of the previous one changes nothing: the dropped stops stay
   * stored.
   */
  lemma ShortenedFeedIsIgnored(vj: VehicleJourney, db: Option<Trip>, feed: Trip, shorter: Trip)
    requires CoveringFeed(vj.stops, feed, true) && CoveringFeed(vj.stops, shorter, true)
    requires shorter.stops <= feed.stops && Handle(vj, db, feed, true).linked
    ensures var once := Handle(vj, db, feed, true).stored;
            && Merge(vj, once, shorter, true).Unchanged?
            && Handle(vj, once, shorter, true).stored.value.stops == FeedList(vj, feed, true)
  {
    var once := Handle(vj, db, feed, true).stored.value;
    LinkedIsFeedList(vj, db, feed, true);
    HistoryIndependence(vj, once, shorter, true);
    FeedListShape(vj, shorter, true);
    FeedListShape(vj, feed, true);
    ShorterList(vj, feed, shorter);
    AllFoundIsPrefix(FeedList(vj, shorter, true), once.stops);
    HandledFromMerge(vj, once, shorter, true);
  }

  lemma ShorterList(vj: VehicleJourney, feed: Trip, shorter: Trip)
    requires CoveringFeed(vj.stops, feed, true) && CoveringFeed(vj.stops, shorter, true)
    requires shorter.stops <= feed.stops
    ensures FeedList(vj, shorter, true) <= FeedList(vj, feed, true)
  {
    hide Run, CoveredItems, FindInBase;
    var date, n := vj.CirculationDate(), |shorter.stops|;
    ShorterRun(date, vj.stops, feed, shorter, n);
    forall i | 0 <= i < n
      ensures FeedList(vj, shorter, true)[i] == FeedList(vj, feed, true)[i]
    {
      RunPrefix(date, CoveredItems(vj.stops, feed, true), None, feed.stops, i, |feed.stops|);
      RunPrefix(date, CoveredItems(vj.stops, feed, true), None, feed.stops, i, n);
    }
  }
}
