/** `handle` on the mutable records: merge, repair, link (kirin/core/build_wrapper.py:168-202). */
module Handler {
  import opened Basics
  import opened StopTimes
  import opened Merging
  import opened Consistency
  import opened Driver
  import Rules = MergeRules
  import RepairRules
  import MergeLaws
  import FeedLaws
  import Runs
  import Handling

  /**
   * What the merge relies on: complete feeds number their stops, incremental ones find the base schedule's stops
   * stored.
   */
  ghost predicate KnownShape(vj: VehicleJourney, db: Option<Trip>, feed: Trip, complete: bool) {
    && UpdatesCarryDelay(feed.stops)
    && if complete then OrdersAreIndexes(feed.stops) else db.Some? ==> Runs.WellShaped(vj.stops, db.value)
  }

  ghost predicate DistinctOrders(stops: seq<Stop>) {
    forall i, j :: 0 <= i < j < |stops| ==> stops[i].order != stops[j].order
  }

  /** A merge whose result, if any, does not hold the same record twice. */
  ghost predicate RecordsOnce(outcome: Rules.Outcome) {
    outcome.Merged? ==> DistinctOrders(outcome.trip.stops)
  }

  /** A merged list never repeats an order, hence never holds the same record twice. */
  lemma MergedOrdersDiffer(vj: VehicleJourney, db: Option<Trip>, feed: Trip, complete: bool)
    requires KnownShape(vj, db, feed, complete)
    ensures RecordsOnce(Rules.Merge(vj, db, feed, complete))
  {
    hide Rules.Step, Rules.Visit, FindStop;
    var m := Rules.Merge(vj, db, feed, complete);
    if m.Merged? && feed.status != Delete {
      if complete {
        FeedLaws.CompleteMergeList(vj, db, feed);
        var items := Rules.FeedItems(vj.stops, Rules.StopsOf(db), feed.stops, |feed.stops|).value;
        FeedLaws.CompleteFeedCovers(vj.stops, Rules.StopsOf(db), feed.stops);
        MergeLaws.RebuiltIsChain(vj.CirculationDate(), items, feed.stops);
        forall i, j | 0 <= i < j < |items|
          ensures m.trip.stops[i].order != m.trip.stops[j].order
        {
          var a, b := items[i], items[j];
        }
      } else {
        Runs.IncrementalRunShape(vj, db, feed.stops, |vj.stops|);
      }
    }
  }

  lemma DistinctOrdersDistinctRecords(list: seq<StopTimeUpdate>)
    requires DistinctOrders(Views(list))
    ensures Distinct(list)
  {
  }

  /**
   * One trip: linked or raised as the rules say; the stored record, or else the feed's, ends as they say too, unless
   * the trip is refused while its merged list repeats a record.
   */
  method HandleTrip(db: TripUpdate?, feed: TripUpdate, complete: bool) returns (linked: bool, raised: bool)
    requires db != feed && UpdatesCarryDelay(Views(feed.stops))
    modifies if db != null then db else feed
    modifies if db != null then db.stops else feed.stops
    ensures var target := if db != null then db else feed;
            var h := Handling.Handle(feed.vj, old(Snapshot(db)), old(feed.View()), complete);
            var outcome := Rules.Merge(feed.vj, old(Snapshot(db)), old(feed.View()), complete);
            && linked == h.linked && raised == h.raised
            && (linked || (db != null && RecordsOnce(outcome)) ==> h.stored == Some(target.View()))
            && (forall s :: s in target.stops ==> s in old(target.stops) || fresh(s))
  {
    hide Rules.Merge, RepairRules.Repair, DistinctOrders;
    var answer := Merge(db, feed, complete);
    match answer
    case Failed => return false, true;
    case NoNews => return false, false;
    case Result(trip) =>
      if DistinctOrders(Views(trip.stops)) {
        DistinctOrdersDistinctRecords(trip.stops);
      }
      linked := ManageConsistency(trip);
      raised := false;
  }

  function RowOf(t: TripUpdate): Row
    reads t, t.stops
  {
    Row(t.vj, t.View())
  }

  /** The first of these trips that belongs to a dated vehicle journey, or null. */
  function Lookup(ts: seq<TripUpdate>, vj: VehicleJourney): (r: TripUpdate?)
    ensures r != null ==> r in ts && SameKey(r.vj, vj)
    ensures r == null ==> forall i :: 0 <= i < |ts| ==> !SameKey(ts[i].vj, vj)
  {
    if ts == [] then null else if SameKey(ts[0].vj, vj) then ts[0] else Lookup(ts[1..], vj)
  }

  lemma {:induction false} LookupIsRowIndex(ts: seq<TripUpdate>, rows: seq<Row>, vj: VehicleJourney)
    requires |ts| == |rows| && forall i :: 0 <= i < |ts| ==> ts[i].vj == rows[i].vj
    ensures var i := RowIndex(rows, vj); Lookup(ts, vj) == if i < |ts| then ts[i] else null
  {
    if ts != [] {
      LookupIsRowIndex(ts[1..], rows[1..], vj);
    }
  }

  ghost function Lists(ts: seq<TripUpdate>): (r: seq<seq<StopTimeUpdate>>)
    reads ts
    ensures |r| == |ts| && forall i :: 0 <= i < |ts| ==> r[i] == ts[i].stops
  {
    seq(|ts|, i requires 0 <= i < |ts| reads ts => ts[i].stops)
  }

  ghost predicate Disjoint(a: seq<StopTimeUpdate>, b: seq<StopTimeUpdate>) {
    forall s :: s in a ==> s !in b
  }

  ghost predicate Apart(ts: seq<TripUpdate>, lists: seq<seq<StopTimeUpdate>>)
    requires |ts| == |lists|
  {
    forall i, j :: 0 <= i < |ts| && 0 <= j < |ts| && i != j ==> ts[i] != ts[j] && Disjoint(lists[i], lists[j])
  }

  /** No two trips share a record. */
  ghost predicate Separate(ts: seq<TripUpdate>)
    reads ts
  {
    Apart(ts, Lists(ts))
  }

  lemma ReplaceList(ts: seq<TripUpdate>, lists: seq<seq<StopTimeUpdate>>, t: nat, list: seq<StopTimeUpdate>)
    requires |ts| == |lists| && t < |ts| && Apart(ts, lists)
    requires forall s, j :: s in list && 0 <= j < |lists| && j != t ==> s !in lists[j]
    ensures Apart(ts, lists[t := list])
  {
  }

  /** The links of a batch designate these records. */
  ghost predicate Links(ts: seq<TripUpdate>, linked: seq<TripUpdate>, indices: seq<nat>) {
    |linked| == |indices| && forall l :: 0 <= l < |linked| ==> indices[l] < |ts| && linked[l] == ts[indices[l]]
  }

  twostate lemma RowUnchanged(t: TripUpdate)
    requires unchanged(t) && forall s :: s in t.stops ==> unchanged(s)
    ensures RowOf(t) == old(RowOf(t))
  {
    forall i | 0 <= i < |t.stops|
      ensures t.stops[i].View() == old(t.stops[i].View())
    {
      assert t.stops[i] in t.stops && unchanged(t.stops[i]);
    }
    assert Views(t.stops) == old(Views(t.stops));
  }

  /** All stop records of these trips are in a given set. */
  ghost predicate Contained(ts: seq<TripUpdate>, records: set<StopTimeUpdate>)
    reads ts
  {
    forall i, s :: 0 <= i < |ts| && s in ts[i].stops ==> s in records
  }

  /** The same among other trips, which stay as they are and share nothing with it afterwards either. */
  method HandleAmong(db: TripUpdate?, feed: TripUpdate, complete: bool, ghost all: seq<TripUpdate>, ghost t: nat,
                     ghost records: set<StopTimeUpdate>)
    returns (linked: bool, raised: bool, ghost records': set<StopTimeUpdate>)
    requires Contained(all, records)
    requires db != feed && KnownShape(feed.vj, Snapshot(db), feed.View(), complete)
    requires Separate(all) && t < |all| && all[t] == if db != null then db else feed
    modifies if db != null then db else feed
    modifies if db != null then db.stops else feed.stops
    ensures var target := if db != null then db else feed;
            var h := Handling.Handle(feed.vj, old(Snapshot(db)), old(feed.View()), complete);
            && linked == h.linked && raised == h.raised
            && (db != null || linked ==> h.stored == Some(target.View()))
    ensures Separate(all) && forall j :: 0 <= j < |all| && j != t ==> RowOf(all[j]) == old(RowOf(all[j]))
    ensures Contained(all, records') && forall s :: s in records' ==> s in records || fresh(s)
  {
    MergedOrdersDiffer(feed.vj, Snapshot(db), feed.View(), complete);
    hide KnownShape, Handling.Handle, Rules.Merge, RecordsOnce;
    ghost var lists := Lists(all);
    assert forall j :: 0 <= j < |all| && j != t ==> all[j] != all[t] && Disjoint(lists[j], lists[t]);
    hide Apart;
    linked, raised := HandleTrip(db, feed, complete);
    forall j | 0 <= j < |all| && j != t
      ensures RowOf(all[j]) == old(RowOf(all[j])) && all[j].stops == lists[j]
    {
      assert Disjoint(lists[j], lists[t]);
      RowUnchanged(all[j]);
    }
    ReplaceList(all, lists, t, all[t].stops);
    assert Lists(all) == lists[t := all[t].stops];
    records' := records + set s | s in all[t].stops;
  }

  /** The rows are trips of the world: the n first ones in place, then trips of the batch before the k-th. */
  ghost predicate Placed(world: seq<TripUpdate>, n: nat, k: nat, rows: seq<TripUpdate>, place: seq<nat>) {
    && n <= |rows| == |place| && n + k <= |world|
    && (forall j :: 0 <= j < n ==> place[j] == j)
    && (forall j :: n <= j < |rows| ==> n <= place[j])
    && (forall j :: 0 <= j < |rows| ==> place[j] < n + k && rows[j] == world[place[j]])
  }

  /** One turn of handle's loop: merges, repairs and links the k-th trip of the batch, in a world of separate trips. */
  method HandleNext(ghost world: seq<TripUpdate>, n: nat, ghost k: nat, rows: seq<TripUpdate>, ghost place: seq<nat>,
                    db: TripUpdate?, feed: TripUpdate, complete: bool, ghost b: Batch, linked: seq<TripUpdate>,
                    ghost records: set<StopTimeUpdate>)
    returns (rows': seq<TripUpdate>, ghost place': seq<nat>, linked': seq<TripUpdate>, raised: bool,
             ghost records': set<StopTimeUpdate>)
    requires Contained(world, records)
    requires Separate(world) && Placed(world, n, k, rows, place) && n + k < |world| && feed == world[n + k]
    requires db == Lookup(rows[..n], feed.vj) && Links(rows, linked, b.linked)
    requires |rows| == |b.rows| && forall i :: 0 <= i < |rows| ==> RowOf(rows[i]) == b.rows[i]
    requires KnownShape(feed.vj, Snapshot(db), feed.View(), complete)
    modifies if db != null then db else feed
    modifies if db != null then db.stops else feed.stops
    ensures var r := HandleRow(b, n, old(RowOf(feed)), complete);
      && |rows'| == |r.rows| && (forall i :: 0 <= i < |rows'| ==> RowOf(rows'[i]) == r.rows[i])
      && Links(rows', linked', r.linked) && raised == r.raised
    ensures rows <= rows' && Separate(world) && Placed(world, n, k + 1, rows', place')
    ensures forall j :: n + k < j < |world| ==> RowOf(world[j]) == old(RowOf(world[j]))
    ensures Contained(world, records') && forall s :: s in records' ==> s in records || fresh(s)
  {
    ghost var row, h := RowOf(feed), Handling.Handle(feed.vj, Snapshot(db), feed.View(), complete);
    ghost var t := TargetIndex(rows, n, b, feed.vj);
    TurnReport(b, n, row, complete, t);
    hide *;
    ghost var w := if db != null then t else n + k;
    PlacedNext(world, n, k, rows, place, t, w);
    if db != null {
      SeparateElements(world, t, n + k);
    }
    var isLinked;
    isLinked, raised, records' := HandleAmong(db, feed, complete, world, w, records);
    TargetRow(db, feed);
    rows', place', linked' := rows, place, linked;
    if isLinked {
      if db == null {
        rows', place' := rows + [feed], place + [w];
        linked' := linked + [feed];
      } else {
        linked' := linked + [db];
      }
      LinksGrow(rows, rows', linked, b.linked, t);
    }
    TurnDone(b, n, row, complete, t, rows, rows');
  }

  lemma PlacedNext(world: seq<TripUpdate>, n: nat, k: nat, rows: seq<TripUpdate>, place: seq<nat>, t: nat, w: nat)
    requires Placed(world, n, k, rows, place) && n + k < |world|
    requires (t < n && w == t) || (t == |rows| && w == n + k)
    ensures forall j :: 0 <= j < |rows| ==> |place| == |rows| && place[j] < |world| && rows[j] == world[place[j]]
    ensures forall j :: 0 <= j < |rows| && j != t ==> place[j] != w
    ensures t < n ==> rows[t] == world[w]
    ensures Placed(world, n, k + 1, rows, place)
    ensures w == n + k ==> Placed(world, n, k + 1, rows + [world[w]], place + [w])
  {
  }

  /** The rows after a turn, once its target holds what the rules say. */
  lemma TurnDone(b: Batch, n: nat, row: Row, complete: bool, t: nat, rows: seq<TripUpdate>, rows': seq<TripUpdate>)
    requires n <= |b.rows| == |rows| && UpdatesCarryDelay(row.trip.stops)
    requires t < n || t == |rows|
    requires RowIndex(b.rows[..n], row.vj) == if t < n then t else n
    requires forall j :: 0 <= j < |rows| && j != t ==> RowOf(rows[j]) == b.rows[j]
    requires var h := Handling.Handle(row.vj, if t < n then Some(b.rows[t].trip) else None, row.trip, complete);
      && rows <= rows' && |rows'| == (if h.linked && t == |rows| then |rows| + 1 else |rows|)
      && (t < |rows'| ==> RowOf(rows'[t]) == Row(if t < n then b.rows[t].vj else row.vj, h.stored.value))
    ensures var r := HandleRow(b, n, row, complete);
            |rows'| == |r.rows| && forall i :: 0 <= i < |rows'| ==> RowOf(rows'[i]) == r.rows[i]
  {
    hide Handling.Handle, HandleRow, RowOf;
    OneRowHandled(b, n, row, complete, t);
  }

  lemma TargetRow(db: TripUpdate?, feed: TripUpdate)
    ensures RowOf(feed) == Row(feed.vj, feed.View()) && (db != null ==> RowOf(db) == Row(db.vj, db.View()))
  {
  }

  lemma SeparateElements(all: seq<TripUpdate>, i: nat, j: nat)
    requires Separate(all) && i < |all| && j < |all| && i != j
    ensures all[i] != all[j]
  {
  }

  lemma LinksGrow(rows: seq<TripUpdate>, rows': seq<TripUpdate>, linked: seq<TripUpdate>, indices: seq<nat>, t: nat)
    requires Links(rows, linked, indices) && rows <= rows' && t < |rows'|
    ensures Links(rows', linked + [rows'[t]], indices + [t])
  {
  }

  /** Where the trip that a turn modifies is, or will be, among the rows. */
  ghost function TargetIndex(rows: seq<TripUpdate>, known: nat, b: Batch, vj: VehicleJourney): (t: nat)
    requires known <= |rows| == |b.rows|
    requires forall j :: 0 <= j < |rows| ==> rows[j].vj == b.rows[j].vj
    ensures t < known || t == |rows|
    ensures Lookup(rows[..known], vj) == if t < known then rows[t] else null
    ensures RowIndex(b.rows[..known], vj) == if t < known then t else known
  {
    LookupIsRowIndex(rows[..known], b.rows[..known], vj);
    var i := RowIndex(b.rows[..known], vj);
    if i < known then i else |rows|
  }

  /** The effect of one trip on the rows, at the index of the trip it modifies. */
  lemma OneRowHandled(b: Batch, known: nat, feed: Row, complete: bool, t: nat)
    requires known <= |b.rows| && UpdatesCarryDelay(feed.trip.stops)
    requires t < known || t == |b.rows|
    requires RowIndex(b.rows[..known], feed.vj) == if t < known then t else known
    ensures var r := HandleRow(b, known, feed, complete);
            var h := Handling.Handle(feed.vj, if t < known then Some(b.rows[t].trip) else None, feed.trip, complete);
      && r.raised == h.raised
      && r.linked == (if h.linked then b.linked + [t] else b.linked)
      && |r.rows| == (if h.linked && t == |b.rows| then |b.rows| + 1 else |b.rows|)
      && (forall j :: 0 <= j < |b.rows| && j != t ==> r.rows[j] == b.rows[j])
      && (t < |r.rows| ==> r.rows[t] == Row(if t < known then b.rows[t].vj else feed.vj, h.stored.value))
  {
    hide Handling.Handle;
  }

  lemma TurnReport(b: Batch, known: nat, feed: Row, complete: bool, t: nat)
    requires known <= |b.rows| && UpdatesCarryDelay(feed.trip.stops)
    requires t < known || t == |b.rows|
    requires RowIndex(b.rows[..known], feed.vj) == if t < known then t else known
    ensures var r := HandleRow(b, known, feed, complete);
            var h := Handling.Handle(feed.vj, if t < known then Some(b.rows[t].trip) else None, feed.trip, complete);
            r.raised == h.raised && r.linked == if h.linked then b.linked + [t] else b.linked
  {
    hide Handling.Handle;
  }

  // ---------------------------------------------------------------- the loop over the batch

  ghost predicate ShapesKnown(stored: seq<Row>, feeds: seq<Row>, complete: bool) {
    forall j :: 0 <= j < |feeds| ==> KnownShape(feeds[j].vj, StoredFor(stored, feeds[j].vj), feeds[j].trip, complete)
  }

  /** Trips of the batch with the same key run over the same stops. */
  ghost predicate OneScheduleEach(feeds: seq<Row>) {
    forall i, j :: 0 <= i < |feeds| && 0 <= j < |feeds| && SameKey(feeds[i].vj, feeds[j].vj) ==>
      feeds[i].vj.stops == feeds[j].vj.stops
  }

  ghost predicate RowsShaped(rows: seq<Row>) {
    forall i :: 0 <= i < |rows| ==> Runs.WellShaped(rows[i].vj.stops, rows[i].trip)
  }

  /** The trips of a batch run over the stop lists that the database knows for them. */
  ghost predicate SameSchedules(rows: seq<Row>, feeds: seq<Row>) {
    forall i, j :: 0 <= i < |rows| && 0 <= j < |feeds| && SameKey(rows[i].vj, feeds[j].vj) ==>
      rows[i].vj.stops == feeds[j].vj.stops
  }

  /** Incremental batches keep every stored trip in the shape that the next one relies on. */
  lemma {:induction false} IncrementalBatchKeepsShapes(rows: seq<Row>, feeds: seq<Row>, k: nat)
    requires k <= |feeds| && CarryDelays(feeds)
    requires RowsShaped(rows) && SameSchedules(rows, feeds)
    ensures RowsShaped(HandleBatch(rows, feeds, false, k).rows)
  {
    hide HandleRow, Handling.Handle, Runs.WellShaped;
    if k > 0 {
      IncrementalBatchKeepsShapes(rows, feeds, k - 1);
      BatchGrows(rows, feeds, false, k - 1);
      var b, feed := HandleBatch(rows, feeds, false, k - 1), feeds[k - 1];
      if !b.raised {
        var i := RowIndex(b.rows[..|rows|], feed.vj);
        var t := if i < |rows| then i else |b.rows|;
        OneRowHandled(b, |rows|, feed, false, t);
        if i < |rows| {
          assert SameKey(rows[i].vj, feeds[k - 1].vj);
        }
        Runs.IncrementalStep(feed.vj, if i < |rows| then Some(b.rows[i].trip) else None, feed.trip);
      }
    }
  }

  /** Up to its own turn, the row stored for a trip of the batch is as it was at the start. */
  lemma StoredUntilItsTurn(stored: seq<Row>, feeds: seq<Row>, complete: bool, k: nat)
    requires k < |feeds| && CarryDelays(feeds) && UniqueKeys(feeds)
    ensures var now := HandleBatch(stored, feeds, complete, k).rows;
      && RowIndex(now[..|stored|], feeds[k].vj) == RowIndex(stored, feeds[k].vj)
      && (RowIndex(stored, feeds[k].vj) < |stored| ==>
            now[RowIndex(stored, feeds[k].vj)] == stored[RowIndex(stored, feeds[k].vj)])
  {
    hide HandleRow;
    BatchGrows(stored, feeds, complete, k);
    var now := HandleBatch(stored, feeds, complete, k).rows;
    SameJourneys(stored, now[..|stored|], feeds[k].vj);
    var i := RowIndex(stored, feeds[k].vj);
    if i < |stored| {
      forall j | 0 <= j < k
        ensures !SameKey(stored[i].vj, feeds[j].vj)
      {
        assert !SameKey(feeds[j].vj, feeds[k].vj);
      }
      OtherRowsUntouched(stored, feeds, complete, k, i);
    }
  }

  /** Whatever was handled before, a trip of the batch meets a stored trip of the shape its merge relies on. */
  lemma {:induction false} ShapesHold(stored: seq<Row>, feeds: seq<Row>, complete: bool, k: nat, m: nat)
    requires k <= m < |feeds| && CarryDelays(feeds)
    requires ShapesKnown(stored, feeds, complete) && OneScheduleEach(feeds)
    ensures var now := HandleBatch(stored, feeds, complete, k).rows[..|stored|];
            KnownShape(feeds[m].vj, StoredFor(now, feeds[m].vj), feeds[m].trip, complete)
  {
    hide Handling.Handle, Runs.WellShaped, HandleRow;
    if k > 0 {
      ShapesHold(stored, feeds, complete, k - 1, m);
      ShapesHold(stored, feeds, complete, k - 1, k - 1);
      var b, feed := HandleBatch(stored, feeds, complete, k - 1), feeds[k - 1];
      if !b.raised && !complete {
        ShapeAfterTurn(b, |stored|, feed, feeds[m]);
      }
    } else {
      assert HandleBatch(stored, feeds, complete, 0).rows[..|stored|] == stored;
    }
  }

  /** One incremental trip keeps the shape that another trip of the batch relies on. */
  lemma ShapeAfterTurn(b: Batch, known: nat, feed: Row, other: Row)
    requires known <= |b.rows|
    requires SameKey(feed.vj, other.vj) ==> feed.vj.stops == other.vj.stops
    requires KnownShape(feed.vj, StoredFor(b.rows[..known], feed.vj), feed.trip, false)
    requires KnownShape(other.vj, StoredFor(b.rows[..known], other.vj), other.trip, false)
    ensures KnownShape(other.vj, StoredFor(HandleRow(b, known, feed, false).rows[..known], other.vj), other.trip, false)
  {
    hide Handling.Handle, Runs.WellShaped, HandleRow;
    var rows, i := b.rows[..known], RowIndex(b.rows[..known], feed.vj);
    var t := if i < known then i else |b.rows|;
    OneRowHandled(b, known, feed, false, t);
    var next := HandleRow(b, known, feed, false).rows[..known];
    SameJourneys(rows, next, other.vj);
    Runs.IncrementalStep(feed.vj, StoredFor(rows, feed.vj), feed.trip);
    var o := RowIndex(rows, other.vj);
    if o < known && o != i {
      assert next[o] == rows[o];
    }
  }

  /** The same of the records. */
  lemma TurnReady(rows: seq<TripUpdate>, now: seq<TripUpdate>, feed: TripUpdate,
                  stored: seq<Row>, feeds: seq<Row>, complete: bool, k: nat)
    requires k < |feeds| && CarryDelays(feeds) && ShapesKnown(stored, feeds, complete) && OneScheduleEach(feeds)
    requires |rows| == |stored| && rows <= now && |now| == |HandleBatch(stored, feeds, complete, k).rows|
    requires forall i :: 0 <= i < |now| ==> RowOf(now[i]) == HandleBatch(stored, feeds, complete, k).rows[i]
    requires RowOf(feed) == feeds[k]
    ensures KnownShape(feed.vj, Snapshot(Lookup(now[..|rows|], feed.vj)), feed.View(), complete)
  {
    hide KnownShape, HandleBatch, Lookup, ShapesKnown;
    var b := HandleBatch(stored, feeds, complete, k);
    ShapesHold(stored, feeds, complete, k, k);
    LookupIsRowIndex(now[..|rows|], b.rows[..|rows|], feed.vj);
    var i := RowIndex(b.rows[..|rows|], feed.vj);
    if i < |stored| {
      assert RowOf(now[i]) == b.rows[..|rows|][i];
    }
  }

  /** handle: every trip of the batch in turn, until one raises. */
  method Handle(rows: seq<TripUpdate>, batch: seq<TripUpdate>, complete: bool, ghost stored: seq<Row>,
                ghost feeds: seq<Row>)
    returns (rows': seq<TripUpdate>, linked: seq<TripUpdate>, raised: bool)
    requires Separate(rows + batch)
    requires |rows| == |stored| && forall i :: 0 <= i < |rows| ==> RowOf(rows[i]) == stored[i]
    requires |batch| == |feeds| && forall j :: 0 <= j < |batch| ==> RowOf(batch[j]) == feeds[j]
    requires CarryDelays(feeds) && ShapesKnown(stored, feeds, complete) && OneScheduleEach(feeds)
    modifies rows, batch, Records(rows + batch)
    ensures var r := HandleBatch(stored, feeds, complete, |feeds|);
      && |rows'| == |r.rows| && (forall i :: 0 <= i < |rows'| ==> RowOf(rows'[i]) == r.rows[i])
      && Links(rows', linked, r.linked) && raised == r.raised
    ensures rows <= rows'
  {
    hide Separate, KnownShape, HandleRow, HandleBatch, Links, RowOf, ShapesKnown, Placed, Contained, Records, Lookup,
      CarryDelays;
    ghost var world := rows + batch;
    ghost var frame := Records(world);
    ghost var records, place := frame, FirstPlaces(rows, batch);
    rows', linked, raised := rows, [], false;
    NoLinks(rows);
    ghost var b := HandleBatch(stored, feeds, complete, 0);
    BatchStart(stored, feeds, complete);
    var k := 0;
    while k < |batch| && !raised
      invariant 0 <= k <= |batch| && b == HandleBatch(stored, feeds, complete, k) && raised == b.raised
      invariant |rows'| == |b.rows| && forall i :: 0 <= i < |rows'| ==> RowOf(rows'[i]) == b.rows[i]
      invariant rows <= rows' && Links(rows', linked, b.linked)
      invariant Separate(world) && Placed(world, |rows|, k, rows', place)
      invariant forall j :: |rows| + k <= j < |world| ==> RowOf(world[j]) == feeds[j - |rows|]
      invariant Contained(world, records) && forall s :: s in records ==> s in frame || fresh(s)
      decreases |batch| - k
    {
      var feed := batch[k];
      assert feed == world[|rows| + k];
      TurnReady(rows, rows', feed, stored, feeds, complete, k);
      assert rows'[..|rows|] == rows;
      var db := Lookup(rows, feed.vj);
      InFrame(rows, batch, k, db, records);
      BatchStep(stored, feeds, complete, k);
      rows', place, linked, raised, records :=
        HandleNext(world, |rows|, k, rows', place, db, feed, complete, b, linked, records);
      b := HandleBatch(stored, feeds, complete, k + 1);
      k := k + 1;
    }
    if raised {
      RaisedEnds(stored, feeds, complete, k, |feeds|);
    }
  }

  ghost function FirstPlaces(rows: seq<TripUpdate>, batch: seq<TripUpdate>): (place: seq<nat>)
    reads rows, batch
    ensures Placed(rows + batch, |rows|, 0, rows, place)
    ensures Contained(rows + batch, Records(rows + batch))
  {
    seq(|rows|, (j: nat) => j)
  }

  lemma InFrame(rows: seq<TripUpdate>, batch: seq<TripUpdate>, k: nat, db: TripUpdate?, records: set<StopTimeUpdate>)
    requires k < |batch| && Contained(rows + batch, records) && (db != null ==> db in rows)
    ensures forall s :: s in batch[k].stops ==> s in records
    ensures db != null ==> forall s :: s in db.stops ==> s in records
  {
    var world := rows + batch;
    assert world[|rows| + k] == batch[k];
    if db != null {
      var j :| 0 <= j < |rows| && rows[j] == db;
      assert world[j] == db;
    }
  }

  /** The stop records of some trips. */
  ghost function Records(ts: seq<TripUpdate>): set<StopTimeUpdate>
    reads ts
  {
    set t, s | t in ts && s in t.stops :: s
  }

  lemma BatchStart(stored: seq<Row>, feeds: seq<Row>, complete: bool)
    requires CarryDelays(feeds)
    ensures HandleBatch(stored, feeds, complete, 0) == Batch(stored, [], false)
  {
  }

  lemma BatchStep(stored: seq<Row>, feeds: seq<Row>, complete: bool, k: nat)
    requires k < |feeds| && CarryDelays(feeds)
    ensures var b := HandleBatch(stored, feeds, complete, k);
            !b.raised ==> HandleBatch(stored, feeds, complete, k + 1) == HandleRow(b, |stored|, feeds[k], complete)
  {
  }

  lemma NoLinks(rows: seq<TripUpdate>)
    ensures Links(rows, [], [])
  {
  }

  lemma {:induction false} RaisedEnds(stored: seq<Row>, feeds: seq<Row>, complete: bool, k: nat, n: nat)
    requires k <= n <= |feeds| && CarryDelays(feeds) && HandleBatch(stored, feeds, complete, k).raised
    ensures HandleBatch(stored, feeds, complete, n) == HandleBatch(stored, feeds, complete, k)
  {
    hide HandleRow;
    if k < n {
      RaisedEnds(stored, feeds, complete, k, n - 1);
    }
  }
}
