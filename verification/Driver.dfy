/** `handle` over a batch of trips and a database of stored ones (kirin/core/build_wrapper.py:168-204). */
module Driver {
  import opened Basics
  import opened StopTimes
  import opened RepairRules
  import opened RepairLaws
  import opened Handling
  import MergeRules

  /** A trip and the dated vehicle journey it belongs to. */
  datatype Row = Row(vj: VehicleJourney, trip: Trip)

  predicate SameKey(a: VehicleJourney, b: VehicleJourney) {
    a.tripId == b.tripId && a.start == b.start
  }

  /** Index of the first row stored for this dated vehicle journey, or the number of rows. */
  function RowIndex(rows: seq<Row>, vj: VehicleJourney): (r: nat)
    ensures r <= |rows|
    ensures r < |rows| ==> SameKey(rows[r].vj, vj)
    ensures forall i :: 0 <= i < r ==> !SameKey(rows[i].vj, vj)
  {
    if rows == [] || SameKey(rows[0].vj, vj) then 0 else 1 + RowIndex(rows[1..], vj)
  }

  /**
   * The rows of the database, the indices of those linked to the feed being handled, and whether the handling raised.
   */
  datatype Batch = Batch(rows: seq<Row>, linked: seq<nat>, raised: bool)

  ghost predicate CarryDelays(feeds: seq<Row>) {
    forall i :: 0 <= i < |feeds| ==> UpdatesCarryDelay(feeds[i].trip.stops)
  }

  /**
   * One trip of the batch; only the first `known` rows were there when the batch started, and only those are looked
   * up.
   */
  function HandleRow(b: Batch, known: nat, feed: Row, complete: bool): (r: Batch)
    requires known <= |b.rows| && UpdatesCarryDelay(feed.trip.stops)
    ensures |b.rows| <= |r.rows| <= |b.rows| + 1
  {
    var i := RowIndex(b.rows[..known], feed.vj);
    var h := Handle(feed.vj, if i < known then Some(b.rows[i].trip) else None, feed.trip, complete);
    if i < known then
      Batch(b.rows[i := b.rows[i].(trip := h.stored.value)], if h.linked then b.linked + [i] else b.linked, h.raised)
    else if h.linked then
      Batch(b.rows + [Row(feed.vj, h.stored.value)], b.linked + [|b.rows|], false)
    else Batch(b.rows, b.linked, h.raised)
  }

  /** The first k trips of a batch; a raised error ends it. */
  function HandleBatch(rows: seq<Row>, feeds: seq<Row>, complete: bool, k: nat): (r: Batch)
    requires k <= |feeds| && CarryDelays(feeds)
    ensures |rows| <= |r.rows|
  {
    if k == 0 then Batch(rows, [], false)
    else
      var before := HandleBatch(rows, feeds, complete, k - 1);
      if before.raised then before else HandleRow(before, |rows|, feeds[k - 1], complete)
  }

  predicate UniqueKeys(rows: seq<Row>) {
    forall i, j :: 0 <= i < j < |rows| ==> !SameKey(rows[i].vj, rows[j].vj)
  }

  // ---------------------------------------------------------------- what is linked is complete

  /** Ready for publication: orders 0..n-1 and no time or delay missing. */
  predicate Publishable(trip: Trip) {
    OrdersAreIndexes(trip.stops) && AllTimed(trip.stops)
  }

  lemma LinkedIsPublishable(vj: VehicleJourney, db: Option<Trip>, feed: Trip, complete: bool)
    requires UpdatesCarryDelay(feed.stops) && Handle(vj, db, feed, complete).linked
    ensures Publishable(Handle(vj, db, feed, complete).stored.value)
  {
    hide Repair;
    forall stops: seq<Stop>
      ensures Repaired(stops).ok ==> AllTimed(Repaired(stops).stops) && OrdersAreIndexes(Repaired(stops).stops)
    {
      RepairKeepsIdentity(stops, |stops|);
    }
  }

  // ---------------------------------------------------------------- invariants of a batch

  /** After k trips: stored rows keep their journey, the new ones belong to trips of the batch. */
  ghost predicate GrownFrom(rows: seq<Row>, feeds: seq<Row>, k: nat, now: seq<Row>)
    requires k <= |feeds|
  {
    && |rows| <= |now|
    && (forall i :: 0 <= i < |rows| ==> now[i].vj == rows[i].vj)
    && (forall i :: |rows| <= i < |now| ==>
          exists j :: 0 <= j < k && feeds[j].vj == now[i].vj)
  }

  /** The rows after one trip: the same journeys, plus the trip's own if it was not known. */
  lemma RowsAfterOne(b: Batch, known: nat, feed: Row, complete: bool)
    requires known <= |b.rows| && UpdatesCarryDelay(feed.trip.stops)
    ensures var r := HandleRow(b, known, feed, complete);
      && (forall i :: 0 <= i < |b.rows| ==> r.rows[i].vj == b.rows[i].vj)
      && (|r.rows| > |b.rows| ==>
            (r.rows[|b.rows|].vj == feed.vj && forall i :: 0 <= i < known ==> !SameKey(b.rows[i].vj, feed.vj)))
  {
    hide Handle;
    var i := RowIndex(b.rows[..known], feed.vj);
    if i == known {
      forall h | 0 <= h < known
        ensures !SameKey(b.rows[h].vj, feed.vj)
      {
        assert b.rows[..known][h] == b.rows[h];
      }
    }
  }

  lemma {:induction false} BatchGrows(rows: seq<Row>, feeds: seq<Row>, complete: bool, k: nat)
    requires k <= |feeds| && CarryDelays(feeds)
    ensures GrownFrom(rows, feeds, k, HandleBatch(rows, feeds, complete, k).rows)
  {
    hide HandleRow;
    if k > 0 {
      BatchGrows(rows, feeds, complete, k - 1);
      RowsAfterOne(HandleBatch(rows, feeds, complete, k - 1), |rows|, feeds[k - 1], complete);
    }
  }

  /** The j-th trip of the batch is reached, has no row when the batch starts, and gets linked from nothing. */
  predicate Enters(rows: seq<Row>, feeds: seq<Row>, complete: bool, j: nat)
    requires j < |feeds| && CarryDelays(feeds)
  {
    && !HandleBatch(rows, feeds, complete, j).raised
    && RowIndex(rows, feeds[j].vj) == |rows|
    && Handle(feeds[j].vj, None, feeds[j].trip, complete).linked
  }

  /** No two of the first k trips enter under the same key. */
  ghost predicate EntrantsDiffer(rows: seq<Row>, feeds: seq<Row>, complete: bool, k: nat)
    requires k <= |feeds| && CarryDelays(feeds)
  {
    forall i, j :: 0 <= i < j < k && Enters(rows, feeds, complete, i) && Enters(rows, feeds, complete, j) ==>
      !SameKey(feeds[i].vj, feeds[j].vj)
  }

  lemma SameJourneys(rows: seq<Row>, now: seq<Row>, vj: VehicleJourney)
    requires |rows| == |now| && forall i :: 0 <= i < |rows| ==> now[i].vj == rows[i].vj
    ensures RowIndex(now, vj) == RowIndex(rows, vj)
  {
  }

  /** A trip of the batch either enters, as a new row, or adds no row. */
  lemma EntryOrNot(rows: seq<Row>, feeds: seq<Row>, complete: bool, j: nat)
    requires j < |feeds| && CarryDelays(feeds)
    ensures var now, next := HandleBatch(rows, feeds, complete, j).rows, HandleBatch(rows, feeds, complete, j + 1).rows;
      && |next| == (if Enters(rows, feeds, complete, j) then |now| + 1 else |now|)
      && (forall i :: 0 <= i < |now| ==> next[i].vj == now[i].vj)
      && (Enters(rows, feeds, complete, j) ==> next[|now|].vj == feeds[j].vj)
  {
    hide Handle;
    BatchGrows(rows, feeds, complete, j);
    var b := HandleBatch(rows, feeds, complete, j);
    SameJourneys(rows, b.rows[..|rows|], feeds[j].vj);
    if !b.raised {
      RowsAfterOne(b, |rows|, feeds[j], complete);
    }
  }

  ghost predicate EnteredBefore(rows: seq<Row>, feeds: seq<Row>, complete: bool, k: nat, vj: VehicleJourney)
    requires k <= |feeds| && CarryDelays(feeds)
  {
    exists j :: 0 <= j < k && Enters(rows, feeds, complete, j) && feeds[j].vj == vj
  }

  ghost predicate RowBeyond(rows: seq<Row>, n: nat, vj: VehicleJourney) {
    exists i :: n <= i < |rows| && rows[i].vj == vj
  }

  lemma EnteredNext(rows: seq<Row>, feeds: seq<Row>, complete: bool, k: nat, vj: VehicleJourney)
    requires k < |feeds| && CarryDelays(feeds)
    ensures EnteredBefore(rows, feeds, complete, k + 1, vj) <==>
      EnteredBefore(rows, feeds, complete, k, vj) || (Enters(rows, feeds, complete, k) && feeds[k].vj == vj)
  {
    hide Enters;
  }

  /** The journeys of the new rows are those of the trips that have entered. */
  lemma {:induction false} NewRowsEntered(rows: seq<Row>, feeds: seq<Row>, complete: bool, k: nat, vj: VehicleJourney)
    requires k <= |feeds| && CarryDelays(feeds)
    ensures RowBeyond(HandleBatch(rows, feeds, complete, k).rows, |rows|, vj)
      <==> EnteredBefore(rows, feeds, complete, k, vj)
  {
    hide HandleBatch, Enters, EnteredBefore;
    if k > 0 {
      NewRowsEntered(rows, feeds, complete, k - 1, vj);
      EntryOrNot(rows, feeds, complete, k - 1);
      EnteredNext(rows, feeds, complete, k - 1, vj);
      var before, now := HandleBatch(rows, feeds, complete, k - 1).rows, HandleBatch(rows, feeds, complete, k).rows;
      if RowBeyond(before, |rows|, vj) {
        var i :| |rows| <= i < |before| && before[i].vj == vj;
        assert now[i].vj == vj;
      }
    } else {
      NothingHandled(rows, feeds, complete);
      NoneEntered(rows, feeds, complete, vj);
    }
  }

  lemma NoneEntered(rows: seq<Row>, feeds: seq<Row>, complete: bool, vj: VehicleJourney)
    requires CarryDelays(feeds)
    ensures !EnteredBefore(rows, feeds, complete, 0, vj)
  {
  }

  lemma NothingHandled(rows: seq<Row>, feeds: seq<Row>, complete: bool)
    requires CarryDelays(feeds)
    ensures HandleBatch(rows, feeds, complete, 0) == Batch(rows, [], false)
  {
  }

  lemma OneMoreKey(rows: seq<Row>, now: seq<Row>)
    requires |now| == |rows| + 1 && forall i :: 0 <= i < |rows| ==> now[i].vj == rows[i].vj
    ensures UniqueKeys(now) <==>
      UniqueKeys(rows) && forall i :: 0 <= i < |rows| ==> !SameKey(rows[i].vj, now[|rows|].vj)
  {
  }

  /** The k-th trip's key is new to the first k ones that have entered. */
  ghost predicate NewKey(rows: seq<Row>, feeds: seq<Row>, complete: bool, k: nat)
    requires k < |feeds| && CarryDelays(feeds)
  {
    forall j :: 0 <= j < k && Enters(rows, feeds, complete, j) ==> !SameKey(feeds[j].vj, feeds[k].vj)
  }

  lemma EntrantsDifferNext(rows: seq<Row>, feeds: seq<Row>, complete: bool, k: nat)
    requires k < |feeds| && CarryDelays(feeds)
    ensures EntrantsDiffer(rows, feeds, complete, k + 1) <==>
      EntrantsDiffer(rows, feeds, complete, k)
        && (Enters(rows, feeds, complete, k) ==> NewKey(rows, feeds, complete, k))
  {
    hide Enters;
  }

  /** A trip that enters has a new key exactly when no row has it. */
  lemma NewKeyInRows(rows: seq<Row>, feeds: seq<Row>, complete: bool, k: nat)
    requires k < |feeds| && CarryDelays(feeds) && Enters(rows, feeds, complete, k)
    ensures var now := HandleBatch(rows, feeds, complete, k).rows;
            NewKey(rows, feeds, complete, k) <==> forall i :: 0 <= i < |now| ==> !SameKey(now[i].vj, feeds[k].vj)
  {
    EntersUnknown(rows, feeds, complete, k);
    BatchGrows(rows, feeds, complete, k);
    hide HandleBatch, Enters;
    var now := HandleBatch(rows, feeds, complete, k).rows;
    if NewKey(rows, feeds, complete, k) {
      forall i | |rows| <= i < |now|
        ensures !SameKey(now[i].vj, feeds[k].vj)
      {
        NewRowsEntered(rows, feeds, complete, k, now[i].vj);
      }
    } else {
      var j :| 0 <= j < k && Enters(rows, feeds, complete, j) && SameKey(feeds[j].vj, feeds[k].vj);
      NewRowsEntered(rows, feeds, complete, k, feeds[j].vj);
    }
  }

  /** Keys stay distinct exactly when no two trips of the batch enter under the same key. */
  lemma {:induction false} KeysStayUnique(rows: seq<Row>, feeds: seq<Row>, complete: bool, k: nat)
    requires k <= |feeds| && CarryDelays(feeds) && UniqueKeys(rows)
    ensures UniqueKeys(HandleBatch(rows, feeds, complete, k).rows) <==> EntrantsDiffer(rows, feeds, complete, k)
  {
    hide HandleBatch, Enters, NewKey;
    if k > 0 {
      hide EntrantsDiffer;
      KeysStayUnique(rows, feeds, complete, k - 1);
      EntryOrNot(rows, feeds, complete, k - 1);
      EntrantsDifferNext(rows, feeds, complete, k - 1);
      if Enters(rows, feeds, complete, k - 1) {
        hide UniqueKeys;
        NewKeyInRows(rows, feeds, complete, k - 1);
        OneMoreKey(HandleBatch(rows, feeds, complete, k - 1).rows, HandleBatch(rows, feeds, complete, k).rows);
      }
    } else {
      NothingHandled(rows, feeds, complete);
    }
  }

  lemma EntersUnknown(rows: seq<Row>, feeds: seq<Row>, complete: bool, j: nat)
    requires j < |feeds| && CarryDelays(feeds) && Enters(rows, feeds, complete, j)
    ensures forall i :: 0 <= i < |rows| ==> !SameKey(rows[i].vj, feeds[j].vj)
  {
  }

  /** The rows of journeys that the batch does not mention are left as they are. */
  lemma {:induction false} OtherRowsUntouched(rows: seq<Row>, feeds: seq<Row>, complete: bool, k: nat, i: nat)
    requires k <= |feeds| && CarryDelays(feeds) && i < |rows|
    requires forall j :: 0 <= j < k ==> !SameKey(rows[i].vj, feeds[j].vj)
    ensures HandleBatch(rows, feeds, complete, k).rows[i] == rows[i]
  {
    hide Handle;
    if k > 0 {
      OtherRowsUntouched(rows, feeds, complete, k - 1, i);
    }
  }

  /** Every linked row is publishable and belongs to a trip already handled. */
  ghost predicate LinkedRowsReady(b: Batch, feeds: seq<Row>, k: nat)
    requires k <= |feeds|
  {
    forall l :: 0 <= l < |b.linked| ==>
      (b.linked[l] < |b.rows| && Publishable(b.rows[b.linked[l]].trip)
       && exists j :: 0 <= j < k && SameKey(feeds[j].vj, b.rows[b.linked[l]].vj))
  }

  lemma HandledRow(b: Batch, known: nat, feed: Row, complete: bool)
    requires known <= |b.rows| && UpdatesCarryDelay(feed.trip.stops)
    ensures var r := HandleRow(b, known, feed, complete);
      && (r.linked == b.linked
          || (|r.linked| == |b.linked| + 1 && r.linked[..|b.linked|] == b.linked
              && r.linked[|b.linked|] < |r.rows| && Publishable(r.rows[r.linked[|b.linked|]].trip)
              && SameKey(r.rows[r.linked[|b.linked|]].vj, feed.vj)))
      && (forall i :: 0 <= i < |b.rows| ==> r.rows[i].vj == b.rows[i].vj)
      && (forall i :: 0 <= i < |b.rows| && !SameKey(b.rows[i].vj, feed.vj) ==> r.rows[i] == b.rows[i])
  {
    hide Publishable;
    var i := RowIndex(b.rows[..known], feed.vj);
    var db := if i < known then Some(b.rows[i].trip) else None;
    if Handle(feed.vj, db, feed.trip, complete).linked {
      LinkedIsPublishable(feed.vj, db, feed.trip, complete);
    }
  }

  /** In the published feed every trip has orders 0..n-1 and no missing time or delay. */
  lemma {:induction false} PublishedFeedIsComplete(rows: seq<Row>, feeds: seq<Row>, complete: bool, k: nat)
    requires k <= |feeds| && CarryDelays(feeds) && UniqueKeys(feeds)
    ensures LinkedRowsReady(HandleBatch(rows, feeds, complete, k), feeds, k)
  {
    hide HandleRow, Publishable;
    if k > 0 {
      PublishedFeedIsComplete(rows, feeds, complete, k - 1);
      var before, now := HandleBatch(rows, feeds, complete, k - 1), HandleBatch(rows, feeds, complete, k);
      HandledRow(before, |rows|, feeds[k - 1], complete);
      forall l | 0 <= l < |before.linked|
        ensures before.linked[l] < |before.rows| && Publishable(now.rows[before.linked[l]].trip)
        ensures exists j :: 0 <= j < k && SameKey(feeds[j].vj, now.rows[before.linked[l]].vj)
      {
        var j :| 0 <= j < k - 1 && SameKey(feeds[j].vj, before.rows[before.linked[l]].vj);
        assert !SameKey(feeds[j].vj, feeds[k - 1].vj);
        assert SameKey(feeds[j].vj, now.rows[before.linked[l]].vj);
      }
    }
  }

  // ---------------------------------------------------------------- what the batch links

  /** The trip that these rows hold for a journey. */
  function StoredFor(rows: seq<Row>, vj: VehicleJourney): Option<Trip> {
    var i := RowIndex(rows, vj);
    if i < |rows| then Some(rows[i].trip) else None
  }

  /** What the k-th trip of the batch comes to at its turn. */
  function TurnOf(rows: seq<Row>, feeds: seq<Row>, complete: bool, k: nat): Handled
    requires k < |feeds| && CarryDelays(feeds)
  {
    var stored := StoredFor(HandleBatch(rows, feeds, complete, k).rows[..|rows|], feeds[k].vj);
    Handle(feeds[k].vj, stored, feeds[k].trip, complete)
  }

  /** The k-th trip of the batch is reached and linked. */
  predicate LinksAt(rows: seq<Row>, feeds: seq<Row>, complete: bool, k: nat)
    requires k < |feeds| && CarryDelays(feeds)
  {
    !HandleBatch(rows, feeds, complete, k).raised && TurnOf(rows, feeds, complete, k).linked
  }

  /** No two of the first k trips are linked under the same key. */
  ghost predicate LinkedOnce(rows: seq<Row>, feeds: seq<Row>, complete: bool, k: nat)
    requires k <= |feeds| && CarryDelays(feeds)
  {
    forall i, j :: 0 <= i < j < k && LinksAt(rows, feeds, complete, i) && LinksAt(rows, feeds, complete, j) ==>
      !SameKey(feeds[i].vj, feeds[j].vj)
  }

  /** One of the first k trips is linked under this key. */
  ghost predicate LinkedBefore(rows: seq<Row>, feeds: seq<Row>, complete: bool, k: nat, vj: VehicleJourney)
    requires k <= |feeds| && CarryDelays(feeds)
  {
    exists j :: 0 <= j < k && LinksAt(rows, feeds, complete, j) && SameKey(feeds[j].vj, vj)
  }

  lemma LinkedNext(rows: seq<Row>, feeds: seq<Row>, complete: bool, k: nat, vj: VehicleJourney)
    requires k < |feeds| && CarryDelays(feeds)
    ensures LinkedOnce(rows, feeds, complete, k + 1) <==>
      LinkedOnce(rows, feeds, complete, k)
        && (LinksAt(rows, feeds, complete, k) ==> !LinkedBefore(rows, feeds, complete, k, feeds[k].vj))
    ensures LinkedBefore(rows, feeds, complete, k + 1, vj) <==>
      LinkedBefore(rows, feeds, complete, k, vj) || (LinksAt(rows, feeds, complete, k) && SameKey(feeds[k].vj, vj))
  {
    hide LinksAt;
  }

  lemma NoneLinked(rows: seq<Row>, feeds: seq<Row>, complete: bool, vj: VehicleJourney)
    requires CarryDelays(feeds)
    ensures !LinkedBefore(rows, feeds, complete, 0, vj)
  {
  }

  lemma NoneLinkedTwice(rows: seq<Row>, feeds: seq<Row>, complete: bool)
    requires CarryDelays(feeds)
    ensures LinkedOnce(rows, feeds, complete, 0)
  {
  }

  predicate NoRepeats(linked: seq<nat>) {
    forall i, j :: 0 <= i < j < |linked| ==> linked[i] != linked[j]
  }

  /** Some link is to a row with this key. */
  predicate KeyLinked(b: Batch, vj: VehicleJourney) {
    exists l :: 0 <= l < |b.linked| && b.linked[l] < |b.rows| && SameKey(b.rows[b.linked[l]].vj, vj)
  }

  /** Links are to rows, and every new row is linked. */
  ghost predicate LinksToRows(b: Batch, known: nat) {
    && (forall l :: 0 <= l < |b.linked| ==> b.linked[l] < |b.rows|)
    && (forall i :: known <= i < |b.rows| ==> i in b.linked)
  }

  /** One turn, as far as keys and links are concerned. */
  lemma TurnLinks(rows: seq<Row>, feeds: seq<Row>, complete: bool, k: nat)
    requires k < |feeds| && CarryDelays(feeds)
    ensures var b, next := HandleBatch(rows, feeds, complete, k), HandleBatch(rows, feeds, complete, k + 1);
            var i := RowIndex(rows, feeds[k].vj);
      && |rows| <= |b.rows| <= |next.rows|
      && (forall h :: 0 <= h < |b.rows| ==> next.rows[h].vj == b.rows[h].vj)
      && (forall h :: 0 <= h < |rows| ==> b.rows[h].vj == rows[h].vj)
      && (if LinksAt(rows, feeds, complete, k) then
            if i < |rows| then
              |next.rows| == |b.rows| && next.linked == b.linked + [i]
            else
              |next.rows| == |b.rows| + 1 && next.linked == b.linked + [|b.rows|] &&
              next.rows[|b.rows|].vj == feeds[k].vj
          else |next.rows| == |b.rows| && next.linked == b.linked)
  {
    hide Handle;
    BatchGrows(rows, feeds, complete, k);
    var b := HandleBatch(rows, feeds, complete, k);
    SameJourneys(rows, b.rows[..|rows|], feeds[k].vj);
  }

  lemma LinkAdded(b: Batch, next: Batch, known: nat, i: nat, vj: VehicleJourney)
    requires LinksToRows(b, known) && |b.rows| <= |next.rows|
    requires forall h :: 0 <= h < |b.rows| ==> next.rows[h].vj == b.rows[h].vj
    requires next.linked == b.linked + [i] && i < |next.rows|
    requires |next.rows| == |b.rows| || (|next.rows| == |b.rows| + 1 && i == |b.rows|)
    ensures LinksToRows(next, known)
    ensures KeyLinked(next, vj) <==> KeyLinked(b, vj) || SameKey(next.rows[i].vj, vj)
    ensures NoRepeats(next.linked) <==> NoRepeats(b.linked) && i !in b.linked
  {
    var n := |b.linked|;
    assert next.linked[n] == i && next.linked[..n] == b.linked;
    assert forall l :: 0 <= l < n ==> next.linked[l] == b.linked[l];
    assert forall x :: x in next.linked <==> x in b.linked || x == i;
    if KeyLinked(b, vj) {
      var l :| 0 <= l < n && b.linked[l] < |b.rows| && SameKey(b.rows[b.linked[l]].vj, vj);
      assert SameKey(next.rows[next.linked[l]].vj, vj);
    }
    if SameKey(next.rows[i].vj, vj) {
      assert SameKey(next.rows[next.linked[n]].vj, vj);
    }
  }

  lemma SameLinks(b: Batch, next: Batch, known: nat, vj: VehicleJourney)
    requires LinksToRows(b, known) && |next.rows| == |b.rows| && next.linked == b.linked
    requires forall h :: 0 <= h < |b.rows| ==> next.rows[h].vj == b.rows[h].vj
    ensures LinksToRows(next, known)
    ensures KeyLinked(next, vj) <==> KeyLinked(b, vj)
    ensures UniqueKeys(next.rows) <==> UniqueKeys(b.rows)
  {
  }

  /** The links of a batch are to the keys of the trips linked. */
  lemma {:induction false} LinksFollow(rows: seq<Row>, feeds: seq<Row>, complete: bool, k: nat, vj: VehicleJourney)
    requires k <= |feeds| && CarryDelays(feeds) && UniqueKeys(rows)
    ensures var b := HandleBatch(rows, feeds, complete, k);
      && LinksToRows(b, |rows|)
      && (KeyLinked(b, vj) <==> LinkedBefore(rows, feeds, complete, k, vj))
  {
    hide LinksAt, LinkedBefore, HandleBatch;
    if k > 0 {
      hide KeyLinked, LinksToRows;
      LinksFollow(rows, feeds, complete, k - 1, vj);
      TurnLinks(rows, feeds, complete, k - 1);
      LinkedNext(rows, feeds, complete, k - 1, vj);
      var b, next := HandleBatch(rows, feeds, complete, k - 1), HandleBatch(rows, feeds, complete, k);
      if LinksAt(rows, feeds, complete, k - 1) {
        var i := RowIndex(rows, feeds[k - 1].vj);
        LinkAdded(b, next, |rows|, if i < |rows| then i else |b.rows|, vj);
      } else {
        SameLinks(b, next, |rows|, vj);
      }
    } else {
      NothingHandled(rows, feeds, complete);
      NoneLinked(rows, feeds, complete, vj);
    }
  }

  /** Keys tell rows apart: a row is linked exactly when its key is. */
  lemma KeyTellsRow(b: Batch, known: nat, vj: VehicleJourney, i: nat)
    requires LinksToRows(b, known) && known <= |b.rows| && UniqueKeys(b.rows)
    requires i < |b.rows| && SameKey(b.rows[i].vj, vj)
    ensures i in b.linked <==> KeyLinked(b, vj)
  {
  }

  lemma NewKeyNotLinked(b: Batch, known: nat, vj: VehicleJourney)
    requires LinksToRows(b, known) && known <= |b.rows|
    requires forall i :: 0 <= i < known ==> !SameKey(b.rows[i].vj, vj)
    ensures KeyLinked(b, vj) <==> exists i :: 0 <= i < |b.rows| && SameKey(b.rows[i].vj, vj)
  {
    if i :| 0 <= i < |b.rows| && SameKey(b.rows[i].vj, vj) {
      assert i in b.linked;
      var l :| 0 <= l < |b.linked| && b.linked[l] == i;
    }
  }

  /** Rows keep distinct keys and are linked once each exactly when no two trips are linked under the same key. */
  lemma {:induction false} CommitAccepts(rows: seq<Row>, feeds: seq<Row>, complete: bool, k: nat)
    requires k <= |feeds| && CarryDelays(feeds) && UniqueKeys(rows)
    ensures var b := HandleBatch(rows, feeds, complete, k);
            UniqueKeys(b.rows) && NoRepeats(b.linked) <==> LinkedOnce(rows, feeds, complete, k)
  {
    hide LinksAt, LinkedBefore, LinkedOnce, HandleBatch;
    if k > 0 {
      hide KeyLinked, LinksToRows, UniqueKeys, NoRepeats;
      CommitAccepts(rows, feeds, complete, k - 1);
      var vj := feeds[k - 1].vj;
      LinksFollow(rows, feeds, complete, k - 1, vj);
      LinkedNext(rows, feeds, complete, k - 1, vj);
      TurnLinks(rows, feeds, complete, k - 1);
      var b, next := HandleBatch(rows, feeds, complete, k - 1), HandleBatch(rows, feeds, complete, k);
      if LinksAt(rows, feeds, complete, k - 1) {
        OneMoreLink(rows, b, next, vj);
      } else {
        SameLinks(b, next, |rows|, vj);
      }
    } else {
      NothingHandled(rows, feeds, complete);
      NoneLinkedTwice(rows, feeds, complete);
    }
  }

  lemma OneMoreLink(rows: seq<Row>, b: Batch, next: Batch, vj: VehicleJourney)
    requires LinksToRows(b, |rows|) && |rows| <= |b.rows| <= |next.rows|
    requires forall h :: 0 <= h < |b.rows| ==> next.rows[h].vj == b.rows[h].vj
    requires forall h :: 0 <= h < |rows| ==> b.rows[h].vj == rows[h].vj
    requires var i := RowIndex(rows, vj);
      if i < |rows| then |next.rows| == |b.rows| && next.linked == b.linked + [i]
      else |next.rows| == |b.rows| + 1 && next.linked == b.linked + [|b.rows|] && next.rows[|b.rows|].vj == vj
    ensures UniqueKeys(next.rows) && NoRepeats(next.linked) <==>
      UniqueKeys(b.rows) && NoRepeats(b.linked) && !KeyLinked(b, vj)
  {
    hide KeyLinked, LinksToRows, UniqueKeys, NoRepeats;
    var i := RowIndex(rows, vj);
    LinkAdded(b, next, |rows|, if i < |rows| then i else |b.rows|, vj);
    if i < |rows| {
      SameRowKeys(b.rows, next.rows);
      if UniqueKeys(b.rows) {
        KeyTellsRow(b, |rows|, vj, i);
      }
    } else {
      NewKeyNotLinked(b, |rows|, vj);
      OneMoreKey(b.rows, next.rows);
      NewIndexNotLinked(b, |rows|);
    }
  }

  lemma SameRowKeys(rows: seq<Row>, now: seq<Row>)
    requires |now| == |rows| && forall i :: 0 <= i < |rows| ==> now[i].vj == rows[i].vj
    ensures UniqueKeys(now) <==> UniqueKeys(rows)
  {
  }

  lemma NewIndexNotLinked(b: Batch, known: nat)
    requires LinksToRows(b, known)
    ensures |b.rows| !in b.linked
  {
  }

  // ---------------------------------------------------------------- the commit

  /** How the handling of a feed ends: the rows committed, and the indices of those published. */
  datatype Ending = Ending(rows: seq<Row>, published: seq<nat>, failed: bool)

  /**
   * The commit is refused, and undone, when two rows have the same key or a row is linked twice to the feed; one that
   * follows a raised error keeps what was already handled, but nothing is published then.
   */
  function Close(stored: seq<Row>, b: Batch): Ending {
    if !UniqueKeys(b.rows) || !NoRepeats(b.linked) then Ending(stored, [], true)
    else Ending(b.rows, if b.raised then [] else b.linked, b.raised)
  }

  function Deliver(stored: seq<Row>, d: Delivery): Ending
    requires CarryDelays(d.feeds)
  {
    Close(stored, HandleBatch(stored, d.feeds, d.complete, |d.feeds|))
  }

  /** A delivery fails exactly when a trip raises or two trips are linked under the same key, stored before or not. */
  lemma DeliveryFails(stored: seq<Row>, d: Delivery)
    requires CarryDelays(d.feeds) && UniqueKeys(stored)
    ensures Deliver(stored, d).failed <==>
      || HandleBatch(stored, d.feeds, d.complete, |d.feeds|).raised
      || !LinkedOnce(stored, d.feeds, d.complete, |d.feeds|)
    ensures !LinkedOnce(stored, d.feeds, d.complete, |d.feeds|) ==> Deliver(stored, d) == Ending(stored, [], true)
    ensures Deliver(stored, d).failed ==> Deliver(stored, d).published == []
  {
    CommitAccepts(stored, d.feeds, d.complete, |d.feeds|);
  }

  /** A delivery of the same trip twice, linked both times: nothing is stored, nothing is published. */
  lemma TripLinkedTwiceFailsTheDelivery(stored: seq<Row>, vj: VehicleJourney, first: Trip, second: Trip, complete: bool)
    requires UpdatesCarryDelay(first.stops) && UpdatesCarryDelay(second.stops) && UniqueKeys(stored)
    requires var db := StoredFor(stored, vj); var once := Handle(vj, db, first, complete);
             once.linked && Handle(vj, if db.Some? then once.stored else None, second, complete).linked
    ensures CarryDelays([Row(vj, first), Row(vj, second)])
    ensures Deliver(stored, Delivery([Row(vj, first), Row(vj, second)], complete)) == Ending(stored, [], true)
  {
    hide Handle, LinkedOnce;
    var feeds := [Row(vj, first), Row(vj, second)];
    assert CarryDelays(feeds);
    NothingHandled(stored, feeds, complete);
    BatchGrows(stored, feeds, complete, 1);
    var once := HandleBatch(stored, feeds, complete, 1);
    assert once == HandleRow(Batch(stored, [], false), |stored|, feeds[0], complete);
    SameJourneys(stored, once.rows[..|stored|], vj);
    assert stored[..|stored|] == stored;
    assert LinksAt(stored, feeds, complete, 0) && LinksAt(stored, feeds, complete, 1);
    TwoLinks(stored, feeds, complete);
    DeliveryFails(stored, Delivery(feeds, complete));
  }

  lemma TwoLinks(rows: seq<Row>, feeds: seq<Row>, complete: bool)
    requires |feeds| == 2 && CarryDelays(feeds) && SameKey(feeds[0].vj, feeds[1].vj)
    requires LinksAt(rows, feeds, complete, 0) && LinksAt(rows, feeds, complete, 1)
    ensures !LinkedOnce(rows, feeds, complete, 2)
  {
    hide LinksAt;
  }

  /** The same trip on two days is two trips: both are stored and published. */
  lemma TwoDaysAreTwoTrips(first: Row, second: Row, complete: bool)
    requires UpdatesCarryDelay(first.trip.stops) && UpdatesCarryDelay(second.trip.stops)
    requires first.vj.tripId == second.vj.tripId && first.vj.start != second.vj.start
    requires Handle(first.vj, None, first.trip, complete).linked
      && Handle(second.vj, None, second.trip, complete).linked
    ensures CarryDelays([first, second])
    ensures Deliver([], Delivery([first, second], complete))
            == Ending([Row(first.vj, Handle(first.vj, None, first.trip, complete).stored.value),
                       Row(second.vj, Handle(second.vj, None, second.trip, complete).stored.value)], [0, 1], false)
  {
    hide Handle;
    var feeds := [first, second];
    assert CarryDelays(feeds);
    NothingHandled([], feeds, complete);
    var once, twice := HandleBatch([], feeds, complete, 1), HandleBatch([], feeds, complete, 2);
    assert once == HandleRow(Batch([], [], false), 0, feeds[0], complete);
    assert twice == HandleRow(once, 0, feeds[1], complete);
  }

  // ---------------------------------------------------------------- what is published when keys repeat

  /** The k-th trip of the batch is reached, changes the row of a trip already stored, and is refused. */
  predicate SpoilsAt(rows: seq<Row>, feeds: seq<Row>, complete: bool, k: nat)
    requires k < |feeds| && CarryDelays(feeds)
  {
    var b, feed := HandleBatch(rows, feeds, complete, k), feeds[k];
    var stored := StoredFor(b.rows[..|rows|], feed.vj);
    && !b.raised && stored.Some?
    && MergeRules.Merge(feed.vj, stored, feed.trip, complete).Merged? && !TurnOf(rows, feeds, complete, k).linked
  }

  /** No trip is refused after another one with its key has been linked. */
  ghost predicate NoLateRefusal(rows: seq<Row>, feeds: seq<Row>, complete: bool, k: nat)
    requires k <= |feeds| && CarryDelays(feeds)
  {
    forall i, j :: 0 <= i < j < k && LinksAt(rows, feeds, complete, i) && SpoilsAt(rows, feeds, complete, j) ==>
      !SameKey(feeds[i].vj, feeds[j].vj)
  }

  ghost predicate LinksReady(b: Batch) {
    forall i :: i in b.linked ==> i < |b.rows| && Publishable(b.rows[i].trip)
  }

  /** What handling does to the stops of a stored trip: publishable when linked, not when refused, else untouched. */
  lemma StoredStops(vj: VehicleJourney, db: Trip, feed: Trip, complete: bool)
    requires UpdatesCarryDelay(feed.stops)
    ensures var m, h := MergeRules.Merge(vj, Some(db), feed, complete), Handle(vj, Some(db), feed, complete);
      && (h.linked ==> m.Merged?)
      && (if m.Merged? then Publishable(h.stored.value) <==> h.linked else h.stored.value.stops == db.stops)
  {
    hide MergeRules.Run, MergeRules.Items, Repair;
    var m := MergeRules.Merge(vj, Some(db), feed, complete);
    if m.Merged? {
      RepairKeepsIdentity(m.trip.stops, |m.trip.stops|);
      if !Repaired(m.trip.stops).ok {
        RefusedIsIncomplete(m.trip.stops, |m.trip.stops|);
      }
    }
  }

  lemma TurnStores(rows: seq<Row>, feeds: seq<Row>, complete: bool, k: nat)
    requires k < |feeds| && CarryDelays(feeds)
    ensures var b, next := HandleBatch(rows, feeds, complete, k), HandleBatch(rows, feeds, complete, k + 1);
            var i := RowIndex(rows, feeds[k].vj);
      && |rows| <= |b.rows| <= |next.rows|
      && (forall h :: 0 <= h < |b.rows| && !(h == i < |rows|) ==> next.rows[h] == b.rows[h])
      && (LinksAt(rows, feeds, complete, k) ==>
            var t := if i < |rows| then i else |b.rows|; t < |next.rows| && Publishable(next.rows[t].trip))
      && (SpoilsAt(rows, feeds, complete, k) ==>
            i < |rows| && !LinksAt(rows, feeds, complete, k) && !Publishable(next.rows[i].trip))
      && (i < |rows| && !LinksAt(rows, feeds, complete, k) && !SpoilsAt(rows, feeds, complete, k) ==>
            next.rows[i].trip.stops == b.rows[i].trip.stops)
  {
    hide Handle, MergeRules.Merge, Publishable;
    BatchGrows(rows, feeds, complete, k);
    var b, feed := HandleBatch(rows, feeds, complete, k), feeds[k];
    SameJourneys(rows, b.rows[..|rows|], feed.vj);
    var stored := StoredFor(b.rows[..|rows|], feed.vj);
    if !b.raised {
      if stored.Some? {
        StoredStops(feed.vj, stored.value, feed.trip, complete);
      } else if Handle(feed.vj, None, feed.trip, complete).linked {
        LinkedIsPublishable(feed.vj, None, feed.trip, complete);
      }
    }
  }

  lemma RefusalNext(rows: seq<Row>, feeds: seq<Row>, complete: bool, k: nat)
    requires k < |feeds| && CarryDelays(feeds)
    ensures NoLateRefusal(rows, feeds, complete, k + 1) <==>
      NoLateRefusal(rows, feeds, complete, k)
        && (SpoilsAt(rows, feeds, complete, k) ==> !LinkedBefore(rows, feeds, complete, k, feeds[k].vj))
  {
    hide LinksAt, SpoilsAt;
  }

  /** As long as no trip is linked twice, the linked ones are publishable exactly when none is refused afterwards. */
  lemma {:induction false} LinksReadyExactly(rows: seq<Row>, feeds: seq<Row>, complete: bool, k: nat)
    requires k <= |feeds| && CarryDelays(feeds) && UniqueKeys(rows) && LinkedOnce(rows, feeds, complete, k)
    ensures LinksReady(HandleBatch(rows, feeds, complete, k)) <==> NoLateRefusal(rows, feeds, complete, k)
  {
    hide LinksAt, SpoilsAt, LinkedBefore, LinkedOnce, HandleBatch, Publishable;
    if k > 0 {
      hide KeyLinked, UniqueKeys, LinksToRows, NoLateRefusal;
      var vj := feeds[k - 1].vj;
      LinkedNext(rows, feeds, complete, k - 1, vj);
      LinksReadyExactly(rows, feeds, complete, k - 1);
      CommitAccepts(rows, feeds, complete, k - 1);
      CommitAccepts(rows, feeds, complete, k);
      LinksFollow(rows, feeds, complete, k - 1, vj);
      TurnLinks(rows, feeds, complete, k - 1);
      TurnStores(rows, feeds, complete, k - 1);
      RefusalNext(rows, feeds, complete, k - 1);
      var b, next := HandleBatch(rows, feeds, complete, k - 1), HandleBatch(rows, feeds, complete, k);
      var i := RowIndex(rows, vj);
      if LinksAt(rows, feeds, complete, k - 1) {
        OneMoreReady(b, next, if i < |rows| then i else |b.rows|);
      } else {
        if i < |rows| {
          KeyTellsRow(b, |rows|, vj, i);
        }
        LinksInRows(b, |rows|);
        SameLinksReady(b, next, i);
      }
    } else {
      NothingHandled(rows, feeds, complete);
    }
  }

  lemma LinksInRows(b: Batch, known: nat)
    requires LinksToRows(b, known)
    ensures forall i :: i in b.linked ==> i < |b.rows|
  {
  }

  lemma OneMoreReady(b: Batch, next: Batch, t: nat)
    requires next.linked == b.linked + [t] && NoRepeats(next.linked) && t < |next.rows| && |b.rows| <= |next.rows|
    requires forall i :: i in b.linked ==> i < |b.rows|
    requires forall h :: 0 <= h < |b.rows| && h != t ==> next.rows[h] == b.rows[h]
    requires Publishable(next.rows[t].trip)
    ensures LinksReady(next) <==> LinksReady(b)
  {
    hide Publishable;
    assert next.linked[|b.linked|] == t;
    assert forall l :: 0 <= l < |b.linked| ==> next.linked[l] == b.linked[l];
    assert t !in b.linked;
    assert forall x :: x in next.linked <==> x in b.linked || x == t;
  }

  lemma SameLinksReady(b: Batch, next: Batch, t: nat)
    requires next.linked == b.linked && |b.rows| == |next.rows|
    requires forall i :: i in b.linked ==> i < |b.rows|
    requires forall h :: 0 <= h < |b.rows| && h != t ==> next.rows[h] == b.rows[h]
    ensures t in b.linked && !Publishable(next.rows[t].trip) ==> !LinksReady(next)
    ensures t !in b.linked || next.rows[t].trip.stops == b.rows[t].trip.stops ==> (LinksReady(next) <==> LinksReady(b))
  {
  }

  /**
   * In a batch whose keys may repeat: what is published is complete exactly when no trip of the batch is refused after
   * another one with its key has been linked.
   */
  lemma PublishedExactly(stored: seq<Row>, d: Delivery)
    requires CarryDelays(d.feeds) && UniqueKeys(stored) && !Deliver(stored, d).failed
    ensures var e := Deliver(stored, d);
      (forall i :: i in e.published ==> i < |e.rows| && Publishable(e.rows[i].trip))
      <==> NoLateRefusal(stored, d.feeds, d.complete, |d.feeds|)
  {
    hide HandleBatch, NoLateRefusal, LinkedOnce, Publishable;
    DeliveryFails(stored, d);
    LinksReadyExactly(stored, d.feeds, d.complete, |d.feeds|);
  }

  /** For instance a stored trip named twice, linked and then refused: it is published as the refusal left it. */
  lemma RefusedAfterLinkIsPublished(stored: seq<Row>, vj: VehicleJourney, first: Trip, second: Trip, complete: bool)
    requires UpdatesCarryDelay(first.stops) && UpdatesCarryDelay(second.stops) && UniqueKeys(stored)
    requires StoredFor(stored, vj).Some?
    requires var once := Handle(vj, StoredFor(stored, vj), first, complete);
      && once.linked && MergeRules.Merge(vj, once.stored, second, complete).Merged?
      && !Handle(vj, once.stored, second, complete).linked
    ensures CarryDelays([Row(vj, first), Row(vj, second)])
    ensures var e, i := Deliver(stored, Delivery([Row(vj, first), Row(vj, second)], complete)), RowIndex(stored, vj);
            !e.failed && e.published == [i] && i < |e.rows| && !Publishable(e.rows[i].trip)
  {
    hide Handle, MergeRules.Merge, Publishable, LinkedOnce;
    var feeds := [Row(vj, first), Row(vj, second)];
    assert CarryDelays(feeds);
    NothingHandled(stored, feeds, complete);
    assert stored[..|stored|] == stored;
    var i := RowIndex(stored, vj);
    var once := HandleBatch(stored, feeds, complete, 1);
    assert once == HandleRow(Batch(stored, [], false), |stored|, feeds[0], complete);
    SameJourneys(stored, once.rows[..|stored|], vj);
    StoredStops(vj, once.rows[i].trip, second, complete);
    MergedDoesNotRaise(vj, once.rows[i].trip, second, complete);
    var twice := HandleBatch(stored, feeds, complete, 2);
    assert twice == HandleRow(once, |stored|, feeds[1], complete);
    SameRowKeys(stored, twice.rows);
  }

  lemma MergedDoesNotRaise(vj: VehicleJourney, db: Trip, feed: Trip, complete: bool)
    requires UpdatesCarryDelay(feed.stops) && MergeRules.Merge(vj, Some(db), feed, complete).Merged?
    ensures !Handle(vj, Some(db), feed, complete).raised
  {
    hide MergeRules.Merge;
  }

  // ---------------------------------------------------------------- runs of batches

  /** A feed to handle: its trips and whether its connector sends complete trips. */
  datatype Delivery = Delivery(feeds: seq<Row>, complete: bool)

  ghost predicate Acceptable(deliveries: seq<Delivery>) {
    forall d :: d in deliveries ==> CarryDelays(d.feeds)
  }

  /** The database after the first k deliveries, starting empty. */
  function Database(deliveries: seq<Delivery>, k: nat): seq<Row>
    requires k <= |deliveries| && Acceptable(deliveries)
  {
    if k == 0 then [] else Deliver(Database(deliveries, k - 1), deliveries[k - 1]).rows
  }

  /** A corollary of the unique constraint: over any run, at most one trip is stored for a dated vehicle journey. */
  lemma {:induction false} OneTripPerJourney(deliveries: seq<Delivery>, k: nat)
    requires k <= |deliveries| && Acceptable(deliveries)
    ensures UniqueKeys(Database(deliveries, k))
  {
    hide HandleBatch;
    if k > 0 {
      OneTripPerJourney(deliveries, k - 1);
    }
  }

  /**
   * A run of deliveries that each name a journey once never meets the constraints of the database: only a raised error
   * fails one.
   */
  lemma DistinctDeliveriesCommit(deliveries: seq<Delivery>, k: nat)
    requires k < |deliveries| && Acceptable(deliveries) && UniqueKeys(deliveries[k].feeds)
    ensures var d := deliveries[k]; var b := HandleBatch(Database(deliveries, k), d.feeds, d.complete, |d.feeds|);
            Deliver(Database(deliveries, k), d) == Ending(b.rows, if b.raised then [] else b.linked, b.raised)
  {
    hide HandleBatch, LinksAt;
    OneTripPerJourney(deliveries, k);
    var d := deliveries[k];
    CommitAccepts(Database(deliveries, k), d.feeds, d.complete, |d.feeds|);
  }

  /** Rows of journeys that no later delivery mentions stay as they are, failed deliveries included. */
  lemma {:induction false} UnmentionedRowsStay(deliveries: seq<Delivery>, k: nat, n: nat, i: nat)
    requires k <= n <= |deliveries| && Acceptable(deliveries) && i < |Database(deliveries, k)|
    requires forall m, j :: k <= m < n && 0 <= j < |deliveries[m].feeds| ==>
      !SameKey(Database(deliveries, k)[i].vj, deliveries[m].feeds[j].vj)
    ensures i < |Database(deliveries, n)| && Database(deliveries, n)[i] == Database(deliveries, k)[i]
  {
    hide HandleBatch;
    if k < n {
      UnmentionedRowsStay(deliveries, k, n - 1, i);
      var d := deliveries[n - 1];
      OtherRowsUntouched(Database(deliveries, n - 1), d.feeds, d.complete, |d.feeds|, i);
    }
  }
}
