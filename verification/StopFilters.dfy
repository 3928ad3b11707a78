/** The stop filters of the COTS and PIV connectors. */
module StopFilters {
  import opened Basics
  import opened StopTimes
  import opened Sorting
  import opened StopWindow

  // ---------------------------------------------------------------- COTS (kirin/cots/model_maker.py:138-190)

  datatype EventStatus = Unspecified | Reactivation | Suppression | DetourSuppression | Creation | Detour | Unknown

  /** horaireVoyageur...: status, base datetime and projected delay of an arrival or departure. */
  datatype TravellerTime = TravellerTime(status: EventStatus, base: Option<int>, delay: Option<int>)

  /** A "Point de Parcours"; `point` is the stop point it resolves to, if any. */
  datatype Pdp = Pdp(rank: int, stopType: Option<string>, point: Option<StopId>, message: Option<string>,
                     arr: Option<TravellerTime>, dep: Option<TravellerTime>)

  predicate IsStation(p: Pdp) {
    p.stopType.None? || p.stopType.value in ["", "CD", "CH", "FD", "FH"]
  }

  /** A station has no type, an empty one, or one of two letters: C or F, then D or H. */
  lemma StationTypes(p: Pdp)
    ensures IsStation(p) <==>
      || p.stopType.None? || p.stopType.value == ""
      || (|p.stopType.value| == 2 && p.stopType.value[0] in "CF" && p.stopType.value[1] in "DH")
  {
    if p.stopType.Some? && |p.stopType.value| == 2 && p.stopType.value[0] in "CF" && p.stopType.value[1] in "DH" {
      assert p.stopType.value == [p.stopType.value[0], p.stopType.value[1]];
      assert ["CD", "CH", "FD", "FH"] == [['C', 'D'], ['C', 'H'], ['F', 'D'], ['F', 'H']];
    }
  }

  predicate CanBoard(p: Pdp) {
    IsStation(p) && p.dep.Some?
  }

  predicate CanAlight(p: Pdp) {
    IsStation(p) && p.arr.Some?
  }

  function Rank(p: Pdp): int {
    p.rank
  }

  /** The loop of the filter: skips, keeps and breaks in one pass. */
  method RetrieveInterestingPdp(list: seq<Pdp>) returns (res: seq<Pdp>)
    ensures res == Window(SortBy(list, Rank), CanBoard, CanAlight)
  {
    hide Picked, Window, Useful, FirstIndex, EndIndex, IsStation;
    var sorted := SortBy(list, Rank);
    res := [];
    var pickedOne := false;
    NothingPicked(sorted, CanBoard, CanAlight);
    for idx := 0 to |sorted|
      invariant pickedOne <==> FirstIndex(sorted, CanBoard) < idx
      invariant Picked(sorted, CanBoard, CanAlight, idx, res)
    {
      var pdp := sorted[idx];
      if !pickedOne && pdp.dep.None? {
        PickNothing(sorted, CanBoard, CanAlight, idx, res);
        continue;
      }
      if !IsStation(pdp) {
        PickNothing(sorted, CanBoard, CanAlight, idx, res);
        continue;
      }
      if pdp.dep.None? && pdp.arr.None? {
        PickNothing(sorted, CanBoard, CanAlight, idx, res);
        continue;
      }
      if pdp.arr.None? {
        var hasFollowingArrival := exists s :: s in sorted[idx..] && CanAlight(s);
        if !hasFollowingArrival {
          assert forall i :: idx <= i < |sorted| ==> sorted[i] in sorted[idx..];
          PickingStops(sorted, CanBoard, CanAlight, idx, res);
          return;
        }
      }
      PickOne(sorted, CanBoard, CanAlight, idx, res);
      pickedOne := true;
      res := res + [pdp];
    }
    PickingStops(sorted, CanBoard, CanAlight, |sorted|, res);
  }

  // ---------------------------------------------------------------- PIV (kirin/piv/model_maker.py:108-154)

  /** An "arret desserte": which events it has and which ones are forbidden to travellers. */
  datatype PivStop = PivStop(rank: int, code: string, depart: bool, arrivee: bool, boardingForbidden: bool,
                             alightingForbidden: bool)

  predicate HasDeparture(s: PivStop) {
    s.depart && !s.boardingForbidden
  }

  predicate HasArrival(s: PivStop) {
    s.arrivee && !s.alightingForbidden
  }

  function PivRank(s: PivStop): int {
    s.rank
  }

  method RetrieveInterestingStops(list: seq<PivStop>) returns (res: seq<PivStop>)
    ensures res == Window(SortBy(list, PivRank), HasDeparture, HasArrival)
  {
    hide Picked, Window, Useful, FirstIndex, EndIndex;
    var sorted := SortBy(list, PivRank);
    res := [];
    var pickedOne := false;
    NothingPicked(sorted, HasDeparture, HasArrival);
    for idx := 0 to |sorted|
      invariant pickedOne <==> FirstIndex(sorted, HasDeparture) < idx
      invariant Picked(sorted, HasDeparture, HasArrival, idx, res)
    {
      var stop := sorted[idx];
      if !pickedOne && !HasDeparture(stop) {
        PickNothing(sorted, HasDeparture, HasArrival, idx, res);
        continue;
      }
      if !HasDeparture(stop) && !HasArrival(stop) {
        PickNothing(sorted, HasDeparture, HasArrival, idx, res);
        continue;
      }
      if !HasArrival(stop) {
        var hasFollowingArrival := exists s :: s in sorted[idx..] && HasArrival(s);
        if !hasFollowingArrival {
          assert forall i :: idx <= i < |sorted| ==> sorted[i] in sorted[idx..];
          PickingStops(sorted, HasDeparture, HasArrival, idx, res);
          return;
        }
      }
      PickOne(sorted, HasDeparture, HasArrival, idx, res);
      pickedOne := true;
      res := res + [stop];
    }
    PickingStops(sorted, HasDeparture, HasArrival, |sorted|, res);
  }

  // ---------------------------------------------------------------- what both filters guarantee

  /** Stop i of a sorted COTS list: boarded at b, no later, and alighted at a, no earlier. */
  predicate BetweenPdps(sorted: seq<Pdp>, b: int, i: int, a: int) {
    && 0 <= b <= i <= a < |sorted|
    && IsStation(sorted[b]) && sorted[b].dep.Some? && IsStation(sorted[a]) && sorted[a].arr.Some?
  }

  /** A COTS stop is kept exactly when it is a station with a time, boarded somewhere no later, alighted no earlier. */
  lemma KeptPdps(list: seq<Pdp>, p: Pdp)
    ensures var sorted := SortBy(list, Rank);
      p in Window(sorted, CanBoard, CanAlight) <==>
        && IsStation(p) && (p.arr.Some? || p.dep.Some?)
        && exists b, i, a :: BetweenPdps(sorted, b, i, a) && sorted[i] == p
  {
    var sorted := SortBy(list, Rank);
    WindowContents(sorted, CanBoard, CanAlight, p);
    hide IsStation, Window, SortBy;
    if i :| 0 <= i < |sorted| && sorted[i] == p && Reachable(sorted, CanBoard, CanAlight, i) {
      var b :| 0 <= b <= i && CanBoard(sorted[b]);
      var a :| i <= a < |sorted| && CanAlight(sorted[a]);
      assert BetweenPdps(sorted, b, i, a);
    }
    if (CanBoard(p) || CanAlight(p)) && exists b, i, a :: BetweenPdps(sorted, b, i, a) && sorted[i] == p {
      var b, i, a :| BetweenPdps(sorted, b, i, a) && sorted[i] == p;
      assert CanBoard(sorted[b]) && CanAlight(sorted[a]) && Reachable(sorted, CanBoard, CanAlight, i);
    }
  }

  /** The same in a sorted PIV list, where a forbidden boarding or alighting does not count. */
  predicate BetweenPivStops(sorted: seq<PivStop>, b: int, i: int, a: int) {
    && 0 <= b <= i <= a < |sorted|
    && sorted[b].depart && !sorted[b].boardingForbidden && sorted[a].arrivee && !sorted[a].alightingForbidden
  }

  lemma KeptPivStops(list: seq<PivStop>, s: PivStop)
    ensures var sorted := SortBy(list, PivRank);
      s in Window(sorted, HasDeparture, HasArrival) <==>
        && ((s.depart && !s.boardingForbidden) || (s.arrivee && !s.alightingForbidden))
        && exists b, i, a :: BetweenPivStops(sorted, b, i, a) && sorted[i] == s
  {
    var sorted := SortBy(list, PivRank);
    WindowContents(sorted, HasDeparture, HasArrival, s);
    hide Window, SortBy;
    if i :| 0 <= i < |sorted| && sorted[i] == s && Reachable(sorted, HasDeparture, HasArrival, i) {
      var b :| 0 <= b <= i && HasDeparture(sorted[b]);
      var a :| i <= a < |sorted| && HasArrival(sorted[a]);
      assert BetweenPivStops(sorted, b, i, a);
    }
    if (HasDeparture(s) || HasArrival(s)) && exists b, i, a :: BetweenPivStops(sorted, b, i, a) && sorted[i] == s {
      var b, i, a :| BetweenPivStops(sorted, b, i, a) && sorted[i] == s;
      assert HasDeparture(sorted[b]) && HasArrival(sorted[a]) && Reachable(sorted, HasDeparture, HasArrival, i);
    }
  }

  /** Both filters return their stops by increasing rank. */
  lemma RanksAscend(pdps: seq<Pdp>, stops: seq<PivStop>)
    ensures var kept := Window(SortBy(pdps, Rank), CanBoard, CanAlight);
            forall i, j :: 0 <= i < j < |kept| ==> kept[i].rank <= kept[j].rank
    ensures var kept := Window(SortBy(stops, PivRank), HasDeparture, HasArrival);
            forall i, j :: 0 <= i < j < |kept| ==> kept[i].rank <= kept[j].rank
  {
    hide Window, SortBy;
    FilterIsFixed(pdps, CanBoard, CanAlight, Rank);
    FilterIsFixed(stops, HasDeparture, HasArrival, PivRank);
    assert forall p: Pdp {:trigger p.rank} :: Rank(p) == p.rank;
    assert forall s: PivStop {:trigger s.rank} :: PivRank(s) == s.rank;
  }

  /** A window keeps the order it is cut from. */
  lemma {:induction false} UsefulIsSorted<T(!new)>(xs: seq<T>, board: T -> bool, alight: T -> bool, key: T -> int)
    requires SortedBy(xs, key)
    ensures SortedBy(Useful(xs, board, alight), key)
  {
    if xs != [] {
      UsefulIsSorted(xs[..|xs| - 1], board, alight, key);
      var before := Useful(xs[..|xs| - 1], board, alight);
      UsefulMembers(xs[..|xs| - 1], board, alight);
      forall x | x in before
        ensures key(x) <= key(xs[|xs| - 1])
      {
        var i :| 0 <= i < |xs| - 1 && xs[i] == x;
      }
    }
  }

  /**
   * Filtering a filtered list changes nothing; a non-empty one is sorted, starts with a boarding and ends with an
   * alighting.
   */
  lemma FilterIsFixed<T(!new)>(list: seq<T>, board: T -> bool, alight: T -> bool, key: T -> int)
    ensures var once := Window(SortBy(list, key), board, alight);
            && Window(SortBy(once, key), board, alight) == once
            && SortedBy(once, key)
            && (once != [] ==> board(once[0]) && alight(once[|once| - 1]))
  {
    var sorted := SortBy(list, key);
    var first, end := FirstIndex(sorted, board), EndIndex(sorted, alight);
    if first < end {
      UsefulIsSorted(sorted[first..end], board, alight, key);
    }
    SortedIsFixed(Window(sorted, board, alight), key);
    WindowIsFixed(sorted, board, alight);
    WindowEnds(sorted, board, alight);
  }
}
