/** The repair pass on the mutable records (kirin/core/build_wrapper.py:64-151). */
module Consistency {
  import opened Basics
  import opened StopTimes
  import opened RepairRules
  import opened RepairLaws

  /** Fills what is missing in one stop; false when there is no time to give it. */
  method FillStop(stu: StopTimeUpdate, prev: Option<Point>) returns (filled: bool)
    modifies stu
    ensures filled <==> Filled(prev, old(stu.View())).Some?
    ensures stu.View() == Filled(prev, old(stu.View())).GetOr(old(stu.View()))
  {
    if stu.arrival.None? {
      stu.arrival := stu.departure;
      if stu.arrival.None? && prev.Some? {
        stu.arrival := Some(prev.value.time);
      }
      if stu.arrival.None? {
        return false;
      }
      if !Truthy(stu.arrivalDelay) && Truthy(stu.departureDelay) {
        stu.arrivalDelay := stu.departureDelay;
      }
    }
    if stu.departure.None? {
      stu.departure := stu.arrival;
      if !Truthy(stu.departureDelay) && Truthy(stu.arrivalDelay) {
        stu.departureDelay := stu.arrivalDelay;
      }
    }
    if stu.arrivalDelay.None? {
      stu.arrivalDelay := Some(0);
    }
    if stu.departureDelay.None? {
      stu.departureDelay := Some(0);
    }
    return true;
  }

  /** Propagates the delay of the last served event to a stop whose events would come before it. */
  method PushStop(stu: StopTimeUpdate, prev: Option<Point>) returns (last: Option<Point>)
    requires Timed(stu.View())
    modifies stu
    ensures var s := old(stu.View());
            var arr := Pushed(prev, s.arr); var dep := Pushed(Last(prev, arr), s.dep);
            stu.View() == s.(arr := arr, dep := dep) && last == Last(Last(prev, arr), dep)
  {
    last := prev;
    if !stu.View().arr.Deleted() {
      if last.Some? && last.value.time > stu.arrival.value {
        var delayDiff := last.value.delay - stu.arrivalDelay.value;
        stu.arrivalDelay := Some(stu.arrivalDelay.value + delayDiff);
        stu.arrival := Some(stu.arrival.value + delayDiff);
      }
      last := Some(Point(stu.arrival.value, stu.arrivalDelay.value));
    }
    if !stu.View().dep.Deleted() {
      if last.Some? && last.value.time > stu.departure.value {
        var delayDiff := last.value.delay - stu.departureDelay.value;
        stu.departureDelay := Some(stu.departureDelay.value + delayDiff);
        stu.departure := Some(stu.departure.value + delayDiff);
      }
      last := Some(Point(stu.departure.value, stu.departureDelay.value));
    }
  }

  lemma RefusedByOrder(p: Pass, s: Stop)
    requires s.order != Some(|p.stops|)
    ensures Inspect(p, s) == Pass(false, p.prev, p.stops + [s])
  {
  }

  /** One turn of the pass on a stop in its place: refuses it, leaving it as it is, or fills and pushes it. */
  method InspectStop(stu: StopTimeUpdate, ghost p: Pass, order: nat, prev: Option<Point>)
    returns (accepted: bool, last: Option<Point>)
    requires p.ok && |p.stops| == order && p.prev == prev && stu.order == Some(order)
    modifies stu
    ensures Inspect(p, old(stu.View())) == Pass(accepted, last, p.stops + [stu.View()])
    ensures !accepted ==> stu.View() == old(stu.View())
    ensures stu.order == old(stu.order)
  {
    var filled := FillStop(stu, prev);
    if !filled {
      return false, prev;
    }
    accepted := true;
    last := PushStop(stu, prev);
  }

  predicate Distinct(list: seq<StopTimeUpdate>) {
    forall i, j :: 0 <= i < j < |list| ==> list[i] != list[j]
  }

  /** Once a stop is refused, the pass leaves it and every later stop as they are. */
  lemma {:induction false} RefusedFrom(stops: seq<Stop>, i: nat, k: nat)
    requires i < k <= |stops| && !Repair(stops, i + 1).ok
      && Repair(stops, i + 1).stops == Repair(stops, i).stops + [stops[i]]
    ensures !Repair(stops, k).ok && Repair(stops, k).stops == Repair(stops, i).stops + stops[i..k]
  {
    if i + 1 < k {
      RefusedFrom(stops, i, k - 1);
      assert stops[i..k] == stops[i..k - 1] + [stops[k - 1]];
    } else {
      assert stops[i..k] == [stops[i]];
    }
  }

  /** The first i records are repaired, and those never visited (aliases of visited ones apart) are as in the input. */
  ghost predicate Halfway(list: seq<StopTimeUpdate>, input: seq<Stop>, i: nat, visited: set<StopTimeUpdate>)
    requires |list| == |input| && i <= |list|
    reads list
  {
    && Repair(input, i).ok
    && (forall j :: 0 <= j < |list| ==> list[j].order == input[j].order)
    && (forall j :: 0 <= j < i ==> list[j] in visited && list[j].View() == Repair(input, i).stops[j])
    && (forall j :: i <= j < |list| && list[j] !in visited ==> list[j].View() == input[j])
    && (forall j :: i <= j < |list| && input[j].order == Some(j) ==> list[j] !in visited)
    && (Distinct(list) ==> forall j :: i <= j < |list| ==> list[j] !in visited)
  }

  /** One iteration of the loop. */
  method Turn(list: seq<StopTimeUpdate>, i: nat, prev: Option<Point>, ghost input: seq<Stop>,
              ghost visited: set<StopTimeUpdate>)
    returns (accepted: bool, last: Option<Point>)
    requires |list| == |input| && i < |list| && Halfway(list, input, i, visited) && prev == Repair(input, i).prev
    modifies list[i]
    ensures accepted ==> Halfway(list, input, i + 1, visited + {list[i]}) && last == Repair(input, i + 1).prev
    ensures !accepted ==>
      && Halfway(list, input, i, visited) && !Repair(input, i + 1).ok
      && Repair(input, i + 1).stops == Repair(input, i).stops + [input[i]]
  {
    hide Inspect;
    var stu := list[i];
    if stu.order != Some(i) {
      RefusedByOrder(Repair(input, i), input[i]);
      return false, prev;
    }
    RepairPrefix(input, i, i + 1);
    accepted, last := InspectStop(stu, Repair(input, i), i, prev);
    assert forall j :: 0 <= j < |list| && list[j] == stu ==> input[j].order == Some(i);
  }

  lemma HalfwayViews(list: seq<StopTimeUpdate>, input: seq<Stop>, i: nat, visited: set<StopTimeUpdate>)
    requires |list| == |input| && i <= |list| && Halfway(list, input, i, visited)
    requires Distinct(list) || i == |list|
    ensures Views(list) == Repair(input, i).stops + input[i..]
  {
  }

  /**
   * manage_consistency: accepts and repairs the trip in place as the rules say; a refusal stops at the refused stop.
   */
  method ManageConsistency(trip: TripUpdate) returns (ok: bool)
    modifies trip.stops
    ensures ok <==> Repaired(old(Views(trip.stops))).ok
    ensures ok || Distinct(trip.stops) ==> Views(trip.stops) == Repaired(old(Views(trip.stops))).stops
  {
    hide Inspect, Repair;
    ghost var input := Views(trip.stops);
    ghost var visited: set<StopTimeUpdate> := {};
    var prev: Option<Point> := None;
    var i := 0;
    EmptyPass(input);
    while i < |trip.stops|
      invariant 0 <= i <= |trip.stops|
      invariant Halfway(trip.stops, input, i, visited) && prev == Repair(input, i).prev
    {
      hide Halfway;
      var accepted;
      accepted, prev := Turn(trip.stops, i, prev, input, visited);
      if !accepted {
        RefusedFrom(input, i, |input|);
        if Distinct(trip.stops) {
          HalfwayViews(trip.stops, input, i, visited);
        }
        return false;
      }
      visited := visited + {trip.stops[i]};
      i := i + 1;
    }
    HalfwayViews(trip.stops, input, i, visited);
    return true;
  }

  lemma EmptyPass(input: seq<Stop>)
    ensures Repair(input, 0) == Pass(true, None, [])
  {
  }
}
