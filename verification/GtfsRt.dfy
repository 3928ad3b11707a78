/** GTFS-RT: aligning the feed with the end of the base stop list (kirin/gtfs_rt/model_maker.py:129-194, 260-296). */
module GtfsRt {
  import opened Basics
  import opened StopTimes
  import opened MergeRules
  import opened MergeLaws
  import opened FeedLaws
  import opened RepairRules
  import opened RepairLaws
  import opened Midnight
  import opened Handling

  datatype Code = Code(kind: string, value: string)

  /** A Navitia stop point with its external codes. */
  datatype StopPoint = StopPoint(id: StopId, codes: seq<Code>)

  /** A Navitia stop time, whose stop point may be missing. */
  datatype NavitiaStop = NavitiaStop(point: Option<StopPoint>)

  const CODE_KIND: string := "source"

  /** The first code of the expected kind. */
  function StopCode(codes: seq<Code>): Option<string> {
    if codes == [] then None
    else if codes[0].kind == CODE_KIND then Some(codes[0].value)
    else StopCode(codes[1..])
  }

  /** The i-th code is of kind "source", has this value, and none before it is of that kind. */
  ghost predicate FirstSource(codes: seq<Code>, i: nat, v: string) {
    && i < |codes| && codes[i].kind == "source" && codes[i].value == v
    && forall k :: 0 <= k < i ==> codes[k].kind != "source"
  }

  /** The value of the first code of kind "source"; there is none exactly when no code is of that kind. */
  lemma {:induction false} StopCodeIsFirstSource(codes: seq<Code>, v: string)
    ensures StopCode(codes) == Some(v) <==> exists i :: FirstSource(codes, i, v)
    ensures StopCode(codes).None? <==> forall i :: 0 <= i < |codes| ==> codes[i].kind != "source"
  {
    if codes != [] {
      var rest := codes[1..];
      if codes[0].kind == "source" {
        assert codes[0].value == v ==> FirstSource(codes, 0, v);
      } else {
        StopCodeIsFirstSource(rest, v);
        if i: nat :| FirstSource(codes, i, v) {
          assert FirstSource(rest, i - 1, v);
        }
        if i: nat :| FirstSource(rest, i, v) {
          assert forall k :: 0 < k <= i ==> codes[k] == rest[k - 1];
          assert FirstSource(codes, i + 1, v);
        }
      }
    }
  }

  /** The first "source" code of a stop point has this value. */
  ghost predicate Bears(point: StopPoint, v: string) {
    exists i :: FirstSource(point.codes, i, v)
  }

  /**
   * The alignment accepts a trip exactly when all its stops have a stop point and the last ones bear the feed's codes.
   */
  lemma AcceptedOnCodes(base: seq<NavitiaStop>, feed: seq<FeedStop>)
    ensures IsSuffix(base, feed) <==>
      && |feed| <= |base|
      && (forall i :: 0 <= i < |base| ==> base[i].point.Some?)
      && forall j {:trigger feed[j]} :: 0 <= j < |feed| ==>
           Bears(base[|base| - |feed| + j].point.value, feed[j].stopId)
  {
    hide StopCode, Bears;
    forall p: StopPoint, v: string
      ensures StopCode(p.codes) == Some(v) <==> Bears(p, v)
    {
      BearsItsCode(p, v);
    }
  }

  lemma BearsItsCode(p: StopPoint, v: string)
    ensures StopCode(p.codes) == Some(v) <==> Bears(p, v)
  {
    StopCodeIsFirstSource(p.codes, v);
  }

  /** An element of stop_time_update in a TripUpdate message; an absent delay reads as zero. */
  class FeedStop {
    const stopId: string
    const arrivalDelay: int
    const departureDelay: int
    var stopSequence: int

    constructor (stopId: string, arrivalDelay: int, departureDelay: int)
      ensures this.stopId == stopId && this.arrivalDelay == arrivalDelay && this.departureDelay == departureDelay
    {
      this.stopId, this.arrivalDelay, this.departureDelay := stopId, arrivalDelay, departureDelay;
    }
  }

  /** read_delay and the status it gives: a zero delay is no news. */
  function FeedEvent(delay: int): Event {
    if delay == 0 then Event(None, None, NoChange) else Event(None, Some(delay), Update)
  }

  function FromFeed(s: FeedStop, id: StopId, order: int): Stop {
    Stop(id, Some(order), None, FeedEvent(s.arrivalDelay), FeedEvent(s.departureDelay))
  }

  function Untouched(id: StopId, order: int): Stop {
    Stop(id, Some(order), None, Event(None, None, NoChange), Event(None, None, NoChange))
  }

  /** Every base stop has a stop point and the feed's stop codes are those of the last base stops. */
  predicate IsSuffix(base: seq<NavitiaStop>, feed: seq<FeedStop>) {
    && |feed| <= |base|
    && (forall i :: 0 <= i < |base| ==> base[i].point.Some?)
    && forall j {:trigger feed[j]} :: 0 <= j < |feed| ==>
         StopCode(base[|base| - |feed| + j].point.value.codes) == Some(feed[j].stopId)
  }

  /** The entry of the i-th base stop: from the feed if it reaches that far back from the end, else untouched. */
  function EntryFor(base: seq<NavitiaStop>, feed: seq<FeedStop>, i: nat): Stop
    requires i < |base| && base[i].point.Some?
  {
    var id, j := base[i].point.value.id, i - (|base| - |feed|);
    if 0 <= j < |feed| then FromFeed(feed[j], id, i) else Untouched(id, i)
  }

  function Entries(base: seq<NavitiaStop>, feed: seq<FeedStop>): (r: seq<Stop>)
    requires IsSuffix(base, feed)
    ensures |r| == |base|
  {
    seq(|base|, i requires 0 <= i < |base| => EntryFor(base, feed, i))
  }

  // ---------------------------------------------------------------- the effect of the trip

  function StatusRank(s: Status): nat {
    match s
    case NoChange => 0
    case Update => 1
    case Add => 2
    case Delete => 3
    case AddedForDetour => 4
    case DeletedForDetour => 5
  }

  function HigherStatus(s: Status, t: Status): Status {
    if StatusRank(s) < StatusRank(t) then t else s
  }

  /** The highest status of any event of some stops, departure before arrival. */
  function HighestStatus(stops: seq<Stop>): Status {
    if stops == [] then NoChange
    else
      var s := stops[|stops| - 1];
      HigherStatus(HigherStatus(HighestStatus(stops[..|stops| - 1]), s.dep.status), s.arr.status)
  }

  function EffectOf(s: Status): Effect {
    match s
    case NoChange => UnknownEffect
    case Update => SignificantDelays
    case Add => ModifiedService
    case Delete => ReducedService
    case AddedForDetour | DeletedForDetour => Detour
  }

  /** The statuses from the least to the most important, each with the effect a trip has when it is the highest. */
  lemma StatusTable()
    ensures var statuses := [NoChange, Update, Add, Delete, AddedForDetour, DeletedForDetour];
            var effects := [UnknownEffect, SignificantDelays, ModifiedService, ReducedService, Effect.Detour,
                            Effect.Detour];
      && (forall i, j :: 0 <= i < 6 && 0 <= j < 6 ==>
          HigherStatus(statuses[i], statuses[j]) == statuses[if i < j then j else i])
      && (forall i :: 0 <= i < 6 ==> EffectOf(statuses[i]) == effects[i])
  {
  }

  /** A feed's effect: significant delays exactly when some arrival or departure delay is not zero, else unknown. */
  lemma EffectOfDelays(feed: seq<FeedStop>)
    ensures FeedEffect(feed) == SignificantDelays <==>
      exists j :: 0 <= j < |feed| && (feed[j].arrivalDelay != 0 || feed[j].departureDelay != 0)
    ensures FeedEffect(feed) != SignificantDelays ==> FeedEffect(feed) == UnknownEffect
  {
    if j :| 0 <= j < |feed| && (feed[j].arrivalDelay != 0 || feed[j].departureDelay != 0) {
      assert feed[j] in feed && BringsDelay(feed[j]);
    }
  }

  /**
   * The entry of a base stop: its id and position, no time of its own, and an update with the delay sent, if not zero.
   */
  lemma EntryBySide(base: seq<NavitiaStop>, feed: seq<FeedStop>, i: nat, side: Side)
    requires IsSuffix(base, feed) && i < |base|
    ensures var s := Entries(base, feed)[i]; var e, j := s.At(side), i - (|base| - |feed|);
            var delay := if j < 0 then 0 else if side == Arrival then feed[j].arrivalDelay else feed[j].departureDelay;
      && s.id == base[i].point.value.id && s.order == Some(i) && s.message == None && e.time == None
      && (if delay == 0 then e.status == NoChange && e.delay == None else e.status == Update && e.delay == Some(delay))
  {
    hide StopCode;
  }

  predicate SomeDelay(feed: seq<FeedStop>) {
    exists s :: s in feed && BringsDelay(s)
  }

  predicate BringsDelay(s: FeedStop) {
    s.arrivalDelay != 0 || s.departureDelay != 0
  }

  predicate HasUpdate(s: Stop) {
    s.arr.status == Update || s.dep.status == Update
  }

  /** The feed is about delays exactly when it brings one. */
  function FeedEffect(feed: seq<FeedStop>): Effect {
    if SomeDelay(feed) then SignificantDelays else UnknownEffect
  }

  lemma HighestNext(stops: seq<Stop>, s: Stop)
    ensures HighestStatus(stops + [s]) == HigherStatus(HigherStatus(HighestStatus(stops), s.dep.status), s.arr.status)
  {
    assert (stops + [s])[..|stops|] == stops;
  }

  lemma {:induction false} HighestOfUpdates(stops: seq<Stop>)
    requires forall s :: s in stops ==> s.arr.status in {NoChange, Update} && s.dep.status in {NoChange, Update}
    ensures HighestStatus(stops) == 
              if exists s :: s in stops && HasUpdate(s) then Update else NoChange
  {
    if stops != [] {
      var before, last := stops[..|stops| - 1], stops[|stops| - 1];
      HighestOfUpdates(before);
      assert (exists s :: s in stops && HasUpdate(s))
        <==> (exists s :: s in before && HasUpdate(s)) || HasUpdate(last) by {
        assert forall s :: s in stops <==> s in before || s == last;
      }
    }
  }

  /** The highest status of the entries walked tells whether the feed brings a delay. */
  lemma EffectOfWalk(base: seq<NavitiaStop>, feed: seq<FeedStop>)
    requires |feed| <= |base| && MatchesSoFar(base, feed, |base|)
    ensures EffectOf(HighestStatus(Walked(base, feed, |base|))) == FeedEffect(feed)
  {
    hide StopCode, EntryFor, IsSuffix;
    var walked := Walked(base, feed, |base|);
    forall h | 0 <= h < |base|
      ensures base[|base| - 1 - h].point.Some? && walked[h] == EntryFor(base, feed, |base| - 1 - h)
      ensures walked[h].arr.status in {NoChange, Update} && walked[h].dep.status in {NoChange, Update}
      ensures HasUpdate(walked[h]) <==> h < |feed| && BringsDelay(feed[|feed| - 1 - h])
    {
      EntryHasUpdate(base, feed, |base| - 1 - h);
    }
    HighestOfUpdates(walked);
    forall s | s in feed && BringsDelay(s)
      ensures exists e :: e in walked && HasUpdate(e)
    {
      var j :| 0 <= j < |feed| && feed[j] == s;
      assert HasUpdate(walked[|feed| - 1 - j]);
    }
  }

  lemma EntryHasUpdate(base: seq<NavitiaStop>, feed: seq<FeedStop>, i: nat)
    requires |feed| <= |base| && i < |base| && base[i].point.Some?
    ensures var e, j := EntryFor(base, feed, i), i - (|base| - |feed|);
      && e.arr.status in {NoChange, Update} && e.dep.status in {NoChange, Update}
      && (HasUpdate(e) <==> 0 <= j && BringsDelay(feed[j]))
  {
  }

  // ---------------------------------------------------------------- sorting the entries back by order

  function InsertByOrder(x: StopTimeUpdate, xs: seq<StopTimeUpdate>): (r: seq<StopTimeUpdate>)
    reads x, xs
    ensures forall i :: 0 <= i < |r| ==> r[i] == x || r[i] in xs
  {
    if xs == [] || x.order.GetOr(0) <= xs[0].order.GetOr(0) then [x] + xs
    else [xs[0]] + InsertByOrder(x, xs[1..])
  }

  function SortByOrder(xs: seq<StopTimeUpdate>): (r: seq<StopTimeUpdate>)
    reads xs
    ensures forall i :: 0 <= i < |r| ==> r[i] in xs
  {
    if xs == [] then [] else InsertByOrder(xs[0], SortByOrder(xs[1..]))
  }

  function Reversed(xs: seq<StopTimeUpdate>): (r: seq<StopTimeUpdate>)
    ensures |r| == |xs| && forall i :: 0 <= i < |xs| ==> r[i] == xs[|xs| - 1 - i]
  {
    if xs == [] then [] else Reversed(xs[1..]) + [xs[0]]
  }

  /** An element larger than all others is inserted last. */
  lemma {:induction false} LargestGoesLast(x: StopTimeUpdate, xs: seq<StopTimeUpdate>)
    requires forall y :: y in xs ==> y.order.GetOr(0) < x.order.GetOr(0)
    ensures InsertByOrder(x, xs) == xs + [x]
  {
    if xs != [] {
      assert xs[0] in xs;
      LargestGoesLast(x, xs[1..]);
    }
  }

  /** Sorting a list whose orders strictly decrease reverses it. */
  lemma {:induction false} DescendingIsReversed(xs: seq<StopTimeUpdate>)
    requires forall i, j :: 0 <= i < j < |xs| ==> xs[j].order.GetOr(0) < xs[i].order.GetOr(0)
    ensures SortByOrder(xs) == Reversed(xs)
  {
    if xs != [] {
      DescendingIsReversed(xs[1..]);
      forall y | y in Reversed(xs[1..])
        ensures y.order.GetOr(0) < xs[0].order.GetOr(0)
      {
        var i :| 0 <= i < |xs[1..]| && Reversed(xs[1..])[i] == y;
        assert y == xs[1..][|xs[1..]| - 1 - i] == xs[|xs| - 1 - i];
      }
      LargestGoesLast(xs[0], Reversed(xs[1..]));
    }
  }

  // ---------------------------------------------------------------- the reversed walk

  /** The last k base stops have a stop point, and the feed's last k stops (if so many) match them. */
  ghost predicate MatchesSoFar(base: seq<NavitiaStop>, feed: seq<FeedStop>, k: nat)
    requires k <= |base|
  {
    && (forall i :: |base| - k <= i < |base| ==> base[i].point.Some?)
    && forall j {:trigger feed[j]} :: 0 <= j < |feed| && |feed| - k <= j ==>
         StopCode(base[|base| - |feed| + j].point.value.codes) == Some(feed[j].stopId)
  }

  lemma MatchedEverything(base: seq<NavitiaStop>, feed: seq<FeedStop>)
    requires MatchesSoFar(base, feed, |base|)
    ensures |feed| <= |base| ==> IsSuffix(base, feed)
  {
  }

  /**
   * The walk's test on its k-th pair: a base stop with a stop point, and with the code of the feed's stop if there is
   * one.
   */
  predicate Matches(base: seq<NavitiaStop>, feed: seq<FeedStop>, k: nat)
    requires k < |base|
  {
    var point := base[|base| - 1 - k].point;
    point.Some? && (k < |feed| ==> StopCode(point.value.codes) == Some(feed[|feed| - 1 - k].stopId))
  }

  lemma NoMatch(base: seq<NavitiaStop>, feed: seq<FeedStop>, k: nat)
    requires k < |base| && !Matches(base, feed, k)
    ensures !IsSuffix(base, feed)
  {
  }

  /** The entries built over the last k base stops, last stop first. */
  function Walked(base: seq<NavitiaStop>, feed: seq<FeedStop>, k: nat): seq<Stop>
    requires k <= |base| && MatchesSoFar(base, feed, k)
  {
    seq(k, h requires 0 <= h < k => EntryFor(base, feed, |base| - 1 - h))
  }

  lemma WalkOn(base: seq<NavitiaStop>, feed: seq<FeedStop>, k: nat)
    requires k < |base| && MatchesSoFar(base, feed, k) && Matches(base, feed, k)
    ensures base[|base| - 1 - k].point.Some? && MatchesSoFar(base, feed, k + 1)
    ensures Walked(base, feed, k + 1) == Walked(base, feed, k) + [EntryFor(base, feed, |base| - 1 - k)]
  {
  }

  lemma WalkStarts(base: seq<NavitiaStop>, feed: seq<FeedStop>)
    ensures MatchesSoFar(base, feed, 0) && Walked(base, feed, 0) == []
  {
  }

  /** The walked entries are those of the base stops, last one first. */
  lemma WalkedBackwards(base: seq<NavitiaStop>, feed: seq<FeedStop>)
    requires IsSuffix(base, feed) && MatchesSoFar(base, feed, |base|)
    ensures |Walked(base, feed, |base|)| == |base|
    ensures forall h :: 0 <= h < |base| ==>
      Walked(base, feed, |base|)[h].order == Some(|base| - 1 - h)
      && Entries(base, feed)[|base| - 1 - h] == Walked(base, feed, |base|)[h]
  {
    hide StopCode;
    forall h | 0 <= h < |base|
      ensures Walked(base, feed, |base|)[h].order == Some(|base| - 1 - h)
      ensures Entries(base, feed)[|base| - 1 - h] == Walked(base, feed, |base|)[h]
    {
      assert Walked(base, feed, |base|)[h] == EntryFor(base, feed, |base| - 1 - h);
    }
  }

  lemma SortedViews(list: seq<StopTimeUpdate>, n: nat)
    requires |list| == n && forall h :: 0 <= h < n ==> Views(list)[h].order == Some(n - 1 - h)
    ensures |SortByOrder(list)| == n
    ensures forall i :: 0 <= i < n ==> Views(SortByOrder(list))[i] == Views(list)[n - 1 - i]
  {
    forall h | 0 <= h < n
      ensures list[h].order == Some(n - 1 - h)
    {
      assert Views(list)[h] == list[h].View();
    }
    DescendingIsReversed(list);
  }

  /** Puts the walked entries back in the order of the base schedule. */
  method SortEntries(trip: TripUpdate, ghost base: seq<NavitiaStop>, ghost feed: seq<FeedStop>)
    requires IsSuffix(base, feed) && MatchesSoFar(base, feed, |base|) && Views(trip.stops) == Walked(base, feed, |base|)
    modifies trip`stops
    ensures Views(trip.stops) == Entries(base, feed)
  {
    hide *;
    WalkedBackwards(base, feed);
    SortedViews(trip.stops, |base|);
    ghost var walked := Views(trip.stops);
    trip.stops := SortByOrder(trip.stops);
    forall i | 0 <= i < |base|
      ensures Views(trip.stops)[i] == Entries(base, feed)[i]
    {
      assert Entries(base, feed)[|base| - 1 - (|base| - 1 - i)] == walked[|base| - 1 - i];
    }
  }

  /** The last k stops of the feed have the positions of the base stops they match. */
  ghost predicate Renumbered(n: nat, feed: seq<FeedStop>, k: nat)
    reads feed
  {
    forall j :: 0 <= j < |feed| && |feed| - k <= j ==> feed[j].stopSequence == n - |feed| + j
  }

  predicate AllDifferent(feed: seq<FeedStop>) {
    forall i, j :: 0 <= i < j < |feed| ==> feed[i] != feed[j]
  }

  /** Walks both lists from their ends, adding an entry for each base stop. */
  method WalkBack(trip: TripUpdate, base: seq<NavitiaStop>, feed: seq<FeedStop>) returns (valid: bool, highest: Status)
    requires AllDifferent(feed) && trip.stops == []
    modifies trip`stops, feed
    ensures valid <==> IsSuffix(base, feed)
    ensures valid ==>
      && MatchesSoFar(base, feed, |base|) && Views(trip.stops) == Walked(base, feed, |base|)
      && highest == HighestStatus(Walked(base, feed, |base|))
      && Renumbered(|base|, feed, |base|)
  {
    assert HighestStatus([]) == NoChange && Renumbered(|base|, feed, 0);
    hide *;
    WalkStarts(base, feed);
    highest := NoChange;
    var order := |base| - 1;
    var k := 0;
    while k < |base| || k < |feed|
      invariant 0 <= k <= |base| && order == |base| - 1 - k
      invariant MatchesSoFar(base, feed, k) && Views(trip.stops) == Walked(base, feed, k)
      invariant highest == HighestStatus(Walked(base, feed, k))
      invariant Renumbered(|base|, feed, k)
      decreases |base| - k
    {
      if k >= |base| {
        TooLong(base, feed);
        return false, highest;
      }
      if !Matches(base, feed, k) {
        NoMatch(base, feed, k);
        return false, highest;
      }
      highest := WalkStop(trip, base, feed, k, order, highest);
      order := order - 1;
      k := k + 1;
    }
    MatchedEverything(base, feed);
    return true, highest;
  }

  lemma TooLong(base: seq<NavitiaStop>, feed: seq<FeedStop>)
    requires |base| < |feed|
    ensures !IsSuffix(base, feed)
  {
  }

  /** On success the trip has one entry per base stop and the effect of the feed, else it is emptied and refused. */
  method MakeTripUpdate(vj: VehicleJourney, base: seq<NavitiaStop>, feed: seq<FeedStop>)
    returns (valid: bool, trip: TripUpdate)
    requires AllDifferent(feed)
    modifies feed
    ensures fresh(trip) && trip.vj == vj
    ensures valid <==> IsSuffix(base, feed)
    ensures trip.View() == if valid then Trip(NoChange, Some(FeedEffect(feed)), None, Entries(base, feed))
                           else Trip(NoChange, None, None, [])
    ensures valid ==> forall j :: 0 <= j < |feed| ==> feed[j].stopSequence == |base| - |feed| + j
  {
    hide Entries, EffectOf, FeedEffect, StopCode;
    trip := new TripUpdate(vj);
    var highest;
    valid, highest := WalkBack(trip, base, feed);
    if valid {
      EffectOfWalk(base, feed);
      SortEntries(trip, base, feed);
      trip.effect := Some(EffectOf(highest));
    } else {
      trip.stops := [];
    }
  }

  /** Adds the entry of the base stop reached by the walk, and takes its statuses into account. */
  method WalkStop(trip: TripUpdate, base: seq<NavitiaStop>, feed: seq<FeedStop>, k: nat, order: int, highest: Status)
    returns (highest': Status)
    requires k < |base| && order == |base| - 1 - k && MatchesSoFar(base, feed, k) && Matches(base, feed, k)
    requires Views(trip.stops) == Walked(base, feed, k) && highest == HighestStatus(Walked(base, feed, k))
    requires AllDifferent(feed) && Renumbered(|base|, feed, k)
    modifies trip`stops, if k < |feed| then {feed[|feed| - 1 - k]} else {}
    ensures MatchesSoFar(base, feed, k + 1)
    ensures Views(trip.stops) == Walked(base, feed, k + 1) && highest' == HighestStatus(Walked(base, feed, k + 1))
    ensures Renumbered(|base|, feed, k + 1)
  {
    hide *;
    WalkOn(base, feed, k);
    HighestNext(Walked(base, feed, k), EntryFor(base, feed, order));
    highest' := AddEntry(trip, base, feed, k, order, highest);
  }

  method AddEntry(trip: TripUpdate, base: seq<NavitiaStop>, feed: seq<FeedStop>, k: nat, order: int, highest: Status)
    returns (highest': Status)
    requires k < |base| && order == |base| - 1 - k && base[order].point.Some?
    requires AllDifferent(feed) && Renumbered(|base|, feed, k)
    modifies trip`stops, if k < |feed| then {feed[|feed| - 1 - k]} else {}
    ensures Views(trip.stops) == old(Views(trip.stops)) + [EntryFor(base, feed, order)]
    ensures var e := EntryFor(base, feed, order);
            highest' == HigherStatus(HigherStatus(highest, e.dep.status), e.arr.status)
    ensures Renumbered(|base|, feed, k + 1)
  {
    hide EntryFor, HigherStatus, StopCode;
    var entry := MakeEntry(base, feed, k, order);
    trip.Append(entry);
    highest' := HigherStatus(HigherStatus(highest, entry.departureStatus), entry.arrivalStatus);
  }

  /** The entry of the base stop reached by the walk; an entry of the feed is given its position first. */
  method MakeEntry(base: seq<NavitiaStop>, feed: seq<FeedStop>, k: nat, order: int) returns (entry: StopTimeUpdate)
    requires k < |base| && order == |base| - 1 - k && base[order].point.Some?
    modifies if k < |feed| then {feed[|feed| - 1 - k]} else {}
    ensures fresh(entry) && entry.View() == EntryFor(base, feed, order) && entry.order == Some(order)
    ensures k < |feed| ==> feed[|feed| - 1 - k].stopSequence == order
  {
    var id := base[order].point.value.id;
    if k < |feed| {
      var tuStop := feed[|feed| - 1 - k];
      tuStop.stopSequence := order;
      entry := new StopTimeUpdate(FromFeed(tuStop, id, tuStop.stopSequence));
    } else {
      entry := new StopTimeUpdate(Untouched(id, order));
    }
  }

  // ---------------------------------------------------------------- what the alignment gives to the merge

  /** An aligned feed covers the base schedule, so everything proved of covering feeds applies to it. */
  lemma AlignedFeedCovers(base: seq<NavitiaStop>, feed: seq<FeedStop>, stops: seq<BaseStop>, effect: Option<Effect>)
    requires IsSuffix(base, feed)
    requires |stops| == |base| && forall i :: 0 <= i < |base| ==> stops[i].id == base[i].point.value.id
    ensures CoveringFeed(stops, Trip(NoChange, effect, None, Entries(base, feed)), false)
  {
  }

  /** The merge pairs base stop i with entry i, even when the trip serves the same stop twice. */
  lemma MergePairsByPosition(base: seq<NavitiaStop>, feed: seq<FeedStop>, stops: seq<BaseStop>, i: nat)
    requires IsSuffix(base, feed)
    requires |stops| == |base| && forall i :: 0 <= i < |base| ==> stops[i].id == base[i].point.value.id
    requires i < |base|
    ensures var item := BaseItems(stops)[i];
            FindStop(Entries(base, feed), item.nav.id, item.order) == Some(EntryFor(base, feed, i))
  {
    AlignedFeedCovers(base, feed, stops, None);
    FindStopAtItsOrder(Entries(base, feed), i);
  }

  /** The delay announced for the i-th base stop: none before the stops the feed mentions. */
  function DelaySent(base: seq<NavitiaStop>, feed: seq<FeedStop>, i: nat, side: Side): int
    requires |feed| <= |base| && i < |base|
  {
    var j := i - (|base| - |feed|);
    if j < 0 then 0 else if side == Arrival then feed[j].arrivalDelay else feed[j].departureDelay
  }

  lemma SentIsFeedDelay(base: seq<NavitiaStop>, feed: seq<FeedStop>, i: nat, side: Side)
    requires IsSuffix(base, feed) && i < |base|
    ensures var e := Entries(base, feed)[i].At(side); KeepsBase(e) && FeedDelay(e) == DelaySent(base, feed, i, side)
  {
    hide StopCode;
  }

  /** End to end: a published trip stores every timed event at its true base instant plus at least the delay sent. */
  lemma AlignedFeedStored(base: seq<NavitiaStop>, feed: seq<FeedStop>, vj: VehicleJourney, effect: Option<Effect>,
                          db: Option<Trip>, truth: seq<int>, i: nat, side: Side)
    requires IsSuffix(base, feed)
    requires |vj.stops| == |base| && forall h :: 0 <= h < |base| ==> vj.stops[h].id == base[h].point.value.id
    requires var trip := Trip(NoChange, effect, None, Entries(base, feed));
             UpdatesCarryDelay(trip.stops) && Handle(vj, db, trip, false).linked
    requires var ticks := TicksOf(BaseItems(vj.stops), None, Entries(base, feed), |base|);
             Timetable(ticks, truth) && DatesDetectable(vj.CirculationDate(), ticks, truth, |truth|)
    requires i < |base| && BaseTime(side, vj.stops[i]).Some?
    ensures var stored := Handle(vj, db, Trip(NoChange, effect, None, Entries(base, feed)), false).stored.value.stops;
            && |stored| == |base| && Timed(stored[i]) && stored[i].id == vj.stops[i].id
            && Origin(stored[i].At(side)) == truth[EventIndex(i, side)]
            && DelaySent(base, feed, i, side) <= stored[i].At(side).delay.value
  {
    AlignedFeedCovers(base, feed, vj.stops, effect);
    SentIsFeedDelay(base, feed, i, side);
    hide Handle, TicksOf, FindStop, IsSuffix, Entries, DelaySent, KeepsBase, FeedDelay, FeedList, UpdatesCarryDelay;
    var trip := Trip(NoChange, effect, None, Entries(base, feed));
    TrueInstantsAreStored(vj, db, trip, false, truth, i, side);
    LinkedIsFeedList(vj, db, trip, false);
    FeedListShape(vj, trip, false);
  }
}
