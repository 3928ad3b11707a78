/** Trips and their stop times (kirin/core/model.py): the records, as values and as mutable objects. */
module StopTimes {
  import opened Basics

  type StopId = string

  datatype Status = Add | Delete | Update | NoChange | DeletedForDetour | AddedForDetour

  datatype Effect =
    | NoService | ReducedService | SignificantDelays | Detour | AdditionalService
    | ModifiedService | OtherEffect | UnknownEffect | StopMoved | Undefined

  datatype Side = Arrival | Departure

  /** One stop event: an arrival or a departure. */
  datatype Event = Event(time: Option<int>, delay: Option<int>, status: Status) {
    predicate Deleted() {
      status == Delete || status == DeletedForDetour
    }

    predicate Added() {
      status == Add || status == AddedForDetour
    }

    /** An update event comes with its delay. */
    predicate CarriesDelay() {
      status == Update ==> delay.Some?
    }
  }

  /** The value held by a StopTimeUpdate. */
  datatype Stop = Stop(id: StopId, order: Option<int>, message: Option<string>, arr: Event, dep: Event) {
    function At(side: Side): Event {
      if side == Arrival then arr else dep
    }

    predicate CarriesDelay() {
      arr.CarriesDelay() && dep.CarriesDelay()
    }
  }

  /** A stop of the base schedule: times of day only. */
  datatype BaseStop = BaseStop(id: StopId, arr: Option<TimeOfDay>, dep: Option<TimeOfDay>)

  /** The value held by a TripUpdate. */
  datatype Trip = Trip(status: Status, effect: Option<Effect>, message: Option<string>, stops: seq<Stop>)

  predicate UpdatesCarryDelay(stops: seq<Stop>) {
    forall s :: s in stops ==> s.CarriesDelay()
  }

  /** Explicit orders equal the positions in the list. */
  predicate OrdersAreIndexes(stops: seq<Stop>) {
    forall i :: 0 <= i < |stops| ==> stops[i].order == Some(i)
  }

  // ---------------------------------------------------------------- TripUpdate.find_stop

  function IndexById(stops: seq<Stop>, id: StopId): (r: nat)
    ensures r <= |stops|
    ensures r < |stops| ==> stops[r].id == id
    ensures forall k :: 0 <= k < r ==> stops[k].id != id
  {
    if stops == [] || stops[0].id == id then 0 else 1 + IndexById(stops[1..], id)
  }

  function IndexByIdAndOrder(stops: seq<Stop>, id: StopId, order: int): (r: nat)
    ensures r <= |stops|
    ensures r < |stops| ==> stops[r].id == id && stops[r].order == Some(order)
    ensures forall k :: 0 <= k < r ==> !(stops[k].id == id && stops[k].order == Some(order))
  {
    if stops == [] || (stops[0].id == id && stops[0].order == Some(order)) then 0
    else 1 + IndexByIdAndOrder(stops[1..], id, order)
  }

  /** Position of the stop with this id and order, else of the first stop with this id, else the length. */
  function FindIndex(stops: seq<Stop>, id: StopId, order: int): (r: nat)
    ensures r <= |stops|
    ensures r < |stops| ==> stops[r].id == id
  {
    var exact := IndexByIdAndOrder(stops, id, order);
    if exact < |stops| then exact else IndexById(stops, id)
  }

  function FindStop(stops: seq<Stop>, id: StopId, order: int): (r: Option<Stop>)
    ensures r.Some? ==> r.value in stops && r.value.id == id
  {
    var i := FindIndex(stops, id, order);
    if i < |stops| then Some(stops[i]) else None
  }

  /** A match on id and order comes before a match on id alone; each time the first one in the list. */
  lemma FindStopPrefersOrder(stops: seq<Stop>, id: StopId, order: int)
    ensures var i := FindIndex(stops, id, order);
      && FindStop(stops, id, order) == (if i < |stops| then Some(stops[i]) else None)
      && (i < |stops| ==> forall k :: 0 <= k < |stops| && stops[k].id == id ==>
            if stops[k].order == Some(order) then stops[i].order == Some(order) && i <= k
            else stops[i].order == Some(order) || i <= k)
  {
  }

  lemma FindStopFindsId(stops: seq<Stop>, id: StopId, order: int)
    ensures FindStop(stops, id, order).None? <==> forall k :: 0 <= k < |stops| ==> stops[k].id != id
  {
  }

  /** When orders are indexes the stop at position i is found by its own id and order, even if its id repeats. */
  lemma FindStopAtItsOrder(stops: seq<Stop>, i: nat)
    requires OrdersAreIndexes(stops) && i < |stops|
    ensures FindStop(stops, stops[i].id, i) == Some(stops[i])
  {
  }

  // ---------------------------------------------------------------- the mutable records

  class StopTimeUpdate {
    const stopId: StopId
    var order: Option<int>
    var message: Option<string>
    var arrival: Option<int>
    var arrivalDelay: Option<int>
    var arrivalStatus: Status
    var departure: Option<int>
    var departureDelay: Option<int>
    var departureStatus: Status

    constructor (v: Stop)
      ensures View() == v
    {
      stopId, order, message := v.id, v.order, v.message;
      arrival, arrivalDelay, arrivalStatus := v.arr.time, v.arr.delay, v.arr.status;
      departure, departureDelay, departureStatus := v.dep.time, v.dep.delay, v.dep.status;
    }

    function View(): Stop
      reads this
    {
      Stop(stopId, order, message,
           Event(arrival, arrivalDelay, arrivalStatus),
           Event(departure, departureDelay, departureStatus))
    }

    /** is_not_equal compares exactly the fields that make up the view. */
    predicate IsNotEqual(other: StopTimeUpdate)
      reads this, other
      ensures IsNotEqual(other) <==> View() != other.View()
    {
      || stopId != other.stopId
      || message != other.message
      || order != other.order
      || departure != other.departure
      || departureDelay != other.departureDelay
      || departureStatus != other.departureStatus
      || arrival != other.arrival
      || arrivalDelay != other.arrivalDelay
      || arrivalStatus != other.arrivalStatus
    }
  }

  function Views(list: seq<StopTimeUpdate>): (r: seq<Stop>)
    reads list
    ensures |r| == |list|
    ensures forall i :: 0 <= i < |list| ==> r[i] == list[i].View()
  {
    seq(|list|, i requires 0 <= i < |list| reads list => list[i].View())
  }

  datatype VehicleJourney = VehicleJourney(tripId: string, start: int, stops: seq<BaseStop>) {
    function CirculationDate(): int {
      DateOf(start)
    }
  }

  class TripUpdate {
    const vj: VehicleJourney
    var status: Status
    var effect: Option<Effect>
    var message: Option<string>
    var stops: seq<StopTimeUpdate>

    constructor (vj: VehicleJourney)
      ensures this.vj == vj
      ensures View() == Trip(NoChange, None, None, [])
    {
      this.vj := vj;
      status, effect, message, stops := NoChange, None, None, [];
    }

    function View(): Trip
      reads this, stops
    {
      Trip(status, effect, message, Views(stops))
    }

    /** The object that FindStop designates, or null. */
    function Find(id: StopId, order: int): (r: StopTimeUpdate?)
      reads this, stops
      ensures var v := FindStop(Views(stops), id, order);
              (r == null <==> v == None) && (r != null ==> r in stops && v == Some(r.View()))
    {
      var i := FindIndex(Views(stops), id, order);
      if i < |stops| then stops[i] else null
    }

    /** The ordered list numbers an appended stop by its position, unless it already has an order. */
    method Append(s: StopTimeUpdate)
      requires s !in stops
      modifies this`stops, s`order
      ensures stops == old(stops) + [s]
      ensures s.View() == old(s.View()).(order := if old(s.order).None? then Some(|old(stops)|) else old(s.order))
      ensures View() == old(View()).(stops := old(Views(stops)) + [s.View()])
    {
      stops := stops + [s];
      if s.order.None? {
        s.order := Some(|stops| - 1);
      }
    }
  }
}
