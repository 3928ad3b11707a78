/** COTS: the life cycle of trips that the feed itself adds (kirin/cots/model_maker.py:272-318, 414-437, 564-640). */
module LifeCycle {
  import opened Basics
  import opened StopTimes
  import opened MergeRules
  import opened RepairRules
  import opened Handling
  import FeedLaws

  /** statutOperationnel; any other stated value acts as Perturbee. */
  datatype Command = Ajoutee | Supprimee | Perturbee | Unstated

  datatype Action = NotAdded | FirstTimeAdded | PreviouslyAdded

  /** _get_action_on_trip, given the status of the trip found in the database. */
  function ActionOnTrip(command: Command, stored: Option<Status>): Result<Action> {
    if stored.Some? then
      if command == Ajoutee && stored.value == Add then Err
      else if command != Ajoutee && stored.value == Delete then Err
      else if command == Ajoutee && stored.value == Delete then Ok(FirstTimeAdded)
      else if stored.value == Add then Ok(PreviouslyAdded)
      else Ok(NotAdded)
    else if command == Ajoutee then Ok(FirstTimeAdded)
    else Ok(NotAdded)
  }

  /** The search for a vehicle journey: one in Navitia is needed, or must not exist, depending on the action. */
  predicate JourneyFound(action: Action, inNavitia: bool) {
    match action
    case NotAdded => inNavitia
    case FirstTimeAdded => !inNavitia
    case PreviouslyAdded => true
  }

  /** The status given to the new trip. */
  function NewStatus(command: Command, action: Action): Status {
    if command == Supprimee then Delete else if action != NotAdded then Add else Update
  }

  /** The new trip; a command that is not stated raises, and a deleted trip has no stop. */
  function NewTrip(command: Command, stored: Option<Trip>, inNavitia: bool, content: Trip): Result<Trip> {
    var action := ActionOnTrip(command, if stored.Some? then Some(stored.value.status) else None);
    if action.Err? || !JourneyFound(action.value, inNavitia) || command == Unstated then Err
    else
      Ok(content.(status := NewStatus(command, action.value),
                  stops := if command == Supprimee then [] else content.stops))
  }

  /**
   * Every request, by the status stored and the presence of the train in Navitia: a trip stored by an addition takes
   * anything but an addition; a deleted one only an addition, and only if Navitia does not know the train; a trip
   * stored otherwise takes anything if Navitia knows the train; and nothing stored takes an addition if Navitia does
   * not know the train, anything else if it does.
   */
  lemma AcceptedRequests(command: Command, stored: Option<Trip>, inNavitia: bool, content: Trip)
    ensures var trip := NewTrip(command, stored, inNavitia, content);
      && (command == Unstated ==> trip.Err?)
      && (command != Unstated ==>
            && (stored.None? ==> (trip.Ok? <==> (command == Ajoutee) != inNavitia))
            && (stored.Some? && stored.value.status == Add ==> (trip.Ok? <==> command != Ajoutee))
            && (stored.Some? && stored.value.status == Delete ==> (trip.Ok? <==> command == Ajoutee && !inNavitia))
            && (stored.Some? && stored.value.status !in {Add, Delete} ==> (trip.Ok? <==> inNavitia)))
      && (trip.Ok? ==>
            && trip.value.effect == content.effect && trip.value.message == content.message
            && if command == Supprimee then trip.value.status == Delete && trip.value.stops == []
               else
                 && trip.value.stops == content.stops
                 && (stored.Some? && stored.value.status == Add ==> trip.value.status == Add)
                 && (stored.None? || stored.value.status != Add ==>
                       trip.value.status == if inNavitia then Update else Add))
  {
  }

  /** A request about the train: what it commands and the trip it describes. */
  datatype Request = Request(command: Command, content: Trip)

  /** What is stored after a request about a train; nothing changes when it is refused. */
  function Receive(vj: VehicleJourney, stored: Option<Trip>, inNavitia: bool, r: Request): Option<Trip>
    requires UpdatesCarryDelay(r.content.stops)
  {
    match NewTrip(r.command, stored, inNavitia, r.content)
    case Ok(trip) => Handle(vj, stored, trip, true).stored
    case Err => stored
  }

  /** The request reaches the merge and leaves a stored trip. */
  predicate TakesEffect(vj: VehicleJourney, stored: Option<Trip>, inNavitia: bool, r: Request)
    requires UpdatesCarryDelay(r.content.stops)
  {
    NewTrip(r.command, stored, inNavitia, r.content).Ok? && Receive(vj, stored, inNavitia, r).Some?
  }

  /** Whatever the merge and the repair decide, the stored trip takes the status of the feed. */
  lemma StoredStatusIsFeedStatus(vj: VehicleJourney, db: Option<Trip>, feed: Trip, complete: bool)
    requires UpdatesCarryDelay(feed.stops) && Handle(vj, db, feed, complete).stored.Some?
    ensures Handle(vj, db, feed, complete).stored.value.status == feed.status
  {
    hide Run, Items, Repaired;
  }

  /** Requests are complete feeds: an accepted one replaces the stored message, and removes it when it has none. */
  lemma ReceivedIsComplete(vj: VehicleJourney, stored: Option<Trip>, inNavitia: bool, r: Request)
    requires UpdatesCarryDelay(r.content.stops) && NewTrip(r.command, stored, inNavitia, r.content).Ok?
    ensures var after := Receive(vj, stored, inNavitia, r);
            after.Some? ==> after.value.message == r.content.message && after.value.effect == r.content.effect
  {
    hide Handle, ActionOnTrip;
    var trip := NewTrip(r.command, stored, inNavitia, r.content).value;
    if Receive(vj, stored, inNavitia, r).Some? {
      FeedLaws.HeaderOfFeed(vj, stored, trip, true);
    }
  }

  // ---------------------------------------------------------------- trains unknown to Navitia

  ghost predicate Proper(requests: seq<Request>) {
    forall r :: r in requests ==> UpdatesCarryDelay(r.content.stops)
  }

  function StoredAfter(vj: VehicleJourney, requests: seq<Request>, k: nat): Option<Trip>
    requires k <= |requests| && Proper(requests)
  {
    if k == 0 then None else Receive(vj, StoredAfter(vj, requests, k - 1), false, requests[k - 1])
  }

  /** The commands that took effect, in order. */
  function Effective(vj: VehicleJourney, requests: seq<Request>, k: nat): (r: seq<Command>)
    requires k <= |requests| && Proper(requests)
    ensures |r| <= k
  {
    if k == 0 then []
    else
      var before := Effective(vj, requests, k - 1);
      if TakesEffect(vj, StoredAfter(vj, requests, k - 1), false, requests[k - 1]) then
        before + [requests[k - 1].command]
      else before
  }

  /** Nothing precedes, or a deletion does. */
  predicate MayAdd(before: seq<Command>) {
    before == [] || before[|before| - 1] == Supprimee
  }

  /** (add, further updates, delete)*: an addition comes first or just after a deletion, and nowhere else. */
  predicate IsLifeCycle(commands: seq<Command>) {
    if commands == [] then true
    else
      var before, last := commands[..|commands| - 1], commands[|commands| - 1];
      IsLifeCycle(before) && last != Unstated && (last == Ajoutee <==> MayAdd(before))
  }

  /** The status that a life cycle leads to. */
  function StatusOf(commands: seq<Command>): Option<Status> {
    if commands == [] then None
    else if commands[|commands| - 1] == Supprimee then Some(Delete)
    else Some(Add)
  }

  /** Which commands are refused before the merge, and the status of the others. */
  lemma RefusedCommands(stored: Option<Trip>, r: Request)
    requires stored.Some? ==> stored.value.status == Add || stored.value.status == Delete
    ensures var trip := NewTrip(r.command, stored, false, r.content);
      && (trip.Ok? <==>
            r.command != Unstated && (r.command == Ajoutee <==> stored.None? || stored.value.status == Delete))
      && (trip.Ok? ==> trip.value.status == if r.command == Supprimee then Delete else Add)
      && (trip.Ok? ==> trip.value.stops == [] || trip.value.stops == r.content.stops)
  {
  }

  lemma LifeCycleGoesOn(commands: seq<Command>, command: Command)
    requires IsLifeCycle(commands) && command != Unstated && (command == Ajoutee <==> MayAdd(commands))
    ensures IsLifeCycle(commands + [command])
  {
  }

  lemma NoLifeCycleYet()
    ensures IsLifeCycle([]) && StatusOf([]) == None
  {
  }

  function StoredStatus(stored: Option<Trip>): Option<Status> {
    if stored.Some? then Some(stored.value.status) else None
  }

  /** One request: either nothing changes, or its command continues the life cycle and decides the stored status. */
  lemma OneRequest(vj: VehicleJourney, stored: Option<Trip>, r: Request, cycle: seq<Command>)
    requires UpdatesCarryDelay(r.content.stops)
    requires IsLifeCycle(cycle) && StatusOf(cycle) == StoredStatus(stored)
    ensures if TakesEffect(vj, stored, false, r) then
              IsLifeCycle(cycle + [r.command])
                && StatusOf(cycle + [r.command]) == StoredStatus(Receive(vj, stored, false, r))
            else Receive(vj, stored, false, r) == stored
  {
    hide Handle, NewTrip, IsLifeCycle;
    RefusedCommands(stored, r);
    var trip := NewTrip(r.command, stored, false, r.content);
    if TakesEffect(vj, stored, false, r) {
      StoredStatusIsFeedStatus(vj, stored, trip.value, true);
      LifeCycleGoesOn(cycle, r.command);
    }
  }

  /**
   * Over any run of requests the effective commands form a life cycle, and the stored status is the one it leads to.
   */
  lemma {:induction false} AddedTripLifeCycle(vj: VehicleJourney, requests: seq<Request>, k: nat)
    requires k <= |requests| && Proper(requests)
    ensures IsLifeCycle(Effective(vj, requests, k))
    ensures StatusOf(Effective(vj, requests, k)) == StoredStatus(StoredAfter(vj, requests, k))
  {
    hide Receive, TakesEffect, IsLifeCycle, StatusOf, StoredStatus;
    if k > 0 {
      AddedTripLifeCycle(vj, requests, k - 1);
      assert requests[k - 1] in requests;
      OneRequest(vj, StoredAfter(vj, requests, k - 1), requests[k - 1], Effective(vj, requests, k - 1));
    } else {
      NoLifeCycleYet();
      NothingStored();
    }
  }

  lemma NothingStored()
    ensures StoredStatus(None) == None
  {
  }

  /**
   * A second addition without a deletion, or anything but an addition after a deletion, leaves the stored trip as it
   * is.
   */
  lemma OutOfCycleIsRefused(vj: VehicleJourney, requests: seq<Request>, k: nat)
    requires k < |requests| && Proper(requests)
    requires var cycle := Effective(vj, requests, k); var command := requests[k].command;
             command == Unstated || (command == Ajoutee) != MayAdd(cycle)
    ensures StoredAfter(vj, requests, k + 1) == StoredAfter(vj, requests, k)
    ensures Effective(vj, requests, k + 1) == Effective(vj, requests, k)
  {
    hide Handle, NewTrip;
    AddedTripLifeCycle(vj, requests, k);
    RefusedCommands(StoredAfter(vj, requests, k), requests[k]);
  }
}
