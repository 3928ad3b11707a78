/** One trip through `handle` (kirin/core/build_wrapper.py:180-198): merge, repair, and what is stored and linked. */
module Handling {
  import opened Basics
  import opened StopTimes
  import opened MergeRules
  import opened RepairRules

  /** `stored` is the trip held by the database afterwards; `linked` says it goes into the published feed. */
  datatype Handled = Handled(stored: Option<Trip>, linked: bool, raised: bool)

  function Handle(vj: VehicleJourney, db: Option<Trip>, feed: Trip, complete: bool): (r: Handled)
    requires UpdatesCarryDelay(feed.stops)
    ensures r.linked ==> r.stored.Some? && !r.raised
    ensures db.Some? ==> r.stored.Some?
  {
    match Merge(vj, db, feed, complete)
    case Raised(trip) => Handled(if db.Some? then Some(trip) else None, false, true)
    case Unchanged(trip) => Handled(if db.Some? then Some(trip) else None, false, false)
    case Merged(trip) =>
      var repaired := Repaired(trip.stops);
      var res := trip.(stops := repaired.stops);
      Handled(if db.Some? || repaired.ok then Some(res) else None, repaired.ok, false)
  }
}
