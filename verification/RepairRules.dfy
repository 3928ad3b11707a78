/** What `manage_consistency` computes (kirin/core/build_wrapper.py), as functions on values. */
module RepairRules {
  import opened Basics
  import opened StopTimes

  /** Time and delay of the last served event. */
  datatype Point = Point(time: int, delay: int)

  /** All times and delays known. */
  predicate Timed(s: Stop) {
    s.arr.time.Some? && s.arr.delay.Some? && s.dep.time.Some? && s.dep.delay.Some?
  }

  /** Fills the missing times and delays of a stop; None when its arrival cannot be filled. */
  function Filled(prev: Option<Point>, s: Stop): (r: Option<Stop>)
    ensures r.Some? ==> Timed(r.value)
    ensures r.Some? ==> r.value == s.(arr := r.value.arr, dep := r.value.dep)
    ensures r.Some? ==> r.value.arr.status == s.arr.status && r.value.dep.status == s.dep.status
    ensures r.None? <==> s.arr.time.None? && s.dep.time.None? && prev.None?
    ensures Timed(s) ==> r == Some(s)
  {
    var arrTime :=
      if s.arr.time.Some? then s.arr.time
      else if s.dep.time.Some? then s.dep.time
      else if prev.Some? then Some(prev.value.time)
      else None;
    if arrTime.None? then None
    else
      var arrDelay := ArrivalDelay(s);
      var depDelay := DepartureDelay(s);
      var depTime := if s.dep.time.Some? then s.dep.time else arrTime;
      Some(s.(arr := Event(arrTime, Some(arrDelay), s.arr.status), dep := Event(depTime, Some(depDelay), s.dep.status)))
  }

  /** The arrival delay once filled: an arrival without time nor delay takes the departure's delay. */
  function ArrivalDelay(s: Stop): int {
    if s.arr.time.None? && !Truthy(s.arr.delay) && Truthy(s.dep.delay) then s.dep.delay.value
    else s.arr.delay.GetOr(0)
  }

  /** The departure delay once filled. */
  function DepartureDelay(s: Stop): int {
    if s.dep.time.None? && !Truthy(s.dep.delay) && ArrivalDelay(s) != 0 then ArrivalDelay(s)
    else s.dep.delay.GetOr(0)
  }

  /** A served event before the last one is shifted so that its delay is the last one's. */
  function Pushed(prev: Option<Point>, e: Event): (r: Event)
    requires e.time.Some? && e.delay.Some?
    ensures r.time.Some? && r.delay.Some? && r.status == e.status
    ensures r.time.value - r.delay.value == e.time.value - e.delay.value
  {
    if !e.Deleted() && prev.Some? && prev.value.time > e.time.value then
      var diff := prev.value.delay - e.delay.value;
      Event(Some(e.time.value + diff), Some(e.delay.value + diff), e.status)
    else e
  }

  function Last(prev: Option<Point>, e: Event): Option<Point>
    requires e.time.Some? && e.delay.Some?
  {
    if e.Deleted() then prev else Some(Point(e.time.value, e.delay.value))
  }

  /** The state of the pass: `stops` is the part of the list already visited. */
  datatype Pass = Pass(ok: bool, prev: Option<Point>, stops: seq<Stop>)

  function Inspect(p: Pass, s: Stop): Pass {
    var filled := Filled(p.prev, s);
    if !p.ok || s.order != Some(|p.stops|) || filled.None? then
      Pass(false, p.prev, p.stops + [s])
    else
      var arr := Pushed(p.prev, filled.value.arr);
      var mid := Last(p.prev, arr);
      var dep := Pushed(mid, filled.value.dep);
      Pass(true, Last(mid, dep), p.stops + [filled.value.(arr := arr, dep := dep)])
  }

  /** The pass over the first k stops; it stops at the first rejection, leaving the rest as it is. */
  function Repair(stops: seq<Stop>, k: nat): (r: Pass)
    requires k <= |stops|
    ensures |r.stops| == k
  {
    if k == 0 then Pass(true, None, []) else Inspect(Repair(stops, k - 1), stops[k - 1])
  }

  function Repaired(stops: seq<Stop>): Pass {
    Repair(stops, |stops|)
  }
}
