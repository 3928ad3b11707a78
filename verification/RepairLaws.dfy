/** What the repair pass guarantees: conservation, idempotence, ordering, delay provenance. */
module RepairLaws {
  import opened Basics
  import opened StopTimes
  import opened RepairRules

  predicate AllTimed(stops: seq<Stop>) {
    forall i :: 0 <= i < |stops| ==> Timed(stops[i])
  }

  /** Along a trip, the arrival of a stop comes before its departure. */
  predicate Before(i: int, s: Side, j: int, t: Side) {
    i < j || (i == j && s == Arrival && t == Departure)
  }

  /** Time minus delay: the base datetime behind an event. */
  function Origin(e: Event): int
    requires e.time.Some? && e.delay.Some?
  {
    e.time.value - e.delay.value
  }

  // ---------------------------------------------------------------- shape

  /** The same stop up to its times and delays. */
  predicate SameIdentity(a: Stop, b: Stop) {
    a.id == b.id && a.order == b.order && a.message == b.message
    && a.arr.status == b.arr.status && a.dep.status == b.dep.status
  }

  lemma InspectKeepsIdentity(p: Pass, s: Stop)
    ensures var q := Inspect(p, s);
      && q.stops[..|p.stops|] == p.stops && SameIdentity(q.stops[|p.stops|], s)
      && (q.ok ==> p.ok && Timed(q.stops[|p.stops|]) && s.order == Some(|p.stops|))
  {
  }

  /** Ids, orders, messages and statuses never change; an accepted list has all times, delays and orders. */
  lemma {:induction false} RepairKeepsIdentity(stops: seq<Stop>, k: nat)
    requires k <= |stops|
    ensures forall i :: 0 <= i < k ==> SameIdentity(Repair(stops, k).stops[i], stops[i])
    ensures Repair(stops, k).ok ==> AllTimed(Repair(stops, k).stops) && OrdersAreIndexes(Repair(stops, k).stops)
  {
    hide Inspect, Timed;
    if k > 0 {
      RepairKeepsIdentity(stops, k - 1);
      var before := Repair(stops, k - 1).stops;
      InspectKeepsIdentity(Repair(stops, k - 1), stops[k - 1]);
      assert forall i :: 0 <= i < k - 1 ==> Repair(stops, k).stops[i] == before[i];
    }
  }

  /** The pass over a prefix is a prefix of the pass. */
  lemma {:induction false} RepairPrefix(stops: seq<Stop>, j: nat, k: nat)
    requires j <= k <= |stops|
    ensures forall i :: 0 <= i < j ==> Repair(stops, k).stops[i] == Repair(stops, j).stops[i]
    ensures Repair(stops, k).ok ==> Repair(stops, j).ok
  {
    if j < k {
      RepairPrefix(stops, j, k - 1);
    }
  }

  // ---------------------------------------------------------------- null-filled input

  /** Stop i with its missing times and delays filled, just before the pass considers pushing it. */
  function FilledAt(stops: seq<Stop>, i: nat): (r: Stop)
    requires i < |stops|
    ensures SameIdentity(r, stops[i])
  {
    Filled(Repair(stops, i).prev, stops[i]).GetOr(stops[i])
  }

  /** The list with its missing times and delays filled, before any push. */
  function FilledList(stops: seq<Stop>): (r: seq<Stop>)
    ensures |r| == |stops|
  {
    seq(|stops|, i requires 0 <= i < |stops| => FilledAt(stops, i))
  }

  lemma {:induction false} RepairedFromFilled(stops: seq<Stop>, i: nat, k: nat)
    requires i < k <= |stops| && Repair(stops, k).ok
    ensures Timed(FilledAt(stops, i))
    ensures FilledAt(stops, i).arr.delay.value == ArrivalDelay(stops[i])
    ensures FilledAt(stops, i).dep.delay.value == DepartureDelay(stops[i])
    ensures Repair(stops, i).ok && stops[i].order == Some(i)
    ensures var p := Repair(stops, i).prev; var f := FilledAt(stops, i);
            var arr := Pushed(p, f.arr); var dep := Pushed(Last(p, arr), f.dep);
            Repair(stops, k).stops[i] == f.(arr := arr, dep := dep)
            && Repair(stops, i + 1).prev == Last(Last(p, arr), dep)
  {
    RepairPrefix(stops, i + 1, k);
    RepairPrefix(stops, i, k);
    assert Filled(Repair(stops, i).prev, stops[i]).Some?;
  }

  lemma FilledListIsTimed(stops: seq<Stop>)
    requires Repaired(stops).ok
    ensures AllTimed(FilledList(stops)) && AllTimed(Repaired(stops).stops)
  {
    forall i | 0 <= i < |stops|
      ensures Timed(FilledList(stops)[i]) && Timed(Repaired(stops).stops[i])
    {
      RepairedFromFilled(stops, i, |stops|);
    }
  }

  /** Filling looks at nothing but the stop itself as soon as the stop has a time. */
  lemma FillingIsLocal(stops: seq<Stop>, i: nat)
    requires i < |stops|
    requires HasTime(stops[i])
    ensures Filled(None, stops[i]) == Some(FilledAt(stops, i))
  {
  }

  function Opposite(side: Side): Side {
    if side == Arrival then Departure else Arrival
  }

  /** The stops before the i-th one, side by side: where the last served event among them is. */
  function LastServedBefore(stops: seq<Stop>, i: nat): (r: Option<(nat, Side)>)
    requires i <= |stops|
    ensures r.Some? ==> r.value.0 < i && !stops[r.value.0].At(r.value.1).Deleted()
    ensures r.Some? ==> forall j, t :: 0 <= j < i && Before(r.value.0, r.value.1, j, t) ==> stops[j].At(t).Deleted()
    ensures r.None? ==> forall j, t :: 0 <= j < i ==> stops[j].At(t).Deleted()
  {
    if i == 0 then None
    else if !stops[i - 1].dep.Deleted() then Some((i - 1, Departure))
    else if !stops[i - 1].arr.Deleted() then Some((i - 1, Arrival))
    else LastServedBefore(stops, i - 1)
  }

  ghost predicate Remembers(stops: seq<Stop>, i: nat, out: seq<Stop>, prev: Option<Point>)
    requires i <= |stops| && i <= |out|
  {
    var last := LastServedBefore(stops, i);
    && (last.None? <==> prev.None?)
    && (last.Some? ==>
          var e := out[last.value.0].At(last.value.1);
          e.time == Some(prev.value.time) && e.delay == Some(prev.value.delay))
  }

  lemma RemembersNext(stops: seq<Stop>, i: nat, out: seq<Stop>, prev: Option<Point>, next: seq<Stop>)
    requires i < |stops| && i <= |out| < |next| && Remembers(stops, i, out, prev) && Timed(next[i])
    requires forall j :: 0 <= j < i ==> next[j] == out[j]
    requires SameIdentity(next[i], stops[i])
    ensures Remembers(stops, i + 1, next, Last(Last(prev, next[i].arr), next[i].dep))
  {
  }

  lemma {:induction false} RemembersSoFar(stops: seq<Stop>, i: nat)
    requires i <= |stops| && Repair(stops, i).ok
    ensures Remembers(stops, i, Repair(stops, i).stops, Repair(stops, i).prev)
  {
    hide *;
    if i > 0 {
      RepairPrefix(stops, i - 1, i);
      RemembersSoFar(stops, i - 1);
      RepairKeepsIdentity(stops, i);
      var f, arr, dep := PassExtends(stops, i - 1);
      RemembersNext(stops, i - 1, Repair(stops, i - 1).stops, Repair(stops, i - 1).prev, Repair(stops, i).stops);
    } else {
      RemembersNothing(stops);
    }
  }

  lemma RemembersNothing(stops: seq<Stop>)
    ensures Remembers(stops, 0, Repair(stops, 0).stops, Repair(stops, 0).prev)
  {
  }

  /** What the pass remembers is the last served event, as it has left it. */
  lemma RemembersLastServed(stops: seq<Stop>, i: nat, k: nat)
    requires i <= k <= |stops| && Repair(stops, k).ok
    ensures Remembers(stops, i, Repair(stops, k).stops, Repair(stops, i).prev)
  {
    RepairPrefix(stops, i, k);
    RemembersSoFar(stops, i);
    hide Repair;
  }

  /**
   * Which times a stop is given: a known one is kept, a missing one is the stop's other time, and a stop without any
   * takes that of the last served event before it, as the pass has left it.
   */
  lemma FilledTimes(stops: seq<Stop>, i: nat, side: Side)
    requires Repaired(stops).ok && i < |stops|
    ensures var given, own, other := FilledAt(stops, i).At(side).time, stops[i].At(side).time,
      stops[i].At(Opposite(side)).time;
            var last := LastServedBefore(stops, i);
      && (own.Some? ==> given == own)
      && (own.None? && other.Some? ==> given == other)
      && (own.None? && other.None? ==>
            last.Some? && given == Repaired(stops).stops[last.value.0].At(last.value.1).time)
  {
    RepairedFromFilled(stops, i, |stops|);
    RemembersLastServed(stops, i, |stops|);
  }

  /** Which delays: a non-zero one is kept; an event without time otherwise takes the other event's; else it is zero. */
  lemma FilledDelays(stops: seq<Stop>, i: nat, side: Side)
    requires Repaired(stops).ok && i < |stops|
    ensures var own, other := stops[i].At(side), stops[i].At(Opposite(side));
            FilledAt(stops, i).At(side).delay
            == if own.delay.Some? && own.delay != Some(0) then own.delay
               else if own.time.None? && other.delay.Some? && other.delay != Some(0) then other.delay
               else Some(0)
  {
    RepairedFromFilled(stops, i, |stops|);
  }

  /**
   * A stop whose events need no push is stored with these times and delays: pushing is only for events out of order.
   */
  lemma UnpushedIsFilled(stops: seq<Stop>, i: nat)
    requires Repaired(stops).ok && i < |stops|
    requires var f, prev := FilledAt(stops, i), Repair(stops, i).prev;
      && Timed(f) && f.arr.time.value <= f.dep.time.value && (prev.Some? ==> prev.value.time <= f.arr.time.value)
    ensures Repaired(stops).stops[i] == FilledAt(stops, i)
  {
    RepairedFromFilled(stops, i, |stops|);
  }

  // ---------------------------------------------------------------- conservation

  /** A push keeps time minus delay; an event that is not served is not pushed at all. */
  lemma RepairConservesOrigins(stops: seq<Stop>, i: nat, side: Side)
    requires Repaired(stops).ok && i < |stops|
    ensures Timed(FilledAt(stops, i)) && Timed(Repaired(stops).stops[i])
    ensures Origin(Repaired(stops).stops[i].At(side)) == Origin(FilledAt(stops, i).At(side))
    ensures stops[i].At(side).Deleted() ==> Repaired(stops).stops[i].At(side) == FilledAt(stops, i).At(side)
  {
    RepairedFromFilled(stops, i, |stops|);
  }

  // ---------------------------------------------------------------- delay provenance

  function FilledDelay(s: Stop, side: Side): int {
    if side == Arrival then ArrivalDelay(s) else DepartureDelay(s)
  }

  /** Some served event among the first n stops has this null-filled delay. */
  ghost predicate DelayFrom(stops: seq<Stop>, n: nat, delay: int)
    requires n <= |stops|
  {
    exists j, t :: 0 <= j < n && !stops[j].At(t).Deleted() && FilledDelay(stops[j], t) == delay
  }

  lemma {:induction false} LastDelayHasSource(stops: seq<Stop>, k: nat)
    requires k <= |stops| && Repair(stops, k).ok
    ensures Repair(stops, k).prev.Some? ==> DelayFrom(stops, k, Repair(stops, k).prev.value.delay)
  {
    if k > 0 {
      RepairedFromFilled(stops, k - 1, k);
      LastDelayHasSource(stops, k - 1);
      var p, f := Repair(stops, k - 1).prev, FilledAt(stops, k - 1);
      var arr := Pushed(p, f.arr);
      assert !f.arr.Deleted() ==>
        FilledDelay(stops[k - 1], Arrival) == f.arr.delay.value && !stops[k - 1].At(Arrival).Deleted();
      assert !f.dep.Deleted() ==>
        FilledDelay(stops[k - 1], Departure) == f.dep.delay.value && !stops[k - 1].At(Departure).Deleted();
      assert p.Some? ==> DelayFrom(stops, k, p.value.delay);
    }
  }

  /**
   * Every delay of a served event after an accepting pass is the null-filled delay of a served event no later than it.
   */
  lemma DelayProvenance(stops: seq<Stop>, i: nat, side: Side)
    requires Repaired(stops).ok && i < |stops| && !stops[i].At(side).Deleted()
    ensures Timed(Repaired(stops).stops[i])
    ensures exists j, t :: 0 <= j <= i && (Before(j, t, i, side) || (j == i && t == side)) && !stops[j].At(t).Deleted()
              && FilledDelay(stops[j], t) == Repaired(stops).stops[i].At(side).delay.value
  {
    RepairedFromFilled(stops, i, |stops|);
    LastDelayHasSource(stops, i);
    var p, f, out := Repair(stops, i).prev, FilledAt(stops, i), Repaired(stops).stops[i];
    var own := FilledDelay(stops[i], side);
    assert f.At(side).delay.value == own;
    if out.At(side).delay.value == own {
    } else if side == Departure && !stops[i].arr.Deleted() && out.arr.delay.value == ArrivalDelay(stops[i]) {
      assert !stops[i].At(Arrival).Deleted() && FilledDelay(stops[i], Arrival) == out.dep.delay.value;
    } else {
      assert out.At(side).delay.value == p.value.delay;
      var j, t :| 0 <= j < i && !stops[j].At(t).Deleted() && FilledDelay(stops[j], t) == p.value.delay;
      assert Before(j, t, i, side);
    }
  }

  // ---------------------------------------------------------------- idempotence

  lemma PushTwice(prev: Option<Point>, e: Event)
    requires e.time.Some? && e.delay.Some?
    ensures Pushed(prev, Pushed(prev, e)) == Pushed(prev, e)
  {
  }

  lemma InspectTwice(p: Pass, s: Stop, q: Pass)
    requires Inspect(p, s).ok
    requires q.ok && q.prev == p.prev && |q.stops| == |p.stops|
    ensures var x := Inspect(p, s).stops[|p.stops|];
            Inspect(q, x) == Pass(true, Inspect(p, s).prev, q.stops + [x])
  {
    var f := Filled(p.prev, s).value;
    PushTwice(p.prev, f.arr);
    var mid := Last(p.prev, Pushed(p.prev, f.arr));
    PushTwice(mid, f.dep);
    var x := f.(arr := Pushed(p.prev, f.arr), dep := Pushed(mid, f.dep));
    assert Inspect(p, s).stops[|p.stops|] == x;
    assert Timed(x);
  }

  lemma {:induction false} RepairTwice(stops: seq<Stop>, k: nat)
    requires k <= |stops| && Repaired(stops).ok
    ensures Repair(Repaired(stops).stops, k) == Repair(stops, k)
  {
    RepairPrefix(stops, k, |stops|);
    if k > 0 {
      RepairTwice(stops, k - 1);
      InspectTwice(Repair(stops, k - 1), stops[k - 1], Repair(stops, k - 1));
      assert Repaired(stops).stops[k - 1] == Repair(stops, k).stops[k - 1];
    }
  }

  /** A second pass changes nothing, whatever the input was. */
  lemma RepairIsIdempotent(stops: seq<Stop>)
    requires Repaired(stops).ok
    ensures Repaired(Repaired(stops).stops) == Repaired(stops)
  {
    RepairTwice(stops, |stops|);
  }

  // ---------------------------------------------------------------- order

  /** A served event: the base datetime behind it and its delay. */
  datatype ServedEvent = ServedEvent(origin: int, delay: int) {
    function Time(): int {
      origin + delay
    }
  }

  function ServedOf(e: Event): (r: seq<ServedEvent>)
    requires e.time.Some? && e.delay.Some?
    ensures |r| == if e.Deleted() then 0 else 1
  {
    if e.Deleted() then [] else [ServedEvent(Origin(e), e.delay.value)]
  }

  /** The served events of a trip, in the order of the trip. */
  function ServedEvents(stops: seq<Stop>): seq<ServedEvent>
    requires AllTimed(stops)
  {
    if stops == [] then []
    else
      var s := stops[|stops| - 1];
      ServedEvents(stops[..|stops| - 1]) + ServedOf(s.arr) + ServedOf(s.dep)
  }

  ghost predicate TimesOrdered(es: seq<ServedEvent>) {
    forall i, j :: 0 <= i < j < |es| ==> es[i].Time() <= es[j].Time()
  }

  ghost predicate OriginsOrdered(es: seq<ServedEvent>) {
    forall i, j :: 0 <= i < j < |es| ==> es[i].origin <= es[j].origin
  }

  /** From j on, each event up to k would still come before its predecessor if that one had j's delay. */
  ghost predicate DelayCarried(es: seq<ServedEvent>, j: nat, k: nat)
    requires k < |es|
  {
    forall i :: j < i <= k ==> es[i - 1].origin + es[j].delay > es[i].Time()
  }

  /** Some event hands its delay on, event after event, to one whose base datetime precedes its predecessor's. */
  ghost predicate DelayCarriedBack(es: seq<ServedEvent>) {
    exists j, k {:trigger DelayCarried(es, j, k)} ::
      0 <= j < k < |es| && DelayCarried(es, j, k) && es[k].origin < es[k - 1].origin
  }

  /** The delay of the k-th served event once the ones before it have been pushed. */
  function SettledDelay(es: seq<ServedEvent>, k: nat): int
    requires k < |es|
  {
    if k == 0 then es[0].delay
    else
      var before := SettledDelay(es, k - 1);
      if es[k - 1].origin + before > es[k].Time() then before else es[k].delay
  }

  function Settled(es: seq<ServedEvent>, k: nat): ServedEvent
    requires k < |es|
  {
    ServedEvent(es[k].origin, SettledDelay(es, k))
  }

  function AllSettled(es: seq<ServedEvent>): (r: seq<ServedEvent>)
    ensures |r| == |es|
  {
    seq(|es|, k requires 0 <= k < |es| => Settled(es, k))
  }

  lemma {:induction false} SettledPrefix(es: seq<ServedEvent>, more: seq<ServedEvent>, k: nat)
    requires k < |es|
    ensures SettledDelay(es + more, k) == SettledDelay(es, k)
  {
    if k > 0 {
      SettledPrefix(es, more, k - 1);
    }
  }

  /** The state of the pass between two events: what is settled, and its last event. */
  ghost predicate UpTo(es: seq<ServedEvent>, out: seq<ServedEvent>, prev: Option<Point>) {
    && out == AllSettled(es)
    && prev == if out == [] then None else Some(Point(out[|out| - 1].Time(), out[|out| - 1].delay))
  }

  lemma PushedIsSettled(es: seq<ServedEvent>, out: seq<ServedEvent>, prev: Option<Point>, e: Event)
    requires e.time.Some? && e.delay.Some? && UpTo(es, out, prev)
    ensures UpTo(es + ServedOf(e), out + ServedOf(Pushed(prev, e)), Last(prev, Pushed(prev, e)))
  {
    forall k | 0 <= k < |es|
      ensures SettledDelay(es + ServedOf(e), k) == SettledDelay(es, k)
    {
      SettledPrefix(es, ServedOf(e), k);
    }
    if es != [] {
      assert out[|es| - 1] == Settled(es, |es| - 1);
    }
  }

  lemma ServedNext(stops: seq<Stop>, s: Stop)
    requires AllTimed(stops) && Timed(s)
    ensures AllTimed(stops + [s])
    ensures ServedEvents(stops + [s]) == ServedEvents(stops) + ServedOf(s.arr) + ServedOf(s.dep)
  {
    assert (stops + [s])[..|stops|] == stops;
  }

  /** One stop of the pass, as its two events. */
  lemma PassExtends(stops: seq<Stop>, k: nat) returns (f: Stop, arr: Event, dep: Event)
    requires k < |stops| && Repair(stops, k + 1).ok
    ensures Timed(f) && arr.time.Some? && arr.delay.Some? && dep.time.Some? && dep.delay.Some?
    ensures var p := Repair(stops, k).prev;
      && arr == Pushed(p, f.arr) && dep == Pushed(Last(p, arr), f.dep)
      && FilledList(stops)[..k + 1] == FilledList(stops)[..k] + [f]
      && Repair(stops, k + 1).stops == Repair(stops, k).stops + [f.(arr := arr, dep := dep)]
      && Repair(stops, k + 1).prev == Last(Last(p, arr), dep)
  {
    RepairedFromFilled(stops, k, k + 1);
    RepairPrefix(stops, k, k + 1);
    var p := Repair(stops, k).prev;
    f := FilledAt(stops, k);
    arr := Pushed(p, f.arr);
    dep := Pushed(Last(p, arr), f.dep);
  }

  /** Two events settled, then a stop made of them. */
  lemma StopSettles(before: seq<Stop>, out: seq<Stop>, p: Option<Point>, f: Stop, arr: Event, dep: Event)
    requires AllTimed(before) && AllTimed(out) && Timed(f) && UpTo(ServedEvents(before), ServedEvents(out), p)
    requires arr == Pushed(p, f.arr) && dep == Pushed(Last(p, arr), f.dep)
    ensures AllTimed(before + [f]) && AllTimed(out + [f.(arr := arr, dep := dep)])
    ensures UpTo(ServedEvents(before + [f]), ServedEvents(out + [f.(arr := arr, dep := dep)]), Last(Last(p, arr), dep))
  {
    hide UpTo, Pushed, Last, ServedEvents;
    PushedIsSettled(ServedEvents(before), ServedEvents(out), p, f.arr);
    PushedIsSettled(ServedEvents(before) + ServedOf(f.arr), ServedEvents(out) + ServedOf(arr), Last(p, arr), f.dep);
    ServedNext(before, f);
    ServedNext(out, f.(arr := arr, dep := dep));
  }

  /** The pass settles the served events of the null-filled list one after the other. */
  lemma {:induction false} PassSettles(stops: seq<Stop>, k: nat)
    requires k <= |stops| && Repair(stops, k).ok
    ensures AllTimed(FilledList(stops)[..k]) && AllTimed(Repair(stops, k).stops)
    ensures UpTo(ServedEvents(FilledList(stops)[..k]), ServedEvents(Repair(stops, k).stops), Repair(stops, k).prev)
  {
    if k > 0 {
      hide *;
      RepairPrefix(stops, k - 1, k);
      PassSettles(stops, k - 1);
      var f, arr, dep := PassExtends(stops, k - 1);
      StopSettles(FilledList(stops)[..k - 1], Repair(stops, k - 1).stops, Repair(stops, k - 1).prev, f, arr, dep);
    } else {
      hide *;
      PassStarts(stops);
    }
  }

  lemma PassStarts(stops: seq<Stop>)
    ensures AllTimed(FilledList(stops)[..0]) && AllTimed(Repair(stops, 0).stops)
    ensures UpTo(ServedEvents(FilledList(stops)[..0]), ServedEvents(Repair(stops, 0).stops), Repair(stops, 0).prev)
  {
    hide FilledAt, Settled;
    assert FilledList(stops)[..0] == [] && AllSettled([]) == [];
  }

  /** The event whose delay the k-th one ends with, handed on by all events in between. */
  lemma {:induction false} SettledSource(es: seq<ServedEvent>, k: nat) returns (j: nat)
    requires k < |es|
    ensures j <= k && SettledDelay(es, k) == es[j].delay && DelayCarried(es, j, k)
    ensures j > 0 ==> es[j - 1].origin + SettledDelay(es, j - 1) <= es[j].Time()
  {
    if k > 0 && es[k - 1].origin + SettledDelay(es, k - 1) > es[k].Time() {
      j := SettledSource(es, k - 1);
    } else {
      j := k;
    }
  }

  /** Along a carried delay, settled delays are at least that delay unless times have already gone back. */
  lemma {:induction false} CarriedDelayStays(es: seq<ServedEvent>, j: nat, k: nat)
    requires j <= k < |es| && DelayCarried(es, j, k) && TimesOrdered(AllSettled(es))
    ensures es[j].delay <= SettledDelay(es, k)
    ensures j < k ==> SettledDelay(es, k) == SettledDelay(es, k - 1)
  {
    if j < k {
      CarriedDelayStays(es, j, k - 1);
    } else if k > 0 {
      assert AllSettled(es)[k - 1].Time() <= AllSettled(es)[k].Time();
    }
  }

  lemma OrderLimitsCarrying(es: seq<ServedEvent>, j: nat, k: nat)
    requires j < k < |es| && DelayCarried(es, j, k) && TimesOrdered(AllSettled(es))
    ensures es[k - 1].origin <= es[k].origin
  {
    CarriedDelayStays(es, j, k);
    assert AllSettled(es)[k - 1].Time() <= AllSettled(es)[k].Time();
  }

  lemma SettledOrder(es: seq<ServedEvent>)
    ensures TimesOrdered(AllSettled(es)) <==> !DelayCarriedBack(es)
  {
    hide DelayCarried;
    var out := AllSettled(es);
    forall j, k | 0 <= j < k < |es| && DelayCarried(es, j, k) && TimesOrdered(out)
      ensures es[k - 1].origin <= es[k].origin
    {
      OrderLimitsCarrying(es, j, k);
    }
    if !DelayCarriedBack(es) {
      forall k | 0 < k < |es|
        ensures out[k - 1].Time() <= out[k].Time()
      {
        StepSettles(es, k);
      }
      StepsOrder(out);
    }
  }

  lemma StepSettles(es: seq<ServedEvent>, k: nat)
    requires 0 < k < |es| && !DelayCarriedBack(es)
    ensures Settled(es, k - 1).Time() <= Settled(es, k).Time()
  {
    if Settled(es, k - 1).Time() > Settled(es, k).Time() {
      var j := SettledSource(es, k - 1);
      assert DelayCarried(es, j, k);
    }
  }

  lemma StepsOrder(es: seq<ServedEvent>)
    requires forall k :: 0 < k < |es| ==> es[k - 1].Time() <= es[k].Time()
    ensures TimesOrdered(es)
  {
    if es != [] {
      var before := es[..|es| - 1];
      StepsOrder(before);
      forall i, j | 0 <= i < j < |es|
        ensures es[i].Time() <= es[j].Time()
      {
        if i < j - 1 {
          assert before[i].Time() <= before[|es| - 2].Time();
          assert j < |es| - 1 ==> before[i].Time() <= before[j].Time();
        }
      }
    }
  }

  /**
   * The pass leaves the served times in order exactly when, in the null-filled input, no delay is carried on
   * to an event whose base datetime precedes that of the event before it.
   */
  lemma RepairOrdersTimes(stops: seq<Stop>)
    requires Repaired(stops).ok
    ensures AllTimed(FilledList(stops)) && AllTimed(Repaired(stops).stops)
    ensures TimesOrdered(ServedEvents(Repaired(stops).stops)) <==> !DelayCarriedBack(ServedEvents(FilledList(stops)))
  {
    PassSettles(stops, |stops|);
    assert FilledList(stops)[..|stops|] == FilledList(stops);
    SettledOrder(ServedEvents(FilledList(stops)));
  }

  /** Each stop filled on its own. */
  function FilledAlone(stops: seq<Stop>): (r: seq<Stop>)
    requires forall i :: 0 <= i < |stops| ==> HasTime(stops[i])
    ensures |r| == |stops| && AllTimed(r)
  {
    seq(|stops|, i requires 0 <= i < |stops| && HasTime(stops[i]) => Filled(None, stops[i]).value)
  }

  /** When every stop has a time, acceptance and order can be read off the input, stop by stop. */
  lemma TimedInputOrder(stops: seq<Stop>)
    requires forall i :: 0 <= i < |stops| ==> HasTime(stops[i])
    ensures Repaired(stops).ok <==> OrdersAreIndexes(stops)
    ensures Repaired(stops).ok ==>
      AllTimed(Repaired(stops).stops)
      && (TimesOrdered(ServedEvents(Repaired(stops).stops)) <==> !DelayCarriedBack(ServedEvents(FilledAlone(stops))))
  {
    RepairAcceptsExactly(stops, |stops|);
    if Repaired(stops).ok {
      forall i | 0 <= i < |stops|
        ensures FilledList(stops)[i] == FilledAlone(stops)[i]
      {
        FillingIsLocal(stops, i);
      }
      assert FilledList(stops) == FilledAlone(stops);
      RepairOrdersTimes(stops);
    }
  }

  /** With base datetimes in order, no settled delay is smaller than the one given. */
  lemma OrderedOriginsOnlyAdd(es: seq<ServedEvent>, k: nat)
    requires k < |es| && OriginsOrdered(es)
    ensures es[k].delay <= SettledDelay(es, k)
  {
  }

  /** Some event takes over a delay, and every delay carried on to it is smaller than its own. */
  ghost predicate DelayLowered(es: seq<ServedEvent>) {
    exists k :: 0 <= k < |es| && LoweredAt(es, k)
  }

  ghost predicate LoweredAt(es: seq<ServedEvent>, k: nat)
    requires k < |es|
  {
    && (exists j {:trigger DelayCarried(es, j, k)} :: 0 <= j < k && DelayCarried(es, j, k))
    && (forall j {:trigger DelayCarried(es, j, k)} :: 0 <= j < k && DelayCarried(es, j, k) ==>
        es[j].delay < es[k].delay)
  }

  ghost predicate OnlyLater(es: seq<ServedEvent>, n: nat)
    requires n <= |es|
  {
    forall k :: 0 <= k < n ==> NotLowered(es, k)
  }

  predicate NotLowered(es: seq<ServedEvent>, k: nat)
    requires k < |es|
  {
    es[k].delay <= SettledDelay(es, k)
  }

  /** As long as no delay has been lowered, a carried delay is at most the settled one. */
  lemma {:induction false} CarriedIsAtMost(es: seq<ServedEvent>, j: nat, k: nat)
    requires j <= k < |es| && DelayCarried(es, j, k) && OnlyLater(es, k) && NotLowered(es, j)
    ensures es[j].delay <= SettledDelay(es, k)
    ensures j < k ==> SettledDelay(es, k) == SettledDelay(es, k - 1)
  {
    if j < k {
      CarriedIsAtMost(es, j, k - 1);
    }
  }

  lemma FirstLowered(es: seq<ServedEvent>, k: nat)
    requires k < |es| && OnlyLater(es, k)
    ensures NotLowered(es, k) || LoweredAt(es, k)
  {
    if SettledDelay(es, k) < es[k].delay {
      var source := SettledSource(es, k);
      forall j | 0 <= j < k && DelayCarried(es, j, k)
        ensures es[j].delay < es[k].delay
      {
        if j < source {
          assert NotLowered(es, j);
          CarriedIsAtMost(es, j, source);
        } else if j > source {
          CarriedFromSource(es, source, j);
        }
      }
    }
  }

  /** Events on the way of a carried delay have settled on it or on a smaller one of their own. */
  lemma CarriedFromSource(es: seq<ServedEvent>, source: nat, j: nat)
    requires source < j < |es| && DelayCarried(es, source, j) && OnlyLater(es, j + 1)
    requires SettledDelay(es, source) == es[source].delay
    ensures es[j].delay <= es[source].delay
  {
    CarriedUnchanged(es, source, j);
    assert NotLowered(es, j);
  }

  lemma {:induction false} CarriedUnchanged(es: seq<ServedEvent>, source: nat, j: nat)
    requires source <= j < |es| && DelayCarried(es, source, j) && SettledDelay(es, source) == es[source].delay
    ensures SettledDelay(es, j) == es[source].delay
  {
    if source < j {
      CarriedUnchanged(es, source, j - 1);
    }
  }

  lemma LoweredMovesEarlier(es: seq<ServedEvent>, k: nat)
    requires k < |es| && LoweredAt(es, k)
    ensures !OnlyLater(es, k + 1)
  {
    var j :| 0 <= j < k && DelayCarried(es, j, k);
    if OnlyLater(es, k) {
      assert NotLowered(es, j);
      CarriedIsAtMost(es, j, k);
      var source := SettledSource(es, k);
      assert es[k - 1].origin + es[j].delay > es[k].Time();
      assert source < k && es[source].delay < es[k].delay;
      assert !NotLowered(es, k);
    }
  }

  /**
   * No event is settled earlier than given exactly when no event takes over delays that are all smaller than its own.
   */
  lemma {:induction false} OnlyLaterExactly(es: seq<ServedEvent>, n: nat)
    requires n <= |es|
    ensures OnlyLater(es, n) <==> forall k :: 0 <= k < n ==> !LoweredAt(es, k)
  {
    hide LoweredAt, NotLowered;
    if n > 0 {
      OnlyLaterExactly(es, n - 1);
      if OnlyLater(es, n - 1) {
        FirstLowered(es, n - 1);
        if LoweredAt(es, n - 1) {
          LoweredMovesEarlier(es, n - 1);
        }
      }
    }
  }

  /** The pass moves no served event earlier exactly when, in the null-filled input, no delay is lowered. */
  lemma RepairNeverAdvances(stops: seq<Stop>)
    requires Repaired(stops).ok
    ensures AllTimed(FilledList(stops)) && AllTimed(Repaired(stops).stops)
    ensures var before, after := ServedEvents(FilledList(stops)), ServedEvents(Repaired(stops).stops);
      && |before| == |after|
      && ((forall k :: 0 <= k < |before| ==> before[k].Time() <= after[k].Time()) <==> !DelayLowered(before))
  {
    hide LoweredAt, ServedEvents, AllTimed, SettledDelay;
    PassSettles(stops, |stops|);
    assert FilledList(stops)[..|stops|] == FilledList(stops);
    var before := ServedEvents(FilledList(stops));
    OnlyLaterExactly(before, |before|);
    SettledTimes(before);
  }

  lemma SettledTimes(es: seq<ServedEvent>)
    ensures OnlyLater(es, |es|) <==> forall k :: 0 <= k < |es| ==> es[k].Time() <= AllSettled(es)[k].Time()
  {
    forall k | 0 <= k < |es|
      ensures NotLowered(es, k) <==> es[k].Time() <= AllSettled(es)[k].Time()
    {
    }
  }

  /** On input whose base datetimes, once filled, are in order, served times end in order and none moves earlier. */
  lemma RepairIsSound(stops: seq<Stop>)
    requires Repaired(stops).ok
    requires (FilledListIsTimed(stops); OriginsOrdered(ServedEvents(FilledList(stops))))
    ensures AllTimed(FilledList(stops)) && AllTimed(Repaired(stops).stops)
    ensures TimesOrdered(ServedEvents(Repaired(stops).stops))
    ensures var before, after := ServedEvents(FilledList(stops)), ServedEvents(Repaired(stops).stops);
            |before| == |after| && forall k :: 0 <= k < |before| ==> before[k].Time() <= after[k].Time()
  {
    RepairOrdersTimes(stops);
    PassSettles(stops, |stops|);
    assert FilledList(stops)[..|stops|] == FilledList(stops);
    var es := ServedEvents(FilledList(stops));
    forall k | 0 <= k < |es|
      ensures es[k].Time() <= AllSettled(es)[k].Time()
    {
      OrderedOriginsOnlyAdd(es, k);
    }
  }

  // ---------------------------------------------------------------- acceptance

  predicate HasTime(s: Stop) {
    s.arr.time.Some? || s.dep.time.Some?
  }

  predicate ServedSomehow(s: Stop) {
    !s.arr.Deleted() || !s.dep.Deleted()
  }

  /** A stop without time can borrow one: some stop before it is served. */
  predicate CanBorrow(stops: seq<Stop>, i: nat)
    requires i <= |stops|
  {
    exists j :: 0 <= j < i && ServedSomehow(stops[j])
  }

  lemma InspectAccepts(p: Pass, s: Stop)
    ensures Inspect(p, s).ok <==> p.ok && s.order == Some(|p.stops|) && (HasTime(s) || p.prev.Some?)
    ensures Inspect(p, s).ok ==> (Inspect(p, s).prev.Some? <==> p.prev.Some? || ServedSomehow(s))
  {
  }

  /** A trip is accepted exactly when its orders have no gap and every stop has a time or a served stop before it. */
  lemma {:induction false} RepairAcceptsExactly(stops: seq<Stop>, k: nat)
    requires k <= |stops|
    ensures Repair(stops, k).ok <==>
      forall i :: 0 <= i < k ==> stops[i].order == Some(i) && (HasTime(stops[i]) || CanBorrow(stops, i))
    ensures Repair(stops, k).ok ==> (Repair(stops, k).prev.Some? <==> CanBorrow(stops, k))
  {
    hide Inspect, HasTime, ServedSomehow;
    if k > 0 {
      RepairAcceptsExactly(stops, k - 1);
      InspectAccepts(Repair(stops, k - 1), stops[k - 1]);
    }
  }

  /** Acceptance, on the input. */
  predicate Acceptable(stops: seq<Stop>) {
    forall i :: 0 <= i < |stops| ==> stops[i].order == Some(i) && (HasTime(stops[i]) || CanBorrow(stops, i))
  }

  lemma AcceptableBeginning(stops: seq<Stop>)
    requires stops != [] && Acceptable(stops)
    ensures Acceptable(stops[..|stops| - 1])
  {
    var before := stops[..|stops| - 1];
    forall i | 0 <= i < |before|
      ensures before[i].order == Some(i) && (HasTime(before[i]) || CanBorrow(before, i))
    {
      assert before[i] == stops[i];
      if CanBorrow(stops, i) {
        var j :| 0 <= j < i && ServedSomehow(stops[j]);
        assert ServedSomehow(before[j]);
      }
    }
  }

  /** The last event of some served ones, once settled. */
  function LastSettled(es: seq<ServedEvent>): Option<Point> {
    if es == [] then None
    else
      var last := Settled(es, |es| - 1);
      Some(Point(last.Time(), last.delay))
  }

  /** Filling one more stop. */
  lemma NextFilled(stops: seq<Stop>, before: seq<Stop>)
    requires stops != [] && Acceptable(stops) && |before| == |stops| - 1 && AllTimed(before)
    requires ServedEvents(before) != [] <==> CanBorrow(stops[..|stops| - 1], |stops| - 1)
    ensures var filled := Filled(LastSettled(ServedEvents(before)), stops[|stops| - 1]);
      && filled.Some? && AllTimed(before + [filled.value])
      && (ServedEvents(before + [filled.value]) != [] <==> CanBorrow(stops, |stops|))
  {
    var n := |stops| - 1;
    SameBorrowing(stops, n);
    var filled := Filled(LastSettled(ServedEvents(before)), stops[n]);
    ServedNext(before, filled.value);
    hide ServedEvents, Settled, SettledDelay;
    assert CanBorrow(stops, n + 1) <==> CanBorrow(stops, n) || ServedSomehow(stops[n]);
  }

  lemma SameBorrowing(stops: seq<Stop>, n: nat)
    requires n < |stops|
    ensures CanBorrow(stops[..n], n) <==> CanBorrow(stops, n)
  {
  }

  /**
   * The null-filled list as a function of the input: a stop without time takes that of the last served event before
   * it, once settled.
   */
  function FilledInput(stops: seq<Stop>): (r: seq<Stop>)
    requires Acceptable(stops)
    ensures |r| == |stops| && AllTimed(r)
    ensures ServedEvents(r) != [] <==> CanBorrow(stops, |stops|)
  {
    if stops == [] then []
    else
      AcceptableBeginning(stops);
      var before := FilledInput(stops[..|stops| - 1]);
      NextFilled(stops, before);
      before + [Filled(LastSettled(ServedEvents(before)), stops[|stops| - 1]).value]
  }

  lemma UpToLast(es: seq<ServedEvent>, out: seq<ServedEvent>, prev: Option<Point>)
    requires UpTo(es, out, prev)
    ensures prev == LastSettled(es)
  {
  }

  lemma {:induction false} FilledFromInput(stops: seq<Stop>, k: nat)
    requires k <= |stops| && Acceptable(stops[..k]) && Repair(stops, k).ok
    ensures FilledList(stops)[..k] == FilledInput(stops[..k])
  {
    hide *;
    var input, filled := stops[..k], FilledList(stops)[..k];
    if k > 0 {
      var before, s := filled[..k - 1], stops[k - 1];
      assert input[..k - 1] == stops[..k - 1] && input[k - 1] == s && before == FilledList(stops)[..k - 1];
      AcceptableBeginning(input);
      RepairPrefix(stops, k - 1, k);
      FilledFromInput(stops, k - 1);
      PassSettles(stops, k - 1);
      var prev := Repair(stops, k - 1).prev;
      UpToLast(ServedEvents(before), ServedEvents(Repair(stops, k - 1).stops), prev);
      NextInputFilled(input);
      FilledNext(stops, k - 1);
    } else {
      NoInputFilled();
    }
  }

  lemma NoInputFilled()
    ensures Acceptable([]) && FilledInput([]) == []
  {
  }

  lemma NextInputFilled(stops: seq<Stop>)
    requires stops != [] && Acceptable(stops) && Acceptable(stops[..|stops| - 1])
    ensures var before := FilledInput(stops[..|stops| - 1]);
            FilledInput(stops) == before + [Filled(LastSettled(ServedEvents(before)),
                                                   stops[|stops| - 1]).GetOr(stops[|stops| - 1])]
  {
    NextFilled(stops, FilledInput(stops[..|stops| - 1]));
  }

  lemma FilledNext(stops: seq<Stop>, k: nat)
    requires k < |stops|
    ensures FilledList(stops)[..k + 1]
      == FilledList(stops)[..k] + [Filled(Repair(stops, k).prev, stops[k]).GetOr(stops[k])]
  {
    hide Filled, Repair;
  }

  /** Acceptance and order of the repaired list, as conditions on the input alone. */
  lemma RepairedFromInput(stops: seq<Stop>)
    ensures Repaired(stops).ok <==> Acceptable(stops)
    ensures Repaired(stops).ok ==>
      && FilledList(stops) == FilledInput(stops)
      && AllTimed(Repaired(stops).stops)
      && ServedEvents(Repaired(stops).stops) == AllSettled(ServedEvents(FilledInput(stops)))
      && (TimesOrdered(ServedEvents(Repaired(stops).stops)) <==> !DelayCarriedBack(ServedEvents(FilledInput(stops))))
  {
    hide ServedEvents, AllTimed, Repair, FilledInput, DelayCarriedBack, TimesOrdered;
    RepairAcceptsExactly(stops, |stops|);
    assert stops[..|stops|] == stops && FilledList(stops)[..|stops|] == FilledList(stops);
    if Repaired(stops).ok {
      FilledFromInput(stops, |stops|);
      PassSettles(stops, |stops|);
      RepairOrdersTimes(stops);
    }
  }

  /** A refused list shows it: it keeps a wrong order or a missing time. */
  lemma {:induction false} RefusedIsIncomplete(stops: seq<Stop>, k: nat)
    requires k <= |stops| && !Repair(stops, k).ok
    ensures exists i :: 0 <= i < k && (Repair(stops, k).stops[i].order != Some(i) || !Timed(Repair(stops, k).stops[i]))
  {
    var before, s := Repair(stops, k - 1), stops[k - 1];
    if !before.ok {
      RefusedIsIncomplete(stops, k - 1);
      var i :| 0 <= i < k - 1 && (before.stops[i].order != Some(i) || !Timed(before.stops[i]));
      assert Repair(stops, k).stops[i] == before.stops[i];
    } else {
      assert Repair(stops, k).stops[k - 1] == s && (s.order != Some(k - 1) || !Timed(s));
    }
  }

  // ---------------------------------------------------------------- chains

  /** The times of a stop known, each delay known, arrival no later than departure, nothing earlier than `last`. */
  predicate InChain(last: Option<int>, s: Stop) {
    && s.arr.delay.Some? && s.dep.delay.Some?
    && (s.arr.time.Some? <==> s.dep.time.Some?)
    && (last.Some? ==> s.arr.time.Some? && last.value <= s.arr.time.value)
    && (s.arr.time.Some? ==> s.arr.time.value <= s.dep.time.value)
  }

  function DepartureBefore(stops: seq<Stop>, i: nat): Option<int>
    requires i <= |stops|
  {
    if i == 0 then None else stops[i - 1].dep.time
  }

  /** arr0 <= dep0 <= arr1 <= ... over all events, deleted ones included, times missing only at the start. */
  ghost predicate Chain(stops: seq<Stop>) {
    forall i :: 0 <= i < |stops| ==> InChain(DepartureBefore(stops, i), stops[i])
  }

  lemma InspectInChain(p: Pass, last: Option<int>, s: Stop)
    requires InChain(last, s)
    requires p.prev.Some? ==> last.Some? && p.prev.value.time <= last.value
    ensures Inspect(p, s).stops == p.stops + [s]
    ensures Inspect(p, s).ok <==> p.ok && s.order == Some(|p.stops|) && s.arr.time.Some?
    ensures Inspect(p, s).prev.Some? ==> s.dep.time.Some? && Inspect(p, s).prev.value.time <= s.dep.time.value
  {
  }

  /** The pass so far has accepted exactly the gapless, timed beginnings and its point is behind the last departure. */
  ghost predicate FollowsChain(stops: seq<Stop>, p: Pass)
    requires |p.stops| <= |stops|
  {
    var k := |p.stops|;
    && (p.ok <==> forall i :: 0 <= i < k ==> stops[i].order == Some(i) && stops[i].arr.time.Some?)
    && (p.prev.Some? ==> DepartureBefore(stops, k).Some? && p.prev.value.time <= DepartureBefore(stops, k).value)
  }

  lemma ChainStep(stops: seq<Stop>, p: Pass, q: Pass)
    requires |p.stops| < |stops| && p.stops == stops[..|p.stops|] && FollowsChain(stops, p)
    requires var s := stops[|p.stops|];
      && q.stops == p.stops + [s]
      && (q.ok <==> p.ok && s.order == Some(|p.stops|) && s.arr.time.Some?)
      && (q.prev.Some? ==> s.dep.time.Some? && q.prev.value.time <= s.dep.time.value)
    ensures q.stops == stops[..|q.stops|] && FollowsChain(stops, q)
  {
  }

  lemma LinkInChain(stops: seq<Stop>, i: nat)
    requires Chain(stops) && i < |stops|
    ensures InChain(DepartureBefore(stops, i), stops[i])
  {
  }

  lemma EmptyFollowsChain(stops: seq<Stop>)
    ensures FollowsChain(stops, Pass(true, None, []))
  {
  }

  lemma ChainTurn(stops: seq<Stop>, p: Pass)
    requires Chain(stops) && |p.stops| < |stops| && p.stops == stops[..|p.stops|] && FollowsChain(stops, p)
    ensures var q := Inspect(p, stops[|p.stops|]);
            |q.stops| == |p.stops| + 1 && q.stops == stops[..|q.stops|] && FollowsChain(stops, q)
  {
    hide Inspect, InChain, Chain;
    var k := |p.stops|;
    LinkInChain(stops, k);
    InspectInChain(p, DepartureBefore(stops, k), stops[k]);
    ChainStep(stops, p, Inspect(p, stops[k]));
  }

  lemma {:induction false} ChainIsFixed(stops: seq<Stop>, k: nat)
    requires k <= |stops| && Chain(stops)
    ensures Repair(stops, k).stops == stops[..k] && FollowsChain(stops, Repair(stops, k))
  {
    hide *;
    if k > 0 {
      ChainIsFixed(stops, k - 1);
      ChainTurn(stops, Repair(stops, k - 1));
      RepairNext(stops, k - 1);
    } else {
      EmptyFollowsChain(stops);
      RepairStarts(stops);
    }
  }

  lemma RepairNext(stops: seq<Stop>, k: nat)
    requires k < |stops|
    ensures Repair(stops, k + 1) == Inspect(Repair(stops, k), stops[k])
  {
    hide Inspect;
  }

  lemma RepairStarts(stops: seq<Stop>)
    ensures Repair(stops, 0) == Pass(true, None, [])
  {
  }

  lemma {:induction false} ChainTimesPersist(stops: seq<Stop>, i: nat, j: nat)
    requires Chain(stops) && i <= j < |stops| && stops[i].arr.time.Some?
    ensures Timed(stops[i]) && Timed(stops[j])
    ensures i < j ==> stops[i].dep.time.value <= stops[j].arr.time.value
  {
    hide Chain;
    LinkInChain(stops, i);
    if i < j {
      ChainTimesPersist(stops, i, j - 1);
      LinkInChain(stops, j);
      LinkInChain(stops, j - 1);
    }
  }

  /**
   * For a chain, acceptance only asks for gapless orders and a time at the first stop; nothing is modified either way.
   */
  lemma ChainRepair(stops: seq<Stop>)
    requires Chain(stops)
    ensures Repaired(stops).stops == stops
    ensures Repaired(stops).ok <==> OrdersAreIndexes(stops) && (stops == [] || stops[0].arr.time.Some?)
  {
    ChainIsFixed(stops, |stops|);
    assert stops[..|stops|] == stops;
    if stops != [] && stops[0].arr.time.Some? {
      forall j | 0 <= j < |stops|
        ensures stops[j].arr.time.Some?
      {
        ChainTimesPersist(stops, 0, j);
      }
    }
  }
}
