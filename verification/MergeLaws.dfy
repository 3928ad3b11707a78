/** What a merge guarantees when the feed says something about every stop it visits. */
module MergeLaws {
  import opened Basics
  import opened StopTimes
  import opened MergeRules
  import opened RepairLaws

  // ---------------------------------------------------------------- one stop

  function Latest(a: Option<int>, b: Option<int>): Option<int> {
    if a.None? then b else if b.None? then a else Some(Max(a.value, b.value))
  }

  /** The time a feed announces for an event, before any push. */
  function Announced(base: Option<int>, input: Event): Option<int>
    requires input.CarriesDelay()
  {
    UpdateInfo(base, input).time
  }

  /** An event that leaves a base event in place, possibly delayed. */
  predicate KeepsBase(e: Event) {
    e.status == Update || e.status == NoChange
  }

  /** The delay the feed gives to an event that keeps its base time. */
  function FeedDelay(e: Event): int {
    if e.status == Update then e.delay.GetOr(0) else 0
  }

  lemma UpdatedTimes(baseArr: Option<int>, baseDep: Option<int>, last: Option<int>, input: Stop, id: StopId, order: int)
    requires input.CarriesDelay()
    ensures var u := Updated(baseArr, baseDep, last, input, id, order);
            var arr, dep := Announced(baseArr, input.arr), Announced(baseDep, input.dep);
            && u.arr.time == Latest(last, if arr.Some? then arr else dep)
            && u.dep.time == Latest(u.arr.time, dep)
            && InChain(last, u)
  {
  }

  /** Base datetime plus stored delay is the stored time, and pushes only ever add to the feed's delay. */
  lemma UpdatedConserves(baseArr: Option<int>, baseDep: Option<int>, last: Option<int>, input: Stop, id: StopId,
                         order: int, side: Side)
    requires input.CarriesDelay() && KeepsBase(input.At(side))
    requires (if side == Arrival then baseArr else baseDep).Some?
    ensures var e := Updated(baseArr, baseDep, last, input, id, order).At(side);
            var base := if side == Arrival then baseArr.value else baseDep.value;
            e.time.Some? && e.delay.Some? && e.status == input.At(side).status
            && Origin(e) == base && FeedDelay(input.At(side)) <= e.delay.value
  {
  }

  /** What a feed announces, by status: a time relative to the base, a time of its own, or none. */
  lemma AnnouncedByStatus(base: Option<int>, input: Event)
    requires input.CarriesDelay()
    ensures input.status == NoChange ==> Announced(base, input) == base
    ensures input.status == Update ==>
      (Announced(base, input).Some? <==> base.Some?)
        && (base.Some? ==> Announced(base, input).value - base.value == input.delay.value)
    ensures input.status in {Add, AddedForDetour} ==>
      (Announced(base, input).Some? <==> input.time.Some?)
      && (input.time.Some? ==>
            Announced(base, input).value - input.time.value == if input.delay.Some? then input.delay.value else 0)
    ensures input.status in {Delete, DeletedForDetour} ==> Announced(base, input).None?
  {
  }

  /** The time of an event before any push: announced, or else the other event's, or else the last departure. */
  function Unpushed(own: Option<int>, other: Option<int>, last: Option<int>): Option<int> {
    if own.Some? then own else if other.Some? then other else last
  }

  /** Whatever its status, an event is stored with the delay announced for it plus the time it has been pushed by. */
  lemma UpdatedDelays(baseArr: Option<int>, baseDep: Option<int>, last: Option<int>, input: Stop, id: StopId,
                      order: int, side: Side)
    requires input.CarriesDelay()
    ensures var u := Updated(baseArr, baseDep, last, input, id, order).At(side);
            var arr, dep := Announced(baseArr, input.arr), Announced(baseDep, input.dep);
            var unpushed := if side == Arrival then Unpushed(arr, dep, last) else Unpushed(dep, arr, last);
      && (u.time.Some? <==> unpushed.Some?) && u.delay.Some?
      && u.delay.value == FeedDelay(input.At(side)) + if u.time.Some? then u.time.value - unpushed.value else 0
  {
  }

  /** The clock sees an added stop at the time of day at which each of its added events is announced. */
  lemma AddedStopOnClock(order: int, entry: Stop, db: Option<seq<Stop>>, base: Option<int>, side: Side)
    requires FakeStop(order, entry, db).Some? && entry.At(side).Added() && entry.At(side).time.Some?
    ensures Announced(base, entry.At(side)).Some?
    ensures BaseTime(side, FakeStop(order, entry, db).value) == Some(TimeOf(Announced(base, entry.At(side)).value))
  {
    hide FindStop;
  }

  // ---------------------------------------------------------------- feeds that cover what they visit

  ghost predicate Covering(items: seq<Item>, feed: seq<Stop>) {
    forall i {:trigger items[i]} :: 0 <= i < |items| ==> FindStop(feed, items[i].nav.id, items[i].order).Some?
  }

  /** What the feed says about a visited stop. */
  function Entry(item: Item, feed: seq<Stop>): Stop
    requires FindStop(feed, item.nav.id, item.order).Some?
  {
    FindStop(feed, item.nav.id, item.order).value
  }

  lemma StepIgnoresStored(s: Loop, t: Loop, item: Item, db: seq<Stop>, feed: seq<Stop>)
    requires UpdatesCarryDelay(feed) && FindStop(feed, item.nav.id, item.order).Some?
    requires s.clock == t.clock && s.last == t.last && s.out == t.out
    ensures var with, without := Step(s, item, Some(db), feed), Step(t, item, None, feed);
            && with.clock == without.clock && with.last == without.last && with.out == without.out
            && (with.changed <==> s.changed || FindStop(db, item.nav.id, item.order) != Some(with.out[|s.out|]))
  {
  }

  lemma {:induction false} RunPrefix(date: int, items: seq<Item>, db: Option<seq<Stop>>, feed: seq<Stop>, i: nat,
                                     k: nat)
    requires UpdatesCarryDelay(feed) && i < k <= |items|
    ensures Run(date, items, db, feed, k).out[i] == Run(date, items, db, feed, i + 1).out[i]
  {
    hide Step;
    if i + 1 < k {
      RunPrefix(date, items, db, feed, i, k - 1);
    }
  }

  /** The stop list rebuilt from the base schedule and the feed alone. */
  function Rebuilt(date: int, items: seq<Item>, feed: seq<Stop>): (r: seq<Stop>)
    requires UpdatesCarryDelay(feed)
    ensures |r| == |items|
  {
    Run(date, items, None, feed, |items|).out
  }

  /** Some visited stop is not found, as rebuilt, in the stored list. */
  ghost predicate Differs(items: seq<Item>, stored: seq<Stop>, rebuilt: seq<Stop>, k: nat)
    requires k <= |items| && k <= |rebuilt|
  {
    exists i {:trigger items[i]} :: 0 <= i < k && FindStop(stored, items[i].nav.id, items[i].order) != Some(rebuilt[i])
  }

  /** On a covering feed the stored trip has no say in the list; it only decides whether anything changes. */
  lemma {:induction false} CoveringRunIgnoresStored(date: int, items: seq<Item>, db: seq<Stop>, feed: seq<Stop>, k: nat)
    requires UpdatesCarryDelay(feed) && Covering(items, feed) && k <= |items|
    ensures var with, without := Run(date, items, Some(db), feed, k), Run(date, items, None, feed, k);
            && with.clock == without.clock && with.last == without.last && with.out == without.out
            && (with.changed <==> Differs(items, db, without.out, k))
  {
    if k > 0 {
      CoveringRunIgnoresStored(date, items, db, feed, k - 1);
      var with, without := Run(date, items, Some(db), feed, k - 1), Run(date, items, None, feed, k - 1);
      StepIgnoresStored(with, without, items[k - 1], db, feed);
      var out := Run(date, items, None, feed, k).out;
      assert out == without.out + [out[k - 1]];
      DiffersStep(items, db, without.out, out, k);
    }
  }

  lemma DiffersStep(items: seq<Item>, stored: seq<Stop>, before: seq<Stop>, out: seq<Stop>, k: nat)
    requires 0 < k <= |items| && |before| == k - 1 && |out| == k && out == before + [out[k - 1]]
    ensures Differs(items, stored, out, k) <==>
      Differs(items, stored, before, k - 1)
        || FindStop(stored, items[k - 1].nav.id, items[k - 1].order) != Some(out[k - 1])
  {
  }

  lemma CoveringRunFromNothing(date: int, items: seq<Item>, feed: seq<Stop>, k: nat)
    requires UpdatesCarryDelay(feed) && k <= |items|
    ensures Run(date, items, None, feed, k).changed <==> k > 0
  {
  }

  // ---------------------------------------------------------------- base datetimes along the loop

  function TickAt(items: seq<Item>, db: Option<seq<Stop>>, feed: seq<Stop>, i: nat, side: Side): Tick
    requires i < |items|
  {
    TickOf(side, items[i], db, FindStop(feed, items[i].nav.id, items[i].order))
  }

  function ClockAt(date: int, items: seq<Item>, db: Option<seq<Stop>>, feed: seq<Stop>, i: nat, side: Side): Clock
    requires UpdatesCarryDelay(feed) && i < |items|
  {
    var arr := Advance(Run(date, items, db, feed, i).clock, TickAt(items, db, feed, i, Arrival));
    if side == Arrival then arr else Advance(arr, TickAt(items, db, feed, i, Departure))
  }

  /** The base datetime the loop gives to an event of the i-th visited stop. */
  function BaseAt(date: int, items: seq<Item>, db: Option<seq<Stop>>, feed: seq<Stop>, i: nat, side: Side): Option<int>
    requires UpdatesCarryDelay(feed) && i < |items|
  {
    Dated(ClockAt(date, items, db, feed, i, side), TickAt(items, db, feed, i, side))
  }

  function AnnouncedAt(date: int, items: seq<Item>, feed: seq<Stop>, i: nat, side: Side): Option<int>
    requires UpdatesCarryDelay(feed) && i < |items| && Covering(items, feed)
  {
    var item := items[i];
    Announced(BaseAt(date, items, None, feed, i, side), Entry(item, feed).At(side))
  }

  lemma CoveringStop(date: int, items: seq<Item>, feed: seq<Stop>, i: nat)
    requires UpdatesCarryDelay(feed) && Covering(items, feed) && i < |items|
    ensures var before, item := Run(date, items, None, feed, i), items[i];
            var s := Updated(BaseAt(date, items, None, feed, i, Arrival), BaseAt(date, items, None, feed, i, Departure),
                             before.last, Entry(item, feed), item.nav.id, item.order);
            && Run(date, items, None, feed, i + 1).out == before.out + [s]
            && Run(date, items, None, feed, i + 1).last == s.dep.time
            && Rebuilt(date, items, feed)[i] == s
  {
    RunPrefix(date, items, None, feed, i, |items|);
    var item := items[i];
  }

  lemma {:induction false} LastIsDeparture(date: int, items: seq<Item>, feed: seq<Stop>, k: nat)
    requires UpdatesCarryDelay(feed) && Covering(items, feed) && k <= |items|
    ensures Run(date, items, None, feed, k).last == DepartureBefore(Rebuilt(date, items, feed), k)
  {
    if k > 0 {
      CoveringStop(date, items, feed, k - 1);
    }
  }

  /** arr0 <= dep0 <= arr1 <= ... over every event of the rebuilt list, deleted events included. */
  lemma RebuiltIsChain(date: int, items: seq<Item>, feed: seq<Stop>)
    requires UpdatesCarryDelay(feed) && Covering(items, feed)
    ensures Chain(Rebuilt(date, items, feed))
    ensures forall i {:trigger items[i]} :: 0 <= i < |items| ==>
      Rebuilt(date, items, feed)[i].id == items[i].nav.id && Rebuilt(date, items, feed)[i].order == Some(items[i].order)
  {
    var out := Rebuilt(date, items, feed);
    forall i | 0 <= i < |items|
      ensures InChain(DepartureBefore(out, i), out[i])
      ensures out[i].id == items[i].nav.id && out[i].order == Some(items[i].order)
    {
      CoveringStop(date, items, feed, i);
      LastIsDeparture(date, items, feed, i);
      var item := items[i];
      UpdatedTimes(BaseAt(date, items, None, feed, i, Arrival), BaseAt(date, items, None, feed, i, Departure),
                   Run(date, items, None, feed, i).last, Entry(item, feed), item.nav.id, item.order);
    }
  }

  /** Id, order, message and statuses of a rebuilt stop are those visited and those of the feed. */
  lemma RebuiltCarries(date: int, items: seq<Item>, feed: seq<Stop>, i: nat)
    requires UpdatesCarryDelay(feed) && Covering(items, feed) && i < |items|
    ensures var item, s := items[i], Rebuilt(date, items, feed)[i];
      && s.id == item.nav.id && s.order == Some(item.order) && s.message == Entry(item, feed).message
      && forall side :: s.At(side).status == Entry(item, feed).At(side).status
  {
    hide Run, FindStop, BaseAt;
    CoveringStop(date, items, feed, i);
  }

  /** The tick of an event: served as the feed says, else as the stored trip says, else as the base schedule does. */
  lemma TickBySource(items: seq<Item>, db: Option<seq<Stop>>, feed: seq<Stop>, i: nat, side: Side)
    requires i < |items|
    ensures var item, tick := items[i], TickAt(items, db, feed, i, side);
            var entry := FindStop(feed, item.nav.id, item.order);
            var stored := if db.Some? then FindStop(db.value, item.nav.id, item.order) else None;
      && tick.time == (if side == Arrival then item.nav.arr else item.nav.dep)
      && tick.delay == (if entry.Some? && entry.value.At(side).delay.Some? then entry.value.At(side).delay.value else 0)
      && (entry.Some? ==> (tick.served <==> entry.value.At(side).status !in {Delete, DeletedForDetour}))
      && (entry.None? && stored.Some? ==>
          (tick.served <==> stored.value.At(side).status !in {Delete, DeletedForDetour}))
      && (entry.None? && stored.None? ==> (tick.served <==> tick.time.Some?))
  {
    hide FindStop;
  }

  /** The times announced for a stop. */
  datatype Announcement = Announcement(arr: Option<int>, dep: Option<int>) {
    function At(side: Side): Option<int> {
      if side == Arrival then arr else dep
    }
  }

  function Announcements(date: int, items: seq<Item>, feed: seq<Stop>): (r: seq<Announcement>)
    requires UpdatesCarryDelay(feed) && Covering(items, feed)
    ensures |r| == |items|
  {
    seq(|items|, i requires 0 <= i < |items| =>
      Announcement(AnnouncedAt(date, items, feed, i, Arrival), AnnouncedAt(date, items, feed, i, Departure)))
  }

  /** m is the latest of the times announced for the first k stops, None when there is none. */
  ghost predicate LatestOf(m: Option<int>, announced: seq<Announcement>, k: nat)
    requires k <= |announced|
  {
    && (forall j :: 0 <= j < k && announced[j].arr.Some? ==> m.Some? && announced[j].arr.value <= m.value)
    && (forall j :: 0 <= j < k && announced[j].dep.Some? ==> m.Some? && announced[j].dep.value <= m.value)
    && (m.Some? ==> exists j :: 0 <= j < k && (announced[j].arr == m || announced[j].dep == m))
  }

  lemma LatestStep(m: Option<int>, last: Option<int>, announced: seq<Announcement>, i: nat)
    requires i < |announced| && LatestOf(last, announced, i)
    requires var a := announced[i]; m == Latest(Latest(last, if a.arr.Some? then a.arr else a.dep), a.dep)
    ensures LatestOf(m, announced, i + 1)
  {
  }

  /** Stored departures follow from the announcements; stored arrivals from the departure before them. */
  lemma RebuiltTimes(date: int, items: seq<Item>, feed: seq<Stop>, i: nat)
    requires UpdatesCarryDelay(feed) && Covering(items, feed) && i < |items|
    ensures var out, a := Rebuilt(date, items, feed), Announcements(date, items, feed)[i];
            && out[i].arr.time == Latest(DepartureBefore(out, i), if a.arr.Some? then a.arr else a.dep)
            && out[i].dep.time == Latest(out[i].arr.time, a.dep)
  {
    var item := items[i];
    CoveringStop(date, items, feed, i);
    LastIsDeparture(date, items, feed, i);
    UpdatedTimes(BaseAt(date, items, None, feed, i, Arrival), BaseAt(date, items, None, feed, i, Departure),
                 Run(date, items, None, feed, i).last, Entry(item, feed), item.nav.id, item.order);
  }

  /** Every stored departure is the latest of all times announced up to its stop. */
  lemma {:induction false} PrefixMaximum(date: int, items: seq<Item>, feed: seq<Stop>, i: nat)
    requires UpdatesCarryDelay(feed) && Covering(items, feed) && i < |items|
    ensures LatestOf(Rebuilt(date, items, feed)[i].dep.time, Announcements(date, items, feed), i + 1)
  {
    if i > 0 {
      PrefixMaximum(date, items, feed, i - 1);
    }
    RebuiltTimes(date, items, feed, i);
    LatestStep(Rebuilt(date, items, feed)[i].dep.time, DepartureBefore(Rebuilt(date, items, feed), i),
               Announcements(date, items, feed), i);
  }

  /** No event before this one is announced later than t. */
  ghost predicate NoneAnnouncedLater(announced: seq<Announcement>, j: nat, side: Side, t: int)
    requires j < |announced|
  {
    forall i, s :: 0 <= i <= j && Before(i, s, j, side) && announced[i].At(s).Some? ==> announced[i].At(s).value <= t
  }

  lemma LatestAgainst(m: Option<int>, announced: seq<Announcement>, j: nat, t: int)
    requires j < |announced| && LatestOf(m, announced, j)
    ensures (m.None? || m.value <= t) <==> NoneAnnouncedLater(announced, j, Arrival, t)
  {
    if m.Some? {
      var i :| 0 <= i < j && (announced[i].arr == m || announced[i].dep == m);
      assert announced[i].At(Arrival) == announced[i].arr && announced[i].At(Departure) == announced[i].dep;
      assert Before(i, Arrival, j, Arrival) && Before(i, Departure, j, Arrival);
    }
  }

  /** An event is stored at the time announced for it exactly when no event before it is announced later. */
  lemma StoredAsAnnounced(date: int, items: seq<Item>, feed: seq<Stop>, j: nat, side: Side)
    requires UpdatesCarryDelay(feed) && Covering(items, feed) && j < |items|
    requires Announcements(date, items, feed)[j].At(side).Some?
    ensures var announced := Announcements(date, items, feed); var t := announced[j].At(side);
            Rebuilt(date, items, feed)[j].At(side).time == t <==> NoneAnnouncedLater(announced, j, side, t.value)
  {
    hide Run, Rebuilt, LatestOf, NoneAnnouncedLater;
    var announced := Announcements(date, items, feed);
    var out, t := Rebuilt(date, items, feed), announced[j].At(side).value;
    RebuiltTimes(date, items, feed, j);
    if j > 0 {
      PrefixMaximum(date, items, feed, j - 1);
    } else {
      NothingAnnounced(announced);
    }
    LatestAgainst(DepartureBefore(out, j), announced, j, t);
    ArrivalFirst(announced, j, t);
  }

  lemma NothingAnnounced(announced: seq<Announcement>)
    ensures LatestOf(None, announced, 0)
  {
  }

  lemma ArrivalFirst(announced: seq<Announcement>, j: nat, t: int)
    requires j < |announced|
    ensures NoneAnnouncedLater(announced, j, Departure, t) <==>
      NoneAnnouncedLater(announced, j, Arrival, t) && (announced[j].arr.Some? ==> announced[j].arr.value <= t)
  {
    assert announced[j].At(Arrival) == announced[j].arr && Before(j, Arrival, j, Departure);
    assert forall i, s :: 0 <= i <= j ==>
      (Before(i, s, j, Departure) <==> Before(i, s, j, Arrival) || (i == j && s == Arrival));
  }

  /** An event that keeps its base time is stored with exactly that base, at least as late as the feed says. */
  lemma RebuiltConserves(date: int, items: seq<Item>, feed: seq<Stop>, i: nat, side: Side)
    requires UpdatesCarryDelay(feed) && Covering(items, feed) && i < |items|
    requires var item := items[i]; KeepsBase(Entry(item, feed).At(side))
    requires BaseAt(date, items, None, feed, i, side).Some?
    ensures var e := Rebuilt(date, items, feed)[i].At(side); var item := items[i];
            && e.time.Some? && e.delay.Some?
            && Origin(e) == BaseAt(date, items, None, feed, i, side).value
            && FeedDelay(Entry(item, feed).At(side)) <= e.delay.value
  {
    var item := items[i];
    CoveringStop(date, items, feed, i);
    UpdatedConserves(BaseAt(date, items, None, feed, i, Arrival), BaseAt(date, items, None, feed, i, Departure),
                     Run(date, items, None, feed, i).last, Entry(item, feed), item.nav.id, item.order, side);
  }
}
