# Kirin's real-time merge engine

Kirin keeps, for each dated vehicle journey, the real-time state of the trip. A trip has a *base schedule* (stops with
times of day only), possibly a *stored trip* (the result of everything received so far) and an incoming *feed*. `merge`
combines the three into one dated stop list, `manage_consistency` accepts and repairs it, and `handle` drives both over
a batch and links the accepted trips to the message that is published. This project models that engine and the parts of
the connectors whose output it relies on, and proves what the composition guarantees over every input and every run.

## How it is organised

| file | role |
|---|---|
| `Basics.dfy` | `Option`, `Result`, instants (seconds) as date and time of day |
| `StopTimes.dfy` | the records, as values and as mutable classes; `find_stop` |
| `MergeRules.dfy`, `Merging.dfy` | `merge` as functions on values, and as methods that update the records, proved equal |
| `RepairRules.dfy`, `Consistency.dfy` | `manage_consistency` likewise |
| `Handling.dfy` | one trip through merge, repair, storage and link |
| `RepairLaws.dfy`, `MergeLaws.dfy`, `FeedLaws.dfy` | laws of the repair, of the loop, and of whole merges |
| `Resending.dfy` | the same complete feed again, with stops outside the base schedule |
| `Midnight.dfy` | when dates rebuilt from times of day are the true ones |
| `Runs.dfy` | invariants over runs of feeds for one trip |
| `Driver.dfy`, `Handler.dfy` | `handle` over a batch and a database, as functions and as methods; the commit |
| `Counterexamples.dfy` | inputs at which the engine falls short, followed through merge and repair |
| `StartDates.dfy` | the start timestamp of a vehicle journey and its search window |
| `Sorting.dfy`, `StopWindow.dfy`, `StopFilters.dfy` | the stop filters of the COTS and PIV connectors |
| `GtfsRt.dfy`, `CotsFeed.dfy`, `LifeCycle.dfy` | GTFS-RT alignment, the COTS stop loop, the COTS life cycle of added trips |

Each imperative operation is a method whose postcondition equates its effect with a function on values (a *rule*); the
properties are lemmas about the rules. The rules transcribe these lines: `Served` (merge_utils.py:52-79), `ValidOutsideBase`
(82-136), `FakeStop` (139-161), `UpdateInfo` (164-196), `Updated` (199-232), `FeedItems` (235-263), `BaseItems` (266-269),
`PastMidnight` (272-284), `Advance` and `Dated` (363-408), `Keep` (410-460), `Merge` (324-475), `Filled` and `Pushed`
(build_wrapper.py:86-149), `Handle` (180-198).

Instants are integers (seconds), so a date is `t / 86400` and a time of day `t % 86400`. A delay that is zero or missing
is falsy, as in the program. A *full* feed (`FullFeed`) says something about every stop the merge visits: a complete feed,
or an aligned GTFS-RT feed. A *covering* feed (`CoveringFeed`) is a full feed over stops of the base schedule only.

## Premises

* An `update` event carries a delay (`UpdatesCarryDelay`): proved of the COTS loop (`ReadFeedIsWellFormed`) and of the
  GTFS-RT alignment (`AlignedFeedCovers`). It is not proved of PIV, where an update given by its `statutModification`
  alone has no delay (piv/model_maker.py:401-415).
* The stops of a complete feed are numbered by their position, as the ordered list of the records does when stops
  without an order are appended (`TripUpdate.Append`); proved of the COTS loop too.
* `PublishedFeedIsComplete` asks for distinct keys (trip id, start) in one batch; what repeated keys do to the commit and
  to the published feed is stated for all batches (`KeysStayUnique`, `DeliveryFails`, `PublishedExactly`).
* The record-level `Handle` asks that each stored trip of an incremental batch has the shape that earlier incremental
  batches left (`KnownShape`), and that trips of one batch with the same key run over the same stops.
  `IncrementalBatchKeepsShapes` shows that batches re-establish that shape as long as the base schedule of a stored
  journey does not change (`SameSchedules`), which `merge` itself excludes from what it handles (merge_utils.py:320-322).
* Date claims in complete mode speak of the base stop that `find_st_in_vj` returns, the first with the stop's id.
* `ResentFeedExactly` asks that an added stop comes with a time (`AddsAreTimed`); without one,
  `make_fake_realtime_stop_time` raises unless the stop is already stored. `ResentFeed` does without that premise.

## Findings

* **A delay on an added stop accumulates.** When a complete feed delays a stop outside the base schedule without repeating
  its times, `make_fake_realtime_stop_time` reads the stored times, which already hold the delay. Ten minutes on a stop
  added at 09:00 make it 09:10, the very same feed again makes it 09:20, and it is published both times
  (`DelayOfAddedStopAccumulates`, from the feed that adds the stop on). `ResentFeedExactly` says exactly when a complete
  feed sent again is no news.
* **The repair does not always order times.** A push gives an event the delay of its predecessor, which is not enough when
  the base datetimes themselves are out of order. `RepairOrdersTimes` says exactly, on the null-filled input, when times
  end in order; `RepairedFromInput` says it on the input itself, `TimedInputOrder` more simply when every stop has a time.
  `RepairCanLeaveTimesOutOfOrder` follows an incremental feed that leaves out a stop through merge and repair, to a
  published trip whose second stop is reached an hour before the first is left. Full feeds whose
  updates carry their delays never reach that case, since the repair changes no time of their lists
  (`CoveringFeedNeedsNoRepair`, `GapRejection`, `AlignedFeedCovers`): that covers the feeds that COTS and GTFS-RT build.
* **A shortened complete feed is ignored.** The documentation of `merge` (merge_utils.py:312-313) says that a complete
  feed erases and replaces the stored trip. A feed that only drops the last stops of the stored one reports no change and
  the dropped stops stay stored: `ShortenedFeedIsIgnored`, `StoredListAfterFullFeed` for the exact condition, and
  `DroppedTailStaysStored` for a trip of any length and any number of dropped stops.
* **A trip linked twice in one batch fails the whole batch.** Only rows present when the batch starts are looked up, so
  two copies of a new trip are inserted, and the commit meets the unique constraint on trip id and start
  (model.py:101-103). Two copies of a stored trip are linked to the same update twice, and the commit meets the primary key
  of the association (model.py:271-279). Either way nothing of the batch is stored or published.
  `DeliveryFails` is the exact condition: a trip raises, or two trips of the batch are linked under the same key.
  `TwoListsForOneTripFail` is the case of two feeds with different lists for one trip.
* **A refusal can follow a link.** When a batch names a stored trip again and that copy is refused, the trip is published
  as the refusal left it, with a wrong order or a missing time. `PublishedExactly` says exactly when what a batch with
  repeated keys publishes is complete; `RefusalAfterLinkIsPublished` is a batch where it is not.
* **A first stop on the previous day is stored one day late.** A feed usually states no arrival at its first stop. When
  that stop is added in front of the trip, its unstated arrival is dated on the circulation date of the base schedule; a
  departure projected the day before is pushed to it, with a delay of one day, and the rest of the trip goes to the next
  day: `EarlyFirstStopIsADayLate`. tests/integration/cots_test.py:1645-1680 records it as a known issue.
  `OrdinaryTrainIsKept` says exactly when a train with no first arrival and no last departure is stored as projected,
  `FeedFidelity` does so event by event for any feed.
* **The consistency check forgets.** `_check_stop_time_consistency` compares with the departure of the previous stop only,
  and a stop without one clears it (cots/model_maker.py:557), so projections may go back over such a stop:
  `ProjectionsCanGoBack`, and `ProjectionsNeverGoBack` for the exact condition.
* **The repair can move an event earlier**, when it hands on a smaller delay: `RepairNeverAdvances` says exactly when not.
* **Dates follow the delays.** A midnight is missed exactly when, across it, the feed's delay grows by at least a day
  minus the gap, or when an untimed served event lies between the two timed ones: `MidnightRoundTrip`.
  `MidnightMissedByDelay` and `MidnightMissedAfterUntimedStop` are such trips; the second one runs on time and is
  published 22.5 hours late.
* A merge that answers "no change", that raises, or whose result the repair refuses has still changed the stored record
  (status, effect, message, and for a refusal the stops): `Outcome` and `Handled` keep that state, and the publication
  claims are therefore made of linked trips only. When a merge raises, `wrap_build` still commits the session
  (build_wrapper.py:252-262), so what was handled before stays stored although nothing is published: `Close`.
* Comments at merge_utils.py:437-441 speak of updating the order of a stop kept from the database; the code keeps it as
  it is, and so does the model.
* `_get_action_on_trip` passes "PERTURBEE" as the third argument of `get_value` (cots/model_maker.py:280), which is the
  `nullable` flag and not a default: an unstated status is not read as "PERTURBEE", and is refused later (line 414).

## Model

| member | source | states |
|---|---|---|
| Consistency.ManageConsistency | kirin/core/build_wrapper.py:64-151 | the in-place pass answers and leaves every record as the repair rule says; on a refusal the refused stop and all later ones are untouched |
| Consistency.FillStop | kirin/core/build_wrapper.py:86-116 | filling one record, zero delays counting as missing; refused, and left alone, when no time can be given to the arrival |
| Consistency.PushStop | kirin/core/build_wrapper.py:118-149 | delay inheritance on one record, and the event remembered for the next |
| Consistency.InspectStop | kirin/core/build_wrapper.py:85-149 | one accepted or refused turn on a record in its place |
| Consistency.Turn | kirin/core/build_wrapper.py:71-149 | one iteration over a list whose records may alias: the order check comes first, and the part already repaired stays repaired |
| Consistency.RefusedFrom | kirin/core/build_wrapper.py:73-97 | after the first refusal the rest of the list is left as it is |
| RepairLaws.FilledTimes | kirin/core/build_wrapper.py:86-105 | a known time is kept, a missing one is the stop's other time, and a stop without any takes that of the last served event before it, as the pass has left it |
| RepairLaws.FilledDelays | kirin/core/build_wrapper.py:99-116 | a non-zero delay is kept, an event without time otherwise takes the other event's, and else the delay is zero |
| RepairLaws.UnpushedIsFilled | kirin/core/build_wrapper.py:118-149 | a stop whose events are in order, after what comes before, ends with just these times and delays |
| RepairLaws.RemembersLastServed | kirin/core/build_wrapper.py:118-149 | what the pass remembers at a stop is the last served event before it, at its final time and delay |
| RepairRules.Filled | kirin/core/build_wrapper.py:86-116 | filling keeps identity and statuses, changes nothing complete, and fails exactly when there is no time to use |
| RepairRules.Pushed | kirin/core/build_wrapper.py:122-125 | a push keeps time minus delay and the status |
| RepairLaws.RepairKeepsIdentity | kirin/core/build_wrapper.py:64-151 | ids, orders, messages and statuses survive; an accepted list has all times and delays and orders 0..n-1 |
| RepairLaws.RepairConservesOrigins | kirin/core/build_wrapper.py:118-149 | time minus delay after the pass is that of the null-filled input, for every event; a deleted event is never pushed |
| RepairLaws.FillingIsLocal | kirin/core/build_wrapper.py:86-116 | null-filling a stop that has a time does not depend on the stops before it |
| RepairLaws.DelayProvenance | kirin/core/build_wrapper.py:110-149 | with no premise on order, each delay of a served event is the null-filled input delay of a served event at or before it |
| RepairLaws.RepairIsIdempotent | kirin/core/build_wrapper.py:64-151 | a second pass changes nothing, whatever the input |
| RepairLaws.RepairOrdersTimes | kirin/core/build_wrapper.py:118-149 | served times end in order if and only if, in the null-filled input, no delay is handed on from event to event up to one whose base datetime precedes that of the event before it |
| RepairLaws.RepairedFromInput | kirin/core/build_wrapper.py:64-151 | the same, with acceptance and the null-filling, as conditions on the input alone |
| RepairLaws.TimedInputOrder | kirin/core/build_wrapper.py:64-151 | the same on each stop filled on its own when every stop has a time, with acceptance iff orders are 0..n-1 |
| RepairLaws.RepairAcceptsExactly | kirin/core/build_wrapper.py:71-97 | a list is accepted iff orders are 0..n-1 and each stop has a time or a served stop before it |
| RepairLaws.PassSettles | kirin/core/build_wrapper.py:118-149 | the pass pushes the served events one after the other, in the order of the trip, and remembers the last one |
| RepairLaws.RepairIsSound | kirin/core/build_wrapper.py:118-149 | when time minus delay is non-decreasing over served events after filling, served times end in order and nothing moves earlier |
| RepairLaws.RepairNeverAdvances | kirin/core/build_wrapper.py:118-149 | no served event is moved earlier if and only if no event takes over delays that are all smaller than its own |
| RepairLaws.RefusedIsIncomplete | kirin/core/build_wrapper.py:71-97 | a refused list keeps a wrong order or a missing time |
| Counterexamples.RepairCanLeaveTimesOutOfOrder | kirin/core/build_wrapper.py:118-149 | two incremental feeds, the second one partial, after which an accepted and linked trip has times out of order |
| RepairLaws.ChainRepair | kirin/core/build_wrapper.py:71-149 | a list whose times already chain is never modified, and is accepted iff its orders are 0..n-1 and its first stop is timed |
| RepairLaws.ChainTimesPersist | kirin/core/merge_utils.py:207-220 | once one stop is timed, no later comparison meets a missing time |
| StopTimes.FindStopPrefersOrder | kirin/core/model.py:406-415 | the stop found is the first with id and order, or if there is none the first with the id |
| StopTimes.FindStopFindsId | kirin/core/model.py:406-415 | nothing is found iff no stop has the id |
| StopTimes.FindStopAtItsOrder | kirin/core/model.py:406-415 | with orders 0..n-1 a stop is found by its own position even if its id repeats |
| StopTimes.StopTimeUpdate.IsNotEqual | kirin/core/model.py:239-255 | compares the whole recorded value: false iff the two records hold the same one |
| StopTimes.TripUpdate.Find | kirin/core/model.py:406-415 | the record found is the one holding the value that the search on values designates |
| StopTimes.TripUpdate.Append | kirin/core/model.py:306-313 | appending numbers a stop only when it has no order |
| Merging.MakeStopTimeUpdate | kirin/core/merge_utils.py:199-232 | the pushes on local variables compute the rule's record |
| Merging.DateEvent | kirin/core/merge_utils.py:363-408 | the date, the remembered event and the base datetime after one event |
| Merging.KeepStop | kirin/core/merge_utils.py:410-460 | the four cases; the stored record itself is reused only where the values agree with the rule |
| Merging.MergeStop | kirin/core/merge_utils.py:348-463 | one iteration of the loop is one step of the rule on all five pieces of state |
| Merging.MergeStops | kirin/core/merge_utils.py:337-463 | the whole loop is the rule's run, and only new or stored records are kept |
| Merging.Merge | kirin/core/merge_utils.py:287-475 | the record updated in place, its value and the answer are those of the rule, also when nothing changed or the merge raised |
| MergeRules.FeedItems | kirin/core/merge_utils.py:235-263 | visited stops are stops of the feed at their own positions, in strictly increasing order |
| MergeRules.FakeStopTimes | kirin/core/merge_utils.py:139-161 | the times an invented stop is given: those of the feed when it has any, each with its delay, else the stored ones, else it raises |
| MergeRules.FindInBaseIsFirst | kirin/core/merge_utils.py:42-49 | finds the first stop with that id |
| MergeLaws.UpdatedTimes | kirin/core/merge_utils.py:199-220 | stored times are the latest of the previous departure and the announced times, and extend the chain |
| MergeLaws.UpdatedConserves | kirin/core/merge_utils.py:164-232 | stored time minus stored delay is the base datetime, and the stored delay is at least the feed's |
| MergeLaws.AnnouncedByStatus | kirin/core/merge_utils.py:164-196 | the time a feed announces for an event, status by status |
| MergeLaws.UpdatedDelays | kirin/core/merge_utils.py:199-232 | for every status, deleted and added events included, the stored delay is the announced one plus the time the event was pushed by |
| MergeLaws.AddedStopOnClock | kirin/core/merge_utils.py:139-196 | the time of day the clock reads for an added event is the one at which that event is announced |
| MergeLaws.CoveringRunIgnoresStored | kirin/core/merge_utils.py:410-432 | on a covering feed the loop computes the same list with and without a stored trip; reusing stored stops never alters a value; the change flag says whether some stop differs |
| MergeLaws.RebuiltIsChain | kirin/core/merge_utils.py:199-232 | arr0 <= dep0 <= arr1 <= ... over all events, deleted ones included, with the ids and orders visited |
| MergeLaws.RebuiltTimes | kirin/core/merge_utils.py:207-220 | each stored time from the announced ones and the departure before it |
| MergeLaws.PrefixMaximum | kirin/core/merge_utils.py:199-232 | every stored departure is the maximum of all times announced up to that stop |
| MergeLaws.StoredAsAnnounced | kirin/core/merge_utils.py:199-232 | an event is stored at the time announced for it iff no event before it is announced later |
| MergeLaws.RebuiltConserves | kirin/core/merge_utils.py:164-232 | base conservation at every position of a merged list |
| MergeLaws.RebuiltCarries | kirin/core/merge_utils.py:222-232 | a rebuilt stop has the id and order visited, and the message and statuses of the feed |
| MergeLaws.TickBySource | kirin/core/merge_utils.py:52-79 | an event counts as served as the feed says, else as the stored trip says, else if the base schedule gives it a time; its delay is the feed's |
| FeedLaws.HistoryIndependence | kirin/core/merge_utils.py:235-475 | a covering feed either replaces the stored list by one that depends on base and feed only, or every recomputed stop already equals a stored one |
| FeedLaws.FirstMerge | kirin/core/merge_utils.py:423-475 | with nothing stored, a covering feed becomes that same list |
| FeedLaws.AllFoundIsPrefix | kirin/core/merge_utils.py:416-421 | when orders are positions, "no stop differs" means that the stored list starts with the recomputed one |
| FeedLaws.StoredListAfterFullFeed | kirin/core/merge_utils.py:235-475 | for any full feed whose visits do not raise, added stops and gapped stored lists included: the stored list becomes the rebuilt one iff some visited stop is not found as rebuilt, or it was that list already |
| FeedLaws.StoredListAfterFeed | kirin/core/merge_utils.py:312-317 | for covering feeds over a gapless stored list: iff the feed's list is not a proper prefix of it |
| FeedLaws.ShortenedFeedIsIgnored | kirin/core/merge_utils.py:471-475 | a complete feed that drops only the last stops changes nothing and leaves them stored |
| Counterexamples.DroppedTailStaysStored | kirin/core/merge_utils.py:312-317 | for a trip of any length published whole, and any number of stops dropped at its end |
| FeedLaws.CoveringFeedNeedsNoRepair | kirin/core/build_wrapper.py:71-149 | the repair changes no field of a covering feed's list, and accepts it iff its first stop is timed |
| FeedLaws.StoredAfterFeed | kirin/core/build_wrapper.py:180-198 | the stored trip has the feed's header and contains the feed's whole list |
| FeedLaws.SameFeedTwice | kirin/core/merge_utils.py:348-475 | the same covering feed again reports no change, is not linked and leaves the stored trip as it is, whether it was linked or refused |
| Resending.ResentFeed | kirin/core/merge_utils.py:235-475 | any linked complete feed again is no news iff it drops the same stops again and the events that keep their base are dated alike |
| Resending.ResentFeedExactly | kirin/core/merge_utils.py:139-161 | and that is iff it drops the same stops again and no event whose time is read back from the stored trip was stored with a delay (other than whole days) |
| Resending.SameListIffSameBases | kirin/core/merge_utils.py:199-232 | two visits of the same entries rebuild the same list iff they date alike the events that keep their base |
| Resending.VisitedAgain | kirin/core/merge_utils.py:82-161 | a stored stop sent again with the same status is visited, with its stored times when the entry has none and it is outside the base schedule |
| Counterexamples.DelayOfAddedStopAccumulates | kirin/core/merge_utils.py:139-161 | a stop added to a trip, then delayed by the same feed twice: the delay adds up, and each state is published |
| FeedLaws.BaseConservation | kirin/core/build_wrapper.py:118-149 | after merge and repair of any linked full feed, stops outside the base schedule included, stored time minus stored delay is the base datetime and the delay is at least the feed's |
| FeedLaws.LinkedIsFeedList | kirin/core/build_wrapper.py:191-198 | what a covering feed publishes is its own list, complete, unmodified by the repair |
| FeedLaws.LinkedExactly | kirin/core/build_wrapper.py:191-198 | a covering feed never raises and is published iff its list has news for the stored trip and a time at its first stop |
| FeedLaws.FullFeedLinkedExactly | kirin/core/build_wrapper.py:191-198 | any full feed raises iff a visit does, and is published iff it drops only a suffix, is timed at its first stop and brings news |
| FeedLaws.GaplessIffSuffixDropped | kirin/core/merge_utils.py:235-263 | visited orders are 0..n-1 iff the dropped stops are exactly those from position n on |
| FeedLaws.CompleteMergeList | kirin/core/merge_utils.py:235-475 | the merged list of a complete feed, stops outside the base schedule included, is rebuilt from its visited stops alone |
| FeedLaws.GapRejection | kirin/core/build_wrapper.py:71-97 | a merged complete feed is accepted iff its dropped stops form a suffix and its first stop is timed; the ids then are a prefix of the feed's |
| FeedLaws.LinkedCompleteFeed | kirin/core/build_wrapper.py:191-198 | a published complete feed pairs each stored stop with the feed's stop of the same position |
| FeedLaws.LinkedFullFeed | kirin/core/build_wrapper.py:191-198 | the same for complete and aligned incremental feeds alike |
| FeedLaws.LinkedCarries | kirin/core/build_wrapper.py:191-198 | a published full feed is stored with its own messages and with its own status for every event |
| FeedLaws.Cancellation | kirin/core/merge_utils.py:332-335 | a cancellation is published and stored without stops, whether or not a trip was stored |
| FeedLaws.HeaderOfFeed | kirin/core/merge_utils.py:327-330 | status and effect are the feed's, accepted or not; the message too, unless an incremental feed has none and one is stored |
| FeedLaws.KeptTrips | kirin/core/build_wrapper.py:194-198 | a new trip is kept iff it is linked, a stored one always |
| Midnight.MidnightCrossing | kirin/core/merge_utils.py:272-284 | between instants less than a day apart the test sees exactly the midnights across which the delay grows by less than a day minus the gap, and no other |
| Midnight.ClockRemembers | kirin/core/merge_utils.py:384-408 | the remembered event is the last served one |
| Midnight.DatesFollowTruth | kirin/core/merge_utils.py:338-408 | dates are right over a prefix iff each of its events is detectable |
| Midnight.LoopDatesAreClockDates | kirin/core/merge_utils.py:363-408 | the loop gives each event the date of the clock run over the flat sequence of events |
| Midnight.MidnightRoundTrip | kirin/core/merge_utils.py:272-408 | from times of day alone the loop rebuilds every true base datetime iff the start date is right and every midnight is detectable |
| Midnight.StartIsFirstInstant | kirin/core/model.py:166-167 | a first event at the start's time of day is dated at the start |
| Midnight.TrueInstantsAreStored | kirin/core/merge_utils.py:338-475 | and then, for any linked full feed, the events that keep their base are stored at true instant plus delay |
| Counterexamples.MidnightMissedAfterUntimedStop | kirin/core/merge_utils.py:384-408 | a train on time through an untimed departure before midnight is published 22.5 hours late at the next stop |
| Counterexamples.MidnightMissedByDelay | kirin/core/merge_utils.py:272-284 | a delay that grows by more than a day minus the gap dates the next stop one day early |
| Runs.IncrementalStep | kirin/core/merge_utils.py:266-475 | one incremental feed, accepted or refused, keeps the stored trip cancelled and empty or exactly on the base stops with orders 0..n-1 |
| Runs.IncrementalRunInvariant | kirin/core/merge_utils.py:332-475 | the same after any sequence of incremental feeds, whatever ids and orders they carry |
| Runs.AbsentStopsKept | kirin/core/merge_utils.py:434-463 | a stop absent from an incremental feed keeps its stored entry |
| Runs.IncrementalNewsExactly | kirin/core/merge_utils.py:410-475 | an incremental merge of a running trip reports a change iff the list it computes differs from the stored one |
| Runs.MentionedStopsFollow | kirin/core/merge_utils.py:212-220 | in any merge, partial feeds included, a mentioned stop never comes before the stop kept before it |
| Runs.UnmentionedStopIsBase | kirin/core/merge_utils.py:452-460 | a stop that neither the feed nor the stored trip mentions is kept at its rebuilt base datetimes, without delay, status or message |
| Runs.AlignedRunKeepsLastFeed | kirin/gtfs_rt/model_maker.py:259-260 | after any run of aligned feeds the stored list, if any, is that of the last one |
| Runs.DroppedExactly | kirin/core/merge_utils.py:82-136 | a stop outside the base schedule is dropped iff nothing is stored for it and neither event is an addition, or both events change a stored one in a way it forbids (an addition while served, a modification while not) |
| Runs.CompleteMergeStop | kirin/core/merge_utils.py:82-263 | each stop of a complete merge is in the base schedule, already stored, or marked as added by this feed |
| Runs.OnlyAddedStopsEnter | kirin/core/merge_utils.py:52-263 | over any run, a stored stop outside the base schedule was marked as added by some feed of the run |
| Driver.LinkedIsPublishable | kirin/core/build_wrapper.py:194-198 | a linked trip has orders 0..n-1 and no missing time or delay |
| Driver.HandledRow | kirin/core/build_wrapper.py:180-198 | one trip of a batch links at most its own row and touches no row of another key |
| Driver.KeysStayUnique | kirin/core/build_wrapper.py:178-198 | the rows of a batch keep distinct keys iff no two of its trips, unknown at its start and linked from nothing, have the same key |
| Driver.DeliveryFails | kirin/core/build_wrapper.py:168-204 | the handling of a feed fails iff a trip raises or two trips are linked under the same key, stored before or not; in the latter case nothing is stored or published |
| Driver.CommitAccepts | kirin/core/model.py:271-279 | rows keep distinct keys and links do not repeat iff no two trips of the batch are linked under the same key |
| Driver.TripLinkedTwiceFailsTheDelivery | kirin/core/model.py:271-279 | a trip linked twice in one batch, new or stored: the commit is refused, nothing is stored or published |
| Driver.PublishedExactly | kirin/core/build_wrapper.py:194-204 | in any committed batch, repeated keys included, every published trip is complete iff no trip is refused after another with its key was linked |
| Driver.RefusedAfterLinkIsPublished | kirin/core/build_wrapper.py:194-204 | a stored trip linked and then refused in one batch is published incomplete |
| Counterexamples.TwoListsForOneTripFail | kirin/core/model.py:271-279 | two covering feeds with different lists for one trip fail the batch |
| Counterexamples.RefusalAfterLinkIsPublished | kirin/core/build_wrapper.py:194-204 | a batch that publishes a trip with a gap in its orders |
| Driver.DistinctDeliveriesCommit | kirin/core/build_wrapper.py:178-200 | over any run, a batch with distinct keys meets no constraint: all it handled is stored, and published unless a trip raised |
| Driver.TwoDaysAreTwoTrips | kirin/core/build_wrapper.py:182-190 | the same trip on two starts is two trips: both are stored and published |
| Driver.OneTripPerJourney | kirin/core/model.py:101-103 | a corollary of the unique constraint: over any run at most one trip exists for a trip id and start |
| Driver.OtherRowsUntouched | kirin/core/build_wrapper.py:180-198 | trips of keys absent from the batch are left as they are |
| Driver.UnmentionedRowsStay | kirin/core/build_wrapper.py:180-200 | over any run, failed batches included, a stored trip that no batch mentions stays as it is |
| Driver.PublishedFeedIsComplete | kirin/core/build_wrapper.py:194-204 | at the end of a batch every linked trip still is complete and gapless, and belongs to the batch |
| Handler.HandleTrip | kirin/core/build_wrapper.py:191-198 | merge then repair on records link and raise as the rule for one trip says, and end with its value unless a refused list repeats a record |
| Handler.MergedOrdersDiffer | kirin/core/merge_utils.py:348-463 | a merged list never repeats an order, hence never holds a record twice |
| Handler.HandleNext | kirin/core/build_wrapper.py:180-198 | one turn updates its own records only, among trips that share none |
| Handler.Handle | kirin/core/build_wrapper.py:178-198 | the loop over the batch, repeated keys included, ends with the rows, the links and the failure of the rule |
| Handler.IncrementalBatchKeepsShapes | kirin/core/build_wrapper.py:180-198 | incremental batches keep every stored trip in the shape the next one relies on |
| Handler.ShapesHold | kirin/core/build_wrapper.py:180-198 | within a batch, repeated keys included, each trip meets a stored trip of that shape at its turn |
| Handler.StoredUntilItsTurn | kirin/core/build_wrapper.py:182-190 | with distinct keys a trip meets at its turn the row stored when the batch started |
| StartDates.EarliestStart | kirin/core/model.py:142-162 | the start is the earliest instant of the period at the base time of day, and is refused iff there is none |
| StartDates.TrueStartFound | kirin/core/model.py:142-162 | a true start is recovered from its time of day iff it lies in the period, within a day of its beginning |
| StartDates.StartBySchedule | kirin/core/model.py:140-162 | an added trip starts when it says, whatever the period; another one at its first time of day within the period, and is refused without one |
| StartDates.StartNearFeedFound | kirin/gtfs_rt/model_maker.py:250-257 | a GTFS-RT trip truly starting within three hours of the feed's timestamp gets its true start |
| StartDates.WindowIsTight | kirin/gtfs_rt/model_maker.py:250-257 | no start further than four hours from the timestamp is accepted |
| StartDates.FloorHour | kirin/utils.py:55-56 | the last full hour not after an instant |
| StopFilters.RetrieveInterestingPdp | kirin/cots/model_maker.py:148-190 | the skip, keep and break loop returns the window from the first boarding to the last alighting of the sorted list |
| StopFilters.RetrieveInterestingStops | kirin/piv/model_maker.py:120-154 | the same for PIV, where forbidden boardings and alightings do not count |
| StopFilters.FilterIsFixed | kirin/cots/model_maker.py:148-190 | filtering again is the identity; a result is sorted, starts with a boarding and ends with an alighting |
| StopFilters.StationTypes | kirin/cots/model_maker.py:138-145 | a station has no type, an empty one, or C or F followed by D or H |
| StopFilters.KeptPdps | kirin/cots/model_maker.py:148-190 | a stop is kept iff it is a station with a time, some station is departed from no later and some station is arrived at no earlier |
| StopFilters.KeptPivStops | kirin/piv/model_maker.py:108-154 | the same for PIV, without the forbidden boardings and alightings |
| StopFilters.RanksAscend | kirin/cots/model_maker.py:160 | both filters return their stops by increasing rank |
| StopWindow.WindowContents | kirin/cots/model_maker.py:161-190 | the window holds exactly the useful stops with a boarding no later and an alighting no earlier |
| StopWindow.WindowEnds | kirin/cots/model_maker.py:161-190 | a non-empty window starts with a boarding and ends with an alighting |
| Sorting.SortIsStable | kirin/cots/model_maker.py:160 | stops of equal rank keep their order |
| GtfsRt.MakeTripUpdate | kirin/gtfs_rt/model_maker.py:144-194 | the reversed walk accepts iff the feed's codes are a suffix of the base codes; one entry per base stop results, in order, the feed's stops get their positions, and the effect is significant delays iff some delay is not zero |
| GtfsRt.StopCodeIsFirstSource | kirin/gtfs_rt/model_maker.py:127-130 | the stop code is the value of the first code of kind "source", and there is none iff no code is of that kind |
| GtfsRt.AcceptedOnCodes | kirin/gtfs_rt/model_maker.py:147-178 | the condition of acceptance on the codes themselves |
| GtfsRt.EntryBySide | kirin/gtfs_rt/model_maker.py:263-295 | the entry of a base stop: its id and position, and on each side an update with the delay sent, or none when that is zero or the feed does not reach the stop |
| GtfsRt.EffectOfDelays | kirin/gtfs_rt/model_maker.py:176-183 | the effect is significant delays iff some arrival or departure delay is not zero, else unknown |
| GtfsRt.StatusTable | kirin/core/types.py:60-111 | the order of importance of the statuses and the effect of each |
| GtfsRt.WalkBack | kirin/gtfs_rt/model_maker.py:147-178 | the loop of the walk: entries last stop first, and the highest status among them |
| GtfsRt.MakeEntry | kirin/gtfs_rt/model_maker.py:161-174 | one entry of the walk, renumbering the feed's stop first |
| GtfsRt.DescendingIsReversed | kirin/gtfs_rt/model_maker.py:182 | sorting the walked entries by order reverses them |
| GtfsRt.AlignedFeedCovers | kirin/gtfs_rt/model_maker.py:263-295 | an aligned feed is a covering feed whose updates carry delays |
| GtfsRt.MergePairsByPosition | kirin/core/merge_utils.py:361 | the merge pairs base stop i with entry i even when a stop is served twice |
| GtfsRt.AlignedFeedStored | kirin/gtfs_rt/model_maker.py:132-196 | end to end: a published trip stores each timed event at its true base instant plus at least the delay sent |
| CotsFeed.FillEvent | kirin/cots/model_maker.py:475-545 | one side of a stop record by status, and the projected time |
| CotsFeed.MakeStop | kirin/cots/model_maker.py:461-557 | one known stop: appended, filled, checked against the previous departure |
| CotsFeed.MakeStops | kirin/cots/model_maker.py:443-557 | the loop builds the list that the rule reads, or rejects the feed |
| CotsFeed.ReadFeedIsWellFormed | kirin/cots/model_maker.py:448-557 | whatever the feed, its stops are numbered from zero and its updates carry delays |
| CotsFeed.ReadKnownStops | kirin/cots/model_maker.py:458-459 | stops that resolve to no stop point have no part in the feed |
| CotsFeed.ReadExactly | kirin/cots/model_maker.py:387-400 | a feed is accepted iff every known stop can be read and is consistent with the departure of the one before; it has one record for each |
| CotsFeed.AcceptedExactly | kirin/cots/model_maker.py:387-400 | the same in plain terms: previous departure, arrival and departure do not decrease, as far as they are known, and may be equal |
| CotsFeed.ReadByStatus | kirin/cots/model_maker.py:475-545 | by status, when an event can be read, the time it is projected at and the time it is given |
| CotsFeed.RecordOfStop | kirin/cots/model_maker.py:461-545 | the record of a known stop: its id, position and message, and on each side the status and delay that the feed states |
| CotsFeed.ProjectionsNeverGoBack | kirin/cots/model_maker.py:387-400 | in an accepted feed projections never go back iff they do not over stops without projected departure |
| Counterexamples.ProjectionsCanGoBack | kirin/cots/model_maker.py:557 | an accepted feed whose projections go back |
| CotsFeed.AnnouncedIsProjected | kirin/core/merge_utils.py:164-196 | the time the merge announces for an event that the feed states is the one the feed projects |
| CotsFeed.FeedFidelity | kirin/cots/model_maker.py:447-557 | any projected event of any accepted feed is stored at its projected time iff no event before it is expected later, and then with the feed's own delay where the base is kept |
| CotsFeed.OrdinaryTrainIsKept | kirin/cots/model_maker.py:447-557 | a train without first arrival and last departure is stored exactly as projected iff its base first arrival is not after its projected first departure |
| CotsFeed.StoredAsStated | kirin/cots/model_maker.py:500-538 | a published feed is stored with exactly the statuses it states, side by side, and its messages |
| Counterexamples.EarlyFirstStopIsADayLate | kirin/core/merge_utils.py:199-220 | a first departure added on the day before is stored one day late |
| LifeCycle.RefusedCommands | kirin/cots/model_maker.py:272-318 | for a train unknown to Navitia, additions pass iff nothing or a deleted trip is stored, other commands iff an added trip is; and the status they lead to |
| LifeCycle.AcceptedRequests | kirin/cots/model_maker.py:272-437 | for every stored status and every train, known to Navitia or not: which commands pass, and the status, stops, effect and message of the new trip |
| LifeCycle.ReceivedIsComplete | kirin/cots/model_maker.py:705-706 | requests are complete feeds: an accepted one replaces the stored message, and removes it if it has none |
| LifeCycle.StoredStatusIsFeedStatus | kirin/core/merge_utils.py:327-335 | whatever merge and repair decide, a stored trip takes the status of the feed |
| LifeCycle.OneRequest | kirin/cots/model_maker.py:272-437 | a request either changes nothing or continues the life cycle and decides the stored status |
| LifeCycle.AddedTripLifeCycle | kirin/cots/model_maker.py:272-318 | over any run the effective commands are (add, updates, delete)*, and the stored status is the one they lead to |
| LifeCycle.OutOfCycleIsRefused | kirin/cots/model_maker.py:290-303 | a second addition, or anything but an addition after a deletion, leaves the stored trip as it is |

## Left out

- HTTP resources, contributors, status pages, RabbitMQ, Redis, Celery workers, logging and New Relic: no rule of the merge depends on them.
- SQLAlchemy sessions, cascades, UUIDs and queries: the database is a list of rows with a key lookup and a commit that refuses equal keys and repeated links. The roll-back of records in memory after a refused commit is not modelled.
- JSON, protobuf and timezone parsing, Navitia, company and physical mode lookups: parsed stops and resolved stop points are inputs. `_retrieve_projected_time` is replaced by the delay it yields.
- `populate_pb`, the differential feed's encoding, and the full-dataset publication, which reads every stored row.
- The effect of a COTS or PIV trip is carried along but not computed from its stop statuses; the GTFS-RT one is.
- The PIV stop loop, which differs from the COTS one: it stores the real-time datetime of an added event together with its delay, and keeps delays on unchanged and deleted events (piv/model_maker.py:404-425). Its merges are covered as complete feeds, its reading is not.
- The generators of visited stops are lists computed before the loop; the loop never changes what they read, and a visit that raises ends the merge at the same recorded state.
- Base schedule lists holding a missing stop (merge_utils.py:349-351) and the TODOs on forbidden pick-up and drop-off.
- A traveller time that is an empty object: the COTS filter reads it as absent and the stop loop as unspecified; the model has only absent or present ones.
- A headsign that designates several vehicle journeys, and a life cycle whose period lookup and exact-start lookup find different trips.
- FeedFidelity: a deleted event has no projected time, so no claim is made of it; its time follows from RebuiltTimes.
- HandleTrip: when a refused list holds one record twice, the values its records end with are not stated; MergedOrdersDiffer shows that the lists of full feeds and of well-shaped stored trips never do.
