# FlightStrips: a verified model of departure sequencing, network export and runway capacity

FlightStrips coordinates departures and arrivals at an airport. This project models the parts of its backend that
decide something, as Dafny programs, and proves what they promise. Four components carry the weight.

**The CDM departure sequencer.** A flight's take-off time (TTOT) is searched forward from its natural time in half-minute
steps on a 24-hour clock until no other slot conflicts with it. A pass over the airport preserves the slots that may
stay, demotes those that clash or stand in a better-placed flight's way, reserves the slots of flights that only want to
improve, sorts the rest and assigns them one by one. `Clock`, `Config`, `Separation`, `Search`, `Departure` and `Markers`
model one search and its trace; `Strips`, `Ordering` and `Sequence` specify the pass; `Recalculation` is the pass as loops
over the slot list, the queue and the records, proved equal to that specification, hangs included. `Timetable`,
`Guarantees` and the `Pass…` modules prove what holds after every pass; `Turns` gives each flight its turn in it: the list
it met, what became of it, and that the pass publishes just that; `PassRest` and `PassTwice` follow the published records
into a second pass. `PassExamples`, `PairExamples` and `QueueExamples` hold concrete passes. What the lookups, the tests
of the search and the comparison of flights decide is also stated apart from the functions that compute it, on the fields
of records, with plain numbers: `Lookups` (rates, SIDs, dependent runways, delays), `Verdicts` (when one slot moves a
flight), `Assignments` (what is assigned), `Eligibility` (who takes part, is due, keeps a slot), `Precedence` (who goes
first) and `TurnRules` (what a turn writes). A loop that circles the clock for ever is the value
`Hangs`, which stalls whatever waits for it.

**The vIFF export.** `Retry` specifies the retry tracker as steps on one flight, for any kind of ticket that tells attempts
apart; `Tracker` is the tracker itself, with entry and attempt objects, each method proved to be one such step at one key.
`Retry` then proves what every interleaving of calls keeps, with numbers for tickets. `Protocol` interleaves the per-flight
gate, the worker goroutines, the READY and TOBT writers, changes to the store, the clock and the removal of the session;
`Pace` proves that the tracker calls of every such run obey the times that the tracker sets, so that its bound on a
failure period holds of the workers themselves. `Proposals` says in the fields of a proposal when an attempt starts, what
the next one carries and how long it waits; `Payloads` where a sent payload came from and that what is confirmed was sent;
`Progress` what whole rounds of a worker or a writer lead to.

**AMAN runway capacity.** `RunwayGap` and `RunwayGapMerge` model the validity of runway gaps and the merging of a new one;
`RunwayClosure` the search for the next landing opportunity on a grid of rates with gaps, and `ClosureRules` that grid in
nanoseconds.

**Three machines that run for ever.** `Debounce` (recalculation requests), `HoldingEat` (incremental publication of holding
times) and `Inbound` (departures of inbound flights against their slots; `InboundRules` says what is shown of a row).

`Text` and `Sorting` hold what these share.

## What the code does not do

Some properties that one would expect fail. Each has a lemma with the input or the exact condition.

- An improve-only flight whose TSAT expired, started or not, and which is recalculated all the same because its pushback
  was prepared while it is still on its stand (`Timetable.LateImprover`), is put back on its old time without a check
  unless it may move (`PassTheorems.LateImproverTurn`, for whole passes `PassPlaces.LateImproverInPass`). It then collides
  exactly when something stands in the way of that time (`PassTheorems.LateImproverCollidesExactlyWhen`), as in the pass of
  `PassExamples.LateImproverCollides`. Passes without such a flight separate (`PassTheorems.PassSeparates`).
- The slots of unexpired improve-only flights are checked against nothing, and nor are two started flights against each
  other: passes leave such pairs on one take-off time (`PairExamples.ReservedPairStays`, `PairExamples.StartedPairStays`).
  Of other preserved slots no two clash (`PassPlaces.PreservedDoNotClash`). Without late improvers, two flights of one runway
  end up too close exactly when both came with these times and they were too close already
  (`PassPlaces.ShortExactlyWhenNeitherMoved`).
- The queue check of an improve-only flight does not ask the flights that already sit before the proposed time. A move
  that it accepts overtakes nobody exactly when none of those could leave earlier
  (`PassImprove.AcceptedMoveOvertakesTheUnasked`); in the pass of `PassExamples.FollowerMovesUnasked` one could.
- Flights with a CTOT go before those without, but improve-only flights go by their current slots among themselves, which
  makes the comparison no order: in `QueueExamples.ImproverPassesCtot` a flight without a CTOT has its turn before one that
  has one and is not improve-only. That happens exactly when two improve-only neighbours stand that way
  (`QueueExamples.CtotsStandFirstExactlyWhen`), and never when their slots follow the CTOTs (`QueueExamples.CtotsGoFirst`).
- On a circular clock the later of several floors can be lost: a flight ready at 23:00 with a CTOT of 07:00, on a runway
  held up until 13:00, is sent at 13:00 (`PassExamples.CyclicFloorsLoseOne`). The natural TTOT meets the ready time and all
  floors exactly when one of these is at or after all others and the CTOT does not give way
  (`Departure.NaturalMeetsEveryFloor`, `Strips.NaturalOfRecord`). It gives way when it is exactly twelve hours from the ready
  time and a delay ends in between, as in `PassExamples.OppositeCtotIsLost`.
- Runway names are compared without surrounding blanks but looked up with them, so two flights of one runway may be given
  different rates and SID intervals. The flight placed later keeps its own minima, and keeps the other's in every placement
  exactly when what it must keep covers the other's window (`Separation.KeepsBothExactlyWhen`); if it does not, the search
  breaks the other's minima (`Search.SearchBreaksTheOther`), as in the pass of `PairExamples.BlanksBreakTheRate`.
- A second pass at the same time need not be idle: an unstarted flight that asks for a recalculation, other than for its
  pushback, more than eight minutes after its TSAT is invalidated by one pass and recovered by the next (`PassTwice.TooLateKeepsBusy`).
- Compacting a trace twice can differ from compacting it once, though never for a trace that a search produced
  (`Markers.CompactIsNotIdempotentInGeneral`, `Markers.CompactedSearch`).
- The debouncer reads the time before it takes its lock. A waiting run lets a full interval pass after every request exactly
  when the call that locked last carries the latest stamp, or the interval is over already
  (`Debounce.QuietExactlyWhenLastIsLatest`); two calls that lock in the other order bring a run forward
  (`Debounce.OvertakingShortensTheWait`).
- Disabling the writeback of holding times leaves estimates at receivers that no later update withdraws unless their key is
  projected again (`HoldingEat.DisablingOrphans`); nothing else leaves any (`HoldingEat.OrphansAreWhatDisablingLeft`).
- The test for an already invalid record (backend/internal/cdm/sequence.go:272) can never succeed there, because the
  enclosing branch requires a TSAT; and the test that a closure candidate lies after its anchor
  (backend/internal/aman/runway_closure_normalization.go:131) can never fail, because the preceding one has already
  caught every overflow.

## Model

| member | source | states |
|---|---|---|
| Text.TokenIsUpperTrim | backend/internal/cdm/config.go:473-475 | comparing tokens, as the model does, is comparing trimmed and upper-cased names |
| Text.TrimCutsBlanks | backend/internal/cdm/config.go:473-475 | trimming cuts blanks off both ends and nothing else |
| Text.UpperIsByCharacter | backend/internal/cdm/config.go:473-475 | upper-casing moves the 26 small letters and no other character |
| Clock.ParseOfFormat | backend/internal/cdm/time_math.go:127-154 | reading back a written clock gives the same second |
| Clock.FormatOfParse | backend/internal/cdm/time_math.go:127-154 | writing a clock that was read gives its canonical six-digit text |
| Clock.SameTextIsSameClock | backend/internal/cdm/time_math.go:13-23 | for all texts, readable or not, comparing canonical text is comparing clock values |
| Clock.ShiftsCompose | backend/internal/cdm/time_math.go:33-44 | offsets of a clock compose modulo a day |
| Clock.BetweenIsTheShortWay | backend/internal/cdm/time_math.go:89-103 | the signed difference is the one offset in (-12 h, 12 h] that leads from one clock to the other |
| Clock.BetweenRange | backend/internal/cdm/time_math.go:89-103 | the difference stays in (-12 h, 12 h] and is antisymmetric exactly off the antipode |
| Clock.RankSeparates | backend/internal/cdm/time_math.go:50-87 | sorting around an anchor separates any two different times and puts unreadable ones last |
| Clock.ClockTestsMeasure | backend/internal/cdm/time_math.go:46-107 | of two clocks up to half a day apart the tests for later, earlier and too long ago, and the sort key, measure the seconds from one to the other |
| Clock.ReadsTheMinute | backend/internal/cdm/time_math.go:13-23 | four digits are read as hour and minute |
| Clock.ReadsDigitsInOrder | backend/internal/cdm/time_math.go:127-154 | a concrete time in digits from the hour to the second, one read from four digits between blanks, and one that is no time |
| Config.RateIgnoresCase | backend/internal/cdm/config.go:142-182 | the rate of a runway does not depend on how its name is cased; which rate it is, `FirstRecordDecides` and `NoRecordNoRate` say |
| Lookups.FirstRecordDecides | backend/internal/cdm/config.go:142-182 | on record fields: the first record for the airport and runway whose four lists suit the active runways decides: its value at the place of the runway among its own (the first place if it is not listed within range), from the low-visibility list if and only if low visibility is on and that list not empty; the default of the current visibility stands in exactly for a value that is missing or not positive |
| Lookups.NoRecordNoRate | backend/internal/cdm/config.go:142-182 | without such a record the rate is the default of the current visibility |
| Lookups.RateOfTwoTwoRight | backend/config/ekch/rate.txt:1 | by the first line of the shipped file 22R gets forty departures an hour, and twelve in low visibility |
| Lookups.SameSidMeans | backend/internal/cdm/config.go:369-393 | two SIDs are the same exactly when neither is blank and they agree, with the last two characters of names longer than three cut off both, one or none |
| Lookups.FirstEntrySpaces | backend/internal/cdm/config.go:267-289 | departures on one SID keep no interval; others that of the first entry for the runway and the two SIDs in either order, or none |
| Lookups.SharesCapacityWhen | backend/internal/cdm/calculate.go:285-306 | two runways share capacity exactly when they are one, or the first record for one of them, whatever is active, lists the other and holds no star |
| Lookups.DelayAppliesWhen | backend/internal/cdm/adverse_conditions.go:89-101 | a delay applies to its airport or to any, and to its runway or to any |
| Lookups.DelayHoldsWhen | backend/internal/cdm/adverse_conditions.go:62-87 | a delay holds until an instant if and only if that shows its time, which is not midnight, and lies within the six hours from now |
| Lookups.WakeLetters | backend/internal/cdm/wake_spacing.go:44-54 | which letters stand for which wake category |
| Config.IntervalIsSymmetric | backend/internal/cdm/config.go:267-289 | a SID interval is the same whichever of the two departures comes first |
| Config.WakeByWeight | backend/internal/cdm/wake_spacing.go:7-42 | the wake table is: one minute behind a flight at most as heavy, two behind a heavier one, three behind a super unless the follower is heavy, none for categories not known |
| Config.WakeIsMonotone | backend/internal/cdm/wake_spacing.go:7-42 | a heavier leader never needs less spacing and a heavier follower never more |
| Config.LatestFloorIsTheMaximum | backend/internal/cdm/adverse_conditions.go:35-60 | the floor is offered by an applicable delay and no applicable delay offers a later one |
| Config.FloorIsTheNextOccurrence | backend/internal/cdm/adverse_conditions.go:62-87 | every floor shows the configured time and lies within the six hours from now |
| Config.DelayFloorForRunway | backend/internal/cdm/adverse_conditions.go:35-60 | the loop over the delays finds that latest floor |
| Separation.FreeExactlyWhenSpaced | backend/internal/cdm/calculate.go:93-194 | off dependent runways the loop's chain of tests passes exactly when the pair keeps same-destination, rate, wake (in actual order) and SID spacing |
| Verdicts.FreeExactlyWhenRulesAreKept | backend/internal/cdm/calculate.go:93-194 | in seconds, dependent runways included: a slot lets a flight take off if and only if it is at another airport or of the same flight, or three minutes to one destination are kept and, where the two share capacity, they are not on one time and keep the hourly rate (if both or neither have a manual CTOT), the SID interval and, on one runway, the wake minutes of whichever follows |
| Verdicts.BumpNamesItsRule | backend/internal/cdm/calculate.go:93-194 | the rule that a bump names is broken, and the spacing it reports is what that rule asks for |
| Verdicts.BumpNamesTheMostUrgent | backend/internal/cdm/calculate.go:93-194 | no rule that is tested before the one named is broken |
| Verdicts.BumpIsByTheFirst | backend/internal/cdm/calculate.go:93-194 | the first slot of the list that is in the way moves the search; the entry names its flight, time, runway and SID, and a step of half a minute |
| Separation.KeepsBothExactlyWhen | backend/internal/cdm/calculate.go:278-324 | for two flights of one runway: every placement that keeps the later flight's minima keeps the earlier's too if and only if, in either order of take-off, the rounded-up rate and SID windows of the earlier one's name are at most the most that the later one must keep, or no distance on the clock satisfies that |
| Separation.NamesAlikeKeepBoth | backend/internal/cdm/config.go:142-182 | names that agree up to case always meet that condition |
| Separation.ConflictIsNear | backend/internal/cdm/calculate.go:308-314 | a slot can only block times closer than the widest configured window |
| Search.EndsExactlyWhenAPointIsFree | backend/internal/cdm/calculate.go:90-194 | the search ends if and only if some point of the 2880-point circle is free |
| Search.RestsOnTheFirstFreePoint | backend/internal/cdm/calculate.go:90-194 | it rests on a free point, and every point it passed was blocked |
| Search.SearchIgnoresListing | backend/internal/cdm/calculate.go:90-194 | its result depends on which slots are occupied, not on their order or repetition |
| Search.FewSlotsLeaveAFreePoint | backend/internal/cdm/calculate.go:90-194 | if the slots times what each can block stay below 2880 it ends, within that many bumps |
| Search.SearchBreaksTheOther | backend/internal/cdm/calculate.go:90-194 | where the condition fails, wherever the earlier flight is, there is a time from which the search places the later one at once and breaks the earlier one's minima |
| Departure.NaturalMeetsEveryFloor | backend/internal/cdm/calculate.go:209-229 | for all clocks of an input with one CTOT: the natural TTOT is at or after every floor if and only if some clock among the ready time and the floors is at or after all of them, and not both the CTOT is exactly twelve hours from the ready time and the delay floor lies strictly in the twelve hours after it |
| Departure.NaturalIsLateEnough | backend/internal/cdm/calculate.go:209-229 | so it is whenever base, CTOTs and delay floor lie in an arc shorter than twelve hours |
| Departure.AssignmentShape | backend/internal/cdm/calculate.go:65-207 | an assignment's TTOT is the natural one after the least freeing number of bumps, and TSAT plus taxi and de-icing time is the TTOT |
| Departure.CalculateIsSoundAndEarliest | backend/internal/cdm/calculate.go:65-207 | the TTOT conflicts with no slot and every earlier half-minute from the natural TTOT is blocked |
| Departure.CalculateIgnoresListing | backend/internal/cdm/calculate.go:60-63 | the assignment depends only on the set of slots |
| Departure.CalculateEnds | backend/internal/cdm/calculate.go:60-63 | the calculation ends when the slots cannot block the whole circle |
| Departure.FirstConflict | backend/internal/cdm/calculate.go:93-194 | the loop over the slots finds the first that conflicts, with the entry for the trace, or none |
| Departure.CalculateWithTrace | backend/internal/cdm/calculate.go:65-207 | the double loop computes the specified assignment and trace, and circles for ever exactly when the specification hangs; what is assigned, `AssignsTheFirstChance` says |
| Assignments.AssignsTheFirstChance | backend/internal/cdm/calculate.go:65-207 | in seconds and rules: nothing is assigned if the TOBT or the TSAT that the first free half-minute would need is out of date, or there is no natural time; otherwise TTOT is the first half-minute from the natural time at which every slot that counts keeps its rules, and TSAT the time for taxiing and de-icing before |
| Assignments.ReadyAfterTaxiing | backend/internal/cdm/calculate.go:209-251 | a flight is ready its taxi and de-icing minutes after its TOBT or, without one, its EOBT |
| Assignments.OutOfDateMeansStale | backend/internal/cdm/calculate.go:253-276 | out of date are times of unstarted flights more than five minutes ago |
| Markers.CompactCalculationTrace | backend/internal/cdm/markers.go:306-326 | the loop that appends and overwrites computes the specified compaction |
| Markers.CompactPartitions | backend/internal/cdm/markers.go:306-373 | a search trace is cut into consecutive runs, each summarised with its ends and its largest spacing, with no mergeable neighbours and the same overall journey |
| Markers.CompactedSearch | backend/internal/cdm/markers.go:306-373 | for every search the compacted trace leads without a break from the natural to the final TTOT and compacting it again changes nothing |
| Markers.CompactIsNotIdempotentInGeneral | backend/internal/cdm/markers.go:306-332 | a trace, not of a search, that a second compaction changes |
| Markers.TakenTogetherWhen | backend/internal/cdm/markers.go:334-389 | bumps against one flight are taken together exactly if they are of one kind, bumps by its time or by the rate counting as one, for one runway |
| Strips.NaturalOfRecord | backend/internal/cdm/calculate.go:209-229 | the same for every record, as equivalence between the natural TTOT and the record's ready time, CTOT and delay floor |
| Strips.RecoveryPostpones | backend/internal/cdm/sequence.go:672-694 | recovery touches only unstarted flights with nothing pending, and gives them a TOBT nine to ten minutes ahead and no assignment |
| Eligibility.RecoveredWhen | backend/internal/cdm/sequence.go:672-694 | recovered is exactly an unstarted flight with nothing pending, more than eight minutes after its TSAT or the one that expired |
| Eligibility.RecoveredRecord | backend/internal/cdm/sequence.go:672-694 | field by field what recovery writes: TOBT and EOBT to the minute that ten minutes from now lies in, unconfirmed, no assignment, a recalculation pending |
| Eligibility.DueWhen | backend/internal/cdm/sequence.go:625-670 | which flights are due, on the fields of their records: started ones only for a CTOT or, before off-block, a pushback that is pending; others for anything pending or, unless invalidated, without times or more than five minutes after their TSAT |
| Eligibility.NaturalInTurn | backend/internal/cdm/calculate.go:209-229 | the natural time of a record is the later of ready time and CTOT, and then the later of that and the delay floor |
| Ordering.CompareIsAntisymmetric | backend/internal/cdm/sequence.go:446-491 | for a fixed anchor the comparison is antisymmetric and ties only trimmed-equal callsigns |
| Ordering.CompareIsTransitive | backend/internal/cdm/sequence.go:446-491 | for a fixed anchor it is transitive |
| Ordering.BothOrdersAreLinear | backend/internal/cdm/sequence.go:204-239 | both sorts of a pass are by a linear order when callsigns differ and no improve-only flight queues; which order, the next rows say |
| Precedence.SlotsAreInOrder | backend/internal/cdm/sequence.go:204-239 | on the flights' own data: among current slots started flights come first, then CTOTs, confirmed TOBTs, the earlier slot, usable TOBTs before stale ones, the earlier natural time, the earlier base and the callsign |
| Precedence.QueueIsInOrder | backend/internal/cdm/sequence.go:446-491 | in the queue flights with a CTOT come first, then confirmed TOBTs, usable TOBTs before stale ones, the earlier natural time, the earlier base and the callsign, for any two flights if none is improve-only |
| Precedence.NeighboursAreInOrder | backend/internal/cdm/sequence.go:232-239 | with improve-only flights the same of any two neighbours, except that two improve-only ones go by their current slots |
| Precedence.TurnsAreInOrder | backend/internal/cdm/sequence.go:232-402 | in a pass without improve-only flights a turn comes after those only that may go before it, and before those only that may come after it |
| QueueExamples.CtotsGoFirst | backend/internal/cdm/sequence.go:455-460 | in every pass in which no improve-only flight without a CTOT holds an earlier slot than one with a CTOT, a due flight with a CTOT has its turn before any flight without one |
| QueueExamples.CtotsStandFirstExactlyWhen | backend/internal/cdm/sequence.go:232-239 | in every queue: no flight without a CTOT stands before one with one if and only if no improve-only one stands right before an improve-only one |
| QueueExamples.ImproverPassesCtot | backend/internal/cdm/sequence.go:232-239 | a pass whose queue puts a flight without a CTOT before one that has one and is not improve-only |
| Sorting.SortIgnoresListing | backend/internal/cdm/sequence.go:204-239 | under a linear order the sorted list does not depend on the input order |
| Recalculation.BuildCandidates | backend/internal/cdm/sequence.go:168-191 | the loop builds a candidate from every strip that takes part |
| Recalculation.Partition | backend/internal/cdm/sequence.go:194-203 | the loop splits the candidates into preserved and recalculated ones |
| Recalculation.FindSlotConflict | backend/internal/cdm/sequence.go:754-771 | true exactly when some slot clashes with the preserved one |
| Eligibility.ClashesWhen | backend/internal/cdm/sequence.go:754-771 | two slots at one airport clash exactly when they are on one time and share capacity, or less than three minutes apart to one destination |
| Recalculation.FindBlocked | backend/internal/cdm/sequence.go:773-791 | the loop finds whether a pending flight of higher priority would have to move because of the slot |
| Eligibility.PushesWhen | backend/internal/cdm/sequence.go:773-791 | a pending flight pushes another off its slot exactly if it is unstarted, not improve-only, has a natural time and a CTOT or confirmed TOBT, the other may not go before it, and that slot alone keeps it from its natural time |
| Recalculation.PreserveSlots | backend/internal/cdm/sequence.go:208-221 | the loop preserves or demotes each current slot as specified |
| Eligibility.UndueKeepsItsSlot | backend/internal/cdm/sequence.go:208-221 | over a whole pass: a flight that is not due keeps its slot if it has started, or if no other current slot clashes with it and nobody pushes it aside |
| TurnRules.PushedIsQueued | backend/internal/cdm/sequence.go:208-221 | one that a due flight pushes aside is queued |
| Recalculation.ReserveSlots | backend/internal/cdm/sequence.go:222-230 | the loop reserves the slots of unexpired improve-only flights |
| Recalculation.RemoveSlotForCallsign | backend/internal/cdm/sequence.go:802-809 | removes the first entry of a callsign and nothing else |
| TurnRules.AheadWhen | backend/internal/cdm/sequence.go:815-842 | the queue check asks the unstarted flights with an earlier current slot at the same airport that share its runway capacity |
| Recalculation.ImprovementKeepsQueueOrder | backend/internal/cdm/sequence.go:815-851 | the loop over the candidates answers the specified queue check |
| Recalculation.RecalculateFlight | backend/internal/cdm/sequence.go:262-400 | one flight's turn leaves the specified slot list and record |
| Recalculation.SettleFlight | backend/internal/cdm/sequence.go:249-260 | the same, with the retention of slots that are still reachable |
| TurnRules.TurnDecides | backend/internal/cdm/sequence.go:245-303 | on record fields: a due flight that missed its TSAT loses it, any other due one is reassigned, and a demoted one keeps its slot exactly if the search still finds that time |
| TurnRules.MissedRecord | backend/internal/cdm/sequence.go:261-303 | field by field the record of a flight that loses its TSAT |
| TurnRules.ReassignedRecord | backend/internal/cdm/sequence.go:305-402 | field by field the record of a reassigned flight that is not improve-only, when it is written, and that a new time is listed |
| TurnRules.ManualCtotsAreProposed | backend/internal/cdm/sequence.go:332-340 | with a manual CTOT the proposal to the network is what the flight is assigned |
| Recalculation.RecalculateAirport | backend/internal/cdm/sequence.go:194-415 | the loops over strips, slots and queue compute the specified pass, hangs included; the rows of `Eligibility`, `Precedence` and `TurnRules` say on record fields what that is |
| Timetable.SettleSeats | backend/internal/cdm/sequence.go:249-400 | in every branch of a turn the list stays ordered and free of duplicates, other flights keep their entries, and the flight's own entry is exactly its published TTOT |
| Guarantees.PreserveSplits | backend/internal/cdm/sequence.go:208-221 | preserving loses no flight: each is kept or joins the recalculation |
| Guarantees.ReserveSeats | backend/internal/cdm/sequence.go:222-230 | reservation lists each unexpired improve-only flight at its own slot and nothing else |
| PassTheorems.SlotListIsTheTimetable | backend/internal/cdm/sequence.go:194-400 | after any pass each callsign has at most one entry, and has it exactly when its published record has a TTOT, at that TTOT |
| PassTheorems.LaterPlacedDoesNotConflict | backend/internal/cdm/sequence.go:245-400 | of any two entries, also across dependent runways, a later one that the pass placed does not conflict with the earlier one |
| PassTheorems.PassSeparates | backend/internal/cdm/sequence.go:245-400 | in a pass without late improvers, of any two listed flights of one origin and runway the later keeps all spacing minima to the earlier, and wherever its minima cover the earlier's, the earlier's too; or both still hold the times they came with |
| PassPlaces.NewTimesKeepDistance | backend/internal/cdm/sequence.go:245-400 | so it is whenever one of the two ends on a time that no flight came with |
| PassPlaces.ShortExactlyWhenNeitherMoved | backend/internal/cdm/sequence.go:245-400 | the later listed falls short of its minima if and only if two flights came into the pass with exactly these times and fell short at them |
| PassPlaces.PreservedStays | backend/internal/cdm/sequence.go:208-400 | what the preserving phase lists as preserved is exactly what the final list holds as preserved |
| PassPlaces.PreservedDoNotClash | backend/internal/cdm/sequence.go:208-221 | two preserved slots, not both of started flights, never clash |
| PassPlaces.PlacedIsEarliest | backend/internal/cdm/sequence.go:245-400 | a placed flight that is not improve-only has the first half-minute from its natural time that is free against the list its turn met, and is listed right after that list |
| PassPlaces.PlacedFollowsItsObstacles | backend/internal/cdm/sequence.go:245-400 | with no improve-only flight about, that list is exactly what stands before it in the final list |
| PassTheorems.LateImproverTurn | backend/internal/cdm/sequence.go:308-400 | a late improver's turn moves it exactly when the search finds it an earlier TSAT that no flight asked has a claim to, and puts it back on its old time otherwise |
| PassTheorems.LateImproverCollidesExactlyWhen | backend/internal/cdm/sequence.go:308-400 | after that turn it collides with the list if and only if it may not move and its old time conflicts with the list |
| PassPlaces.LateImproverInPass | backend/internal/cdm/sequence.go:245-400 | in every pass a late improver has such a turn and ends in the final list where the turn put it |
| PassTheorems.FrozenFlightsKeepTheirSlot | backend/internal/cdm/sequence.go:625-668 | a started flight that nothing releases keeps its record through any pass, its slot is listed first, and nothing placed conflicts with it |
| PassEnds.PassEndsWhenRoomy | backend/internal/cdm/sequence.go:194-400 | a pass over strips that leave room on the clock ends: none of its searches circles for ever |
| PassOrder.PassIgnoresListing | backend/internal/cdm/sequence.go:194-400 | with trimmed-distinct callsigns and no improve-only flight the slot list and the records do not depend on the order of the strips |
| PassImprove.QueueCheckMeans | backend/internal/cdm/sequence.go:815-851 | the check passes if and only if no flight it asks has a feasible time earlier than its own and no later than the proposed one |
| Turns.TurnOfPass | backend/internal/cdm/sequence.go:245-400 | every queued flight has one turn, from the state that draining the queue before it leaves; what the pass publishes and lists for it is what that turn wrote |
| PassImprove.ImproveOnlyNeverLosesOrOvertakes | backend/internal/cdm/sequence.go:308-330 | through any pass an unexpired improve-only flight keeps its assignment or gets, in its turn of that pass, a strictly earlier TSAT to which, against the slot list of that turn, nobody asked had a claim |
| PassImprove.AcceptedMoveOvertakesTheUnasked | backend/internal/cdm/sequence.go:838-842 | over any slot list an accepted move overtakes nobody ahead if and only if none of the flights already before the proposed time could leave earlier; it overtakes each of those that could |
| PassRecords.PassSettlesPending | backend/internal/cdm/sequence.go:245-388 | after any pass a flight still waits for recalculation exactly when it did before and is started and not released; every published assignment is none, the old one, or its TSAT plus taxi and de-icing time is its TTOT |
| PassRecords.ReassignWrites | backend/internal/cdm/sequence.go:305-362 | a reassignment leaves nothing pending and an assignment that adds up |
| PassRecords.DueIsQueued | backend/internal/cdm/sequence.go:196-239 | every flight due for recalculation gets its turn: preserving takes none out of the queue |
| PassTwice.SecondPassIsIdleExactlyWhen | backend/internal/cdm/sequence.go:166-400 | with no improve-only flight, and no flight without a time pushing another aside, a second pass over the published records at the same time ends, writes nothing and lists the same slots if and only if each flight that is still due has nothing pending, its stored taxi time, no time to be found on that list and its stored proposal |
| PassTwice.FullyAssignedPassIsIdle | backend/internal/cdm/sequence.go:166-400 | so a pass that leaves every unstarted flight with a time is repeated without effect |
| PassTwice.TooLateKeepsBusy | backend/internal/cdm/sequence.go:262-290 | an unstarted flight that asks for a recalculation, other than for its pushback, more than eight minutes after its TSAT makes the next pass write again, whatever else there is |
| PassRecords.NetworkCtotDoesNotMoveProposal | backend/internal/cdm/sequence.go:262-376 | two records due for recalculation, not improve-only, that differ only in the network's CTOT end their turns, whether these expire or reassign them, with the same exported proposal |
| PassExamples.LateImproverCollides | backend/internal/cdm/sequence.go:308-318 | a pass over two flights that puts a late improver one minute behind the other where three are due |
| PassExamples.CyclicFloorsLoseOne | backend/internal/cdm/adverse_conditions.go:25-33 | a record, a CTOT and a delay whose floors go around the clock, so that the flight is assigned a time ten hours before it is ready |
| PassExamples.OppositeCtotIsLost | backend/internal/cdm/adverse_conditions.go:25-33 | a record whose CTOT is at or after its ready time and the delay, and which is yet assigned a time six hours before the CTOT |
| PairExamples.StartedPairStays | backend/internal/cdm/sequence.go:208-221 | a pass that keeps two started flights on one take-off time |
| PairExamples.ReservedPairStays | backend/internal/cdm/sequence.go:222-230 | a pass that keeps two improve-only flights on one take-off time |
| PairExamples.BlanksBreakTheRate | backend/internal/cdm/config.go:142-182 | a pass that places a flight from "1 " four minutes behind one from "1", whose rate asks for six |
| PassExamples.FollowerMovesUnasked | backend/internal/cdm/sequence.go:838-842 | a pass over two flights in which the follower's own search and queue check move it up, although the flight ahead could have left earlier |
| Retry.NoProposalIsLost | backend/internal/cdm/viff_push_retry.go:49-236 | after any run the newest proposal since the last supersession is pending, in flight, confirmed or given up on, up to what counts as the same (`SameMeansContent`); nothing is pending unless something is in flight |
| Proposals.SameMeansContent | backend/internal/cdm/viff_push_retry.go:238-251 | proposals are the same exactly if authority, suspend flag, parameters and source agree |
| Proposals.NewestIsCarried | backend/internal/cdm/viff_push_retry.go:49-236 | after any run the flight carries a proposal, pending, in flight, confirmed or given up, whose authority, suspend flag, parameters and source are those of the newest one |
| Proposals.BeginStartsExactlyWhen | backend/internal/cdm/viff_push_retry.go:49-84 | with nothing in flight a proposal starts an attempt if and only if it differs in one of these fields from the confirmed one and from the one given up, whose failures are then forgotten; with something in flight it is queued |
| Proposals.AcknowledgedThenNext | backend/internal/cdm/viff_push_retry.go:131-154 | after an acknowledgement the queued proposal goes next, at once, exactly if it differs from the one acknowledged |
| Proposals.FailedThenNext | backend/internal/cdm/viff_push_retry.go:155-191 | after a failure the next attempt carries the newest proposal, at once if it is new and else after 5, 15 or 30 seconds, never later than five minutes after the first failing attempt started; from then on it is given up |
| Proposals.PreparedTakesTheNewest | backend/internal/cdm/viff_push_retry.go:87-104 | preparing takes over the queued proposal and keeps the demand for a reload |
| Retry.StaleWorkerChangesNothing | backend/internal/cdm/viff_push_retry.go:87-221 | once an attempt is superseded, no call with it changes the flight at any point of any later run |
| Retry.StaleStaysStale | backend/internal/cdm/viff_push_retry.go:49-236 | a superseded attempt never becomes live again, whatever follows |
| Retry.FailurePeriodIsBounded | backend/internal/cdm/viff_push_retry.go:10-12 | for disciplined calls: in one failure period there are at most thirteen attempts plus the proposals queued meanwhile, the next one waits at most until five minutes after the first failing attempt started, and at most one starts at or past that deadline |
| Pace.CallsAreDisciplined | backend/internal/cdm/master_viff_sync.go:204-320 | the tracker calls of every run of workers and writers are disciplined: none before the tracker's time, none completed before it was prepared |
| Pace.ExportFailureIsBounded | backend/internal/cdm/viff_push_retry.go:10-12 | so that bound holds in every run of workers and writers, with nothing assumed of them |
| Retry.GivesUpAtTheDeadline | backend/internal/cdm/viff_push_retry.go:151-179 | a failure ends the period exactly when it comes at or past the deadline, and then the newest proposal is remembered as given up |
| Tracker.Entry.Fail | backend/internal/cdm/viff_push_retry.go:155-191 | the failure branch on the entry object is the specified step, with the reported count, duration and level |
| Tracker.Retries.Begin | backend/internal/cdm/viff_push_retry.go:49-84 | one step at the flight's key, no other flight changes, and a returned attempt is new and live; when there is one, `BeginStartsExactlyWhen` says |
| Tracker.Retries.Prepare | backend/internal/cdm/viff_push_retry.go:87-104 | the specified step for a live attempt; null and no change for any other |
| Tracker.Retries.RequireRefresh | backend/internal/cdm/viff_push_retry.go:108-114 | marks the flight in flight for a reload and nothing else |
| Tracker.Retries.Refresh | backend/internal/cdm/viff_push_retry.go:118-129 | replaces the payload of a live attempt; null and no change for any other |
| Tracker.Retries.Complete | backend/internal/cdm/viff_push_retry.go:131-191 | the specified step with its verdict for a live attempt; an empty verdict and no change for any other |
| Tracker.Retries.ConfirmExport | backend/internal/cdm/viff_push_retry.go:195-210 | replaces the flight's entry, unless the session was removed |
| Tracker.Retries.Discard | backend/internal/cdm/viff_push_retry.go:213-222 | drops the flight's entry exactly when the attempt is live |
| Tracker.Retries.RemoveSession | backend/internal/cdm/viff_push_retry.go:224-236 | drops every flight of the session and no other |
| Protocol.OneWorkerPerAttempt | backend/internal/cdm/master_viff_sync.go:204-320 | in every reachable state only the gate's holder is inside, no attempt is held by two workers, and an attempt in flight is held by one |
| Protocol.ConfirmedReadyIsFinal | backend/internal/cdm/action_service.go:785-851 | once a READY export is confirmed, no worker begun before it ever sends again |
| Protocol.TobtForcesReload | backend/internal/cdm/action_service.go:893-925 | after a TOBT-only write, whatever an earlier worker sends carries the mark of a reload after that write; that it is what was stored then, `TobtSendsWhatIsStored` says |
| Payloads.TobtSendsWhatIsStored | backend/internal/cdm/action_service.go:893-925 | after a TOBT-only write, every payload that an earlier worker sends was in the store, with no READY pending, at a point after the write was marked and before it was sent |
| Payloads.ReloadedWasStored | backend/internal/cdm/master_viff_sync.go:249-287 | in every run a payload sent as reloaded was in the store at a point of the run before it was sent |
| Payloads.ConfirmedWasSent | backend/internal/cdm/master_viff_sync.go:204-320 | in every reachable state the confirmed proposal was sent by a worker or exported with a READY, and what a live worker is about to send, or has sent, is what the tracker has in flight |
| Payloads.AcknowledgedBecomesConfirmed | backend/internal/cdm/master_viff_sync.go:288-291 | the acknowledged attempt of a live worker confirms just the payload that this worker sent last |
| Progress.AttemptGoesThrough | backend/internal/cdm/master_viff_sync.go:238-315 | a worker whose time has come and that finds the gate free sends the newest proposal, which is then confirmed, and frees the gate |
| Progress.ReloadGoesThrough | backend/internal/cdm/master_viff_sync.go:249-287 | if a reload is due it sends what is stored instead |
| Progress.NothingToReload | backend/internal/cdm/master_viff_sync.go:252-262 | if nothing is stored, or a READY is pending, it sends nothing and the flight's entry goes |
| Progress.FailureWaits | backend/internal/cdm/master_viff_sync.go:291-313 | after a failure the worker waits for the next attempt if there is one and is done if not |
| Progress.OthersStayOutside | backend/internal/cdm/master_viff_sync.go:225-243 | nobody passes a gate that is taken or a cancelled session, and no worker enters before its time |
| Progress.ReadyGoesThrough | backend/internal/cdm/action_service.go:785-851 | a READY whose export is taken leaves that export confirmed, nothing in flight and no READY pending |
| Progress.RefusedExportLeaves | backend/internal/cdm/action_service.go:785-851 | one whose export is refused changes nothing but what was sent |
| Progress.TobtGoesThrough | backend/internal/cdm/action_service.go:893-925 | a TOBT-only write marks what is in flight for a reload |
| RunwayGap.CanonicalAppend | backend/internal/aman/types.go:2147-2161 | comparing neighbours, as validation does, keeps every two gaps in order and apart |
| RunwayGap.FineGapsMeans | backend/internal/aman/types.go:2147-2161 | the clauses of the validator hold exactly when the gaps are valid, ordered, apart, and new in identity |
| RunwayGap.CoverDeterminesBounds | backend/internal/aman/runway_gap.go:162-170 | two canonical gap lists covering the same times have the same bounds |
| RunwayGap.ValidateGroups | backend/internal/aman/types.go:2087-2161 | the validator's loops accept exactly the valid groups |
| RunwayGapMerge.Absorb | backend/internal/aman/runway_gap.go:100-115 | the fixpoint loop ends with a union that touches no gap left over and reaches exactly as far as what it absorbed; on valid gaps it absorbs exactly those that touch the input |
| RunwayGapMerge.MergeInto | backend/internal/aman/runway_gap.go:99-126 | the new gaps are valid, replace exactly the touching ones, in order, and cover exactly the old times and the input |
| RunwayGapMerge.MergeRunwayGap | backend/internal/aman/runway_gap.go:69-133 | refuses exactly the bad inputs and otherwise changes the gaps of one runway group |
| RunwayGapMerge.UnionIsTheInputs | backend/internal/aman/runway_gap.go:73-126 | the merged gap bears the command's identity and the input's label and authorship, and of the group's old gaps exactly those stay that neither overlap nor touch the input |
| RunwayGapMerge.ReplacedAreTheTouching | backend/internal/aman/runway_gap.go:100-123 | the identities reported as replaced are those of the gaps that overlap or touch the input |
| RunwayGapMerge.RefusedWhen | backend/internal/aman/runway_gap.go:69-130 | refused are exactly inputs with a blank or untrimmed name, without a start, an end or a date, or that end before they start; commands already used; and groups that are not exactly one |
| RunwayGapMerge.MergeKeepsGroupsValid | backend/internal/aman/runway_gap.go:69-133 | on valid groups a merge leaves valid groups |
| RunwayGapMerge.StillAccepted | backend/internal/aman/runway_gap.go:69-97 | a gap that was acceptable before another was merged still is, if their identities differ |
| RunwayGapMerge.MergesCommute | backend/internal/aman/runway_gap.go:66-133 | of two acceptable gaps with different identities each is still acceptable after the other, and both orders change the same group to the same intervals |
| RunwayClosure.ValidateRates | backend/internal/aman/types.go:2116-2134 | the validator's loop over neighbours accepts exactly the rates that are positive, dated and strictly ordered |
| RunwayClosure.ValidatedIsSound | backend/internal/aman/types.go:2087-2161 | groups and rates that validation accepts are sound for the search: strictly ordered schedules, canonical gaps |
| RunwayClosure.NothingBeforeNextPoint | backend/internal/aman/runway_closure_normalization.go:122-131 | the rounded division finds the first grid point after the anchor |
| RunwayClosure.StepsOverflow | backend/internal/aman/runway_closure_normalization.go:123-128 | the overflow test on saturated durations fires exactly when the true step is too long |
| RunwayClosure.NextClosureOpportunity | backend/internal/aman/runway_closure_normalization.go:110-150 | on a valid schedule and gaps: the least grid time after the anchor in no gap, or a failure exactly when there is no rate or a needed step overflows; it always ends; the grid in numbers is that of `OpportunityInNumbers` |
| ClosureRules.OpportunityInNumbers | backend/internal/aman/runway_closure_normalization.go:110-150 | in nanoseconds: the time found is a whole number of spacings after the start of the rate in force, in no gap, and every such time between it and the anchor is in one, a spacing being the least whole number that keeps an hour's landings to the rate |
| ClosureRules.AnHourOfLandings | backend/internal/aman/runway_closure_normalization.go:120 | of one rate's grid, one landing more than the hourly rate takes at least an hour |
| ClosureRules.CloserLandingsAreTooMany | backend/internal/aman/runway_closure_normalization.go:120 | at any smaller spacing these landings take less |
| ClosureRules.InForceIsTheLast | backend/internal/aman/runway_closure_normalization.go:110-150 | in force is the last rate that has started |
| ClosureRules.OverflowInNumbers | backend/internal/aman/runway_closure_normalization.go:123-128 | the step overflows exactly when the next landing lies more than 2^63 - 1 nanoseconds after the start of the rate |
| ClosureRules.RatesInForce | backend/internal/aman/runway_closure_normalization.go:110-118 | a group without a schedule has its one active rate, if that has a start and is not zero |
| RunwayClosure.NormalizeRunwayClosureInterval | backend/internal/aman/runway_closure_normalization.go:34-87 | an input is accepted exactly when it determines a start before its end |
| ClosureRules.AnchorIsACurrentSlot | backend/internal/aman/runway_closure_normalization.go:34-87 | a closure may follow a flight exactly if that has selected the group and holds a dated slot on it of the state's own revision |
| Debounce.EntriesAreOwned | backend/internal/cdm/debounce.go:29-134 | in every interleaving an entry is exactly one of scheduled and running, has exactly one goroutine, and a request no run has followed stays scheduled or marked for a rerun |
| Debounce.RunsNeverOverlap | backend/internal/cdm/debounce.go:61-105 | without cancellation runs of one key never overlap |
| Debounce.StartsAreRequested | backend/internal/cdm/debounce.go:61-105 | between two starts of a run there is a request: nothing runs twice for one |
| Debounce.PrefixedKeys | backend/internal/cdm/debounce.go:123-134 | a key has the prefix exactly if it is the prefix and something after it |
| Debounce.CancelledStartNoRun | backend/internal/cdm/debounce.go:123-134 | after a cancellation an old goroutine starts no further run |
| Debounce.QuietExactlyWhenLastIsLatest | backend/internal/cdm/debounce.go:75-78 | in every reachable waiting state, the run waits out a full interval after every earlier request if and only if the call that locked last carries the latest stamp or that interval has gone by already |
| Debounce.RunsWaitForQuiet | backend/internal/cdm/debounce.go:75-78 | so in every interleaving whose calls lock in stamp order a run starts a full interval after every earlier request |
| Debounce.OvertakingShortensTheWait | backend/internal/cdm/debounce.go:34-42 | two requests in the other order after which a run starts too early |
| Debounce.Debouncer.Schedule | backend/internal/cdm/debounce.go:29-59 | the specified step at one key, with a goroutine exactly when one is needed |
| Debounce.Debouncer.TryStart | backend/internal/cdm/debounce.go:68-85 | the critical section before a run is the specified step |
| Debounce.Debouncer.Finish | backend/internal/cdm/debounce.go:89-104 | the critical section after a run is the specified step |
| Debounce.Debouncer.CancelPrefix | backend/internal/cdm/debounce.go:123-134 | drops exactly the keys with the prefix |
| HoldingEat.EventsAreOfHoldingFlights | backend/internal/app/aman_assembly.go:303-345 | an event is listed if and only if some flight cleared to hold, with a plan on its stack, carries it, and, when what is shown already is suppressed, the clearance shows another time |
| HoldingEat.HoldsWhen | backend/internal/app/aman_assembly.go:303-345 | a flight has a time to publish exactly if it is cleared to a named enroute hold and still under way, its plan has a release time, it has selected a holding whose fix the clearance names, and it is in no other stack |
| HoldingEat.CollectEvents | backend/internal/app/aman_assembly.go:303-345 | the loop lists exactly these events in the order of the flights |
| HoldingEat.Publisher.Publish | backend/internal/app/aman_assembly.go:227-287 | emits, once per key, exactly the difference between the last and the current projection and what is due, and touches no other airport |
| HoldingEat.PublishingFeedsTheReceiver | backend/internal/app/aman_assembly.go:258-286 | applying the emitted updates in order takes a receiver to the next state of the run |
| HoldingEat.ReceiverHoldsTheProjection | backend/internal/app/aman_assembly.go:227-287 | over any run with writeback enabled the receiver holds exactly the current projection and every other key has an empty estimate |
| HoldingEat.ReenablingResendsAll | backend/internal/app/aman_assembly.go:228-235 | enabling writeback again sends the whole projection |
| HoldingEat.OrphansAreWhatDisablingLeft | backend/internal/app/aman_assembly.go:227-287 | after any run, with disabling anywhere, a key off the projection has an estimate if and only if disabling gave it up and it was not projected since |
| HoldingEat.OrphansStay | backend/internal/app/aman_assembly.go:227-287 | such an estimate stays unchanged through every run that does not project its key |
| HoldingEat.DisablingOrphans | backend/internal/app/aman_assembly.go:228-235 | disabling does this to every projected key, and no later run clears it without projecting it |
| Inbound.OutsideMeasuresTheWindow | backend/internal/cdm/inbound_departures.go:57-82 | the time outside the window is what would bring the take-off back into it, for early and late departures |
| Inbound.SnapshotIsExact | backend/internal/cdm/inbound_departures.go:237-297 | a successful poll lists each flight once, with the report on its first row against its frozen slot, and flags exactly the departures more than ten minutes early |
| InboundRules.ShownAs | backend/internal/cdm/inbound_departures.go:57-82 | on the row: pending without a take-off; otherwise the seconds from the held slot to the take-off on the nearest day, early before minus five minutes, late after ten, flagged before minus ten |
| InboundRules.OneFlightWhen | backend/internal/cdm/inbound_departures.go:237-297 | rows are of one flight exactly if callsign, departure, CID and the take-off agree |
| InboundRules.SnapshotIsInOrder | backend/internal/cdm/inbound_departures.go:237-297 | flagged departures are listed by callsign, all flights by slot and then callsign |
| Inbound.FailedPollsLeaveNoTrace | backend/internal/cdm/inbound_departures.go:237-297 | a run with failed polls anywhere leaves the findings and the history of its successful polls alone; only the stale flag tells of the last poll |
| Inbound.FirstSightingIsRecorded | backend/internal/cdm/inbound_departures.go:271-275 | the first departed sighting is recorded with the slot it carries |
| Inbound.SlotIsFrozenForADay | backend/internal/cdm/inbound_departures.go:237-297 | for a day after it, through failures, absences and revised slots, every snapshot assesses the flight against that slot |
| Inbound.Airport.Apply | backend/internal/cdm/inbound_departures.go:237-297 | the loop over the rows leaves the specified state |

## Left out

- QueueIsInOrder: is about queues without improve-only flights; with them the comparison is no order, and `NeighboursAreInOrder`, `CtotsStandFirstExactlyWhen` and `ImproverPassesCtot` say what remains.
- PassSeparates: passes with a late improver are excluded, with the exact condition in `LateImproverTurn` and `LateImproverCollidesExactlyWhen`; the earlier flight's own minima are claimed where `KeepsBoth` holds, which `KeepsBothExactlyWhen` shows to be exact.
- NaturalMeetsEveryFloor: is about inputs whose manual CTOT is their CTOT, as in every input built from a record.
- NetworkCtotDoesNotMoveProposal: a flight that is not due may keep its stored proposal for one CTOT and be reassigned for another, and so may an improve-only flight.
- SecondPassIsIdleExactlyWhen: improve-only flights, and flights without a time that push others aside, are excluded; those pushed aside are searched again, and the condition does not say where they end.
- PlacedIsEarliest: is about flights that are not improve-only; one of those is taken off the list before its new entry joins it.
- PassIgnoresListing: says nothing when one of the two passes hangs; the order in which a demotion asks pending flights can decide whether a hanging search is reached.
- ImproveOnlyNeverLosesOrOvertakes: covers the flights that the queue check asks; `AcceptedMoveOvertakesTheUnasked` says exactly when the others are overtaken.
- FailurePeriodIsBounded: is about disciplined calls; `CallsAreDisciplined` and `ExportFailureIsBounded` discharge that for the export workers. The counter's width is not modelled.
- OrphansAreWhatDisablingLeft: assumes that projected estimates are not empty, as formatted times are.
- TobtForcesReload: assumes a store to read from; without one the source skips the reload.
- NextClosureOpportunity: for schedules or gaps that validation would refuse, only its termination is proved.
- Publish: the two evaluations of the technical health within one publication are one parameter, and the order of the updates of one publication, which are of different keys, is not specified.
- Strips without CDM data are skipped, like strips whose data are empty; a missing configuration is one without rates, intervals or delays.
- Taxi and de-icing minutes, rates, intervals and times arrive as numbers: the taxi zones behind them, floating-point rounding and the parsing of configuration files are not part of this model.
- Clock texts are read as digits; the signs that the source's number parser also accepts, and text beyond ASCII, are not.
- The library's sort is modelled as a stable insertion sort, which it is for up to twenty elements; what is proved of a pass does not rest on that, except for improve-only flights, whose comparison is no total order.
- Clock values are compared where the source compares stored texts to decide whether a record is written (sequence.go:359), so a record that stores "1200" for 12:00 is written there and not in the model.
- Strips are identified by callsign, and persistence by a map; database errors, notifications, markers other than the compacted trace and the recovered EOBT command are left out.
- Command authority is part of a proposal's content; acknowledging deferred authority is left out, and two command sources are the same when their identities are equal.
- The entry points that write to the network without the per-flight gate are outside the export protocol.
- The texts of error messages; an error is only told from a result.
- Time zones: all AMAN times are UTC nanoseconds, zero being the unset time.
- Of the airport state's validation only the runway group, gap and rate clauses are modelled.
- Flight keys of inbound departures are tuples; the source joins their parts with slashes, which the parts are assumed not to contain.
- The goroutines' sleeping, session removal in the three long-running machines, and the exclusivity of runs across a cancellation.
- HTTP and WebSocket transport, authentication, telemetry, the frontend, the EuroScope plugin and the remaining domain logic.
