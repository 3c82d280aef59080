/** What a pass does with improve-only flights. */
module PassImprove {
  import opened Text
  import opened Clock
  import opened Config
  import opened Separation
  import opened Search
  import opened Departure
  import opened Strips
  import opened Sorting
  import opened Ordering
  import opened Sequence
  import opened Timetable
  import opened Guarantees
  import opened Turns

  /** `p` is not ahead of `c`, or already sits before the proposed time, or has no feasible time that is earlier
      than its own and no later than the proposed one. */
  ghost predicate NoFirstClaim(p: Candidate, c: Candidate, proposed: Clock, slots: seq<SlotEntry>, cfg: AirportConfig,
                               now: Instant)
    requires c.slot.Some?
  {
    IsAhead(p, c, c.slot.value, cfg, now) && CompareClock(CurrentTime(p, slots), proposed, now) >= 0 ==>
      && Calculate(p.input, WithoutCallsign(slots, NameOf(c)), cfg, now).Ends?
      && var feasible := Calculate(p.input, WithoutCallsign(slots, NameOf(c)), cfg, now).value.ttot;
         feasible == Absent || CompareClock(feasible, CurrentTime(p, slots), now) >= 0
         || CompareClock(feasible, proposed, now) > 0
  }

  lemma {:induction false} QueueCheckMeans(c: Candidate, proposed: Clock, slots: seq<SlotEntry>, all: seq<Candidate>,
                                           cfg: AirportConfig, now: Instant)
    requires c.slot.Some?
    requires NobodyAheadClaims(c, c.slot.value, proposed, slots, WithoutCallsign(slots, NameOf(c)), all, cfg, now).Ends?
    ensures NobodyAheadClaims(c, c.slot.value, proposed, slots, WithoutCallsign(slots, NameOf(c)), all, cfg, now).value
       <==> forall p :: p in all ==> NoFirstClaim(p, c, proposed, slots, cfg, now)
  {
    if all != [] {
      var p, rest := all[0], all[1..];
      assert all == [p] + rest && p in all;
      if NoFirstClaim(p, c, proposed, slots, cfg, now) {
        QueueCheckMeans(c, proposed, slots, rest, cfg, now);
        assert forall q :: q in all <==> q == p || q in rest;
      }
    }
  }

  /** An improve-only flight stays where it is, or moves to a strictly earlier TSAT that nobody ahead of it claims. */
  ghost predicate FairMove(c: Candidate, after: CdmData, held: seq<Held>, all: seq<Candidate>, cfg: AirportConfig,
                           now: Instant)
  {
    var before := c.strip.data;
    || (after.tsat == before.tsat && after.ttot == before.ttot)
    || (&& IsEarlierClock(after.tsat, before.tsat) && c.slot.Some?
        && forall p :: p in all ==> NoFirstClaim(p, c, after.ttot, Slots(held), cfg, now))
  }

  lemma ImproverMovesFairly(c: Candidate, held: seq<Held>, all: seq<Candidate>, o: Outcome, cfg: AirportConfig,
                            now: Instant)
    requires WellMade(c, cfg, now) && c.improvement && !TsatExpired(c.strip, now)
    requires Settle(c, held, all, cfg, now) == Ends(o)
    ensures FairMove(c, DataAfter(c, o.write), held, all, cfg, now)
  {
    if ShouldRecalculate(c.strip, now) {
      ReassignMovesFairly(c, held, all, o, cfg, now);
    } else {
      assert StripHasStarted(c.strip);
    }
  }

  lemma ReassignMovesFairly(c: Candidate, held: seq<Held>, all: seq<Candidate>, o: Outcome, cfg: AirportConfig,
                            now: Instant)
    requires WellMade(c, cfg, now) && c.improvement && Reassign(c, held, all, cfg, now) == Ends(o)
    ensures FairMove(c, DataAfter(c, o.write), held, all, cfg, now)
  {
    var result := Calculate(c.input, Slots(held), cfg, now).value;
    if IsEarlierClock(result.tsat, c.strip.data.tsat)
       && KeepsQueueOrder(c, result.ttot, Slots(held), all, cfg, now).value {
      EarlierHasTtot(c.input, Slots(held), cfg, now);
      QueueCheckMeans(c, result.ttot, Slots(held), all, cfg, now);
    }
  }

  lemma EarlierHasTtot(input: CalcInput, slots: seq<SlotEntry>, cfg: AirportConfig, now: Instant)
    requires Calculate(input, slots, cfg, now).Ends? && Calculate(input, slots, cfg, now).value.tsat.At?
    ensures Calculate(input, slots, cfg, now).value.ttot.At?
  {
    AssignmentShape(input, slots, cfg, now);
  }

  // ---- In the whole pass -----------------------------------------------------------------

  /** Through any pass an improve-only flight whose TSAT has not expired keeps its TSAT and TTOT; or it gets, in its
      turn of that pass, a strictly earlier TSAT, and against the slot list of that very turn no flight ahead of it, of
      those not already before the adopted time, had a feasible time earlier than its own and no later than the adopted
      one. */
  lemma ImproveOnlyNeverLosesOrOvertakes(strips: seq<Strip>, cfg: AirportConfig, now: Instant, st: PassState,
                                         c: Candidate)
    returns (t: Turn)
    requires DistinctCallsigns(strips) && Pass(strips, cfg, now) == Ends(st)
    requires c in Candidates(strips, cfg, now) && c.improvement && !TsatExpired(c.strip, now)
    ensures var before, after := c.strip.data, Published(c, st.writes);
            || (after.tsat == before.tsat && after.ttot == before.ttot)
            || (&& IsTurnOfPass(c, t, strips, cfg, now, st) && after == DataAfter(c, t.outcome.write)
                && FairMove(c, after, t.before.held, Candidates(strips, cfg, now), cfg, now))
  {
    var all := Candidates(strips, cfg, now);
    CandidatesOf(strips, cfg, now);
    if c in Prepare(all, cfg, now).value.1 {
      t := TurnOfPass(strips, cfg, now, st, c);
      ImproverMovesFairly(c, t.before.held, all, t.outcome, cfg, now);
    } else {
      UnqueuedIsUnwritten(strips, cfg, now, st, c);
      t := Turn([], st, Outcome([], None), []);
    }
  }

  lemma UnqueuedIsUnwritten(strips: seq<Strip>, cfg: AirportConfig, now: Instant, st: PassState, c: Candidate)
    requires DistinctCallsigns(strips) && Pass(strips, cfg, now) == Ends(st)
    requires c in Candidates(strips, cfg, now) && c !in Prepare(Candidates(strips, cfg, now), cfg, now).value.1
    ensures c.strip.callsign !in st.writes
  {
    var all := Candidates(strips, cfg, now);
    CandidatesOf(strips, cfg, now);
    CandidatesAreDistinct(strips, cfg, now);
    var kept := StartIsOrderly(all, cfg, now);
    var (seeds, queue) := Prepare(all, cfg, now).value;
    SameElements(kept + queue, all);
    PartsAreDistinct(kept, queue);
    DrainKeepsWrite(queue, PassState(seeds, map[]), all, cfg, now, st, c.strip.callsign);
  }

  // ---- Those who are not asked --------------------------------------------------------------

  /** `p` is ahead of `c` and could itself leave earlier than now. */
  ghost predicate CouldImprove(p: Candidate, c: Candidate, slots: seq<SlotEntry>, cfg: AirportConfig, now: Instant)
    requires c.slot.Some?
  {
    && IsAhead(p, c, c.slot.value, cfg, now)
    && Calculate(p.input, WithoutCallsign(slots, NameOf(c)), cfg, now).Ends?
    && var feasible := Calculate(p.input, WithoutCallsign(slots, NameOf(c)), cfg, now).value.ttot;
       feasible != Absent && CompareClock(feasible, CurrentTime(p, slots), now) < 0
  }

  /** `p` is ahead of `c` and could itself use a time earlier than its own and no later than the proposed one. */
  ghost predicate IsOvertaken(p: Candidate, c: Candidate, proposed: Clock, slots: seq<SlotEntry>, cfg: AirportConfig,
                              now: Instant)
    requires c.slot.Some?
  {
    && CouldImprove(p, c, slots, cfg, now)
    && CompareClock(Calculate(p.input, WithoutCallsign(slots, NameOf(c)), cfg, now).value.ttot, proposed, now) <= 0
  }

  /** `p` sits before the proposed time, so the queue check does not ask it. */
  predicate IsBeforeProposal(p: Candidate, c: Candidate, proposed: Clock, slots: seq<SlotEntry>, cfg: AirportConfig,
                             now: Instant)
    requires c.slot.Some?
  {
    IsAhead(p, c, c.slot.value, cfg, now) && CompareClock(CurrentTime(p, slots), proposed, now) < 0
  }

  /** Over any slot list, a move that the queue check accepts overtakes nobody ahead exactly when none of the flights
      that are already before the proposed time could leave earlier. If no flight ahead is before the proposed time it
      never overtakes anybody; each flight that is before it and could leave earlier is overtaken. */
  lemma AcceptedMoveOvertakesTheUnasked(c: Candidate, proposed: Clock, slots: seq<SlotEntry>, all: seq<Candidate>,
                                        cfg: AirportConfig, now: Instant)
    requires c.slot.Some? && proposed != Absent && KeepsQueueOrder(c, proposed, slots, all, cfg, now) == Ends(true)
    ensures (forall p :: p in all ==> !IsOvertaken(p, c, proposed, slots, cfg, now)) <==>
            (forall p :: p in all && IsBeforeProposal(p, c, proposed, slots, cfg, now) ==>
               !CouldImprove(p, c, slots, cfg, now))
    ensures forall p :: p in all && IsOvertaken(p, c, proposed, slots, cfg, now) ==>
              IsBeforeProposal(p, c, proposed, slots, cfg, now)
    ensures forall p :: p in all && IsBeforeProposal(p, c, proposed, slots, cfg, now)
                        && CouldImprove(p, c, slots, cfg, now) ==>
              IsOvertaken(p, c, proposed, slots, cfg, now)
  {
    QueueCheckMeans(c, proposed, slots, all, cfg, now);
    forall p | p in all && IsBeforeProposal(p, c, proposed, slots, cfg, now) && CouldImprove(p, c, slots, cfg, now)
      ensures IsOvertaken(p, c, proposed, slots, cfg, now)
    {
      EarlierStill(Calculate(p.input, WithoutCallsign(slots, NameOf(c)), cfg, now).value.ttot, CurrentTime(p, slots),
                   proposed, now);
    }
    forall p | p in all && IsOvertaken(p, c, proposed, slots, cfg, now)
      ensures IsBeforeProposal(p, c, proposed, slots, cfg, now)
    {
      assert NoFirstClaim(p, c, proposed, slots, cfg, now);
    }
  }

  lemma EarlierStill(a: Clock, b: Clock, d: Clock, now: Instant)
    requires CompareClock(a, b, now) < 0 && CompareClock(b, d, now) < 0
    ensures CompareClock(a, d, now) < 0
  {
  }

  /** If nothing blocks the natural time, it is the assignment. */
  lemma FreeAtOnce(input: CalcInput, slots: seq<SlotEntry>, natural: Clock, cfg: AirportConfig, now: Instant)
    requires natural == Unconstrained(input, cfg, now) && natural.At? && !StaleTobt(input, now)
    requires forall s :: s in slots ==> Judge(natural.sec, input.who, s, cfg).Free?
    ensures Calculate(input, slots, cfg, now) == Ends(Assignment(input, natural, now))
  {
    var start := natural.sec;
    BlockedBySome(start, input.who, slots, cfg);
    assert Point(start, 0) == start;
    assert FreePoints(start, input.who, slots, cfg)(0);
  }
}
