/** What a pass writes into the records of its flights. */
module PassRecords {
  import opened Text
  import opened Clock
  import opened Config
  import opened Separation
  import opened Search
  import opened Departure
  import opened Strips
  import opened Sorting
  import opened Ordering
  import opened Sequence
  import opened Timetable
  import opened Guarantees
  import opened PassImprove
  import opened Turns

  /** A record carries no assignment, the assignment it had, or one whose TSAT plus taxi and de-icing time is its
      TTOT. */
  predicate AddsUp(c: Candidate, d: CdmData) {
    || (d.tsat == Absent && d.ttot == Absent)
    || (d.tsat == c.strip.data.tsat && d.ttot == c.strip.data.ttot)
    || (d.tsat.At? && d.ttot == Shift(d.tsat, c.input.ExotSeconds()))
  }

  predicate NothingPending(d: CdmData) {
    !d.IsPending() && !d.pushbackRecalculate && !d.ctotRecalculate
  }

  /** Expiry leaves an invalid record that remembers the TSAT that expired. */
  predicate IsExpiry(c: Candidate, d: CdmData) {
    d.invalidPhase && d.expiredTsat == c.strip.data.tsat && d.tsat == Absent && d.ttot == Absent && d.staleTsatReason
  }

  lemma ExpiryWrites(c: Candidate, held: seq<Held>, now: Instant)
    requires TsatExpired(c.strip, now)
    ensures var o := Expire(c, held);
            o.write.Some? && IsExpiry(c, o.write.value) && NothingPending(o.write.value)
  {
  }

  lemma CalculatedAddsUp(c: Candidate, slots: seq<SlotEntry>, proposal: CalcResult, cfg: AirportConfig, now: Instant)
    requires Calculate(c.input, slots, cfg, now).Ends?
    ensures AddsUp(c, Assigned(c.strip, Calculate(c.input, slots, cfg, now).value, proposal))
  {
    var r := Calculate(c.input, slots, cfg, now).value;
    if r != NO_RESULT {
      AssignmentShape(c.input, slots, cfg, now);
    }
  }

  /** A reassignment leaves nothing pending in the record, written or not. */
  lemma ReassignWrites(c: Candidate, held: seq<Held>, all: seq<Candidate>, o: Outcome, cfg: AirportConfig, now: Instant)
    requires Reassign(c, held, all, cfg, now) == Ends(o)
    ensures AddsUp(c, DataAfter(c, o.write)) && !DataAfter(c, o.write).IsPending()
    ensures o.write.Some? ==> NothingPending(o.write.value)
    ensures c.strip.data.IsPending() ==> o.write.Some?
  {
    CalculatedAddsUp(c, Slots(held), NO_RESULT, cfg, now);
    var result := Calculate(c.input, Slots(held), cfg, now).value;
    if !(c.improvement && !(IsEarlierClock(result.tsat, c.strip.data.tsat) &&
                            KeepsQueueOrder(c, result.ttot, Slots(held), all, cfg, now).value)) {
      var base := if c.improvement then RemoveSlotFor(held, NameOf(c)) else held;
      CalculatedAddsUp(c, Slots(held), Calculate(ProposalInput(c.strip, c.input), Slots(base), cfg, now).value, cfg,
                       now);
    }
  }

  lemma TurnWrites(c: Candidate, held: seq<Held>, all: seq<Candidate>, o: Outcome, cfg: AirportConfig, now: Instant)
    requires WellMade(c, cfg, now) && Settle(c, held, all, cfg, now) == Ends(o)
    ensures AddsUp(c, DataAfter(c, o.write))
    ensures DataAfter(c, o.write).IsPending() <==> c.strip.data.IsPending() && Frozen(c.strip)
  {
    if Recalculate(c, held, all, cfg, now) == Ends(o)
       && (ShouldRecalculate(c.strip, now) || (c.slot.Some? && !c.started)) {
      if TsatExpired(c.strip, now) && !AllowsStartedRecalculation(c.strip) {
        ExpiryWrites(c, held, now);
      } else {
        ReassignWrites(c, held, all, o, cfg, now);
      }
    }
  }

  lemma {:induction false} PendingStaysQueued(todo: seq<Candidate>, held: seq<Held>, recalc: seq<Candidate>,
                                              cfg: AirportConfig, now: Instant, c: Candidate)
    requires (forall d :: d in todo ==> d.slot.Some?) && Preserve(todo, held, recalc, cfg, now).Ends? && c in recalc
    ensures c in Preserve(todo, held, recalc, cfg, now).value.1
  {
    if todo != [] {
      var d := todo[0];
      if Demoted(d, d.slot.value, held, recalc, cfg, now).value {
        PendingStaysQueued(todo[1..], held, recalc + [d], cfg, now, c);
      } else {
        PendingStaysQueued(todo[1..], held + [Held(d.slot.value, Preserved)], recalc, cfg, now, c);
      }
    }
  }

  /** Every flight that is due for recalculation gets its turn. */
  lemma DueIsQueued(all: seq<Candidate>, cfg: AirportConfig, now: Instant, c: Candidate)
    requires Prepare(all, cfg, now).Ends? && c in all && IsRecalculated(c, now)
    ensures c in Prepare(all, cfg, now).value.1
  {
    SelectMembers(all, true, now);
    PendingStaysQueued(SortCandidates(PreservedOrder, Select(all, false, now), now), [], Select(all, true, now), cfg,
                       now, c);
  }

  predicate IsSettled(c: Candidate, d: CdmData) {
    AddsUp(c, d) && (d.IsPending() <==> c.strip.data.IsPending() && Frozen(c.strip))
  }

  lemma QueuedIsSettled(queue: seq<Candidate>, done: seq<Candidate>, held: seq<Held>, all: seq<Candidate>,
                        cfg: AirportConfig, now: Instant, st: PassState, c: Candidate)
    requires Inv(queue, done, PassState(held, map[]), cfg, now)
             && Drain(queue, PassState(held, map[]), all, cfg, now) == Ends(st)
    requires c in queue && WellMade(c, cfg, now)
    ensures IsSettled(c, Published(c, st.writes))
  {
    var t := TurnOf(queue, done, PassState(held, map[]), all, cfg, now, st, c);
    TurnWrites(c, t.before.held, all, t.outcome, cfg, now);
  }

  lemma KeptIsSettled(queue: seq<Candidate>, kept: seq<Candidate>, held: seq<Held>, all: seq<Candidate>,
                      cfg: AirportConfig, now: Instant, st: PassState, c: Candidate)
    requires DistinctNames(kept + queue) && Drain(queue, PassState(held, map[]), all, cfg, now) == Ends(st)
    requires c in kept && !IsRecalculated(c, now)
    ensures IsSettled(c, Published(c, st.writes))
  {
    PartsAreDistinct(kept, queue);
    DrainKeepsWrite(queue, PassState(held, map[]), all, cfg, now, st, c.strip.callsign);
  }

  /** After any pass a flight is still waiting for a recalculation exactly when it was and is a started flight that
      nothing releases, and every published assignment is none, the old one, or adds up. */
  lemma PassSettlesPending(strips: seq<Strip>, cfg: AirportConfig, now: Instant, st: PassState, c: Candidate)
    requires DistinctCallsigns(strips) && Pass(strips, cfg, now) == Ends(st) && c in Candidates(strips, cfg, now)
    ensures IsSettled(c, Published(c, st.writes))
  {
    var all := Candidates(strips, cfg, now);
    CandidatesOf(strips, cfg, now);
    CandidatesAreDistinct(strips, cfg, now);
    var kept := StartIsOrderly(all, cfg, now);
    var (held, queue) := Prepare(all, cfg, now).value;
    SameElements(kept + queue, all);
    if c in queue {
      QueuedIsSettled(queue, kept, held, all, cfg, now, st, c);
    } else {
      if IsRecalculated(c, now) {
        DueIsQueued(all, cfg, now, c);
      }
      KeptIsSettled(queue, kept, held, all, cfg, now, st, c);
    }
  }

  // ---- The exported proposal ------------------------------------------------------------------

  lemma ProposalOfReassign(c: Candidate, held: seq<Held>, all: seq<Candidate>, o: Outcome, cfg: AirportConfig,
                           now: Instant)
    requires !c.improvement && Reassign(c, held, all, cfg, now) == Ends(o)
    ensures var r := Calculate(ProposalInput(c.strip, c.input), Slots(held), cfg, now);
            r.Ends? && DataAfter(c, o.write).proposalTsat == r.value.tsat
            && DataAfter(c, o.write).proposalTtot == r.value.ttot
  {
  }

  /** A network CTOT moves a flight's own assignment but not what is proposed to the network: two records that are due
      and differ in nothing but their network CTOT end their turn, against the same slots, with the same exported
      proposal. */
  lemma NetworkCtotDoesNotMoveProposal(s: Strip, ctot: Clock, held: seq<Held>, a: seq<Candidate>, b: seq<Candidate>,
                                       cfg: AirportConfig, now: Instant, oa: Outcome, ob: Outcome)
    requires !s.data.manualSource && s.data.mode != ImproveOnly && ShouldRecalculate(s, now)
    requires Settle(MakeCandidate(s, cfg, now), held, a, cfg, now) == Ends(oa)
    requires Settle(MakeCandidate(s.(data := s.data.(ctot := ctot)), cfg, now), held, b, cfg, now) == Ends(ob)
    ensures var da := DataAfter(MakeCandidate(s, cfg, now), oa.write);
            var db := DataAfter(MakeCandidate(s.(data := s.data.(ctot := ctot)), cfg, now), ob.write);
            da.proposalTsat == db.proposalTsat && da.proposalTtot == db.proposalTtot
  {
    var t := s.(data := s.data.(ctot := ctot));
    assert ShouldRecalculate(t, now) && (TsatExpired(s, now) <==> TsatExpired(t, now));
    assert AllowsStartedRecalculation(s) <==> AllowsStartedRecalculation(t);
    if !TsatExpired(s, now) || AllowsStartedRecalculation(s) {
      ProposalOfReassign(MakeCandidate(s, cfg, now), held, a, oa, cfg, now);
      ProposalOfReassign(MakeCandidate(t, cfg, now), held, b, ob, cfg, now);
      assert ProposalInput(s, BuildCalcInput(s)) == ProposalInput(t, BuildCalcInput(t));
    }
  }
}
