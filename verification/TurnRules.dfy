/** What one turn of a pass does to a flight, field by field. */
module TurnRules {
  import opened Text
  import opened Clock
  import opened Config
  import opened Separation
  import opened Search
  import opened Departure
  import opened Assignments
  import opened Strips
  import opened Sorting
  import opened Ordering
  import opened Sequence
  import opened Timetable
  import opened Guarantees
  import opened Turns
  import opened PassOrder
  import opened PassRecords
  import opened Precedence
  import opened Eligibility

  // ---- Which turn it is --------------------------------------------------------------------

  /** The TSAT was more than five minutes ago, and nothing lets a started flight be recalculated. */
  predicate MissedIt(s: Strip, now: Instant) {
    && Between(s.data.tsat, At(ClockOf(now))) > 300
    && !(s.data.mode != NotPending
         && ((s.data.ctotRecalculate && StripHasStarted(s)) || (s.data.pushbackRecalculate && s.data.aobt == Absent)))
  }

  /** A due flight that missed its TSAT loses it; any other due flight is reassigned. A flight that is queued though not
      due, because it was demoted, keeps its slot if the search still finds that time, and is treated as due if not;
      without a slot it is left alone. */
  lemma TurnDecides(c: Candidate, held: seq<Held>, all: seq<Candidate>, cfg: AirportConfig, now: Instant)
    requires WellMade(c, cfg, now) && !(c.started && c.slot.Some? && !ShouldRecalculate(c.strip, now))
    ensures var r := Calculate(c.input, Slots(held), cfg, now);
            Settle(c, held, all, cfg, now) ==
            if !ShouldRecalculate(c.strip, now) && c.slot.None? then Ends(Outcome(held, None))
            else if !ShouldRecalculate(c.strip, now) && r == Hangs then Hangs
            else if !ShouldRecalculate(c.strip, now) && r.value.ttot == c.slot.value.ttot
            then Ends(Outcome(held + [Held(c.slot.value, Placed)], None))
            else if MissedIt(c.strip, now) then Ends(Expire(c, held))
            else Reassign(c, held, all, cfg, now)
  {
  }

  /** Losing the TSAT: the record is invalid for that reason and remembers it, nothing is pending or assigned any more,
      and only the taxi time it was reckoned with is added. */
  lemma MissedRecord(c: Candidate, held: seq<Held>, now: Instant)
    requires c.input == BuildCalcInput(c.strip) && MissedIt(c.strip, now)
    ensures var o := Expire(c, held);
            && o.held == (if c.improvement then RemoveSlotFor(held, NameOf(c)) else held)
            && o.write == Some(c.strip.data.(mode := NotPending, pushbackRecalculate := false, ctotRecalculate := false,
                                             invalidPhase := true, staleTsatReason := true,
                                             expiredTsat := c.strip.data.tsat, tsat := Absent, ttot := Absent,
                                             taxiMinutes := if c.strip.taxiMin < 0 then 0 else c.strip.taxiMin,
                                             taxiRunway := c.strip.runway))
  {
  }

  // ---- What a reassignment publishes -------------------------------------------------------------

  /** The new record of a reassigned flight: the search's times, the proposal, nothing pending. Without new times a
      flight whose TSAT had expired stays invalid for that reason; otherwise it is valid and remembers no expiry. */
  predicate IsReassigned(s: Strip, r: CalcResult, proposal: CalcResult, d: CdmData) {
    && d.tsat == r.tsat && d.ttot == r.ttot && d.proposalTsat == proposal.tsat && d.proposalTtot == proposal.ttot
    && d.mode == NotPending && !d.pushbackRecalculate && !d.ctotRecalculate
    && (d.invalidPhase <==> r.tsat == Absent && s.data.expiredTsat != Absent)
    && d.staleTsatReason == d.invalidPhase
    && d.expiredTsat == (if r.tsat == Absent then s.data.expiredTsat else Absent)
    && d.taxiMinutes == (if s.taxiMin < 0 then 0 else s.taxiMin) && d.taxiRunway == s.runway
    && d.tobt == s.data.tobt && d.eobt == s.data.eobt && d.ctot == s.data.ctot && d.asat == s.data.asat
    && d.aobt == s.data.aobt && d.manualSource == s.data.manualSource && d.confirmed == s.data.confirmed
  }

  /** Nothing that counts changes, and the stored taxi time was the current one. */
  predicate IsAsBefore(s: Strip, d: CdmData) {
    && d.tsat == s.data.tsat && d.ttot == s.data.ttot && s.data.mode == NotPending && s.data.taxiMinutes == s.taxiMin
    && Trim(s.data.taxiRunway) == Trim(d.taxiRunway)
    && d.proposalTsat == s.data.proposalTsat && d.proposalTtot == s.data.proposalTtot
  }

  /** A reassigned flight that is not improve-only: its new record is written unless all is as before, and its new time
      is listed if it has one. */
  lemma ReassignedRecord(c: Candidate, held: seq<Held>, all: seq<Candidate>, o: Outcome, cfg: AirportConfig,
                         now: Instant)
    returns (d: CdmData)
    requires WellMade(c, cfg, now) && !c.improvement && Reassign(c, held, all, cfg, now) == Ends(o)
    requires !HasSlotFor(held, NameOf(c))
    ensures var r := Calculate(c.input, Slots(held), cfg, now);
            var proposal := Calculate(ProposalInput(c.strip, c.input), Slots(held), cfg, now);
            && r.Ends? && proposal.Ends? && IsReassigned(c.strip, r.value, proposal.value, d)
            && o.write == (if IsAsBefore(c.strip, d) then None else Some(d))
            && o.held == (if r.value.ttot == Absent then held
                          else held + [Held(SlotEntry(ProfileOf(c.strip), r.value.ttot), Placed)])
  {
    var r := Calculate(c.input, Slots(held), cfg, now).value;
    d := Assigned(c.strip, r, Calculate(ProposalInput(c.strip, c.input), Slots(held), cfg, now).value);
  }

  /** A CTOT set by hand is proposed to the network: the proposal is then what the flight is assigned. Any other CTOT is
      left out of the proposal, which is what a flight without one would be assigned. */
  lemma ProposalKeepsManualCtots(s: Strip)
    ensures s.data.manualSource && s.data.ctot != Absent ==> ProposalInput(s, BuildCalcInput(s)) == BuildCalcInput(s)
    ensures !(s.data.manualSource && s.data.ctot != Absent) ==>
              ProposalInput(s, BuildCalcInput(s)) == BuildCalcInput(s.(data := s.data.(ctot := Absent)))
  {
  }

  lemma ManualCtotsAreProposed(c: Candidate, held: seq<Held>, all: seq<Candidate>, o: Outcome, cfg: AirportConfig,
                               now: Instant)
    requires WellMade(c, cfg, now) && !c.improvement && Reassign(c, held, all, cfg, now) == Ends(o)
    requires c.strip.data.manualSource && c.strip.data.ctot != Absent && !HasSlotFor(held, NameOf(c))
    ensures var d := DataAfter(c, o.write); d.proposalTsat == d.tsat && d.proposalTtot == d.ttot
  {
    ProposalKeepsManualCtots(c.strip);
    var d := ReassignedRecord(c, held, all, o, cfg, now);
  }

  /** The search found the improve-only flight an earlier TSAT, and the queue check lets it pass. */
  ghost predicate Adopts(c: Candidate, held: seq<Held>, all: seq<Candidate>, cfg: AirportConfig, now: Instant) {
    && Calculate(c.input, Slots(held), cfg, now).Ends?
    && var r := Calculate(c.input, Slots(held), cfg, now).value;
       IsEarlierClock(r.tsat, c.strip.data.tsat) && KeepsQueueOrder(c, r.ttot, Slots(held), all, cfg, now) == Ends(true)
  }

  /** An improve-only flight whose search finds nothing better keeps its times, with nothing pending any more. */
  lemma ImproverKeeps(c: Candidate, held: seq<Held>, all: seq<Candidate>, o: Outcome, cfg: AirportConfig, now: Instant)
    requires WellMade(c, cfg, now) && c.improvement && Reassign(c, held, all, cfg, now) == Ends(o)
    requires !Adopts(c, held, all, cfg, now)
    ensures o.write == Some(c.strip.data.(mode := NotPending, pushbackRecalculate := false, ctotRecalculate := false))
  {
  }

  /** One that finds something better takes it. */
  lemma ImproverAdopts(c: Candidate, held: seq<Held>, all: seq<Candidate>, o: Outcome, cfg: AirportConfig, now: Instant)
    requires WellMade(c, cfg, now) && c.improvement && Reassign(c, held, all, cfg, now) == Ends(o)
    requires Adopts(c, held, all, cfg, now)
    ensures var r := Calculate(c.input, Slots(held), cfg, now).value;
            o.write.Some? && o.write.value.tsat == r.tsat && o.write.value.ttot == r.ttot
  {
    var r := Calculate(c.input, Slots(held), cfg, now).value;
    var base := RemoveSlotFor(held, NameOf(c));
    var proposal := Calculate(ProposalInput(c.strip, c.input), Slots(base), cfg, now).value;
    assert o == Publish(c, base, Assigned(c.strip, r, proposal), Placed);
  }

  // ---- Who is ahead of an improving flight -----------------------------------------------------

  /** Ahead are the unstarted flights with an earlier current slot at the same airport that share its runway
      capacity. */
  lemma AheadWhen(p: Candidate, c: Candidate, slot: SlotEntry, cfg: AirportConfig, now: Instant)
    ensures IsAhead(p, c, slot, cfg, now) <==>
            && p.slot.Some? && !p.started && Upper(Trim(p.strip.callsign)) != Upper(Trim(c.strip.callsign))
            && Upper(Trim(p.slot.value.who.origin)) == Upper(Trim(slot.who.origin))
            && SameOrDependentRunway(cfg, slot.who.depRwy, p.slot.value.who.depRwy)
            && NoLater(p.slot.value.ttot, slot.ttot, now) && !NoLater(slot.ttot, p.slot.value.ttot, now)
  {
    TokenIsUpperTrim(p.strip.callsign);
    TokenIsUpperTrim(c.strip.callsign);
    TokenIsUpperTrim(slot.who.origin);
    if p.slot.Some? {
      TokenIsUpperTrim(p.slot.value.who.origin);
      ClocksCompare(p.slot.value.ttot, slot.ttot, now);
      ClocksCompare(slot.ttot, p.slot.value.ttot, now);
    }
  }

  /** A flight's time in a list is that of its first entry. */
  lemma {:induction false} ListedTime(slots: seq<SlotEntry>, name: string, n: nat)
    requires n < |slots| && Token(slots[n].who.callsign) == name
    requires forall m :: 0 <= m < n ==> Token(slots[m].who.callsign) != name
    ensures SlotFor(slots, name) == Some(slots[n])
  {
    if n > 0 {
      assert slots[1..][n - 1] == slots[n];
      assert forall m :: 0 <= m < n - 1 ==> slots[1..][m] == slots[m + 1];
      ListedTime(slots[1..], name, n - 1);
    }
  }

  lemma {:induction false} UnlistedTime(slots: seq<SlotEntry>, name: string)
    requires forall s :: s in slots ==> Token(s.who.callsign) != name
    ensures SlotFor(slots, name) == None
  {
    if slots != [] {
      assert slots[0] in slots && forall s :: s in slots[1..] ==> s in slots;
      UnlistedTime(slots[1..], name);
    }
  }

  /** The queue check searches against the slots of all other flights. */
  lemma {:induction false} OthersAreLeft(slots: seq<SlotEntry>, name: string)
    ensures forall s :: s in WithoutCallsign(slots, name) <==> s in slots && Token(s.who.callsign) != name
  {
    if slots != [] {
      OthersAreLeft(slots[1..], name);
      assert slots == [slots[0]] + slots[1..];
    }
  }

  // ---- Who is pushed off a slot -----------------------------------------------------------------

  /** A flight that is not due and has not started joins the queue if a due flight would be pushed aside by its slot. */
  lemma {:induction false} PushedIsDemoted(todo: seq<Candidate>, held: seq<Held>, recalc: seq<Candidate>,
                                           cfg: AirportConfig, now: Instant, c: Candidate, p: Candidate)
    requires (forall d :: d in todo ==> d.slot.Some?) && Preserve(todo, held, recalc, cfg, now).Ends?
    requires c in todo && !c.started && p in recalc && IsBlockedBy(p, c, c.slot.value, cfg, now) == Ends(true)
    ensures c in Preserve(todo, held, recalc, cfg, now).value.1
  {
    var d, rest := todo[0], todo[1..];
    assert d in todo && forall e :: e in rest ==> e in todo;
    if c == d {
      if !HasPreservedSlotConflict(c.slot.value, Slots(held), cfg) {
        BlocksMeans(c, c.slot.value, recalc, cfg, now);
      }
      PendingStaysQueued(rest, held, recalc + [c], cfg, now, c);
    } else if Demoted(d, d.slot.value, held, recalc, cfg, now).value {
      PushedIsDemoted(rest, held, recalc + [d], cfg, now, c, p);
    } else {
      PushedIsDemoted(rest, held + [Held(d.slot.value, Preserved)], recalc, cfg, now, c, p);
    }
  }

  lemma PushedIsQueued(all: seq<Candidate>, cfg: AirportConfig, now: Instant, c: Candidate, p: Candidate)
    requires Prepare(all, cfg, now).Ends? && c in all && p in all && IsRecalculated(p, now)
    requires c.slot.Some? && !c.started && !IsRecalculated(c, now)
    requires IsBlockedBy(p, c, c.slot.value, cfg, now) == Ends(true)
    ensures c in Prepare(all, cfg, now).value.1
  {
    SelectMembers(all, false, now);
    SelectMembers(all, true, now);
    PushedIsDemoted(SortCandidates(PreservedOrder, Select(all, false, now), now), [], Select(all, true, now), cfg, now,
                    c, p);
  }
}
