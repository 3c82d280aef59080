/** The recalculation pass as `recalculateAirport` runs it: loops that grow, shrink and replace the slot list, the
    queue and the persisted records, each proved to compute what module `Sequence` specifies. */
module Recalculation {
  import opened Text
  import opened Clock
  import opened Config
  import opened Separation
  import opened Search
  import opened Departure
  import opened Strips
  import opened Ordering
  import opened Sequence

  method BuildCandidates(strips: seq<Strip>, cfg: AirportConfig, now: Instant) returns (all: seq<Candidate>)
    ensures all == Candidates(strips, cfg, now)
  {
    all := [];
    for i := 0 to |strips|
      invariant all == Candidates(strips[..i], cfg, now)
    {
      assert strips[..i + 1][..i] == strips[..i];
      if !ShouldSkip(strips[i]) {
        all := all + [MakeCandidate(RecoverExpiredTsat(strips[i], now), cfg, now)];
      }
    }
    assert strips[..|strips|] == strips;
  }

  method Partition(all: seq<Candidate>, now: Instant) returns (preserved: seq<Candidate>, recalc: seq<Candidate>)
    ensures preserved == Select(all, false, now) && recalc == Select(all, true, now)
  {
    preserved, recalc := [], [];
    for i := 0 to |all|
      invariant preserved == Select(all[..i], false, now) && recalc == Select(all[..i], true, now)
    {
      assert all[..i + 1][..i] == all[..i];
      if IsRecalculated(all[i], now) {
        recalc := recalc + [all[i]];
      } else {
        preserved := preserved + [all[i]];
      }
    }
    assert all[..|all|] == all;
  }

  // ---- The slot list ------------------------------------------------------------------

  method FindSlotConflict(e: SlotEntry, slots: seq<SlotEntry>, cfg: AirportConfig) returns (found: bool)
    ensures found == HasPreservedSlotConflict(e, slots, cfg)
  {
    for i := 0 to |slots|
      invariant forall j :: 0 <= j < i ==> !Clashes(e, slots[j], cfg)
    {
      if Clashes(e, slots[i], cfg) {
        return true;
      }
    }
    return false;
  }

  method IndexOfCallsign(held: seq<Held>, name: string) returns (k: nat)
    ensures k == FirstFor(held, name, 0)
    ensures k < |held| <==> HasSlotFor(held, name)
  {
    k := 0;
    while k < |held| && Name(held[k]) != name
      invariant k <= |held| && FirstFor(held, name, k) == FirstFor(held, name, 0)
    {
      k := k + 1;
    }
  }

  method RemoveSlotForCallsign(held: seq<Held>, name: string) returns (rest: seq<Held>)
    ensures rest == RemoveSlotFor(held, name)
  {
    var k := IndexOfCallsign(held, name);
    rest := held;
    if k < |held| {
      rest := held[..k] + held[k + 1..];
    }
  }

  method SlotsWithoutCallsign(slots: seq<SlotEntry>, name: string) returns (rest: seq<SlotEntry>)
    ensures rest == WithoutCallsign(slots, name)
  {
    rest := [];
    for i := 0 to |slots|
      invariant rest + WithoutCallsign(slots[i..], name) == WithoutCallsign(slots, name)
    {
      assert slots[i..][1..] == slots[i + 1..];
      if Token(slots[i].who.callsign) != name {
        rest := rest + [slots[i]];
      }
    }
  }

  // ---- Which current slots survive -------------------------------------------------------

  method FindBlocked(c: Candidate, slot: SlotEntry, pending: seq<Candidate>, cfg: AirportConfig, now: Instant)
    returns (r: Run<bool>)
    ensures r == BlocksHigherPriority(c, slot, pending, cfg, now)
  {
    for i := 0 to |pending|
      invariant BlocksHigherPriority(c, slot, pending[i..], cfg, now)
                == BlocksHigherPriority(c, slot, pending, cfg, now)
    {
      var p := pending[i];
      assert pending[i..][1..] == pending[i + 1..];
      if p.improvement || p.started || p.natural == Absent || (!p.hasCtot && !p.input.tobtAuthoritative) {
        continue;
      }
      if Compare(p, c, now, false) >= 0 {
        continue;
      }
      var alone, _ := CalculateWithTrace(p.input, [slot], cfg, now);
      if alone.Hangs? {
        return Hangs;
      }
      if alone.value.ttot != p.natural {
        return Ends(true);
      }
    }
    return Ends(false);
  }

  method PreserveSlots(todo: seq<Candidate>, pending: seq<Candidate>, cfg: AirportConfig, now: Instant)
    returns (r: Run<(seq<Held>, seq<Candidate>)>)
    requires forall c :: c in todo ==> c.slot.Some?
    ensures r == Preserve(todo, [], pending, cfg, now)
  {
    var held: seq<Held>, recalc := [], pending;
    for i := 0 to |todo|
      invariant Preserve(todo[i..], held, recalc, cfg, now) == Preserve(todo, [], pending, cfg, now)
    {
      var c := todo[i];
      var slot := c.slot.value;
      assert todo[i..][1..] == todo[i + 1..];
      if !c.started {
        var clash := FindSlotConflict(slot, Slots(held), cfg);
        var demoted := Ends(true);
        if !clash {
          demoted := FindBlocked(c, slot, recalc, cfg, now);
        }
        if demoted.Hangs? {
          return Hangs;
        }
        if demoted.value {
          recalc := recalc + [c];
          continue;
        }
      }
      held := held + [Held(slot, Preserved)];
    }
    return Ends((held, recalc));
  }

  method ReserveSlots(recalc: seq<Candidate>, seeds: seq<Held>, now: Instant) returns (held: seq<Held>)
    ensures held == Reserve(recalc, seeds, now)
  {
    held := seeds;
    for i := 0 to |recalc|
      invariant Reserve(recalc[i..], held, now) == Reserve(recalc, seeds, now)
    {
      var c := recalc[i];
      assert recalc[i..][1..] == recalc[i + 1..];
      if c.improvement && c.slot.Some? && !TsatExpired(c.strip, now) {
        var k := IndexOfCallsign(held, NameOf(c));
        if k == |held| {
          held := held + [Held(c.slot.value, Reserved)];
        }
      }
    }
  }

  // ---- Queue order ----------------------------------------------------------------------------

  method ImprovementKeepsQueueOrder(c: Candidate, proposed: Clock, slots: seq<SlotEntry>, all: seq<Candidate>,
                                    cfg: AirportConfig, now: Instant) returns (r: Run<bool>)
    ensures r == KeepsQueueOrder(c, proposed, slots, all, cfg, now)
  {
    if c.slot.None? || proposed == Absent {
      return Ends(c.slot.Some?);
    }
    var probe := SlotsWithoutCallsign(slots, NameOf(c));
    for i := 0 to |all|
      invariant NobodyAheadClaims(c, c.slot.value, proposed, slots, probe, all[i..], cfg, now) ==
                NobodyAheadClaims(c, c.slot.value, proposed, slots, probe, all, cfg, now)
    {
      var p := all[i];
      assert all[i..][1..] == all[i + 1..];
      if !IsAhead(p, c, c.slot.value, cfg, now) {
        continue;
      }
      var current := CurrentTime(p, slots);
      if CompareClock(current, proposed, now) < 0 {
        continue;
      }
      var earliest, _ := CalculateWithTrace(p.input, probe, cfg, now);
      if earliest.Hangs? {
        return Hangs;
      }
      var ttot := earliest.value.ttot;
      if ttot == Absent || CompareClock(ttot, current, now) >= 0 {
        continue;
      }
      if CompareClock(ttot, proposed, now) <= 0 {
        return Ends(false);
      }
    }
    return Ends(true);
  }

  // ---- The queue -------------------------------------------------------------------------------

  /** One turn of the main loop that does not leave the flight's slot as it is. */
  method RecalculateFlight(c: Candidate, held: seq<Held>, all: seq<Candidate>, cfg: AirportConfig, now: Instant)
    returns (r: Run<Outcome>)
    ensures r == Recalculate(c, held, all, cfg, now)
  {
    var s := c.strip;
    if TsatExpired(s, now) && !AllowsStartedRecalculation(s) {
      var rest := held;
      if c.improvement {
        rest := RemoveSlotForCallsign(held, NameOf(c));
      }
      var alreadyInvalid := s.data.invalidPhase && s.data.tsat == Absent && s.data.ttot == Absent;
      return Ends(Outcome(rest, if alreadyInvalid then None else Some(Invalidated(s))));
    }
    var result, _ := CalculateWithTrace(c.input, Slots(held), cfg, now);
    if result.Hangs? {
      return Hangs;
    }
    var adopts := Ends(false);
    if IsEarlierClock(result.value.tsat, s.data.tsat) {
      adopts := ImprovementKeepsQueueOrder(c, result.value.ttot, Slots(held), all, cfg, now);
    }
    if adopts.Hangs? {
      return Hangs;
    }
    var base, d, how := held, s.data.ClearPending(), Kept;
    if !c.improvement || adopts.value {
      if c.improvement {
        base := RemoveSlotForCallsign(held, NameOf(c));
      }
      var proposal, _ := CalculateWithTrace(ProposalInput(s, c.input), Slots(base), cfg, now);
      if proposal.Hangs? {
        return Hangs;
      }
      d, how := Assigned(s, result.value, proposal.value), Placed;
    }
    var out := base;
    var k := IndexOfCallsign(base, NameOf(c));
    if d.ttot != Absent && k == |base| {
      out := base + [Held(SlotEntry(ProfileOf(s), d.ttot), how)];
    }
    r := Ends(Outcome(out, if Differs(s, c.input, d) then Some(d) else None));
  }

  method SettleFlight(c: Candidate, held: seq<Held>, all: seq<Candidate>, cfg: AirportConfig, now: Instant)
    returns (r: Run<Outcome>)
    ensures r == Settle(c, held, all, cfg, now)
  {
    if !ShouldRecalculate(c.strip, now) {
      if c.slot.None? {
        return Ends(Outcome(held, None));
      }
      if c.started {
        return Ends(Outcome(held + [Held(c.slot.value, Preserved)], None));
      }
      var again, _ := CalculateWithTrace(c.input, Slots(held), cfg, now);
      if again.Hangs? {
        return Hangs;
      }
      if again.value.ttot == c.slot.value.ttot {
        return Ends(Outcome(held + [Held(c.slot.value, Placed)], None));
      }
    }
    r := RecalculateFlight(c, held, all, cfg, now);
  }

  /** The whole pass is the specified one, and hangs exactly when the specification does; so every theorem about
      `Pass` holds of this loop. */
  method RecalculateAirport(strips: seq<Strip>, cfg: AirportConfig, now: Instant) returns (r: Run<PassState>)
    ensures r == Pass(strips, cfg, now)
  {
    var all := BuildCandidates(strips, cfg, now);
    var preserved, pending := Partition(all, now);
    var kept := PreserveSlots(SortCandidates(PreservedOrder, preserved, now), pending, cfg, now);
    if kept.Hangs? {
      return Hangs;
    }
    var held := ReserveSlots(kept.value.1, kept.value.0, now);
    var queue := SortCandidates(QueueOrder, kept.value.1, now);
    var writes: map<string, CdmData> := map[];
    assert Pass(strips, cfg, now) == Drain(queue, PassState(held, writes), all, cfg, now);
    for i := 0 to |queue|
      invariant Drain(queue[i..], PassState(held, writes), all, cfg, now) == Pass(strips, cfg, now)
    {
      var c := queue[i];
      assert queue[i..][1..] == queue[i + 1..];
      var turn := SettleFlight(c, held, all, cfg, now);
      if turn.Hangs? {
        return Hangs;
      }
      held := turn.value.held;
      if turn.value.write.Some? {
        writes := writes[c.strip.callsign := turn.value.write.value];
      }
    }
    return Ends(PassState(held, writes));
  }
}
