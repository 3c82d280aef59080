/** The main results about `recalculateAirport`: every statement ranges over all strips, configurations and times. */
module PassTheorems {
  import opened Text
  import opened Clock
  import opened Config
  import opened Separation
  import opened Search
  import opened Departure
  import opened Strips
  import opened Sorting
  import opened Ordering
  import opened Sequence
  import opened Timetable
  import opened Guarantees
  import opened PassImprove
  import opened Turns

  // ---- The slot list is the published timetable -----------------------------------------

  lemma PassKeepsInv(strips: seq<Strip>, cfg: AirportConfig, now: Instant, st: PassState)
    returns (flights: seq<Candidate>)
    requires DistinctCallsigns(strips) && Pass(strips, cfg, now) == Ends(st)
    ensures Inv([], flights, st, cfg, now)
    ensures multiset(flights) == multiset(Candidates(strips, cfg, now))
  {
    var all := Candidates(strips, cfg, now);
    CandidatesOf(strips, cfg, now);
    CandidatesAreDistinct(strips, cfg, now);
    var kept := StartIsOrderly(all, cfg, now);
    var (held, queue) := Prepare(all, cfg, now).value;
    flights := DrainKeepsInv(queue, kept, PassState(held, map[]), all, cfg, now, st);
  }

  lemma ReadInv(flights: seq<Candidate>, all: seq<Candidate>, st: PassState, cfg: AirportConfig, now: Instant)
    requires Inv([], flights, st, cfg, now) && multiset(flights) == multiset(all)
    ensures Clear(st.held, cfg) && Unique(st.held) && Accounted(st.held, all, now)
    ensures forall c :: c in all ==> IsDone(c, st)
  {
    SameElements(flights, all);
    assert flights + [] == flights;
  }

  /** After a pass each callsign has at most one entry, and a flight has an entry exactly when it has a TTOT,
      at that TTOT. Every entry belongs to a flight of the airport. */
  lemma SlotListIsTheTimetable(strips: seq<Strip>, cfg: AirportConfig, now: Instant, st: PassState)
    requires DistinctCallsigns(strips) && Pass(strips, cfg, now) == Ends(st)
    ensures Clear(st.held, cfg) && Unique(st.held)
    ensures forall c :: c in Candidates(strips, cfg, now) ==> Seated(c, st.held, Published(c, st.writes).ttot)
    ensures Accounted(st.held, Candidates(strips, cfg, now), now)
  {
    var flights := PassKeepsInv(strips, cfg, now, st);
    ReadInv(flights, Candidates(strips, cfg, now), st, cfg, now);
    forall c | c in Candidates(strips, cfg, now)
      ensures Seated(c, st.held, Published(c, st.writes).ttot)
    {
      assert IsDone(c, st);
    }
  }

  // ---- Separation -------------------------------------------------------------------------

  lemma {:induction false} ClearEntries(held: seq<Held>, i: nat, j: nat, cfg: AirportConfig)
    requires Clear(held, cfg) && i < j < |held|
    ensures held[j].how == Placed ==> !Conflicts(held[j].slot, held[i].slot, cfg)
    ensures IsSeed(held[j]) ==> IsSeed(held[i])
  {
    var n := |held| - 1;
    if j < n {
      ClearEntries(held[..n], i, j, cfg);
    } else {
      var h, earlier := held[n], held[..n];
      assert held[i] in earlier;
      if h.how == Placed {
        SlotsOf(earlier, held[i].slot);
        BlockedBySome(h.slot.ttot.sec, h.slot.who, Slots(earlier), cfg);
      }
    }
  }

  /** Of any two entries, a later one that this pass placed has no conflict with the earlier one; and only a late
      improver can follow a placed entry without having been checked. */
  lemma LaterPlacedDoesNotConflict(strips: seq<Strip>, cfg: AirportConfig, now: Instant, st: PassState, i: nat, j: nat)
    requires DistinctCallsigns(strips) && Pass(strips, cfg, now) == Ends(st) && i < j < |st.held|
    ensures st.held[j].how == Placed ==> !Conflicts(st.held[j].slot, st.held[i].slot, cfg)
    ensures st.held[i].how == Placed && st.held[j].how != Placed ==> st.held[j].how == Kept
    ensures st.held[j].how == Kept ==>
              exists c ::
                c in Candidates(strips, cfg, now) && NameOf(c) == Name(st.held[j]) && LateImprover(c.strip, now)
  {
    SlotListIsTheTimetable(strips, cfg, now, st);
    ClearEntries(st.held, i, j, cfg);
    assert st.held[j] in st.held;
  }

  /** One origin and one runway. */
  predicate SameStrip(a: SlotEntry, b: SlotEntry) {
    Token(a.who.origin) == Token(b.who.origin) && SameRunway(a.who.depRwy, b.who.depRwy)
  }

  /** No flight that takes part is a late improver. */
  ghost predicate NoLateImprover(strips: seq<Strip>, now: Instant) {
    forall s :: s in strips && !ShouldSkip(s) ==> !LateImprover(s, now)
  }

  lemma RecoveredIsNoLateImprover(s: Strip, c: Candidate, cfg: AirportConfig, now: Instant)
    requires c == MakeCandidate(RecoverExpiredTsat(s, now), cfg, now) && !LateImprover(s, now)
    ensures !LateImprover(c.strip, now)
  {
  }

  lemma NoLateCandidate(strips: seq<Strip>, cfg: AirportConfig, now: Instant)
    requires NoLateImprover(strips, now)
    ensures forall c :: c in Candidates(strips, cfg, now) ==> !LateImprover(c.strip, now)
  {
    CandidatesOf(strips, cfg, now);
    forall c | c in Candidates(strips, cfg, now)
      ensures !LateImprover(c.strip, now)
    {
      var s :| s in strips && !ShouldSkip(s) && c == MakeCandidate(RecoverExpiredTsat(s, now), cfg, now);
      RecoveredIsNoLateImprover(s, c, cfg, now);
    }
  }

  lemma NothingIsKept(strips: seq<Strip>, cfg: AirportConfig, now: Instant, st: PassState)
    requires DistinctCallsigns(strips) && Pass(strips, cfg, now) == Ends(st) && NoLateImprover(strips, now)
    ensures forall h :: h in st.held ==> h.how != Kept
  {
    SlotListIsTheTimetable(strips, cfg, now, st);
    NoLateCandidate(strips, cfg, now);
  }

  lemma NoConflictMeansSpaced(earlier: Held, later: Held, cfg: AirportConfig)
    requires SameStrip(earlier.slot, later.slot) && Name(earlier) != Name(later)
    requires earlier.slot.ttot.At? && later.slot.ttot.At? && !Conflicts(later.slot, earlier.slot, cfg)
    ensures Spaced(later.slot, earlier.slot, cfg)
    ensures KeepsBoth(cfg, later.slot.who, earlier.slot.who) ==> Spaced(earlier.slot, later.slot, cfg)
  {
    FreeExactlyWhenSpaced(later.slot.ttot.sec, later.slot.who, earlier.slot, cfg);
    if KeepsBoth(cfg, later.slot.who, earlier.slot.who) {
      OneKeepsBoth(later.slot, earlier.slot, cfg);
    }
  }

  /** Unless a late improver takes part, any two flights of one origin and runway keep same-destination, rate, wake and
      SID spacing in their actual order, or both still hold the times with which they came into the pass. The later
      listed flight keeps the minima of its own runway name; and those of the other's, where they cover them. */
  lemma PassSeparates(strips: seq<Strip>, cfg: AirportConfig, now: Instant, st: PassState, i: nat, j: nat)
    requires DistinctCallsigns(strips) && Pass(strips, cfg, now) == Ends(st) && NoLateImprover(strips, now)
    requires i < j < |st.held| && SameStrip(st.held[i].slot, st.held[j].slot)
    requires st.held[i].slot.ttot.At? && st.held[j].slot.ttot.At?
    ensures var earlier, later := st.held[i], st.held[j];
            || (IsSeed(earlier) && IsSeed(later))
            || (&& Spaced(later.slot, earlier.slot, cfg)
                && (KeepsBoth(cfg, later.slot.who, earlier.slot.who) ==> Spaced(earlier.slot, later.slot, cfg)))
  {
    SlotListIsTheTimetable(strips, cfg, now, st);
    NothingIsKept(strips, cfg, now, st);
    ClearEntries(st.held, i, j, cfg);
    assert st.held[j] in st.held && st.held[i] in st.held;
    if st.held[j].how == Placed {
      NoConflictMeansSpaced(st.held[i], st.held[j], cfg);
    }
  }

  // ---- Late improvers ---------------------------------------------------------------------

  /** Whether the search finds the flight an earlier TSAT to which no flight asked has a claim. */
  ghost predicate MayMove(c: Candidate, r: CalcResult, slots: seq<SlotEntry>, all: seq<Candidate>, cfg: AirportConfig,
                          now: Instant)
    requires c.slot.Some?
  {
    IsEarlierClock(r.tsat, c.strip.data.tsat) && forall p :: p in all ==> NoFirstClaim(p, c, r.ttot, slots, cfg, now)
  }

  lemma LateImproverAdopts(c: Candidate, held: seq<Held>, all: seq<Candidate>, r: CalcResult, cfg: AirportConfig,
                           now: Instant)
    requires c.slot.Some? && Calculate(c.input, Slots(held), cfg, now) == Ends(r)
    requires Reassign(c, held, all, cfg, now).Ends? && IsEarlierClock(r.tsat, c.strip.data.tsat)
    ensures KeepsQueueOrder(c, r.ttot, Slots(held), all, cfg, now) == Ends(MayMove(c, r, Slots(held), all, cfg, now))
    ensures r.ttot.At?
  {
    EarlierHasTtot(c.input, Slots(held), cfg, now);
    QueueCheckMeans(c, r.ttot, Slots(held), all, cfg, now);
  }

  lemma NothingToRemove(held: seq<Held>, name: string)
    requires !HasSlotFor(held, name)
    ensures RemoveSlotFor(held, name) == held
  {
    assert forall i :: 0 <= i < |held| ==> held[i] in held;
  }

  /** A late improver gives up its old time exactly when the search finds it an earlier TSAT that no flight asked has a
      claim to; in both other cases it is put back on the old time. */
  lemma LateImproverTurn(c: Candidate, held: seq<Held>, all: seq<Candidate>, o: Outcome, r: CalcResult,
                         cfg: AirportConfig, now: Instant)
    requires WellMade(c, cfg, now) && LateImprover(c.strip, now) && !HasSlotFor(held, NameOf(c))
    requires Settle(c, held, all, cfg, now) == Ends(o) && Calculate(c.input, Slots(held), cfg, now) == Ends(r)
    ensures o.held == held + [if MayMove(c, r, Slots(held), all, cfg, now) then
                                Held(SlotEntry(ProfileOf(c.strip), r.ttot), Placed)
                              else Held(c.slot.value, Kept)]
  {
    NothingToRemove(held, NameOf(c));
    if IsEarlierClock(r.tsat, c.strip.data.tsat) {
      LateImproverAdopts(c, held, all, r, cfg, now);
    }
  }

  lemma PlacedIsFree(input: CalcInput, r: CalcResult, held: seq<Held>, cfg: AirportConfig, now: Instant)
    requires Calculate(input, Slots(held), cfg, now) == Ends(r) && r.ttot.At?
    ensures forall h :: h in held ==> !Conflicts(SlotEntry(input.who, r.ttot), h.slot, cfg)
  {
    CalculatedIsFree(input, Slots(held), cfg, now);
    BlockedBySome(r.ttot.sec, input.who, Slots(held), cfg);
    forall h | h in held
      ensures h.slot in Slots(held)
    {
      SlotsOf(held, h.slot);
    }
  }

  ghost predicate Collides(e: SlotEntry, held: seq<Held>, cfg: AirportConfig) {
    exists h :: h in held && Conflicts(e, h.slot, cfg)
  }

  /** So after its turn its entry collides exactly when it may not move and something stands in the way of its old
      time. */
  lemma LateImproverCollidesExactlyWhen(c: Candidate, held: seq<Held>, all: seq<Candidate>, o: Outcome, r: CalcResult,
                                        cfg: AirportConfig, now: Instant)
    requires WellMade(c, cfg, now) && LateImprover(c.strip, now) && !HasSlotFor(held, NameOf(c))
    requires Settle(c, held, all, cfg, now) == Ends(o) && Calculate(c.input, Slots(held), cfg, now) == Ends(r)
    ensures |o.held| == |held| + 1
    ensures Collides(o.held[|held|].slot, held, cfg) <==>
              !MayMove(c, r, Slots(held), all, cfg, now) && Collides(c.slot.value, held, cfg)
  {
    LateImproverTurn(c, held, all, o, r, cfg, now);
    if MayMove(c, r, Slots(held), all, cfg, now) {
      EarlierHasTtot(c.input, Slots(held), cfg, now);
      PlacedIsFree(c.input, r, held, cfg, now);
    }
  }

  // ---- Frozen flights -----------------------------------------------------------------------

  lemma FrozenIsLeftAlone(c: Candidate, held: seq<Held>, all: seq<Candidate>, o: Outcome, cfg: AirportConfig,
                          now: Instant)
    requires WellMade(c, cfg, now) && Frozen(c.strip) && Settle(c, held, all, cfg, now) == Ends(o)
    ensures o.write == None
  {
    assert !ShouldRecalculate(c.strip, now);
  }

  /** Writes come only from flights of the queue that are not frozen, and entries of other callsigns stay. */
  lemma {:induction false} DrainLeavesOthers(queue: seq<Candidate>, done: seq<Candidate>, st: PassState,
                                             all: seq<Candidate>, cfg: AirportConfig, now: Instant, end: PassState)
    requires Inv(queue, done, st, cfg, now) && Drain(queue, st, all, cfg, now) == Ends(end)
    ensures forall k :: k in end.writes ==>
              k in st.writes || exists c :: c in queue && c.strip.callsign == k && !Frozen(c.strip)
    ensures forall h :: h in st.held && (forall c :: c in queue ==> NameOf(c) != Name(h)) ==> h in end.held
  {
    if queue != [] {
      var c, rest := queue[0], queue[1..];
      assert queue == [c] + rest && c in queue;
      var o := NextStep(queue, st, all, cfg, now);
      assert IsDue(c, st, cfg, now);
      SettleSeats(c, st.held, all, o, cfg, now);
      StepKeepsInv(queue, done, st, o, cfg, now);
      if Frozen(c.strip) {
        FrozenIsLeftAlone(c, st.held, all, o, cfg, now);
      }
      var after := PassState(o.held, Record(st.writes, c, o.write));
      DrainLeavesOthers(rest, done + [c], after, all, cfg, now, end);
      forall h | h in st.held && (forall d :: d in queue ==> NameOf(d) != Name(h))
        ensures h in end.held
      {
        assert h in o.held;
        assert forall d :: d in rest ==> d in queue;
      }
    }
  }

  lemma FrozenThroughDrain(queue: seq<Candidate>, kept: seq<Candidate>, held: seq<Held>, all: seq<Candidate>,
                           c: Candidate, cfg: AirportConfig, now: Instant, st: PassState)
    requires Inv(queue, kept, PassState(held, map[]), cfg, now)
             && Drain(queue, PassState(held, map[]), all, cfg, now) == Ends(st)
    requires c in kept + queue && WellMade(c, cfg, now) && Frozen(c.strip) && AllListed(kept, held)
    ensures c.strip.callsign !in st.writes
    ensures c.strip.data.ttot != Absent ==> PreservedEntry(c) in st.held
  {
    DrainLeavesOthers(queue, kept, PassState(held, map[]), all, cfg, now, st);
    CallsignsDiffer(kept + queue, c);
    assert forall d :: d in queue ==> d in kept + queue;
    if c.strip.data.ttot != Absent {
      assert c in queue ==> IsDue(c, PassState(held, map[]), cfg, now);
      assert c in kept;
      PartsAreDistinct(kept, queue);
      assert Name(PreservedEntry(c)) == NameOf(c);
    }
  }

  lemma CandidateOfStarted(strips: seq<Strip>, cfg: AirportConfig, now: Instant, s: Strip)
    requires s in strips && !ShouldSkip(s) && StripHasStarted(s)
    ensures MakeCandidate(s, cfg, now) in Candidates(strips, cfg, now)
  {
    CandidatesOf(strips, cfg, now);
    assert RecoverExpiredTsat(s, now) == s;
  }

  lemma FrozenThroughPass(strips: seq<Strip>, cfg: AirportConfig, now: Instant, st: PassState, c: Candidate)
    requires DistinctCallsigns(strips) && Pass(strips, cfg, now) == Ends(st)
    requires c in Candidates(strips, cfg, now) && Frozen(c.strip)
    ensures c.strip.callsign !in st.writes
    ensures c.strip.data.ttot != Absent ==> PreservedEntry(c) in st.held
  {
    var all := Candidates(strips, cfg, now);
    CandidatesOf(strips, cfg, now);
    CandidatesAreDistinct(strips, cfg, now);
    var kept := StartIsOrderly(all, cfg, now);
    var (held, queue) := Prepare(all, cfg, now).value;
    SameElements(kept + queue, all);
    FrozenThroughDrain(queue, kept, held, all, c, cfg, now, st);
  }

  /** A started flight that no CTOT change or pushback request releases keeps its whole record through the pass;
      its slot is listed before anything the pass places, and nothing placed conflicts with it. */
  lemma FrozenFlightsKeepTheirSlot(strips: seq<Strip>, cfg: AirportConfig, now: Instant, st: PassState, s: Strip)
    requires DistinctCallsigns(strips) && Pass(strips, cfg, now) == Ends(st)
    requires s in strips && !ShouldSkip(s) && Frozen(s)
    ensures s.callsign !in st.writes
    ensures s.data.ttot != Absent ==>
              var own := Held(SlotEntry(ProfileOf(s), s.data.ttot), Preserved);
              own in st.held && forall g :: g in st.held && g.how == Placed ==> !Conflicts(g.slot, own.slot, cfg)
  {
    CandidateOfStarted(strips, cfg, now, s);
    var c := MakeCandidate(s, cfg, now);
    FrozenThroughPass(strips, cfg, now, st, c);
    SlotListIsTheTimetable(strips, cfg, now, st);
    if s.data.ttot != Absent {
      SeedsAreRespected(st.held, PreservedEntry(c), cfg);
    }
  }

  lemma CallsignsDiffer(flights: seq<Candidate>, c: Candidate)
    requires DistinctNames(flights) && c in flights
    ensures forall d :: d in flights && d.strip.callsign == c.strip.callsign ==> d == c
  {
    forall d | d in flights && d.strip.callsign == c.strip.callsign
      ensures d == c
    {
      var i :| 0 <= i < |flights| && flights[i] == c;
      var j :| 0 <= j < |flights| && flights[j] == d;
      assert !(i < j) && !(j < i);
    }
  }

  lemma SeedsAreRespected(held: seq<Held>, own: Held, cfg: AirportConfig)
    requires Clear(held, cfg) && own in held && IsSeed(own)
    ensures forall g :: g in held && g.how == Placed ==> !Conflicts(g.slot, own.slot, cfg)
  {
    var i :| 0 <= i < |held| && held[i] == own;
    forall g | g in held && g.how == Placed
      ensures !Conflicts(g.slot, own.slot, cfg)
    {
      var j :| 0 <= j < |held| && held[j] == g;
      if j < i {
        ClearEntries(held, j, i, cfg);
      } else {
        ClearEntries(held, i, j, cfg);
      }
    }
  }
}
