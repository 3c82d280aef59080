/** When a pass comes to rest: what a second pass over the published records, at the same time, still changes. */
module PassRest {
  import opened Text
  import opened Clock
  import opened Config
  import opened Separation
  import opened Search
  import opened Departure
  import opened Strips
  import opened Sorting
  import opened Ordering
  import opened Sequence
  import opened Timetable
  import opened Guarantees
  import opened Turns
  import opened PassOrder
  import opened PassImprove
  import opened PassTheorems
  import opened PassRecords
  import opened PassPlaces

  // ---- What a turn publishes -------------------------------------------------------------

  predicate SameBase(a: CdmData, b: CdmData) {
    && a.tobt == b.tobt && a.eobt == b.eobt && a.ctot == b.ctot && a.manualSource == b.manualSource
    && a.aobt == b.aobt && a.asat == b.asat && a.confirmed == b.confirmed
  }

  /** A record that a turn wrote: nothing pending, and no times at all or a TSAT that the flight can still meet. */
  predicate IsRewritten(c: Candidate, d: CdmData, now: Instant) {
    && SameBase(c.strip.data, d) && d.mode == NotPending && Trim(d.taxiRunway) == Trim(c.strip.runway)
    && (|| (d.tsat == Absent && d.ttot == Absent)
        || (d.tsat.At? && d.ttot.At? && (!c.started ==> !IsMoreThanPast(d.tsat, At(ClockOf(now)), FIVE_MINUTES))))
  }

  /** A record that a pass may leave as it is. */
  predicate IsLeft(c: Candidate, now: Instant) {
    ShouldRecalculate(c.strip, now) ==>
      && !c.strip.data.IsPending() && !c.started && c.strip.data.tsat == Absent && c.strip.data.ttot == Absent
      && Trim(c.strip.data.taxiRunway) == Trim(c.strip.runway)
  }

  predicate IsPublished(c: Candidate, d: CdmData, now: Instant) {
    IsRewritten(c, d, now) || (d == c.strip.data && IsLeft(c, now))
  }

  lemma CalculatedCanBeMet(input: CalcInput, slots: seq<SlotEntry>, cfg: AirportConfig, now: Instant)
    requires Calculate(input, slots, cfg, now).Ends?
    ensures var r := Calculate(input, slots, cfg, now).value;
            r == NO_RESULT ||
            (r.tsat.At? && r.ttot.At?
             && (!HasStarted(input) ==> !IsMoreThanPast(r.tsat, At(ClockOf(now)), FIVE_MINUTES)))
  {
    if Calculate(input, slots, cfg, now).value != NO_RESULT {
      AssignmentShape(input, slots, cfg, now);
    }
  }

  lemma AssignedIsRewritten(c: Candidate, r: CalcResult, proposal: CalcResult, now: Instant)
    requires r == NO_RESULT || (r.tsat.At? && r.ttot.At?
               && (!c.started ==> !IsMoreThanPast(r.tsat, At(ClockOf(now)), FIVE_MINUTES)))
    ensures IsRewritten(c, Assigned(c.strip, r, proposal), now)
  {
  }

  /** A turn that changes nothing found the times that the record has, and these can still be met. */
  lemma SameIsLeft(c: Candidate, r: CalcResult, proposal: CalcResult, cfg: AirportConfig, now: Instant)
    requires WellMade(c, cfg, now) && !Differs(c.strip, c.input, Assigned(c.strip, r, proposal))
    requires r == NO_RESULT || (r.tsat.At? && r.ttot.At?)
    requires TsatExpired(c.strip, now) ==> AllowsStartedRecalculation(c.strip)
    ensures IsLeft(c, now)
  {
  }

  lemma ReassignPublishes(c: Candidate, held: seq<Held>, all: seq<Candidate>, o: Outcome, cfg: AirportConfig,
                          now: Instant)
    requires WellMade(c, cfg, now) && !c.improvement && Reassign(c, held, all, cfg, now) == Ends(o)
    requires TsatExpired(c.strip, now) ==> AllowsStartedRecalculation(c.strip)
    ensures IsPublished(c, DataAfter(c, o.write), now)
  {
    CalculatedCanBeMet(c.input, Slots(held), cfg, now);
    var r := Calculate(c.input, Slots(held), cfg, now).value;
    var proposal := Calculate(ProposalInput(c.strip, c.input), Slots(held), cfg, now).value;
    assert o == Publish(c, held, Assigned(c.strip, r, proposal), Placed);
    if o.write.Some? {
      AssignedIsRewritten(c, r, proposal, now);
    } else {
      SameIsLeft(c, r, proposal, cfg, now);
    }
  }

  lemma SettlePublishes(c: Candidate, held: seq<Held>, all: seq<Candidate>, o: Outcome, cfg: AirportConfig,
                        now: Instant)
    requires WellMade(c, cfg, now) && !c.improvement && (c.started ==> IsRecalculated(c, now))
    requires Settle(c, held, all, cfg, now) == Ends(o)
    ensures IsPublished(c, DataAfter(c, o.write), now)
  {
    if Reassign(c, held, all, cfg, now) == Ends(o)
       && (TsatExpired(c.strip, now) ==> AllowsStartedRecalculation(c.strip)) {
      ReassignPublishes(c, held, all, o, cfg, now);
    }
  }

  lemma PassPublishes(strips: seq<Strip>, cfg: AirportConfig, now: Instant, st: PassState, c: Candidate)
    requires DistinctCallsigns(strips) && Pass(strips, cfg, now) == Ends(st) && c in Candidates(strips, cfg, now)
    requires !c.improvement
    ensures IsPublished(c, Published(c, st.writes), now)
  {
    var all := Candidates(strips, cfg, now);
    CandidatesOf(strips, cfg, now);
    if c in Prepare(all, cfg, now).value.1 {
      var t := TurnOfPass(strips, cfg, now, st, c);
      SettlePublishes(c, t.before.held, all, t.outcome, cfg, now);
    } else {
      UnqueuedIsUnwritten(strips, cfg, now, st, c);
      if IsRecalculated(c, now) {
        DueIsQueued(all, cfg, now, c);
      }
    }
  }

  // ---- The flights of the next pass --------------------------------------------------------

  /** A strip with the record that a pass leaves in the store. */
  function Stored(s: Strip, writes: map<string, CdmData>): Strip {
    if s.callsign in writes then s.(data := writes[s.callsign]) else s
  }

  function AllStored(strips: seq<Strip>, writes: map<string, CdmData>): seq<Strip> {
    if strips == [] then []
    else AllStored(strips[..|strips| - 1], writes) + [Stored(strips[|strips| - 1], writes)]
  }

  lemma {:induction false} StoredOneByOne(strips: seq<Strip>, writes: map<string, CdmData>)
    ensures |AllStored(strips, writes)| == |strips|
    ensures forall i :: 0 <= i < |strips| ==> AllStored(strips, writes)[i] == Stored(strips[i], writes)
  {
    if strips != [] {
      StoredOneByOne(strips[..|strips| - 1], writes);
    }
  }

  lemma StoredAreDistinct(strips: seq<Strip>, writes: map<string, CdmData>)
    requires DistinctCallsigns(strips)
    ensures DistinctCallsigns(AllStored(strips, writes))
  {
    StoredOneByOne(strips, writes);
  }

  lemma RecoveredIsPending(s: Strip, now: Instant)
    ensures var r := RecoverExpiredTsat(s, now);
            && r == s.(data := r.data) && RecoverExpiredTsat(r, now) == r
            && (r != s ==> r.data.IsPending() && !StripHasStarted(r))
  {
  }

  lemma StoredIsPublished(strips: seq<Strip>, cfg: AirportConfig, now: Instant, st: PassState, s: Strip, c: Candidate)
    requires DistinctCallsigns(strips) && Pass(strips, cfg, now) == Ends(st)
    requires s in strips && !ShouldSkip(s) && c == MakeCandidate(RecoverExpiredTsat(s, now), cfg, now)
    ensures Stored(s, st.writes) == s.(data := Published(c, st.writes))
  {
    CandidatesOf(strips, cfg, now);
    PassSettlesPending(strips, cfg, now, st, c);
    RecoveredIsPending(s, now);
  }

  /** What the next pass starts from: a flight is recalculated only if it has no time, and then nothing else of its
      record would change, unless its TSAT is recovered. */
  predicate IsSecond(c: Candidate, now: Instant) {
    && !c.improvement && (c.started || c.slot.Some? ==> !ShouldRecalculate(c.strip, now))
    && (ShouldRecalculate(c.strip, now) && !c.strip.data.IsPending() ==>
          c.strip.data.tsat == Absent && Trim(c.strip.data.taxiRunway) == Trim(c.strip.runway))
  }

  lemma LeftIsTheSame(s: Strip, c: Candidate, cfg: AirportConfig, now: Instant)
    requires c == MakeCandidate(RecoverExpiredTsat(s, now), cfg, now) && IsLeft(c, now) && !c.improvement
    ensures MakeCandidate(RecoverExpiredTsat(s.(data := c.strip.data), now), cfg, now) == c && IsSecond(c, now)
  {
    RecoveredIsPending(s, now);
  }

  lemma RewrittenIsSecond(s: Strip, c: Candidate, d: CdmData, cfg: AirportConfig, now: Instant)
    requires c == MakeCandidate(RecoverExpiredTsat(s, now), cfg, now) && IsRewritten(c, d, now)
    ensures var again := MakeCandidate(RecoverExpiredTsat(s.(data := d), now), cfg, now);
            && IsSecond(again, now) && again.started == c.started && ProfileOf(again.strip) == ProfileOf(c.strip)
            && again.slot == (if d.ttot == Absent then None else Some(SlotEntry(ProfileOf(c.strip), d.ttot)))
  {
    RecoveredIsPending(s, now);
  }

  /** A flight of a pass as the next one meets it. */
  function Again(c: Candidate, s: Strip, writes: map<string, CdmData>, cfg: AirportConfig, now: Instant): Candidate {
    MakeCandidate(RecoverExpiredTsat(Stored(s, writes), now), cfg, now)
  }

  lemma AgainIsSecond(strips: seq<Strip>, cfg: AirportConfig, now: Instant, st: PassState, s: Strip, c: Candidate)
    requires DistinctCallsigns(strips) && Pass(strips, cfg, now) == Ends(st)
    requires s in strips && !ShouldSkip(s) && c == MakeCandidate(RecoverExpiredTsat(s, now), cfg, now) && !c.improvement
    ensures var again, ttot := Again(c, s, st.writes, cfg, now), Published(c, st.writes).ttot;
            && IsSecond(again, now) && again.started == c.started && ProfileOf(again.strip) == ProfileOf(c.strip)
            && again.slot == (if ttot == Absent then None else Some(SlotEntry(ProfileOf(c.strip), ttot)))
    ensures ShouldSkip(Stored(s, st.writes)) ==> Published(c, st.writes).ttot == Absent
  {
    CandidatesOf(strips, cfg, now);
    StoredIsPublished(strips, cfg, now, st, s, c);
    PassPublishes(strips, cfg, now, st, c);
    var d := Published(c, st.writes);
    if IsRewritten(c, d, now) {
      RewrittenIsSecond(s, c, d, cfg, now);
    } else {
      LeftIsTheSame(s, c, cfg, now);
    }
  }

  lemma WritesAreOfFlights(strips: seq<Strip>, cfg: AirportConfig, now: Instant, st: PassState, k: string)
    returns (c: Candidate)
    requires DistinctCallsigns(strips) && Pass(strips, cfg, now) == Ends(st) && k in st.writes
    ensures c in Candidates(strips, cfg, now) && c.strip.callsign == k
  {
    var all := Candidates(strips, cfg, now);
    CandidatesOf(strips, cfg, now);
    CandidatesAreDistinct(strips, cfg, now);
    var kept := StartIsOrderly(all, cfg, now);
    var (held, queue) := Prepare(all, cfg, now).value;
    SameElements(kept + queue, all);
    DrainLeavesOthers(queue, kept, PassState(held, map[]), all, cfg, now, st);
    c :| c in queue && c.strip.callsign == k;
    assert c in kept + queue;
  }

  lemma StripBehind(strips: seq<Strip>, cfg: AirportConfig, now: Instant, c: Candidate) returns (s: Strip)
    requires c in Candidates(strips, cfg, now)
    ensures s in strips && !ShouldSkip(s) && c == MakeCandidate(RecoverExpiredTsat(s, now), cfg, now)
  {
    CandidatesOf(strips, cfg, now);
    s :| s in strips && !ShouldSkip(s) && c == MakeCandidate(RecoverExpiredTsat(s, now), cfg, now);
  }

  lemma SameCallsign(strips: seq<Strip>, r: Strip, s: Strip)
    requires DistinctCallsigns(strips) && r in strips && s in strips && r.callsign == s.callsign
    ensures r == s
  {
    var i :| 0 <= i < |strips| && strips[i] == r;
    var j :| 0 <= j < |strips| && strips[j] == s;
    assert !(i < j) && !(j < i);
  }

  lemma SkippedIsUnwritten(strips: seq<Strip>, cfg: AirportConfig, now: Instant, st: PassState, s: Strip)
    requires DistinctCallsigns(strips) && Pass(strips, cfg, now) == Ends(st) && s in strips && ShouldSkip(s)
    ensures Stored(s, st.writes) == s
  {
    if s.callsign in st.writes {
      var c := WritesAreOfFlights(strips, cfg, now, st, s.callsign);
      var r := StripBehind(strips, cfg, now, c);
      RecoveredIsPending(r, now);
      SameCallsign(strips, r, s);
    }
  }

  lemma StoredFrom(strips: seq<Strip>, writes: map<string, CdmData>, r: Strip) returns (s: Strip)
    requires r in AllStored(strips, writes)
    ensures s in strips && r == Stored(s, writes)
  {
    StoredOneByOne(strips, writes);
    var i :| 0 <= i < |AllStored(strips, writes)| && AllStored(strips, writes)[i] == r;
    s := strips[i];
  }

  lemma FirstOf(strips: seq<Strip>, cfg: AirportConfig, now: Instant, st: PassState, again: Candidate)
    returns (s: Strip, c: Candidate)
    requires DistinctCallsigns(strips) && NoImproveOnly(strips) && Pass(strips, cfg, now) == Ends(st)
    requires again in Candidates(AllStored(strips, st.writes), cfg, now)
    ensures s in strips && !ShouldSkip(s) && c == MakeCandidate(RecoverExpiredTsat(s, now), cfg, now) && !c.improvement
    ensures c in Candidates(strips, cfg, now) && again == Again(c, s, st.writes, cfg, now)
  {
    var r := StripBehind(AllStored(strips, st.writes), cfg, now, again);
    s := StoredFrom(strips, st.writes, r);
    if ShouldSkip(s) {
      SkippedIsUnwritten(strips, cfg, now, st, s);
    }
    c := MakeCandidate(RecoverExpiredTsat(s, now), cfg, now);
    CandidatesOf(strips, cfg, now);
  }

  // ---- The listed slots do not clash -------------------------------------------------------

  lemma PlainlyPrepared(all: seq<Candidate>, cfg: AirportConfig, now: Instant)
    requires Prepare(all, cfg, now).Ends? && PlainQueue(all)
    ensures forall h :: h in Prepare(all, cfg, now).value.0 ==> h.how == Preserved
  {
    SelectMembers(all, false, now);
    SelectMembers(all, true, now);
    var todo, recalc := SortCandidates(PreservedOrder, Select(all, false, now), now), Select(all, true, now);
    var kept := PreserveSplits(todo, [], recalc, [], cfg, now);
    PreserveListsOldSlots(todo, [], recalc, all, cfg, now);
    var (held, pending) := Preserve(todo, [], recalc, cfg, now).value;
    NothingToReserve(pending, held, now);
  }

  lemma PlainCandidates(strips: seq<Strip>, cfg: AirportConfig, now: Instant)
    requires NoImproveOnly(strips)
    ensures PlainQueue(Candidates(strips, cfg, now)) && NoLateImprover(strips, now)
  {
    CandidatesOf(strips, cfg, now);
  }

  lemma PlainlyListed(strips: seq<Strip>, cfg: AirportConfig, now: Instant, st: PassState)
    requires DistinctCallsigns(strips) && NoImproveOnly(strips) && Pass(strips, cfg, now) == Ends(st)
    ensures forall h :: h in st.held ==> h.how == Preserved || h.how == Placed
  {
    PlainCandidates(strips, cfg, now);
    NothingIsKept(strips, cfg, now, st);
    SeedsAreFromTheStart(strips, cfg, now, st);
    PlainlyPrepared(Candidates(strips, cfg, now), cfg, now);
  }

  lemma FreeIsNoClash(e: SlotEntry, slot: SlotEntry, cfg: AirportConfig)
    requires e.ttot.At? && !Conflicts(e, slot, cfg) && Token(e.who.callsign) != Token(slot.who.callsign)
    ensures !Clashes(e, slot, cfg) && !Clashes(slot, e, cfg)
  {
    ClashesAreMutual(e, slot, cfg);
  }

  lemma OneOfAName(all: seq<Candidate>, c: Candidate, d: Candidate)
    requires DistinctNames(all) && c in all && d in all && NameOf(c) == NameOf(d)
    ensures c == d
  {
    var i :| 0 <= i < |all| && all[i] == c;
    var j :| 0 <= j < |all| && all[j] == d;
    assert !(i < j) && !(j < i);
  }

  lemma PreservedPair(strips: seq<Strip>, cfg: AirportConfig, now: Instant, st: PassState, g: Held, h: Held,
                      c: Candidate, d: Candidate)
    requires DistinctCallsigns(strips) && Pass(strips, cfg, now) == Ends(st)
    requires g in st.held && h in st.held && c in Candidates(strips, cfg, now) && d in Candidates(strips, cfg, now)
    requires Name(g) == NameOf(c) && Name(h) == NameOf(d) && NameOf(c) != NameOf(d) && !(c.started && d.started)
    requires g.how == Preserved && h.how == Preserved
    ensures !Clashes(g.slot, h.slot, cfg)
  {
    CandidatesAreDistinct(strips, cfg, now);
    CandidatesOf(strips, cfg, now);
    var x, y := PreservedDoNotClash(strips, cfg, now, st, g, h);
    OneOfAName(Candidates(strips, cfg, now), c, x);
    OneOfAName(Candidates(strips, cfg, now), d, y);
  }

  lemma ListIsClear(strips: seq<Strip>, cfg: AirportConfig, now: Instant, st: PassState)
    requires DistinctCallsigns(strips) && Pass(strips, cfg, now) == Ends(st)
    ensures Clear(st.held, cfg)
  {
    SlotListIsTheTimetable(strips, cfg, now, st);
  }

  /** Of the entries that a pass without improve-only flights lists, only those of two started flights may clash. */
  lemma ListedDoNotClash(strips: seq<Strip>, cfg: AirportConfig, now: Instant, st: PassState, g: Held, h: Held,
                         c: Candidate, d: Candidate)
    requires DistinctCallsigns(strips) && NoImproveOnly(strips) && Pass(strips, cfg, now) == Ends(st)
    requires g in st.held && h in st.held && c in Candidates(strips, cfg, now) && d in Candidates(strips, cfg, now)
    requires Name(g) == NameOf(c) && Name(h) == NameOf(d) && NameOf(c) != NameOf(d) && !(c.started && d.started)
    ensures !Clashes(g.slot, h.slot, cfg)
  {
    PlainlyListed(strips, cfg, now, st);
    if g.how == Preserved && h.how == Preserved {
      PreservedPair(strips, cfg, now, st, g, h, c, d);
    } else {
      ListIsClear(strips, cfg, now, st);
      PlacedDoNotClash(st.held, g, h, cfg);
    }
  }

  lemma PlacedDoNotClash(held: seq<Held>, g: Held, h: Held, cfg: AirportConfig)
    requires Clear(held, cfg) && forall e :: e in held ==> e.how != Kept
    requires g in held && h in held && Name(g) != Name(h) && (g.how == Placed || h.how == Placed)
    ensures !Clashes(g.slot, h.slot, cfg)
  {
    var i :| 0 <= i < |held| && held[i] == g;
    var j :| 0 <= j < |held| && held[j] == h;
    if i < j {
      LaterIsFree(held, i, j, cfg);
    } else {
      LaterIsFree(held, j, i, cfg);
    }
  }

  lemma LaterIsFree(held: seq<Held>, i: nat, j: nat, cfg: AirportConfig)
    requires Clear(held, cfg) && i < j < |held| && Name(held[i]) != Name(held[j])
    requires (held[i].how == Placed || held[j].how == Placed) && held[j].how != Kept
    ensures !Clashes(held[i].slot, held[j].slot, cfg) && !Clashes(held[j].slot, held[i].slot, cfg)
  {
    ClearEntries(held, i, j, cfg);
    PlacedHasATime(held, j, cfg);
    FreeIsNoClash(held[j].slot, held[i].slot, cfg);
  }

  lemma {:induction false} PlacedHasATime(held: seq<Held>, i: nat, cfg: AirportConfig)
    requires Clear(held, cfg) && i < |held|
    ensures held[i].how == Placed ==> held[i].slot.ttot.At?
  {
    if i < |held| - 1 {
      PlacedHasATime(held[..|held| - 1], i, cfg);
    }
  }
}
