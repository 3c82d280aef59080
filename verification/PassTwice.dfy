/** A pass over what a pass left behind: exactly when it changes nothing. */
module PassTwice {
  import opened Text
  import opened Clock
  import opened Config
  import opened Separation
  import opened Search
  import opened Departure
  import opened Strips
  import opened Sorting
  import opened Ordering
  import opened Sequence
  import opened Timetable
  import opened Guarantees
  import opened Turns
  import opened PassOrder
  import opened PassTheorems
  import opened PassRecords
  import opened PassRest

  // ---- What the second pass starts from ----------------------------------------------------

  ghost predicate HasSlot(all: seq<Candidate>, e: SlotEntry) {
    exists c :: c in all && c.slot == Some(e)
  }

  /** Flights as a pass leaves them: their times are those of the list, and only those of started flights clash. */
  ghost predicate AreSecond(all: seq<Candidate>, slots: seq<SlotEntry>, cfg: AirportConfig, now: Instant) {
    && DistinctNames(all) && (forall c :: c in all ==> WellMade(c, cfg, now) && IsSecond(c, now))
    && (forall c, d :: c in all && d in all ==> ApartOrStarted(c, d, cfg))
    && (forall e :: e in slots <==> HasSlot(all, e))
  }

  predicate ApartOrStarted(c: Candidate, d: Candidate, cfg: AirportConfig) {
    NameOf(c) != NameOf(d) && c.slot.Some? && d.slot.Some? && !(c.started && d.started) ==>
      !Clashes(c.slot.value, d.slot.value, cfg)
  }

  lemma EntryOf(strips: seq<Strip>, cfg: AirportConfig, now: Instant, st: PassState, again: Candidate)
    returns (c: Candidate, h: Held)
    requires DistinctCallsigns(strips) && NoImproveOnly(strips) && Pass(strips, cfg, now) == Ends(st)
    requires again in Candidates(AllStored(strips, st.writes), cfg, now)
    ensures c in Candidates(strips, cfg, now) && NameOf(c) == NameOf(again) && c.started == again.started
    ensures IsSecond(again, now)
    ensures again.slot.Some? ==> h in st.held && h.slot == again.slot.value && Name(h) == NameOf(c)
  {
    var s;
    s, c := FirstOf(strips, cfg, now, st, again);
    AgainIsSecond(strips, cfg, now, st, s, c);
    SlotListIsTheTimetable(strips, cfg, now, st);
    if again.slot.Some? {
      h :| h in st.held && h.slot == again.slot.value;
    } else {
      h := Held(SlotEntry(again.input.who, Absent), Kept);
    }
  }

  lemma SecondAreApart(strips: seq<Strip>, cfg: AirportConfig, now: Instant, st: PassState, c: Candidate, d: Candidate)
    requires DistinctCallsigns(strips) && NoImproveOnly(strips) && Pass(strips, cfg, now) == Ends(st)
    requires c in Candidates(AllStored(strips, st.writes), cfg, now)
    requires d in Candidates(AllStored(strips, st.writes), cfg, now)
    ensures ApartOrStarted(c, d, cfg)
  {
    var a, g := EntryOf(strips, cfg, now, st, c);
    var b, h := EntryOf(strips, cfg, now, st, d);
    if NameOf(c) != NameOf(d) && c.slot.Some? && d.slot.Some? && !(c.started && d.started) {
      ListedDoNotClash(strips, cfg, now, st, g, h, a, b);
    }
  }

  lemma ListedIsSecond(strips: seq<Strip>, cfg: AirportConfig, now: Instant, st: PassState, h: Held)
    returns (again: Candidate)
    requires DistinctCallsigns(strips) && NoImproveOnly(strips) && Pass(strips, cfg, now) == Ends(st) && h in st.held
    ensures again in Candidates(AllStored(strips, st.writes), cfg, now) && again.slot == Some(h.slot)
  {
    SlotListIsTheTimetable(strips, cfg, now, st);
    PlainCandidates(strips, cfg, now);
    var c :| c in Candidates(strips, cfg, now) && NameOf(c) == Name(h);
    var s := StripBehind(strips, cfg, now, c);
    AgainIsSecond(strips, cfg, now, st, s, c);
    again := Again(c, s, st.writes, cfg, now);
    StoredOneByOne(strips, st.writes);
    var i :| 0 <= i < |strips| && strips[i] == s;
    assert AllStored(strips, st.writes)[i] == Stored(s, st.writes);
    CandidatesOf(AllStored(strips, st.writes), cfg, now);
  }

  lemma SameSlots(strips: seq<Strip>, cfg: AirportConfig, now: Instant, st: PassState, e: SlotEntry)
    requires DistinctCallsigns(strips) && NoImproveOnly(strips) && Pass(strips, cfg, now) == Ends(st)
    ensures e in Slots(st.held) <==> HasSlot(Candidates(AllStored(strips, st.writes), cfg, now), e)
  {
    SlotsOf(st.held, e);
    if e in Slots(st.held) {
      var h :| h in st.held && h.slot == e;
      var again := ListedIsSecond(strips, cfg, now, st, h);
    }
    if again :| again in Candidates(AllStored(strips, st.writes), cfg, now) && again.slot == Some(e) {
      var c, h := EntryOf(strips, cfg, now, st, again);
    }
  }

  lemma SecondPassStarts(strips: seq<Strip>, cfg: AirportConfig, now: Instant, st: PassState)
    requires DistinctCallsigns(strips) && NoImproveOnly(strips) && Pass(strips, cfg, now) == Ends(st)
    ensures AreSecond(Candidates(AllStored(strips, st.writes), cfg, now), Slots(st.held), cfg, now)
  {
    var all := Candidates(AllStored(strips, st.writes), cfg, now);
    StoredAreDistinct(strips, st.writes);
    CandidatesAreDistinct(AllStored(strips, st.writes), cfg, now);
    CandidatesOf(AllStored(strips, st.writes), cfg, now);
    forall c | c in all
      ensures IsSecond(c, now)
    {
      var a, h := EntryOf(strips, cfg, now, st, c);
    }
    forall c, d | c in all && d in all
      ensures ApartOrStarted(c, d, cfg)
    {
      SecondAreApart(strips, cfg, now, st, c, d);
    }
    forall e
      ensures e in Slots(st.held) <==> HasSlot(all, e)
    {
      SameSlots(strips, cfg, now, st, e);
    }
  }

  // ---- It preserves every slot -------------------------------------------------------------

  /** No flight without a time outranks one whose slot is in its way. */
  ghost predicate NobodyIsPushed(all: seq<Candidate>, cfg: AirportConfig, now: Instant) {
    forall p, c :: p in all && c in all && p.slot.None? && c.slot.Some? && !c.started ==>
      IsBlockedBy(p, c, c.slot.value, cfg, now) == Ends(false)
  }

  lemma {:induction false} NobodyBlocks(c: Candidate, slot: SlotEntry, pending: seq<Candidate>, cfg: AirportConfig,
                                        now: Instant)
    requires forall p :: p in pending ==> IsBlockedBy(p, c, slot, cfg, now) == Ends(false)
    ensures BlocksHigherPriority(c, slot, pending, cfg, now) == Ends(false)
  {
    if pending != [] {
      assert pending[0] in pending && forall p :: p in pending[1..] ==> p in pending;
      NobodyBlocks(c, slot, pending[1..], cfg, now);
    }
  }

  lemma {:induction false} AllArePreserved(todo: seq<Candidate>, held: seq<Held>, recalc: seq<Candidate>,
                                           cfg: AirportConfig, now: Instant)
    requires forall c :: c in todo ==> c.slot.Some?
    requires forall c, e :: c in todo && e in Slots(held) && !c.started ==> !Clashes(c.slot.value, e, cfg)
    requires forall i, j :: 0 <= i < j < |todo| && !todo[j].started ==>
               !Clashes(todo[j].slot.value, todo[i].slot.value, cfg)
    requires forall c :: c in todo && !c.started ==>
               BlocksHigherPriority(c, c.slot.value, recalc, cfg, now) == Ends(false)
    ensures Preserve(todo, held, recalc, cfg, now).Ends? && Preserve(todo, held, recalc, cfg, now).value.1 == recalc
    ensures forall e :: e in Slots(Preserve(todo, held, recalc, cfg, now).value.0) <==>
            e in Slots(held) || HasSlot(todo, e)
  {
    if todo != [] {
      var c, rest := todo[0], todo[1..];
      var more := held + [Held(c.slot.value, Preserved)];
      assert c in todo && forall d :: d in rest ==> d in todo;
      assert more[..|held|] == held && Slots(more) == Slots(held) + [c.slot.value];
      forall d, e | d in rest && e in Slots(more) && !d.started
        ensures !Clashes(d.slot.value, e, cfg)
      {
        var j :| 0 <= j < |rest| && rest[j] == d;
        assert todo[j + 1] == d && todo[0] == c;
        if e != c.slot.value {
          assert e in Slots(held) && d in todo;
        }
      }
      AllArePreserved(rest, more, recalc, cfg, now);
      assert forall e :: HasSlot(todo, e) <==> c.slot == Some(e) || HasSlot(rest, e);
    }
  }

  lemma ApartInOrder(todo: seq<Candidate>, all: seq<Candidate>, slots: seq<SlotEntry>, cfg: AirportConfig, now: Instant)
    requires AreSecond(all, slots, cfg, now) && DistinctNames(todo)
    requires forall c :: c in todo ==> c in all && c.slot.Some?
    ensures forall i, j :: 0 <= i < j < |todo| && !todo[j].started ==>
              !Clashes(todo[j].slot.value, todo[i].slot.value, cfg)
  {
    forall i, j | 0 <= i < j < |todo| && !todo[j].started
      ensures !Clashes(todo[j].slot.value, todo[i].slot.value, cfg)
    {
      assert todo[i] in all && todo[j] in all;
      assert ApartOrStarted(todo[j], todo[i], cfg);
    }
  }

  /** With nobody pushed aside, the second pass preserves every slot and queues the flights that have none. */
  lemma SecondIsPrepared(all: seq<Candidate>, slots: seq<SlotEntry>, cfg: AirportConfig, now: Instant)
    returns (held: seq<Held>, queue: seq<Candidate>)
    requires AreSecond(all, slots, cfg, now) && NobodyIsPushed(all, cfg, now)
    ensures Prepare(all, cfg, now) == Ends((held, queue))
    ensures forall e :: e in Slots(held) <==> e in slots
    ensures forall c :: c in queue <==> c in all && c.slot.None?
  {
    var todo, recalc := SortCandidates(PreservedOrder, Select(all, false, now), now), Select(all, true, now);
    SelectMembers(all, false, now);
    SelectMembers(all, true, now);
    SortedAreDistinct(all, todo, now);
    ApartInOrder(todo, all, slots, cfg, now);
    forall c | c in todo && !c.started
      ensures BlocksHigherPriority(c, c.slot.value, recalc, cfg, now) == Ends(false)
    {
      NobodyBlocks(c, c.slot.value, recalc, cfg, now);
    }
    AllArePreserved(todo, [], recalc, cfg, now);
    NothingToReserve(recalc, Preserve(todo, [], recalc, cfg, now).value.0, now);
    held := Preserve(todo, [], recalc, cfg, now).value.0;
    queue := SortCandidates(QueueOrder, recalc, now);
    forall e
      ensures HasSlot(todo, e) <==> HasSlot(all, e)
    {
    }
  }

  lemma SortedAreDistinct(all: seq<Candidate>, todo: seq<Candidate>, now: Instant)
    requires DistinctNames(all) && multiset(todo) == multiset(Select(all, false, now))
    ensures DistinctNames(todo)
  {
    SplitIsWhole(all, now);
    SameElements(todo, Select(all, false, now));
    DistinctNamesReordered(all, Select(all, false, now) + Select(all, true, now));
    PartsAreDistinct(Select(all, false, now), Select(all, true, now));
    DistinctNamesReordered(Select(all, false, now), todo);
  }

  // ---- It recalculates what has no time --------------------------------------------------

  /** Recalculating the flight against these slots would find it no time again and leave its record as it is: nothing is
      pending, its taxi time is still the stored one, and the proposal to the network comes out the same. */
  ghost predicate IsAtRest(c: Candidate, slots: seq<SlotEntry>, cfg: AirportConfig, now: Instant) {
    ShouldRecalculate(c.strip, now) ==>
      && !c.strip.data.IsPending() && c.strip.data.taxiMinutes == c.input.taxiMin
      && Calculate(c.input, slots, cfg, now) == Ends(NO_RESULT)
      && Calculate(ProposalInput(c.strip, c.input), slots, cfg, now)
         == Ends(CalcResult(c.strip.data.proposalTsat, c.strip.data.proposalTtot))
  }

  lemma TurnAtRest(c: Candidate, held: seq<Held>, all: seq<Candidate>, cfg: AirportConfig, now: Instant)
    requires WellMade(c, cfg, now) && IsSecond(c, now) && c.slot.None?
    ensures IsAtRest(c, Slots(held), cfg, now) <==> Settle(c, held, all, cfg, now) == Ends(Outcome(held, None))
    ensures var r := Settle(c, held, all, cfg, now);
            r.Ends? && r.value.write.None? ==> r.value.held == held
  {
  }

  lemma AtRestIgnoresListing(c: Candidate, a: seq<SlotEntry>, b: seq<SlotEntry>, cfg: AirportConfig, now: Instant)
    requires forall e :: e in a <==> e in b
    ensures IsAtRest(c, a, cfg, now) <==> IsAtRest(c, b, cfg, now)
  {
    CalculateIgnoresListing(c.input, a, b, cfg, now);
    CalculateIgnoresListing(ProposalInput(c.strip, c.input), a, b, cfg, now);
  }

  lemma {:induction false} WritesGrow(queue: seq<Candidate>, st: PassState, all: seq<Candidate>, cfg: AirportConfig,
                                      now: Instant, end: PassState, k: string)
    requires Drain(queue, st, all, cfg, now) == Ends(end) && k in st.writes
    ensures k in end.writes
  {
    if queue != [] {
      var o := Settle(queue[0], st.held, all, cfg, now).value;
      WritesGrow(queue[1..], PassState(o.held, Record(st.writes, queue[0], o.write)), all, cfg, now, end, k);
    }
  }

  /** The queue leaves everything as it is exactly when each of its flights is at rest. */
  lemma {:induction false} QueueAtRest(queue: seq<Candidate>, held: seq<Held>, all: seq<Candidate>, cfg: AirportConfig,
                                       now: Instant)
    requires forall c :: c in queue ==> WellMade(c, cfg, now) && IsSecond(c, now) && c.slot.None?
    ensures var r := Drain(queue, PassState(held, map[]), all, cfg, now);
            && ((forall c :: c in queue ==> IsAtRest(c, Slots(held), cfg, now)) ==> r == Ends(PassState(held, map[])))
            && (r.Ends? && r.value.writes == map[] ==> forall c :: c in queue ==> IsAtRest(c, Slots(held), cfg, now))
  {
    if queue != [] {
      var c, rest := queue[0], queue[1..];
      assert queue == [c] + rest && c in queue && forall d :: d in rest ==> d in queue;
      TurnAtRest(c, held, all, cfg, now);
      QueueAtRest(rest, held, all, cfg, now);
      var r := Drain(queue, PassState(held, map[]), all, cfg, now);
      if r.Ends? && r.value.writes == map[] {
        var o := Settle(c, held, all, cfg, now).value;
        if o.write.Some? {
          WritesGrow(rest, PassState(o.held, Record(map[], c, o.write)), all, cfg, now, r.value, c.strip.callsign);
        }
      }
    }
  }

  // ---- The second pass -----------------------------------------------------------------------

  /** A pass that ends, writes nothing and lists these slots. */
  ghost predicate IsIdle(strips: seq<Strip>, slots: seq<SlotEntry>, cfg: AirportConfig, now: Instant) {
    var r := Pass(strips, cfg, now);
    r.Ends? && r.value.writes == map[] && forall e :: e in Slots(r.value.held) <==> e in slots
  }

  lemma IdleExactlyWhenAllRest(strips: seq<Strip>, slots: seq<SlotEntry>, cfg: AirportConfig, now: Instant)
    requires AreSecond(Candidates(strips, cfg, now), slots, cfg, now)
    requires NobodyIsPushed(Candidates(strips, cfg, now), cfg, now)
    ensures IsIdle(strips, slots, cfg, now) <==>
            forall c :: c in Candidates(strips, cfg, now) ==> IsAtRest(c, slots, cfg, now)
  {
    var all := Candidates(strips, cfg, now);
    var held, queue := SecondIsPrepared(all, slots, cfg, now);
    QueueAtRest(queue, held, all, cfg, now);
    forall c
      ensures IsAtRest(c, Slots(held), cfg, now) <==> IsAtRest(c, slots, cfg, now)
    {
      AtRestIgnoresListing(c, Slots(held), slots, cfg, now);
    }
    assert forall c :: c in all && c.slot.Some? ==> IsAtRest(c, slots, cfg, now);
  }

  /** With no improve-only flight about, and no flight without a time pushing others aside, a pass over what a pass left
      behind, at the same time, writes nothing and lists the same slots exactly when each flight is at rest. */
  lemma SecondPassIsIdleExactlyWhen(strips: seq<Strip>, cfg: AirportConfig, now: Instant, st: PassState)
    requires DistinctCallsigns(strips) && NoImproveOnly(strips) && Pass(strips, cfg, now) == Ends(st)
    requires NobodyIsPushed(Candidates(AllStored(strips, st.writes), cfg, now), cfg, now)
    ensures var stored := AllStored(strips, st.writes);
            IsIdle(stored, Slots(st.held), cfg, now) <==>
            forall c :: c in Candidates(stored, cfg, now) ==> IsAtRest(c, Slots(st.held), cfg, now)
  {
    SecondPassStarts(strips, cfg, now, st);
    IdleExactlyWhenAllRest(AllStored(strips, st.writes), Slots(st.held), cfg, now);
  }

  /** In particular a pass that leaves every unstarted flight with a time is repeated without effect. */
  lemma FullyAssignedPassIsIdle(strips: seq<Strip>, cfg: AirportConfig, now: Instant, st: PassState)
    requires DistinctCallsigns(strips) && NoImproveOnly(strips) && Pass(strips, cfg, now) == Ends(st)
    requires forall c :: c in Candidates(AllStored(strips, st.writes), cfg, now) ==> c.slot.Some? || c.started
    ensures IsIdle(AllStored(strips, st.writes), Slots(st.held), cfg, now)
  {
    SecondPassStarts(strips, cfg, now, st);
    SecondPassIsIdleExactlyWhen(strips, cfg, now, st);
  }

  // ---- A flight that keeps the next pass busy ----------------------------------------------

  /** An unstarted flight that asks for a recalculation more than eight minutes after its TSAT. */
  predicate AsksTooLate(s: Strip, now: Instant) {
    && !ShouldSkip(s) && (s.data.tobt != Absent || s.data.eobt != Absent)
    && s.data.mode == Required && !StripHasStarted(s) && !s.data.pushbackRecalculate
    && IsMoreThanPast(s.data.tsat, At(ClockOf(now)), EIGHT_MINUTES)
  }

  lemma TooLateExpires(s: Strip, held: seq<Held>, all: seq<Candidate>, cfg: AirportConfig, now: Instant)
    requires AsksTooLate(s, now)
    ensures RecoverExpiredTsat(s, now) == s && IsRecalculated(MakeCandidate(s, cfg, now), now)
    ensures var r := Settle(MakeCandidate(s, cfg, now), held, all, cfg, now);
            r.Ends? && r.value.write == Some(Invalidated(s))
    ensures var again := RecoverExpiredTsat(s.(data := Invalidated(s)), now);
            !ShouldSkip(s.(data := Invalidated(s))) && again.data.IsPending() && !StripHasStarted(again)
  {
  }

  lemma PendingKeepsBusy(strips: seq<Strip>, slots: seq<SlotEntry>, cfg: AirportConfig, now: Instant, c: Candidate)
    requires DistinctCallsigns(strips) && c in Candidates(strips, cfg, now)
    requires c.strip.data.IsPending() && !StripHasStarted(c.strip)
    ensures !IsIdle(strips, slots, cfg, now)
  {
    if IsIdle(strips, slots, cfg, now) {
      PassSettlesPending(strips, cfg, now, Pass(strips, cfg, now).value, c);
    }
  }

  lemma TooLateIsInvalidated(strips: seq<Strip>, cfg: AirportConfig, now: Instant, st: PassState, s: Strip)
    requires DistinctCallsigns(strips) && Pass(strips, cfg, now) == Ends(st) && s in strips && AsksTooLate(s, now)
    ensures Stored(s, st.writes) == s.(data := Invalidated(s))
  {
    var c := MakeCandidate(s, cfg, now);
    var all := Candidates(strips, cfg, now);
    CandidatesOf(strips, cfg, now);
    TooLateExpires(s, [], all, cfg, now);
    DueIsQueued(all, cfg, now, c);
    var t := TurnOfPass(strips, cfg, now, st, c);
    TooLateExpires(s, t.before.held, all, cfg, now);
    StoredIsPublished(strips, cfg, now, st, s, c);
  }

  /** Such a flight is invalidated by one pass and recovered by the next, so that one is never idle. */
  lemma TooLateKeepsBusy(strips: seq<Strip>, cfg: AirportConfig, now: Instant, st: PassState, s: Strip)
    requires DistinctCallsigns(strips) && Pass(strips, cfg, now) == Ends(st) && s in strips && AsksTooLate(s, now)
    ensures !IsIdle(AllStored(strips, st.writes), Slots(st.held), cfg, now)
  {
    var stored := AllStored(strips, st.writes);
    TooLateIsInvalidated(strips, cfg, now, st, s);
    TooLateExpires(s, [], [], cfg, now);
    StoredAreDistinct(strips, st.writes);
    StoredOneByOne(strips, st.writes);
    var i :| 0 <= i < |strips| && strips[i] == s;
    assert stored[i] == Stored(s, st.writes);
    CandidatesOf(stored, cfg, now);
    PendingKeepsBusy(stored, Slots(st.held), cfg, now, MakeCandidate(RecoverExpiredTsat(stored[i], now), cfg, now));
  }
}
