/** Which flights take part in a pass, which are due, and which keep their slot, in the fields of their records. */
module Eligibility {
  import opened Text
  import opened Clock
  import opened Config
  import opened Separation
  import opened Search
  import opened Departure
  import opened Verdicts
  import opened Assignments
  import opened Strips
  import opened Sorting
  import opened Ordering
  import opened Sequence
  import opened Timetable
  import opened Guarantees
  import opened Turns
  import opened PassImprove
  import opened PassTheorems
  import opened PassPlaces
  import opened Precedence

  // ---- From records to candidates -------------------------------------------------------

  /** What a pass knows of a flight, in terms of its strip. */
  lemma CandidateOfStrip(s: Strip, cfg: AirportConfig, now: Instant)
    ensures var c := MakeCandidate(s, cfg, now);
            && c.strip == s && (c.hasCtot <==> s.data.ctot != Absent) && (c.improvement <==> s.data.mode == ImproveOnly)
            && c.input.tobtAuthoritative == s.data.confirmed
            && c.base == (if s.data.tobt != Absent then s.data.tobt else s.data.eobt)
            && (c.slot.None? <==> s.data.ttot == Absent) && c.input.who == ProfileOf(s)
            && (c.slot.Some? ==> c.slot.value.ttot == s.data.ttot && c.slot.value.who == ProfileOf(s))
            && (c.staleBase <==> s.data.asat == Absent && s.data.aobt == Absent
                                 && Between(s.data.tobt, At(ClockOf(now))) > 300)
  {
  }

  /** Who a flight is to the others: its names, and whether its CTOT was set by hand. */
  lemma ProfileOfStrip(s: Strip)
    ensures var p := ProfileOf(s);
            && p.callsign == s.callsign && p.origin == s.origin && p.destination == s.destination
            && p.depRwy == s.runway && p.sid == s.sid && p.wakeCat == s.wakeCat
            && (p.manualCtot <==> s.data.manualSource && s.data.ctot != Absent)
  {
  }

  /** A flight is ready once it has taxied and been de-iced after its TOBT or, without one, its EOBT. The later of that
      and its CTOT, and then the later of that and the end of a delay, is its natural time. */
  lemma NaturalInTurn(s: Strip, cfg: AirportConfig, now: Instant)
    requires s.data.tobt.At? || (s.data.tobt == Absent && s.data.eobt.At?)
    ensures var ready := Shift(if s.data.tobt != Absent then s.data.tobt else s.data.eobt,
                               60 * (s.taxiMin + s.deIceMin + s.deiceTaxiMin));
            var regulated := if Between(s.data.ctot, ready) < 0 then s.data.ctot else ready;
            var delay := DelayFloor(cfg, s.runway, now);
            MakeCandidate(s, cfg, now).natural == if Between(delay, regulated) < 0 then delay else regulated
  {
    var input := BuildCalcInput(s);
    var m := if input.who.manualCtot then input.manCtot else Absent;
    ReadyAfterTaxiing(input);
    FloorsInTurn(Earliest(input), m, s.data.ctot, DelayFloor(cfg, s.runway, now));
  }

  // ---- Taking part, started, due -------------------------------------------------------------

  lemma TakesPartWhen(s: Strip)
    ensures !ShouldSkip(s) <==>
            && s.seen && Upper(Trim(s.state)) !in {"ARR", "DEPA"}
            && (s.data.tobt != Absent || s.data.eobt != Absent || s.data.ttot != Absent)
  {
    TokenIsUpperTrim(s.state);
  }

  lemma StartedWhen(s: Strip)
    ensures StripHasStarted(s) <==>
            || s.data.asat != Absent || s.data.aobt != Absent
            || Upper(Trim(s.state)) in {"STUP", "ST-UP", "PUSH", "TAXI", "LINEUP", "DEPA"}
  {
    TokenIsUpperTrim(s.state);
  }

  /** A started flight is due only if a recalculation is pending for its CTOT, or for its pushback while it has no AOBT.
      Any other flight is due if one is pending at all; or, unless it was invalidated, if it lacks a time or its TSAT
      was more than five minutes ago. */
  lemma DueWhen(s: Strip, now: Instant)
    ensures ShouldRecalculate(s, now) <==>
            if StripHasStarted(s)
            then s.data.mode != NotPending
                 && (s.data.ctotRecalculate || (s.data.pushbackRecalculate && s.data.aobt == Absent))
            else || s.data.mode != NotPending
                 || (!s.data.invalidPhase && (s.data.tsat == Absent || s.data.ttot == Absent
                                              || Between(s.data.tsat, At(ClockOf(now))) > 300))
  {
  }

  /** An unstarted flight with nothing pending is recovered more than eight minutes after its TSAT, or after the one
      that expired if it has none for that reason. */
  lemma RecoveredWhen(s: Strip, now: Instant)
    ensures var tsat := if s.data.tsat == Absent && s.data.staleTsatReason then s.data.expiredTsat else s.data.tsat;
            RecoverExpiredTsat(s, now) != s <==>
            !StripHasStarted(s) && s.data.mode == NotPending && tsat.At? && Between(tsat, At(ClockOf(now))) > 480
  {
  }

  /** Recovery sets TOBT and EOBT to the minute that ten minutes from now lies in, unconfirmed, and drops the
      assignment. */
  lemma RecoveredRecord(s: Strip, now: Instant)
    requires RecoverExpiredTsat(s, now) != s
    ensures var r := RecoverExpiredTsat(s, now);
            && r.data.tobt == r.data.eobt && r.data.tobt.At? && r.data.tobt.sec % 60 == 0 && !r.data.confirmed
            && 0 <= Between(r.data.tobt, Shift(At(ClockOf(now)), 600)) < 60
            && r.data.tsat == Absent && r.data.ttot == Absent && r.data.expiredTsat == Absent && !r.data.invalidPhase
            && r.data.mode == Required
            && r == s.(data := s.data.(tobt := r.data.tobt, eobt := r.data.eobt, confirmed := false, tsat := Absent,
                                       ttot := Absent, expiredTsat := Absent, invalidPhase := false, mode := Required))
  {
  }

  // ---- Who keeps a slot --------------------------------------------------------------------------

  /** Two slots at one airport clash if they are on one time and share runway capacity, or less than three minutes apart
      on the way to one destination. */
  lemma ClashesWhen(e: SlotEntry, slot: SlotEntry, cfg: AirportConfig)
    requires e.ttot.At? && slot.ttot.At?
    ensures Clashes(e, slot, cfg) <==>
            && Upper(Trim(e.who.origin)) == Upper(Trim(slot.who.origin))
            && (|| (SamePlace(e.who.destination, slot.who.destination) && Abs(Between(e.ttot, slot.ttot)) < 180)
                || (SameOrDependentRunway(cfg, e.who.depRwy, slot.who.depRwy) && e.ttot == slot.ttot))
  {
    NamesInPlain(e.who, slot);
    TokenIsUpperTrim(e.who.origin);
    TokenIsUpperTrim(slot.who.origin);
    BetweenRange(e.ttot, slot.ttot);
    BetweenRange(slot.ttot, e.ttot);
  }

  /** A due flight pushes another off its slot if it is unstarted and not improve-only, has a natural time and either a
      CTOT or a confirmed TOBT, the other may not go before it, and that slot alone keeps it from its natural time. */
  lemma PushesWhen(p: Candidate, c: Candidate, slot: SlotEntry, cfg: AirportConfig, now: Instant)
    requires IsBlockedBy(p, c, slot, cfg, now).Ends?
    ensures IsBlockedBy(p, c, slot, cfg, now).value <==>
            && !p.improvement && !p.started && p.natural != Absent && (p.hasCtot || p.input.tobtAuthoritative)
            && !MayGoFirst(c, p, now)
            && Calculate(p.input, [slot], cfg, now) != Hangs
            && Calculate(p.input, [slot], cfg, now).value.ttot != p.natural
  {
    QueueCompares(c, p, now);
    CompareIsAntisymmetric(c, p, now, false);
  }

  lemma {:induction false} UnpushedIsKept(todo: seq<Candidate>, held: seq<Held>, recalc: seq<Candidate>,
                                          all: seq<Candidate>, cfg: AirportConfig, now: Instant, c: Candidate)
    requires (forall d :: d in todo ==> d.slot.Some? && d in all) && (forall d :: d in recalc ==> d in all)
    requires Preserve(todo, held, recalc, cfg, now).Ends? && c in todo && NoRepeats(todo)
    requires c.started || (forall s :: s in Slots(held) ==> !Clashes(c.slot.value, s, cfg))
    requires c.started || (forall d :: d in todo && d != c ==> !Clashes(c.slot.value, d.slot.value, cfg))
    requires c.started || (forall p :: p in all ==> IsBlockedBy(p, c, c.slot.value, cfg, now) == Ends(false))
    ensures Held(c.slot.value, Preserved) in Preserve(todo, held, recalc, cfg, now).value.0
  {
    var d, rest := todo[0], todo[1..];
    assert todo == [d] + rest && d in todo && forall e :: e in rest ==> e in todo;
    if c == d {
      NobodyPushes(c, recalc, cfg, now);
      EntriesStay(rest, held + [Held(c.slot.value, Preserved)], recalc, cfg, now, Held(c.slot.value, Preserved));
    } else if Demoted(d, d.slot.value, held, recalc, cfg, now).value {
      RestHasNoRepeats(d, rest);
      UnpushedIsKept(rest, held, recalc + [d], all, cfg, now, c);
    } else {
      RestHasNoRepeats(d, rest);
      var more := held + [Held(d.slot.value, Preserved)];
      assert more[..|held|] == held && Slots(more) == Slots(held) + [d.slot.value];
      UnpushedIsKept(rest, more, recalc, all, cfg, now, c);
    }
  }

  lemma RestHasNoRepeats(d: Candidate, rest: seq<Candidate>)
    requires NoRepeats([d] + rest)
    ensures NoRepeats(rest)
  {
    assert multiset([d] + rest) == multiset{d} + multiset(rest);
    forall x | x in rest
      ensures multiset(rest)[x] == 1
    {
      assert x in [d] + rest;
    }
  }

  lemma {:induction false} NobodyPushes(c: Candidate, recalc: seq<Candidate>, cfg: AirportConfig, now: Instant)
    requires c.slot.Some?
    requires c.started || (forall p :: p in recalc ==> IsBlockedBy(p, c, c.slot.value, cfg, now) == Ends(false))
    ensures c.started || BlocksHigherPriority(c, c.slot.value, recalc, cfg, now) == Ends(false)
  {
    if recalc != [] && !c.started {
      assert recalc[0] in recalc && forall p :: p in recalc[1..] ==> p in recalc;
      NobodyPushes(c, recalc[1..], cfg, now);
    }
  }

  lemma {:induction false} EntriesStay(todo: seq<Candidate>, held: seq<Held>, recalc: seq<Candidate>,
                                       cfg: AirportConfig, now: Instant, h: Held)
    requires (forall d :: d in todo ==> d.slot.Some?) && Preserve(todo, held, recalc, cfg, now).Ends? && h in held
    ensures h in Preserve(todo, held, recalc, cfg, now).value.0
  {
    if todo != [] {
      var d := todo[0];
      assert d in todo && forall e :: e in todo[1..] ==> e in todo;
      if Demoted(d, d.slot.value, held, recalc, cfg, now).value {
        EntriesStay(todo[1..], held, recalc + [d], cfg, now, h);
      } else {
        EntriesStay(todo[1..], held + [Held(d.slot.value, Preserved)], recalc, cfg, now, h);
      }
    }
  }

  lemma UndueIsPreserved(all: seq<Candidate>, cfg: AirportConfig, now: Instant, c: Candidate)
    requires DistinctNames(all) && Prepare(all, cfg, now).Ends? && c in all && c.slot.Some? && !IsRecalculated(c, now)
    requires c.started || forall d :: d in all && d != c && d.slot.Some? ==> !Clashes(c.slot.value, d.slot.value, cfg)
    requires c.started || forall p :: p in all ==> IsBlockedBy(p, c, c.slot.value, cfg, now) == Ends(false)
    ensures Held(c.slot.value, Preserved) in Prepare(all, cfg, now).value.0
  {
    var todo, recalc := SortCandidates(PreservedOrder, Select(all, false, now), now), Select(all, true, now);
    SelectMembers(all, false, now);
    SelectMembers(all, true, now);
    TodoHasNoRepeats(all, todo, now);
    UnpushedIsKept(todo, [], recalc, all, cfg, now, c);
    var (held, pending) := Preserve(todo, [], recalc, cfg, now).value;
    ReserveKeeps(pending, held, now, Held(c.slot.value, Preserved));
  }

  /** A flight that is not due keeps its slot through a pass unless another current slot clashes with it or a flight
      that is queued would be pushed aside by it; started flights keep theirs in any case. */
  lemma UndueKeepsItsSlot(strips: seq<Strip>, cfg: AirportConfig, now: Instant, st: PassState, c: Candidate)
    requires DistinctCallsigns(strips) && Pass(strips, cfg, now) == Ends(st) && c in Candidates(strips, cfg, now)
    requires c.slot.Some? && !IsRecalculated(c, now)
    requires c.started || forall d :: d in Candidates(strips, cfg, now) && d != c && d.slot.Some? ==>
                            !Clashes(c.slot.value, d.slot.value, cfg)
    requires c.started || forall p :: p in Candidates(strips, cfg, now) ==>
                            IsBlockedBy(p, c, c.slot.value, cfg, now) == Ends(false)
    ensures Held(c.slot.value, Preserved) in st.held
  {
    CandidatesAreDistinct(strips, cfg, now);
    UndueIsPreserved(Candidates(strips, cfg, now), cfg, now, c);
    PreservedStays(strips, cfg, now, st, Held(c.slot.value, Preserved));
  }

  lemma TodoHasNoRepeats(all: seq<Candidate>, todo: seq<Candidate>, now: Instant)
    requires DistinctNames(all) && multiset(todo) == multiset(Select(all, false, now))
    ensures NoRepeats(todo)
  {
    SplitIsWhole(all, now);
    SameElements(todo, Select(all, false, now));
    DistinctNamesReordered(all, Select(all, false, now) + Select(all, true, now));
    PartsAreDistinct(Select(all, false, now), Select(all, true, now));
    DistinctNamesCountOnce(Select(all, false, now));
  }

  lemma {:induction false} ReserveKeeps(todo: seq<Candidate>, held: seq<Held>, now: Instant, h: Held)
    requires h in held
    ensures h in Reserve(todo, held, now)
  {
    if todo != [] {
      ReserveKeeps(todo[1..], ReservedWith(todo[0], held, now), now, h);
    }
  }
}
