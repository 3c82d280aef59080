/** Where a pass puts its flights: what it leaves in place, what it moves, and that it moves nothing further than
    needed. */
module PassPlaces {
  import opened Text
  import opened Clock
  import opened Config
  import opened Separation
  import opened Search
  import opened Departure
  import opened Strips
  import opened Sorting
  import opened Ordering
  import opened Sequence
  import opened Timetable
  import opened Guarantees
  import opened Turns
  import opened PassImprove
  import opened PassTheorems
  import opened PassRecords

  // ---- Late improvers -----------------------------------------------------------------

  lemma LateIsUnlisted(c: Candidate, held: seq<Held>, now: Instant)
    requires Waiting(c, held, now) && TsatExpired(c.strip, now)
    ensures !HasSlotFor(held, NameOf(c))
  {
  }

  lemma LateIsDue(c: Candidate, cfg: AirportConfig, now: Instant)
    requires WellMade(c, cfg, now) && LateImprover(c.strip, now)
    ensures IsRecalculated(c, now)
  {
  }

  /** In any pass a late improver has a turn in which it is put back on its old time unless it may move, and ends in the
      final list where that turn put it. */
  lemma LateImproverInPass(strips: seq<Strip>, cfg: AirportConfig, now: Instant, end: PassState, c: Candidate)
    returns (t: Turn, r: CalcResult)
    requires DistinctCallsigns(strips) && Pass(strips, cfg, now) == Ends(end)
    requires c in Candidates(strips, cfg, now) && LateImprover(c.strip, now)
    ensures IsTurnOfPass(c, t, strips, cfg, now, end) && Calculate(c.input, Slots(t.before.held), cfg, now) == Ends(r)
    ensures WellMade(c, cfg, now)
    ensures var all, slots := Candidates(strips, cfg, now), Slots(t.before.held);
            var own := if MayMove(c, r, slots, all, cfg, now) then Held(SlotEntry(ProfileOf(c.strip), r.ttot), Placed)
                       else Held(c.slot.value, Kept);
            t.outcome.held == t.before.held + [own] && own in end.held
  {
    var all := Candidates(strips, cfg, now);
    CandidatesOf(strips, cfg, now);
    LateIsDue(c, cfg, now);
    DueIsQueued(all, cfg, now, c);
    t := TurnOfPass(strips, cfg, now, end, c);
    LateIsUnlisted(c, t.before.held, now);
    r := SearchEnds(c, t.before.held, all, t.outcome, cfg, now);
    LateImproverTurn(c, t.before.held, all, t.outcome, r, cfg, now);
    LastIsOwn(t.before.held, t.outcome.held, c, end);
  }

  lemma SearchEnds(c: Candidate, held: seq<Held>, all: seq<Candidate>, o: Outcome, cfg: AirportConfig, now: Instant)
    returns (r: CalcResult)
    requires WellMade(c, cfg, now) && LateImprover(c.strip, now) && Settle(c, held, all, cfg, now) == Ends(o)
    ensures Calculate(c.input, Slots(held), cfg, now) == Ends(r)
  {
    r := Calculate(c.input, Slots(held), cfg, now).value;
  }

  lemma LastIsOwn(before: seq<Held>, after: seq<Held>, c: Candidate, end: PassState)
    requires |after| == |before| + 1 && Name(after[|before|]) == NameOf(c)
    requires forall h :: Name(h) == NameOf(c) ==> (h in after <==> h in end.held)
    ensures after[|before|] in end.held
  {
  }

  // ---- What stays in place keeps its old time ----------------------------------------------

  lemma PublishAddsNoSeed(c: Candidate, base: seq<Held>, d: CdmData, how: How)
    requires how == Placed || how == Kept
    ensures forall h :: h in Publish(c, base, d, how).held && IsSeed(h) ==> h in base
  {
  }

  lemma ReassignAddsNoSeed(c: Candidate, held: seq<Held>, all: seq<Candidate>, o: Outcome, cfg: AirportConfig,
                           now: Instant)
    requires Reassign(c, held, all, cfg, now) == Ends(o)
    ensures forall h :: h in o.held && IsSeed(h) ==> h in held
  {
    var s := c.strip;
    var result := Calculate(c.input, Slots(held), cfg, now).value;
    PublishAddsNoSeed(c, held, s.data.ClearPending(), Kept);
    var base := if c.improvement then RemoveSlotFor(held, NameOf(c)) else held;
    assert forall h :: h in base ==> h in held;
    if !(c.improvement && o == Publish(c, held, s.data.ClearPending(), Kept)) {
      PublishAddsNoSeed(c, base, Assigned(s, result, Calculate(ProposalInput(s, c.input), Slots(base), cfg, now).value),
                        Placed);
    }
  }

  lemma SettleAddsNoSeed(c: Candidate, held: seq<Held>, all: seq<Candidate>, o: Outcome, cfg: AirportConfig,
                         now: Instant)
    requires WellMade(c, cfg, now) && (c.started ==> IsRecalculated(c, now))
             && Settle(c, held, all, cfg, now) == Ends(o)
    ensures forall h :: h in o.held && IsSeed(h) ==> h in held
  {
    if Reassign(c, held, all, cfg, now) == Ends(o) {
      ReassignAddsNoSeed(c, held, all, o, cfg, now);
    }
    assert forall h :: h in RemoveSlotFor(held, NameOf(c)) ==> h in held;
  }

  lemma {:induction false} DrainAddsNoSeed(queue: seq<Candidate>, done: seq<Candidate>, st: PassState,
                                           all: seq<Candidate>, cfg: AirportConfig, now: Instant, end: PassState)
    requires Inv(queue, done, st, cfg, now) && Drain(queue, st, all, cfg, now) == Ends(end)
    ensures forall h :: h in end.held && IsSeed(h) ==> h in st.held
  {
    if queue != [] {
      var t := GoodStep(queue, done, st, all, cfg, now, end);
      SettleAddsNoSeed(queue[0], st.held, all, t.outcome, cfg, now);
      DrainAddsNoSeed(queue[1..], done + [queue[0]], After(queue[0], t), all, cfg, now, end);
    }
  }

  lemma SeedsAreFromTheStart(strips: seq<Strip>, cfg: AirportConfig, now: Instant, st: PassState)
    requires DistinctCallsigns(strips) && Pass(strips, cfg, now) == Ends(st)
    ensures forall h :: h in st.held && IsSeed(h) ==> h in Prepare(Candidates(strips, cfg, now), cfg, now).value.0
  {
    var all := Candidates(strips, cfg, now);
    CandidatesOf(strips, cfg, now);
    CandidatesAreDistinct(strips, cfg, now);
    var kept := StartIsOrderly(all, cfg, now);
    var (held, queue) := Prepare(all, cfg, now).value;
    DrainAddsNoSeed(queue, kept, PassState(held, map[]), all, cfg, now, st);
  }

  /** A slot with which some flight came into the pass. */
  ghost predicate IsOld(h: Held, all: seq<Candidate>) {
    IsSeed(h) && exists c :: c in all && c.slot == Some(h.slot)
  }

  lemma {:induction false} PreserveListsOldSlots(todo: seq<Candidate>, held: seq<Held>, recalc: seq<Candidate>,
                                                 all: seq<Candidate>, cfg: AirportConfig, now: Instant)
    requires (forall c :: c in todo ==> c.slot.Some? && c in all) && (forall c :: c in recalc ==> c in all)
    requires (forall h :: h in held ==> IsOld(h, all)) && Preserve(todo, held, recalc, cfg, now).Ends?
    ensures forall h :: h in Preserve(todo, held, recalc, cfg, now).value.0 ==> IsOld(h, all)
    ensures forall c :: c in Preserve(todo, held, recalc, cfg, now).value.1 ==> c in all
  {
    if todo != [] {
      var c := todo[0];
      assert c in todo && forall d :: d in todo[1..] ==> d in todo;
      assert IsOld(Held(c.slot.value, Preserved), all);
      if Demoted(c, c.slot.value, held, recalc, cfg, now).value {
        PreserveListsOldSlots(todo[1..], held, recalc + [c], all, cfg, now);
      } else {
        PreserveListsOldSlots(todo[1..], held + [Held(c.slot.value, Preserved)], recalc, all, cfg, now);
      }
    }
  }

  lemma {:induction false} ReserveListsOldSlots(todo: seq<Candidate>, held: seq<Held>, all: seq<Candidate>,
                                                now: Instant)
    requires (forall c :: c in todo ==> c in all) && (forall h :: h in held ==> IsOld(h, all))
    ensures forall h :: h in Reserve(todo, held, now) ==> IsOld(h, all)
    ensures forall h :: h in Reserve(todo, held, now) && h.how == Preserved ==> h in held
  {
    if todo != [] {
      var c := todo[0];
      assert c in todo && forall d :: d in todo[1..] ==> d in todo;
      var more := ReservedWith(c, held, now);
      assert c.slot.Some? ==> IsOld(Held(c.slot.value, Reserved), all);
      ReserveListsOldSlots(todo[1..], more, all, now);
    }
  }

  lemma PreparedSlotsAreOld(all: seq<Candidate>, cfg: AirportConfig, now: Instant)
    requires Prepare(all, cfg, now).Ends?
    ensures forall h :: h in Prepare(all, cfg, now).value.0 ==> IsOld(h, all)
  {
    SelectMembers(all, false, now);
    SelectMembers(all, true, now);
    var todo, recalc := SortCandidates(PreservedOrder, Select(all, false, now), now), Select(all, true, now);
    PreserveListsOldSlots(todo, [], recalc, all, cfg, now);
    var (held, pending) := Preserve(todo, [], recalc, cfg, now).value;
    ReserveListsOldSlots(pending, held, all, now);
  }

  /** Some flight came into the pass with this time. */
  ghost predicate CameWith(slot: SlotEntry, all: seq<Candidate>) {
    exists c :: c in all && c.slot == Some(slot)
  }

  lemma SeedsCameWithIt(strips: seq<Strip>, cfg: AirportConfig, now: Instant, st: PassState, h: Held)
    requires DistinctCallsigns(strips) && Pass(strips, cfg, now) == Ends(st) && h in st.held && IsSeed(h)
    ensures CameWith(h.slot, Candidates(strips, cfg, now))
  {
    SeedsAreFromTheStart(strips, cfg, now, st);
    PreparedSlotsAreOld(Candidates(strips, cfg, now), cfg, now);
    assert IsOld(h, Candidates(strips, cfg, now));
  }

  /** Unless a late improver takes part: if one of two flights of an origin and runway ends on a time that nobody came
      with, the later listed one keeps its distance to the other, and where its minima cover the other's, both do. */
  lemma NewTimesKeepDistance(strips: seq<Strip>, cfg: AirportConfig, now: Instant, st: PassState, i: nat, j: nat)
    requires DistinctCallsigns(strips) && Pass(strips, cfg, now) == Ends(st) && NoLateImprover(strips, now)
    requires i < j < |st.held| && SameStrip(st.held[i].slot, st.held[j].slot)
    requires st.held[i].slot.ttot.At? && st.held[j].slot.ttot.At?
    requires var all := Candidates(strips, cfg, now);
             !CameWith(st.held[i].slot, all) || !CameWith(st.held[j].slot, all)
    ensures var earlier, later := st.held[i].slot, st.held[j].slot;
            && Spaced(later, earlier, cfg)
            && (KeepsBoth(cfg, later.who, earlier.who) ==> Spaced(earlier, later, cfg))
  {
    PassSeparates(strips, cfg, now, st, i, j);
    if IsSeed(st.held[i]) && IsSeed(st.held[j]) {
      SeedsCameWithIt(strips, cfg, now, st, st.held[i]);
      SeedsCameWithIt(strips, cfg, now, st, st.held[j]);
    }
  }

  /** So it leaves two flights short of the later one's minima exactly when it was given both at these times and they
      fell short there already: it repairs no pair of which it moves neither, and makes no new one. */
  lemma ShortExactlyWhenNeitherMoved(strips: seq<Strip>, cfg: AirportConfig, now: Instant, st: PassState, i: nat,
                                     j: nat)
    requires DistinctCallsigns(strips) && Pass(strips, cfg, now) == Ends(st) && NoLateImprover(strips, now)
    requires i < j < |st.held| && SameStrip(st.held[i].slot, st.held[j].slot)
    requires st.held[i].slot.ttot.At? && st.held[j].slot.ttot.At?
    ensures !Spaced(st.held[j].slot, st.held[i].slot, cfg) <==>
            exists c, d ::
              && c in Candidates(strips, cfg, now) && d in Candidates(strips, cfg, now)
              && c.slot == Some(st.held[i].slot) && d.slot == Some(st.held[j].slot)
              && !Spaced(d.slot.value, c.slot.value, cfg)
  {
    if !Spaced(st.held[j].slot, st.held[i].slot, cfg) {
      PassSeparates(strips, cfg, now, st, i, j);
      SeedsCameWithIt(strips, cfg, now, st, st.held[i]);
      SeedsCameWithIt(strips, cfg, now, st, st.held[j]);
    }
  }

  /** And it always leaves a preserved slot where it is. */
  lemma PreservedStays(strips: seq<Strip>, cfg: AirportConfig, now: Instant, st: PassState, h: Held)
    requires DistinctCallsigns(strips) && Pass(strips, cfg, now) == Ends(st) && h.how == Preserved
    ensures h in st.held <==> h in Prepare(Candidates(strips, cfg, now), cfg, now).value.0
  {
    SeedsAreFromTheStart(strips, cfg, now, st);
    if h in Prepare(Candidates(strips, cfg, now), cfg, now).value.0 {
      PreservedIsUntouched(strips, cfg, now, st, h);
    }
  }

  lemma PreservedIsUntouched(strips: seq<Strip>, cfg: AirportConfig, now: Instant, st: PassState, h: Held)
    requires DistinctCallsigns(strips) && Pass(strips, cfg, now) == Ends(st) && h.how == Preserved
    requires h in Prepare(Candidates(strips, cfg, now), cfg, now).value.0
    ensures h in st.held
  {
    var all := Candidates(strips, cfg, now);
    CandidatesOf(strips, cfg, now);
    CandidatesAreDistinct(strips, cfg, now);
    var kept := StartIsOrderly(all, cfg, now);
    var (held, queue) := Prepare(all, cfg, now).value;
    DrainLeavesOthers(queue, kept, PassState(held, map[]), all, cfg, now, st);
  }

  // ---- Preserved slots do not clash ----------------------------------------------------------

  lemma ClashesAreMutual(a: SlotEntry, b: SlotEntry, cfg: AirportConfig)
    ensures Clashes(a, b, cfg) <==> Clashes(b, a, cfg)
  {
    BetweenRange(a.ttot, b.ttot);
    BetweenRange(b.ttot, a.ttot);
  }

  /** Started flights come first. */
  ghost predicate StartedLead(s: seq<Candidate>) {
    forall i, j :: 0 <= i < j < |s| && s[j].started ==> s[i].started
  }

  lemma StartedGoBefore(l: Candidate, r: Candidate, now: Instant)
    ensures l.started && !r.started ==> Before(PreservedOrder, l, r, now) && !Before(PreservedOrder, r, l, now)
  {
  }

  lemma InsertKeepsLead(x: Candidate, s: seq<Candidate>, now: Instant)
    requires StartedLead(s)
    ensures StartedLead(Insert(By(PreservedOrder, now), x, s))
  {
    var k := InsertShape(By(PreservedOrder, now), x, s);
    forall i | 0 <= i < |s|
      ensures i < k && x.started ==> s[i].started
      ensures i >= k && !x.started ==> !s[i].started
    {
      StartedGoBefore(x, s[i], now);
      StartedGoBefore(s[i], x, now);
      if k > 0 {
        StartedGoBefore(x, s[k - 1], now);
        assert !By(PreservedOrder, now)(x, s[k - 1]);
      }
      assert i >= k ==> By(PreservedOrder, now)(x, s[i]);
    }
    var out := s[..k] + [x] + s[k..];
    assert forall i :: 0 <= i < |out| ==> out[i] == if i < k then s[i] else if i == k then x else s[i - 1];
  }

  lemma {:induction false} SortPutsStartedFirst(s: seq<Candidate>, now: Instant)
    ensures StartedLead(StableSort(By(PreservedOrder, now), s))
  {
    if s != [] {
      SortPutsStartedFirst(s[..|s| - 1], now);
      InsertKeepsLead(s[|s| - 1], StableSort(By(PreservedOrder, now), s[..|s| - 1]), now);
    }
  }

  /** Of two flights in `kept`, a later one that has not started does not clash with the earlier one. */
  ghost predicate NoClash(kept: seq<Candidate>, cfg: AirportConfig) {
    forall i, j :: 0 <= i < j < |kept| && !kept[j].started && kept[i].slot.Some? && kept[j].slot.Some? ==>
      !Clashes(kept[j].slot.value, kept[i].slot.value, cfg)
  }

  lemma OneMoreNoClash(kept: seq<Candidate>, held: seq<Held>, c: Candidate, cfg: AirportConfig)
    requires Mirrors(kept, held) && NoClash(kept, cfg) && c.slot.Some?
    requires c.started || !HasPreservedSlotConflict(c.slot.value, Slots(held), cfg)
    ensures Mirrors(kept + [c], held + [Held(c.slot.value, Preserved)]) && NoClash(kept + [c], cfg)
  {
    forall i | 0 <= i < |kept|
      ensures kept[i].slot.value in Slots(held)
    {
      SlotsOf(held, kept[i].slot.value);
      assert held[i] in held;
    }
  }

  lemma {:induction false} PreserveKeepsApart(todo: seq<Candidate>, held: seq<Held>, recalc: seq<Candidate>,
                                              done: seq<Candidate>, cfg: AirportConfig, now: Instant)
    returns (kept: seq<Candidate>)
    requires (forall c :: c in todo ==> c.slot.Some?) && Preserve(todo, held, recalc, cfg, now).Ends?
    requires Mirrors(done, held) && NoClash(done, cfg) && StartedLead(done + todo)
    ensures Mirrors(kept, Preserve(todo, held, recalc, cfg, now).value.0) && NoClash(kept, cfg) && StartedLead(kept)
    ensures forall c :: c in kept ==> c in done || c in todo
  {
    if todo == [] {
      kept := done;
      assert done + todo == done;
    } else {
      var c, rest := todo[0], todo[1..];
      assert todo == [c] + rest && c in todo;
      if Demoted(c, c.slot.value, held, recalc, cfg, now).value {
        LeadWithout(done, c, rest);
        kept := PreserveKeepsApart(rest, held, recalc + [c], done, cfg, now);
      } else {
        OneMoreNoClash(done, held, c, cfg);
        assert done + todo == (done + [c]) + rest;
        kept := PreserveKeepsApart(rest, held + [Held(c.slot.value, Preserved)], recalc, done + [c], cfg, now);
      }
    }
  }

  lemma LeadWithout(done: seq<Candidate>, c: Candidate, rest: seq<Candidate>)
    requires StartedLead(done + ([c] + rest))
    ensures StartedLead(done + rest)
  {
    var all, out := done + ([c] + rest), done + rest;
    forall i, j | 0 <= i < j < |out| && out[j].started
      ensures out[i].started
    {
      assert out[i] == all[if i < |done| then i else i + 1];
      assert out[j] == all[if j < |done| then j else j + 1];
    }
  }

  lemma PreservedAtStart(all: seq<Candidate>, cfg: AirportConfig, now: Instant)
    returns (kept: seq<Candidate>, held: seq<Held>)
    requires Prepare(all, cfg, now).Ends?
    ensures Mirrors(kept, held) && NoClash(kept, cfg) && StartedLead(kept) && forall c :: c in kept ==> c in all
    ensures forall h :: h in Prepare(all, cfg, now).value.0 && h.how == Preserved ==> h in held
  {
    SelectMembers(all, false, now);
    SelectMembers(all, true, now);
    var todo, recalc := SortCandidates(PreservedOrder, Select(all, false, now), now), Select(all, true, now);
    SortPutsStartedFirst(Select(all, false, now), now);
    assert [] + todo == todo;
    kept := PreserveKeepsApart(todo, [], recalc, [], cfg, now);
    PreserveListsOldSlots(todo, [], recalc, all, cfg, now);
    held := Preserve(todo, [], recalc, cfg, now).value.0;
    ReserveListsOldSlots(Preserve(todo, [], recalc, cfg, now).value.1, held, all, now);
  }

  /** Two slots that a pass preserves, not both of started flights, neither share a time on one or dependent runways nor
      fall short of same-destination spacing. A reserved slot, by contrast, is checked against nothing. */
  lemma PreservedDoNotClash(strips: seq<Strip>, cfg: AirportConfig, now: Instant, st: PassState, g: Held, h: Held)
    returns (c: Candidate, d: Candidate)
    requires DistinctCallsigns(strips) && Pass(strips, cfg, now) == Ends(st)
    requires g in st.held && h in st.held && g != h && g.how == Preserved && h.how == Preserved
    ensures c in Candidates(strips, cfg, now) && d in Candidates(strips, cfg, now)
    ensures c.slot == Some(g.slot) && d.slot == Some(h.slot)
    ensures !(c.started && d.started) ==> !Clashes(g.slot, h.slot, cfg) && !Clashes(h.slot, g.slot, cfg)
  {
    var all := Candidates(strips, cfg, now);
    SeedsAreFromTheStart(strips, cfg, now, st);
    var kept, held := PreservedAtStart(all, cfg, now);
    var i :| 0 <= i < |held| && held[i] == g;
    var j :| 0 <= j < |held| && held[j] == h;
    c, d := kept[i], kept[j];
    assert c in kept && d in kept;
    ClashesAreMutual(g.slot, h.slot, cfg);
  }

  // ---- Every flight gets the first time that is free -----------------------------------------

  lemma PlainTurnAppends(c: Candidate, held: seq<Held>, all: seq<Candidate>, o: Outcome, h: Held, cfg: AirportConfig,
                         now: Instant)
    requires WellMade(c, cfg, now) && !c.improvement && Waiting(c, held, now)
             && Settle(c, held, all, cfg, now) == Ends(o)
    requires h in o.held && Name(h) == NameOf(c) && h.how == Placed
    ensures o.held == held + [h] && h.slot.who == ProfileOf(c.strip)
    ensures Calculate(c.input, Slots(held), cfg, now).Ends? && h.slot.ttot != Absent
    ensures Calculate(c.input, Slots(held), cfg, now).value.ttot == h.slot.ttot
  {
    assert !HasSlotFor(held, NameOf(c));
    assert h !in held;
  }

  /** The first half-minute, from the flight's natural time, that is free against a slot list. */
  ghost predicate IsFirstFree(c: Candidate, ttot: Clock, slots: seq<SlotEntry>, k: nat, cfg: AirportConfig) {
    && c.natural.At? && k < GRID && ttot == At(Point(c.natural.sec, k))
    && !Blocked(Point(c.natural.sec, k), c.input.who, slots, cfg)
    && forall j: nat :: j < k ==> Blocked(Point(c.natural.sec, j), c.input.who, slots, cfg)
  }

  lemma CalculatedIsFirst(c: Candidate, slots: seq<SlotEntry>, cfg: AirportConfig, now: Instant) returns (k: nat)
    requires WellMade(c, cfg, now) && Calculate(c.input, slots, cfg, now).Ends?
    requires Calculate(c.input, slots, cfg, now).value.ttot != Absent
    ensures IsFirstFree(c, Calculate(c.input, slots, cfg, now).value.ttot, slots, k, cfg)
  {
    AssignmentShape(c.input, slots, cfg, now);
    RestsOnTheFirstFreePoint(c.natural.sec, c.input.who, slots, cfg);
    k := Bumps(c.natural.sec, c.input.who, slots, cfg).value;
  }

  lemma QueueIsOfAll(all: seq<Candidate>, cfg: AirportConfig, now: Instant)
    requires Prepare(all, cfg, now).Ends?
    ensures forall d :: d in Prepare(all, cfg, now).value.1 ==> d in all
  {
    SelectMembers(all, false, now);
    SelectMembers(all, true, now);
    PreserveListsOldSlots(SortCandidates(PreservedOrder, Select(all, false, now), now), [], Select(all, true, now), all,
                          cfg, now);
  }

  lemma NamesDiffer(all: seq<Candidate>, c: Candidate, d: Candidate)
    requires DistinctNames(all) && c in all && d in all && c != d
    ensures NameOf(c) != NameOf(d)
  {
    var i :| 0 <= i < |all| && all[i] == c;
    var j :| 0 <= j < |all| && all[j] == d;
    assert i < j || j < i;
  }

  lemma UnqueuedHasNoNamesake(all: seq<Candidate>, cfg: AirportConfig, now: Instant, c: Candidate)
    requires DistinctNames(all) && Prepare(all, cfg, now).Ends? && c in all && c !in Prepare(all, cfg, now).value.1
    ensures forall d :: d in Prepare(all, cfg, now).value.1 ==> NameOf(d) != NameOf(c)
  {
    QueueIsOfAll(all, cfg, now);
    forall d | d in Prepare(all, cfg, now).value.1
      ensures NameOf(d) != NameOf(c)
    {
      NamesDiffer(all, c, d);
    }
  }

  lemma UnqueuedKeepsItsEntry(strips: seq<Strip>, cfg: AirportConfig, now: Instant, st: PassState, h: Held,
                              c: Candidate)
    requires DistinctCallsigns(strips) && Pass(strips, cfg, now) == Ends(st) && h in st.held
    requires c in Candidates(strips, cfg, now) && NameOf(c) == Name(h)
    requires c !in Prepare(Candidates(strips, cfg, now), cfg, now).value.1
    ensures h in Prepare(Candidates(strips, cfg, now), cfg, now).value.0
  {
    var all := Candidates(strips, cfg, now);
    CandidatesOf(strips, cfg, now);
    CandidatesAreDistinct(strips, cfg, now);
    UnqueuedHasNoNamesake(all, cfg, now, c);
    var kept := StartIsOrderly(all, cfg, now);
    var (held, queue) := Prepare(all, cfg, now).value;
    DrainLeavesName(queue, kept, PassState(held, map[]), all, cfg, now, st, Name(h));
  }

  lemma PlacedIsQueued(strips: seq<Strip>, cfg: AirportConfig, now: Instant, st: PassState, h: Held, c: Candidate)
    requires DistinctCallsigns(strips) && Pass(strips, cfg, now) == Ends(st) && h in st.held && h.how == Placed
    requires c in Candidates(strips, cfg, now) && NameOf(c) == Name(h)
    ensures c in Prepare(Candidates(strips, cfg, now), cfg, now).value.1
  {
    PreparedSlotsAreOld(Candidates(strips, cfg, now), cfg, now);
    assert !IsOld(h, Candidates(strips, cfg, now));
    if c !in Prepare(Candidates(strips, cfg, now), cfg, now).value.1 {
      UnqueuedKeepsItsEntry(strips, cfg, now, st, h, c);
    }
  }

  lemma PlainSettleExtends(c: Candidate, held: seq<Held>, all: seq<Candidate>, o: Outcome, cfg: AirportConfig,
                           now: Instant)
    requires !c.improvement && Settle(c, held, all, cfg, now) == Ends(o)
    ensures held <= o.held
  {
  }

  lemma {:induction false} PlainDrainExtends(queue: seq<Candidate>, st: PassState, all: seq<Candidate>,
                                             cfg: AirportConfig, now: Instant, end: PassState)
    requires PlainQueue(queue) && Drain(queue, st, all, cfg, now) == Ends(end)
    ensures st.held <= end.held
  {
    if queue != [] {
      assert queue[0] in queue && forall c :: c in queue[1..] ==> c in queue;
      var o := NextStep(queue, st, all, cfg, now);
      PlainSettleExtends(queue[0], st.held, all, o, cfg, now);
      PlainDrainExtends(queue[1..], PassState(o.held, Record(st.writes, queue[0], o.write)), all, cfg, now, end);
    }
  }

  /** A flight that is not improve-only and is placed by the pass has the first half-minute, from its natural time, that
      is free against the entries listed when its turn comes; and it is listed right after them. */
  lemma PlacedIsEarliest(strips: seq<Strip>, cfg: AirportConfig, now: Instant, st: PassState, h: Held)
    returns (c: Candidate, t: Turn, k: nat)
    requires DistinctCallsigns(strips) && Pass(strips, cfg, now) == Ends(st) && h in st.held && h.how == Placed
    requires forall d :: d in Candidates(strips, cfg, now) && NameOf(d) == Name(h) ==> !d.improvement
    ensures c in Candidates(strips, cfg, now) && NameOf(c) == Name(h) && IsTurnOfPass(c, t, strips, cfg, now, st)
    ensures t.outcome.held == t.before.held + [h] && IsFirstFree(c, h.slot.ttot, Slots(t.before.held), k, cfg)
  {
    SlotListIsTheTimetable(strips, cfg, now, st);
    CandidatesOf(strips, cfg, now);
    c :| c in Candidates(strips, cfg, now) && NameOf(c) == Name(h);
    PlacedIsQueued(strips, cfg, now, st, h, c);
    t := TurnOfPass(strips, cfg, now, st, c);
    PlainTurnAppends(c, t.before.held, Candidates(strips, cfg, now), t.outcome, h, cfg, now);
    k := CalculatedIsFirst(c, Slots(t.before.held), cfg, now);
  }

  /** With no improve-only flight about, nothing is ever taken off the list, so those entries are exactly the ones
      listed before it in the end. */
  lemma PlacedFollowsItsObstacles(strips: seq<Strip>, cfg: AirportConfig, now: Instant, st: PassState, h: Held)
    returns (c: Candidate, k: nat, i: nat)
    requires DistinctCallsigns(strips) && Pass(strips, cfg, now) == Ends(st) && h in st.held && h.how == Placed
    requires PlainQueue(Candidates(strips, cfg, now))
    ensures c in Candidates(strips, cfg, now) && NameOf(c) == Name(h)
    ensures i < |st.held| && st.held[i] == h && IsFirstFree(c, h.slot.ttot, Slots(st.held[..i]), k, cfg)
  {
    var t;
    c, t, k := PlacedIsEarliest(strips, cfg, now, st, h);
    RestIsPlain(strips, cfg, now, st, c, t);
    PlainDrainExtends(t.rest, After(c, t), Candidates(strips, cfg, now), cfg, now, st);
    i := |t.before.held|;
    PrefixEntry(t.before.held, h, st.held);
  }

  lemma PrefixEntry(before: seq<Held>, h: Held, all: seq<Held>)
    requires before + [h] <= all
    ensures |before| < |all| && all[|before|] == h && all[..|before|] == before
  {
    assert (before + [h])[|before|] == h;
  }

  lemma RestIsPlain(strips: seq<Strip>, cfg: AirportConfig, now: Instant, st: PassState, c: Candidate, t: Turn)
    requires PlainQueue(Candidates(strips, cfg, now)) && IsTurnOfPass(c, t, strips, cfg, now, st)
    ensures PlainQueue(t.rest)
  {
    QueueIsOfAll(Candidates(strips, cfg, now), cfg, now);
    InTheRest(t.prefix, c, t.rest);
  }

  lemma InTheRest(prefix: seq<Candidate>, c: Candidate, rest: seq<Candidate>)
    ensures forall d :: d in rest ==> d in prefix + [c] + rest
  {
  }
}
