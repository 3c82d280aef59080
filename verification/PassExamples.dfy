/** Concrete flights for which the sequencing pass does less than one would expect. */
module PassExamples {
  import opened Text
  import opened Clock
  import opened Config
  import opened Separation
  import opened Search
  import opened Departure
  import opened Strips
  import opened Sorting
  import opened Ordering
  import opened Sequence
  import opened Timetable
  import opened Turns
  import opened PassImprove

  const PLAIN := AirportConfig("X", [], [], [], 20, 14, false, [], [])
  const NOON: Instant := 43200 * SECOND_NS
  const TEN_TO_NOON: Instant := 42600 * SECOND_NS

  const BLANK := CdmData(Absent, Absent, Absent, Absent, Absent, false, Absent, Absent, Absent, Absent, Absent,
                         false, NotPending, false, false, false, false, 10, "1")

  /** A flight from X on runway 1. */
  function Departing(callsign: string, destination: string, taxiMin: int, data: CdmData): Strip {
    Strip(callsign, "X", destination, "1", "", "M", "", true, taxiMin, 0, 0, data)
  }

  lemma ClocksOfExamples()
    ensures ClockOf(NOON) == 43200 && ClockOf(TEN_TO_NOON) == 42600
  {
  }

  lemma TokensOfExamples()
    ensures Token("A") == "A" && Token("B") == "B" && Token("X") == "X" && Token("Y") == "Y" && Token("Z") == "Z"
    ensures Token("1") == "1" && Token("M") == "M" && Token("") == ""
  {
  }

  lemma PlainRunwayOne()
    ensures RateForRunway(PLAIN, "1") == 20 && SameOrDependentRunway(PLAIN, "1", "1")
            && SidIntervalSeconds(PLAIN, "1", "", "") == 0.0
    ensures WakeMinutes("M", "M") == 1
  {
    TokensOfExamples();
  }

  lemma NoFloorOfDelay(cfg: AirportConfig, depRwy: string, now: Instant)
    requires cfg.delays == []
    ensures DelayFloor(cfg, depRwy, now) == Absent
  {
  }

  /** Without a delay, the natural time is the later of the ready time and the CTOT. */
  lemma NaturalOf(s: Strip, cfg: AirportConfig, now: Instant, ready: Clock, natural: Clock)
    requires cfg.delays == [] && !s.data.manualSource && SelectBase(BuildCalcInput(s)).At?
             && ready == Earliest(BuildCalcInput(s))
    requires natural == Later(ready, s.data.ctot)
    ensures Unconstrained(BuildCalcInput(s), cfg, now) == natural
  {
    NoFloorOfDelay(cfg, s.runway, now);
    var ctot := s.data.ctot;
    assert Floors(BuildCalcInput(s), cfg, now) == [Absent, ctot, Absent];
    assert [Absent, ctot, Absent][1..] == [ctot, Absent] && [ctot, Absent][1..] == [Absent] && [Absent][1..] == [];
    assert LaterOfAll(natural, [Absent]) == natural;
    assert LaterOfAll(ready, [ctot, Absent]) == natural;
  }

  lemma TwoCandidates(a: Strip, b: Strip, cfg: AirportConfig, now: Instant)
    requires !ShouldSkip(a) && !ShouldSkip(b) && RecoverExpiredTsat(a, now) == a && RecoverExpiredTsat(b, now) == b
    ensures Candidates([a, b], cfg, now) == [MakeCandidate(a, cfg, now), MakeCandidate(b, cfg, now)]
  {
    assert [a, b][..1] == [a] && [a][..0] == [];
    assert Candidates([a], cfg, now) == [MakeCandidate(a, cfg, now)];
  }

  // ---- A late improver that collides ----------------------------------------------------------

  /** Started up at 11:25, for 11:40 from its stand and 12:00 from the runway, with a CTOT of 12:00. Its pushback was
      prepared at 11:30, which asked for an improvement, but no pass has been made since. */
  const LATE := Departing("A", "Y", 20, BLANK.(tobt := At(41400), tsat := At(42000), ttot := At(43200),
                                               ctot := At(43200), asat := At(41100), confirmed := true,
                                               mode := ImproveOnly, pushbackRecalculate := true))

  /** Ready at 11:49, with a new CTOT of 11:59 and no times yet. */
  const PUNCTUAL := Departing("B", "Z", 10, BLANK.(tobt := At(42540), ctot := At(43140), confirmed := true,
                                                   mode := Required, ctotRecalculate := true))

  function Late(): Candidate {
    MakeCandidate(LATE, PLAIN, TEN_TO_NOON)
  }

  function Punctual(): Candidate {
    MakeCandidate(PUNCTUAL, PLAIN, TEN_TO_NOON)
  }

  const FIRST := Held(SlotEntry(ProfileOf(PUNCTUAL), At(43140)), Placed)
  const SECOND_ON_TOP := Held(SlotEntry(ProfileOf(LATE), At(43200)), Kept)

  lemma LateIsLate()
    ensures LateImprover(LATE, TEN_TO_NOON) && Late().natural == At(43200)
    ensures !StaleTobt(Late().input, TEN_TO_NOON) && Late().slot == Some(SlotEntry(ProfileOf(LATE), At(43200)))
  {
    ClocksOfExamples();
    NaturalOf(LATE, PLAIN, TEN_TO_NOON, At(42600), At(43200));
  }

  lemma PunctualIsPunctual()
    ensures Punctual().natural == At(43140) && !StaleTobt(Punctual().input, TEN_TO_NOON)
    ensures Assignment(Punctual().input, At(43140), TEN_TO_NOON) == CalcResult(At(42540), At(43140))
    ensures ShouldRecalculate(PUNCTUAL, TEN_TO_NOON) && !TsatExpired(PUNCTUAL, TEN_TO_NOON)
  {
    ClocksOfExamples();
    TokensOfExamples();
    NaturalOf(PUNCTUAL, PLAIN, TEN_TO_NOON, At(43140), At(43140));
  }

  lemma BlockedByFirst(t: Second)
    requires 43140 <= t < 43320
    ensures Blocked(t, Late().input.who, [FIRST.slot], PLAIN)
  {
    TokensOfExamples();
    PlainRunwayOne();
    BlockedBySome(t, Late().input.who, [FIRST.slot], PLAIN);
    assert Judge(t, Late().input.who, FIRST.slot, PLAIN).Bump?;
  }

  lemma FreeAfterFirst()
    ensures !Blocked(43320, Late().input.who, [FIRST.slot], PLAIN)
  {
    TokensOfExamples();
    PlainRunwayOne();
    BlockedBySome(43320, Late().input.who, [FIRST.slot], PLAIN);
    assert Judge(43320, Late().input.who, FIRST.slot, PLAIN).Free?;
  }

  /** Behind the other flight the search would postpone it to 12:02, with a TSAT of 11:42. */
  lemma LateIsPostponed()
    ensures Calculate(Late().input, [FIRST.slot], PLAIN, TEN_TO_NOON) == Ends(CalcResult(At(42120), At(43320)))
  {
    LateIsLate();
    ClocksOfExamples();
    var who := Late().input.who;
    var free := FreePoints(43200, who, [FIRST.slot], PLAIN);
    assert Point(43200, 0) == 43200 && Point(43200, 1) == 43230 && Point(43200, 2) == 43260 && Point(43200, 3) == 43290;
    assert Point(43200, 4) == 43320;
    BlockedByFirst(43200);
    BlockedByFirst(43230);
    BlockedByFirst(43260);
    BlockedByFirst(43290);
    FreeAfterFirst();
    assert free(4) && !free(0) && !free(1) && !free(2) && !free(3);
    FirstFreeIsLeast(free, 0);
    assert Bumps(43200, who, [FIRST.slot], PLAIN) == Some(4);
  }

  lemma PunctualTurn(all: seq<Candidate>)
    ensures Settle(Punctual(), [], all, PLAIN, TEN_TO_NOON).Ends?
    ensures Settle(Punctual(), [], all, PLAIN, TEN_TO_NOON).value.held == [FIRST]
  {
    var c := Punctual();
    PunctualIsPunctual();
    FreeAtOnce(c.input, [], At(43140), PLAIN, TEN_TO_NOON);
    var p := ProposalInput(PUNCTUAL, c.input);
    NoFloorOfDelay(PLAIN, "1", TEN_TO_NOON);
    assert Floors(p, PLAIN, TEN_TO_NOON) == [Absent, Absent, Absent];
    NoFloors(At(43140));
    assert Unconstrained(p, PLAIN, TEN_TO_NOON) == At(43140);
    FreeAtOnce(p, [], At(43140), PLAIN, TEN_TO_NOON);
    assert !HasSlotFor([], NameOf(c));
  }

  lemma NoFloors(c: Clock)
    requires c.At?
    ensures LaterOfAll(c, [Absent, Absent, Absent]) == c
  {
    assert [Absent, Absent, Absent][1..] == [Absent, Absent] && [Absent, Absent][1..] == [Absent]
           && [Absent][1..] == [];
    assert LaterOfAll(c, [Absent]) == c;
  }

  lemma LateTurn(all: seq<Candidate>)
    ensures Settle(Late(), [FIRST], all, PLAIN, TEN_TO_NOON).Ends?
    ensures Settle(Late(), [FIRST], all, PLAIN, TEN_TO_NOON).value.held == [FIRST, SECOND_ON_TOP]
  {
    var c := Late();
    LateIsLate();
    LateIsPostponed();
    TokensOfExamples();
    assert [FIRST][..0] == [];
    assert Slots([FIRST]) == [FIRST.slot];
    assert !HasSlotFor([FIRST], NameOf(c));
    assert Reassign(c, [FIRST], all, PLAIN, TEN_TO_NOON) == Ends(Publish(c, [FIRST], LATE.data.ClearPending(), Kept));
  }

  lemma BothAreDue()
    ensures Candidates([LATE, PUNCTUAL], PLAIN, TEN_TO_NOON) == [Late(), Punctual()]
    ensures IsRecalculated(Late(), TEN_TO_NOON) && IsRecalculated(Punctual(), TEN_TO_NOON)
  {
    TokensOfExamples();
    ClocksOfExamples();
    TwoCandidates(LATE, PUNCTUAL, PLAIN, TEN_TO_NOON);
    LateIsLate();
  }

  lemma PunctualGoesFirst()
    ensures SortCandidates(QueueOrder, [Late(), Punctual()], TEN_TO_NOON) == [Punctual(), Late()]
  {
    LateIsLate();
    PunctualIsPunctual();
    ClocksOfExamples();
    var lt := By(QueueOrder, TEN_TO_NOON);
    assert lt(Punctual(), Late());
    assert [Late(), Punctual()][..1] == [Late()] && [Late()][..0] == [];
    assert StableSort(lt, []) == [];
    assert Insert(lt, Late(), []) == [Late()];
    assert StableSort(lt, [Late()]) == [Late()];
    assert Insert(lt, Punctual(), [Late()]) == [Punctual(), Late()];
  }

  lemma NothingIsReserved()
    ensures Reserve([Late(), Punctual()], [], TEN_TO_NOON) == []
  {
    LateIsLate();
    assert [Late(), Punctual()][1..] == [Punctual()] && [Punctual()][1..] == [];
    assert Reserve([Punctual()], [], TEN_TO_NOON) == [];
  }

  lemma BothSelected(a: Candidate, b: Candidate, now: Instant)
    requires IsRecalculated(a, now) && IsRecalculated(b, now)
    ensures Select([a, b], true, now) == [a, b] && Select([a, b], false, now) == []
  {
    assert [a, b][..1] == [a] && [a][..0] == [];
    assert Select([a], true, now) == [a] && Select([a], false, now) == [];
  }

  lemma NonePreserved(all: seq<Candidate>, now: Instant)
    requires Select(all, false, now) == [] && Select(all, true, now) == all
    ensures Prepare(all, PLAIN, now) == Ends((Reserve(all, [], now), SortCandidates(QueueOrder, all, now)))
  {
    assert SortCandidates(PreservedOrder, [], now) == [];
  }

  lemma PreparedForLate()
    ensures Prepare([Late(), Punctual()], PLAIN, TEN_TO_NOON) == Ends(([], [Punctual(), Late()]))
  {
    BothAreDue();
    BothSelected(Late(), Punctual(), TEN_TO_NOON);
    NonePreserved([Late(), Punctual()], TEN_TO_NOON);
    NothingIsReserved();
    PunctualGoesFirst();
  }

  lemma TwoTurns(c: Candidate, d: Candidate, all: seq<Candidate>, now: Instant, st: PassState, o: Outcome, p: Outcome)
    requires Settle(c, st.held, all, PLAIN, now) == Ends(o) && Settle(d, o.held, all, PLAIN, now) == Ends(p)
    ensures Drain([c, d], st, all, PLAIN, now).Ends? && Drain([c, d], st, all, PLAIN, now).value.held == p.held
  {
    assert [c] + [d] == [c, d];
    DrainFrom(c, [d], st, all, PLAIN, now, o);
    OneTurn(d, all, PLAIN, now, PassState(o.held, Record(st.writes, c, o.write)), p);
  }

  lemma OneTurn(c: Candidate, all: seq<Candidate>, cfg: AirportConfig, now: Instant, st: PassState, o: Outcome)
    requires Settle(c, st.held, all, cfg, now) == Ends(o)
    ensures Drain([c], st, all, cfg, now).Ends? && Drain([c], st, all, cfg, now).value.held == o.held
  {
    assert [c] + [] == [c];
    DrainFrom(c, [], st, all, cfg, now, o);
  }

  lemma LateIsTooClose()
    ensures Conflicts(SECOND_ON_TOP.slot, FIRST.slot, PLAIN) && !Spaced(SECOND_ON_TOP.slot, FIRST.slot, PLAIN)
  {
    BlockedByFirst(43200);
    TokensOfExamples();
    PlainRunwayOne();
    FreeExactlyWhenSpaced(43200, Late().input.who, FIRST.slot, PLAIN);
    BlockedBySome(43200, Late().input.who, [FIRST.slot], PLAIN);
  }

  /** The pass gives the punctual flight 11:59 and puts the late improver back on 12:00, one minute behind it, where
      twenty departures an hour leave three. */
  lemma LateImproverCollides()
    ensures Pass([LATE, PUNCTUAL], PLAIN, TEN_TO_NOON).Ends?
    ensures Pass([LATE, PUNCTUAL], PLAIN, TEN_TO_NOON).value.held == [FIRST, SECOND_ON_TOP]
    ensures Conflicts(SECOND_ON_TOP.slot, FIRST.slot, PLAIN) && !Spaced(SECOND_ON_TOP.slot, FIRST.slot, PLAIN)
  {
    var all := [Late(), Punctual()];
    BothAreDue();
    PreparedForLate();
    PunctualTurn(all);
    LateTurn(all);
    TwoTurns(Punctual(), Late(), all, TEN_TO_NOON, PassState([], map[]),
             Settle(Punctual(), [], all, PLAIN, TEN_TO_NOON).value,
             Settle(Late(), [FIRST], all, PLAIN, TEN_TO_NOON).value);
    LateIsTooClose();
  }

  // ---- A follower that nobody stops -----------------------------------------------------------

  /** At noon: ready at 12:00, assigned 12:20. */
  const AHEAD := Departing("A", "Y", 10, BLANK.(tobt := At(43200), tsat := At(43800), ttot := At(44400)))

  /** At noon: ready at 12:20, assigned 12:40, and asking for something earlier. */
  const BEHIND := Departing("B", "Z", 10, BLANK.(tobt := At(44400), tsat := At(45000), ttot := At(45600),
                                                 mode := ImproveOnly))

  function Ahead(): Candidate {
    MakeCandidate(AHEAD, PLAIN, NOON)
  }

  function Behind(): Candidate {
    MakeCandidate(BEHIND, PLAIN, NOON)
  }

  const AHEAD_SLOT := SlotEntry(ProfileOf(AHEAD), At(44400))
  const BEHIND_SLOT := SlotEntry(ProfileOf(BEHIND), At(45600))
  const MOVED := Held(SlotEntry(ProfileOf(BEHIND), At(45000)), Placed)

  function StartOfMove(): seq<Held> {
    [Held(AHEAD_SLOT, Preserved), Held(BEHIND_SLOT, Reserved)]
  }

  lemma AheadAtNoon()
    ensures Ahead().natural == At(43800) && Ahead().slot == Some(AHEAD_SLOT) && !StaleTobt(Ahead().input, NOON)
    ensures Assignment(Ahead().input, At(43800), NOON) == CalcResult(At(43200), At(43800))
    ensures !StripHasStarted(AHEAD) && !IsRecalculated(Ahead(), NOON)
  {
    ClocksOfExamples();
    TokensOfExamples();
    NaturalOf(AHEAD, PLAIN, NOON, At(43800), At(43800));
  }

  lemma BehindAtNoon()
    ensures Behind().natural == At(45000) && Behind().slot == Some(BEHIND_SLOT) && !StaleTobt(Behind().input, NOON)
    ensures Assignment(Behind().input, At(45000), NOON) == CalcResult(At(44400), At(45000))
    ensures IsRecalculated(Behind(), NOON) && ShouldRecalculate(BEHIND, NOON) && !TsatExpired(BEHIND, NOON)
  {
    ClocksOfExamples();
    TokensOfExamples();
    NaturalOf(BEHIND, PLAIN, NOON, At(45000), At(45000));
  }

  lemma SlotsOfMove()
    ensures Slots(StartOfMove()) == [AHEAD_SLOT, BEHIND_SLOT]
    ensures NameOf(Ahead()) == "A" && NameOf(Behind()) == "B"
    ensures WithoutCallsign([AHEAD_SLOT, BEHIND_SLOT], "B") == [AHEAD_SLOT]
    ensures RemoveSlotFor(StartOfMove(), "B") == [Held(AHEAD_SLOT, Preserved)]
            && Slots([Held(AHEAD_SLOT, Preserved)]) == [AHEAD_SLOT]
  {
    TokensOfExamples();
    var a := Held(AHEAD_SLOT, Preserved);
    assert StartOfMove()[..1] == [a] && [a][..0] == [];
    assert [AHEAD_SLOT, BEHIND_SLOT][1..] == [BEHIND_SLOT] && [BEHIND_SLOT][1..] == [];
    assert WithoutCallsign([BEHIND_SLOT], "B") == [];
    assert FirstFor(StartOfMove(), "B", 0) == 1;
    assert StartOfMove()[2..] == [];
  }

  /** The search itself proposes 12:30 to the follower. */
  lemma BehindIsOffered()
    ensures Calculate(Behind().input, [AHEAD_SLOT, BEHIND_SLOT], PLAIN, NOON) == Ends(CalcResult(At(44400), At(45000)))
    ensures Calculate(ProposalInput(BEHIND, Behind().input), [AHEAD_SLOT], PLAIN, NOON).Ends?
  {
    BehindAtNoon();
    TokensOfExamples();
    PlainRunwayOne();
    assert Judge(45000, Behind().input.who, AHEAD_SLOT, PLAIN).Free?
           && Judge(45000, Behind().input.who, BEHIND_SLOT, PLAIN).Free?;
    FreeAtOnce(Behind().input, [AHEAD_SLOT, BEHIND_SLOT], At(45000), PLAIN, NOON);
    assert ProposalInput(BEHIND, Behind().input) == Behind().input;
    FreeAtOnce(Behind().input, [AHEAD_SLOT], At(45000), PLAIN, NOON);
  }

  lemma AheadIsAhead()
    ensures IsAhead(Ahead(), Behind(), BEHIND_SLOT, PLAIN, NOON)
            && !IsAhead(Behind(), Behind(), BEHIND_SLOT, PLAIN, NOON)
    ensures CurrentTime(Ahead(), [AHEAD_SLOT, BEHIND_SLOT]) == At(44400)
    ensures CompareClock(At(43800), At(44400), NOON) < 0 && CompareClock(At(44400), At(45000), NOON) < 0
  {
    AheadAtNoon();
    BehindAtNoon();
    SlotsOfMove();
    ClocksOfExamples();
    TokensOfExamples();
    PlainRunwayOne();
  }

  /** The flight ahead could have taken 12:10, which is earlier than its own 12:20 and than the proposed 12:30. */
  lemma AheadIsOvertaken()
    ensures Behind().slot == Some(BEHIND_SLOT)
    ensures IsOvertaken(Ahead(), Behind(), At(45000), [AHEAD_SLOT, BEHIND_SLOT], PLAIN, NOON)
  {
    AheadAtNoon();
    BehindAtNoon();
    SlotsOfMove();
    AheadIsAhead();
    AheadIsFree();
    EarlierStill(At(43800), At(44400), At(45000), NOON);
  }

  lemma AheadIsFree()
    ensures Calculate(Ahead().input, [AHEAD_SLOT], PLAIN, NOON) == Ends(CalcResult(At(43200), At(43800)))
  {
    AheadAtNoon();
    TokensOfExamples();
    FreeAtOnce(Ahead().input, [AHEAD_SLOT], At(43800), PLAIN, NOON);
  }

  lemma NobodyObjects()
    ensures KeepsQueueOrder(Behind(), At(45000), [AHEAD_SLOT, BEHIND_SLOT], [Ahead(), Behind()], PLAIN, NOON)
            == Ends(true)
  {
    BehindAtNoon();
    AheadIsAhead();
    var slots := [AHEAD_SLOT, BEHIND_SLOT];
    var probe := WithoutCallsign(slots, NameOf(Behind()));
    assert [Ahead(), Behind()][1..] == [Behind()] && [Behind()][1..] == [];
    assert NobodyAheadClaims(Behind(), BEHIND_SLOT, At(45000), slots, probe, [Behind()], PLAIN, NOON) == Ends(true);
    assert HasFirstClaim(Ahead(), At(45000), slots, probe, PLAIN, NOON) == Ends(false);
  }

  lemma BehindTurn()
    ensures Settle(Behind(), StartOfMove(), [Ahead(), Behind()], PLAIN, NOON).Ends?
    ensures Settle(Behind(), StartOfMove(), [Ahead(), Behind()], PLAIN, NOON).value.held
            == [Held(AHEAD_SLOT, Preserved), MOVED]
  {
    BehindAtNoon();
    SlotsOfMove();
    BehindIsOffered();
    NobodyObjects();
  }

  lemma OnePreserved()
    ensures Candidates([AHEAD, BEHIND], PLAIN, NOON) == [Ahead(), Behind()]
    ensures Select([Ahead(), Behind()], false, NOON) == [Ahead()]
            && Select([Ahead(), Behind()], true, NOON) == [Behind()]
  {
    TokensOfExamples();
    ClocksOfExamples();
    TwoCandidates(AHEAD, BEHIND, PLAIN, NOON);
    AheadAtNoon();
    BehindAtNoon();
    assert [Ahead(), Behind()][..1] == [Ahead()] && [Ahead()][..0] == [];
    assert Select([Ahead()], true, NOON) == [] && Select([Ahead()], false, NOON) == [Ahead()];
  }

  lemma OneSorted(o: Order, c: Candidate)
    ensures SortCandidates(o, [c], NOON) == [c]
  {
    assert [c][..0] == [];
    assert StableSort(By(o, NOON), []) == [];
  }

  lemma AheadIsPreserved()
    ensures Preserve([Ahead()], [], [Behind()], PLAIN, NOON) == Ends(([Held(AHEAD_SLOT, Preserved)], [Behind()]))
    ensures Reserve([Behind()], [Held(AHEAD_SLOT, Preserved)], NOON) == StartOfMove()
  {
    AheadAtNoon();
    BehindAtNoon();
    TokensOfExamples();
    assert [Ahead()][1..] == [] && [Behind()][1..] == [];
    assert BlocksHigherPriority(Ahead(), AHEAD_SLOT, [Behind()], PLAIN, NOON) == Ends(false);
    assert [] + [Held(AHEAD_SLOT, Preserved)] == [Held(AHEAD_SLOT, Preserved)];
  }

  lemma PreparedForMove()
    ensures Prepare([Ahead(), Behind()], PLAIN, NOON) == Ends((StartOfMove(), [Behind()]))
  {
    OnePreserved();
    AheadIsPreserved();
    OneSorted(PreservedOrder, Ahead());
    OneSorted(QueueOrder, Behind());
  }

  /** In a pass at noon the follower moves up to 12:30, the queue check having accepted it, although the flight ahead,
      left on 12:20, could have left at 12:10. */
  lemma FollowerMovesUnasked()
    ensures Pass([AHEAD, BEHIND], PLAIN, NOON).Ends?
    ensures Pass([AHEAD, BEHIND], PLAIN, NOON).value.held == [Held(AHEAD_SLOT, Preserved), MOVED]
    ensures Behind().slot.Some? && IsOvertaken(Ahead(), Behind(), MOVED.slot.ttot, Slots(StartOfMove()), PLAIN, NOON)
  {
    OnePreserved();
    PreparedForMove();
    BehindTurn();
    OneTurn(Behind(), [Ahead(), Behind()], PLAIN, NOON, PassState(StartOfMove(), map[]),
            Settle(Behind(), StartOfMove(), [Ahead(), Behind()], PLAIN, NOON).value);
    SlotsOfMove();
    AheadIsOvertaken();
  }

  // ---- Floors around the clock ------------------------------------------------------------------

  /** Runway 1 is held up until 13:00. */
  const DELAYED := PLAIN.(delays := [Delay("X", "1", At(46800))])

  /** At noon: ready at 22:50 for 23:00, with a CTOT of 07:00 the next morning. */
  const EVENING := Departing("A", "Y", 10, BLANK.(tobt := At(82200), ctot := At(25200), mode := Required))

  lemma DelayUntilOne()
    ensures DelayFloor(DELAYED, "1", NOON) == At(46800)
  {
    TokensOfExamples();
    var d := Delay("X", "1", At(46800));
    assert DELAYED.delays[..0] == [] && DELAYED.delays[0] == d;
    assert DelayApplies(d, DELAYED, "1");
    assert ResolveDelayFloor(NOON, d.time) == Some(46800 * SECOND_NS);
    assert ClockOf(46800 * SECOND_NS) == 46800;
    assert LatestFloor([], DELAYED, "1", NOON) == None;
    assert LatestFloor(DELAYED.delays, DELAYED, "1", NOON) == Some(46800 * SECOND_NS);
  }

  /** The CTOT is later than the ready time and the delay later than the CTOT, so the natural time is 13:00: ten hours
      before the flight is ready, and the search assigns it. */
  lemma CyclicFloorsLoseOne()
    ensures var input := BuildCalcInput(EVENING);
            && Unconstrained(input, DELAYED, NOON) == At(46800)
            && Earliest(input) == At(82800) && !IsAfterOrEqual(At(46800), Earliest(input))
            && Calculate(input, [], DELAYED, NOON) == Ends(CalcResult(At(46200), At(46800)))
  {
    var input := BuildCalcInput(EVENING);
    DelayUntilOne();
    ClocksOfExamples();
    assert Earliest(input) == At(82800);
    assert Floors(input, DELAYED, NOON) == [Absent, At(25200), At(46800)];
    assert [Absent, At(25200), At(46800)][1..] == [At(25200), At(46800)] && [At(25200), At(46800)][1..] == [At(46800)];
    assert [At(46800)][1..] == [];
    assert LaterOfAll(At(25200), [At(46800)]) == At(46800);
    assert LaterOfAll(At(82800), [At(25200), At(46800)]) == At(46800);
    AtOnceWithoutSlots(input);
  }

  lemma AtOnceWithoutSlots(input: CalcInput)
    requires Unconstrained(input, DELAYED, NOON) == At(46800) && !StaleTobt(input, NOON)
    ensures Calculate(input, [], DELAYED, NOON) == Ends(Assignment(input, At(46800), NOON))
  {
    FreeAtOnce(input, [], At(46800), DELAYED, NOON);
  }

  /** Runway 1 is held up until 18:00. */
  const HELD_UP := PLAIN.(delays := [Delay("X", "1", At(64800))])

  /** At noon: ready at 11:56 for 12:00, with a CTOT of midnight. */
  const MIDNIGHT := Departing("A", "Y", 4, BLANK.(tobt := At(42960), ctot := At(0), mode := Required))

  lemma DelayUntilSix()
    ensures DelayFloor(HELD_UP, "1", NOON) == At(64800)
  {
    TokensOfExamples();
    var d := Delay("X", "1", At(64800));
    assert HELD_UP.delays[..0] == [] && HELD_UP.delays[0] == d;
    assert DelayApplies(d, HELD_UP, "1");
    assert ResolveDelayFloor(NOON, d.time) == Some(64800 * SECOND_NS);
    assert ClockOf(64800 * SECOND_NS) == 64800;
    assert LatestFloor([], HELD_UP, "1", NOON) == None;
    assert LatestFloor(HELD_UP.delays, HELD_UP, "1", NOON) == Some(64800 * SECOND_NS);
  }

  /** The CTOT is at or after the ready time and the delay, and yet gives way: the flight is assigned 18:00. */
  lemma OppositeCtotIsLost()
    ensures var input := BuildCalcInput(MIDNIGHT);
            && AfterAll(At(0), Earliest(input), input.ctot, At(64800)) && CtotGivesWay(input, HELD_UP, NOON)
            && Calculate(input, [], HELD_UP, NOON) == Ends(CalcResult(At(64560), At(64800)))
            && !IsAfterOrEqual(At(64800), input.ctot)
  {
    var input := BuildCalcInput(MIDNIGHT);
    DelayUntilSix();
    ClocksOfExamples();
    assert Earliest(input) == At(43200);
    FloorsInTurn(At(43200), Absent, At(0), At(64800));
    assert Floors(input, HELD_UP, NOON) == [Absent, At(0), At(64800)];
    assert Unconstrained(input, HELD_UP, NOON) == At(64800);
    FreeAtOnce(input, [], At(64800), HELD_UP, NOON);
  }
}
