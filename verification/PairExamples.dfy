/** Concrete pairs of flights on one runway that a sequencing pass leaves too close to each other. */
module PairExamples {
  import opened Text
  import opened Clock
  import opened Config
  import opened Separation
  import opened Search
  import opened Departure
  import opened Strips
  import opened Sorting
  import opened Ordering
  import opened Sequence
  import opened Guarantees
  import opened Turns
  import opened PassImprove
  import opened PassExamples

  const AT_TWENTY_PAST: Clock := At(44400)

  // ---- Two started flights ----------------------------------------------------------------

  /** At noon both have started, for 12:20. */
  const ONE := Departing("A", "Y", 10, BLANK.(tobt := At(43200), tsat := At(43800), ttot := AT_TWENTY_PAST,
                                              asat := At(43200)))
  const OTHER := Departing("B", "Z", 10, ONE.data)

  function One(): Candidate {
    MakeCandidate(ONE, PLAIN, NOON)
  }

  function Other(): Candidate {
    MakeCandidate(OTHER, PLAIN, NOON)
  }

  lemma SameTimesClash(a: Strip, b: Strip)
    requires Token(a.origin) == Token(b.origin) && a.runway == b.runway
    ensures var e, f := SlotEntry(ProfileOf(a), AT_TWENTY_PAST), SlotEntry(ProfileOf(b), AT_TWENTY_PAST);
            Clashes(e, f, PLAIN) && !Spaced(e, f, PLAIN) && !Spaced(f, e, PLAIN)
  {
  }

  lemma BothArePreserved()
    ensures Candidates([ONE, OTHER], PLAIN, NOON) == [One(), Other()]
    ensures Select([One(), Other()], false, NOON) == [One(), Other()] && Select([One(), Other()], true, NOON) == []
    ensures One().started && Other().started
    ensures One().slot == Some(SlotEntry(ProfileOf(ONE), AT_TWENTY_PAST))
    ensures Other().slot == Some(SlotEntry(ProfileOf(OTHER), AT_TWENTY_PAST))
  {
    TokensOfExamples();
    ClocksOfExamples();
    TwoCandidates(ONE, OTHER, PLAIN, NOON);
    assert [One(), Other()][..1] == [One()] && [One()][..0] == [];
    assert Select([One()], false, NOON) == [One()] && Select([One()], true, NOON) == [];
  }

  /** Whichever is sorted first, nobody asks whether started flights clash. */
  lemma StartedGoThrough(c: Candidate, d: Candidate)
    requires c.started && d.started && c.slot.Some? && d.slot.Some?
    ensures Preserve([c, d], [], [], PLAIN, NOON)
            == Ends(([Held(c.slot.value, Preserved), Held(d.slot.value, Preserved)], []))
  {
    assert [c, d][1..] == [d] && [d][1..] == [];
    var a, b := Held(c.slot.value, Preserved), Held(d.slot.value, Preserved);
    assert [] + [a] == [a] && [a] + [b] == [a, b];
    assert Preserve([d], [a], [], PLAIN, NOON) == Ends(([a, b], []));
  }

  lemma EitherWay(c: Candidate, d: Candidate, s: seq<Candidate>)
    requires multiset(s) == multiset{c, d}
    ensures s == [c, d] || s == [d, c]
  {
    assert |multiset(s)| == 2;
    assert s[0] in multiset(s) && s[1] in multiset(s);
    assert s == [s[0], s[1]];
    assert multiset(s) == multiset{s[0], s[1]};
    assert multiset{c, d} - multiset{s[0]} == multiset{s[1]};
  }

  lemma NothingIsQueued(strips: seq<Strip>, all: seq<Candidate>, held: seq<Held>)
    requires Candidates(strips, PLAIN, NOON) == all && Select(all, false, NOON) == all && Select(all, true, NOON) == []
    requires forall c :: c in SortCandidates(PreservedOrder, all, NOON) ==> c.slot.Some?
    requires Preserve(SortCandidates(PreservedOrder, all, NOON), [], [], PLAIN, NOON) == Ends((held, []))
    ensures Pass(strips, PLAIN, NOON) == Ends(PassState(held, map[]))
  {
    assert SortCandidates(QueueOrder, [], NOON) == [];
  }

  lemma EitherEntryFirst(c: Candidate, d: Candidate, s: seq<Candidate>) returns (held: seq<Held>)
    requires s == [c, d] || s == [d, c]
    requires c.started && d.started && c.slot.Some? && d.slot.Some?
    ensures Preserve(s, [], [], PLAIN, NOON) == Ends((held, []))
    ensures multiset(held) == multiset{Held(c.slot.value, Preserved), Held(d.slot.value, Preserved)}
  {
    StartedGoThrough(s[0], s[1]);
    held := [Held(s[0].slot.value, Preserved), Held(s[1].slot.value, Preserved)];
  }

  /** The pass keeps two started flights on one take-off time. */
  lemma StartedPairStays() returns (held: seq<Held>)
    ensures Pass([ONE, OTHER], PLAIN, NOON) == Ends(PassState(held, map[]))
    ensures multiset(held) == multiset{Held(SlotEntry(ProfileOf(ONE), AT_TWENTY_PAST), Preserved),
                                       Held(SlotEntry(ProfileOf(OTHER), AT_TWENTY_PAST), Preserved)}
    ensures Clashes(SlotEntry(ProfileOf(ONE), AT_TWENTY_PAST), SlotEntry(ProfileOf(OTHER), AT_TWENTY_PAST), PLAIN)
  {
    BothArePreserved();
    SameTimesClash(ONE, OTHER);
    var all := [One(), Other()];
    var sorted := SortCandidates(PreservedOrder, all, NOON);
    EitherWay(One(), Other(), sorted);
    held := EitherEntryFirst(One(), Other(), sorted);
    NothingIsQueued([ONE, OTHER], all, held);
  }

  // ---- Two improve-only flights -----------------------------------------------------------

  /** At noon both are assigned 12:20 and ask for something earlier, but their TOBT of 11:50 is stale, so that the
      search finds them nothing. */
  const STUCK := Departing("A", "Y", 10, BLANK.(tobt := At(42600), tsat := At(43800), ttot := AT_TWENTY_PAST,
                                                mode := ImproveOnly))
  const STUCK_TOO := Departing("B", "Z", 10, STUCK.data)

  function Stuck(): Candidate {
    MakeCandidate(STUCK, PLAIN, NOON)
  }

  function StuckToo(): Candidate {
    MakeCandidate(STUCK_TOO, PLAIN, NOON)
  }

  predicate IsStuck(c: Candidate) {
    c == Stuck() || c == StuckToo()
  }

  function ReservedFor(c: Candidate): Held {
    Held(SlotEntry(ProfileOf(c.strip), AT_TWENTY_PAST), Reserved)
  }

  lemma StuckAtNoon(c: Candidate)
    requires IsStuck(c)
    ensures c.improvement && IsRecalculated(c, NOON) && ShouldRecalculate(c.strip, NOON) && StaleTobt(c.input, NOON)
    ensures !TsatExpired(c.strip, NOON) && c.slot == Some(SlotEntry(ProfileOf(c.strip), AT_TWENTY_PAST))
    ensures NameOf(Stuck()) == "A" && NameOf(StuckToo()) == "B"
  {
    TokensOfExamples();
    ClocksOfExamples();
  }

  lemma BothAreQueued()
    ensures Candidates([STUCK, STUCK_TOO], PLAIN, NOON) == [Stuck(), StuckToo()]
  {
    StuckAtNoon(Stuck());
    StuckAtNoon(StuckToo());
    TokensOfExamples();
    TwoCandidates(STUCK, STUCK_TOO, PLAIN, NOON);
  }

  lemma BothAreReserved()
    ensures Reserve([Stuck(), StuckToo()], [], NOON) == [ReservedFor(Stuck()), ReservedFor(StuckToo())]
  {
    StuckAtNoon(Stuck());
    StuckAtNoon(StuckToo());
    var a, b := ReservedFor(Stuck()), ReservedFor(StuckToo());
    assert [Stuck(), StuckToo()][1..] == [StuckToo()] && [StuckToo()][1..] == [];
    assert [] + [a] == [a] && [a] + [b] == [a, b];
    assert Name(a) == "A" && Name(b) == "B" && !HasSlotFor([], "A") && !HasSlotFor([a], "B");
    assert Reserve([StuckToo()], [a], NOON) == [a, b];
  }

  /** A turn leaves such a flight on the slot reserved for it. */
  lemma StuckTurn(c: Candidate, held: seq<Held>, all: seq<Candidate>)
    requires IsStuck(c) && ReservedFor(c) in held
    ensures Settle(c, held, all, PLAIN, NOON).Ends? && Settle(c, held, all, PLAIN, NOON).value.held == held
  {
    StuckAtNoon(c);
    assert Name(ReservedFor(c)) == NameOf(c) && HasSlotFor(held, NameOf(c));
    assert Calculate(c.input, Slots(held), PLAIN, NOON) == Ends(NO_RESULT);
  }

  lemma BothTurns(queue: seq<Candidate>, held: seq<Held>, all: seq<Candidate>)
    requires |queue| == 2 && IsStuck(queue[0]) && IsStuck(queue[1])
    requires ReservedFor(Stuck()) in held && ReservedFor(StuckToo()) in held
    ensures var r := Drain(queue, PassState(held, map[]), all, PLAIN, NOON); r.Ends? && r.value.held == held
  {
    StuckTurn(queue[0], held, all);
    StuckTurn(queue[1], held, all);
    assert queue == [queue[0], queue[1]];
    TwoTurns(queue[0], queue[1], all, NOON, PassState(held, map[]), Settle(queue[0], held, all, PLAIN, NOON).value,
             Settle(queue[1], held, all, PLAIN, NOON).value);
  }

  lemma PreparedForStuck() returns (queue: seq<Candidate>)
    ensures |queue| == 2 && IsStuck(queue[0]) && IsStuck(queue[1])
    ensures Prepare([Stuck(), StuckToo()], PLAIN, NOON)
            == Ends(([ReservedFor(Stuck()), ReservedFor(StuckToo())], queue))
  {
    BothAreReserved();
    StuckAtNoon(Stuck());
    StuckAtNoon(StuckToo());
    var all := [Stuck(), StuckToo()];
    BothSelected(Stuck(), StuckToo(), NOON);
    NonePreserved(all, NOON);
    queue := SortCandidates(QueueOrder, all, NOON);
    EitherWay(Stuck(), StuckToo(), queue);
  }

  /** The pass leaves two improve-only flights on one take-off time: it never compares their slots. */
  lemma ReservedPairStays()
    ensures Pass([STUCK, STUCK_TOO], PLAIN, NOON).Ends?
    ensures Pass([STUCK, STUCK_TOO], PLAIN, NOON).value.held == [ReservedFor(Stuck()), ReservedFor(StuckToo())]
    ensures Clashes(ReservedFor(Stuck()).slot, ReservedFor(StuckToo()).slot, PLAIN)
  {
    BothAreQueued();
    SameTimesClash(STUCK, STUCK_TOO);
    var queue := PreparedForStuck();
    BothTurns(queue, [ReservedFor(Stuck()), ReservedFor(StuckToo())], [Stuck(), StuckToo()]);
  }

  // ---- One runway under two names ---------------------------------------------------------

  /** Ten departures an hour from runway "1"; a name that is not configured gets the default of twenty. */
  const SLOW := PLAIN.(rates := [CdmRate("X", [], [], ["1"], [], [], [10], [])])

  /** At noon: assigned 12:20 from "1"; and, without times yet, ready at 12:14 for 12:24 from "1 ". */
  const TIDY := Departing("A", "Y", 10, BLANK.(tobt := At(43200), tsat := At(43800), ttot := AT_TWENTY_PAST))
  const BLANKS := Departing("B", "Z", 10, BLANK.(tobt := At(44040), mode := Required)).(runway := "1 ")

  function Tidy(): Candidate {
    MakeCandidate(TIDY, SLOW, NOON)
  }

  function Blanks(): Candidate {
    MakeCandidate(BLANKS, SLOW, NOON)
  }

  const TIDY_HELD := Held(SlotEntry(ProfileOf(TIDY), AT_TWENTY_PAST), Preserved)
  const BLANKS_HELD := Held(SlotEntry(ProfileOf(BLANKS), At(44640)), Placed)

  lemma TwoNamesOneRunway()
    ensures Token("1 ") == "1" && SameRunway("1", "1 ") && SameRunway("1 ", "1")
    ensures RateForRunway(SLOW, "1") == 10 && RateForRunway(SLOW, "1 ") == 20
    ensures SidIntervalSeconds(SLOW, "1", "", "") == 0.0 && SidIntervalSeconds(SLOW, "1 ", "", "") == 0.0
  {
    var rate := CdmRate("X", [], [], ["1"], [], [], [10], []);
    TokensOfExamples();
    assert "1 "[..1] == "1";
    assert FoldEq("1", "1") && Upper("1 ") == "1 " && Upper("1") == "1" && FoldEq("X", "X");
    assert DepRwyMatches(rate, "1") by { assert "1" in rate.depRwyYes; }
    assert !DepRwyMatches(rate, "1 ");
    assert SLOW.rates[0] == rate && SLOW.rates[1..] == [];
    assert RateMatches(rate, "1", SLOW) && !RateMatches(rate, "1 ", SLOW);
    assert RateAmong([], "1 ", SLOW) == 20;
  }

  lemma WindowsOfNames()
    ensures RateWindow(SLOW, "1") == 360.0 && RateWindow(SLOW, "1 ") == 180.0 && WakeMinutes("M", "M") == 1
    ensures OwnWindow(SLOW, ProfileOf(TIDY), ProfileOf(BLANKS)) == 360
    ensures OwnWindow(SLOW, ProfileOf(BLANKS), ProfileOf(TIDY)) == 180
  {
    TwoNamesOneRunway();
    TokensOfExamples();
    assert Ceil(360.0) == 360 && Ceil(180.0) == 180 && Ceil(0.0) == 0;
  }

  /** The looser name does not cover the stricter one. */
  lemma BlanksDoNotCover()
    ensures !KeepsBoth(SLOW, ProfileOf(BLANKS), ProfileOf(TIDY))
    ensures MustKeep(SLOW, ProfileOf(BLANKS), ProfileOf(TIDY), 1) == 180
    ensures MustKeep(SLOW, ProfileOf(TIDY), ProfileOf(BLANKS), 1) == 360
  {
    WindowsOfNames();
    TokensOfExamples();
  }

  lemma FourMinutesApart()
    ensures Spaced(BLANKS_HELD.slot, TIDY_HELD.slot, SLOW) && !Spaced(TIDY_HELD.slot, BLANKS_HELD.slot, SLOW)
  {
    BlanksDoNotCover();
    WindowsOfNames();
    TwoNamesOneRunway();
    SpacedIsAGap(BLANKS_HELD.slot, TIDY_HELD.slot, SLOW);
    SpacedIsAGap(TIDY_HELD.slot, BLANKS_HELD.slot, SLOW);
  }

  lemma BlanksAreFree()
    ensures Judge(44640, Blanks().input.who, TIDY_HELD.slot, SLOW).Free?
  {
    FourMinutesApart();
    TwoNamesOneRunway();
    TokensOfExamples();
    FreeExactlyWhenSpaced(44640, Blanks().input.who, TIDY_HELD.slot, SLOW);
  }

  lemma TidyAtNoon()
    ensures Tidy().slot == Some(TIDY_HELD.slot) && !Tidy().started && !IsRecalculated(Tidy(), NOON)
    ensures !ShouldSkip(TIDY) && RecoverExpiredTsat(TIDY, NOON) == TIDY
  {
    TokensOfExamples();
    ClocksOfExamples();
  }

  lemma BlanksAtNoon()
    ensures Blanks().natural == At(44640) && Blanks().slot == None && !StaleTobt(Blanks().input, NOON)
    ensures Assignment(Blanks().input, At(44640), NOON) == CalcResult(At(44040), At(44640))
    ensures IsRecalculated(Blanks(), NOON) && ShouldRecalculate(BLANKS, NOON) && !TsatExpired(BLANKS, NOON)
    ensures !Blanks().improvement && !Blanks().hasCtot && !Blanks().input.tobtAuthoritative
    ensures !ShouldSkip(BLANKS) && RecoverExpiredTsat(BLANKS, NOON) == BLANKS
  {
    TokensOfExamples();
    ClocksOfExamples();
    NaturalOf(BLANKS, SLOW, NOON, At(44640), At(44640));
  }

  lemma BlanksSelected()
    ensures Candidates([TIDY, BLANKS], SLOW, NOON) == [Tidy(), Blanks()]
    ensures Select([Tidy(), Blanks()], false, NOON) == [Tidy()]
    ensures Select([Tidy(), Blanks()], true, NOON) == [Blanks()]
  {
    TidyAtNoon();
    BlanksAtNoon();
    TwoCandidates(TIDY, BLANKS, SLOW, NOON);
    OneOfEach(Tidy(), Blanks());
  }

  lemma OneOfEach(c: Candidate, d: Candidate)
    requires !IsRecalculated(c, NOON) && IsRecalculated(d, NOON)
    ensures Select([c, d], false, NOON) == [c] && Select([c, d], true, NOON) == [d]
  {
    var one, two := [c], [c, d];
    assert two[..1] == one && one[..0] == [];
    SelectLast(one, NOON);
    SelectLast(two, NOON);
    assert Select(one, false, NOON) == [] + [c] && Select(one, true, NOON) == [];
    assert Select(two, false, NOON) == [c] && Select(two, true, NOON) == [] + [d];
  }

  lemma TidyIsPreserved()
    ensures Preserve([Tidy()], [], [Blanks()], SLOW, NOON) == Ends(([TIDY_HELD], [Blanks()]))
    ensures Reserve([Blanks()], [TIDY_HELD], NOON) == [TIDY_HELD]
  {
    TidyAtNoon();
    BlanksAtNoon();
    assert [Tidy()][1..] == [] && [Blanks()][1..] == [];
    assert BlocksHigherPriority(Tidy(), TIDY_HELD.slot, [Blanks()], SLOW, NOON) == Ends(false);
    assert [] + [TIDY_HELD] == [TIDY_HELD];
  }

  lemma PreparedForBlanks()
    ensures Prepare([Tidy(), Blanks()], SLOW, NOON) == Ends(([TIDY_HELD], [Blanks()]))
  {
    BlanksSelected();
    TidyIsPreserved();
    OneSorted(PreservedOrder, Tidy());
    OneSorted(QueueOrder, Blanks());
  }

  lemma BlanksAreOffered()
    ensures Calculate(Blanks().input, [TIDY_HELD.slot], SLOW, NOON) == Ends(CalcResult(At(44040), At(44640)))
    ensures ProposalInput(BLANKS, Blanks().input) == Blanks().input
  {
    BlanksAtNoon();
    BlanksAreFree();
    FreeAtOnce(Blanks().input, [TIDY_HELD.slot], At(44640), SLOW, NOON);
  }

  lemma BlanksTurn(all: seq<Candidate>)
    ensures Settle(Blanks(), [TIDY_HELD], all, SLOW, NOON).Ends?
    ensures Settle(Blanks(), [TIDY_HELD], all, SLOW, NOON).value.held == [TIDY_HELD, BLANKS_HELD]
  {
    var c := Blanks();
    BlanksAtNoon();
    BlanksAreOffered();
    NamesOfBlanks();
    assert [TIDY_HELD][..0] == [];
    assert Slots([TIDY_HELD]) == [TIDY_HELD.slot];
    assert [TIDY_HELD] + [BLANKS_HELD] == [TIDY_HELD, BLANKS_HELD];
  }

  lemma NamesOfBlanks()
    ensures NameOf(Blanks()) == "B" && !HasSlotFor([TIDY_HELD], "B")
  {
    TokensOfExamples();
    assert Name(TIDY_HELD) == "A";
  }

  /** The pass places a flight four minutes behind another whose runway name asks for six. */
  lemma BlanksBreakTheRate()
    ensures Pass([TIDY, BLANKS], SLOW, NOON).Ends?
    ensures Pass([TIDY, BLANKS], SLOW, NOON).value.held == [TIDY_HELD, BLANKS_HELD]
    ensures SameRunway(TIDY.runway, BLANKS.runway) && !KeepsBoth(SLOW, ProfileOf(BLANKS), ProfileOf(TIDY))
    ensures !Spaced(TIDY_HELD.slot, BLANKS_HELD.slot, SLOW)
  {
    BlanksSelected();
    PreparedForBlanks();
    BlanksTurn([Tidy(), Blanks()]);
    BlanksDoNotCover();
    FourMinutesApart();
    TwoNamesOneRunway();
    OneTurn(Blanks(), [Tidy(), Blanks()], SLOW, NOON, PassState([TIDY_HELD], map[]),
            Settle(Blanks(), [TIDY_HELD], [Tidy(), Blanks()], SLOW, NOON).value);
  }
}
