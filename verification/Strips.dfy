/** Departure strips and the eligibility tests of backend/internal/cdm/sequence.go, over the CDM record of
    backend/internal/models/cdm_data.go. A strip without a record is skipped, like one whose record is empty. */
module Strips {
  import opened Text
  import opened Clock
  import opened Config
  import opened Separation
  import opened Departure

  const EIGHT_MINUTES := 480

  /** Whether a recalculation is pending, and which kind. */
  datatype Mode = NotPending | Required | ImproveOnly

  /** `invalidPhase` is phase "I"; `staleTsatReason` says that the stored calculation was invalidated by its TSAT. */
  datatype CdmData = CdmData(tobt: Clock, eobt: Clock, tsat: Clock, ttot: Clock, ctot: Clock, manualSource: bool,
                             aobt: Clock, asat: Clock, expiredTsat: Clock, proposalTsat: Clock, proposalTtot: Clock,
                             confirmed: bool, mode: Mode, pushbackRecalculate: bool, ctotRecalculate: bool,
                             invalidPhase: bool, staleTsatReason: bool, taxiMinutes: int, taxiRunway: string) {
    predicate HasManualCtot() {
      manualSource && ctot != Absent
    }

    predicate IsPending() {
      mode != NotPending
    }

    function ClearPending(): CdmData {
      this.(mode := NotPending, pushbackRecalculate := false, ctotRecalculate := false)
    }
  }

  /** Taxi and de-icing minutes are the values resolved for this pass. */
  datatype Strip = Strip(callsign: string, origin: string, destination: string, runway: string, sid: string,
                         wakeCat: string, state: string, seen: bool,
                         taxiMin: int, deIceMin: int, deiceTaxiMin: int, data: CdmData)

  predicate GroundStateAllowsAsat(state: string) {
    Token(state) in {"STUP", "ST-UP", "PUSH", "TAXI", "LINEUP", "DEPA"}
  }

  predicate StripHasStarted(s: Strip) {
    s.data.asat != Absent || s.data.aobt != Absent || GroundStateAllowsAsat(s.state)
  }

  predicate AllowsStartedRecalculation(s: Strip) {
    && s.data.IsPending()
    && ((s.data.ctotRecalculate && StripHasStarted(s)) || (s.data.pushbackRecalculate && s.data.aobt == Absent))
  }

  predicate ShouldSkip(s: Strip) {
    || !s.seen
    || Token(s.state) in {"ARR", "DEPA"}
    || (s.data.tobt == Absent && s.data.eobt == Absent && s.data.ttot == Absent)
  }

  predicate TsatExpired(s: Strip, now: Instant) {
    s.data.tsat != Absent && IsMoreThanPast(s.data.tsat, At(ClockOf(now)), FIVE_MINUTES)
  }

  predicate CalcTimesExpired(s: Strip, now: Instant) {
    if s.data.tsat != Absent then IsMoreThanPast(s.data.tsat, At(ClockOf(now)), FIVE_MINUTES)
    else s.data.tobt != Absent && IsMoreThanPast(s.data.tobt, At(ClockOf(now)), FIVE_MINUTES)
  }

  predicate ShouldRecalculate(s: Strip, now: Instant) {
    if StripHasStarted(s) then AllowsStartedRecalculation(s)
    else
      || s.data.IsPending()
      || (!s.data.invalidPhase && (CalcTimesExpired(s, now) || s.data.tsat == Absent || s.data.ttot == Absent))
  }

  /** A started flight that neither a CTOT change nor a pushback request has released. */
  predicate Frozen(s: Strip) {
    StripHasStarted(s) && !AllowsStartedRecalculation(s)
  }

  function ToMinute(c: Second): Second {
    c / 60 * 60
  }

  /** Eight minutes after its TSAT an unstarted flight gets a new TOBT ten minutes ahead. */
  function RecoverExpiredTsat(s: Strip, now: Instant): Strip {
    var d := s.data;
    var tsat := if d.tsat == Absent && d.staleTsatReason then d.expiredTsat else d.tsat;
    if StripHasStarted(s) || d.IsPending() || !tsat.At? || !IsMoreThanPast(tsat, At(ClockOf(now)), EIGHT_MINUTES) then s
    else
      var ahead := Shift(At(ClockOf(now)), 600);
      var tobt := At(ToMinute(ahead.sec));
      s.(data := d.(tobt := tobt, eobt := tobt, confirmed := false, tsat := Absent, ttot := Absent,
                    expiredTsat := Absent, invalidPhase := false, mode := Required))
  }

  function ProfileOf(s: Strip): Profile {
    Profile(s.callsign, s.origin, s.destination, s.runway, s.sid, s.wakeCat, s.data.HasManualCtot())
  }

  function BuildCalcInput(s: Strip): CalcInput {
    CalcInput(ProfileOf(s), s.data.eobt, s.data.tobt, s.data.confirmed, s.data.ctot, s.data.aobt, s.data.asat,
              s.data.ctot, s.taxiMin, s.deIceMin, s.deiceTaxiMin)
  }

  function ExistingSlot(s: Strip): Option<SlotEntry> {
    if s.data.ttot == Absent then None else Some(SlotEntry(ProfileOf(s), s.data.ttot))
  }

  datatype Candidate = Candidate(strip: Strip, input: CalcInput, base: Clock, natural: Clock, slot: Option<SlotEntry>,
                                 hasCtot: bool, improvement: bool, started: bool, staleBase: bool)

  function MakeCandidate(s: Strip, cfg: AirportConfig, now: Instant): Candidate {
    var input := BuildCalcInput(s);
    Candidate(s, input, SelectBase(input), Unconstrained(input, cfg, now), ExistingSlot(s), s.data.ctot != Absent,
              s.data.mode == ImproveOnly, StripHasStarted(s), StaleTobt(input, now))
  }

  /** For a record: the natural TTOT is at or after the ready time, the CTOT and the delay floor exactly when one of
      these is at or after the others and the CTOT does not give way. */
  lemma NaturalOfRecord(s: Strip, cfg: AirportConfig, now: Instant)
    requires SelectBase(BuildCalcInput(s)).At?
    ensures var input := BuildCalcInput(s);
            var ready, c, d := Earliest(input), s.data.ctot, DelayFloor(cfg, s.runway, now);
            AfterAll(Unconstrained(input, cfg, now), ready, c, d) <==>
            && (AfterAll(ready, ready, c, d) || (c.At? && AfterAll(c, ready, c, d))
                || (d.At? && AfterAll(d, ready, c, d)))
            && !CtotGivesWay(input, cfg, now)
  {
    var input := BuildCalcInput(s);
    var m, c, d := Floors(input, cfg, now)[0], s.data.ctot, DelayFloor(cfg, s.runway, now);
    NaturalMeetsEveryFloor(input, cfg, now);
    DominatesIsAfterAll(Unconstrained(input, cfg, now), Earliest(input), m, c, d);
    SomeIsLatest(Earliest(input), m, c, d);
    assert [Earliest(input)] + Floors(input, cfg, now) == [Earliest(input), m, c, d];
  }

  lemma TenMinutesAhead(n: Second)
    ensures var ahead := Shift(At(n), 600);
            ahead.At? && 540 < Between(At(n), At(ToMinute(ahead.sec))) <= 600
  {
    ShiftIsModular(n, 600);
    var ahead := (n + 600) % DAY;
    var early := ahead % 60;
    ShiftIsModular(n, 600 - early);
    ModAbsorbs(n + 600, -early);
    assert n + 600 + -early == n + (600 - early);
    BetweenIsTheShortWay(n, ToMinute(ahead), 600 - early);
  }

  /** Recovery changes only an unstarted flight with nothing pending, and gives it a TOBT nine to ten minutes
      ahead, no assignment and a required recalculation. */
  lemma RecoveryPostpones(s: Strip, now: Instant)
    ensures var r := RecoverExpiredTsat(s, now);
            && ProfileOf(r) == ProfileOf(s) && StripHasStarted(r) == StripHasStarted(s)
            && (r != s ==>
                  && r.data.mode == Required && r.data.tsat == Absent && r.data.ttot == Absent
                  && !StripHasStarted(s) && !s.data.IsPending()
                  && 540 < Between(At(ClockOf(now)), r.data.tobt) <= 600)
  {
    TenMinutesAhead(ClockOf(now));
  }
}
