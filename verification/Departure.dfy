/** One flight's TSAT and TTOT: backend/internal/cdm/calculate.go. */
module Departure {
  import opened Text
  import opened Clock
  import opened Config
  import opened Separation
  import opened Search

  const FIVE_MINUTES := 300

  datatype CalcInput = CalcInput(who: Profile, eobt: Clock, tobt: Clock, tobtAuthoritative: bool, ctot: Clock,
                                 aobt: Clock, asat: Clock, manCtot: Clock,
                                 taxiMin: int, deIceMin: int, deiceTaxiMin: int) {
    function ExotSeconds(): int {
      60 * (taxiMin + deIceMin + deiceTaxiMin)
    }
  }

  datatype CalcResult = CalcResult(tsat: Clock, ttot: Clock)

  const NO_RESULT := CalcResult(Absent, Absent)

  function SelectBase(input: CalcInput): Clock {
    if input.tobt == Absent then input.eobt else input.tobt
  }

  predicate HasStarted(input: CalcInput) {
    input.asat != Absent || input.aobt != Absent
  }

  predicate StaleTobt(input: CalcInput, now: Instant) {
    !HasStarted(input) && IsMoreThanPast(input.tobt, At(ClockOf(now)), FIVE_MINUTES)
  }

  predicate StaleTsat(input: CalcInput, tsat: Clock, now: Instant) {
    !HasStarted(input) && IsMoreThanPast(tsat, At(ClockOf(now)), FIVE_MINUTES)
  }

  // ---- The natural take-off time ---------------------------------------------------

  function Later(current: Clock, floor: Clock): Clock {
    if !IsAfterOrEqual(current, floor) then floor else current
  }

  function LaterOfAll(current: Clock, floors: seq<Clock>): Clock
    decreases |floors|
  {
    if floors == [] then current else LaterOfAll(Later(current, floors[0]), floors[1..])
  }

  function Floors(input: CalcInput, cfg: AirportConfig, now: Instant): seq<Clock> {
    [if input.who.manualCtot then input.manCtot else Absent, input.ctot, DelayFloor(cfg, input.who.depRwy, now)]
  }

  function Earliest(input: CalcInput): Clock {
    Shift(SelectBase(input), input.ExotSeconds())
  }

  function Unconstrained(input: CalcInput, cfg: AirportConfig, now: Instant): Clock {
    if SelectBase(input) == Absent then Absent else LaterOfAll(Earliest(input), Floors(input, cfg, now))
  }

  ghost predicate Dominates(c: Clock, all: seq<Clock>) {
    forall x :: x in all ==> IsAfterOrEqual(c, x)
  }

  /** A manual CTOT is the CTOT of the record. */
  predicate HasOneCtot(input: CalcInput) {
    input.who.manualCtot ==> input.manCtot == input.ctot
  }

  /** A CTOT exactly twelve hours from the ready time is after it as much as before it, and gives way to a delay that
      ends in the twelve hours from the ready time to the CTOT. */
  predicate CtotGivesWay(input: CalcInput, cfg: AirportConfig, now: Instant) {
    && Between(Earliest(input), input.ctot) == HALF_DAY
    && 0 < Between(Earliest(input), DelayFloor(cfg, input.who.depRwy, now)) < HALF_DAY
  }

  lemma FloorsInTurn(ready: Clock, m: Clock, c: Clock, d: Clock)
    requires ready.At? && (m == Absent || m == c)
    ensures LaterOfAll(ready, [m, c, d]) == Later(Later(ready, c), d)
  {
    assert [m, c, d][1..] == [c, d] && [c, d][1..] == [d] && [d][1..] == [];
    assert LaterOfAll(Later(Later(ready, c), d), []) == Later(Later(ready, c), d);
    assert LaterOfAll(Later(ready, c), [d]) == Later(Later(ready, c), d);
    assert Later(Later(ready, m), c) == Later(ready, c);
  }

  predicate AfterAll(w: Clock, ready: Clock, c: Clock, d: Clock) {
    IsAfterOrEqual(w, ready) && IsAfterOrEqual(w, c) && IsAfterOrEqual(w, d)
  }

  lemma LatestOfThree(ready: Clock, c: Clock, d: Clock)
    requires ready.At?
    ensures var w := Later(Later(ready, c), d);
            AfterAll(w, ready, c, d) <==>
            && (AfterAll(ready, ready, c, d) || (c.At? && AfterAll(c, ready, c, d))
                || (d.At? && AfterAll(d, ready, c, d)))
            && !(Between(ready, c) == HALF_DAY && 0 < Between(ready, d) < HALF_DAY)
  {
  }

  lemma DominatesIsAfterAll(w: Clock, ready: Clock, m: Clock, c: Clock, d: Clock)
    requires m == Absent || m == c
    ensures Dominates(w, [ready, m, c, d]) <==> AfterAll(w, ready, c, d)
  {
    var all := [ready, m, c, d];
    assert all[0] == ready && all[2] == c && all[3] == d;
  }

  lemma SomeIsLatest(ready: Clock, m: Clock, c: Clock, d: Clock)
    requires ready.At? && (m == Absent || m == c)
    ensures (exists w: Clock :: w.At? && w in [ready, m, c, d] && Dominates(w, [ready, m, c, d])) <==>
            AfterAll(ready, ready, c, d) || (c.At? && AfterAll(c, ready, c, d)) || (d.At? && AfterAll(d, ready, c, d))
  {
    var all := [ready, m, c, d];
    assert all[0] == ready && all[2] == c && all[3] == d;
    DominatesIsAfterAll(ready, ready, m, c, d);
    DominatesIsAfterAll(c, ready, m, c, d);
    DominatesIsAfterAll(d, ready, m, c, d);
  }

  /** The natural TTOT is at or after the ready time and every floor exactly when one of these clocks is at or after all
      the others, which on a circle can fail, and the CTOT does not give way. */
  lemma NaturalMeetsEveryFloor(input: CalcInput, cfg: AirportConfig, now: Instant)
    requires SelectBase(input).At? && HasOneCtot(input)
    ensures var all := [Earliest(input)] + Floors(input, cfg, now);
            Dominates(Unconstrained(input, cfg, now), all) <==>
            && (exists w: Clock :: w.At? && w in all && Dominates(w, all))
            && !CtotGivesWay(input, cfg, now)
  {
    var ready, c, d := Earliest(input), input.ctot, DelayFloor(cfg, input.who.depRwy, now);
    var all := [ready] + Floors(input, cfg, now);
    var m := if input.who.manualCtot then input.manCtot else Absent;
    FloorsInTurn(ready, m, c, d);
    LatestOfThree(ready, c, d);
    assert all == [ready, m, c, d];
    SomeIsLatest(ready, m, c, d);
    DominatesIsAfterAll(Unconstrained(input, cfg, now), ready, m, c, d);
  }

  /** Clocks within one arc shorter than twelve hours are ordered as on a line. */
  predicate InArc(origin: Second, c: Clock) {
    c.At? ==> 0 <= Between(At(origin), c) < HALF_DAY
  }

  lemma ArcIsALine(origin: Second, a: Clock, b: Clock)
    requires a.At? && b.At? && InArc(origin, a) && InArc(origin, b)
    ensures Between(a, b) == Between(At(origin), b) - Between(At(origin), a)
  {
    var x, y := Between(At(origin), a), Between(At(origin), b);
    BetweenIsTheShortWay(origin, a.sec, x);
    BetweenIsTheShortWay(origin, b.sec, y);
    ShiftsCompose(At(origin), x, y - x);
    BetweenIsTheShortWay(a.sec, b.sec, y - x);
  }

  lemma {:induction false} FoldRunsAlongTheArc(origin: Second, current: Clock, floors: seq<Clock>)
    requires current.At? && InArc(origin, current)
    requires forall x :: x in floors ==> InArc(origin, x)
    ensures var r := LaterOfAll(current, floors);
            r.At? && InArc(origin, r) && Dominates(r, [current] + floors)
    decreases |floors|
  {
    if floors != [] {
      var f := floors[0];
      var next := Later(current, f);
      FoldRunsAlongTheArc(origin, next, floors[1..]);
      var r := LaterOfAll(next, floors[1..]);
      assert next in [next] + floors[1..];
      ArcIsALine(origin, next, r);
      ArcIsALine(origin, current, r);
      if f.At? {
        ArcIsALine(origin, f, r);
        ArcIsALine(origin, f, current);
      }
      forall x | x in [current] + floors
        ensures IsAfterOrEqual(r, x)
      {
        assert x == current || x == f || x in [next] + floors[1..];
        ArcIsALine(origin, current, next);
      }
    }
  }

  /** When base, CTOTs and delay floor lie in one arc shorter than twelve hours, the natural TTOT
      is at or after all of them. */
  lemma NaturalIsLateEnough(input: CalcInput, cfg: AirportConfig, now: Instant, origin: Second)
    requires SelectBase(input).At?
    requires forall c :: c in [Earliest(input)] + Floors(input, cfg, now) ==> InArc(origin, c)
    ensures Dominates(Unconstrained(input, cfg, now), [Earliest(input)] + Floors(input, cfg, now))
  {
    assert Earliest(input) in [Earliest(input)] + Floors(input, cfg, now);
    FoldRunsAlongTheArc(origin, Earliest(input), Floors(input, cfg, now));
  }

  // ---- The assignment ------------------------------------------------------------------

  function Assignment(input: CalcInput, ttot: Clock, now: Instant): CalcResult {
    var tsat := Shift(ttot, -input.ExotSeconds());
    if StaleTsat(input, tsat, now) then NO_RESULT else CalcResult(tsat, ttot)
  }

  function Calculate(input: CalcInput, slots: seq<SlotEntry>, cfg: AirportConfig, now: Instant): Run<CalcResult> {
    if StaleTobt(input, now) then Ends(NO_RESULT)
    else match Unconstrained(input, cfg, now)
      case At(start) =>
        var k :- (match Bumps(start, input.who, slots, cfg) case Some(k) => Ends(k) case None => Hangs);
        Ends(Assignment(input, At(Point(start, k)), now))
      case _ => Ends(NO_RESULT)
  }

  lemma ShiftBack(c: Clock, seconds: int)
    ensures Shift(Shift(c, -seconds), seconds) == c
  {
    ShiftsCompose(c, -seconds, seconds);
    if c.At? {
      ShiftIsModular(c.sec, 0);
    }
  }

  lemma AssignmentAddsUp(input: CalcInput, ttot: Clock, now: Instant)
    requires ttot.At? && Assignment(input, ttot, now) != NO_RESULT
    ensures var r := Assignment(input, ttot, now);
            r.ttot == ttot && r.tsat.At? && Shift(r.tsat, input.ExotSeconds()) == ttot
  {
    ShiftBack(ttot, input.ExotSeconds());
  }

  /** A returned assignment is the natural TTOT after the least number of bumps that frees it, and TSAT
      plus taxi and de-icing time is the TTOT. */
  lemma AssignmentShape(input: CalcInput, slots: seq<SlotEntry>, cfg: AirportConfig, now: Instant)
    requires Calculate(input, slots, cfg, now).Ends? && Calculate(input, slots, cfg, now).value != NO_RESULT
    ensures Unconstrained(input, cfg, now).At? && Bumps(Unconstrained(input, cfg, now).sec, input.who, slots, cfg).Some?
    ensures var r := Calculate(input, slots, cfg, now).value;
            var start := Unconstrained(input, cfg, now).sec;
            && r.ttot == At(Point(start, Bumps(start, input.who, slots, cfg).value))
            && r.tsat.At? && Shift(r.tsat, input.ExotSeconds()) == r.ttot
  {
    var start := Unconstrained(input, cfg, now).sec;
    var k := Bumps(start, input.who, slots, cfg).value;
    AssignmentAddsUp(input, At(Point(start, k)), now);
  }

  /** A returned TTOT conflicts with no slot, and every half-minute before it back to the natural TTOT is blocked. */
  lemma CalculateIsSoundAndEarliest(input: CalcInput, slots: seq<SlotEntry>, cfg: AirportConfig, now: Instant)
    requires Calculate(input, slots, cfg, now).Ends? && Calculate(input, slots, cfg, now).value != NO_RESULT
    ensures var r := Calculate(input, slots, cfg, now).value;
            && (forall s :: s in slots ==> !Conflicts(SlotEntry(input.who, r.ttot), s, cfg))
            && Unconstrained(input, cfg, now).At?
            && exists k: nat :: k < GRID && r.ttot == At(Point(Unconstrained(input, cfg, now).sec, k))
                 && forall j: nat :: j < k ==>
                      Blocked(Point(Unconstrained(input, cfg, now).sec, j), input.who, slots, cfg)
  {
    AssignmentShape(input, slots, cfg, now);
    var start := Unconstrained(input, cfg, now).sec;
    RestsOnTheFirstFreePoint(start, input.who, slots, cfg);
    BlockedBySome(Calculate(input, slots, cfg, now).value.ttot.sec, input.who, slots, cfg);
  }

  lemma CalculateIgnoresListing(input: CalcInput, a: seq<SlotEntry>, b: seq<SlotEntry>, cfg: AirportConfig,
                                now: Instant)
    requires forall s :: s in a <==> s in b
    ensures Calculate(input, a, cfg, now) == Calculate(input, b, cfg, now)
  {
    if Unconstrained(input, cfg, now).At? {
      SearchIgnoresListing(Unconstrained(input, cfg, now).sec, input.who, a, b, cfg);
    }
  }

  /** The loop of the calculation ends when the slots cannot block the whole circle. */
  lemma CalculateEnds(input: CalcInput, slots: seq<SlotEntry>, cfg: AirportConfig, now: Instant)
    requires |slots| * Spread(WidestWindow(cfg, input.who.depRwy)) < GRID
    ensures Calculate(input, slots, cfg, now).Ends?
  {
    if Unconstrained(input, cfg, now).At? {
      FewSlotsLeaveAFreePoint(Unconstrained(input, cfg, now).sec, input.who, slots, cfg);
    }
  }

  // ---- The loop ---------------------------------------------------------------------------

  /** The entries of the first `k` bumps. */
  function TraceTo(start: Second, k: nat, who: Profile, slots: seq<SlotEntry>, cfg: AirportConfig): seq<TraceEntry> {
    if k == 0 then []
    else TraceTo(start, k - 1, who, slots, cfg) +
         (match BumpAt(Point(start, k - 1), who, slots, cfg) case Some(e) => [e] case None => [])
  }

  function Trace(input: CalcInput, slots: seq<SlotEntry>, cfg: AirportConfig, now: Instant): seq<TraceEntry> {
    if StaleTobt(input, now) then []
    else match Unconstrained(input, cfg, now)
      case At(start) =>
        (match Bumps(start, input.who, slots, cfg)
         case Some(k) => TraceTo(start, k, input.who, slots, cfg)
         case None => [])
      case _ => []
  }

  lemma NextPoint(start: Second, k: nat)
    ensures Shift(At(Point(start, k)), STEP) == At(Point(start, k + 1))
  {
    ShiftIsModular(Point(start, k), STEP);
    ModAbsorbs(start + STEP * k, STEP);
    assert start + STEP * k + STEP == start + STEP * (k + 1);
  }

  lemma StopsAt(free: nat -> bool, k: nat)
    requires k <= GRID && forall j: nat :: j < k ==> !free(j)
    requires k == GRID || free(k)
    ensures FirstFree(free, 0) == if k == GRID then None else Some(k)
  {
    FirstFreeIsLeast(free, 0);
  }

  /** One scan over the slots: the first that conflicts with `ttot` decides the next bump. */
  method FirstConflict(ttot: Second, who: Profile, slots: seq<SlotEntry>, cfg: AirportConfig)
    returns (entry: Option<TraceEntry>)
    ensures entry == BumpAt(ttot, who, slots, cfg)
    ensures entry.Some? ==> entry.value.to == Shift(At(ttot), STEP)
  {
    for i := 0 to |slots|
      invariant BumpAt(ttot, who, slots, cfg) == BumpAt(ttot, who, slots[i..], cfg)
    {
      var slot := slots[i];
      var verdict := Judge(ttot, who, slot, cfg);
      if verdict.Bump? {
        return Some(TraceEntry(verdict.kind, slot.who.callsign, slot.ttot, slot.who.depRwy, slot.who.sid,
                               verdict.spacing, At(ttot), Shift(At(ttot), STEP)));
      }
    }
    return None;
  }

  /** The search loop. Once round the circle it is back where it started with the same slots, so the
      loop would never end: the model then returns `Hangs`. */
  method SearchFrom(start: Second, who: Profile, slots: seq<SlotEntry>, cfg: AirportConfig)
    returns (rest: Run<Second>, trace: seq<TraceEntry>)
    ensures rest == match Bumps(start, who, slots, cfg) case Some(k) => Ends(Point(start, k)) case None => Hangs
    ensures rest.Ends? ==> trace == TraceTo(start, Bumps(start, who, slots, cfg).value, who, slots, cfg)
  {
    trace := [];
    var ttot: Second := start;
    var bumps := 0;
    ghost var free := FreePoints(start, who, slots, cfg);
    assert Point(start, 0) == start;
    while bumps < GRID
      invariant bumps <= GRID && ttot == Point(start, bumps)
      invariant forall j: nat :: j < bumps ==> !free(j)
      invariant trace == TraceTo(start, bumps, who, slots, cfg)
      decreases GRID - bumps
    {
      var entry := FirstConflict(ttot, who, slots, cfg);
      if entry.None? {
        assert free(bumps);
        StopsAt(free, bumps);
        return Ends(ttot), trace;
      }
      assert !free(bumps);
      NextPoint(start, bumps);
      trace := trace + [entry.value];
      ttot := entry.value.to.sec;
      bumps := bumps + 1;
    }
    StopsAt(free, GRID);
    return Hangs, trace;
  }

  method CalculateWithTrace(input: CalcInput, slots: seq<SlotEntry>, cfg: AirportConfig, now: Instant)
    returns (result: Run<CalcResult>, trace: seq<TraceEntry>)
    ensures result == Calculate(input, slots, cfg, now)
    ensures result.Ends? ==> trace == Trace(input, slots, cfg, now)
  {
    if StaleTobt(input, now) {
      return Ends(NO_RESULT), [];
    }
    var natural := Unconstrained(input, cfg, now);
    if !natural.At? {
      return Ends(NO_RESULT), [];
    }
    var rest;
    rest, trace := SearchFrom(natural.sec, input.who, slots, cfg);
    if rest.Hangs? {
      return Hangs, trace;
    }
    result := Ends(Assignment(input, At(rest.value), now));
  }
}
