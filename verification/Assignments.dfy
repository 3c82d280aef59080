/** What the calculation assigns, in the fields of its input and in seconds. */
module Assignments {
  import opened Text
  import opened Clock
  import opened Config
  import opened Lookups
  import opened Separation
  import opened Search
  import opened Verdicts
  import opened Departure

  /** Seconds from the TOBT to the runway. */
  function OnTheWay(input: CalcInput): int {
    60 * input.taxiMin + 60 * input.deIceMin + 60 * input.deiceTaxiMin
  }

  /** A flight is ready for take-off that long after its TOBT or, without one, after its EOBT. */
  lemma ReadyAfterTaxiing(input: CalcInput)
    ensures Earliest(input) == Shift(if input.tobt != Absent then input.tobt else input.eobt, OnTheWay(input))
  {
  }

  /** An unstarted flight's time is out of date more than five minutes after it. */
  predicate OutOfDate(input: CalcInput, time: Clock, now: Instant) {
    input.asat == Absent && input.aobt == Absent && Between(time, At(ClockOf(now))) > 300
  }

  lemma OutOfDateMeansStale(input: CalcInput, time: Clock, now: Instant)
    ensures OutOfDate(input, time, now) <==> StaleTsat(input, time, now)
    ensures OutOfDate(input, input.tobt, now) <==> StaleTobt(input, now)
  {
  }

  /** The slot of a flight that is not this one stands in the way at a time. */
  ghost predicate InTheWay(t: Clock, input: CalcInput, slots: seq<SlotEntry>, cfg: AirportConfig) {
    t.At? && exists s :: s in slots && s.ttot.At? && Counts(input.who, s) && !KeepsRules(t.sec, input.who, s, cfg)
  }

  lemma InTheWayIsBlocked(t: Second, input: CalcInput, slots: seq<SlotEntry>, cfg: AirportConfig)
    ensures InTheWay(At(t), input, slots, cfg) <==> Blocked(t, input.who, slots, cfg)
  {
    BlockedBySome(t, input.who, slots, cfg);
    forall s | s in slots
      ensures Judge(t, input.who, s, cfg).Bump? <==>
              s.ttot.At? && Counts(input.who, s) && !KeepsRules(t, input.who, s, cfg)
    {
      if s.ttot.At? {
        FreeExactlyWhenRulesAreKept(t, input.who, s, cfg);
      } else {
        UnreadableSlotsAreFree(t, input.who, s, cfg);
      }
    }
  }

  /** The first time at which nothing stands in the way, of the natural time and all times whole half-minutes after
      it. */
  ghost predicate IsFirstChance(t: Clock, k: nat, natural: Clock, input: CalcInput, slots: seq<SlotEntry>,
                                cfg: AirportConfig)
  {
    && t == Shift(natural, 30 * k) && !InTheWay(t, input, slots, cfg)
    && forall j: nat :: j < k ==> InTheWay(Shift(natural, 30 * j), input, slots, cfg)
  }

  /** The calculation assigns nothing if the TOBT is out of date, if there is no natural time, or if the TSAT that the
      first chance would need is out of date. Otherwise TTOT is the first chance, and TSAT the time it takes to get
      there before. */
  lemma AssignsTheFirstChance(input: CalcInput, slots: seq<SlotEntry>, cfg: AirportConfig, now: Instant, k: nat)
    requires var natural := Unconstrained(input, cfg, now);
             natural.At? ==> IsFirstChance(Shift(natural, 30 * k), k, natural, input, slots, cfg)
    ensures var natural := Unconstrained(input, cfg, now);
            var ttot, tsat := Shift(natural, 30 * k), Shift(natural, 30 * k - OnTheWay(input));
            Calculate(input, slots, cfg, now) ==
            Ends(if OutOfDate(input, input.tobt, now) || !natural.At? || OutOfDate(input, tsat, now)
                 then CalcResult(Absent, Absent) else CalcResult(tsat, ttot))
  {
    var natural := Unconstrained(input, cfg, now);
    OutOfDateMeansStale(input, input.tobt, now);
    if natural.At? {
      FirstChanceIsFound(natural.sec, input, slots, cfg, k);
      AssignmentInSeconds(natural.sec, input, k, now);
    }
  }

  lemma AssignmentInSeconds(start: Second, input: CalcInput, k: nat, now: Instant)
    ensures var tsat := Shift(At(start), 30 * k - OnTheWay(input));
            Assignment(input, At(Point(start, k)), now) ==
            if OutOfDate(input, tsat, now) then CalcResult(Absent, Absent)
            else CalcResult(tsat, Shift(At(start), 30 * k))
  {
    PointsInSeconds(start, k);
    ShiftsCompose(At(start), 30 * k, -OnTheWay(input));
    assert input.ExotSeconds() == OnTheWay(input);
    OutOfDateMeansStale(input, Shift(At(start), 30 * k - OnTheWay(input)), now);
  }

  lemma FirstChanceIsFound(start: Second, input: CalcInput, slots: seq<SlotEntry>, cfg: AirportConfig, k: nat)
    requires IsFirstChance(Shift(At(start), 30 * k), k, At(start), input, slots, cfg)
    ensures Bumps(start, input.who, slots, cfg) == Some(k)
  {
    var free := FreePoints(start, input.who, slots, cfg);
    forall j: nat | j <= k
      ensures free(j) <==> j == k
    {
      PointsInSeconds(start, j);
      InTheWayIsBlocked(Point(start, j), input, slots, cfg);
    }
    assert free(k);
    EndsExactlyWhenAPointIsFree(start, input.who, slots, cfg);
    RestsOnTheFirstFreePoint(start, input.who, slots, cfg);
    FirstFreeIsLeast(free, 0);
    var r := Bumps(start, input.who, slots, cfg).value;
    assert free(r);
  }
}
