/** When one slot moves a flight, in seconds, and what a bump says: the tests of the search loop and the entries of its
    trace, on one runway and across dependent ones. */
module Verdicts {
  import opened Text
  import opened Clock
  import opened Config
  import opened Lookups
  import opened Separation
  import opened Search

  // ---- The rules in seconds --------------------------------------------------------------

  /** Seconds between two take-offs, whichever is first. */
  function Gap(t: Second, slot: SlotEntry): nat {
    Abs(Between(At(t), slot.ttot))
  }

  /** Two flights for one place, which is known. */
  predicate SamePlace(a: string, b: string) {
    Upper(Trim(a)) != "" && Upper(Trim(a)) == Upper(Trim(b))
  }

  /** The slot is at the same airport and of another flight. */
  predicate Counts(who: Profile, slot: SlotEntry) {
    && Upper(Trim(slot.who.origin)) == Upper(Trim(who.origin))
    && Upper(Trim(slot.who.callsign)) != Upper(Trim(who.callsign))
  }

  /** The minutes behind or ahead of the slot that wake turbulence asks for. */
  function WakeNeeded(t: Second, who: Profile, slot: SlotEntry): int {
    if Between(slot.ttot, At(t)) >= 0 then WakeMinutes(who.wakeCat, slot.who.wakeCat)
    else WakeMinutes(slot.who.wakeCat, who.wakeCat)
  }

  /** Every rule between the two flights is kept: three minutes to one destination; and, where they share capacity, not
      one time, the hourly rate if both or neither have a manual CTOT, the SID interval, and on one runway the wake
      minutes. */
  predicate KeepsRules(t: Second, who: Profile, slot: SlotEntry, cfg: AirportConfig) {
    && (SamePlace(who.destination, slot.who.destination) ==> Gap(t, slot) >= 180)
    && (SameOrDependentRunway(cfg, who.depRwy, slot.who.depRwy) ==>
          && Gap(t, slot) > 0
          && (who.manualCtot == slot.who.manualCtot ==> Gap(t, slot) * RateForRunway(cfg, who.depRwy) >= 3600)
          && Gap(t, slot) as real >= SidIntervalSeconds(cfg, who.depRwy, who.sid, slot.who.sid)
          && (Upper(Trim(who.depRwy)) == Upper(Trim(slot.who.depRwy)) ==>
                Gap(t, slot) >= 60 * WakeNeeded(t, who, slot)))
  }

  lemma RateInSeconds(gap: nat, rate: int)
    requires rate > 0
    ensures gap as real < 3600.0 / rate as real <==> gap * rate < 3600
    ensures 3600.0 / rate as real * rate as real == 3600.0
  {
    var window := 3600.0 / rate as real;
    assert window * rate as real == 3600.0;
    if gap as real < window {
      assert gap as real * rate as real < window * rate as real;
    } else {
      assert gap as real * rate as real >= window * rate as real;
    }
    assert (gap * rate) as real == gap as real * rate as real;
  }

  lemma NamesInPlain(who: Profile, slot: SlotEntry)
    ensures Counts(who, slot) <==>
            Token(slot.who.origin) == Token(who.origin) && Token(slot.who.callsign) != Token(who.callsign)
    ensures SamePlace(who.destination, slot.who.destination) <==> SameDestination(who.destination, slot.who.destination)
    ensures Upper(Trim(who.depRwy)) == Upper(Trim(slot.who.depRwy)) <==> SameRunway(who.depRwy, slot.who.depRwy)
  {
    TokenIsUpperTrim(slot.who.origin);
    TokenIsUpperTrim(who.origin);
    TokenIsUpperTrim(slot.who.callsign);
    TokenIsUpperTrim(who.callsign);
    TokenIsUpperTrim(who.destination);
    TokenIsUpperTrim(slot.who.destination);
    TokenIsUpperTrim(who.depRwy);
    TokenIsUpperTrim(slot.who.depRwy);
  }

  lemma GapInSeconds(t: Second, slot: SlotEntry)
    requires slot.ttot.At?
    ensures Gap(t, slot) == Abs(Between(slot.ttot, At(t))) && (Gap(t, slot) == 0 <==> slot.ttot == At(t))
  {
    BetweenRange(At(t), slot.ttot);
  }

  /** A slot lets a flight take off at a time exactly when the slot does not count or every rule is kept. */
  lemma FreeExactlyWhenRulesAreKept(t: Second, who: Profile, slot: SlotEntry, cfg: AirportConfig)
    requires slot.ttot.At?
    ensures Judge(t, who, slot, cfg).Free? <==> !Counts(who, slot) || KeepsRules(t, who, slot, cfg)
  {
    NamesInPlain(who, slot);
    GapInSeconds(t, slot);
    RateInSeconds(Gap(t, slot), RateForRunway(cfg, who.depRwy));
  }

  /** A slot without a readable time moves nobody. */
  lemma UnreadableSlotsAreFree(t: Second, who: Profile, slot: SlotEntry, cfg: AirportConfig)
    requires !slot.ttot.At?
    ensures Judge(t, who, slot, cfg).Free?
  {
  }

  // ---- What a bump says ------------------------------------------------------------------------

  /** The rule that a bump names is broken, and the spacing it reports is what the rule asks for. */
  predicate Explains(kind: Kind, spacing: real, t: Second, who: Profile, slot: SlotEntry, cfg: AirportConfig) {
    match kind
    case SameDestinationSeparation =>
      SamePlace(who.destination, slot.who.destination) && Gap(t, slot) < 180 && spacing == 180.0
    case RunwaySlotCollision => Gap(t, slot) == 0 && spacing == 0.0
    case RunwayRateWindow =>
      && who.manualCtot == slot.who.manualCtot && Gap(t, slot) * RateForRunway(cfg, who.depRwy) < 3600
      && spacing * RateForRunway(cfg, who.depRwy) as real == 3600.0
    case WakeSeparation =>
      && Upper(Trim(who.depRwy)) == Upper(Trim(slot.who.depRwy))
      && Gap(t, slot) < 60 * WakeNeeded(t, who, slot) && spacing == (60 * WakeNeeded(t, who, slot)) as real
    case SidSpacing =>
      Gap(t, slot) as real < spacing && spacing == SidIntervalSeconds(cfg, who.depRwy, who.sid, slot.who.sid)
    case RunwaySpacing => false
  }

  lemma RateBumpExplains(t: Second, who: Profile, slot: SlotEntry, cfg: AirportConfig)
    requires slot.ttot.At? && Judge(t, who, slot, cfg).Bump? && Judge(t, who, slot, cfg).kind == RunwayRateWindow
    ensures var v := Judge(t, who, slot, cfg); Explains(v.kind, v.spacing, t, who, slot, cfg)
  {
    GapInSeconds(t, slot);
    RateInSeconds(Gap(t, slot), RateForRunway(cfg, who.depRwy));
  }

  /** Of the broken rules the search names the first in this order. */
  function Urgency(kind: Kind): nat {
    match kind
    case SameDestinationSeparation => 0
    case RunwaySlotCollision => 1
    case RunwayRateWindow => 2
    case WakeSeparation => 3
    case SidSpacing => 4
    case RunwaySpacing => 5
  }

  lemma BumpNamesItsRule(t: Second, who: Profile, slot: SlotEntry, cfg: AirportConfig)
    requires Judge(t, who, slot, cfg).Bump?
    ensures var v := Judge(t, who, slot, cfg);
            && slot.ttot.At? && Counts(who, slot) && Explains(v.kind, v.spacing, t, who, slot, cfg)
            && (v.kind != SameDestinationSeparation ==> SameOrDependentRunway(cfg, who.depRwy, slot.who.depRwy))
  {
    NamesInPlain(who, slot);
    if !slot.ttot.At? {
      UnreadableSlotsAreFree(t, who, slot, cfg);
    }
    GapInSeconds(t, slot);
    if Judge(t, who, slot, cfg).kind == RunwayRateWindow {
      RateBumpExplains(t, who, slot, cfg);
    }
  }

  lemma BumpNamesTheMostUrgent(t: Second, who: Profile, slot: SlotEntry, cfg: AirportConfig, kind: Kind, spacing: real)
    requires Judge(t, who, slot, cfg).Bump? && Urgency(kind) < Urgency(Judge(t, who, slot, cfg).kind)
    ensures !Explains(kind, spacing, t, who, slot, cfg)
  {
    NamesInPlain(who, slot);
    if !slot.ttot.At? {
      UnreadableSlotsAreFree(t, who, slot, cfg);
    }
    GapInSeconds(t, slot);
    RateInSeconds(Gap(t, slot), RateForRunway(cfg, who.depRwy));
  }

  /** The search is moved by the first slot in the list that does not let it pass; the entry names that slot's flight,
      time, runway and SID, the rule and its spacing, and the half-minute step. */
  lemma {:induction false} BumpIsByTheFirst(t: Second, who: Profile, slots: seq<SlotEntry>, cfg: AirportConfig, n: nat)
    requires n < |slots| && Judge(t, who, slots[n], cfg).Bump?
    requires forall m :: 0 <= m < n ==> Judge(t, who, slots[m], cfg).Free?
    ensures var v, slot := Judge(t, who, slots[n], cfg), slots[n];
            && BumpAt(t, who, slots, cfg).Some?
            && var e := BumpAt(t, who, slots, cfg).value;
               && e.kind == v.kind && e.spacing == v.spacing && e.callsign == slot.who.callsign && e.ttot == slot.ttot
               && e.runway == slot.who.depRwy && e.sid == slot.who.sid && e.from == At(t)
               && e.to == At((t + 30) % 86_400)
  {
    if n > 0 {
      assert slots[1..][n - 1] == slots[n];
      assert forall m :: 0 <= m < n - 1 ==> slots[1..][m] == slots[m + 1];
      BumpIsByTheFirst(t, who, slots[1..], cfg, n - 1);
    } else {
      ShiftIsModular(t, STEP);
    }
  }

  /** The points of the search are half a minute apart, all around the clock. */
  lemma PointsInSeconds(start: Second, k: nat)
    ensures At(Point(start, k)) == Shift(At(start), 30 * k)
    ensures 30 * GRID == 86_400
  {
    ShiftIsModular(start, 30 * k);
  }
}
