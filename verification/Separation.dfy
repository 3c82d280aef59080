/** When a candidate take-off time conflicts with an occupied slot: the tests inside the
    search loop of backend/internal/cdm/calculate.go, and what they mean for a pair of slots. */
module Separation {
  import opened Text
  import opened Clock
  import opened Config

  const SAME_DESTINATION_SECONDS := 180.0

  /** What the spacing rules look at in a flight. */
  datatype Profile = Profile(callsign: string, origin: string, destination: string, depRwy: string,
                             sid: string, wakeCat: string, manualCtot: bool)

  datatype SlotEntry = SlotEntry(who: Profile, ttot: Clock)

  /** `RunwaySpacing` is what trace compaction calls a collision or rate-window bump. */
  datatype Kind =
    | SameDestinationSeparation
    | RunwaySlotCollision
    | RunwayRateWindow
    | WakeSeparation
    | SidSpacing
    | RunwaySpacing

  datatype Verdict = Free | Bump(kind: Kind, spacing: real)

  predicate Within(candidate: Clock, slot: Clock, window: real) {
    window > 0.0 && var d := Abs(Between(slot, candidate)); d > 0 && d as real < window
  }

  predicate SameDestination(a: string, b: string) {
    Token(a) != "" && Token(a) == Token(b)
  }

  predicate TooCloseToSameDestination(candidate: Clock, destination: string, slot: SlotEntry) {
    && SameDestination(destination, slot.who.destination)
    && (slot.ttot == candidate || Within(candidate, slot.ttot, SAME_DESTINATION_SECONDS))
  }

  function RateWindow(cfg: AirportConfig, depRwy: string): real {
    3600.0 / RateForRunway(cfg, depRwy) as real
  }

  predicate RateWindowApplies(current: bool, existing: bool) {
    current == existing || (!current && !existing)
  }

  function WakeWindow(candidate: Clock, who: Profile, slot: SlotEntry): real {
    60.0 * (if IsAfterOrEqual(candidate, slot.ttot) then WakeMinutes(who.wakeCat, slot.who.wakeCat)
            else WakeMinutes(slot.who.wakeCat, who.wakeCat)) as real
  }

  /** The first test of the search loop that moves flight `who` away from time `t` because of `slot`. */
  function Judge(t: Second, who: Profile, slot: SlotEntry, cfg: AirportConfig): Verdict {
    var c := At(t);
    if Token(slot.who.origin) != Token(who.origin) || Token(slot.who.callsign) == Token(who.callsign) then Free
    else if TooCloseToSameDestination(c, who.destination, slot) then
      Bump(SameDestinationSeparation, SAME_DESTINATION_SECONDS)
    else if !SameOrDependentRunway(cfg, who.depRwy, slot.who.depRwy) then Free
    else if slot.ttot == c then Bump(RunwaySlotCollision, 0.0)
    else if RateWindowApplies(who.manualCtot, slot.who.manualCtot)
            && Within(c, slot.ttot, RateWindow(cfg, who.depRwy)) then
      Bump(RunwayRateWindow, RateWindow(cfg, who.depRwy))
    else if SameRunway(who.depRwy, slot.who.depRwy) && Within(c, slot.ttot, WakeWindow(c, who, slot)) then
      Bump(WakeSeparation, WakeWindow(c, who, slot))
    else
      var interval := SidIntervalSeconds(cfg, who.depRwy, who.sid, slot.who.sid);
      if Within(c, slot.ttot, interval) then Bump(SidSpacing, interval) else Free
  }

  predicate Conflicts(e: SlotEntry, slot: SlotEntry, cfg: AirportConfig) {
    e.ttot.At? && Judge(e.ttot.sec, e.who, slot, cfg).Bump?
  }

  // ---- The spacing two flights really keep -----------------------------------------

  /** The spacing minima between two departures, stated on the pair and in their actual order. */
  predicate Spaced(a: SlotEntry, b: SlotEntry, cfg: AirportConfig) {
    var gap := Abs(Between(a.ttot, b.ttot)) as real;
    && (SameDestination(a.who.destination, b.who.destination) ==> gap >= SAME_DESTINATION_SECONDS)
    && (SameRunway(a.who.depRwy, b.who.depRwy) ==>
          && gap > 0.0
          && (a.who.manualCtot == b.who.manualCtot ==> gap >= RateWindow(cfg, a.who.depRwy))
          && (Between(a.ttot, b.ttot) > 0 ==> gap >= 60.0 * WakeMinutes(b.who.wakeCat, a.who.wakeCat) as real)
          && (Between(a.ttot, b.ttot) < 0 ==> gap >= 60.0 * WakeMinutes(a.who.wakeCat, b.who.wakeCat) as real)
          && gap >= SidIntervalSeconds(cfg, a.who.depRwy, a.who.sid, b.who.sid))
  }

  /** Off dependent runways, the loop's tests pass exactly when the pair keeps its minima. */
  lemma FreeExactlyWhenSpaced(t: Second, who: Profile, slot: SlotEntry, cfg: AirportConfig)
    requires slot.ttot.At?
    requires Token(slot.who.origin) == Token(who.origin) && Token(slot.who.callsign) != Token(who.callsign)
    requires SameOrDependentRunway(cfg, who.depRwy, slot.who.depRwy) ==> SameRunway(who.depRwy, slot.who.depRwy)
    ensures Judge(t, who, slot, cfg).Free? <==> Spaced(SlotEntry(who, At(t)), slot, cfg)
  {
    BetweenRange(At(t), slot.ttot);
  }

  // ---- One runway under two names ------------------------------------------------------

  function Ceil(x: real): nat {
    if x <= 0.0 then 0 else if x.Floor as real == x then x.Floor else x.Floor + 1
  }

  function MaxNat(a: nat, b: nat): nat {
    if a < b then b else a
  }

  lemma CeilIsLeast(x: real, gap: nat)
    ensures gap as real >= x <==> gap >= Ceil(x)
  {
  }

  /** The whole seconds that flight `who` keeps from `other` by the rate and the SID intervals that its own runway name
      is given. Names are looked up as written, so two names of one runway may be given different ones. */
  function OwnWindow(cfg: AirportConfig, who: Profile, other: Profile): nat {
    MaxNat(if who.manualCtot == other.manualCtot then Ceil(RateWindow(cfg, who.depRwy)) else 0,
           Ceil(SidIntervalSeconds(cfg, who.depRwy, who.sid, other.sid)))
  }

  /** All that flight `who` keeps from `other` on one runway, if wake turbulence asks for `wake` minutes. */
  function MustKeep(cfg: AirportConfig, who: Profile, other: Profile, wake: nat): nat {
    MaxNat(MaxNat(1, 60 * wake),
           MaxNat(if SameDestination(who.destination, other.destination) then 180 else 0, OwnWindow(cfg, who, other)))
  }

  /** The wake minutes of a pair in its actual order. */
  function WakeApart(a: SlotEntry, b: SlotEntry): (w: nat)
    ensures w <= 3
  {
    if Between(a.ttot, b.ttot) > 0 then WakeMinutes(b.who.wakeCat, a.who.wakeCat)
    else if Between(a.ttot, b.ttot) < 0 then WakeMinutes(a.who.wakeCat, b.who.wakeCat)
    else 0
  }

  lemma SpacedIsAGap(a: SlotEntry, b: SlotEntry, cfg: AirportConfig)
    requires SameRunway(a.who.depRwy, b.who.depRwy)
    ensures Spaced(a, b, cfg) <==> Abs(Between(a.ttot, b.ttot)) >= MustKeep(cfg, a.who, b.who, WakeApart(a, b))
  {
    var gap := Abs(Between(a.ttot, b.ttot));
    CeilIsLeast(RateWindow(cfg, a.who.depRwy), gap);
    CeilIsLeast(SidIntervalSeconds(cfg, a.who.depRwy, a.who.sid, b.who.sid), gap);
  }

  /** What the later flight must keep, which no distance on the clock may satisfy, covers the earlier one's own
      window. */
  predicate Covers(cfg: AirportConfig, later: Profile, earlier: Profile, wake: nat) {
    || MustKeep(cfg, later, earlier, wake) > HALF_DAY
    || OwnWindow(cfg, earlier, later) <= MustKeep(cfg, later, earlier, wake)
  }

  /** Whichever of the two takes off first, the flight that is placed later keeps at least what the other would. */
  predicate KeepsBoth(cfg: AirportConfig, later: Profile, earlier: Profile) {
    && Covers(cfg, later, earlier, WakeMinutes(later.wakeCat, earlier.wakeCat))
    && Covers(cfg, later, earlier, WakeMinutes(earlier.wakeCat, later.wakeCat))
  }

  lemma OneKeepsBoth(later: SlotEntry, earlier: SlotEntry, cfg: AirportConfig)
    requires SameRunway(later.who.depRwy, earlier.who.depRwy) && KeepsBoth(cfg, later.who, earlier.who)
    requires Spaced(later, earlier, cfg)
    ensures Spaced(earlier, later, cfg)
  {
    SpacedIsAGap(later, earlier, cfg);
    SpacedIsAGap(earlier, later, cfg);
    BetweenRange(later.ttot, earlier.ttot);
    BetweenRange(earlier.ttot, later.ttot);
  }

  /** Wherever the earlier flight is, the later one can keep its minima and break the earlier one's. */
  lemma OneBreaksTheOther(cfg: AirportConfig, later: Profile, earlier: Profile, t: Second) returns (s: Second)
    requires SameRunway(later.depRwy, earlier.depRwy) && !KeepsBoth(cfg, later, earlier)
    ensures Spaced(SlotEntry(later, At(s)), SlotEntry(earlier, At(t)), cfg)
    ensures !Spaced(SlotEntry(earlier, At(t)), SlotEntry(later, At(s)), cfg)
  {
    var behind := !Covers(cfg, later, earlier, WakeMinutes(later.wakeCat, earlier.wakeCat));
    var wake := if behind then WakeMinutes(later.wakeCat, earlier.wakeCat)
                else WakeMinutes(earlier.wakeCat, later.wakeCat);
    var gap := MustKeep(cfg, later, earlier, wake);
    s := if behind then (t + gap) % DAY else (t - gap) % DAY;
    var l, e := SlotEntry(later, At(s)), SlotEntry(earlier, At(t));
    SpacedIsAGap(l, e, cfg);
    SpacedIsAGap(e, l, cfg);
    ShortOfHalfADay(t, s, gap, behind);
  }

  lemma ShortOfHalfADay(t: Second, s: Second, gap: nat, behind: bool)
    requires 0 < gap <= HALF_DAY && s == if behind then (t + gap) % DAY else (t - gap) % DAY
    ensures Abs(Between(At(t), At(s))) == Abs(Between(At(s), At(t))) == gap
    ensures gap < HALF_DAY ==> (Between(At(s), At(t)) < 0 <==> behind)
    ensures gap < HALF_DAY ==> Between(At(t), At(s)) == -Between(At(s), At(t))
  {
  }

  /** Exactly then does every placement of a flight that keeps its own minima keep the other one's too. */
  lemma KeepsBothExactlyWhen(cfg: AirportConfig, later: Profile, earlier: Profile)
    requires SameRunway(later.depRwy, earlier.depRwy)
    ensures KeepsBoth(cfg, later, earlier) <==>
            forall s: Second, t: Second :: Spaced(SlotEntry(later, At(s)), SlotEntry(earlier, At(t)), cfg) ==>
                                             Spaced(SlotEntry(earlier, At(t)), SlotEntry(later, At(s)), cfg)
  {
    if KeepsBoth(cfg, later, earlier) {
      forall s: Second, t: Second | Spaced(SlotEntry(later, At(s)), SlotEntry(earlier, At(t)), cfg)
        ensures Spaced(SlotEntry(earlier, At(t)), SlotEntry(later, At(s)), cfg)
      {
        OneKeepsBoth(SlotEntry(later, At(s)), SlotEntry(earlier, At(t)), cfg);
      }
    } else {
      var s := OneBreaksTheOther(cfg, later, earlier, 0);
    }
  }

  /** Names that agree up to case are given the same rate and SID interval, so one flight's minima are the other's. */
  lemma NamesAlikeKeepBoth(cfg: AirportConfig, later: Profile, earlier: Profile)
    requires FoldEq(later.depRwy, earlier.depRwy)
    ensures KeepsBoth(cfg, later, earlier)
  {
    RateIgnoresCase(cfg.rates, later.depRwy, earlier.depRwy, cfg);
    IntervalIsSymmetric(cfg.sidIntervals, later.depRwy, earlier.depRwy, later.sid, earlier.sid);
  }

  // ---- How far a slot reaches ----------------------------------------------------------

  function WidestInterval(list: seq<SidInterval>): nat {
    if list == [] then 0 else MaxNat(Ceil(list[0].seconds), WidestInterval(list[1..]))
  }

  /** No slot pushes a flight on this runway further away than this many seconds. */
  function WidestWindow(cfg: AirportConfig, depRwy: string): nat {
    MaxNat(180, MaxNat(Ceil(RateWindow(cfg, depRwy)), WidestInterval(cfg.sidIntervals)))
  }

  lemma {:induction false} IntervalIsBounded(list: seq<SidInterval>, depRwy: string, sid1: string, sid2: string)
    ensures IntervalAmong(list, depRwy, sid1, sid2) <= WidestInterval(list) as real
  {
    if list != [] {
      IntervalIsBounded(list[1..], depRwy, sid1, sid2);
    }
  }

  lemma ConflictIsNear(t: Second, who: Profile, slot: SlotEntry, cfg: AirportConfig)
    requires Judge(t, who, slot, cfg).Bump?
    ensures slot.ttot.At?
    ensures slot.ttot == At(t) || Abs(Between(slot.ttot, At(t))) < WidestWindow(cfg, who.depRwy)
  {
    IntervalIsBounded(cfg.sidIntervals, who.depRwy, who.sid, slot.who.sid);
  }
}
