/** Airport configuration lookups of backend/internal/cdm/config.go, the wake table of
    wake_spacing.go and the departure delay floors of adverse_conditions.go. */
module Config {
  import opened Text
  import opened Clock

  const DEFAULT_RATE := 20
  const DEFAULT_RATE_LVO := 14

  /** Rate texts are held as numbers; zero or less stands for text that is not a positive number. */
  datatype CdmRate = CdmRate(airport: string, arrRwyYes: seq<string>, arrRwyNo: seq<string>,
                             depRwyYes: seq<string>, depRwyNo: seq<string>, dependentRwy: seq<string>,
                             rates: seq<int>, ratesLvo: seq<int>)

  /** `seconds` is the configured interval. */
  datatype SidInterval = SidInterval(runway: string, sid1: string, sid2: string, seconds: real)

  datatype Delay = Delay(airport: string, runway: string, time: Clock)

  datatype AirportConfig = AirportConfig(airport: string, rates: seq<CdmRate>, sidIntervals: seq<SidInterval>,
                                         delays: seq<Delay>, defaultRate: int, defaultRateLvo: int, lvoActive: bool,
                                         activeArrivals: seq<string>, activeDepartures: seq<string>)

  predicate FoldEq(a: string, b: string) {
    Upper(a) == Upper(b)
  }

  predicate SameRunway(a: string, b: string) {
    Token(a) == Token(b)
  }

  // ---- Runway rates -----------------------------------------------------------

  predicate IsWildcardList(values: seq<string>) {
    exists v :: v in values && Trim(v) == "*"
  }

  predicate Overlaps(configured: seq<string>, active: seq<string>) {
    exists c, a :: c in configured && a in active && SameRunway(c, a)
  }

  predicate ListMatchesActive(configured: seq<string>, active: seq<string>) {
    configured == [] || IsWildcardList(configured) || active == [] || Overlaps(configured, active)
  }

  predicate ListExcludesActive(configured: seq<string>, active: seq<string>) {
    configured == [] || IsWildcardList(configured) || active == [] || !Overlaps(configured, active)
  }

  predicate DepRwyMatches(rate: CdmRate, depRwy: string) {
    exists r :: r in rate.depRwyYes && (r == "*" || FoldEq(r, depRwy))
  }

  predicate RateMatches(rate: CdmRate, depRwy: string, cfg: AirportConfig) {
    && DepRwyMatches(rate, depRwy)
    && ListMatchesActive(rate.arrRwyYes, cfg.activeArrivals)
    && ListExcludesActive(rate.arrRwyNo, cfg.activeArrivals)
    && ListMatchesActive(rate.depRwyYes, cfg.activeDepartures)
    && ListExcludesActive(rate.depRwyNo, cfg.activeDepartures)
  }

  function FirstFold(list: seq<string>, depRwy: string, limit: nat, from: nat): (r: nat)
    requires limit > 0
    ensures r < limit
    decreases limit - from
  {
    if from >= limit || from >= |list| then 0
    else if FoldEq(list[from], depRwy) then from
    else FirstFold(list, depRwy, limit, from + 1)
  }

  function FallbackRate(cfg: AirportConfig): (r: int)
    ensures r > 0
  {
    if cfg.lvoActive then (if cfg.defaultRateLvo <= 0 then DEFAULT_RATE_LVO else cfg.defaultRateLvo)
    else if cfg.defaultRate <= 0 then DEFAULT_RATE else cfg.defaultRate
  }

  function RateAmong(rates: seq<CdmRate>, depRwy: string, cfg: AirportConfig): (r: int)
    ensures r > 0
  {
    if rates == [] then FallbackRate(cfg)
    else
      var rate := rates[0];
      if !FoldEq(rate.airport, cfg.airport) || !RateMatches(rate, depRwy, cfg) then RateAmong(rates[1..], depRwy, cfg)
      else
        var values := if cfg.lvoActive && rate.ratesLvo != [] then rate.ratesLvo else rate.rates;
        if values == [] then FallbackRate(cfg)
        else
          var index := if |values| <= 1 then 0 else FirstFold(rate.depRwyYes, depRwy, |values|, 0);
          if values[index] > 0 then values[index] else FallbackRate(cfg)
  }

  function RateForRunway(cfg: AirportConfig, depRwy: string): (r: int)
    ensures r > 0
  {
    RateAmong(cfg.rates, depRwy, cfg)
  }

  // ---- SID intervals and dependent runways ---------------------------------------

  function SidVariants(value: string): set<string> {
    var t := Token(value);
    if t == "" then {} else if |t| > 3 then {t, t[..|t| - 2]} else {t}
  }

  predicate SameSid(a: string, b: string) {
    exists v :: v in SidVariants(a) && v in SidVariants(b)
  }

  function IntervalAmong(list: seq<SidInterval>, depRwy: string, sid1: string, sid2: string): real {
    if list == [] then 0.0
    else
      var e := list[0];
      if FoldEq(e.runway, depRwy) &&
         ((SameSid(e.sid1, sid1) && SameSid(e.sid2, sid2)) || (SameSid(e.sid1, sid2) && SameSid(e.sid2, sid1)))
      then e.seconds
      else IntervalAmong(list[1..], depRwy, sid1, sid2)
  }

  function SidIntervalSeconds(cfg: AirportConfig, depRwy: string, sid1: string, sid2: string): real {
    if SameSid(sid1, sid2) then 0.0 else IntervalAmong(cfg.sidIntervals, depRwy, sid1, sid2)
  }

  function DependentAmong(rates: seq<CdmRate>, depRwy: string): seq<string> {
    if rates == [] then []
    else if !DepRwyMatches(rates[0], depRwy) then DependentAmong(rates[1..], depRwy)
    else if IsWildcardList(rates[0].dependentRwy) then []
    else rates[0].dependentRwy
  }

  predicate ListsRunway(list: seq<string>, runway: string) {
    exists r :: r in list && SameRunway(r, runway)
  }

  predicate SameOrDependentRunway(cfg: AirportConfig, current: string, other: string) {
    || SameRunway(current, other)
    || ListsRunway(DependentAmong(cfg.rates, current), other)
    || ListsRunway(DependentAmong(cfg.rates, other), current)
  }

  lemma {:induction false} IntervalIsSymmetric(list: seq<SidInterval>, rwyA: string, rwyB: string, sid1: string,
                                               sid2: string)
    requires FoldEq(rwyA, rwyB)
    ensures IntervalAmong(list, rwyA, sid1, sid2) == IntervalAmong(list, rwyB, sid2, sid1)
  {
    if list != [] {
      IntervalIsSymmetric(list[1..], rwyA, rwyB, sid1, sid2);
    }
  }

  lemma RunwayTestsIgnoreCase(rate: CdmRate, rwyA: string, rwyB: string)
    requires FoldEq(rwyA, rwyB)
    ensures DepRwyMatches(rate, rwyA) <==> DepRwyMatches(rate, rwyB)
  {
  }

  lemma {:induction false} FirstFoldIgnoresCase(list: seq<string>, rwyA: string, rwyB: string, limit: nat, from: nat)
    requires FoldEq(rwyA, rwyB) && limit > 0
    ensures FirstFold(list, rwyA, limit, from) == FirstFold(list, rwyB, limit, from)
    decreases limit - from
  {
    if from < limit && from < |list| {
      FirstFoldIgnoresCase(list, rwyA, rwyB, limit, from + 1);
    }
  }

  lemma {:induction false} RateIgnoresCase(rates: seq<CdmRate>, rwyA: string, rwyB: string, cfg: AirportConfig)
    requires FoldEq(rwyA, rwyB)
    ensures RateAmong(rates, rwyA, cfg) == RateAmong(rates, rwyB, cfg)
  {
    if rates != [] {
      RateIgnoresCase(rates[1..], rwyA, rwyB, cfg);
      RunwayTestsIgnoreCase(rates[0], rwyA, rwyB);
      var values := if cfg.lvoActive && rates[0].ratesLvo != [] then rates[0].ratesLvo else rates[0].rates;
      if values != [] {
        FirstFoldIgnoresCase(rates[0].depRwyYes, rwyA, rwyB, |values|, 0);
      }
    }
  }

  // ---- Wake turbulence --------------------------------------------------------------

  datatype WakeCategory = Light | Medium | Heavy | Super | Unknown

  function ReadWake(value: string): WakeCategory {
    var t := Token(value);
    if t == "L" then Light else if t == "M" then Medium else if t == "H" then Heavy
    else if t == "J" || t == "S" || t == "SUPER" then Super else Unknown
  }

  function WakeMinutes(trailing: string, leading: string): (m: int)
    ensures 0 <= m <= 3
  {
    match (ReadWake(trailing), ReadWake(leading))
    case (Light, Light) => 1
    case (Light, Medium) => 2
    case (Light, Heavy) => 2
    case (Light, Super) => 3
    case (Medium, Light) => 1
    case (Medium, Medium) => 1
    case (Medium, Heavy) => 2
    case (Medium, Super) => 3
    case (Heavy, Light) => 1
    case (Heavy, Medium) => 1
    case (Heavy, Heavy) => 1
    case (Heavy, Super) => 2
    case (Super, Light) => 1
    case (Super, Medium) => 1
    case (Super, Heavy) => 1
    case (Super, Super) => 1
    case (_, _) => 0
  }

  function Weight(c: WakeCategory): nat {
    match c case Light => 0 case Medium => 1 case Heavy => 2 case Super => 3 case Unknown => 0
  }

  /** Behind a flight at most as heavy as itself a flight keeps one minute, behind a heavier one two, and three behind a
      super unless it is heavy; only categories that are not known keep none. */
  lemma WakeByWeight(trailing: string, leading: string)
    ensures var t, l := ReadWake(trailing), ReadWake(leading);
            WakeMinutes(trailing, leading) ==
            if t.Unknown? || l.Unknown? then 0
            else if Weight(t) >= Weight(l) then 1
            else if l.Super? && !t.Heavy? then 3 else 2
  {
  }

  /** A heavier leader never needs less spacing, and a heavier follower never more. */
  lemma WakeIsMonotone(t1: string, t2: string, l1: string, l2: string)
    requires !ReadWake(t1).Unknown? && !ReadWake(t2).Unknown? && !ReadWake(l1).Unknown? && !ReadWake(l2).Unknown?
    requires Weight(ReadWake(t1)) <= Weight(ReadWake(t2)) && Weight(ReadWake(l1)) <= Weight(ReadWake(l2))
    ensures WakeMinutes(t2, l1) <= WakeMinutes(t1, l2)
  {
  }

  // ---- Delay floors -------------------------------------------------------------------

  const SECOND_NS := 1_000_000_000
  const DAY_NS := DAY * SECOND_NS
  const LOOK_AHEAD_NS := 6 * 3600 * SECOND_NS

  /** A point in time: nanoseconds since a midnight. */
  type Instant = nat

  function ClockOf(t: Instant): Second {
    t % DAY_NS / SECOND_NS
  }

  predicate DelayApplies(d: Delay, cfg: AirportConfig, depRwy: string) {
    && (Token(d.airport) == "" || Token(d.airport) == Token(cfg.airport))
    && (Trim(d.runway) == "" || Trim(d.runway) == "*" || SameRunway(d.runway, depRwy))
  }

  /** The next instant showing the configured time, if it is at most six hours ahead. */
  function ResolveDelayFloor(now: Instant, value: Clock): Option<Instant> {
    if !value.At? || value.sec <= 0 then None
    else
      var today := now / DAY_NS * DAY_NS + value.sec * SECOND_NS;
      var candidate := if today < now then today + DAY_NS else today;
      if candidate - now > LOOK_AHEAD_NS then None else Some(candidate)
  }

  predicate OffersFloor(d: Delay, cfg: AirportConfig, depRwy: string, now: Instant, floor: Instant) {
    DelayApplies(d, cfg, depRwy) && ResolveDelayFloor(now, d.time) == Some(floor)
  }

  /** The latest floor that any applicable delay offers. */
  function LatestFloor(delays: seq<Delay>, cfg: AirportConfig, depRwy: string, now: Instant): Option<Instant> {
    if delays == [] then None
    else
      var rest := LatestFloor(delays[..|delays| - 1], cfg, depRwy, now);
      var d := delays[|delays| - 1];
      if !DelayApplies(d, cfg, depRwy) then rest
      else match ResolveDelayFloor(now, d.time)
        case None => rest
        case Some(f) => if rest.None? || f > rest.value then Some(f) else rest
  }

  lemma {:induction false} LatestFloorIsTheMaximum(delays: seq<Delay>, cfg: AirportConfig, depRwy: string, now: Instant)
    ensures var r := LatestFloor(delays, cfg, depRwy, now);
            && (r.Some? ==> exists d :: d in delays && OffersFloor(d, cfg, depRwy, now, r.value))
            && (forall d, f: Instant :: d in delays && OffersFloor(d, cfg, depRwy, now, f) ==> r.Some? && f <= r.value)
  {
    if delays != [] {
      var n := |delays| - 1;
      LatestFloorIsTheMaximum(delays[..n], cfg, depRwy, now);
      assert delays == delays[..n] + [delays[n]];
      var r := LatestFloor(delays, cfg, depRwy, now);
      if r.Some? && r != LatestFloor(delays[..n], cfg, depRwy, now) {
        assert OffersFloor(delays[n], cfg, depRwy, now, r.value);
      }
    }
  }

  /** Every floor shows the configured time and lies between now and six hours from now. */
  lemma FloorIsTheNextOccurrence(now: Instant, value: Clock, floor: Instant)
    requires ResolveDelayFloor(now, value) == Some(floor)
    ensures now <= floor <= now + LOOK_AHEAD_NS
    ensures At(ClockOf(floor)) == value
  {
    var day, offset := now / DAY_NS, value.sec * SECOND_NS;
    assert now == day * DAY_NS + now % DAY_NS;
    if floor == day * DAY_NS + offset {
      RemainderOfMultiple(day, offset);
    } else {
      assert floor == (day + 1) * DAY_NS + offset;
      RemainderOfMultiple(day + 1, offset);
    }
  }

  lemma RemainderOfMultiple(q: nat, r: nat)
    requires r < DAY_NS
    ensures (q * DAY_NS + r) % DAY_NS == r
  {
  }

  method DelayFloorForRunway(cfg: AirportConfig, depRwy: string, now: Instant) returns (floor: Clock)
    ensures floor == DelayFloor(cfg, depRwy, now)
  {
    var latest := None;
    for i := 0 to |cfg.delays|
      invariant latest == LatestFloor(cfg.delays[..i], cfg, depRwy, now)
    {
      var d := cfg.delays[i];
      assert cfg.delays[..i + 1][..i] == cfg.delays[..i];
      if !DelayApplies(d, cfg, depRwy) {
        continue;
      }
      var f := ResolveDelayFloor(now, d.time);
      if f.None? {
        continue;
      }
      if latest.None? || f.value > latest.value {
        latest := f;
      }
    }
    assert cfg.delays[..|cfg.delays|] == cfg.delays;
    floor := if latest.None? then Absent else At(ClockOf(latest.value));
  }

  function DelayFloor(cfg: AirportConfig, depRwy: string, now: Instant): Clock {
    match LatestFloor(cfg.delays, cfg, depRwy, now)
    case None => Absent
    case Some(f) => At(ClockOf(f))
  }
}
