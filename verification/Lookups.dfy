/** What the configuration lookups find, stated on the fields of the records: the lookups of
    backend/internal/cdm/config.go against the rules that the configuration file is written by. */
module Lookups {
  import opened Text
  import opened Clock
  import opened Config

  // ---- Which rate record decides --------------------------------------------------------

  /** A list of active runways meets a configured one. */
  predicate Meets(configured: seq<string>, active: seq<string>) {
    exists i, j | 0 <= i < |configured| && 0 <= j < |active| ::
      Upper(Trim(configured[i])) == Upper(Trim(active[j]))
  }

  /** A list that is empty or starred says nothing, and nothing is known of runways that are not reported. */
  predicate IsSilent(configured: seq<string>, active: seq<string>) {
    configured == [] || active == [] || exists i | 0 <= i < |configured| :: Trim(configured[i]) == "*"
  }

  /** One of the record's departure runways is this one, or any. */
  predicate IsForRunway(rate: CdmRate, depRwy: string) {
    exists i | 0 <= i < |rate.depRwyYes| :: rate.depRwyYes[i] == "*" || Upper(rate.depRwyYes[i]) == Upper(depRwy)
  }

  /** The record is for this airport and runway, an active runway is on each of its two positive lists and none is on
      either of the negative ones. */
  predicate Serves(rate: CdmRate, cfg: AirportConfig, depRwy: string) {
    && Upper(rate.airport) == Upper(cfg.airport)
    && IsForRunway(rate, depRwy)
    && (IsSilent(rate.arrRwyYes, cfg.activeArrivals) || Meets(rate.arrRwyYes, cfg.activeArrivals))
    && (IsSilent(rate.depRwyYes, cfg.activeDepartures) || Meets(rate.depRwyYes, cfg.activeDepartures))
    && (IsSilent(rate.arrRwyNo, cfg.activeArrivals) || !Meets(rate.arrRwyNo, cfg.activeArrivals))
    && (IsSilent(rate.depRwyNo, cfg.activeDepartures) || !Meets(rate.depRwyNo, cfg.activeDepartures))
  }

  lemma OverlapIsMeeting(configured: seq<string>, active: seq<string>)
    ensures Overlaps(configured, active) <==> Meets(configured, active)
    ensures ListMatchesActive(configured, active) <==> IsSilent(configured, active) || Meets(configured, active)
    ensures ListExcludesActive(configured, active) <==> IsSilent(configured, active) || !Meets(configured, active)
  {
    forall i, j | 0 <= i < |configured| && 0 <= j < |active|
      ensures Upper(Trim(configured[i])) == Upper(Trim(active[j])) <==> SameRunway(configured[i], active[j])
    {
      TokenIsUpperTrim(configured[i]);
      TokenIsUpperTrim(active[j]);
    }
    if Overlaps(configured, active) {
      var c, a :| c in configured && a in active && SameRunway(c, a);
      var i :| 0 <= i < |configured| && configured[i] == c;
      var j :| 0 <= j < |active| && active[j] == a;
      assert Upper(Trim(configured[i])) == Upper(Trim(active[j]));
    }
  }

  lemma ForRunwayIsMatching(rate: CdmRate, depRwy: string)
    ensures IsForRunway(rate, depRwy) <==> DepRwyMatches(rate, depRwy)
  {
    if i :| 0 <= i < |rate.depRwyYes| && (rate.depRwyYes[i] == "*" || Upper(rate.depRwyYes[i]) == Upper(depRwy)) {
      var r := rate.depRwyYes[i];
      assert r in rate.depRwyYes && (r == "*" || FoldEq(r, depRwy));
    }
    if DepRwyMatches(rate, depRwy) {
      var r :| r in rate.depRwyYes && (r == "*" || FoldEq(r, depRwy));
      var i :| 0 <= i < |rate.depRwyYes| && rate.depRwyYes[i] == r;
      assert rate.depRwyYes[i] == "*" || Upper(rate.depRwyYes[i]) == Upper(depRwy);
    }
  }

  lemma ServesIsMatching(rate: CdmRate, cfg: AirportConfig, depRwy: string)
    ensures Serves(rate, cfg, depRwy) <==> FoldEq(rate.airport, cfg.airport) && RateMatches(rate, depRwy, cfg)
  {
    ForRunwayIsMatching(rate, depRwy);
    OverlapIsMeeting(rate.arrRwyYes, cfg.activeArrivals);
    OverlapIsMeeting(rate.depRwyYes, cfg.activeDepartures);
    OverlapIsMeeting(rate.arrRwyNo, cfg.activeArrivals);
    OverlapIsMeeting(rate.depRwyNo, cfg.activeDepartures);
  }

  /** Where the runway stands among the record's departure runways, as far as there are values; or the first place. */
  predicate IsPlace(list: seq<string>, depRwy: string, values: nat, k: nat) {
    if exists i | 0 <= i < values && i < |list| :: Upper(list[i]) == Upper(depRwy)
    then k < values && k < |list| && Upper(list[k]) == Upper(depRwy)
         && forall i | 0 <= i < k :: Upper(list[i]) != Upper(depRwy)
    else k == 0
  }

  lemma {:induction false} FirstFoldIsPlace(list: seq<string>, depRwy: string, values: nat, from: nat)
    requires values > 0 && forall i | 0 <= i < from && i < |list| :: Upper(list[i]) != Upper(depRwy)
    ensures IsPlace(list, depRwy, values, FirstFold(list, depRwy, values, from))
    decreases values - from
  {
    if from < values && from < |list| && !FoldEq(list[from], depRwy) {
      FirstFoldIsPlace(list, depRwy, values, from + 1);
    }
  }

  /** The rate where no record gives one. */
  function Fallback(cfg: AirportConfig): int {
    match (cfg.lvoActive, cfg.defaultRate > 0, cfg.defaultRateLvo > 0)
    case (true, _, true) => cfg.defaultRateLvo
    case (true, _, false) => 14
    case (false, true, _) => cfg.defaultRate
    case (false, false, _) => 20
  }

  /** The values that a record gives: those for low visibility exactly in low visibility, and only if there are any. */
  function Values(rate: CdmRate, cfg: AirportConfig): seq<int> {
    if !cfg.lvoActive || |rate.ratesLvo| == 0 then rate.rates else rate.ratesLvo
  }

  lemma {:induction false} RateAmongSkips(rates: seq<CdmRate>, cfg: AirportConfig, depRwy: string, n: nat)
    requires n <= |rates| && forall m | 0 <= m < n :: !Serves(rates[m], cfg, depRwy)
    ensures RateAmong(rates, depRwy, cfg) == RateAmong(rates[n..], depRwy, cfg)
  {
    if n > 0 {
      ServesIsMatching(rates[0], cfg, depRwy);
      RateAmongSkips(rates[1..], cfg, depRwy, n - 1);
      assert rates[1..][n - 1..] == rates[n..];
    } else {
      assert rates[0..] == rates;
    }
  }

  /** The first record that serves the runway decides: its value at the runway's place, if that is a positive number,
      and the default otherwise. No later record is looked at. */
  lemma FirstRecordDecides(cfg: AirportConfig, depRwy: string, n: nat, k: nat)
    requires n < |cfg.rates| && Serves(cfg.rates[n], cfg, depRwy)
    requires forall m | 0 <= m < n :: !Serves(cfg.rates[m], cfg, depRwy)
    requires IsPlace(cfg.rates[n].depRwyYes, depRwy, |Values(cfg.rates[n], cfg)|, k)
    ensures var values := Values(cfg.rates[n], cfg);
            RateForRunway(cfg, depRwy) == if k < |values| && values[k] > 0 then values[k] else Fallback(cfg)
  {
    var rate, values := cfg.rates[n], Values(cfg.rates[n], cfg);
    RateAmongSkips(cfg.rates, cfg, depRwy, n);
    ServesIsMatching(rate, cfg, depRwy);
    assert cfg.rates[n..][0] == rate;
    if |values| > 1 {
      FirstFoldIsPlace(rate.depRwyYes, depRwy, |values|, 0);
    }
  }

  /** Without such a record the default is the rate. */
  lemma NoRecordNoRate(cfg: AirportConfig, depRwy: string)
    requires forall m | 0 <= m < |cfg.rates| :: !Serves(cfg.rates[m], cfg, depRwy)
    ensures RateForRunway(cfg, depRwy) == Fallback(cfg)
  {
    RateAmongSkips(cfg.rates, cfg, depRwy, |cfg.rates|);
  }

  /** The first line of backend/config/ekch/rate.txt, which gives 22R forty departures an hour, and twelve in low
      visibility, while arrivals land on 22L. */
  lemma RateOfTwoTwoRight(low: bool)
    ensures var rate := CdmRate("EKCH", ["22L"], ["*"], ["22R"], ["*"], ["*"], [40], [12]);
            var cfg := AirportConfig("EKCH", [rate], [], [], 20, 14, low, ["22L"], ["22R"]);
            RateForRunway(cfg, "22R") == if low then 12 else 40
  {
    var rate := CdmRate("EKCH", ["22L"], ["*"], ["22R"], ["*"], ["*"], [40], [12]);
    var cfg := AirportConfig("EKCH", [rate], [], [], 20, 14, low, ["22L"], ["22R"]);
    assert rate.depRwyYes[0] == "22R" && Upper(rate.depRwyYes[0]) == Upper("22R");
    assert Upper(Trim(rate.arrRwyYes[0])) == Upper(Trim(cfg.activeArrivals[0]));
    assert Upper(Trim(rate.depRwyYes[0])) == Upper(Trim(cfg.activeDepartures[0]));
    assert Trim("*") == "*";
    assert Trim(rate.arrRwyNo[0]) == "*" && Trim(rate.depRwyNo[0]) == "*";
    assert Serves(cfg.rates[0], cfg, "22R");
    FirstRecordDecides(cfg, "22R", 0, 0);
  }

  // ---- Which SIDs count as one ----------------------------------------------------------------

  /** Two names of one SID: they agree, or do so once the last two characters of a name longer than three are cut off
      one or both of them. Names that are blank agree with nothing. */
  predicate SameDeparture(a: string, b: string) {
    var x, y := Upper(Trim(a)), Upper(Trim(b));
    && x != "" && y != ""
    && (|| x == y
        || (|x| > 3 && x[..|x| - 2] == y)
        || (|y| > 3 && x == y[..|y| - 2])
        || (|x| > 3 && |y| > 3 && x[..|x| - 2] == y[..|y| - 2]))
  }

  lemma SameSidMeans(a: string, b: string)
    ensures SameSid(a, b) <==> SameDeparture(a, b)
  {
    TokenIsUpperTrim(a);
    TokenIsUpperTrim(b);
    var x, y := Token(a), Token(b);
    assert forall v :: v in SidVariants(a) <==> x != "" && (v == x || (|x| > 3 && v == x[..|x| - 2]));
    assert forall v :: v in SidVariants(b) <==> y != "" && (v == y || (|y| > 3 && v == y[..|y| - 2]));
    if SameDeparture(a, b) {
      var v := if x == y || (|y| > 3 && x == y[..|y| - 2]) then x else x[..|x| - 2];
      assert v in SidVariants(a) && v in SidVariants(b);
    }
  }

  /** The entry is for this runway and these two SIDs, in either order. */
  predicate Spaces(e: SidInterval, depRwy: string, sid1: string, sid2: string) {
    && Upper(e.runway) == Upper(depRwy)
    && (|| (SameDeparture(e.sid1, sid1) && SameDeparture(e.sid2, sid2))
        || (SameDeparture(e.sid1, sid2) && SameDeparture(e.sid2, sid1)))
  }

  lemma SpacesIsMatching(e: SidInterval, depRwy: string, sid1: string, sid2: string)
    ensures Spaces(e, depRwy, sid1, sid2) <==>
            && FoldEq(e.runway, depRwy)
            && ((SameSid(e.sid1, sid1) && SameSid(e.sid2, sid2)) || (SameSid(e.sid1, sid2) && SameSid(e.sid2, sid1)))
  {
    SameSidMeans(e.sid1, sid1);
    SameSidMeans(e.sid1, sid2);
    SameSidMeans(e.sid2, sid1);
    SameSidMeans(e.sid2, sid2);
  }

  lemma {:induction false} IntervalAmongSkips(list: seq<SidInterval>, depRwy: string, sid1: string, sid2: string,
                                              n: nat)
    requires n <= |list| && forall m | 0 <= m < n :: !Spaces(list[m], depRwy, sid1, sid2)
    ensures IntervalAmong(list, depRwy, sid1, sid2) == IntervalAmong(list[n..], depRwy, sid1, sid2)
  {
    if n > 0 {
      SpacesIsMatching(list[0], depRwy, sid1, sid2);
      IntervalAmongSkips(list[1..], depRwy, sid1, sid2, n - 1);
      assert list[1..][n - 1..] == list[n..];
    } else {
      assert list[0..] == list;
    }
  }

  /** Two departures on one SID keep no interval; others keep that of the first entry for them, or none. */
  lemma FirstEntrySpaces(cfg: AirportConfig, depRwy: string, sid1: string, sid2: string, n: nat)
    requires n <= |cfg.sidIntervals| && forall m | 0 <= m < n :: !Spaces(cfg.sidIntervals[m], depRwy, sid1, sid2)
    requires n < |cfg.sidIntervals| ==> Spaces(cfg.sidIntervals[n], depRwy, sid1, sid2)
    ensures SidIntervalSeconds(cfg, depRwy, sid1, sid2) ==
            if SameDeparture(sid1, sid2) || n == |cfg.sidIntervals| then 0.0 else cfg.sidIntervals[n].seconds
  {
    SameSidMeans(sid1, sid2);
    IntervalAmongSkips(cfg.sidIntervals, depRwy, sid1, sid2, n);
    if n < |cfg.sidIntervals| {
      SpacesIsMatching(cfg.sidIntervals[n], depRwy, sid1, sid2);
      assert cfg.sidIntervals[n..][0] == cfg.sidIntervals[n];
    }
  }

  // ---- Which runways depend on each other -----------------------------------------------------

  /** The first record for the runway, whatever is active and whichever airport it is for, lists the other one and is
      not starred. */
  predicate NamesDependent(rates: seq<CdmRate>, depRwy: string, other: string) {
    exists n | 0 <= n < |rates| :: IsFirstFor(rates, depRwy, n) && ListsOnly(rates[n].dependentRwy, other)
  }

  predicate IsFirstFor(rates: seq<CdmRate>, depRwy: string, n: nat)
    requires n < |rates|
  {
    IsForRunway(rates[n], depRwy) && forall m | 0 <= m < n :: !IsForRunway(rates[m], depRwy)
  }

  /** The list names the runway, and no entry of it is a star. */
  predicate ListsOnly(list: seq<string>, runway: string) {
    && (exists j | 0 <= j < |list| :: Upper(Trim(list[j])) == Upper(Trim(runway)))
    && (forall j | 0 <= j < |list| :: Trim(list[j]) != "*")
  }

  lemma ListsMeans(list: seq<string>, runway: string)
    ensures ListsOnly(list, runway) <==> !IsWildcardList(list) && ListsRunway(list, runway)
  {
    TokenIsUpperTrim(runway);
    forall j | 0 <= j < |list|
      ensures Upper(Trim(list[j])) == Upper(Trim(runway)) <==> SameRunway(list[j], runway)
    {
      TokenIsUpperTrim(list[j]);
    }
    if ListsRunway(list, runway) {
      var r :| r in list && SameRunway(r, runway);
      var j :| 0 <= j < |list| && list[j] == r;
      assert Upper(Trim(list[j])) == Upper(Trim(runway));
    }
  }

  lemma {:induction false} DependentMeans(rates: seq<CdmRate>, depRwy: string, other: string)
    ensures NamesDependent(rates, depRwy, other) <==> ListsRunway(DependentAmong(rates, depRwy), other)
  {
    if rates != [] {
      ForRunwayIsMatching(rates[0], depRwy);
      if DepRwyMatches(rates[0], depRwy) {
        ListsMeans(rates[0].dependentRwy, other);
        assert IsFirstFor(rates, depRwy, 0);
      } else {
        DependentMeans(rates[1..], depRwy, other);
        LaterRecord(rates, depRwy, other);
      }
    }
  }

  lemma LaterRecord(rates: seq<CdmRate>, depRwy: string, other: string)
    requires rates != [] && !IsForRunway(rates[0], depRwy)
    ensures NamesDependent(rates, depRwy, other) <==> NamesDependent(rates[1..], depRwy, other)
  {
    var rest := rates[1..];
    if n :| 0 <= n < |rest| && IsFirstFor(rest, depRwy, n) && ListsOnly(rest[n].dependentRwy, other) {
      forall m | 0 <= m < n + 1
        ensures !IsForRunway(rates[m], depRwy)
      {
        assert m > 0 ==> rates[m] == rest[m - 1];
      }
      assert IsFirstFor(rates, depRwy, n + 1) && rates[n + 1] == rest[n];
    }
    if n :| 0 <= n < |rates| && IsFirstFor(rates, depRwy, n) && ListsOnly(rates[n].dependentRwy, other) {
      assert n > 0 && rest[n - 1] == rates[n];
      forall m | 0 <= m < n - 1
        ensures !IsForRunway(rest[m], depRwy)
      {
        assert rest[m] == rates[m + 1];
      }
      assert IsFirstFor(rest, depRwy, n - 1);
    }
  }

  /** Two runways share capacity when they are one, or either names the other as dependent. */
  lemma SharesCapacityWhen(cfg: AirportConfig, a: string, b: string)
    ensures SameOrDependentRunway(cfg, a, b) <==>
            || Upper(Trim(a)) == Upper(Trim(b))
            || NamesDependent(cfg.rates, a, b) || NamesDependent(cfg.rates, b, a)
  {
    TokenIsUpperTrim(a);
    TokenIsUpperTrim(b);
    DependentMeans(cfg.rates, a, b);
    DependentMeans(cfg.rates, b, a);
  }

  // ---- Wake letters and departure delays -------------------------------------------------

  lemma WakeLetters(value: string)
    ensures var t := Upper(Trim(value));
            && (ReadWake(value).Light? <==> t == "L") && (ReadWake(value).Medium? <==> t == "M")
            && (ReadWake(value).Heavy? <==> t == "H") && (ReadWake(value).Super? <==> t in {"J", "S", "SUPER"})
  {
    TokenIsUpperTrim(value);
  }

  /** A delay names an airport or none, and a runway, none or any. */
  lemma DelayAppliesWhen(d: Delay, cfg: AirportConfig, depRwy: string)
    ensures DelayApplies(d, cfg, depRwy) <==>
            && (Trim(d.airport) == "" || Upper(Trim(d.airport)) == Upper(Trim(cfg.airport)))
            && (Trim(d.runway) in {"", "*"} || Upper(Trim(d.runway)) == Upper(Trim(depRwy)))
  {
    TokenIsUpperTrim(d.airport);
    TokenIsUpperTrim(cfg.airport);
    TokenIsUpperTrim(d.runway);
    TokenIsUpperTrim(depRwy);
    assert Upper(Trim(d.airport)) == "" <==> Trim(d.airport) == "";
  }

  /** The instants that show a time of day, in nanoseconds. */
  predicate Shows(t: Instant, sec: int) {
    t % 86_400_000_000_000 == sec * 1_000_000_000
  }

  /** A delay until midnight, or until something that is no time, holds nobody up. Any other one does exactly if its
      time comes within six hours, and then until that instant. */
  lemma DelayHoldsWhen(now: Instant, value: Clock, t: Instant)
    ensures ResolveDelayFloor(now, value) == Some(t) <==>
            value.At? && value.sec > 0 && now <= t <= now + 21_600_000_000_000 && Shows(t, value.sec)
  {
    if value.At? && value.sec > 0 {
      var day := now / DAY_NS;
      assert now == day * DAY_NS + now % DAY_NS && t == t / DAY_NS * DAY_NS + t % DAY_NS;
      RemainderOfMultiple(day, value.sec * SECOND_NS);
      RemainderOfMultiple(day + 1, value.sec * SECOND_NS);
      if now <= t <= now + LOOK_AHEAD_NS && Shows(t, value.sec) {
        assert day <= t / DAY_NS <= day + 1;
      }
    }
  }

  /** The clock of an instant counts whole seconds since midnight. */
  lemma ClockOfInstant(t: Instant)
    ensures t % 86_400_000_000_000 - ClockOf(t) * 1_000_000_000 < 1_000_000_000
    ensures ClockOf(t) * 1_000_000_000 <= t % 86_400_000_000_000
  {
  }
}
