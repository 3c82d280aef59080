/** The landing grid and the inputs of a runway closure in numbers and fields: how far apart landings are, which rate is
    in force, and which aircraft a closure may follow. */
module ClosureRules {
  import opened Text
  import opened RunwayGap
  import opened RunwayClosure

  // ---- How far apart landings are ---------------------------------------------------------

  /** The least whole number of nanoseconds at which an hour holds no more than `perHour` landings after the first. */
  predicate IsSpacing(perHour: int, s: int) {
    perHour * (s - 1) < 3_600_000_000_000 <= perHour * s
  }

  lemma SpacingOfRate(rate: RatePoint)
    requires rate.arrivalsPerHour > 0
    ensures IsSpacing(rate.arrivalsPerHour, Interval(rate))
  {
    var n, top := rate.arrivalsPerHour, 3_600_000_000_000 + rate.arrivalsPerHour - 1;
    assert top == top / n * n + top % n;
  }

  lemma OneSpacing(perHour: int, s: int, u: int)
    requires perHour > 0 && IsSpacing(perHour, s) && IsSpacing(perHour, u)
    ensures s == u
  {
    assert s < u ==> perHour * s <= perHour * (u - 1);
    assert u < s ==> perHour * u <= perHour * (s - 1);
  }

  /** The landing after `n` others at spacing `s`. */
  function Landing(rate: RatePoint, s: int, n: nat): Time {
    rate.effectiveAt + n * s
  }

  /** The grid of a rate: its start and every whole number of spacings after it. */
  lemma GridInNumbers(rate: RatePoint, t: Time, s: int)
    requires rate.arrivalsPerHour > 0 && IsSpacing(rate.arrivalsPerHour, s)
    ensures OnOwnGrid(rate, t) <==> exists n: nat :: t == Landing(rate, s, n)
  {
    SpacingOfRate(rate);
    OneSpacing(rate.arrivalsPerHour, s, Interval(rate));
    if OnOwnGrid(rate, t) {
      var d := t - rate.effectiveAt;
      assert d == d / s * s + d % s;
      assert d / s >= 0;
      assert t == Landing(rate, s, d / s);
    }
    if n: nat :| t == Landing(rate, s, n) {
      MultipleModulo(n, s);
      assert n * s >= 0;
    }
  }

  lemma TwoLandings(rate: RatePoint, t: Time, u: Time, s: int)
    requires rate.arrivalsPerHour > 0 && IsSpacing(rate.arrivalsPerHour, s)
    requires OnOwnGrid(rate, t) && OnOwnGrid(rate, u) && t < u
    ensures t + s <= u
  {
    GridInNumbers(rate, t, s);
    GridInNumbers(rate, u, s);
    var n: nat :| t == Landing(rate, s, n);
    var m: nat :| u == Landing(rate, s, m);
    StepApart(m, n, s);
  }

  /** Landing times of one rate, in order and each on its grid. */
  predicate AreLandings(rate: RatePoint, times: seq<Time>) {
    && (forall i :: 0 <= i < |times| ==> OnOwnGrid(rate, times[i]))
    && (forall i :: 0 < i < |times| ==> times[i - 1] < times[i])
  }

  lemma {:induction false} LandingsAreApart(rate: RatePoint, times: seq<Time>, s: int)
    requires rate.arrivalsPerHour > 0 && IsSpacing(rate.arrivalsPerHour, s) && AreLandings(rate, times) && times != []
    ensures times[|times| - 1] - times[0] >= (|times| - 1) * s
  {
    var k := |times| - 1;
    if k > 0 {
      var init := times[..k];
      LandingsAreApart(rate, init, s);
      TwoLandings(rate, times[k - 1], times[k], s);
      assert (k - 1) * s + s == k * s;
    }
  }

  lemma Monotone(m: int, n: int, s: int)
    requires m <= n && s >= 0
    ensures m * s <= n * s
  {
    assert n * s == m * s + (n - m) * s;
  }

  lemma StepApart(m: int, n: int, s: int)
    requires s > 0 && n * s < m * s
    ensures n * s + s <= m * s
  {
    assert n < m by {
      if m <= n {
        Monotone(m, n, s);
      }
    }
    Monotone(n + 1, m, s);
    assert (n + 1) * s == n * s + s;
  }

  /** One landing more than the rate allows in an hour takes an hour at least. */
  lemma AnHourOfLandings(rate: RatePoint, times: seq<Time>)
    requires rate.arrivalsPerHour > 0 && AreLandings(rate, times) && |times| == rate.arrivalsPerHour + 1
    ensures times[|times| - 1] - times[0] >= 3_600_000_000_000
  {
    SpacingOfRate(rate);
    LandingsAreApart(rate, times, Interval(rate));
  }

  /** At any smaller spacing they would take less. */
  lemma CloserLandingsAreTooMany(rate: RatePoint, s: int, closer: int)
    requires rate.arrivalsPerHour > 0 && IsSpacing(rate.arrivalsPerHour, s) && closer < s
    ensures Landing(rate, closer, rate.arrivalsPerHour) - Landing(rate, closer, 0) < 3_600_000_000_000
  {
    Monotone(closer, s - 1, rate.arrivalsPerHour);
  }

  /** In force is the last rate that has started. */
  lemma InForceIsTheLast(rates: seq<RatePoint>, i: int, t: Time)
    requires ValidSchedule(rates)
    ensures InForce(rates, i, t) <==>
            && 0 <= i < |rates| && rates[i].effectiveAt <= t
            && forall j :: 0 <= j < |rates| && rates[j].effectiveAt <= t ==>
                 rates[j].effectiveAt <= rates[i].effectiveAt
  {
    if 0 <= i && i + 1 < |rates| {
      assert rates[i].effectiveAt < rates[i + 1].effectiveAt;
    }
  }

  /** What the search finds: with `i` the last rate that has started by then, a time a whole number of its spacings
      after its start, in none of the gaps, and every such time before it, back to the anchor, in one. */
  lemma OpportunityInNumbers(rates: seq<RatePoint>, gaps: seq<Gap>, after: Time, t: Time, i: int, s: int)
    requires ValidSchedule(rates) && IsOpportunity(rates, gaps, after, Ok(t))
    requires InForce(rates, i, t) && IsSpacing(rates[i].arrivalsPerHour, s)
    ensures after < t && exists n: nat :: t == Landing(rates[i], s, n)
    ensures forall k :: 0 <= k < |gaps| ==> !(gaps[k].start <= t < gaps[k].end)
    ensures forall n: nat ::
              var u := Landing(rates[i], s, n);
              after < u < t && InForce(rates, i, u) ==> exists k :: 0 <= k < |gaps| && gaps[k].start <= u < gaps[k].end
  {
    var j :| GridPoint(rates, j, t);
    OneInForce(rates, i, j, t);
    GridInNumbers(rates[i], t, s);
    forall k | 0 <= k < |gaps|
      ensures !(gaps[k].start <= t < gaps[k].end)
    {
      assert !gaps[k].Covers(t);
    }
    forall n: nat | after < Landing(rates[i], s, n) < t && InForce(rates, i, Landing(rates[i], s, n))
      ensures exists k :: 0 <= k < |gaps| && gaps[k].start <= Landing(rates[i], s, n) < gaps[k].end
    {
      var u := Landing(rates[i], s, n);
      GridInNumbers(rates[i], u, s);
      assert GridPoint(rates, i, u);
      assert Covered(gaps, u);
    }
  }

  lemma OneInForce(rates: seq<RatePoint>, i: int, j: int, t: Time)
    requires ValidSchedule(rates) && InForce(rates, i, t) && InForce(rates, j, t)
    ensures i == j
  {
    assert forall k :: i < k < |rates| ==> rates[i + 1].effectiveAt <= rates[k].effectiveAt;
    assert forall k :: j < k < |rates| ==> rates[j + 1].effectiveAt <= rates[k].effectiveAt;
  }

  /** A step is too long when the landing it leads to lies more than 2^63 - 1 nanoseconds after the rate's start. */
  lemma OverflowInNumbers(rate: RatePoint, after: Time, s: int, n: nat)
    requires rate.arrivalsPerHour > 0 && IsSpacing(rate.arrivalsPerHour, s)
    requires rate.effectiveAt <= after && Landing(rate, s, n) <= after < Landing(rate, s, n + 1)
    ensures StepOverflows(rate, after) <==> (n + 1) * s > 9_223_372_036_854_775_807
  {
    SpacingOfRate(rate);
    OneSpacing(rate.arrivalsPerHour, s, Interval(rate));
    assert (n + 1) * s == n * s + s;
    DivModUnique(after - rate.effectiveAt, s, n, after - rate.effectiveAt - n * s);
  }

  // ---- What a closure is about ------------------------------------------------------------

  /** The rates of a group are its schedule; only if that is empty, its one active rate, if that has a start and is not
      zero. */
  lemma RatesInForce(group: Group)
    ensures group.rates != [] ==> Schedule(group) == group.rates
    ensures group.rates == [] && group.activeRate > 0 && group.rateEffectiveAt.Some? ==>
              |Schedule(group)| == 1 && Schedule(group)[0].effectiveAt == group.rateEffectiveAt.value
              && Schedule(group)[0].arrivalsPerHour == group.activeRate
    ensures group.rates == [] && (group.activeRate == 0 || group.rateEffectiveAt.None?) ==> Schedule(group) == []
  {
  }

  lemma {:induction false} FirstGroupIsFound(groups: seq<Group>, id: string)
    ensures FindGroup(groups, id).None? <==> forall n :: 0 <= n < |groups| ==> groups[n].id != id
    ensures forall n :: 0 <= n < |groups| && groups[n].id == id && (forall m :: 0 <= m < n ==> groups[m].id != id) ==>
              FindGroup(groups, id) == Some(groups[n])
  {
    if groups != [] {
      FirstGroupIsFound(groups[1..], id);
      forall n | 0 <= n < |groups| && groups[n].id == id && (forall m :: 0 <= m < n ==> groups[m].id != id)
        ensures FindGroup(groups, id) == Some(groups[n])
      {
        assert n > 0 ==> groups[1..][n - 1] == groups[n];
        assert forall m :: 0 <= m < n - 1 ==> groups[1..][m] == groups[m + 1];
      }
      assert forall m :: 0 < m < |groups| ==> groups[m] == groups[1..][m - 1];
    }
  }

  lemma {:induction false} FirstFlightIsFound(flights: seq<Arrival>, callsign: string)
    ensures FindFlight(flights, callsign).None? <==> forall n :: 0 <= n < |flights| ==> flights[n].callsign != callsign
    ensures forall n :: 0 <= n < |flights| && flights[n].callsign == callsign
                        && (forall m :: 0 <= m < n ==> flights[m].callsign != callsign) ==>
              FindFlight(flights, callsign) == Some(flights[n])
  {
    if flights != [] {
      FirstFlightIsFound(flights[1..], callsign);
      forall n | 0 <= n < |flights| && flights[n].callsign == callsign
                 && (forall m :: 0 <= m < n ==> flights[m].callsign != callsign)
        ensures FindFlight(flights, callsign) == Some(flights[n])
      {
        assert n > 0 ==> flights[1..][n - 1] == flights[n];
        assert forall m :: 0 <= m < n - 1 ==> flights[1..][m] == flights[m + 1];
      }
      assert forall m :: 0 < m < |flights| ==> flights[m] == flights[1..][m - 1];
    }
  }

  /** A closure may follow the first flight of the callsign if that has selected the runway group and holds a dated slot
      on it, assigned at the state's own revision; the slot's time is then the anchor. */
  lemma AnchorIsACurrentSlot(input: ClosureInput, state: AirportState, f: Arrival)
    requires input.afterCallsign.Some? && FindFlight(state.flights, input.afterCallsign.value) == Some(f)
    requires IsTrimmedNonEmpty(input.afterCallsign.value)
    ensures forall t :: AnchorTime(input, state) == Some(t) <==>
                          && f.selectedGroup == Some(input.groupId) && t != 0
                          && f.slot == Some(LandingSlot(input.groupId, state.revision, t))
  {
    if f.slot.Some? {
      var slot := f.slot.value;
      assert slot == LandingSlot(slot.groupId, slot.revision, slot.time);
    }
  }
}
