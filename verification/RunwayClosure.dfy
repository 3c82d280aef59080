/** Where a runway closure may start: `nextClosureOpportunity` and `NormalizeRunwayClosureInterval` of
    backend/internal/aman/runway_closure_normalization.go. */
module RunwayClosure {
  import opened Text
  import opened RunwayGap

  const HOUR := 3_600_000_000_000
  const MAX_DURATION := 9223372036854775807

  // ---- The landing grid --------------------------------------------------------------

  /** The legacy single rate stands in for an empty schedule. */
  function Schedule(group: Group): seq<RatePoint> {
    if group.rates == [] && group.rateEffectiveAt.Some? && group.activeRate > 0
    then [RatePoint(group.rateEffectiveAt.value, group.activeRate)]
    else group.rates
  }

  predicate ValidSchedule(rates: seq<RatePoint>) {
    && (forall i :: 0 <= i < |rates| ==> rates[i].arrivalsPerHour > 0 && rates[i].effectiveAt != 0)
    && (forall i, j :: 0 <= i < j < |rates| ==> rates[i].effectiveAt < rates[j].effectiveAt)
  }

  /** What validation demands of a runway group's rates. */
  predicate ValidRates(group: Group) {
    (group.rateEffectiveAt.Some? ==> group.activeRate > 0 && group.rateEffectiveAt.value != 0)
    && ValidSchedule(group.rates)
  }

  /** Validated rates give the search a valid schedule, the legacy one included. */
  lemma ValidRatesSuffice(group: Group)
    requires ValidRates(group)
    ensures ValidSchedule(Schedule(group))
  {
  }

  /** The validator compares each rate with the one before it and accepts exactly the valid rates. */
  method ValidateRates(group: Group) returns (ok: bool)
    ensures ok <==> ValidRates(group)
  {
    if group.rateEffectiveAt.Some? && (group.activeRate == 0 || group.rateEffectiveAt.value == 0) {
      return false;
    }
    var rates := group.rates;
    for i := 0 to |rates|
      invariant forall j :: 0 <= j < i ==> rates[j].arrivalsPerHour > 0 && rates[j].effectiveAt != 0
      invariant forall j, k :: 0 <= j < k < i ==> rates[j].effectiveAt < rates[k].effectiveAt
    {
      if rates[i].arrivalsPerHour == 0 || rates[i].effectiveAt == 0 {
        return false;
      }
      if i > 0 && !(rates[i].effectiveAt > rates[i - 1].effectiveAt) {
        return false;
      }
    }
    return true;
  }

  /** The spacing of a rate, rounded up to the nanosecond. */
  function Interval(rate: RatePoint): (step: int)
    requires rate.arrivalsPerHour > 0
    ensures step > 0
  {
    (HOUR + rate.arrivalsPerHour - 1) / rate.arrivalsPerHour
  }

  /** Rate `i` is the one in force at `t`. */
  predicate InForce(rates: seq<RatePoint>, i: int, t: Time) {
    0 <= i < |rates| && rates[i].effectiveAt <= t && (i + 1 < |rates| ==> t < rates[i + 1].effectiveAt)
  }

  /** A whole number of steps after the rate's start. */
  predicate OnOwnGrid(rate: RatePoint, t: Time) {
    rate.arrivalsPerHour > 0 && t >= rate.effectiveAt && (t - rate.effectiveAt) % Interval(rate) == 0
  }

  predicate GridPoint(rates: seq<RatePoint>, i: int, t: Time) {
    InForce(rates, i, t) && OnOwnGrid(rates[i], t)
  }

  ghost predicate OnGrid(rates: seq<RatePoint>, t: Time) {
    exists i :: GridPoint(rates, i, t)
  }

  /** The first point of a rate's own grid after a time, wherever the next rate takes over. */
  function NextPoint(rate: RatePoint, after: Time): Time
    requires rate.arrivalsPerHour > 0
  {
    if after < rate.effectiveAt then rate.effectiveAt
    else rate.effectiveAt + ((after - rate.effectiveAt) / Interval(rate) + 1) * Interval(rate)
  }

  lemma NextPointIsNext(rate: RatePoint, after: Time)
    requires rate.arrivalsPerHour > 0
    ensures NextPoint(rate, after) > after && OnOwnGrid(rate, NextPoint(rate, after))
  {
    var step := Interval(rate);
    if after >= rate.effectiveAt {
      var d := after - rate.effectiveAt;
      assert d == d / step * step + d % step;
      MultipleModulo(d / step + 1, step);
    }
  }

  lemma MultipleModulo(n: int, step: int)
    requires step > 0
    ensures n * step % step == 0
  {
    assert n * step == n * step + 0;
    DivModUnique(n * step, step, n, 0);
  }

  lemma DivModUnique(d: int, step: int, q: int, r: int)
    requires step > 0 && d == q * step + r && 0 <= r < step
    ensures d / step == q && d % step == r
  {
    var p := d / step - q;
    assert d == d / step * step + d % step;
    assert p * step == r - d % step;
    assert p > 0 ==> p * step >= step;
    assert p < 0 ==> p * step <= -step;
  }

  lemma NothingBeforeNextPoint(rate: RatePoint, after: Time, t: Time)
    requires t > after && OnOwnGrid(rate, t)
    ensures t >= NextPoint(rate, after)
  {
    var step := Interval(rate);
    if after >= rate.effectiveAt {
      var d, e := after - rate.effectiveAt, t - rate.effectiveAt;
      var q, p := d / step, e / step;
      assert d == q * step + d % step && e == p * step;
      assert p <= q ==> p * step <= q * step;
      assert (q + 1) * step <= p * step;
    }
  }

  /** The step from a rate's start would exceed what a duration can hold. */
  predicate StepOverflows(rate: RatePoint, after: Time)
    requires rate.arrivalsPerHour > 0
  {
    after >= rate.effectiveAt && NextPoint(rate, after) - rate.effectiveAt > MAX_DURATION
  }

  /** The difference of two times, cut off at the longest duration. */
  function Sub(t: Time, u: Time): int {
    if t - u > MAX_DURATION then MAX_DURATION else t - u
  }

  lemma StepsOverflow(rate: RatePoint, after: Time)
    requires rate.arrivalsPerHour > 0 && after >= rate.effectiveAt
    ensures var step := Interval(rate);
            var steps := Sub(after, rate.effectiveAt) / step + 1;
            && (steps > MAX_DURATION / step <==> StepOverflows(rate, after))
            && (!StepOverflows(rate, after) ==> rate.effectiveAt + steps * step == NextPoint(rate, after))
  {
    var step := Interval(rate);
    var d := after - rate.effectiveAt;
    DivisionIsMonotone(d / step + 1, step);
    if d > MAX_DURATION {
      NextPointIsNext(rate, after);
    }
  }

  lemma DivisionIsMonotone(n: int, step: int)
    requires step > 0
    ensures n > MAX_DURATION / step <==> n * step > MAX_DURATION
  {
    var q := MAX_DURATION / step;
    assert MAX_DURATION == q * step + MAX_DURATION % step;
    if n > q {
      assert n * step >= (q + 1) * step;
    } else {
      assert n * step <= q * step;
    }
  }

  // ---- Searching ----------------------------------------------------------------------------

  function EndingAfter(gaps: seq<Gap>, t: Time): nat {
    if gaps == [] then 0 else (if gaps[0].end > t then 1 else 0) + EndingAfter(gaps[1..], t)
  }

  lemma {:induction false} FewerEndLater(gaps: seq<Gap>, t: Time, u: Time, k: nat)
    requires t <= u && k <= |gaps|
    ensures EndingAfter(gaps, u) <= EndingAfter(gaps, t)
    ensures k < |gaps| && t < gaps[k].end <= u ==> EndingAfter(gaps, u) < EndingAfter(gaps, t)
  {
    if gaps != [] {
      FewerEndLater(gaps[1..], t, u, if k > 0 then k - 1 else |gaps| - 1);
    }
  }

  /** The library's binary search for the first gap that ends after a time. */
  method FirstEndingAfter(gaps: seq<Gap>, t: Time) returns (i: nat)
    ensures i <= |gaps|
    ensures CanonicalGaps(gaps) ==>
              (forall j :: 0 <= j < i ==> gaps[j].end <= t) && (forall j :: i <= j < |gaps| ==> gaps[j].end > t)
  {
    i := 0;
    var j := |gaps|;
    while i < j
      invariant i <= j <= |gaps|
      invariant CanonicalGaps(gaps) ==>
                  (forall k :: 0 <= k < i ==> gaps[k].end <= t) && (forall k :: j <= k < |gaps| ==> gaps[k].end > t)
    {
      var h := (i + j) / 2;
      if CanonicalGaps(gaps) {
        forall k | 0 <= k < |gaps| && k != h
          ensures if k < h then gaps[k].end < gaps[h].end else gaps[h].end < gaps[k].end
        {
          assert ValidGap(gaps[k]) && ValidGap(gaps[h]);
          assert if k < h then Follows(gaps[k], gaps[h]) else Follows(gaps[h], gaps[k]);
        }
      }
      if gaps[h].end > t {
        j := h;
      } else {
        i := h + 1;
      }
    }
  }

  /** The gap that a time lies in, if any. */
  method GapAt(gaps: seq<Gap>, t: Time) returns (k: nat)
    ensures k <= |gaps| && (k < |gaps| ==> gaps[k].Covers(t))
    ensures CanonicalGaps(gaps) && k == |gaps| ==> !Covered(gaps, t)
  {
    k := FirstEndingAfter(gaps, t);
    while k < |gaps|
      invariant k <= |gaps|
      invariant CanonicalGaps(gaps) ==> forall j :: 0 <= j < k ==> !gaps[j].Covers(t)
    {
      if t < gaps[k].start {
        if CanonicalGaps(gaps) {
          forall j | k <= j < |gaps|
            ensures !gaps[j].Covers(t)
          {
            assert j > k ==> Follows(gaps[k], gaps[j]) && ValidGap(gaps[k]);
          }
        }
        return |gaps|;
      }
      if t < gaps[k].end {
        return k;
      }
      k := k + 1;
    }
  }

  /** `t` is the least grid time after `after` that lies in no gap. */
  ghost predicate IsNextFree(rates: seq<RatePoint>, gaps: seq<Gap>, after: Time, t: Time) {
    && t > after && OnGrid(rates, t) && !Covered(gaps, t)
    && (forall u :: after < u < t && OnGrid(rates, u) ==> Covered(gaps, u))
  }

  /** A time the search may step from: the anchor itself, or the last instant of a gap that ends later. */
  ghost predicate IsAnchor(gaps: seq<Gap>, after: Time, a: Time) {
    a == after || exists k :: 0 <= k < |gaps| && a == gaps[k].end - 1 && a > after
  }

  /** The search runs into a step too long for a duration before it can find a free grid time. */
  ghost predicate Overflows(rates: seq<RatePoint>, gaps: seq<Gap>, after: Time) {
    exists a, i :: OverflowsAt(rates, gaps, after, a, i)
  }

  ghost predicate OverflowsAt(rates: seq<RatePoint>, gaps: seq<Gap>, after: Time, a: Time, i: int) {
    && IsAnchor(gaps, after, a) && InForce(rates, i, a) && rates[i].arrivalsPerHour > 0 && StepOverflows(rates[i], a)
    && forall u :: after < u <= a && OnGrid(rates, u) ==> Covered(gaps, u)
  }

  /** Rate `i` has no grid point between `after` and the rate that follows it. */
  ghost predicate IsSpent(rates: seq<RatePoint>, i: int, after: Time) {
    && 0 <= i && i + 1 < |rates| && rates[i].arrivalsPerHour > 0
    && (forall t :: t > after ==> !GridPoint(rates, i, t))
    && (InForce(rates, i, after) ==> !StepOverflows(rates[i], after))
  }

  lemma SpentBeyondNext(rates: seq<RatePoint>, i: int, after: Time)
    requires 0 <= i && i + 1 < |rates| && rates[i].arrivalsPerHour > 0
    requires after >= rates[i + 1].effectiveAt ||
             (NextPoint(rates[i], after) >= rates[i + 1].effectiveAt && !StepOverflows(rates[i], after))
    ensures IsSpent(rates, i, after)
  {
    forall t | t > after && OnOwnGrid(rates[i], t)
      ensures t >= NextPoint(rates[i], after)
    {
      NothingBeforeNextPoint(rates[i], after, t);
    }
  }

  /** All rates before `i` are spent, and the next point of rate `i` comes while it is still in force. */
  ghost predicate IsCandidate(rates: seq<RatePoint>, i: int, after: Time, t: Time) {
    && ValidSchedule(rates) && 0 <= i < |rates| && (forall j :: 0 <= j < i ==> IsSpent(rates, j, after))
    && !StepOverflows(rates[i], after)
    && t == NextPoint(rates[i], after) && (i + 1 < |rates| ==> t < rates[i + 1].effectiveAt)
  }

  lemma CandidateIsFirst(rates: seq<RatePoint>, i: int, after: Time, t: Time)
    requires IsCandidate(rates, i, after, t)
    ensures t > after && OnGrid(rates, t)
    ensures forall u :: after < u < t ==> !OnGrid(rates, u)
  {
    NextPointIsNext(rates[i], after);
    assert GridPoint(rates, i, t);
    forall u, j | after < u && GridPoint(rates, j, u)
      ensures u >= t
    {
      assert j < i ==> IsSpent(rates, j, after);
      if j == i {
        NothingBeforeNextPoint(rates[i], after, u);
      }
      assert j > i ==> i + 1 == j || rates[i + 1].effectiveAt < rates[j].effectiveAt;
    }
  }

  /** No step from a time before the candidate overflows: it would lead to the candidate, or to a spent rate's point. */
  lemma NoOverflowBefore(rates: seq<RatePoint>, i: int, after: Time, t: Time, a: Time, j: int)
    requires IsCandidate(rates, i, after, t) && after <= a < t && InForce(rates, j, a)
    ensures !StepOverflows(rates[j], a)
  {
    forall m | i < m < |rates|
      ensures t < rates[m].effectiveAt
    {
      assert i + 1 == m || rates[i + 1].effectiveAt < rates[m].effectiveAt;
    }
    assert j <= i;
    assert j < i ==> IsSpent(rates, j, after);
    NextPointIsNext(rates[j], a);
    NextPointIsNext(rates[j], after);
    if after < rates[j].effectiveAt {
      assert GridPoint(rates, j, rates[j].effectiveAt);
    } else {
      var next := NextPoint(rates[j], after);
      assert next <= a && j < i ==> GridPoint(rates, j, next);
      assert next > a;
      NothingBeforeNextPoint(rates[j], a, next);
      NothingBeforeNextPoint(rates[j], after, NextPoint(rates[j], a));
    }
  }

  /** The outcome that the search from `after` must have. */
  ghost predicate IsOpportunity(rates: seq<RatePoint>, gaps: seq<Gap>, after: Time, r: Result<Time>) {
    match r
    case Ok(t) => IsNextFree(rates, gaps, after, t) && !Overflows(rates, gaps, after)
    case Invalid(_) => rates == [] || Overflows(rates, gaps, after)
  }

  lemma FreeCandidate(rates: seq<RatePoint>, gaps: seq<Gap>, i: int, after: Time, t: Time)
    requires IsCandidate(rates, i, after, t) && !Covered(gaps, t)
    ensures IsOpportunity(rates, gaps, after, Ok(t))
  {
    CandidateIsFirst(rates, i, after, t);
    forall a, j | OverflowsAt(rates, gaps, after, a, j)
      ensures a < t && StepOverflows(rates[j], a)
    {
    }
    forall a, j | IsAnchor(gaps, after, a) && a < t && InForce(rates, j, a)
      ensures !StepOverflows(rates[j], a)
    {
      NoOverflowBefore(rates, i, after, t, a, j);
    }
  }

  lemma AnchorBeyondGap(gaps: seq<Gap>, after: Time, t: Time, k: nat, a: Time)
    requires CanonicalGaps(gaps) && k < |gaps| && gaps[k].Covers(t) && after < t && IsAnchor(gaps, after, a) && a >= t
    ensures IsAnchor(gaps, gaps[k].end - 1, a)
  {
    var m :| 0 <= m < |gaps| && a == gaps[m].end - 1;
    assert ValidGap(gaps[m]) && ValidGap(gaps[k]);
    assert m < k ==> Follows(gaps[m], gaps[k]);
    assert m > k ==> Follows(gaps[k], gaps[m]);
  }

  lemma NoOverflowAcrossGap(rates: seq<RatePoint>, gaps: seq<Gap>, i: int, after: Time, t: Time, k: nat, a: Time,
                            j: int)
    requires IsCandidate(rates, i, after, t) && CanonicalGaps(gaps) && k < |gaps| && gaps[k].Covers(t)
    requires OverflowsAt(rates, gaps, after, a, j)
    ensures OverflowsAt(rates, gaps, gaps[k].end - 1, a, j)
  {
    NextPointIsNext(rates[i], after);
    if a < t {
      NoOverflowBefore(rates, i, after, t, a, j);
    } else {
      AnchorBeyondGap(gaps, after, t, k, a);
    }
  }

  lemma CoveredUpToGap(rates: seq<RatePoint>, gaps: seq<Gap>, i: int, after: Time, t: Time, k: nat, u: Time)
    requires IsCandidate(rates, i, after, t) && k < |gaps| && gaps[k].Covers(t) && after < u < gaps[k].end
             && OnGrid(rates, u)
    ensures Covered(gaps, u)
  {
    CandidateIsFirst(rates, i, after, t);
    assert gaps[k].Covers(u);
  }

  /** A gap over the candidate carries the search on from the gap's last instant. */
  lemma CoveredCandidate(rates: seq<RatePoint>, gaps: seq<Gap>, i: int, after: Time, t: Time, k: nat, r: Result<Time>)
    requires IsCandidate(rates, i, after, t) && CanonicalGaps(gaps) && k < |gaps| && gaps[k].Covers(t)
    requires IsOpportunity(rates, gaps, gaps[k].end - 1, r)
    ensures IsOpportunity(rates, gaps, after, r)
  {
    NextPointIsNext(rates[i], after);
    forall u | after < u < gaps[k].end && OnGrid(rates, u)
      ensures Covered(gaps, u)
    {
      CoveredUpToGap(rates, gaps, i, after, t, k, u);
    }
    if r.Ok? {
      forall a, j | OverflowsAt(rates, gaps, after, a, j)
        ensures OverflowsAt(rates, gaps, gaps[k].end - 1, a, j)
      {
        NoOverflowAcrossGap(rates, gaps, i, after, t, k, a, j);
      }
    } else {
      var a, j :| OverflowsAt(rates, gaps, gaps[k].end - 1, a, j);
      assert OverflowsAt(rates, gaps, after, a, j);
    }
  }

  lemma StepTooLong(rates: seq<RatePoint>, gaps: seq<Gap>, i: int, after: Time)
    requires 0 <= i < |rates| && InForce(rates, i, after) && rates[i].arrivalsPerHour > 0
             && StepOverflows(rates[i], after)
    ensures Overflows(rates, gaps, after)
  {
    assert OverflowsAt(rates, gaps, after, after, i);
  }

  /** The next grid point that a rate offers; none if the step there is too long for a duration. The source's last test,
      that the point found lies after the anchor, can then no longer fail. */
  method Candidate(rate: RatePoint, after: Time) returns (candidate: Option<Time>)
    requires rate.arrivalsPerHour > 0
    ensures candidate == if StepOverflows(rate, after) then None else Some(NextPoint(rate, after))
  {
    if after < rate.effectiveAt {
      return Some(rate.effectiveAt);
    }
    var interval := Interval(rate);
    var steps := Sub(after, rate.effectiveAt) / interval + 1;
    StepsOverflow(rate, after);
    if steps > MAX_DURATION / interval {
      return None;
    }
    return Some(rate.effectiveAt + steps * interval);
  }

  /** On a valid schedule and valid gaps: the least grid time after the anchor that lies in no gap, or a failure,
      exactly when there is no rate or the search runs into a step too long for a duration. On any input it ends. */
  method NextClosureOpportunity(group: Group, after: Time) returns (r: Result<Time>)
    ensures ValidSchedule(Schedule(group)) && CanonicalGaps(group.gaps) ==>
              IsOpportunity(Schedule(group), group.gaps, after, r)
    ensures Schedule(group) == [] ==> r.Invalid?
    decreases EndingAfter(group.gaps, after + 1)
  {
    var rates := Schedule(group);
    for index := 0 to |rates|
      invariant ValidSchedule(rates) ==> forall j :: 0 <= j < index ==> IsSpent(rates, j, after)
      invariant index < |rates| || rates == [] || !ValidSchedule(rates)
    {
      var rate := rates[index];
      if rate.arrivalsPerHour == 0 || rate.effectiveAt == 0 {
        return Invalid("runway closure runway grid is invalid");
      }
      if index + 1 < |rates| && !(after < rates[index + 1].effectiveAt) {
        SpentBeyondNext(rates, index, after);
        continue;
      }
      var candidate := Candidate(rate, after);
      if candidate.None? {
        StepTooLong(rates, group.gaps, index, after);
        return Invalid("runway closure next opportunity exceeds the supported range");
      }
      if index + 1 < |rates| && !(candidate.value < rates[index + 1].effectiveAt) {
        SpentBeyondNext(rates, index, after);
        continue;
      }
      var k := GapAt(group.gaps, candidate.value);
      if k == |group.gaps| {
        if ValidSchedule(rates) && CanonicalGaps(group.gaps) {
          FreeCandidate(rates, group.gaps, index, after, candidate.value);
        }
        return Ok(candidate.value);
      }
      NextPointIsNext(rate, after);
      FewerEndLater(group.gaps, after + 1, group.gaps[k].end, k);
      r := NextClosureOpportunity(group, group.gaps[k].end - 1);
      if ValidSchedule(rates) && CanonicalGaps(group.gaps) {
        CoveredCandidate(rates, group.gaps, index, after, candidate.value, k, r);
      }
      return r;
    }
    return Invalid("runway closure runway has no later grid opportunity");
  }

  // ---- Normalizing a closure ------------------------------------------------------------------------------

  datatype LandingSlot = LandingSlot(groupId: string, revision: int, time: Time)

  datatype Arrival = Arrival(callsign: string, selectedGroup: Option<string>, slot: Option<LandingSlot>)

  datatype AirportState = AirportState(revision: int, groups: seq<Group>, flights: seq<Arrival>)

  /** A start is given either as a time or as the aircraft to close behind; no end means until further notice. */
  datatype ClosureInput = ClosureInput(groupId: string, start: Option<Time>, afterCallsign: Option<string>,
                                       end: Option<Time>)

  datatype Closure = Closure(start: Time, end: Option<Time>)

  function FindGroup(groups: seq<Group>, id: string): Option<Group> {
    if groups == [] then None else if groups[0].id == id then Some(groups[0]) else FindGroup(groups[1..], id)
  }

  function FindFlight(flights: seq<Arrival>, callsign: string): Option<Arrival> {
    if flights == [] then None
    else if flights[0].callsign == callsign then Some(flights[0])
    else FindFlight(flights[1..], callsign)
  }

  /** The time of the anchor's slot, if the anchor holds a current slot on this runway group. */
  function AnchorTime(input: ClosureInput, state: AirportState): Option<Time> {
    if input.afterCallsign.None? || !IsTrimmedNonEmpty(input.afterCallsign.value) then None
    else match FindFlight(state.flights, input.afterCallsign.value)
      case None => None
      case Some(f) =>
        if f.selectedGroup == Some(input.groupId) && f.slot.Some? && f.slot.value.groupId == input.groupId &&
           f.slot.value.revision == state.revision && f.slot.value.time != 0
        then Some(f.slot.value.time) else None
  }

  /** The one start that an acceptable input stands for. */
  ghost predicate IsStart(input: ClosureInput, state: AirportState, s: Time) {
    && IsTrimmedNonEmpty(input.groupId) && input.start.None? != input.afterCallsign.None?
    && FindGroup(state.groups, input.groupId).Some?
    && var group := FindGroup(state.groups, input.groupId).value;
       if input.start.Some? then s == input.start.value && s != 0
       else AnchorTime(input, state).Some? &&
            IsOpportunity(Schedule(group), group.gaps, AnchorTime(input, state).value, Ok(s))
  }

  predicate EndsAfter(end: Option<Time>, s: Time) {
    end.Some? ==> end.value != 0 && s < end.value
  }

  lemma OneOpportunity(rates: seq<RatePoint>, gaps: seq<Gap>, after: Time, r: Result<Time>, t: Time)
    requires IsOpportunity(rates, gaps, after, r) && IsOpportunity(rates, gaps, after, Ok(t))
    ensures r == Ok(t)
  {
  }

  method GroupOf(groups: seq<Group>, id: string) returns (g: Option<Group>)
    ensures g == FindGroup(groups, id)
  {
    for i := 0 to |groups|
      invariant FindGroup(groups[i..], id) == FindGroup(groups, id)
    {
      if groups[i].id == id {
        return Some(groups[i]);
      }
      assert groups[i..][1..] == groups[i + 1..];
    }
    return None;
  }

  method FlightOf(flights: seq<Arrival>, callsign: string) returns (f: Option<Arrival>)
    ensures f == FindFlight(flights, callsign)
  {
    for i := 0 to |flights|
      invariant FindFlight(flights[i..], callsign) == FindFlight(flights, callsign)
    {
      if flights[i].callsign == callsign {
        return Some(flights[i]);
      }
      assert flights[i..][1..] == flights[i + 1..];
    }
    return None;
  }

  method AnchorOf(input: ClosureInput, state: AirportState) returns (r: Result<Time>)
    requires input.afterCallsign.Some?
    ensures if AnchorTime(input, state).Some? then r == Ok(AnchorTime(input, state).value) else r.Invalid?
  {
    if !IsTrimmedNonEmpty(input.afterCallsign.value) {
      return Invalid("runway closure anchor aircraft is required");
    }
    var flight := FlightOf(state.flights, input.afterCallsign.value);
    if flight.None? {
      return Invalid("runway closure anchor aircraft does not exist");
    }
    var f := flight.value;
    if f.selectedGroup.None? || f.slot.None? {
      return Invalid("runway closure anchor is not assigned");
    }
    if f.selectedGroup.value != input.groupId || f.slot.value.groupId != input.groupId {
      return Invalid("runway closure anchor belongs to another runway group");
    }
    if f.slot.value.revision != state.revision {
      return Invalid("runway closure anchor slot is stale");
    }
    if f.slot.value.time == 0 {
      return Invalid("runway closure anchor slot is required");
    }
    return Ok(f.slot.value.time);
  }

  ghost predicate SoundCapacity(state: AirportState) {
    forall g :: g in state.groups ==> ValidSchedule(Schedule(g)) && CanonicalGaps(g.gaps)
  }

  /** What validation accepts is sound for the search. */
  lemma ValidatedIsSound(state: AirportState)
    requires ValidGroups(state.groups) && forall g :: g in state.groups ==> ValidRates(g)
    ensures SoundCapacity(state)
  {
    forall g | g in state.groups
      ensures ValidSchedule(Schedule(g)) && CanonicalGaps(g.gaps)
    {
      var n :| 0 <= n < |state.groups| && state.groups[n] == g;
      assert ValidGroup(g, state.groups[..n]);
      FineGapsMeans(g.gaps, AllIds(state.groups[..n]));
      ValidRatesSuffice(g);
    }
  }

  /** In a state with valid schedules and gaps an input is accepted exactly when it determines a start before its
      end. */
  method NormalizeRunwayClosureInterval(input: ClosureInput, state: AirportState) returns (r: Result<Closure>)
    ensures SoundCapacity(state) && r.Ok? ==> IsStart(input, state, r.value.start)
    ensures r.Ok? ==> EndsAfter(input.end, r.value.start) && r.value.end == input.end
    ensures SoundCapacity(state) && r.Invalid? ==> forall s :: IsStart(input, state, s) ==> !EndsAfter(input.end, s)
  {
    if !IsTrimmedNonEmpty(input.groupId) {
      return Invalid("runway closure runway group is required");
    }
    if input.start.None? == input.afterCallsign.None? {
      return Invalid("runway closure requires exactly one absolute or after-aircraft start");
    }
    var group := GroupOf(state.groups, input.groupId);
    if group.None? {
      return Invalid("runway closure runway group does not exist");
    }
    GroupIsListed(state.groups, input.groupId);
    var start := 0;
    if input.start.Some? {
      if input.start.value == 0 {
        return Invalid("runway closure start is required");
      }
      start := input.start.value;
    } else {
      var anchor := AnchorOf(input, state);
      if anchor.Invalid? {
        return Invalid(anchor.message);
      }
      var found := NextClosureOpportunity(group.value, anchor.value);
      forall s | SoundCapacity(state) && IsStart(input, state, s)
        ensures found == Ok(s)
      {
        OneOpportunity(Schedule(group.value), group.value.gaps, anchor.value, found, s);
      }
      if found.Invalid? {
        return Invalid(found.message);
      }
      start := found.value;
    }
    if input.end.Some? {
      if input.end.value == 0 {
        return Invalid("runway closure end is required");
      }
      if !(start < input.end.value) {
        return Invalid("runway closure start must be before end");
      }
    }
    return Ok(Closure(start, input.end));
  }

  lemma {:induction false} GroupIsListed(groups: seq<Group>, id: string)
    requires FindGroup(groups, id).Some?
    ensures FindGroup(groups, id).value in groups
  {
    if groups[0].id != id {
      GroupIsListed(groups[1..], id);
    }
  }
}
