/** One recalculation pass over an airport: `recalculateAirport` of backend/internal/cdm/sequence.go. */
module Sequence {
  import opened Text
  import opened Clock
  import opened Config
  import opened Separation
  import opened Search
  import opened Departure
  import opened Strips
  import opened Sorting
  import opened Ordering

  /** How an entry came into the slot list. `Kept` marks an old assignment put back without a check. */
  datatype How = Preserved | Reserved | Placed | Kept

  datatype Held = Held(slot: SlotEntry, how: How)

  function Slots(held: seq<Held>): seq<SlotEntry> {
    if held == [] then [] else Slots(held[..|held| - 1]) + [held[|held| - 1].slot]
  }

  function Name(h: Held): string {
    Token(h.slot.who.callsign)
  }

  function NameOf(c: Candidate): string {
    Token(c.strip.callsign)
  }

  /** What a pass leaves behind: the slot list and the records it persisted, by callsign. */
  datatype PassState = PassState(held: seq<Held>, writes: map<string, CdmData>)

  // ---- Looking callsigns up in the slot list ----------------------------------------

  predicate HasSlotFor(held: seq<Held>, name: string) {
    exists h :: h in held && Name(h) == name
  }

  /** The first entry of a callsign from index `i` up, or the length of the list. */
  function FirstFor(held: seq<Held>, name: string, i: nat): (k: nat)
    requires i <= |held|
    ensures i <= k <= |held|
    ensures k < |held| ==> Name(held[k]) == name
    ensures forall j :: i <= j < k ==> Name(held[j]) != name
    decreases |held| - i
  {
    if i == |held| || Name(held[i]) == name then i else FirstFor(held, name, i + 1)
  }

  function RemoveSlotFor(held: seq<Held>, name: string): seq<Held> {
    var k := FirstFor(held, name, 0);
    if k < |held| then held[..k] + held[k + 1..] else held
  }

  function SlotFor(slots: seq<SlotEntry>, name: string): Option<SlotEntry> {
    if slots == [] then None
    else if Token(slots[0].who.callsign) == name then Some(slots[0])
    else SlotFor(slots[1..], name)
  }

  function WithoutCallsign(slots: seq<SlotEntry>, name: string): seq<SlotEntry> {
    if slots == [] then []
    else (if Token(slots[0].who.callsign) != name then [slots[0]] else []) + WithoutCallsign(slots[1..], name)
  }

  // ---- Which current slots survive -----------------------------------------------------

  /** A preserved slot clashes only on an equal time or on same-destination spacing. */
  predicate Clashes(e: SlotEntry, slot: SlotEntry, cfg: AirportConfig) {
    && Token(slot.who.origin) == Token(e.who.origin)
    && (|| TooCloseToSameDestination(e.ttot, e.who.destination, slot)
        || (SameOrDependentRunway(cfg, e.who.depRwy, slot.who.depRwy) && slot.ttot == e.ttot))
  }

  predicate HasPreservedSlotConflict(e: SlotEntry, slots: seq<SlotEntry>, cfg: AirportConfig) {
    exists s :: s in slots && Clashes(e, s, cfg)
  }

  /** Whether a pending flight outranks a preserved one and would have to move because of its slot. */
  function IsBlockedBy(p: Candidate, c: Candidate, slot: SlotEntry, cfg: AirportConfig, now: Instant): Run<bool> {
    if p.improvement || p.started || p.natural == Absent || (!p.hasCtot && !p.input.tobtAuthoritative) ||
       Compare(p, c, now, false) >= 0 then Ends(false)
    else
      var r :- Calculate(p.input, [slot], cfg, now);
      Ends(r.ttot != p.natural)
  }

  function BlocksHigherPriority(c: Candidate, slot: SlotEntry, pending: seq<Candidate>, cfg: AirportConfig,
                                now: Instant): Run<bool>
  {
    if pending == [] then Ends(false)
    else
      var blocked :- IsBlockedBy(pending[0], c, slot, cfg, now);
      if blocked then Ends(true) else BlocksHigherPriority(c, slot, pending[1..], cfg, now)
  }

  /** Preserves current slots one by one; a demoted flight joins the recalculation. */
  function Preserve(todo: seq<Candidate>, held: seq<Held>, recalc: seq<Candidate>, cfg: AirportConfig, now: Instant):
    Run<(seq<Held>, seq<Candidate>)>
    requires forall c :: c in todo ==> c.slot.Some?
  {
    if todo == [] then Ends((held, recalc))
    else
      var c := todo[0];
      var slot := c.slot.value;
      var demoted :- Demoted(c, slot, held, recalc, cfg, now);
      if demoted then Preserve(todo[1..], held, recalc + [c], cfg, now)
      else Preserve(todo[1..], held + [Held(slot, Preserved)], recalc, cfg, now)
  }

  function Demoted(c: Candidate, slot: SlotEntry, held: seq<Held>, recalc: seq<Candidate>, cfg: AirportConfig,
                   now: Instant): Run<bool>
  {
    if c.started then Ends(false)
    else if HasPreservedSlotConflict(slot, Slots(held), cfg) then Ends(true)
    else BlocksHigherPriority(c, slot, recalc, cfg, now)
  }

  /** The slot of an improve-only flight stays reserved while it probes for an earlier one. */
  function Reserve(todo: seq<Candidate>, held: seq<Held>, now: Instant): seq<Held> {
    if todo == [] then held
    else
      var c := todo[0];
      var more := if c.improvement && c.slot.Some? && !TsatExpired(c.strip, now) && !HasSlotFor(held, NameOf(c))
                  then held + [Held(c.slot.value, Reserved)] else held;
      Reserve(todo[1..], more, now)
  }

  // ---- Queue order ----------------------------------------------------------------------

  /** A predecessor that the queue check looks at: unstarted, ahead, and sharing runway capacity. */
  predicate IsAhead(p: Candidate, c: Candidate, slot: SlotEntry, cfg: AirportConfig, now: Instant) {
    && p.slot.Some? && !p.started && NameOf(p) != NameOf(c)
    && Token(p.slot.value.who.origin) == Token(slot.who.origin)
    && SameOrDependentRunway(cfg, slot.who.depRwy, p.slot.value.who.depRwy)
    && CompareClock(p.slot.value.ttot, slot.ttot, now) < 0
  }

  function CurrentTime(p: Candidate, slots: seq<SlotEntry>): Clock
    requires p.slot.Some?
  {
    match SlotFor(slots, NameOf(p))
    case Some(s) => s.ttot
    case None => p.slot.value.ttot
  }

  /** Whether a predecessor could use the opening itself: it is not already ahead of the proposed time, and
      it has a time earlier than its own and no later than the proposed one. */
  function HasFirstClaim(p: Candidate, proposed: Clock, slots: seq<SlotEntry>, probe: seq<SlotEntry>,
                         cfg: AirportConfig, now: Instant): Run<bool>
    requires p.slot.Some?
  {
    var current := CurrentTime(p, slots);
    if CompareClock(current, proposed, now) < 0 then Ends(false)
    else
      var r :- Calculate(p.input, probe, cfg, now);
      Ends(r.ttot != Absent && CompareClock(r.ttot, current, now) < 0 && CompareClock(r.ttot, proposed, now) <= 0)
  }

  function NobodyAheadClaims(c: Candidate, slot: SlotEntry, proposed: Clock, slots: seq<SlotEntry>,
                             probe: seq<SlotEntry>, all: seq<Candidate>, cfg: AirportConfig, now: Instant): Run<bool>
  {
    if all == [] then Ends(true)
    else
      var claims :- (if IsAhead(all[0], c, slot, cfg, now) then HasFirstClaim(all[0], proposed, slots, probe, cfg, now)
                     else Ends(false));
      if claims then Ends(false) else NobodyAheadClaims(c, slot, proposed, slots, probe, all[1..], cfg, now)
  }

  function KeepsQueueOrder(c: Candidate, proposed: Clock, slots: seq<SlotEntry>, all: seq<Candidate>,
                           cfg: AirportConfig, now: Instant): Run<bool>
  {
    if c.slot.None? || proposed == Absent then Ends(c.slot.Some?)
    else NobodyAheadClaims(c, c.slot.value, proposed, slots, WithoutCallsign(slots, NameOf(c)), all, cfg, now)
  }

  // ---- One flight of the queue ---------------------------------------------------------------

  function StoredTaxi(input: CalcInput): int {
    if input.taxiMin > 0 then input.taxiMin else 0
  }

  function Invalidated(s: Strip): CdmData {
    s.data.ClearPending().(invalidPhase := true, expiredTsat := s.data.tsat, tsat := Absent, ttot := Absent,
                           staleTsatReason := true, taxiMinutes := StoredTaxi(BuildCalcInput(s)),
                           taxiRunway := s.runway)
  }

  function Assigned(s: Strip, result: CalcResult, proposal: CalcResult): CdmData {
    var stale := result.tsat == Absent && s.data.expiredTsat != Absent;
    s.data.ClearPending().(proposalTsat := proposal.tsat, proposalTtot := proposal.ttot, tsat := result.tsat,
                           ttot := result.ttot,
                           invalidPhase := stale, staleTsatReason := stale,
                           expiredTsat := if stale then s.data.expiredTsat else Absent,
                           taxiMinutes := StoredTaxi(BuildCalcInput(s)), taxiRunway := s.runway)
  }

  /** The proposal exported to the network ignores a network CTOT. */
  function ProposalInput(s: Strip, input: CalcInput): CalcInput {
    if s.data.HasManualCtot() then input
    else input.(ctot := Absent, manCtot := Absent, who := input.who.(manualCtot := false))
  }

  predicate Differs(s: Strip, input: CalcInput, d: CdmData) {
    || s.data.tsat != d.tsat || s.data.ttot != d.ttot || s.data.IsPending()
    || s.data.taxiMinutes != input.taxiMin || Trim(s.data.taxiRunway) != Trim(d.taxiRunway)
    || s.data.proposalTsat != d.proposalTsat || s.data.proposalTtot != d.proposalTtot
  }

  /** The slot list after a flight and the record persisted for it, if any. */
  datatype Outcome = Outcome(held: seq<Held>, write: Option<CdmData>)

  function Expire(c: Candidate, held: seq<Held>): Outcome {
    var d := c.strip.data;
    Outcome(if c.improvement then RemoveSlotFor(held, NameOf(c)) else held,
            if d.invalidPhase && d.tsat == Absent && d.ttot == Absent then None else Some(Invalidated(c.strip)))
  }

  function Publish(c: Candidate, base: seq<Held>, d: CdmData, how: How): Outcome {
    Outcome(if d.ttot != Absent && !HasSlotFor(base, NameOf(c))
            then base + [Held(SlotEntry(ProfileOf(c.strip), d.ttot), how)]
            else base,
            if Differs(c.strip, c.input, d) then Some(d) else None)
  }

  function Reassign(c: Candidate, held: seq<Held>, all: seq<Candidate>, cfg: AirportConfig, now: Instant): Run<Outcome>
  {
    var s := c.strip;
    var result :- Calculate(c.input, Slots(held), cfg, now);
    var adopts :- (if IsEarlierClock(result.tsat, s.data.tsat)
                   then KeepsQueueOrder(c, result.ttot, Slots(held), all, cfg, now)
                   else Ends(false));
    if c.improvement && !adopts then Ends(Publish(c, held, s.data.ClearPending(), Kept))
    else
      var base := if c.improvement then RemoveSlotFor(held, NameOf(c)) else held;
      var proposal :- Calculate(ProposalInput(s, c.input), Slots(base), cfg, now);
      Ends(Publish(c, base, Assigned(s, result, proposal), Placed))
  }

  function Recalculate(c: Candidate, held: seq<Held>, all: seq<Candidate>, cfg: AirportConfig,
                       now: Instant): Run<Outcome>
  {
    if TsatExpired(c.strip, now) && !AllowsStartedRecalculation(c.strip) then Ends(Expire(c, held))
    else Reassign(c, held, all, cfg, now)
  }

  function Settle(c: Candidate, held: seq<Held>, all: seq<Candidate>, cfg: AirportConfig, now: Instant): Run<Outcome> {
    if ShouldRecalculate(c.strip, now) then Recalculate(c, held, all, cfg, now)
    else match c.slot
      case None => Ends(Outcome(held, None))
      case Some(slot) =>
        if c.started then Ends(Outcome(held + [Held(slot, Preserved)], None))
        else
          var r :- Calculate(c.input, Slots(held), cfg, now);
          if r.ttot == slot.ttot then Ends(Outcome(held + [Held(slot, Placed)], None))
          else Recalculate(c, held, all, cfg, now)
  }

  function Record(writes: map<string, CdmData>, c: Candidate, write: Option<CdmData>): map<string, CdmData> {
    if write.Some? then writes[c.strip.callsign := write.value] else writes
  }

  function Drain(queue: seq<Candidate>, st: PassState, all: seq<Candidate>, cfg: AirportConfig,
                 now: Instant): Run<PassState>
  {
    if queue == [] then Ends(st)
    else
      var o :- Settle(queue[0], st.held, all, cfg, now);
      Drain(queue[1..], PassState(o.held, Record(st.writes, queue[0], o.write)), all, cfg, now)
  }

  // ---- The pass -----------------------------------------------------------------------------------

  function Candidates(strips: seq<Strip>, cfg: AirportConfig, now: Instant): seq<Candidate> {
    if strips == [] then []
    else Candidates(strips[..|strips| - 1], cfg, now) + CandidateIfAny(strips[|strips| - 1], cfg, now)
  }

  function CandidateIfAny(s: Strip, cfg: AirportConfig, now: Instant): seq<Candidate> {
    if ShouldSkip(s) then [] else [MakeCandidate(RecoverExpiredTsat(s, now), cfg, now)]
  }

  predicate IsRecalculated(c: Candidate, now: Instant) {
    ShouldRecalculate(c.strip, now) || c.slot.None?
  }

  function Select(all: seq<Candidate>, recalculated: bool, now: Instant): (r: seq<Candidate>)
    ensures !recalculated ==> forall c :: c in r ==> c.slot.Some?
  {
    if all == [] then []
    else Select(all[..|all| - 1], recalculated, now) +
         (if IsRecalculated(all[|all| - 1], now) == recalculated then [all[|all| - 1]] else [])
  }

  function SortCandidates(o: Order, s: seq<Candidate>, now: Instant): (r: seq<Candidate>)
    ensures multiset(r) == multiset(s)
    ensures forall c :: c in r <==> c in s
  {
    SortKeepsAll(By(o, now), s);
    var r := StableSort(By(o, now), s);
    assert forall c :: c in r <==> c in multiset(r);
    r
  }

  /** The slot list and the sorted queue with which the reassignment starts. */
  function Prepare(all: seq<Candidate>, cfg: AirportConfig, now: Instant): Run<(seq<Held>, seq<Candidate>)> {
    var kept :- Preserve(SortCandidates(PreservedOrder, Select(all, false, now), now), [], Select(all, true, now), cfg,
                         now);
    Ends((Reserve(kept.1, kept.0, now), SortCandidates(QueueOrder, kept.1, now)))
  }

  function Pass(strips: seq<Strip>, cfg: AirportConfig, now: Instant): Run<PassState> {
    var all := Candidates(strips, cfg, now);
    var start :- Prepare(all, cfg, now);
    Drain(start.1, PassState(start.0, map[]), all, cfg, now)
  }
}
