/** What a recalculation pass guarantees: the slot list is the published timetable, it has one entry per
    callsign, and whatever the pass placed keeps its distance. */
module Timetable {
  import opened Text
  import opened Clock
  import opened Config
  import opened Separation
  import opened Search
  import opened Departure
  import opened Strips
  import opened Sorting
  import opened Ordering
  import opened Sequence

  // ---- Facts about slot lists ------------------------------------------------------

  predicate IsSeed(h: Held) {
    h.how == Preserved || h.how == Reserved
  }

  ghost predicate AllSeeds(held: seq<Held>) {
    forall h :: h in held ==> IsSeed(h)
  }

  /** Preserved and reserved slots come first; each placed entry is free of conflict with everything before it. */
  ghost predicate Clear(held: seq<Held>, cfg: AirportConfig) {
    held == [] ||
    var n := |held| - 1;
    && Clear(held[..n], cfg)
    && (IsSeed(held[n]) ==> AllSeeds(held[..n]))
    && (held[n].how.Placed? ==>
          held[n].slot.ttot.At? && !Blocked(held[n].slot.ttot.sec, held[n].slot.who, Slots(held[..n]), cfg))
  }

  ghost predicate Unique(held: seq<Held>) {
    forall i, j :: 0 <= i < j < |held| ==> Name(held[i]) != Name(held[j])
  }

  lemma {:induction false} SlotsOf(held: seq<Held>, s: SlotEntry)
    ensures s in Slots(held) <==> exists h :: h in held && h.slot == s
  {
    if held != [] {
      var n := |held| - 1;
      SlotsOf(held[..n], s);
      assert held == held[..n] + [held[n]];
    }
  }

  lemma FewerSlotsBlockLess(t: Second, who: Profile, a: seq<SlotEntry>, b: seq<SlotEntry>, cfg: AirportConfig)
    requires forall s :: s in a ==> s in b
    ensures Blocked(t, who, a, cfg) ==> Blocked(t, who, b, cfg)
  {
    BlockedBySome(t, who, a, cfg);
    BlockedBySome(t, who, b, cfg);
  }

  lemma SubListSlots(a: seq<Held>, b: seq<Held>)
    requires forall h :: h in a ==> h in b
    ensures forall s :: s in Slots(a) ==> s in Slots(b)
  {
    forall s | s in Slots(a)
      ensures s in Slots(b)
    {
      SlotsOf(a, s);
      SlotsOf(b, s);
    }
  }

  lemma {:induction false} ClearWithout(held: seq<Held>, k: nat, cfg: AirportConfig)
    requires Clear(held, cfg) && k < |held|
    ensures Clear(held[..k] + held[k + 1..], cfg)
  {
    var n := |held| - 1;
    var out := held[..k] + held[k + 1..];
    if k == n {
      assert out == held[..n];
    } else {
      ClearWithout(held[..n], k, cfg);
      var init := held[..n][..k] + held[..n][k + 1..];
      assert out[..|out| - 1] == init;
      SubListSlots(init, held[..n]);
      FewerSlotsBlockLess(if held[n].slot.ttot.At? then held[n].slot.ttot.sec else 0, held[n].slot.who,
                          Slots(init), Slots(held[..n]), cfg);
    }
  }

  /** Removing a callsign keeps the list clear and unique and touches no other callsign. */
  lemma RemoveKeepsOrder(held: seq<Held>, name: string, cfg: AirportConfig)
    requires Clear(held, cfg) && Unique(held)
    ensures Clear(RemoveSlotFor(held, name), cfg) && Unique(RemoveSlotFor(held, name))
    ensures !HasSlotFor(RemoveSlotFor(held, name), name)
    ensures forall h :: Name(h) != name ==> (h in held <==> h in RemoveSlotFor(held, name))
    ensures forall h :: h in RemoveSlotFor(held, name) ==> h in held
  {
    var k := FirstFor(held, name, 0);
    if k < |held| {
      ClearWithout(held, k, cfg);
      CutOut(held, k);
    }
  }

  lemma CutOut(held: seq<Held>, k: nat)
    requires Unique(held) && k < |held|
    ensures var out := held[..k] + held[k + 1..];
            && Unique(out)
            && (forall h :: h in out ==> h in held && Name(h) != Name(held[k]))
            && (forall h :: h in held && Name(h) != Name(held[k]) ==> h in out)
  {
    var out := held[..k] + held[k + 1..];
    forall i | 0 <= i < |out|
      ensures out[i] in held && Name(out[i]) != Name(held[k])
    {
      assert out[i] == held[if i < k then i else i + 1];
    }
    forall i | 0 <= i < |held| && i != k
      ensures held[i] in out
    {
      assert held[i] == out[if i < k then i else i - 1];
    }
  }

  lemma AppendKeepsOrder(held: seq<Held>, h: Held, cfg: AirportConfig)
    requires Clear(held, cfg) && Unique(held) && !HasSlotFor(held, Name(h))
    requires IsSeed(h) ==> AllSeeds(held)
    requires h.how.Placed? ==> h.slot.ttot.At? && !Blocked(h.slot.ttot.sec, h.slot.who, Slots(held), cfg)
    ensures Clear(held + [h], cfg) && Unique(held + [h])
    ensures forall g :: Name(g) != Name(h) ==> (g in held <==> g in held + [h])
    ensures forall g :: g in held + [h] && Name(g) == Name(h) ==> g == h
  {
    assert (held + [h])[..|held|] == held;
    forall i | 0 <= i < |held|
      ensures Name(held[i]) != Name(h)
    {
      assert held[i] in held;
    }
  }

  // ---- One flight of the queue ---------------------------------------------------------

  /** The list holds the flight exactly when it has a TTOT, and at that TTOT. */
  ghost predicate Seated(c: Candidate, held: seq<Held>, ttot: Clock) {
    && (ttot != Absent ==> exists h :: h in held && h.slot == SlotEntry(ProfileOf(c.strip), ttot))
    && (forall h :: h in held && Name(h) == NameOf(c) ==>
          ttot != Absent && h.slot == SlotEntry(ProfileOf(c.strip), ttot))
  }

  /** Before its turn a flight is listed by the reservation of its own slot, if it is improve-only, or not at all. */
  ghost predicate Waiting(c: Candidate, held: seq<Held>, now: Instant) {
    && (forall h :: h in held && Name(h) == NameOf(c) ==>
          h.how == Reserved && c.improvement && c.slot == Some(h.slot) && !TsatExpired(c.strip, now))
    && (c.improvement && c.slot.Some? && !TsatExpired(c.strip, now) ==> HasSlotFor(held, NameOf(c)))
  }

  ghost predicate WellMade(c: Candidate, cfg: AirportConfig, now: Instant) {
    c == MakeCandidate(c.strip, cfg, now)
  }

  function TtotAfter(c: Candidate, write: Option<CdmData>): Clock {
    if write.Some? then write.value.ttot else c.strip.data.ttot
  }

  /** An improve-only flight whose slot is not reserved, because its TSAT expired, but which is recalculated all the
      same, because its pushback was prepared and it is still on its stand. */
  predicate LateImprover(s: Strip, now: Instant) {
    s.data.mode == ImproveOnly && s.data.ttot != Absent && TsatExpired(s, now) && AllowsStartedRecalculation(s)
  }

  ghost predicate GoodOutcome(c: Candidate, held: seq<Held>, o: Outcome, cfg: AirportConfig, now: Instant) {
    && Clear(o.held, cfg) && Unique(o.held)
    && (forall h :: Name(h) != NameOf(c) ==> (h in held <==> h in o.held))
    && Seated(c, o.held, TtotAfter(c, o.write))
    && (forall h :: h in o.held && Name(h) == NameOf(c) ==>
          h.how != Preserved && (h.how == Kept ==> LateImprover(c.strip, now)))
  }

  lemma CalculatedIsFree(input: CalcInput, slots: seq<SlotEntry>, cfg: AirportConfig, now: Instant)
    requires Calculate(input, slots, cfg, now).Ends? && Calculate(input, slots, cfg, now).value.ttot != Absent
    ensures var t := Calculate(input, slots, cfg, now).value.ttot; t.At? && !Blocked(t.sec, input.who, slots, cfg)
  {
    AssignmentShape(input, slots, cfg, now);
    RestsOnTheFirstFreePoint(Unconstrained(input, cfg, now).sec, input.who, slots, cfg);
  }

  lemma AppendSeats(c: Candidate, base: seq<Held>, h: Held, write: Option<CdmData>, cfg: AirportConfig, now: Instant)
    requires Clear(base, cfg) && Unique(base) && !HasSlotFor(base, NameOf(c))
    requires h.slot == SlotEntry(ProfileOf(c.strip), TtotAfter(c, write)) && h.slot.ttot != Absent
    requires h.how == Placed || (h.how == Kept && LateImprover(c.strip, now))
    requires h.how == Placed ==> h.slot.ttot.At? && !Blocked(h.slot.ttot.sec, h.slot.who, Slots(base), cfg)
    ensures GoodOutcome(c, base, Outcome(base + [h], write), cfg, now)
  {
    AppendKeepsOrder(base, h, cfg);
    assert h in base + [h];
    assert Seated(c, base + [h], h.slot.ttot);
  }

  lemma StaySeats(c: Candidate, base: seq<Held>, write: Option<CdmData>, cfg: AirportConfig, now: Instant)
    requires Clear(base, cfg) && Unique(base)
    requires forall h :: h in base && Name(h) == NameOf(c) ==>
               h.how == Reserved && TtotAfter(c, write) != Absent
               && h.slot == SlotEntry(ProfileOf(c.strip), TtotAfter(c, write))
    requires TtotAfter(c, write) != Absent ==> HasSlotFor(base, NameOf(c))
    ensures GoodOutcome(c, base, Outcome(base, write), cfg, now)
  {
  }

  lemma PublishSeats(c: Candidate, base: seq<Held>, d: CdmData, how: How, cfg: AirportConfig, now: Instant)
    requires Clear(base, cfg) && Unique(base) && (how == Placed || how == Kept)
    requires forall h :: h in base && Name(h) == NameOf(c) ==>
               h.how == Reserved && d.ttot != Absent && h.slot == SlotEntry(ProfileOf(c.strip), d.ttot)
    requires how == Kept && d.ttot != Absent && !HasSlotFor(base, NameOf(c)) ==> LateImprover(c.strip, now)
    requires how == Placed && d.ttot != Absent ==>
               d.ttot.At? && !Blocked(d.ttot.sec, ProfileOf(c.strip), Slots(base), cfg)
    ensures GoodOutcome(c, base, Publish(c, base, d, how), cfg, now)
  {
    var write := if Differs(c.strip, c.input, d) then Some(d) else None;
    assert TtotAfter(c, write) == d.ttot;
    if d.ttot != Absent && !HasSlotFor(base, NameOf(c)) {
      AppendSeats(c, base, Held(SlotEntry(ProfileOf(c.strip), d.ttot), how), write, cfg, now);
    } else {
      StaySeats(c, base, write, cfg, now);
    }
  }

  /** A result calculated against the list still fits when the flight's own entry has been taken out of it. */
  lemma PlacedSeats(c: Candidate, held: seq<Held>, result: CalcResult, proposal: CalcResult, cfg: AirportConfig,
                    now: Instant)
    requires WellMade(c, cfg, now) && Clear(held, cfg) && Unique(held) && Waiting(c, held, now)
    requires Calculate(c.input, Slots(held), cfg, now) == Ends(result)
    ensures var base := if c.improvement then RemoveSlotFor(held, NameOf(c)) else held;
            GoodOutcome(c, held, Publish(c, base, Assigned(c.strip, result, proposal), Placed), cfg, now)
  {
    var base := if c.improvement then RemoveSlotFor(held, NameOf(c)) else held;
    RemoveKeepsOrder(held, NameOf(c), cfg);
    var d := Assigned(c.strip, result, proposal);
    if d.ttot != Absent {
      CalculatedIsFree(c.input, Slots(held), cfg, now);
      SubListSlots(base, held);
      FewerSlotsBlockLess(d.ttot.sec, c.input.who, Slots(base), Slots(held), cfg);
    }
    PublishSeats(c, base, d, Placed, cfg, now);
  }

  lemma ReassignSeats(c: Candidate, held: seq<Held>, all: seq<Candidate>, cfg: AirportConfig, now: Instant)
    requires WellMade(c, cfg, now) && Clear(held, cfg) && Unique(held) && Waiting(c, held, now)
    requires TsatExpired(c.strip, now) ==> AllowsStartedRecalculation(c.strip)
    requires Reassign(c, held, all, cfg, now).Ends?
    ensures GoodOutcome(c, held, Reassign(c, held, all, cfg, now).value, cfg, now)
  {
    var s := c.strip;
    var result := Calculate(c.input, Slots(held), cfg, now).value;
    var adopts := IsEarlierClock(result.tsat, s.data.tsat) &&
                  KeepsQueueOrder(c, result.ttot, Slots(held), all, cfg, now).value;
    if c.improvement && !adopts {
      PublishSeats(c, held, s.data.ClearPending(), Kept, cfg, now);
    } else {
      var base := if c.improvement then RemoveSlotFor(held, NameOf(c)) else held;
      PlacedSeats(c, held, result, Calculate(ProposalInput(s, c.input), Slots(base), cfg, now).value, cfg, now);
    }
  }

  lemma ExpireSeats(c: Candidate, held: seq<Held>, cfg: AirportConfig, now: Instant)
    requires WellMade(c, cfg, now) && Clear(held, cfg) && Unique(held) && Waiting(c, held, now)
    requires TsatExpired(c.strip, now)
    ensures GoodOutcome(c, held, Expire(c, held), cfg, now)
  {
    RemoveKeepsOrder(held, NameOf(c), cfg);
    var o := Expire(c, held);
    assert !HasSlotFor(o.held, NameOf(c));
  }

  lemma RecalculateSeats(c: Candidate, held: seq<Held>, all: seq<Candidate>, o: Outcome, cfg: AirportConfig,
                         now: Instant)
    requires WellMade(c, cfg, now) && Clear(held, cfg) && Unique(held) && Waiting(c, held, now)
    requires Recalculate(c, held, all, cfg, now) == Ends(o)
    ensures GoodOutcome(c, held, o, cfg, now)
  {
    if TsatExpired(c.strip, now) && !AllowsStartedRecalculation(c.strip) {
      ExpireSeats(c, held, cfg, now);
    } else {
      ReassignSeats(c, held, all, cfg, now);
    }
  }

  /** Whatever branch a flight takes, the list stays clear and unique, other flights keep their entries, and its
      own entry is exactly its published TTOT. */
  lemma SettleSeats(c: Candidate, held: seq<Held>, all: seq<Candidate>, o: Outcome, cfg: AirportConfig, now: Instant)
    requires WellMade(c, cfg, now) && Clear(held, cfg) && Unique(held) && Waiting(c, held, now)
    requires c.started ==> IsRecalculated(c, now)
    requires Settle(c, held, all, cfg, now) == Ends(o)
    ensures GoodOutcome(c, held, o, cfg, now)
  {
    if Recalculate(c, held, all, cfg, now) == Ends(o) {
      RecalculateSeats(c, held, all, o, cfg, now);
    } else if c.slot.None? {
      StaySeats(c, held, None, cfg, now);
    } else {
      CalculatedIsFree(c.input, Slots(held), cfg, now);
      AppendSeats(c, held, Held(c.slot.value, Placed), None, cfg, now);
    }
  }

  // ---- The whole queue -------------------------------------------------------------------

  ghost predicate DistinctNames(s: seq<Candidate>) {
    forall i, j :: 0 <= i < j < |s| ==> NameOf(s[i]) != NameOf(s[j])
  }

  function Published(c: Candidate, writes: map<string, CdmData>): CdmData {
    if c.strip.callsign in writes then writes[c.strip.callsign] else c.strip.data
  }

  ghost predicate IsDone(c: Candidate, st: PassState) {
    Seated(c, st.held, Published(c, st.writes).ttot)
  }

  ghost predicate IsDue(c: Candidate, st: PassState, cfg: AirportConfig, now: Instant) {
    && WellMade(c, cfg, now) && (c.started ==> IsRecalculated(c, now))
    && Waiting(c, st.held, now) && c.strip.callsign !in st.writes
  }

  /** Every entry belongs to some flight of the pass, and only late improvers were put back unchecked. */
  ghost predicate Accounted(held: seq<Held>, flights: seq<Candidate>, now: Instant) {
    forall h :: h in held ==>
      exists c :: c in flights && NameOf(c) == Name(h) && (h.how == Kept ==> LateImprover(c.strip, now))
  }

  ghost predicate Inv(queue: seq<Candidate>, done: seq<Candidate>, st: PassState, cfg: AirportConfig, now: Instant) {
    && Clear(st.held, cfg) && Unique(st.held) && DistinctNames(done + queue)
    && Accounted(st.held, done + queue, now)
    && (forall c :: c in done ==> IsDone(c, st))
    && (forall c :: c in queue ==> IsDue(c, st, cfg, now))
  }

  lemma OthersUnmoved(c: Candidate, d: Candidate, st: PassState, o: Outcome, cfg: AirportConfig, now: Instant)
    requires NameOf(c) != NameOf(d) && GoodOutcome(c, st.held, o, cfg, now)
    ensures var after := PassState(o.held, Record(st.writes, c, o.write));
            && (IsDone(d, st) ==> IsDone(d, after))
            && (IsDue(d, st, cfg, now) ==> IsDue(d, after, cfg, now))
  {
    forall h | Name(h) == NameOf(d)
      ensures h in st.held <==> h in o.held
    {
    }
    assert forall t :: Name(Held(SlotEntry(ProfileOf(d.strip), t), Placed)) == NameOf(d);
  }

  lemma StepKeepsInv(queue: seq<Candidate>, done: seq<Candidate>, st: PassState, o: Outcome, cfg: AirportConfig,
                     now: Instant)
    requires queue != [] && Inv(queue, done, st, cfg, now) && GoodOutcome(queue[0], st.held, o, cfg, now)
    ensures Inv(queue[1..], done + [queue[0]], PassState(o.held, Record(st.writes, queue[0], o.write)), cfg, now)
  {
    var c := queue[0];
    var flights := done + queue;
    assert (done + [c]) + queue[1..] == flights;
    var after := PassState(o.held, Record(st.writes, c, o.write));
    assert IsDue(c, st, cfg, now);
    assert IsDone(c, after);
    forall d | d in done
      ensures IsDone(d, after)
    {
      var i :| 0 <= i < |done| && done[i] == d;
      assert flights[i] == d && flights[|done|] == c;
      OthersUnmoved(c, d, st, o, cfg, now);
    }
    forall d | d in queue[1..]
      ensures IsDue(d, after, cfg, now)
    {
      var i :| 0 < i < |queue| && queue[i] == d;
      assert flights[|done| + i] == d && flights[|done|] == c;
      OthersUnmoved(c, d, st, o, cfg, now);
    }
    forall h | h in o.held
      ensures exists d :: d in flights && NameOf(d) == Name(h) && (h.how == Kept ==> LateImprover(d.strip, now))
    {
      if Name(h) == NameOf(c) {
        assert flights[|done|] in flights;
      } else {
        assert h in st.held;
      }
    }
  }

  lemma NextStep(queue: seq<Candidate>, st: PassState, all: seq<Candidate>, cfg: AirportConfig, now: Instant)
    returns (o: Outcome)
    requires queue != [] && Drain(queue, st, all, cfg, now).Ends?
    ensures Settle(queue[0], st.held, all, cfg, now) == Ends(o)
    ensures Drain(queue, st, all, cfg, now) ==
            Drain(queue[1..], PassState(o.held, Record(st.writes, queue[0], o.write)), all, cfg, now)
  {
    o := Settle(queue[0], st.held, all, cfg, now).value;
  }

  lemma NextStepIsGood(queue: seq<Candidate>, done: seq<Candidate>, st: PassState, all: seq<Candidate>,
                       cfg: AirportConfig, now: Instant, end: PassState) returns (after: PassState)
    requires queue != [] && Inv(queue, done, st, cfg, now) && Drain(queue, st, all, cfg, now) == Ends(end)
    ensures Inv(queue[1..], done + [queue[0]], after, cfg, now)
    ensures Drain(queue[1..], after, all, cfg, now) == Ends(end)
  {
    var o := NextStep(queue, st, all, cfg, now);
    var c := queue[0];
    assert IsDue(c, st, cfg, now);
    SettleSeats(c, st.held, all, o, cfg, now);
    StepKeepsInv(queue, done, st, o, cfg, now);
    after := PassState(o.held, Record(st.writes, c, o.write));
  }

  lemma HeadMoves(done: seq<Candidate>, queue: seq<Candidate>)
    requires queue != []
    ensures multiset(done + [queue[0]]) + multiset(queue[1..]) == multiset(done) + multiset(queue)
  {
    assert queue == [queue[0]] + queue[1..];
  }

  /** Draining the queue keeps the invariant and brings every flight of it to its end. */
  lemma {:induction false} DrainKeepsInv(queue: seq<Candidate>, done: seq<Candidate>, st: PassState,
                                         all: seq<Candidate>, cfg: AirportConfig, now: Instant, end: PassState)
    returns (flights: seq<Candidate>)
    requires Inv(queue, done, st, cfg, now) && Drain(queue, st, all, cfg, now) == Ends(end)
    ensures Inv([], flights, end, cfg, now)
    ensures multiset(flights) == multiset(done) + multiset(queue)
  {
    if queue == [] {
      flights := done;
    } else {
      var after := NextStepIsGood(queue, done, st, all, cfg, now, end);
      flights := DrainKeepsInv(queue[1..], done + [queue[0]], after, all, cfg, now, end);
      HeadMoves(done, queue);
    }
  }
}
