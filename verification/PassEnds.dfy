/** With room on the clock for every flight, no search of a pass circles forever. */
module PassEnds {
  import opened Text
  import opened Clock
  import opened Config
  import opened Separation
  import opened Search
  import opened Departure
  import opened Strips
  import opened Sorting
  import opened Ordering
  import opened Sequence
  import opened Timetable
  import opened Guarantees

  /** Even if every flight blocked as many half-minutes as it can, one would stay free. */
  predicate Roomy(strips: seq<Strip>, cfg: AirportConfig) {
    forall s :: s in strips ==> |strips| * Spread(WidestWindow(cfg, s.runway)) < GRID
  }

  ghost predicate RoomFor(all: seq<Candidate>, n: nat, cfg: AirportConfig) {
    forall c :: c in all ==> n * Spread(WidestWindow(cfg, c.input.who.depRwy)) < GRID
  }

  lemma MulMonotone(a: nat, b: nat, x: nat)
    requires a <= b
    ensures a * x <= b * x
  {
  }

  lemma EndsWithFew(input: CalcInput, slots: seq<SlotEntry>, n: nat, cfg: AirportConfig, now: Instant)
    requires |slots| <= n && n * Spread(WidestWindow(cfg, input.who.depRwy)) < GRID
    ensures Calculate(input, slots, cfg, now).Ends?
  {
    MulMonotone(|slots|, n, Spread(WidestWindow(cfg, input.who.depRwy)));
    CalculateEnds(input, slots, cfg, now);
  }

  lemma {:induction false} SlotsLength(held: seq<Held>)
    ensures |Slots(held)| == |held|
  {
    if held != [] {
      SlotsLength(held[..|held| - 1]);
    }
  }

  lemma {:induction false} WithoutIsShorter(slots: seq<SlotEntry>, name: string)
    ensures |WithoutCallsign(slots, name)| <= |slots|
  {
    if slots != [] {
      WithoutIsShorter(slots[1..], name);
    }
  }

  // ---- The list is never longer than the airport -------------------------------------------

  ghost function NamesHeld(held: seq<Held>): set<string> {
    set h | h in held :: Name(h)
  }

  ghost function NamesOf(flights: seq<Candidate>): set<string> {
    set c | c in flights :: NameOf(c)
  }

  lemma {:induction false} UniqueNames(held: seq<Held>)
    requires Unique(held)
    ensures |NamesHeld(held)| == |held|
  {
    if held != [] {
      var n := |held| - 1;
      UniqueNames(held[..n]);
      assert held == held[..n] + [held[n]];
      assert NamesHeld(held) == NamesHeld(held[..n]) + {Name(held[n])};
      assert Name(held[n]) !in NamesHeld(held[..n]);
    }
  }

  lemma {:induction false} AtMostOneNameEach(flights: seq<Candidate>)
    ensures |NamesOf(flights)| <= |flights|
  {
    if flights != [] {
      var n := |flights| - 1;
      AtMostOneNameEach(flights[..n]);
      assert flights == flights[..n] + [flights[n]];
      assert NamesOf(flights) == NamesOf(flights[..n]) + {NameOf(flights[n])};
    }
  }

  lemma {:induction false} SmallerSet(a: set<string>, b: set<string>)
    requires a <= b
    ensures |a| <= |b|
  {
    assert b == a + (b - a);
  }

  lemma HeldIsBounded(held: seq<Held>, flights: seq<Candidate>, now: Instant)
    requires Unique(held) && Accounted(held, flights, now)
    ensures |held| <= |flights|
  {
    UniqueNames(held);
    AtMostOneNameEach(flights);
    SmallerSet(NamesHeld(held), NamesOf(flights));
  }

  // ---- Every step ends ------------------------------------------------------------------------

  lemma {:induction false} QueueCheckEnds(c: Candidate, slot: SlotEntry, proposed: Clock, slots: seq<SlotEntry>,
                                          probe: seq<SlotEntry>, all: seq<Candidate>, n: nat, cfg: AirportConfig,
                                          now: Instant)
    requires RoomFor(all, n, cfg) && |probe| <= n && forall p :: p in all ==> WellMade(p, cfg, now)
    ensures NobodyAheadClaims(c, slot, proposed, slots, probe, all, cfg, now).Ends?
  {
    if all != [] {
      assert all[0] in all && forall p :: p in all[1..] ==> p in all;
      if IsAhead(all[0], c, slot, cfg, now) {
        EndsWithFew(all[0].input, probe, n, cfg, now);
      }
      QueueCheckEnds(c, slot, proposed, slots, probe, all[1..], n, cfg, now);
    }
  }

  lemma KeepsQueueOrderEnds(c: Candidate, proposed: Clock, slots: seq<SlotEntry>, all: seq<Candidate>, n: nat,
                            cfg: AirportConfig, now: Instant)
    requires RoomFor(all, n, cfg) && |slots| <= n && forall p :: p in all ==> WellMade(p, cfg, now)
    ensures KeepsQueueOrder(c, proposed, slots, all, cfg, now).Ends?
  {
    if c.slot.Some? {
      WithoutIsShorter(slots, NameOf(c));
      QueueCheckEnds(c, c.slot.value, proposed, slots, WithoutCallsign(slots, NameOf(c)), all, n, cfg, now);
    }
  }

  lemma ReassignEnds(c: Candidate, held: seq<Held>, all: seq<Candidate>, n: nat, cfg: AirportConfig, now: Instant)
    requires c in all && |held| <= n && RoomFor(all, n, cfg) && forall p :: p in all ==> WellMade(p, cfg, now)
    ensures Reassign(c, held, all, cfg, now).Ends?
  {
    SlotsLength(held);
    EndsWithFew(c.input, Slots(held), n, cfg, now);
    var result := Calculate(c.input, Slots(held), cfg, now).value;
    KeepsQueueOrderEnds(c, result.ttot, Slots(held), all, n, cfg, now);
    var base := if c.improvement then RemoveSlotFor(held, NameOf(c)) else held;
    SlotsLength(base);
    EndsWithFew(ProposalInput(c.strip, c.input), Slots(base), n, cfg, now);
  }

  lemma SettleEnds(c: Candidate, held: seq<Held>, all: seq<Candidate>, n: nat, cfg: AirportConfig, now: Instant)
    requires c in all && |held| <= n && RoomFor(all, n, cfg) && forall p :: p in all ==> WellMade(p, cfg, now)
    ensures Settle(c, held, all, cfg, now).Ends?
  {
    SlotsLength(held);
    EndsWithFew(c.input, Slots(held), n, cfg, now);
    ReassignEnds(c, held, all, n, cfg, now);
  }

  lemma {:induction false} BlocksEnds(c: Candidate, slot: SlotEntry, pending: seq<Candidate>, n: nat,
                                      cfg: AirportConfig, now: Instant)
    requires n > 0 && RoomFor(pending, n, cfg)
    ensures BlocksHigherPriority(c, slot, pending, cfg, now).Ends?
  {
    if pending != [] {
      assert pending[0] in pending && forall p :: p in pending[1..] ==> p in pending;
      EndsWithFew(pending[0].input, [slot], n, cfg, now);
      BlocksEnds(c, slot, pending[1..], n, cfg, now);
    }
  }

  lemma {:induction false} PreserveEnds(todo: seq<Candidate>, held: seq<Held>, recalc: seq<Candidate>, n: nat,
                                        cfg: AirportConfig, now: Instant)
    requires forall c :: c in todo ==> c.slot.Some?
    requires n > 0 && RoomFor(todo, n, cfg) && RoomFor(recalc, n, cfg)
    ensures Preserve(todo, held, recalc, cfg, now).Ends?
  {
    if todo != [] {
      var c := todo[0];
      assert c in todo && forall p :: p in todo[1..] ==> p in todo;
      BlocksEnds(c, c.slot.value, recalc, n, cfg, now);
      PreserveEnds(todo[1..], held, recalc + [c], n, cfg, now);
      PreserveEnds(todo[1..], held + [Held(c.slot.value, Preserved)], recalc, n, cfg, now);
    }
  }

  lemma {:induction false} DrainEnds(queue: seq<Candidate>, done: seq<Candidate>, st: PassState, all: seq<Candidate>,
                                     n: nat, cfg: AirportConfig, now: Instant)
    requires Inv(queue, done, st, cfg, now) && |done + queue| <= n && RoomFor(all, n, cfg)
    requires (forall p :: p in all ==> WellMade(p, cfg, now)) && (forall c :: c in queue ==> c in all)
    ensures Drain(queue, st, all, cfg, now).Ends?
  {
    if queue != [] {
      var c, rest := queue[0], queue[1..];
      assert queue == [c] + rest && c in queue;
      HeldIsBounded(st.held, done + queue, now);
      SettleEnds(c, st.held, all, n, cfg, now);
      var o := Settle(c, st.held, all, cfg, now).value;
      assert IsDue(c, st, cfg, now);
      SettleSeats(c, st.held, all, o, cfg, now);
      StepKeepsInv(queue, done, st, o, cfg, now);
      assert (done + [c]) + rest == done + queue;
      DrainEnds(rest, done + [c], PassState(o.held, Record(st.writes, c, o.write)), all, n, cfg, now);
    }
  }

  lemma {:induction false} CandidatesAreFewer(strips: seq<Strip>, cfg: AirportConfig, now: Instant)
    ensures |Candidates(strips, cfg, now)| <= |strips|
  {
    if strips != [] {
      CandidatesAreFewer(strips[..|strips| - 1], cfg, now);
    }
  }

  lemma RoomForCandidates(strips: seq<Strip>, cfg: AirportConfig, now: Instant)
    requires Roomy(strips, cfg)
    ensures RoomFor(Candidates(strips, cfg, now), |strips|, cfg)
  {
    CandidatesOf(strips, cfg, now);
    forall c | c in Candidates(strips, cfg, now)
      ensures |strips| * Spread(WidestWindow(cfg, c.input.who.depRwy)) < GRID
    {
      var s :| s in strips && c == MakeCandidate(RecoverExpiredTsat(s, now), cfg, now);
    }
  }

  lemma PrepareEnds(all: seq<Candidate>, n: nat, cfg: AirportConfig, now: Instant)
    requires n > 0 && RoomFor(all, n, cfg)
    ensures Prepare(all, cfg, now).Ends?
  {
    SelectMembers(all, false, now);
    SelectMembers(all, true, now);
    PreserveEnds(SortCandidates(PreservedOrder, Select(all, false, now), now), [], Select(all, true, now), n, cfg, now);
  }

  /** A pass over strips that leave room on the clock always ends. */
  lemma PassEndsWhenRoomy(strips: seq<Strip>, cfg: AirportConfig, now: Instant)
    requires DistinctCallsigns(strips) && Roomy(strips, cfg)
    ensures Pass(strips, cfg, now).Ends?
  {
    var all := Candidates(strips, cfg, now);
    var n := if strips == [] then 1 else |strips|;
    RoomForCandidates(strips, cfg, now);
    CandidatesOf(strips, cfg, now);
    CandidatesAreDistinct(strips, cfg, now);
    CandidatesAreFewer(strips, cfg, now);
    PrepareEnds(all, n, cfg, now);
    var kept := StartIsOrderly(all, cfg, now);
    var (held, queue) := Prepare(all, cfg, now).value;
    SameElements(kept + queue, all);
    assert forall c :: c in queue ==> c in kept + queue;
    DrainEnds(queue, kept, PassState(held, map[]), all, n, cfg, now);
  }
}
