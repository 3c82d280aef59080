/** Without improve-only flights the result of a pass does not depend on how the strips are listed. */
module PassOrder {
  import opened Text
  import opened Clock
  import opened Config
  import opened Separation
  import opened Search
  import opened Departure
  import opened Strips
  import opened Sorting
  import opened Ordering
  import opened Sequence
  import opened Timetable
  import opened Guarantees

  /** Callsigns differ after trimming. */
  ghost predicate TrimmedCallsigns(strips: seq<Strip>) {
    forall i, j :: 0 <= i < j < |strips| ==> Trim(strips[i].callsign) != Trim(strips[j].callsign)
  }

  ghost predicate NoImproveOnly(strips: seq<Strip>) {
    forall s :: s in strips ==> s.data.mode != ImproveOnly
  }

  // ---- Listings of the same strips give listings of the same candidates -----------------

  lemma CandidatesLast(s: seq<Strip>, init: seq<Strip>, x: Strip, cfg: AirportConfig, now: Instant)
    requires s == init + [x]
    ensures Candidates(s, cfg, now) == Candidates(init, cfg, now) + CandidateIfAny(x, cfg, now)
  {
    assert s[..|s| - 1] == init;
  }

  lemma Reassociate(p: seq<Candidate>, q: seq<Candidate>, r: seq<Candidate>)
    ensures (p + q) + r == p + (q + r)
  {
  }

  lemma {:induction false} CandidatesOfSum(a: seq<Strip>, b: seq<Strip>, cfg: AirportConfig, now: Instant)
    ensures Candidates(a + b, cfg, now) == Candidates(a, cfg, now) + Candidates(b, cfg, now)
  {
    if b == [] {
      assert a + b == a;
      assert Candidates(a, cfg, now) + [] == Candidates(a, cfg, now);
    } else {
      var init, x := b[..|b| - 1], b[|b| - 1];
      CandidatesLast(b, init, x, cfg, now);
      CandidatesLast(a + b, a + init, x, cfg, now);
      CandidatesOfSum(a, init, cfg, now);
      Reassociate(Candidates(a, cfg, now), Candidates(init, cfg, now), CandidateIfAny(x, cfg, now));
    }
  }

  lemma {:induction false} CandidatesReordered(a: seq<Strip>, b: seq<Strip>, cfg: AirportConfig, now: Instant)
    requires multiset(a) == multiset(b)
    ensures multiset(Candidates(a, cfg, now)) == multiset(Candidates(b, cfg, now))
    decreases |a|
  {
    SameElements(a, b);
    if a != [] {
      var n := |a| - 1;
      var x := a[n];
      assert x in a;
      var k :| 0 <= k < |b| && b[k] == x;
      var rest := b[..k] + b[k + 1..];
      assert b == b[..k] + ([x] + b[k + 1..]);
      assert a == a[..n] + [x];
      assert multiset(a[..n]) == multiset(a) - multiset{x};
      assert multiset(rest) == multiset(b) - multiset{x};
      CandidatesReordered(a[..n], rest, cfg, now);
      CandidatesOfSum(b[..k], [x] + b[k + 1..], cfg, now);
      CandidatesOfSum([x], b[k + 1..], cfg, now);
      CandidatesOfSum(b[..k], b[k + 1..], cfg, now);
      CandidatesOfSum(a[..n], [x], cfg, now);
    }
  }

  lemma {:induction false} SelectOfSum(a: seq<Candidate>, b: seq<Candidate>, r: bool, now: Instant)
    ensures Select(a + b, r, now) == Select(a, r, now) + Select(b, r, now)
  {
    if b == [] {
      assert a + b == a;
    } else {
      var n := |b| - 1;
      SelectOfSum(a, b[..n], r, now);
      SelectLast(b, now);
      SelectLast(a + b, now);
      assert (a + b)[..|a + b| - 1] == a + b[..n];
    }
  }

  lemma {:induction false} SelectReordered(a: seq<Candidate>, b: seq<Candidate>, r: bool, now: Instant)
    requires multiset(a) == multiset(b)
    ensures multiset(Select(a, r, now)) == multiset(Select(b, r, now))
    decreases |a|
  {
    SameElements(a, b);
    if a != [] {
      var n := |a| - 1;
      var x := a[n];
      assert x in a;
      var k :| 0 <= k < |b| && b[k] == x;
      var rest := b[..k] + b[k + 1..];
      assert b == b[..k] + ([x] + b[k + 1..]);
      assert a == a[..n] + [x];
      assert multiset(a[..n]) == multiset(a) - multiset{x};
      assert multiset(rest) == multiset(b) - multiset{x};
      SelectReordered(a[..n], rest, r, now);
      SelectOfSum(b[..k], [x] + b[k + 1..], r, now);
      SelectOfSum([x], b[k + 1..], r, now);
      SelectOfSum(b[..k], b[k + 1..], r, now);
      SelectOfSum(a[..n], [x], r, now);
    }
  }

  lemma LastCallsignIsNew(strips: seq<Strip>, n: nat)
    requires TrimmedCallsigns(strips) && NoImproveOnly(strips) && n == |strips| - 1
    ensures forall s :: s in strips[..n] ==> Trim(s.callsign) != Trim(strips[n].callsign)
    ensures TrimmedCallsigns(strips[..n]) && NoImproveOnly(strips[..n]) && strips[n].data.mode != ImproveOnly
  {
    assert strips[n] in strips;
    forall s | s in strips[..n]
      ensures Trim(s.callsign) != Trim(strips[n].callsign) && s in strips
    {
      var k :| 0 <= k < n && strips[k] == s;
    }
  }

  lemma {:induction false} CandidatesAreTrimmed(strips: seq<Strip>, cfg: AirportConfig, now: Instant)
    requires TrimmedCallsigns(strips) && NoImproveOnly(strips)
    ensures TrimmedDistinct(Candidates(strips, cfg, now)) && PlainQueue(Candidates(strips, cfg, now))
  {
    if strips != [] {
      var n := |strips| - 1;
      var init, x := strips[..n], strips[n];
      LastCallsignIsNew(strips, n);
      CandidatesAreTrimmed(init, cfg, now);
      if !ShouldSkip(x) {
        NewCallsign(init, x, cfg, now);
        AppendTrimmed(Candidates(init, cfg, now), MakeCandidate(RecoverExpiredTsat(x, now), cfg, now));
      }
    }
  }

  lemma NewCallsign(init: seq<Strip>, x: Strip, cfg: AirportConfig, now: Instant)
    requires forall s :: s in init ==> Trim(s.callsign) != Trim(x.callsign)
    requires x.data.mode != ImproveOnly
    ensures forall c :: c in Candidates(init, cfg, now) ==> Trim(c.strip.callsign) != Trim(x.callsign)
    ensures var c := MakeCandidate(RecoverExpiredTsat(x, now), cfg, now);
            !c.improvement && c.strip.callsign == x.callsign
  {
    CandidatesOf(init, cfg, now);
  }

  lemma AppendTrimmed(before: seq<Candidate>, c: Candidate)
    requires TrimmedDistinct(before) && PlainQueue(before) && !c.improvement
    requires forall d :: d in before ==> Trim(d.strip.callsign) != Trim(c.strip.callsign)
    ensures TrimmedDistinct(before + [c]) && PlainQueue(before + [c])
  {
    assert c !in before;
    forall d | d in before + [c]
      ensures multiset(before + [c])[d] == 1
    {
      assert d in before || d == c;
    }
  }

  lemma TrimmedPart(all: seq<Candidate>, part: seq<Candidate>)
    requires TrimmedDistinct(all) && multiset(part) <= multiset(all)
    ensures TrimmedDistinct(part)
    ensures PlainQueue(all) ==> PlainQueue(part)
  {
    forall c | c in part
      ensures c in all && multiset(part)[c] == 1
    {
      assert c in multiset(part);
      assert c in multiset(all);
    }
  }

  // ---- Each phase gives the same answer ----------------------------------------------------

  /** The priority test is a question about the set of pending flights. */
  lemma {:induction false} BlocksMeans(c: Candidate, slot: SlotEntry, pending: seq<Candidate>, cfg: AirportConfig,
                                       now: Instant)
    requires BlocksHigherPriority(c, slot, pending, cfg, now).Ends?
    ensures BlocksHigherPriority(c, slot, pending, cfg, now).value <==>
            exists p :: p in pending && IsBlockedBy(p, c, slot, cfg, now) == Ends(true)
  {
    if pending != [] {
      var p, rest := pending[0], pending[1..];
      assert pending == [p] + rest && p in pending;
      if IsBlockedBy(p, c, slot, cfg, now) == Ends(false) {
        BlocksMeans(c, slot, rest, cfg, now);
        assert forall q :: q in pending <==> q == p || q in rest;
      }
    }
  }

  lemma DemotedIgnoresListing(c: Candidate, slot: SlotEntry, held: seq<Held>, a: seq<Candidate>, b: seq<Candidate>,
                              cfg: AirportConfig, now: Instant)
    requires multiset(a) == multiset(b)
    requires Demoted(c, slot, held, a, cfg, now).Ends? && Demoted(c, slot, held, b, cfg, now).Ends?
    ensures Demoted(c, slot, held, a, cfg, now) == Demoted(c, slot, held, b, cfg, now)
  {
    SameElements(a, b);
    if !c.started && !HasPreservedSlotConflict(slot, Slots(held), cfg) {
      BlocksMeans(c, slot, a, cfg, now);
      BlocksMeans(c, slot, b, cfg, now);
    }
  }

  lemma {:induction false} PreserveIgnoresListing(todo: seq<Candidate>, held: seq<Held>, a: seq<Candidate>,
                                                  b: seq<Candidate>, cfg: AirportConfig, now: Instant)
    requires (forall c :: c in todo ==> c.slot.Some?) && multiset(a) == multiset(b)
    requires Preserve(todo, held, a, cfg, now).Ends? && Preserve(todo, held, b, cfg, now).Ends?
    ensures var ra, rb := Preserve(todo, held, a, cfg, now).value, Preserve(todo, held, b, cfg, now).value;
            ra.0 == rb.0 && multiset(ra.1) == multiset(rb.1)
  {
    if todo != [] {
      var c := todo[0];
      DemotedIgnoresListing(c, c.slot.value, held, a, b, cfg, now);
      if Demoted(c, c.slot.value, held, a, cfg, now).value {
        PreserveIgnoresListing(todo[1..], held, a + [c], b + [c], cfg, now);
      } else {
        PreserveIgnoresListing(todo[1..], held + [Held(c.slot.value, Preserved)], a, b, cfg, now);
      }
    }
  }

  lemma {:induction false} NothingToReserve(todo: seq<Candidate>, held: seq<Held>, now: Instant)
    requires PlainQueue(todo)
    ensures Reserve(todo, held, now) == held
  {
    if todo != [] {
      assert todo[0] in todo && forall c :: c in todo[1..] ==> c in todo;
      NothingToReserve(todo[1..], held, now);
    }
  }

  lemma ReassignIgnoresListing(c: Candidate, held: seq<Held>, a: seq<Candidate>, b: seq<Candidate>, cfg: AirportConfig,
                               now: Instant)
    requires !c.improvement && Reassign(c, held, a, cfg, now).Ends? && Reassign(c, held, b, cfg, now).Ends?
    ensures Reassign(c, held, a, cfg, now) == Reassign(c, held, b, cfg, now)
  {
  }

  lemma SettleIgnoresListing(c: Candidate, held: seq<Held>, a: seq<Candidate>, b: seq<Candidate>, cfg: AirportConfig,
                             now: Instant)
    requires !c.improvement && Settle(c, held, a, cfg, now).Ends? && Settle(c, held, b, cfg, now).Ends?
    ensures Settle(c, held, a, cfg, now) == Settle(c, held, b, cfg, now)
  {
    if Reassign(c, held, a, cfg, now).Ends? && Reassign(c, held, b, cfg, now).Ends? {
      ReassignIgnoresListing(c, held, a, b, cfg, now);
    }
  }

  lemma {:induction false} DrainIgnoresListing(queue: seq<Candidate>, st: PassState, a: seq<Candidate>,
                                               b: seq<Candidate>, cfg: AirportConfig, now: Instant)
    requires PlainQueue(queue) && Drain(queue, st, a, cfg, now).Ends? && Drain(queue, st, b, cfg, now).Ends?
    ensures Drain(queue, st, a, cfg, now) == Drain(queue, st, b, cfg, now)
  {
    if queue != [] {
      var c := queue[0];
      assert c in queue && forall d :: d in queue[1..] ==> d in queue;
      var oa := NextStep(queue, st, a, cfg, now);
      var ob := NextStep(queue, st, b, cfg, now);
      SettleIgnoresListing(c, st.held, a, b, cfg, now);
      DrainIgnoresListing(queue[1..], PassState(oa.held, Record(st.writes, c, oa.write)), a, b, cfg, now);
    }
  }

  lemma SortedAlike(o: Order, a: seq<Candidate>, b: seq<Candidate>, all: seq<Candidate>, now: Instant)
    requires multiset(a) == multiset(b) && multiset(a) <= multiset(all) && TrimmedDistinct(all) && PlainQueue(all)
    ensures SortCandidates(o, a, now) == SortCandidates(o, b, now)
  {
    TrimmedPart(all, a);
    BothOrdersAreLinear(o, a, now);
    SortIgnoresListing(By(o, now), a, b);
  }

  lemma QueueIsPart(todo: seq<Candidate>, recalc: seq<Candidate>, all: seq<Candidate>, cfg: AirportConfig, now: Instant)
    requires (forall c :: c in todo ==> c.slot.Some?) && multiset(todo) + multiset(recalc) == multiset(all)
    requires Preserve(todo, [], recalc, cfg, now).Ends?
    ensures multiset(Preserve(todo, [], recalc, cfg, now).value.1) <= multiset(all)
  {
    var kept := PreserveSplits(todo, [], recalc, [], cfg, now);
    var queue := Preserve(todo, [], recalc, cfg, now).value.1;
    assert multiset(kept) + multiset(queue) == multiset(all);
    forall c
      ensures multiset(queue)[c] <= multiset(all)[c]
    {
      assert multiset(all)[c] == multiset(kept)[c] + multiset(queue)[c];
    }
  }

  lemma PrepareIgnoresListing(a: seq<Candidate>, b: seq<Candidate>, cfg: AirportConfig, now: Instant)
    requires multiset(a) == multiset(b) && TrimmedDistinct(a) && PlainQueue(a)
    requires Prepare(a, cfg, now).Ends? && Prepare(b, cfg, now).Ends?
    ensures Prepare(a, cfg, now) == Prepare(b, cfg, now)
    ensures PlainQueue(Prepare(a, cfg, now).value.1)
  {
    SelectReordered(a, b, false, now);
    SelectReordered(a, b, true, now);
    SelectSplits(a, now);
    var ra, rb := Select(a, true, now), Select(b, true, now);
    SortedAlike(PreservedOrder, Select(a, false, now), Select(b, false, now), a, now);
    var todo := SortCandidates(PreservedOrder, Select(a, false, now), now);
    QueueIsPart(todo, ra, a, cfg, now);
    PreserveIgnoresListing(todo, [], ra, rb, cfg, now);
    var (ha, qa) := Preserve(todo, [], ra, cfg, now).value;
    var qb := Preserve(todo, [], rb, cfg, now).value.1;
    SortedAlike(QueueOrder, qa, qb, a, now);
    PlainEnds(a, qa, qb, ha, now);
  }

  lemma PlainEnds(all: seq<Candidate>, qa: seq<Candidate>, qb: seq<Candidate>, held: seq<Held>, now: Instant)
    requires TrimmedDistinct(all) && PlainQueue(all) && multiset(qa) <= multiset(all) && multiset(qa) == multiset(qb)
    ensures Reserve(qa, held, now) == held && Reserve(qb, held, now) == held
    ensures PlainQueue(SortCandidates(QueueOrder, qa, now))
  {
    TrimmedPart(all, qa);
    TrimmedPart(all, qb);
    NothingToReserve(qa, held, now);
    NothingToReserve(qb, held, now);
  }

  /** Two listings of the same strips, with callsigns that differ after trimming and no improve-only flight, lead to
      the same slot list and the same records. */
  lemma PassIgnoresListing(a: seq<Strip>, b: seq<Strip>, cfg: AirportConfig, now: Instant)
    requires multiset(a) == multiset(b) && TrimmedCallsigns(a) && NoImproveOnly(a)
    requires Pass(a, cfg, now).Ends? && Pass(b, cfg, now).Ends?
    ensures Pass(a, cfg, now) == Pass(b, cfg, now)
  {
    var ca, cb := Candidates(a, cfg, now), Candidates(b, cfg, now);
    CandidatesReordered(a, b, cfg, now);
    CandidatesAreTrimmed(a, cfg, now);
    PrepareIgnoresListing(ca, cb, cfg, now);
    var (held, queue) := Prepare(ca, cfg, now).value;
    DrainIgnoresListing(queue, PassState(held, map[]), ca, cb, cfg, now);
  }
}
