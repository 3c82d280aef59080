/** Theorems about a whole recalculation pass. */
module Guarantees {
  import opened Text
  import opened Clock
  import opened Config
  import opened Separation
  import opened Search
  import opened Departure
  import opened Strips
  import opened Sorting
  import opened Ordering
  import opened Sequence
  import opened Timetable

  /** Strips are keyed by callsign; the key ignores case and surrounding blanks. */
  ghost predicate DistinctCallsigns(strips: seq<Strip>) {
    forall i, j :: 0 <= i < j < |strips| ==> Token(strips[i].callsign) != Token(strips[j].callsign)
  }

  // ---- Distinct names survive reordering ------------------------------------------------

  lemma CountsTwice<T>(s: seq<T>, i: nat, j: nat)
    requires i < j < |s| && s[i] == s[j]
    ensures multiset(s)[s[i]] >= 2
  {
    assert s == s[..j] + [s[j]] + s[j + 1..];
    assert s[..j][i] in multiset(s[..j]);
  }

  lemma {:induction false} DistinctNamesCountOnce(s: seq<Candidate>)
    requires DistinctNames(s)
    ensures NoRepeats(s)
  {
    if s != [] {
      var n := |s| - 1;
      DistinctNamesCountOnce(s[..n]);
      assert s == s[..n] + [s[n]];
      assert s[n] !in s[..n];
      forall c | c in s
        ensures multiset(s)[c] == 1
      {
        assert c == s[n] || c in s[..n];
      }
    }
  }

  lemma DistinctNamesReordered(s: seq<Candidate>, t: seq<Candidate>)
    requires DistinctNames(s) && multiset(s) == multiset(t)
    ensures DistinctNames(t)
  {
    DistinctNamesCountOnce(s);
    SameElements(s, t);
    forall i, j | 0 <= i < j < |t|
      ensures NameOf(t[i]) != NameOf(t[j])
    {
      assert t[i] in t && t[j] in t;
      if t[i] == t[j] {
        CountsTwice(t, i, j);
      }
    }
  }

  lemma {:induction false} CandidatesOf(strips: seq<Strip>, cfg: AirportConfig, now: Instant)
    ensures forall c :: c in Candidates(strips, cfg, now) ==>
              && WellMade(c, cfg, now)
              && exists s :: s in strips && !ShouldSkip(s) && c == MakeCandidate(RecoverExpiredTsat(s, now), cfg, now)
    ensures forall s :: s in strips && !ShouldSkip(s) ==>
              MakeCandidate(RecoverExpiredTsat(s, now), cfg, now) in Candidates(strips, cfg, now)
  {
    if strips != [] {
      var n := |strips| - 1;
      CandidatesOf(strips[..n], cfg, now);
      assert strips == strips[..n] + [strips[n]];
    }
  }

  lemma {:induction false} CandidatesAreDistinct(strips: seq<Strip>, cfg: AirportConfig, now: Instant)
    requires DistinctCallsigns(strips)
    ensures DistinctNames(Candidates(strips, cfg, now))
  {
    if strips != [] {
      var n := |strips| - 1;
      var init := strips[..n];
      CandidatesAreDistinct(init, cfg, now);
      CandidatesOf(init, cfg, now);
      var before := Candidates(init, cfg, now);
      forall i | 0 <= i < |before|
        ensures NameOf(before[i]) != Token(strips[n].callsign)
      {
        assert before[i] in before;
        var s :| s in init && before[i] == MakeCandidate(RecoverExpiredTsat(s, now), cfg, now);
        var k :| 0 <= k < n && strips[k] == s;
      }
    }
  }

  lemma SelectLast(all: seq<Candidate>, now: Instant)
    requires all != []
    ensures var n := |all| - 1;
            var r := IsRecalculated(all[n], now);
            && Select(all, r, now) == Select(all[..n], r, now) + [all[n]]
            && Select(all, !r, now) == Select(all[..n], !r, now)
  {
  }

  lemma {:induction false} SelectSplits(all: seq<Candidate>, now: Instant)
    ensures multiset(Select(all, false, now)) + multiset(Select(all, true, now)) == multiset(all)
  {
    if all != [] {
      var n := |all| - 1;
      SelectSplits(all[..n], now);
      SelectLast(all, now);
      WithoutLast(all);
      OneMoreCounts(Select(all[..n], IsRecalculated(all[n], now), now), all[n]);
    }
  }

  lemma OneMoreCounts(s: seq<Candidate>, c: Candidate)
    ensures multiset(s + [c]) == multiset(s) + multiset{c}
  {
  }

  lemma {:induction false} SelectMembers(all: seq<Candidate>, recalculated: bool, now: Instant)
    ensures forall c :: c in Select(all, recalculated, now) <==> c in all && IsRecalculated(c, now) == recalculated
  {
    if all != [] {
      var n := |all| - 1;
      SelectMembers(all[..n], recalculated, now);
      SelectLast(all, now);
      assert all == all[..n] + [all[n]];
    }
  }

  // ---- Preserving and reserving -----------------------------------------------------------

  /** The list of preserved flights, entry by entry. */
  ghost predicate Mirrors(kept: seq<Candidate>, held: seq<Held>) {
    && |kept| == |held|
    && forall i :: 0 <= i < |kept| ==> kept[i].slot.Some? && held[i] == Held(kept[i].slot.value, Preserved)
  }

  /** Preservation keeps some flights, among them every started one, and sends all others to the queue. */
  lemma {:induction false} PreserveSplits(todo: seq<Candidate>, held: seq<Held>, recalc: seq<Candidate>,
                                          done: seq<Candidate>, cfg: AirportConfig, now: Instant)
    returns (kept: seq<Candidate>)
    requires forall c :: c in todo ==> c.slot.Some?
    requires Preserve(todo, held, recalc, cfg, now).Ends? && Mirrors(done, held)
    ensures var r := Preserve(todo, held, recalc, cfg, now).value;
            && Mirrors(kept, r.0)
            && multiset(kept) + multiset(r.1) == multiset(done) + multiset(todo) + multiset(recalc)
            && (forall c :: c in r.1 ==> c in recalc || !c.started)
  {
    if todo == [] {
      kept := done;
    } else {
      var c := todo[0];
      assert todo == [c] + todo[1..];
      if Demoted(c, c.slot.value, held, recalc, cfg, now).value {
        kept := PreserveSplits(todo[1..], held, recalc + [c], done, cfg, now);
      } else {
        kept := PreserveSplits(todo[1..], held + [Held(c.slot.value, Preserved)], recalc, done + [c], cfg, now);
      }
    }
  }

  ghost predicate Unlisted(todo: seq<Candidate>, held: seq<Held>) {
    forall c :: c in todo ==> !HasSlotFor(held, NameOf(c))
  }

  lemma RestUnlisted(todo: seq<Candidate>, held: seq<Held>, more: seq<Held>)
    requires todo != [] && DistinctNames(todo) && Unlisted(todo, held)
    requires forall h :: Name(h) != NameOf(todo[0]) ==> (h in held <==> h in more)
    ensures Unlisted(todo[1..], more)
  {
    forall d | d in todo[1..]
      ensures !HasSlotFor(more, NameOf(d))
    {
      var i :| 1 <= i < |todo| && todo[i] == d;
      assert NameOf(todo[0]) != NameOf(todo[i]);
      assert !HasSlotFor(held, NameOf(d));
    }
  }

  function ReservedWith(c: Candidate, held: seq<Held>, now: Instant): seq<Held> {
    if c.improvement && c.slot.Some? && !TsatExpired(c.strip, now) && !HasSlotFor(held, NameOf(c))
    then held + [Held(c.slot.value, Reserved)] else held
  }

  lemma ReservedWaits(c: Candidate, held: seq<Held>, now: Instant)
    requires !HasSlotFor(held, NameOf(c)) && (c.slot.Some? ==> Token(c.slot.value.who.callsign) == NameOf(c))
    ensures Waiting(c, ReservedWith(c, held, now), now)
  {
    var more := ReservedWith(c, held, now);
    if more != held {
      var h := Held(c.slot.value, Reserved);
      assert h in more && Name(h) == NameOf(c);
      assert forall g :: g in more ==> g in held || g == h;
    }
  }

  lemma ReserveOne(c: Candidate, held: seq<Held>, cfg: AirportConfig, now: Instant)
    requires WellMade(c, cfg, now) && Clear(held, cfg) && Unique(held) && AllSeeds(held) && !HasSlotFor(held, NameOf(c))
    ensures var more := ReservedWith(c, held, now);
            && Clear(more, cfg) && Unique(more) && AllSeeds(more) && Waiting(c, more, now)
            && (forall h :: Name(h) != NameOf(c) ==> (h in held <==> h in more))
            && (forall h :: h in held ==> h in more)
  {
    ReservedWaits(c, held, now);
    if ReservedWith(c, held, now) != held {
      AppendKeepsOrder(held, Held(c.slot.value, Reserved), cfg);
    }
  }

  /** `to` extends `from` by entries of flights in `todo`, each of which is then listed as it should be before its
      turn. */
  ghost predicate ReservesFor(todo: seq<Candidate>, from: seq<Held>, to: seq<Held>, now: Instant) {
    && (forall c :: c in todo ==> Waiting(c, to, now))
    && (forall h :: h in from ==> h in to)
    && (forall h :: h in to ==> h in from || exists c :: c in todo && Name(h) == NameOf(c))
  }

  lemma ReservesAlso(todo: seq<Candidate>, held: seq<Held>, more: seq<Held>, r: seq<Held>, now: Instant)
    requires todo != [] && DistinctNames(todo) && Waiting(todo[0], more, now) && ReservesFor(todo[1..], more, r, now)
    requires forall h :: h in held ==> h in more
    requires forall h :: Name(h) != NameOf(todo[0]) ==> (h in held <==> h in more)
    ensures ReservesFor(todo, held, r, now)
  {
    var c, rest := todo[0], todo[1..];
    forall d | d in rest
      ensures NameOf(d) != NameOf(c) && d in todo
    {
      var i :| 1 <= i < |todo| && todo[i] == d;
    }
    assert forall d :: d in todo ==> d == c || d in rest;
    assert forall h :: Name(h) == NameOf(c) ==> (h in more <==> h in r);
  }

  /** Reservation lists each unexpired improve-only flight at its own slot and nothing else. */
  lemma {:induction false} ReserveSeats(todo: seq<Candidate>, held: seq<Held>, cfg: AirportConfig, now: Instant)
    requires forall c :: c in todo ==> WellMade(c, cfg, now)
    requires Clear(held, cfg) && Unique(held) && AllSeeds(held) && Unlisted(todo, held) && DistinctNames(todo)
    ensures var r := Reserve(todo, held, now);
            Clear(r, cfg) && Unique(r) && AllSeeds(r) && ReservesFor(todo, held, r, now)
  {
    if todo != [] {
      var more := ReservedWith(todo[0], held, now);
      assert todo[0] in todo && forall c :: c in todo[1..] ==> c in todo;
      ReserveOne(todo[0], held, cfg, now);
      RestUnlisted(todo, held, more);
      ReserveSeats(todo[1..], more, cfg, now);
      ReservesAlso(todo, held, more, Reserve(todo[1..], more, now), now);
    }
  }

  function PreservedEntry(c: Candidate): Held {
    Held(SlotEntry(ProfileOf(c.strip), c.strip.data.ttot), Preserved)
  }

  ghost predicate AllListed(kept: seq<Candidate>, held: seq<Held>) {
    forall c :: c in kept ==> c.strip.data.ttot != Absent && PreservedEntry(c) in held
  }

  ghost predicate AllFrom(kept: seq<Candidate>, held: seq<Held>) {
    forall h :: h in held ==> exists c :: c in kept && Name(h) == NameOf(c)
  }

  lemma {:induction false} MirrorIsOrderly(kept: seq<Candidate>, held: seq<Held>, cfg: AirportConfig, now: Instant)
    requires Mirrors(kept, held) && DistinctNames(kept) && forall c :: c in kept ==> WellMade(c, cfg, now)
    ensures Clear(held, cfg) && Unique(held) && AllSeeds(held)
    ensures AllListed(kept, held) && AllFrom(kept, held)
  {
    forall i | 0 <= i < |kept|
      ensures Name(held[i]) == NameOf(kept[i])
              && kept[i].slot == Some(SlotEntry(ProfileOf(kept[i].strip), kept[i].strip.data.ttot))
    {
      assert kept[i] in kept;
    }
    if held != [] {
      var n := |held| - 1;
      MirrorIsOrderly(kept[..n], held[..n], cfg, now);
    }
  }

  // ---- The start of the queue ------------------------------------------------------------------

  lemma SplitIsWhole(all: seq<Candidate>, now: Instant)
    ensures multiset(SortCandidates(PreservedOrder, Select(all, false, now), now)) + multiset(Select(all, true, now))
            == multiset(all)
  {
    SelectSplits(all, now);
  }

  /** The flights of the pass in the order kept, then queued. */
  lemma StartIsOrderly(all: seq<Candidate>, cfg: AirportConfig, now: Instant) returns (kept: seq<Candidate>)
    requires DistinctNames(all) && (forall c :: c in all ==> WellMade(c, cfg, now)) && Prepare(all, cfg, now).Ends?
    ensures var (held, queue) := Prepare(all, cfg, now).value;
            && Inv(queue, kept, PassState(held, map[]), cfg, now)
            && multiset(kept + queue) == multiset(all)
            && AllListed(kept, held)
            && (forall c :: c in queue ==> c.started ==> IsRecalculated(c, now))
  {
    var todo, recalc := SortCandidates(PreservedOrder, Select(all, false, now), now), Select(all, true, now);
    kept := PreserveSplits(todo, [], recalc, [], cfg, now);
    var (held0, pending) := Preserve(todo, [], recalc, cfg, now).value;
    var queue := SortCandidates(QueueOrder, pending, now);
    SplitIsWhole(all, now);
    assert multiset(kept + pending) == multiset(all);
    assert multiset(kept + queue) == multiset(all);
    DistinctNamesReordered(all, kept + pending);
    DistinctNamesReordered(all, kept + queue);
    SameElements(all, kept + queue);
    assert forall c :: c in kept || c in pending ==> c in all by {
      SameElements(all, kept + pending);
    }
    SelectMembers(all, true, now);
    PartsAreDistinct(kept, pending);
    MirrorIsOrderly(kept, held0, cfg, now);
    ReserveSeats(pending, held0, cfg, now);
    StartInv(kept, pending, queue, held0, cfg, now);
  }

  lemma PartsAreDistinct(a: seq<Candidate>, b: seq<Candidate>)
    requires DistinctNames(a + b)
    ensures DistinctNames(a) && DistinctNames(b)
    ensures forall c, d :: c in a && d in b ==> NameOf(c) != NameOf(d)
  {
    forall c, d | c in a && d in b
      ensures NameOf(c) != NameOf(d)
    {
      var i :| 0 <= i < |a| && a[i] == c;
      var j :| 0 <= j < |b| && b[j] == d;
      assert (a + b)[i] == c && (a + b)[|a| + j] == d;
    }
    forall i, j | 0 <= i < j < |b|
      ensures NameOf(b[i]) != NameOf(b[j])
    {
      assert (a + b)[|a| + i] == b[i] && (a + b)[|a| + j] == b[j];
    }
    forall i, j | 0 <= i < j < |a|
      ensures NameOf(a[i]) != NameOf(a[j])
    {
      assert (a + b)[i] == a[i] && (a + b)[j] == a[j];
    }
  }

  lemma KeptAreDone(kept: seq<Candidate>, held: seq<Held>)
    requires Unique(held) && AllListed(kept, held)
    ensures forall c :: c in kept ==> IsDone(c, PassState(held, map[]))
  {
    forall c | c in kept
      ensures IsDone(c, PassState(held, map[]))
    {
      var own := PreservedEntry(c);
      assert Name(own) == NameOf(c) && own in held;
      forall h | h in held && Name(h) == NameOf(c)
        ensures h == own
      {
        OneEntry(held, h, own);
      }
    }
  }

  lemma StartAccounted(kept: seq<Candidate>, queue: seq<Candidate>, held0: seq<Held>, held: seq<Held>, now: Instant)
    requires AllFrom(kept, held0) && AllSeeds(held)
    requires forall h :: h in held ==> h in held0 || exists c :: c in queue && Name(h) == NameOf(c)
    ensures Accounted(held, kept + queue, now)
  {
    forall h | h in held
      ensures exists c :: c in kept + queue && NameOf(c) == Name(h) && (h.how == Kept ==> LateImprover(c.strip, now))
    {
      assert IsSeed(h);
      if h in held0 {
        var c :| c in kept && Name(h) == NameOf(c);
        assert c in kept + queue;
      } else {
        var c :| c in queue && Name(h) == NameOf(c);
        assert c in kept + queue;
      }
    }
  }

  lemma PendingUnlisted(kept: seq<Candidate>, pending: seq<Candidate>, held0: seq<Held>)
    requires DistinctNames(kept + pending) && AllFrom(kept, held0)
    ensures Unlisted(pending, held0)
  {
    PartsAreDistinct(kept, pending);
    forall c | c in pending
      ensures !HasSlotFor(held0, NameOf(c))
    {
      forall h | h in held0
        ensures Name(h) != NameOf(c)
      {
        var d :| d in kept && Name(h) == NameOf(d);
      }
    }
  }

  lemma StartInv(kept: seq<Candidate>, pending: seq<Candidate>, queue: seq<Candidate>, held0: seq<Held>,
                 cfg: AirportConfig, now: Instant)
    requires DistinctNames(kept + pending) && DistinctNames(kept + queue) && multiset(queue) == multiset(pending)
    requires forall c :: c in kept || c in pending ==> WellMade(c, cfg, now)
    requires forall c :: c in pending ==> c.started ==> IsRecalculated(c, now)
    requires AllListed(kept, held0) && AllFrom(kept, held0)
    requires Clear(held0, cfg) && Unique(held0) && AllSeeds(held0)
    ensures Inv(queue, kept, PassState(Reserve(pending, held0, now), map[]), cfg, now)
    ensures AllListed(kept, Reserve(pending, held0, now))
  {
    PartsAreDistinct(kept, pending);
    PendingUnlisted(kept, pending, held0);
    ReserveSeats(pending, held0, cfg, now);
    SameElements(queue, pending);
    var held := Reserve(pending, held0, now);
    KeptAreDone(kept, held);
    StartAccounted(kept, queue, held0, held, now);
  }

  lemma OneEntry(held: seq<Held>, g: Held, h: Held)
    requires Unique(held) && g in held && h in held && Name(g) == Name(h)
    ensures g == h
  {
    var i :| 0 <= i < |held| && held[i] == g;
    var j :| 0 <= j < |held| && held[j] == h;
    assert !(i < j) && !(j < i);
  }
}
