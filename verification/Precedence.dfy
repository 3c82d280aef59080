/** Which flight goes first: the two sorted lists of a pass, and its turns, in terms of the flights' own data. */
module Precedence {
  import opened Text
  import opened Clock
  import opened Config
  import opened Separation
  import opened Departure
  import opened Strips
  import opened Sorting
  import opened Ordering
  import opened Sequence
  import opened Timetable
  import opened Guarantees
  import opened Turns
  import opened PassRecords
  import opened PassPlaces

  // ---- The rules ------------------------------------------------------------------------

  /** Seen from now, the first time comes no later than the second; what is no time comes last. */
  predicate NoLater(a: Clock, b: Clock, now: Instant) {
    b.At? ==> a.At? && Between(At(ClockOf(now)), a) <= Between(At(ClockOf(now)), b)
  }

  /** The first text is the second, stands at its start, or has the smaller character where they first differ. */
  ghost predicate NoFurther(a: string, b: string) {
    a <= b || exists k | 0 <= k < |a| && k < |b| :: a[..k] == b[..k] && a[k] < b[k]
  }

  /** Among flights alike in what comes first: a usable TOBT before a stale one, then the earlier natural time, the
      earlier base and the callsign. */
  ghost predicate EarlierOrAlike(l: Candidate, r: Candidate, now: Instant) {
    && (l.staleBase ==> r.staleBase)
    && (l.staleBase == r.staleBase ==>
          && NoLater(l.natural, r.natural, now)
          && (NoLater(r.natural, l.natural, now) ==>
                && NoLater(l.base, r.base, now)
                && (NoLater(r.base, l.base, now) ==> NoFurther(Trim(l.strip.callsign), Trim(r.strip.callsign)))))
  }

  /** In the queue: flights with a CTOT before those without, then confirmed TOBTs before others. */
  ghost predicate MayGoFirst(l: Candidate, r: Candidate, now: Instant) {
    && (r.hasCtot ==> l.hasCtot)
    && (l.hasCtot == r.hasCtot ==>
          && (r.input.tobtAuthoritative ==> l.input.tobtAuthoritative)
          && (l.input.tobtAuthoritative == r.input.tobtAuthoritative ==> EarlierOrAlike(l, r, now)))
  }

  /** Among the current slots: started flights before all others, and the earlier slot before a usable TOBT counts. */
  ghost predicate MayStayFirst(l: Candidate, r: Candidate, now: Instant) {
    && (r.started ==> l.started)
    && (l.started == r.started ==>
          && (r.hasCtot ==> l.hasCtot)
          && (l.hasCtot == r.hasCtot ==>
                && (r.input.tobtAuthoritative ==> l.input.tobtAuthoritative)
                && (l.input.tobtAuthoritative == r.input.tobtAuthoritative ==>
                      && NoLater(SlotTime(l), SlotTime(r), now)
                      && (NoLater(SlotTime(r), SlotTime(l), now) ==> EarlierOrAlike(l, r, now)))))
  }

  // ---- The comparison follows them ------------------------------------------------------------

  lemma ClocksCompare(a: Clock, b: Clock, now: Instant)
    ensures CompareClock(a, b, now) <= 0 <==> NoLater(a, b, now)
    ensures CompareClock(a, b, now) == -CompareClock(b, a, now)
  {
    BetweenRange(At(ClockOf(now)), a);
    BetweenRange(At(ClockOf(now)), b);
  }

  lemma {:induction false} TextsCompare(a: string, b: string)
    ensures CompareText(a, b) <= 0 <==> NoFurther(a, b)
  {
    if a != [] && b != [] && a[0] == b[0] {
      TextsCompare(a[1..], b[1..]);
      SameStart(a, b);
    } else if a != [] && b != [] {
      assert a[..0] == b[..0];
    }
  }

  lemma SameStart(a: string, b: string)
    requires a != [] && b != [] && a[0] == b[0]
    ensures NoFurther(a, b) <==> NoFurther(a[1..], b[1..])
  {
    var x, y := a[1..], b[1..];
    assert a == [a[0]] + x && b == [b[0]] + y;
    if k :| 0 <= k < |x| && k < |y| && x[..k] == y[..k] && x[k] < y[k] {
      assert a[..k + 1] == [a[0]] + x[..k] && b[..k + 1] == [b[0]] + y[..k];
      assert a[k + 1] < b[k + 1];
    }
    if k :| 0 <= k < |a| && k < |b| && a[..k] == b[..k] && a[k] < b[k] {
      assert k > 0 && x[..k - 1] == a[..k][1..] && y[..k - 1] == b[..k][1..];
      assert x[k - 1] < y[k - 1];
    }
  }

  lemma AlikeCompares(l: Candidate, r: Candidate, now: Instant)
    requires l.hasCtot == r.hasCtot && l.input.tobtAuthoritative == r.input.tobtAuthoritative
    ensures Compare(l, r, now, false) <= 0 <==> EarlierOrAlike(l, r, now)
  {
    ClocksCompare(l.natural, r.natural, now);
    ClocksCompare(r.natural, l.natural, now);
    ClocksCompare(l.base, r.base, now);
    ClocksCompare(r.base, l.base, now);
    TextsCompare(Trim(l.strip.callsign), Trim(r.strip.callsign));
  }

  lemma QueueCompares(l: Candidate, r: Candidate, now: Instant)
    ensures Compare(l, r, now, false) <= 0 <==> MayGoFirst(l, r, now)
  {
    if l.hasCtot == r.hasCtot && l.input.tobtAuthoritative == r.input.tobtAuthoritative {
      AlikeCompares(l, r, now);
    }
  }

  lemma SlotsCompare(l: Candidate, r: Candidate, now: Instant)
    ensures Compare(l, r, now, true) <= 0 <==> MayStayFirst(l, r, now)
  {
    ClocksCompare(SlotTime(l), SlotTime(r), now);
    ClocksCompare(SlotTime(r), SlotTime(l), now);
    if CompareClock(SlotTime(l), SlotTime(r), now) == 0 && l.started == r.started
       && l.hasCtot == r.hasCtot && l.input.tobtAuthoritative == r.input.tobtAuthoritative {
      AlikeCompares(l, r, now);
    }
  }

  lemma CompareIsWeak(a: Candidate, b: Candidate, c: Candidate, now: Instant, preserve: bool)
    requires Compare(b, a, now, preserve) >= 0 && Compare(c, b, now, preserve) >= 0
    ensures Compare(c, a, now, preserve) >= 0
  {
    var x, y, z := Trim(a.strip.callsign), Trim(b.strip.callsign), Trim(c.strip.callsign);
    TextIsOrdered(x, y);
    TextIsOrdered(y, z);
    TextIsOrdered(x, z);
    if CompareText(x, y) <= 0 && CompareText(y, z) <= 0 {
      TextIsTransitive(x, y, z);
    }
  }

  lemma OrderIsWeak(o: Order, s: seq<Candidate>, now: Instant)
    requires o == QueueOrder ==> PlainQueue(s)
    ensures Weak(By(o, now), Elements(s))
  {
    var lt := By(o, now);
    forall a, b | a in s && b in s
      ensures !(lt(a, b) && lt(b, a))
    {
      BeforeIsStrict(o, a, b, now);
    }
    forall a, b, c | a in s && b in s && c in s && !lt(b, a) && !lt(c, b)
      ensures !lt(c, a)
    {
      CompareIsWeak(a, b, c, now, o == PreservedOrder);
    }
  }

  // ---- The two lists -------------------------------------------------------------------------

  /** The current slots are looked at in this order. */
  lemma SlotsAreInOrder(s: seq<Candidate>, now: Instant)
    ensures var out := SortCandidates(PreservedOrder, s, now);
            forall i, j :: 0 <= i < j < |out| ==> MayStayFirst(out[i], out[j], now)
  {
    var lt, out := By(PreservedOrder, now), SortCandidates(PreservedOrder, s, now);
    OrderIsWeak(PreservedOrder, s, now);
    SortPutsInOrder(lt, s, Elements(s));
    forall i, j | 0 <= i < j < |out|
      ensures MayStayFirst(out[i], out[j], now)
    {
      assert !lt(out[j], out[i]);
      CompareIsAntisymmetric(out[i], out[j], now, true);
      SlotsCompare(out[i], out[j], now);
    }
  }

  /** Without improve-only flights the queue is in this order. */
  lemma QueueIsInOrder(s: seq<Candidate>, now: Instant)
    requires PlainQueue(s)
    ensures var out := SortCandidates(QueueOrder, s, now);
            forall i, j :: 0 <= i < j < |out| ==> MayGoFirst(out[i], out[j], now)
  {
    var lt, out := By(QueueOrder, now), SortCandidates(QueueOrder, s, now);
    OrderIsWeak(QueueOrder, s, now);
    SortPutsInOrder(lt, s, Elements(s));
    forall i, j | 0 <= i < j < |out|
      ensures MayGoFirst(out[i], out[j], now)
    {
      assert !lt(out[j], out[i]) && out[i] in out && out[j] in out;
      CompareIsAntisymmetric(out[i], out[j], now, false);
      QueueCompares(out[i], out[j], now);
    }
  }

  /** Two improve-only flights with current slots. */
  predicate BothImprove(l: Candidate, r: Candidate) {
    l.improvement && r.improvement && l.slot.Some? && r.slot.Some?
  }

  lemma QueueIsAsymmetric(a: Candidate, b: Candidate, now: Instant)
    ensures !(Before(QueueOrder, a, b, now) && Before(QueueOrder, b, a, now))
  {
    ClocksCompare(SlotTime(a), SlotTime(b), now);
    CompareIsAntisymmetric(a, b, now, false);
  }

  /** With improve-only flights, of which the earlier current slot goes first, the rules hold of neighbours: the
      comparison is then no total order. */
  lemma NeighboursAreInOrder(s: seq<Candidate>, now: Instant)
    ensures var out := SortCandidates(QueueOrder, s, now);
            forall i :: 0 < i < |out| ==>
              && (BothImprove(out[i - 1], out[i]) ==> NoLater(SlotTime(out[i - 1]), SlotTime(out[i]), now))
              && (|| (BothImprove(out[i - 1], out[i]) && !NoLater(SlotTime(out[i]), SlotTime(out[i - 1]), now))
                  || MayGoFirst(out[i - 1], out[i], now))
  {
    var lt, out := By(QueueOrder, now), SortCandidates(QueueOrder, s, now);
    forall a, b | a in s && b in s
      ensures !(lt(a, b) && lt(b, a))
    {
      QueueIsAsymmetric(a, b, now);
    }
    SortStepsInOrder(lt, s, Elements(s));
    forall i | 0 < i < |out|
      ensures BothImprove(out[i - 1], out[i]) ==> NoLater(SlotTime(out[i - 1]), SlotTime(out[i]), now)
      ensures || (BothImprove(out[i - 1], out[i]) && !NoLater(SlotTime(out[i]), SlotTime(out[i - 1]), now))
              || MayGoFirst(out[i - 1], out[i], now)
    {
      var l, r := out[i - 1], out[i];
      assert !lt(r, l);
      ClocksCompare(SlotTime(l), SlotTime(r), now);
      ClocksCompare(SlotTime(r), SlotTime(l), now);
      CompareIsAntisymmetric(l, r, now, false);
      if Compare(l, r, now, false) <= 0 {
        QueueCompares(l, r, now);
      }
    }
  }

  // ---- The turns ----------------------------------------------------------------------------

  lemma PreparedQueueIsInOrder(all: seq<Candidate>, cfg: AirportConfig, now: Instant)
    requires Prepare(all, cfg, now).Ends? && PlainQueue(all)
    ensures var queue := Prepare(all, cfg, now).value.1;
            forall i, j :: 0 <= i < j < |queue| ==> MayGoFirst(queue[i], queue[j], now)
  {
    QueueIsOfAll(all, cfg, now);
    var todo, recalc := SortCandidates(PreservedOrder, Select(all, false, now), now), Select(all, true, now);
    var pending := Preserve(todo, [], recalc, cfg, now).value.1;
    assert forall c :: c in SortCandidates(QueueOrder, pending, now) <==> c in pending;
    QueueIsInOrder(pending, now);
  }

  lemma PartsAreInOrder(queue: seq<Candidate>, prefix: seq<Candidate>, d: Candidate, rest: seq<Candidate>, now: Instant)
    requires queue == prefix + [d] + rest
    requires forall i, j :: 0 <= i < j < |queue| ==> MayGoFirst(queue[i], queue[j], now)
    ensures forall c :: c in prefix ==> MayGoFirst(c, d, now)
    ensures forall c :: c in rest ==> MayGoFirst(d, c, now)
  {
    var n := |prefix|;
    assert queue[n] == d;
    forall c | c in prefix
      ensures MayGoFirst(c, d, now)
    {
      var i :| 0 <= i < n && prefix[i] == c;
      assert queue[i] == c;
    }
    forall c | c in rest
      ensures MayGoFirst(d, c, now)
    {
      var i :| 0 <= i < |rest| && rest[i] == c;
      assert queue[n + 1 + i] == c;
    }
  }

  /** In a pass without improve-only flights every turn comes after those, and only those, that may go first. */
  lemma TurnsAreInOrder(strips: seq<Strip>, cfg: AirportConfig, now: Instant, st: PassState, d: Candidate, t: Turn)
    requires IsTurnOfPass(d, t, strips, cfg, now, st) && PlainQueue(Candidates(strips, cfg, now))
    ensures forall c :: c in t.prefix ==> MayGoFirst(c, d, now)
    ensures forall c :: c in t.rest ==> MayGoFirst(d, c, now)
  {
    var all := Candidates(strips, cfg, now);
    PreparedQueueIsInOrder(all, cfg, now);
    PartsAreInOrder(Prepare(all, cfg, now).value.1, t.prefix, d, t.rest, now);
  }
}
