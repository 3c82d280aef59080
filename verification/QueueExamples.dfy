/** When flights with a CTOT go first although improve-only flights queue, and a queue in which one does not. */
module QueueExamples {
  import opened Text
  import opened Clock
  import opened Config
  import opened Separation
  import opened Departure
  import opened Strips
  import opened Sorting
  import opened Ordering
  import opened Sequence
  import opened Timetable
  import opened Guarantees
  import opened Turns
  import opened PassRecords
  import opened PassPlaces
  import opened Precedence
  import opened PassExamples

  // ---- When CTOTs go first --------------------------------------------------------------------

  /** Of two improve-only flights, one without a CTOT does not hold an earlier slot than one with a CTOT. */
  ghost predicate SlotsFollowCtots(s: seq<Candidate>, now: Instant) {
    forall a, b :: a in s && b in s && BothImprove(a, b) && b.hasCtot && !a.hasCtot ==>
      NoLater(SlotTime(b), SlotTime(a), now)
  }

  /** Where a flight without a CTOT stands before one with one, two neighbours do. */
  lemma {:induction false} SomeNeighbours(out: seq<Candidate>, i: nat, j: nat) returns (k: nat)
    requires i < j < |out| && !out[i].hasCtot && out[j].hasCtot
    ensures 0 < k < |out| && !out[k - 1].hasCtot && out[k].hasCtot
    decreases j
  {
    k := j;
    if out[j - 1].hasCtot {
      k := SomeNeighbours(out, i, j - 1);
    }
  }

  /** In the queue no flight without a CTOT stands before one with a CTOT if and only if no improve-only one stands
      right before an improve-only one. */
  lemma CtotsStandFirstExactlyWhen(s: seq<Candidate>, now: Instant)
    ensures var out := SortCandidates(QueueOrder, s, now);
            (forall i, j :: 0 <= i < j < |out| && out[j].hasCtot ==> out[i].hasCtot) <==>
            forall k :: 0 < k < |out| && BothImprove(out[k - 1], out[k]) && out[k].hasCtot ==> out[k - 1].hasCtot
  {
    var out := SortCandidates(QueueOrder, s, now);
    NeighboursAreInOrder(s, now);
    if forall k :: 0 < k < |out| && BothImprove(out[k - 1], out[k]) && out[k].hasCtot ==> out[k - 1].hasCtot {
      forall i, j | 0 <= i < j < |out| && out[j].hasCtot
        ensures out[i].hasCtot
      {
        if !out[i].hasCtot {
          var k := SomeNeighbours(out, i, j);
          assert false;
        }
      }
    }
  }

  /** It does so whenever the slots of improve-only flights follow the CTOTs. */
  lemma CtotsStandFirst(s: seq<Candidate>, now: Instant)
    requires SlotsFollowCtots(s, now)
    ensures var out := SortCandidates(QueueOrder, s, now);
            forall i, j :: 0 <= i < j < |out| && out[j].hasCtot ==> out[i].hasCtot
  {
    var out := SortCandidates(QueueOrder, s, now);
    NeighboursAreInOrder(s, now);
    forall k | 0 < k < |out| && BothImprove(out[k - 1], out[k]) && out[k].hasCtot
      ensures out[k - 1].hasCtot
    {
      assert out[k - 1] in s && out[k] in s;
    }
    CtotsStandFirstExactlyWhen(s, now);
  }

  lemma PreparedQueueFollowsCtots(all: seq<Candidate>, cfg: AirportConfig, now: Instant)
    requires Prepare(all, cfg, now).Ends? && SlotsFollowCtots(all, now)
    ensures var queue := Prepare(all, cfg, now).value.1;
            forall i, j :: 0 <= i < j < |queue| && queue[j].hasCtot ==> queue[i].hasCtot
  {
    QueueIsOfAll(all, cfg, now);
    var todo, recalc := SortCandidates(PreservedOrder, Select(all, false, now), now), Select(all, true, now);
    var pending := Preserve(todo, [], recalc, cfg, now).value.1;
    assert forall c :: c in SortCandidates(QueueOrder, pending, now) <==> c in pending;
    CtotsStandFirst(pending, now);
  }

  lemma CtotIsInPrefix(queue: seq<Candidate>, prefix: seq<Candidate>, c: Candidate, d: Candidate, rest: seq<Candidate>)
    requires queue == prefix + [d] + rest && c in queue && c.hasCtot && !d.hasCtot
    requires forall i, j :: 0 <= i < j < |queue| && queue[j].hasCtot ==> queue[i].hasCtot
    ensures c in prefix
  {
    var j :| 0 <= j < |queue| && queue[j] == c;
    assert queue[|prefix|] == d;
    assert j < |prefix|;
    assert queue[j] == prefix[j];
  }

  /** Then every due flight with a CTOT has had its turn when a flight without one has its own. */
  lemma CtotsGoFirst(strips: seq<Strip>, cfg: AirportConfig, now: Instant, st: PassState, c: Candidate, d: Candidate,
                     t: Turn)
    requires IsTurnOfPass(d, t, strips, cfg, now, st) && SlotsFollowCtots(Candidates(strips, cfg, now), now)
    requires c in Candidates(strips, cfg, now) && IsRecalculated(c, now)
    requires c.strip.data.ctot != Absent && d.strip.data.ctot == Absent
    ensures c in t.prefix
  {
    var all := Candidates(strips, cfg, now);
    CandidatesOf(strips, cfg, now);
    DueIsQueued(all, cfg, now, c);
    QueueIsOfAll(all, cfg, now);
    PreparedQueueFollowsCtots(all, cfg, now);
    assert d in t.prefix + [d] + t.rest;
    CtotIsInPrefix(Prepare(all, cfg, now).value.1, t.prefix, c, d, t.rest);
  }

  // ---- A queue in which one does not ------------------------------------------------------------

  /** Without a CTOT, on 12:30, and asking for an earlier time. */
  const UNREGULATED := Departing("A", "Y", 10, BLANK.(tobt := At(43800), tsat := At(44400), ttot := At(45000),
                                                      mode := ImproveOnly))

  /** On its CTOT of 12:40, and asking for an earlier time. */
  const REGULATED := Departing("B", "Y", 10, BLANK.(tobt := At(43800), tsat := At(45000), ttot := At(45600),
                                                    ctot := At(45600), mode := ImproveOnly))

  /** With a CTOT of 12:50 and no times yet. */
  const WAITING := Departing("C", "Y", 10, BLANK.(tobt := At(43800), ctot := At(46200), mode := Required))

  function Noon(s: Strip): Candidate {
    MakeCandidate(s, PLAIN, NOON)
  }

  lemma NaturalTimesAtNoon()
    ensures Noon(REGULATED).natural == At(45600) && Noon(WAITING).natural == At(46200)
    ensures !Noon(REGULATED).staleBase && !Noon(WAITING).staleBase
  {
    ClocksOfExamples();
    NaturalOf(REGULATED, PLAIN, NOON, At(44400), At(45600));
    NaturalOf(WAITING, PLAIN, NOON, At(44400), At(46200));
  }

  lemma ComparisonsAtNoon()
    ensures !Before(QueueOrder, Noon(REGULATED), Noon(UNREGULATED), NOON)
    ensures !Before(QueueOrder, Noon(WAITING), Noon(REGULATED), NOON)
  {
    ClocksOfExamples();
    NaturalTimesAtNoon();
  }

  lemma SortedAtNoon()
    ensures var s := [Noon(UNREGULATED), Noon(REGULATED), Noon(WAITING)];
            SortCandidates(QueueOrder, s, NOON) == s
  {
    ComparisonsAtNoon();
    var lt := By(QueueOrder, NOON);
    var a, b, c := Noon(UNREGULATED), Noon(REGULATED), Noon(WAITING);
    assert [a, b, c][..2] == [a, b] && [a, b][..1] == [a] && [a][..0] == [];
    assert StableSort(lt, [a]) == [a];
    assert StableSort(lt, [a, b]) == [a, b];
  }

  lemma AllAreDueAtNoon()
    ensures Candidates([UNREGULATED, REGULATED, WAITING], PLAIN, NOON)
            == [Noon(UNREGULATED), Noon(REGULATED), Noon(WAITING)]
    ensures IsRecalculated(Noon(UNREGULATED), NOON) && IsRecalculated(Noon(REGULATED), NOON)
    ensures IsRecalculated(Noon(WAITING), NOON)
  {
    TwoCandidates(UNREGULATED, REGULATED, PLAIN, NOON);
    assert [UNREGULATED, REGULATED, WAITING][..2] == [UNREGULATED, REGULATED];
  }

  lemma {:induction false} AllDueIsAll(s: seq<Candidate>, now: Instant)
    requires forall c :: c in s ==> IsRecalculated(c, now)
    ensures Select(s, true, now) == s && Select(s, false, now) == []
  {
    if s != [] {
      var n := |s| - 1;
      assert s == s[..n] + [s[n]] && s[n] in s;
      SelectLast(s, now);
      AllDueIsAll(s[..n], now);
    }
  }

  lemma NothingToPreserve(recalc: seq<Candidate>, cfg: AirportConfig, now: Instant)
    ensures Preserve(SortCandidates(PreservedOrder, [], now), [], recalc, cfg, now) == Ends(([], recalc))
  {
    assert SortCandidates(PreservedOrder, [], now) == [];
  }

  lemma DueFlightsQueue(s: seq<Candidate>, cfg: AirportConfig, now: Instant)
    requires forall c :: c in s ==> IsRecalculated(c, now)
    ensures Prepare(s, cfg, now).Ends? && Prepare(s, cfg, now).value.1 == SortCandidates(QueueOrder, s, now)
  {
    AllDueIsAll(s, now);
    NothingToPreserve(s, cfg, now);
  }

  lemma ThreeDueQueue(s: seq<Candidate>, cfg: AirportConfig, now: Instant, a: Candidate, b: Candidate, c: Candidate)
    requires s == [a, b, c] && SortCandidates(QueueOrder, s, now) == s
    requires IsRecalculated(a, now) && IsRecalculated(b, now) && IsRecalculated(c, now)
    ensures Prepare(s, cfg, now).Ends? && Prepare(s, cfg, now).value.1 == s
  {
    DueFlightsQueue(s, cfg, now);
  }

  function QueueAtNoon(): seq<Candidate> {
    Candidates([UNREGULATED, REGULATED, WAITING], PLAIN, NOON)
  }

  lemma QueueOfThree()
    ensures Prepare(QueueAtNoon(), PLAIN, NOON).Ends? && Prepare(QueueAtNoon(), PLAIN, NOON).value.1 == QueueAtNoon()
  {
    AllAreDueAtNoon();
    SortedAtNoon();
    ThreeDueQueue(QueueAtNoon(), PLAIN, NOON, Noon(UNREGULATED), Noon(REGULATED), Noon(WAITING));
  }

  lemma ThreeAtNoon()
    ensures |QueueAtNoon()| == 3 && !QueueAtNoon()[0].hasCtot && QueueAtNoon()[2].hasCtot
            && !QueueAtNoon()[2].improvement
  {
    AllAreDueAtNoon();
  }

  /** The first flight has no CTOT and takes its turn before the last, which has one and is no improve-only flight: the
      one between them goes after the first by their slots, and before the last by their natural times. */
  lemma ImproverPassesCtot()
    ensures var s := QueueAtNoon();
            && |s| == 3 && !s[0].hasCtot && s[2].hasCtot && !s[2].improvement
            && Prepare(s, PLAIN, NOON).Ends? && Prepare(s, PLAIN, NOON).value.1 == s
  {
    ThreeAtNoon();
    QueueOfThree();
  }
}
