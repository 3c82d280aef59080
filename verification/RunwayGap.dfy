/** Runway gaps: `MergeRunwayGap` of backend/internal/aman/runway_gap.go, and the clauses of `AirportState.Validate`
    in types.go that its result must satisfy again. Times are nanoseconds in UTC; zero is the unset time. */
module RunwayGap {
  import opened Text
  import opened Sorting
  import Ordering

  type Time = int

  datatype Result<+T> = Ok(value: T) | Invalid(message: string)

  /** The half-open interval `[start, end)` without normal landing capacity. */
  datatype Gap = Gap(id: string, start: Time, end: Time, title: string, createdAt: Time, createdBy: string) {
    predicate Covers(t: Time) {
      start <= t < end
    }
  }

  datatype RatePoint = RatePoint(effectiveAt: Time, arrivalsPerHour: nat)

  datatype Group = Group(id: string, activeRate: nat, rateEffectiveAt: Option<Time>, rates: seq<RatePoint>,
                         gaps: seq<Gap>)

  datatype MergeInput = MergeInput(groupId: string, commandId: string, start: Time, end: Time,
                                   title: string, createdAt: Time, createdBy: string) {
    function AsGap(): Gap {
      Gap(commandId, start, end, title, createdAt, createdBy)
    }
  }

  datatype MergeResult = MergeResult(groups: seq<Group>, union: Gap, replaced: seq<string>)

  // ---- What Validate demands -------------------------------------------------------

  predicate IsTrimmedNonEmpty(s: string) {
    s != "" && Trim(s) == s
  }

  predicate ValidGap(g: Gap) {
    && IsTrimmedNonEmpty(g.id) && IsTrimmedNonEmpty(g.title) && IsTrimmedNonEmpty(g.createdBy)
    && g.start != 0 && g.end != 0 && g.createdAt != 0 && g.start < g.end
  }

  predicate GapLess(l: Gap, r: Gap) {
    if l.start != r.start then l.start < r.start
    else if l.end != r.end then l.end < r.end
    else Ordering.CompareText(l.id, r.id) < 0
  }

  function GapOrder(): (Gap, Gap) -> bool {
    (l, r) => GapLess(l, r)
  }

  /** `r` comes after `l` and neither overlaps nor touches it. */
  predicate Follows(l: Gap, r: Gap) {
    GapLess(l, r) && l.end < r.start
  }

  /** Valid gaps in strict order, none overlapping or touching another. */
  predicate CanonicalGaps(gaps: seq<Gap>) {
    && (forall i :: 0 <= i < |gaps| ==> ValidGap(gaps[i]))
    && (forall i, j :: 0 <= i < j < |gaps| ==> Follows(gaps[i], gaps[j]))
  }

  function Ids(gaps: seq<Gap>): set<string> {
    set g | g in gaps :: g.id
  }

  predicate DistinctIds(gaps: seq<Gap>) {
    forall i, j :: 0 <= i < j < |gaps| ==> gaps[i].id != gaps[j].id
  }

  /** A gap may follow valid ones: its identity is new, and it lies after the last of them without touching it. */
  predicate MayFollow(g: Gap, earlier: seq<Gap>, seen: set<string>) {
    && ValidGap(g) && g.id !in seen && g.id !in Ids(earlier)
    && (earlier != [] ==> Follows(earlier[|earlier| - 1], g))
  }

  predicate FineGaps(gaps: seq<Gap>, seen: set<string>) {
    gaps == [] || (FineGaps(gaps[..|gaps| - 1], seen) && MayFollow(gaps[|gaps| - 1], gaps[..|gaps| - 1], seen))
  }

  /** Validation compares neighbours only, which is enough to keep every two gaps in order and apart. */
  lemma CanonicalAppend(init: seq<Gap>, g: Gap)
    ensures CanonicalGaps(init + [g]) <==>
              CanonicalGaps(init) && ValidGap(g) && (init != [] ==> Follows(init[|init| - 1], g))
  {
    var all, n := init + [g], |init|;
    assert all[n] == g && forall i :: 0 <= i < n ==> all[i] == init[i];
    if CanonicalGaps(init) && ValidGap(g) && n > 0 && Follows(init[n - 1], g) {
      forall i | 0 <= i < n - 1
        ensures Follows(init[i], g)
      {
        assert Follows(init[i], init[n - 1]) && ValidGap(init[i]) && ValidGap(init[n - 1]);
      }
    }
    if CanonicalGaps(all) {
      assert forall i, j :: 0 <= i < j < n ==> Follows(all[i], all[j]);
      assert forall i :: 0 <= i < n ==> ValidGap(all[i]);
    }
  }

  lemma DistinctAppend(init: seq<Gap>, g: Gap)
    ensures DistinctIds(init + [g]) <==> DistinctIds(init) && g.id !in Ids(init)
    ensures Ids(init + [g]) == Ids(init) + {g.id}
  {
    var all := init + [g];
    assert all[|init|] == g && forall i :: 0 <= i < |init| ==> all[i] == init[i];
    if g.id in Ids(init) {
      var h :| h in init && h.id == g.id;
      var i :| 0 <= i < |init| && init[i] == h;
      assert all[i].id == all[|init|].id;
    } else {
      assert forall i :: 0 <= i < |init| ==> init[i] in init;
    }
  }

  lemma {:induction false} FineGapsMeans(gaps: seq<Gap>, seen: set<string>)
    ensures FineGaps(gaps, seen) <==> CanonicalGaps(gaps) && DistinctIds(gaps) && Ids(gaps) !! seen
  {
    if gaps != [] {
      var init, last := gaps[..|gaps| - 1], gaps[|gaps| - 1];
      assert gaps == init + [last];
      FineGapsMeans(init, seen);
      CanonicalAppend(init, last);
      DistinctAppend(init, last);
    }
  }

  lemma IdsSplit(gaps: seq<Gap>, n: nat)
    requires n < |gaps|
    ensures Ids(gaps[..n + 1]) == Ids(gaps[..n]) + {gaps[n].id}
  {
    assert gaps[..n + 1] == gaps[..n] + [gaps[n]];
  }

  function AllIds(groups: seq<Group>): set<string> {
    set group, g | group in groups && g in group.gaps :: g.id
  }

  function GroupIds(groups: seq<Group>): set<string> {
    set g | g in groups :: g.id
  }

  predicate ValidGroup(g: Group, earlier: seq<Group>) {
    && Trim(g.id) != "" && g.id !in GroupIds(earlier)
    && FineGaps(g.gaps, AllIds(earlier))
  }

  predicate ValidGroups(groups: seq<Group>) {
    forall n :: 0 <= n < |groups| ==> ValidGroup(groups[n], groups[..n])
  }

  // ---- Coverage: canonical lists are determined by the time they cover ---------------------

  ghost predicate Covered(gaps: seq<Gap>, t: Time) {
    exists i :: 0 <= i < |gaps| && gaps[i].Covers(t)
  }

  ghost predicate SameCover(a: seq<Gap>, b: seq<Gap>) {
    forall t :: Covered(a, t) <==> Covered(b, t)
  }

  function Bounds(gaps: seq<Gap>): seq<(Time, Time)> {
    if gaps == [] then [] else [(gaps[0].start, gaps[0].end)] + Bounds(gaps[1..])
  }

  lemma HeadDecides(gaps: seq<Gap>, t: Time)
    requires CanonicalGaps(gaps) && gaps != []
    ensures t <= gaps[0].end ==> (Covered(gaps, t) <==> gaps[0].Covers(t))
    ensures Covered(gaps[1..], t) <==> Covered(gaps, t) && t > gaps[0].end
  {
    assert forall i :: 0 < i < |gaps| ==> Follows(gaps[0], gaps[i]);
    if Covered(gaps[1..], t) {
      var i :| 0 <= i < |gaps[1..]| && gaps[1..][i].Covers(t);
      assert gaps[i + 1].Covers(t);
    }
    if Covered(gaps, t) && t > gaps[0].end {
      var i :| 0 <= i < |gaps| && gaps[i].Covers(t);
      assert gaps[1..][i - 1].Covers(t);
    }
  }

  lemma SomethingIsCovered(gaps: seq<Gap>)
    requires CanonicalGaps(gaps) && gaps != []
    ensures Covered(gaps, gaps[0].start)
  {
    assert gaps[0].Covers(gaps[0].start);
  }

  lemma SameHead(a: seq<Gap>, b: seq<Gap>)
    requires CanonicalGaps(a) && CanonicalGaps(b) && SameCover(a, b) && a != [] && b != []
    ensures a[0].start == b[0].start && a[0].end == b[0].end
  {
    SomethingIsCovered(a);
    SomethingIsCovered(b);
    HeadDecides(a, b[0].start);
    HeadDecides(b, a[0].start);
    HeadDecides(a, a[0].end);
    HeadDecides(b, b[0].end);
    HeadDecides(a, b[0].end);
    HeadDecides(b, a[0].end);
  }

  /** Two canonical gap lists that cover the same times have the same bounds. */
  lemma {:induction false} CoverDeterminesBounds(a: seq<Gap>, b: seq<Gap>)
    requires CanonicalGaps(a) && CanonicalGaps(b) && SameCover(a, b)
    ensures Bounds(a) == Bounds(b)
  {
    if a != [] && b != [] {
      SameHead(a, b);
      forall t
        ensures Covered(a[1..], t) <==> Covered(b[1..], t)
      {
        HeadDecides(a, t);
        HeadDecides(b, t);
      }
      CoverDeterminesBounds(a[1..], b[1..]);
    } else if a != [] {
      SomethingIsCovered(a);
    } else if b != [] {
      SomethingIsCovered(b);
    }
  }

  // ---- Validating --------------------------------------------------------------------------------

  lemma {:induction false} PrefixesAreFine(gaps: seq<Gap>, n: nat, seen: set<string>)
    requires n <= |gaps| && FineGaps(gaps, seen)
    ensures FineGaps(gaps[..n], seen)
    decreases |gaps|
  {
    if n < |gaps| {
      PrefixesAreFine(gaps[..|gaps| - 1], n, seen);
      assert gaps[..|gaps| - 1][..n] == gaps[..n];
    } else {
      assert gaps[..n] == gaps;
    }
  }

  method ValidateGaps(gaps: seq<Gap>, seen: set<string>) returns (ok: bool, ids: set<string>)
    ensures ok <==> FineGaps(gaps, seen)
    ensures ok ==> ids == seen + Ids(gaps)
  {
    ids := seen;
    for n := 0 to |gaps|
      invariant FineGaps(gaps[..n], seen) && ids == seen + Ids(gaps[..n])
    {
      IdsSplit(gaps, n);
      assert gaps[..n + 1][..n] == gaps[..n];
      if !ValidGap(gaps[n]) || gaps[n].id in ids || (n > 0 && !Follows(gaps[n - 1], gaps[n])) {
        assert !FineGaps(gaps[..n + 1], seen);
        if FineGaps(gaps, seen) {
          PrefixesAreFine(gaps, n + 1, seen);
        }
        return false, ids;
      }
      ids := ids + {gaps[n].id};
    }
    assert gaps[..|gaps|] == gaps;
    ok := true;
  }

  lemma GroupsAppend(init: seq<Group>, g: Group)
    ensures AllIds(init + [g]) == AllIds(init) + Ids(g.gaps)
    ensures GroupIds(init + [g]) == GroupIds(init) + {g.id}
  {
    assert forall h :: h in init + [g] <==> h in init || h == g;
  }

  lemma NextPrefix(groups: seq<Group>, n: nat)
    requires n < |groups|
    ensures AllIds(groups[..n + 1]) == AllIds(groups[..n]) + Ids(groups[n].gaps)
    ensures GroupIds(groups[..n + 1]) == GroupIds(groups[..n]) + {groups[n].id}
  {
    GroupsAppend(groups[..n], groups[n]);
    assert groups[..n + 1] == groups[..n] + [groups[n]];
  }

  /** Accepts exactly the valid groups. */
  method ValidateGroups(groups: seq<Group>) returns (ok: bool)
    ensures ok <==> ValidGroups(groups)
  {
    var groupIds: set<string>, gapIds: set<string> := {}, {};
    for n := 0 to |groups|
      invariant groupIds == GroupIds(groups[..n]) && gapIds == AllIds(groups[..n])
      invariant forall m :: 0 <= m < n ==> ValidGroup(groups[m], groups[..m])
    {
      var g := groups[n];
      var fine, ids := ValidateGaps(g.gaps, gapIds);
      if Trim(g.id) == "" || g.id in groupIds || !fine {
        assert !ValidGroup(groups[n], groups[..n]);
        return false;
      }
      NextPrefix(groups, n);
      groupIds, gapIds := groupIds + {g.id}, ids;
    }
    return true;
  }
}
