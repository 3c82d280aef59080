/** Accepting a runway gap: `MergeRunwayGap` of backend/internal/aman/runway_gap.go. */
module RunwayGapMerge {
  import opened Text
  import opened Sorting
  import opened RunwayGap
  import Ordering

  /** Overlapping or adjacent. */
  predicate Touches(g: Gap, start: Time, end: Time) {
    !(g.end < start) && !(end < g.start)
  }

  /** The gaps that touch an interval, or those that do not, in order. */
  function Split(gaps: seq<Gap>, start: Time, end: Time, touching: bool): seq<Gap> {
    if gaps == [] then []
    else
      var n := |gaps| - 1;
      Split(gaps[..n], start, end, touching) + (if Touches(gaps[n], start, end) == touching then [gaps[n]] else [])
  }

  function IdList(gaps: seq<Gap>): seq<string> {
    if gaps == [] then [] else IdList(gaps[..|gaps| - 1]) + [gaps[|gaps| - 1].id]
  }

  // ---- Growing the union -----------------------------------------------------------------

  /** `union` reaches exactly as far as the input and the merged gaps do. */
  ghost predicate IsHull(union: Gap, input: Gap, gaps: seq<Gap>, merged: seq<bool>)
    requires |merged| == |gaps|
  {
    && union == input.(start := union.start, end := union.end)
    && union.start <= input.start && input.end <= union.end
    && (forall i :: 0 <= i < |gaps| && merged[i] ==> union.start <= gaps[i].start && gaps[i].end <= union.end)
    && (union.start == input.start || exists i :: 0 <= i < |gaps| && merged[i] && gaps[i].start == union.start)
    && (union.end == input.end || exists i :: 0 <= i < |gaps| && merged[i] && gaps[i].end == union.end)
  }

  ghost predicate OnlyTouching(input: Gap, gaps: seq<Gap>, merged: seq<bool>)
    requires |merged| == |gaps|
  {
    forall i :: 0 <= i < |gaps| && merged[i] ==> Touches(gaps[i], input.start, input.end)
  }

  /** Among canonical gaps the growing union reaches no gap that the input does not touch itself. */
  lemma GrowthTouchesNoMore(union: Gap, input: Gap, gaps: seq<Gap>, merged: seq<bool>, k: nat)
    requires |merged| == |gaps| && k < |gaps| && !merged[k]
    requires CanonicalGaps(gaps) && input.start < input.end
    requires IsHull(union, input, gaps, merged) && OnlyTouching(input, gaps, merged)
             && Touches(gaps[k], union.start, union.end)
    ensures Touches(gaps[k], input.start, input.end)
  {
    forall i | 0 <= i < |gaps| && merged[i]
      ensures ValidGap(gaps[i]) && (gaps[i].end < gaps[k].start || gaps[k].end < gaps[i].start)
    {
      assert Follows(gaps[i], gaps[k]) || Follows(gaps[k], gaps[i]);
    }
    assert ValidGap(gaps[k]);
  }

  function Absorbed(union: Gap, g: Gap): Gap {
    union.(start := if g.start < union.start then g.start else union.start,
           end := if g.end > union.end then g.end else union.end)
  }

  lemma HullGrows(union: Gap, input: Gap, gaps: seq<Gap>, merged: seq<bool>, k: nat)
    requires |merged| == |gaps| && k < |gaps| && IsHull(union, input, gaps, merged)
    ensures IsHull(Absorbed(union, gaps[k]), input, gaps, merged[k := true])
  {
    var now := merged[k := true];
    assert now[k] && forall i :: 0 <= i < |gaps| && merged[i] ==> now[i];
  }

  ghost predicate Grown(union: Gap, input: Gap, gaps: seq<Gap>, merged: seq<bool>)
    requires |merged| == |gaps|
  {
    && IsHull(union, input, gaps, merged)
    && (CanonicalGaps(gaps) && input.start < input.end ==> OnlyTouching(input, gaps, merged))
  }

  lemma GrowthStep(union: Gap, input: Gap, gaps: seq<Gap>, merged: seq<bool>, k: nat)
    requires |merged| == |gaps| && k < |gaps| && !merged[k]
    requires Grown(union, input, gaps, merged) && Touches(gaps[k], union.start, union.end)
    ensures Grown(Absorbed(union, gaps[k]), input, gaps, merged[k := true])
    ensures multiset(merged[k := true])[false] < multiset(merged)[false]
  {
    HullGrows(union, input, gaps, merged, k);
    if CanonicalGaps(gaps) && input.start < input.end {
      GrowthTouchesNoMore(union, input, gaps, merged, k);
    }
  }

  /** One sweep: absorbs touching gaps as it goes, and reports whether it absorbed any. */
  method Sweep(gaps: seq<Gap>, ghost input: Gap, start: Gap, merged: array<bool>) returns (union: Gap, changed: bool)
    requires merged.Length == |gaps| && Grown(start, input, gaps, merged[..])
    modifies merged
    ensures Grown(union, input, gaps, merged[..])
    ensures changed ==> multiset(merged[..])[false] < multiset(old(merged[..]))[false]
    ensures !changed ==> merged[..] == old(merged[..])
    ensures !changed ==> forall i :: 0 <= i < |gaps| ==> merged[i] || !Touches(gaps[i], union.start, union.end)
  {
    union, changed := start, false;
    for index := 0 to |gaps|
      invariant Grown(union, input, gaps, merged[..])
      invariant if changed then multiset(merged[..])[false] < multiset(old(merged[..]))[false]
                else merged[..] == old(merged[..])
      invariant !changed ==> forall i :: 0 <= i < index ==> merged[i] || !Touches(gaps[i], union.start, union.end)
    {
      if merged[index] || !Touches(gaps[index], union.start, union.end) {
        continue;
      }
      ghost var flags := merged[..];
      GrowthStep(union, input, gaps, flags, index);
      merged[index], changed := true, true;
      assert merged[..] == flags[index := true];
      union := Absorbed(union, gaps[index]);
    }
  }

  /** Sweeps until no further gap touches the union. On any gaps the union then touches no gap left over; on canonical
      ones it has absorbed exactly those that touch the input. */
  method Absorb(gaps: seq<Gap>, input: Gap) returns (union: Gap, merged: array<bool>)
    ensures fresh(merged) && merged.Length == |gaps|
    ensures IsHull(union, input, gaps, merged[..])
    ensures forall i :: 0 <= i < |gaps| ==> merged[i] || !Touches(gaps[i], union.start, union.end)
    ensures CanonicalGaps(gaps) && input.start < input.end ==>
              forall i :: 0 <= i < |gaps| ==> (merged[i] <==> Touches(gaps[i], input.start, input.end))
  {
    union, merged := input, new bool[|gaps|](_ => false);
    var changed := true;
    while changed
      invariant Grown(union, input, gaps, merged[..])
      invariant !changed ==> forall i :: 0 <= i < |gaps| ==> merged[i] || !Touches(gaps[i], union.start, union.end)
      decreases multiset(merged[..])[false], changed
    {
      union, changed := Sweep(gaps, input, union, merged);
    }
  }

  // ---- The merged list ------------------------------------------------------------------------------

  lemma {:induction false} SortOfSorted<T>(lt: (T, T) -> bool, s: seq<T>)
    requires forall i, j :: 0 <= i < j < |s| ==> !lt(s[j], s[i])
    ensures StableSort(lt, s) == s
  {
    if s != [] {
      SortOfSorted(lt, s[..|s| - 1]);
    }
  }

  lemma CanonicalIsSorted(gaps: seq<Gap>)
    requires CanonicalGaps(gaps)
    ensures StableSort(GapOrder(), gaps) == gaps
  {
    forall i, j | 0 <= i < j < |gaps|
      ensures !GapLess(gaps[j], gaps[i])
    {
      assert Follows(gaps[i], gaps[j]) && ValidGap(gaps[i]);
    }
    SortOfSorted(GapOrder(), gaps);
  }

  lemma {:induction false} SplitIsPart(gaps: seq<Gap>, start: Time, end: Time, touching: bool)
    ensures forall g :: g in Split(gaps, start, end, touching) <==> g in gaps && Touches(g, start, end) == touching
  {
    if gaps != [] {
      var n := |gaps| - 1;
      SplitIsPart(gaps[..n], start, end, touching);
      assert gaps == gaps[..n] + [gaps[n]];
    }
  }

  lemma LastFollowsPart(gaps: seq<Gap>, n: nat, part: seq<Gap>)
    requires n < |gaps| && CanonicalGaps(gaps) && DistinctIds(gaps) && forall g :: g in part ==> g in gaps[..n]
    ensures ValidGap(gaps[n]) && gaps[n].id !in Ids(part)
    ensures part != [] ==> Follows(part[|part| - 1], gaps[n])
  {
    forall g | g in part
      ensures g.id != gaps[n].id && Follows(g, gaps[n])
    {
      var i :| 0 <= i < n && gaps[..n][i] == g;
      assert gaps[i] == g;
    }
  }

  lemma {:induction false} SplitIsCanonical(gaps: seq<Gap>, start: Time, end: Time, touching: bool)
    requires CanonicalGaps(gaps) && DistinctIds(gaps)
    ensures CanonicalGaps(Split(gaps, start, end, touching)) && DistinctIds(Split(gaps, start, end, touching))
  {
    if gaps != [] {
      var n := |gaps| - 1;
      var part := Split(gaps[..n], start, end, touching);
      SplitIsCanonical(gaps[..n], start, end, touching);
      SplitIsPart(gaps[..n], start, end, touching);
      LastFollowsPart(gaps, n, part);
      CanonicalAppend(part, gaps[n]);
      DistinctAppend(part, gaps[n]);
    }
  }

  lemma MiddleIsCanonical(gaps: seq<Gap>, g: Gap, k: nat)
    requires k <= |gaps| && CanonicalGaps(gaps) && ValidGap(g)
    requires forall i :: 0 <= i < k ==> Follows(gaps[i], g)
    requires forall i :: k <= i < |gaps| ==> Follows(g, gaps[i])
    ensures CanonicalGaps(gaps[..k] + [g] + gaps[k..])
  {
    var out := gaps[..k] + [g] + gaps[k..];
    assert forall i :: 0 <= i < |out| ==> out[i] == if i < k then gaps[i] else if i == k then g else gaps[i - 1];
  }

  lemma InsertPlace(gaps: seq<Gap>, g: Gap) returns (k: nat)
    ensures k <= |gaps| && Insert(GapOrder(), g, gaps) == gaps[..k] + [g] + gaps[k..]
    ensures k > 0 ==> gaps[k - 1].start <= g.start
    ensures forall i :: k <= i < |gaps| ==> g.start <= gaps[i].start
  {
    k := InsertShape(GapOrder(), g, gaps);
    forall i | k <= i < |gaps|
      ensures g.start <= gaps[i].start
    {
      assert GapOrder()(g, gaps[i]);
    }
    assert k > 0 ==> !GapOrder()(g, gaps[k - 1]);
  }

  lemma ApartFollows(l: Gap, r: Gap)
    requires ValidGap(l) && ValidGap(r) && l.start <= r.start && !Touches(l, r.start, r.end)
    ensures Follows(l, r)
  {
  }

  /** Inserting a gap that touches none of a canonical list keeps it canonical. */
  lemma InsertIsCanonical(gaps: seq<Gap>, g: Gap)
    requires CanonicalGaps(gaps) && ValidGap(g)
    requires forall i :: 0 <= i < |gaps| ==> !Touches(gaps[i], g.start, g.end)
    ensures CanonicalGaps(Insert(GapOrder(), g, gaps))
  {
    var k := InsertPlace(gaps, g);
    forall i | 0 <= i < k
      ensures Follows(gaps[i], g)
    {
      assert i < k - 1 ==> Follows(gaps[i], gaps[k - 1]);
      ApartFollows(gaps[i], g);
    }
    forall i | k <= i < |gaps|
      ensures Follows(g, gaps[i])
    {
      ApartFollows(g, gaps[i]);
    }
    MiddleIsCanonical(gaps, g, k);
  }

  lemma InsertDistinct(gaps: seq<Gap>, g: Gap)
    requires DistinctIds(gaps) && g.id !in Ids(gaps)
    ensures DistinctIds(Insert(GapOrder(), g, gaps))
  {
    var k := InsertPlace(gaps, g);
    forall i | 0 <= i < |gaps|
      ensures gaps[i].id != g.id
    {
      assert gaps[i] in gaps;
    }
    MiddleDistinct(gaps, g, k);
  }

  lemma MiddleDistinct(gaps: seq<Gap>, g: Gap, k: nat)
    requires k <= |gaps| && DistinctIds(gaps) && forall i :: 0 <= i < |gaps| ==> gaps[i].id != g.id
    ensures DistinctIds(gaps[..k] + [g] + gaps[k..])
  {
    var out := gaps[..k] + [g] + gaps[k..];
    assert forall i :: 0 <= i < |out| ==> out[i] == if i < k then gaps[i] else if i == k then g else gaps[i - 1];
  }

  lemma AbsorbedIsCovered(union: Gap, input: Gap, gaps: seq<Gap>, merged: seq<bool>, t: Time)
    requires |merged| == |gaps| && CanonicalGaps(gaps) && input.start < input.end && IsHull(union, input, gaps, merged)
    requires OnlyTouching(input, gaps, merged) && union.Covers(t) && !input.Covers(t)
    ensures exists i :: 0 <= i < |gaps| && merged[i] && gaps[i].Covers(t)
  {
    if t < input.start {
      var i :| 0 <= i < |gaps| && merged[i] && gaps[i].start == union.start;
      assert gaps[i].Covers(t);
    } else {
      var i :| 0 <= i < |gaps| && merged[i] && gaps[i].end == union.end;
      assert gaps[i].Covers(t);
    }
  }

  /** The union covers the input and what the absorbed gaps covered, and nothing else. */
  lemma UnionCovers(union: Gap, input: Gap, gaps: seq<Gap>, merged: seq<bool>, t: Time)
    requires |merged| == |gaps| && CanonicalGaps(gaps) && input.start < input.end && IsHull(union, input, gaps, merged)
    requires forall i :: 0 <= i < |gaps| ==> (merged[i] <==> Touches(gaps[i], input.start, input.end))
    ensures union.Covers(t) <==> input.Covers(t) || Covered(Split(gaps, input.start, input.end, true), t)
  {
    var part := Split(gaps, input.start, input.end, true);
    SplitIsPart(gaps, input.start, input.end, true);
    CoverByMembers(part, t);
    if g :| g in part && g.Covers(t) {
      var i :| 0 <= i < |gaps| && gaps[i] == g;
      assert merged[i];
    }
    if union.Covers(t) && !input.Covers(t) {
      AbsorbedIsCovered(union, input, gaps, merged, t);
      var i :| 0 <= i < |gaps| && merged[i] && gaps[i].Covers(t);
      assert gaps[i] in part;
    }
  }

  lemma CoverByMembers(a: seq<Gap>, t: Time)
    ensures Covered(a, t) <==> exists g :: g in a && g.Covers(t)
  {
    if g :| g in a && g.Covers(t) {
      var i :| 0 <= i < |a| && a[i] == g;
      assert a[i].Covers(t);
    }
  }

  /** What accepting a gap does to the gaps of its runway group. */
  ghost predicate IsMerged(gaps: seq<Gap>, input: Gap, union: Gap, out: seq<Gap>, replaced: seq<string>) {
    && CanonicalGaps(out) && DistinctIds(out)
    && union == input.(start := union.start, end := union.end)
    && (forall g :: g in out <==> g == union || (g in gaps && !Touches(g, input.start, input.end)))
    && replaced == IdList(Split(gaps, input.start, input.end, true))
    && (forall t :: Covered(out, t) <==> Covered(gaps, t) || input.Covers(t))
  }

  lemma MergedCovers(gaps: seq<Gap>, input: Gap, union: Gap, out: seq<Gap>, t: Time)
    requires forall g :: g in out <==> g == union || (g in gaps && !Touches(g, input.start, input.end))
    requires union.Covers(t) <==> input.Covers(t) || Covered(Split(gaps, input.start, input.end, true), t)
    ensures Covered(out, t) <==> Covered(gaps, t) || input.Covers(t)
  {
    var part := Split(gaps, input.start, input.end, true);
    SplitIsPart(gaps, input.start, input.end, true);
    CoverByMembers(out, t);
    CoverByMembers(gaps, t);
    CoverByMembers(part, t);
    assert union in out;
  }

  lemma RestIsFree(gaps: seq<Gap>, union: Gap, merged: seq<bool>, start: Time, end: Time)
    requires |merged| == |gaps|
    requires forall i :: 0 <= i < |gaps| ==> (merged[i] <==> Touches(gaps[i], start, end))
    requires forall i :: 0 <= i < |gaps| ==> merged[i] || !Touches(gaps[i], union.start, union.end)
    ensures var rest := Split(gaps, start, end, false);
            forall i :: 0 <= i < |rest| ==> !Touches(rest[i], union.start, union.end)
  {
    var rest := Split(gaps, start, end, false);
    SplitIsPart(gaps, start, end, false);
    forall i | 0 <= i < |rest|
      ensures !Touches(rest[i], union.start, union.end)
    {
      assert rest[i] in rest;
      var j :| 0 <= j < |gaps| && gaps[j] == rest[i];
    }
  }

  ghost predicate SortsWith(rest: seq<Gap>, union: Gap) {
    var out := StableSort(GapOrder(), rest + [union]);
    CanonicalGaps(out) && DistinctIds(out) && forall g :: g in out <==> g == union || g in rest
  }

  lemma SortWithUnion(rest: seq<Gap>, union: Gap)
    requires CanonicalGaps(rest) && DistinctIds(rest) && union.id !in Ids(rest) && ValidGap(union)
    requires forall i :: 0 <= i < |rest| ==> !Touches(rest[i], union.start, union.end)
    ensures SortsWith(rest, union)
  {
    CanonicalIsSorted(rest);
    assert (rest + [union])[..|rest|] == rest;
    assert StableSort(GapOrder(), rest + [union]) == Insert(GapOrder(), union, rest);
    InsertIsCanonical(rest, union);
    InsertDistinct(rest, union);
    InsertKeepsAll(GapOrder(), union, rest);
  }

  lemma SplitIds(gaps: seq<Gap>, start: Time, end: Time, touching: bool)
    ensures Ids(Split(gaps, start, end, touching)) <= Ids(gaps)
  {
    SplitIsPart(gaps, start, end, touching);
  }

  lemma RestWithUnion(gaps: seq<Gap>, input: Gap, union: Gap, merged: seq<bool>)
    requires |merged| == |gaps| && CanonicalGaps(gaps) && DistinctIds(gaps) && union.id !in Ids(gaps) && ValidGap(union)
    requires forall i :: 0 <= i < |gaps| ==> (merged[i] <==> Touches(gaps[i], input.start, input.end))
    requires forall i :: 0 <= i < |gaps| ==> merged[i] || !Touches(gaps[i], union.start, union.end)
    ensures SortsWith(Split(gaps, input.start, input.end, false), union)
  {
    var rest := Split(gaps, input.start, input.end, false);
    SplitIsCanonical(gaps, input.start, input.end, false);
    RestIsFree(gaps, union, merged, input.start, input.end);
    SplitIds(gaps, input.start, input.end, false);
    SortWithUnion(rest, union);
  }

  lemma AbsorbedIsMerged(gaps: seq<Gap>, input: Gap, union: Gap, merged: seq<bool>, out: seq<Gap>)
    requires |merged| == |gaps| && CanonicalGaps(gaps) && DistinctIds(gaps) && ValidGap(input) && input.id !in Ids(gaps)
    requires IsHull(union, input, gaps, merged) && ValidGap(union)
    requires forall i :: 0 <= i < |gaps| ==> (merged[i] <==> Touches(gaps[i], input.start, input.end))
    requires forall i :: 0 <= i < |gaps| ==> merged[i] || !Touches(gaps[i], union.start, union.end)
    requires out == StableSort(GapOrder(), Split(gaps, input.start, input.end, false) + [union])
    ensures IsMerged(gaps, input, union, out, IdList(Split(gaps, input.start, input.end, true)))
  {
    RestWithUnion(gaps, input, union, merged);
    SplitIsPart(gaps, input.start, input.end, false);
    forall t
      ensures Covered(out, t) <==> Covered(gaps, t) || input.Covers(t)
    {
      UnionCovers(union, input, gaps, merged, t);
      MergedCovers(gaps, input, union, out, t);
    }
  }

  /** The gaps whose flag has the wanted value. */
  function Chosen(gaps: seq<Gap>, flags: seq<bool>, want: bool): seq<Gap>
    requires |gaps| == |flags|
  {
    if gaps == [] then []
    else
      var n := |gaps| - 1;
      var init := Chosen(gaps[..n], flags[..n], want);
      if flags[n] == want then init + [gaps[n]] else init
  }

  lemma {:induction false} ChosenIsSplit(gaps: seq<Gap>, flags: seq<bool>, start: Time, end: Time, want: bool)
    requires |gaps| == |flags| && forall i :: 0 <= i < |gaps| ==> (flags[i] <==> Touches(gaps[i], start, end))
    ensures Chosen(gaps, flags, want) == Split(gaps, start, end, want)
  {
    if gaps != [] {
      ChosenIsSplit(gaps[..|gaps| - 1], flags[..|gaps| - 1], start, end, want);
    }
  }

  lemma IdListAppend(gaps: seq<Gap>, g: Gap)
    ensures IdList(gaps + [g]) == IdList(gaps) + [g.id]
  {
    assert (gaps + [g])[..|gaps|] == gaps;
  }

  lemma HullIsSet(union: Gap, input: Gap, gaps: seq<Gap>, merged: seq<bool>)
    requires |merged| == |gaps| && CanonicalGaps(gaps) && ValidGap(input) && IsHull(union, input, gaps, merged)
    ensures ValidGap(union)
  {
    assert forall i :: 0 <= i < |gaps| ==> ValidGap(gaps[i]);
  }

  method Separate(gaps: seq<Gap>, merged: array<bool>) returns (retained: seq<Gap>, replaced: seq<string>)
    requires merged.Length == |gaps|
    ensures retained == Chosen(gaps, merged[..], false) && replaced == IdList(Chosen(gaps, merged[..], true))
  {
    retained, replaced := [], [];
    for index := 0 to |gaps|
      invariant retained == Chosen(gaps[..index], merged[..index], false)
      invariant replaced == IdList(Chosen(gaps[..index], merged[..index], true))
    {
      assert gaps[..index + 1][..index] == gaps[..index] && merged[..index + 1][..index] == merged[..index];
      IdListAppend(Chosen(gaps[..index], merged[..index], true), gaps[index]);
      if merged[index] {
        replaced := replaced + [gaps[index].id];
      } else {
        retained := retained + [gaps[index]];
      }
    }
    assert gaps[..|gaps|] == gaps && merged[..|gaps|] == merged[..];
  }

  ghost predicate MayMerge(gaps: seq<Gap>, input: Gap) {
    CanonicalGaps(gaps) && DistinctIds(gaps) && ValidGap(input) && input.id !in Ids(gaps)
  }

  /** Replaces the gaps of one runway group. */
  method MergeInto(listed: seq<Gap>, input: Gap) returns (union: Gap, out: seq<Gap>, replaced: seq<string>)
    ensures MayMerge(listed, input) ==> IsMerged(listed, input, union, out, replaced)
  {
    var gaps := StableSort(GapOrder(), listed);
    var merged, retained;
    union, merged := Absorb(gaps, input);
    retained, replaced := Separate(gaps, merged);
    out := StableSort(GapOrder(), retained + [union]);
    if MayMerge(listed, input) {
      CanonicalIsSorted(listed);
      HullIsSet(union, input, gaps, merged[..]);
      ChosenIsSplit(gaps, merged[..], input.start, input.end, true);
      ChosenIsSplit(gaps, merged[..], input.start, input.end, false);
      AbsorbedIsMerged(gaps, input, union, merged[..], out);
    }
  }

  // ---- All runway groups ---------------------------------------------------------------------------------

  /** An input that is refused: it names no runway group, is no valid gap, reuses an identity, or its runway group is
      missing or listed twice. */
  predicate IsRefused(groups: seq<Group>, input: MergeInput) {
    || !IsTrimmedNonEmpty(input.groupId) || !ValidGap(input.AsGap())
    || Uses(groups, input.commandId) || CountGroups(groups, input.groupId) != 1
  }

  predicate Uses(groups: seq<Group>, id: string) {
    groups != [] && (Uses(groups[..|groups| - 1], id) || id in Ids(groups[|groups| - 1].gaps))
  }

  lemma {:induction false} UsesMeans(groups: seq<Group>, id: string)
    ensures Uses(groups, id) <==> id in AllIds(groups)
  {
    if groups != [] {
      var n := |groups| - 1;
      UsesMeans(groups[..n], id);
      NextPrefix(groups, n);
      assert groups[..n + 1] == groups;
    }
  }

  function CountGroups(groups: seq<Group>, id: string): nat {
    if groups == [] then 0 else CountGroups(groups[..|groups| - 1], id) + if groups[|groups| - 1].id == id then 1 else 0
  }

  /** Only the gaps of runway group `k` change. */
  ghost predicate OnlyGroup(groups: seq<Group>, out: seq<Group>, k: nat) {
    && k < |groups| == |out|
    && (forall i :: 0 <= i < |groups| && i != k ==> out[i] == groups[i])
    && out[k] == groups[k].(gaps := out[k].gaps)
  }

  ghost predicate IsMerge(groups: seq<Group>, input: MergeInput, r: MergeResult, k: nat) {
    && OnlyGroup(groups, r.groups, k) && groups[k].id == input.groupId
    && (MayMerge(groups[k].gaps, input.AsGap()) ==>
          IsMerged(groups[k].gaps, input.AsGap(), r.union, r.groups[k].gaps, r.replaced))
  }

  lemma CountAppend(groups: seq<Group>, n: nat, id: string)
    requires n < |groups|
    ensures CountGroups(groups[..n + 1], id) == CountGroups(groups[..n], id) + if groups[n].id == id then 1 else 0
    ensures Uses(groups[..n + 1], id) <==> Uses(groups[..n], id) || id in Ids(groups[n].gaps)
  {
    assert groups[..n + 1][..n] == groups[..n];
  }

  lemma {:induction false} PrefixesCountLess(groups: seq<Group>, n: nat, id: string)
    requires n <= |groups|
    ensures CountGroups(groups[..n], id) <= CountGroups(groups, id) && (Uses(groups[..n], id) ==> Uses(groups, id))
    decreases |groups| - n
  {
    if n < |groups| {
      CountAppend(groups, n, id);
      PrefixesCountLess(groups, n + 1, id);
    } else {
      assert groups[..n] == groups;
    }
  }

  method HasId(gaps: seq<Gap>, id: string) returns (found: bool)
    ensures found <==> id in Ids(gaps)
  {
    for i := 0 to |gaps|
      invariant forall j :: 0 <= j < i ==> gaps[j].id != id
    {
      if gaps[i].id == id {
        assert gaps[i] in gaps;
        return true;
      }
    }
    return false;
  }

  /** Refuses exactly the inputs that must be refused, and otherwise merges the gap into its one runway group. */
  method MergeRunwayGap(groups: seq<Group>, input: MergeInput) returns (r: Result<MergeResult>, ghost k: nat)
    ensures r.Invalid? <==> IsRefused(groups, input)
    ensures r.Ok? ==> IsMerge(groups, input, r.value, k)
  {
    k := 0;
    if !IsTrimmedNonEmpty(input.groupId) {
      return Invalid("runway gap runway group is required"), k;
    }
    var union := input.AsGap();
    if !ValidGap(union) {
      return Invalid("runway gap is invalid"), k;
    }
    var out, found, replaced := groups, false, [];
    for n := 0 to |groups|
      invariant |out| == |groups| && (forall i :: n <= i < |groups| ==> out[i] == groups[i])
      invariant CountGroups(groups[..n], input.groupId) == (if found then 1 else 0)
      invariant !Uses(groups[..n], input.commandId)
      invariant !found ==> union == input.AsGap() && out == groups
      invariant found ==> k < n && IsMerge(groups, input, MergeResult(out, union, replaced), k)
    {
      var group := groups[n];
      CountAppend(groups, n, input.groupId);
      CountAppend(groups, n, input.commandId);
      PrefixesCountLess(groups, n + 1, input.groupId);
      PrefixesCountLess(groups, n + 1, input.commandId);
      var clash := HasId(group.gaps, input.commandId);
      if clash {
        return Invalid("runway gap command ID already exists"), k;
      }
      if group.id != input.groupId {
        continue;
      }
      if found {
        return Invalid("runway gap runway group is not unique"), k;
      }
      var gaps;
      found, k := true, n;
      union, gaps, replaced := MergeInto(group.gaps, union);
      out := out[n := group.(gaps := gaps)];
    }
    assert groups[..|groups|] == groups;
    if !found {
      return Invalid("runway gap runway group does not exist"), k;
    }
    return Ok(MergeResult(out, union, replaced)), k;
  }

  // ---- Merging re-establishes what Validate demands ------------------------------------------------------------

  /** In valid groups an accepted gap meets all that its runway group's gaps require of it. */
  lemma AcceptedMayMerge(groups: seq<Group>, input: MergeInput, k: nat)
    requires ValidGroups(groups) && !IsRefused(groups, input) && k < |groups|
    ensures MayMerge(groups[k].gaps, input.AsGap())
  {
    FineGapsMeans(groups[k].gaps, AllIds(groups[..k]));
    UsesMeans(groups, input.commandId);
    assert groups[k] in groups;
  }

  lemma MergedIds(gaps: seq<Gap>, input: Gap, union: Gap, out: seq<Gap>, replaced: seq<string>)
    requires IsMerged(gaps, input, union, out, replaced)
    ensures Ids(out) <= Ids(gaps) + {input.id}
  {
  }

  lemma UnchangedStaysValid(g: Group, earlier: seq<Group>, now: seq<Group>, id: string)
    requires ValidGroup(g, earlier) && id !in Ids(g.gaps)
    requires GroupIds(now) == GroupIds(earlier) && AllIds(now) <= AllIds(earlier) + {id}
    ensures ValidGroup(g, now)
  {
    FineGapsMeans(g.gaps, AllIds(earlier));
    FineGapsMeans(g.gaps, AllIds(now));
  }

  lemma ChangedStaysValid(g: Group, gaps: seq<Gap>, earlier: seq<Group>, now: seq<Group>, id: string)
    requires ValidGroup(g, earlier) && id !in AllIds(earlier)
    requires GroupIds(now) == GroupIds(earlier) && AllIds(now) <= AllIds(earlier)
    requires CanonicalGaps(gaps) && DistinctIds(gaps) && Ids(gaps) <= Ids(g.gaps) + {id}
    ensures ValidGroup(g.(gaps := gaps), now)
  {
    FineGapsMeans(g.gaps, AllIds(earlier));
    FineGapsMeans(gaps, AllIds(now));
  }

  /** The groups before position `n` hold the same runway groups, and no gap identities beyond the old ones and `id`. */
  lemma EarlierGroups(groups: seq<Group>, out: seq<Group>, k: nat, id: string, n: nat)
    requires OnlyGroup(groups, out, k) && n <= |groups| && Ids(out[k].gaps) <= Ids(groups[k].gaps) + {id}
    ensures GroupIds(out[..n]) == GroupIds(groups[..n]) && AllIds(out[..n]) <= AllIds(groups[..n]) + {id}
    ensures n <= k ==> out[..n] == groups[..n]
  {
    forall x | x in GroupIds(out[..n]) || x in GroupIds(groups[..n])
      ensures x in GroupIds(out[..n]) && x in GroupIds(groups[..n])
    {
      var i :| 0 <= i < n && (out[i].id == x || groups[i].id == x);
      assert out[..n][i] in out[..n] && groups[..n][i] in groups[..n];
    }
    forall x | x in AllIds(out[..n])
      ensures x in AllIds(groups[..n]) + {id}
    {
      var i :| 0 <= i < n && x in Ids(out[i].gaps);
      assert groups[..n][i] in groups[..n];
      assert x in Ids(groups[i].gaps) || x == id;
    }
  }

  lemma MergedGroupIsValid(groups: seq<Group>, out: seq<Group>, k: nat, id: string, n: nat)
    requires ValidGroups(groups) && OnlyGroup(groups, out, k) && n < |groups| && id !in AllIds(groups)
    requires CanonicalGaps(out[k].gaps) && DistinctIds(out[k].gaps) && Ids(out[k].gaps) <= Ids(groups[k].gaps) + {id}
    ensures ValidGroup(out[n], out[..n])
  {
    EarlierGroups(groups, out, k, id, n);
    assert ValidGroup(groups[n], groups[..n]) && groups[n] in groups;
    if n == k {
      assert forall g :: g in groups[..n] ==> g in groups;
      ChangedStaysValid(groups[n], out[n].gaps, groups[..n], out[..n], id);
    } else {
      UnchangedStaysValid(groups[n], groups[..n], out[..n], id);
    }
  }

  /** On valid groups a merge leaves valid groups again, and what it says of the one runway group it changed holds. */
  lemma MergeKeepsGroupsValid(groups: seq<Group>, input: MergeInput, r: MergeResult, k: nat)
    requires ValidGroups(groups) && !IsRefused(groups, input) && IsMerge(groups, input, r, k)
    ensures ValidGroups(r.groups)
    ensures IsMerged(groups[k].gaps, input.AsGap(), r.union, r.groups[k].gaps, r.replaced)
  {
    AcceptedMayMerge(groups, input, k);
    UsesMeans(groups, input.commandId);
    MergedIds(groups[k].gaps, input.AsGap(), r.union, r.groups[k].gaps, r.replaced);
    forall n | 0 <= n < |groups|
      ensures ValidGroup(r.groups[n], r.groups[..n])
    {
      MergedGroupIsValid(groups, r.groups, k, input.commandId, n);
    }
  }

  /** A runway group is known by its identity, so any two merges of it change the same position. */
  lemma SameGroup(groups: seq<Group>, j: nat, k: nat)
    requires ValidGroups(groups) && j < |groups| && k < |groups| && groups[j].id == groups[k].id
    ensures j == k
  {
    forall lo, hi | 0 <= lo < hi < |groups|
      ensures groups[lo].id != groups[hi].id
    {
      assert ValidGroup(groups[hi], groups[..hi]);
      assert groups[..hi][lo] in groups[..hi];
    }
  }

  lemma CoverAfterTwo(groups: seq<Group>, first: MergeInput, second: MergeInput, one: MergeResult, two: MergeResult,
                      k: nat, t: Time)
    requires ValidGroups(groups) && !IsRefused(groups, first) && IsMerge(groups, first, one, k)
    requires !IsRefused(one.groups, second) && IsMerge(one.groups, second, two, k)
    ensures CanonicalGaps(two.groups[k].gaps)
    ensures Covered(two.groups[k].gaps, t) <==>
              Covered(groups[k].gaps, t) || first.AsGap().Covers(t) || second.AsGap().Covers(t)
  {
    MergeKeepsGroupsValid(groups, first, one, k);
    MergeKeepsGroupsValid(one.groups, second, two, k);
  }

  lemma {:induction false} SameIdsCountAlike(a: seq<Group>, b: seq<Group>, id: string)
    requires |a| == |b| && forall i :: 0 <= i < |a| ==> a[i].id == b[i].id
    ensures CountGroups(a, id) == CountGroups(b, id)
  {
    if a != [] {
      SameIdsCountAlike(a[..|a| - 1], b[..|b| - 1], id);
    }
  }

  /** A gap that was acceptable before another one was accepted still is, if the two have different identities. */
  lemma StillAccepted(groups: seq<Group>, first: MergeInput, second: MergeInput, one: MergeResult, k: nat)
    requires ValidGroups(groups) && !IsRefused(groups, first) && IsMerge(groups, first, one, k)
    requires !IsRefused(groups, second) && first.commandId != second.commandId
    ensures !IsRefused(one.groups, second)
  {
    MergeKeepsGroupsValid(groups, first, one, k);
    MergedIds(groups[k].gaps, first.AsGap(), one.union, one.groups[k].gaps, one.replaced);
    SameIdsCountAlike(groups, one.groups, second.groupId);
    EarlierGroups(groups, one.groups, k, first.commandId, |groups|);
    assert one.groups[..|groups|] == one.groups && groups[..|groups|] == groups;
    UsesMeans(groups, second.commandId);
    UsesMeans(one.groups, second.commandId);
  }

  /** If two gaps with different identities are both acceptable for a runway group, then each is still acceptable after
      the other, and whichever is accepted first, the same runway group changes and the same intervals result. */
  lemma MergesCommute(groups: seq<Group>, a: MergeInput, b: MergeInput, thenB: MergeResult, thenA: MergeResult,
                      ab: MergeResult, ba: MergeResult, ka: nat, kb: nat, kab: nat, kba: nat)
    requires ValidGroups(groups) && a.groupId == b.groupId && a.commandId != b.commandId
    requires !IsRefused(groups, a) && IsMerge(groups, a, thenB, ka) && IsMerge(thenB.groups, b, ab, kab)
    requires !IsRefused(groups, b) && IsMerge(groups, b, thenA, kb) && IsMerge(thenA.groups, a, ba, kba)
    ensures !IsRefused(thenB.groups, b) && !IsRefused(thenA.groups, a)
    ensures ka == kb == kab == kba && Bounds(ab.groups[ka].gaps) == Bounds(ba.groups[ka].gaps)
  {
    StillAccepted(groups, a, b, thenB, ka);
    StillAccepted(groups, b, a, thenA, kb);
    assert groups[kab].id == thenB.groups[kab].id && groups[kba].id == thenA.groups[kba].id;
    SameGroup(groups, ka, kb);
    SameGroup(groups, ka, kab);
    SameGroup(groups, ka, kba);
    forall t
      ensures Covered(ab.groups[ka].gaps, t) <==> Covered(ba.groups[ka].gaps, t)
    {
      CoverAfterTwo(groups, a, b, thenB, ab, ka, t);
      CoverAfterTwo(groups, b, a, thenA, ba, ka, t);
    }
    CoverAfterTwo(groups, a, b, thenB, ab, ka, 0);
    CoverAfterTwo(groups, b, a, thenA, ba, ka, 0);
    CoverDeterminesBounds(ab.groups[ka].gaps, ba.groups[ka].gaps);
  }

  // ---- In the fields of the input -----------------------------------------------------------

  /** The merged gap is the input's, with the command's identity and the input's label and authorship. It starts with
      the earliest and ends with the latest of the input and the gaps it replaces, which are those that overlap or touch
      it. */
  lemma UnionIsTheInputs(groups: seq<Group>, input: MergeInput, r: MergeResult, k: nat)
    requires ValidGroups(groups) && !IsRefused(groups, input) && IsMerge(groups, input, r, k)
    ensures r.union.id == input.commandId && r.union.title == input.title
    ensures r.union.createdAt == input.createdAt && r.union.createdBy == input.createdBy
    ensures r.union in r.groups[k].gaps && r.union.start <= input.start < input.end <= r.union.end
    ensures forall g :: g in r.groups[k].gaps && g != r.union ==>
              g in groups[k].gaps && (g.end < input.start || input.end < g.start)
    ensures forall g :: g in groups[k].gaps && (g.end < input.start || input.end < g.start) ==> g in r.groups[k].gaps
  {
    MergeKeepsGroupsValid(groups, input, r, k);
    UnionReaches(groups[k].gaps, input.AsGap(), r.union, r.groups[k].gaps, r.replaced);
  }

  lemma UnionReaches(gaps: seq<Gap>, input: Gap, union: Gap, out: seq<Gap>, replaced: seq<string>)
    requires IsMerged(gaps, input, union, out, replaced) && ValidGap(input)
    ensures union in out && union.start <= input.start < input.end <= union.end
  {
    assert union in out;
    assert Covered(out, input.start) && Covered(out, input.end - 1);
    var a :| 0 <= a < |out| && out[a].Covers(input.start);
    var b :| 0 <= b < |out| && out[b].Covers(input.end - 1);
    assert out[a] in out && out[b] in out;
    assert out[a] == union && out[b] == union;
  }

  lemma {:induction false} SplitHasOnly(gaps: seq<Gap>, start: Time, end: Time, touching: bool)
    ensures forall g :: g in Split(gaps, start, end, touching) <==>
              g in gaps && ((g.start <= end && start <= g.end) == touching)
  {
    if gaps != [] {
      var n := |gaps| - 1;
      SplitHasOnly(gaps[..n], start, end, touching);
      assert gaps == gaps[..n] + [gaps[n]];
    }
  }

  lemma {:induction false} IdListHasAll(gaps: seq<Gap>)
    ensures |IdList(gaps)| == |gaps| && forall i :: 0 <= i < |gaps| ==> IdList(gaps)[i] == gaps[i].id
  {
    if gaps != [] {
      IdListHasAll(gaps[..|gaps| - 1]);
    }
  }

  /** The identities reported as replaced are those of the gaps of the group that overlap or touch the input. */
  lemma ReplacedAreTheTouching(groups: seq<Group>, input: MergeInput, r: MergeResult, k: nat, id: string)
    requires ValidGroups(groups) && !IsRefused(groups, input) && IsMerge(groups, input, r, k)
    ensures id in r.replaced <==>
            exists g :: g in groups[k].gaps && g.id == id && g.start <= input.end && input.start <= g.end
  {
    MergeKeepsGroupsValid(groups, input, r, k);
    var part := Split(groups[k].gaps, input.start, input.end, true);
    SplitHasOnly(groups[k].gaps, input.start, input.end, true);
    IdListHasAll(part);
    if id in r.replaced {
      var i :| 0 <= i < |r.replaced| && r.replaced[i] == id;
      assert part[i] in part;
    }
    if g :| g in groups[k].gaps && g.id == id && g.start <= input.end && input.start <= g.end {
      assert g in part;
      var i :| 0 <= i < |part| && part[i] == g;
      assert r.replaced[i] == id;
    }
  }

  predicate IsName(s: string) {
    s != "" && Trim(s) == s
  }

  /** Refused are inputs with a blank or untrimmed group, command, label or author, without a start, an end or a date,
      or with a start not before the end; commands that some gap is already named by; and groups that are not exactly
      one. */
  lemma RefusedWhen(groups: seq<Group>, input: MergeInput)
    ensures IsRefused(groups, input) <==>
            || !IsName(input.groupId) || !IsName(input.commandId) || !IsName(input.title) || !IsName(input.createdBy)
            || input.start == 0 || input.end == 0 || input.createdAt == 0 || input.start >= input.end
            || (exists g, h :: g in groups && h in g.gaps && h.id == input.commandId)
            || !(exists i :: IsOnlyGroup(groups, input.groupId, i))
  {
    UsesMeans(groups, input.commandId);
    assert input.commandId in AllIds(groups) <==> exists g :: g in groups && input.commandId in Ids(g.gaps);
    OneGroupCounts(groups, input.groupId);
  }

  predicate IsOnlyGroup(groups: seq<Group>, id: string, i: int) {
    0 <= i < |groups| && groups[i].id == id && forall j :: 0 <= j < |groups| && groups[j].id == id ==> j == i
  }

  lemma {:induction false} OneGroupCounts(groups: seq<Group>, id: string)
    ensures CountGroups(groups, id) == 0 <==> forall j :: 0 <= j < |groups| ==> groups[j].id != id
    ensures CountGroups(groups, id) == 1 <==> exists i :: IsOnlyGroup(groups, id, i)
  {
    if groups != [] {
      var n := |groups| - 1;
      var init := groups[..n];
      OneGroupCounts(init, id);
      if groups[n].id == id {
        assert CountGroups(groups, id) == 1 ==> IsOnlyGroup(groups, id, n);
        if i :| IsOnlyGroup(groups, id, i) {
          assert i == n && forall j :: 0 <= j < n ==> init[j].id != id;
        }
      } else {
        if i :| IsOnlyGroup(init, id, i) {
          assert IsOnlyGroup(groups, id, i);
        }
        if i :| IsOnlyGroup(groups, id, i) {
          assert i < n && IsOnlyGroup(init, id, i);
        }
      }
    }
  }
}
