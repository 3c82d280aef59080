/** Compaction of a calculation trace into reason markers: backend/internal/cdm/markers.go. */
module Markers {
  import opened Text
  import opened Clock
  import opened Config
  import opened Separation
  import opened Search
  import opened Departure

  function Family(kind: Kind): Kind {
    if kind == RunwaySlotCollision || kind == RunwayRateWindow then RunwaySpacing else kind
  }

  function NormalizeKind(e: TraceEntry): TraceEntry {
    e.(kind := Family(e.kind))
  }

  predicate ShouldSkip(e: TraceEntry) {
    e.from != Absent && e.to != Absent && e.from == e.to
  }

  predicate ShouldMerge(previous: TraceEntry, current: TraceEntry) {
    && Token(previous.callsign) == Token(current.callsign)
    && Family(previous.kind) == Family(current.kind)
    && (if Family(previous.kind) == RunwaySpacing then Token(previous.runway) == Token(current.runway)
        else previous.kind == current.kind)
  }

  function Merge(previous: TraceEntry, current: TraceEntry): TraceEntry {
    TraceEntry(Family(current.kind),
               if previous.callsign == "" then current.callsign else previous.callsign,
               if previous.ttot == Absent then current.ttot else previous.ttot,
               if previous.runway == "" then current.runway else previous.runway,
               if previous.sid == "" then current.sid else previous.sid,
               if current.spacing > previous.spacing then current.spacing else previous.spacing,
               if previous.from == Absent then current.from else previous.from,
               if current.to != Absent then current.to else previous.to)
  }

  function Add(compacted: seq<TraceEntry>, e: TraceEntry): seq<TraceEntry> {
    var n := |compacted|;
    if ShouldSkip(e) then compacted
    else if n > 0 && ShouldMerge(compacted[n - 1], e) then compacted[n - 1 := Merge(compacted[n - 1], e)]
    else compacted + [NormalizeKind(e)]
  }

  function Compact(trace: seq<TraceEntry>): seq<TraceEntry> {
    if trace == [] then [] else Add(Compact(trace[..|trace| - 1]), trace[|trace| - 1])
  }

  method CompactCalculationTrace(trace: seq<TraceEntry>) returns (compacted: seq<TraceEntry>)
    ensures compacted == Compact(trace)
  {
    compacted := [];
    for i := 0 to |trace|
      invariant compacted == Compact(trace[..i])
    {
      var entry := trace[i];
      assert trace[..i + 1][..i] == trace[..i];
      if ShouldSkip(entry) {
        continue;
      }
      var n := |compacted|;
      if n > 0 && ShouldMerge(compacted[n - 1], entry) {
        compacted := compacted[n - 1 := Merge(compacted[n - 1], entry)];
        continue;
      }
      compacted := compacted + [NormalizeKind(entry)];
    }
    assert trace[..|trace|] == trace;
  }

  // ---- What a compacted trace says --------------------------------------------------

  function MaxSpacing(run: seq<TraceEntry>): real
    requires run != []
  {
    var n := |run| - 1;
    if n == 0 then run[0].spacing
    else
      var m := MaxSpacing(run[..n]);
      if run[n].spacing > m then run[n].spacing else m
  }

  /** What decides whether two entries belong together. */
  function Key(e: TraceEntry): (string, Kind, string) {
    (Token(e.callsign), Family(e.kind), if Family(e.kind) == RunwaySpacing then Token(e.runway) else "")
  }

  lemma MergingIsByKey(a: TraceEntry, b: TraceEntry)
    ensures ShouldMerge(a, b) <==> Key(a) == Key(b)
    ensures Key(NormalizeKind(b)) == Key(b)
    ensures Key(a) == Key(b) ==> Key(Merge(a, b)) == Key(a)
  {
  }

  /** Bumps against one flight are taken together if they are of one kind; bumps by its time or by the rate count as
      one, for one runway. */
  lemma TakenTogetherWhen(a: TraceEntry, b: TraceEntry)
    ensures var spacing := {RunwaySlotCollision, RunwayRateWindow, RunwaySpacing};
            ShouldMerge(a, b) <==>
            && Upper(Trim(a.callsign)) == Upper(Trim(b.callsign))
            && (if a.kind in spacing then b.kind in spacing && Upper(Trim(a.runway)) == Upper(Trim(b.runway))
                else a.kind == b.kind)
  {
    TokenIsUpperTrim(a.callsign);
    TokenIsUpperTrim(b.callsign);
    TokenIsUpperTrim(a.runway);
    TokenIsUpperTrim(b.runway);
  }

  /** `e` stands for a run of consecutive half-minute bumps of one kind against one flight, and names what the first of
      them names. */
  ghost predicate Summarises(e: TraceEntry, run: seq<TraceEntry>) {
    && run != []
    && (forall x :: x in run ==> Key(x) == Key(e))
    && e.kind == Family(e.kind)
    && e.from.At? && e.from == run[0].from
    && e.to == run[|run| - 1].to && e.to == Shift(e.from, STEP * |run|)
    && e.spacing == MaxSpacing(run)
    && (run[0].callsign != "" ==> e.callsign == run[0].callsign)
    && (run[0].ttot != Absent ==> e.ttot == run[0].ttot)
    && (run[0].runway != "" ==> e.runway == run[0].runway) && (run[0].sid != "" ==> e.sid == run[0].sid)
  }

  function Flatten(runs: seq<seq<TraceEntry>>): seq<TraceEntry> {
    if runs == [] then [] else Flatten(runs[..|runs| - 1]) + runs[|runs| - 1]
  }

  /** Each entry of a search trace moves the time one step and the next entry takes over from there. */
  ghost predicate Steps(trace: seq<TraceEntry>) {
    && (forall e :: e in trace ==> e.from.At? && e.to == Shift(e.from, STEP))
    && Linked(trace)
  }

  ghost predicate Linked(trace: seq<TraceEntry>) {
    forall i, j :: 0 <= i && j == i + 1 && j < |trace| ==> trace[i].to == trace[j].from
  }

  ghost predicate NoMergeableNeighbours(out: seq<TraceEntry>) {
    forall i, j :: 0 <= i && j == i + 1 && j < |out| ==> Key(out[i]) != Key(out[j])
  }

  ghost predicate Partitions(runs: seq<seq<TraceEntry>>, out: seq<TraceEntry>, trace: seq<TraceEntry>) {
    && |runs| == |out| && Flatten(runs) == trace
    && (forall i :: 0 <= i < |out| ==> Summarises(out[i], runs[i]) && |runs[i]| <= |trace|)
  }

  /** The compacted trace runs from the first From-time to the last To-time without a break. */
  ghost predicate SameJourney(out: seq<TraceEntry>, trace: seq<TraceEntry>) {
    && Linked(out)
    && (trace == [] <==> out == [])
    && (out != [] ==> out[0].from == trace[0].from && out[|out| - 1].to == trace[|trace| - 1].to)
  }

  lemma StepMoves(t: Clock, n: nat)
    requires t.At? && 0 < n < GRID
    ensures Shift(t, STEP * n) != t
  {
    BetweenIsTheShortWay(t.sec, t.sec, 0);
    ShiftIsModular(t.sec, STEP * n);
  }

  lemma MergeKeepsTheRun(e: TraceEntry, x: TraceEntry, run: seq<TraceEntry>)
    requires Summarises(e, run) && Key(e) == Key(x)
    requires x.from == e.to && x.to == Shift(x.from, STEP)
    ensures Summarises(Merge(e, x), run + [x])
  {
    var longer := run + [x];
    assert longer[..|run|] == run;
    MergingIsByKey(e, x);
    ShiftsCompose(e.from, STEP * |run|, STEP);
    assert STEP * |run| + STEP == STEP * |longer|;
  }

  lemma AddByKey(out: seq<TraceEntry>, x: TraceEntry)
    requires !ShouldSkip(x)
    ensures var n := |out|;
            Add(out, x) == if n > 0 && Key(out[n - 1]) == Key(x) then out[n - 1 := Merge(out[n - 1], x)]
                           else out + [NormalizeKind(x)]
  {
    if out != [] {
      MergingIsByKey(out[|out| - 1], x);
    }
  }

  ghost predicate Settled(runs: seq<seq<TraceEntry>>, out: seq<TraceEntry>, trace: seq<TraceEntry>) {
    Partitions(runs, out, trace) && NoMergeableNeighbours(out) && SameJourney(out, trace)
  }

  lemma LongerRunPartitions(runs: seq<seq<TraceEntry>>, out: seq<TraceEntry>, trace: seq<TraceEntry>, x: TraceEntry)
    requires Partitions(runs, out, trace) && out != [] && Key(out[|out| - 1]) == Key(x)
    requires x.from == out[|out| - 1].to && x.to == Shift(x.from, STEP)
    ensures var m := |out| - 1;
            Partitions(runs[m := runs[m] + [x]], out[m := Merge(out[m], x)], trace + [x])
  {
    var m := |out| - 1;
    var more := runs[m := runs[m] + [x]];
    assert Summarises(out[m], runs[m]);
    MergeKeepsTheRun(out[m], x, runs[m]);
    assert more[..m] == runs[..m];
    assert |trace| == |Flatten(runs[..m])| + |runs[m]|;
  }

  lemma ExtendsLastRun(runs: seq<seq<TraceEntry>>, out: seq<TraceEntry>, trace: seq<TraceEntry>, x: TraceEntry)
    requires Settled(runs, out, trace) && out != [] && Key(out[|out| - 1]) == Key(x)
    requires x.to == Shift(x.from, STEP) && trace[|trace| - 1].to == x.from
    ensures var m := |out| - 1;
            Settled(runs[m := runs[m] + [x]], out[m := Merge(out[m], x)], trace + [x])
  {
    LongerRunPartitions(runs, out, trace, x);
    MergingIsByKey(out[|out| - 1], x);
  }

  lemma OpensNewRun(runs: seq<seq<TraceEntry>>, out: seq<TraceEntry>, trace: seq<TraceEntry>, x: TraceEntry)
    requires Settled(runs, out, trace) && (out != [] ==> Key(out[|out| - 1]) != Key(x))
    requires x.from.At? && x.to == Shift(x.from, STEP) && (trace != [] ==> trace[|trace| - 1].to == x.from)
    ensures Settled(runs + [[x]], out + [NormalizeKind(x)], trace + [x])
  {
    var more, e := runs + [[x]], NormalizeKind(x);
    MergingIsByKey(x, x);
    assert more[..|runs|] == runs;
    assert Summarises(e, [x]);
  }

  /** Compacting a search trace cuts it into consecutive runs; each output entry summarises one run, with
      the largest spacing of the run; no two neighbours could still be merged; the journey is the same. */
  lemma {:induction false} CompactPartitions(trace: seq<TraceEntry>) returns (runs: seq<seq<TraceEntry>>)
    requires Steps(trace)
    ensures Partitions(runs, Compact(trace), trace)
    ensures NoMergeableNeighbours(Compact(trace)) && SameJourney(Compact(trace), trace)
  {
    if trace == [] {
      runs := [];
    } else {
      var n := |trace| - 1;
      var head, x := trace[..n], trace[n];
      assert x in trace && trace == head + [x];
      assert Steps(head);
      var before := CompactPartitions(head);
      var out := Compact(head);
      StepMoves(x.from, 1);
      AddByKey(out, x);
      if out != [] && Key(out[|out| - 1]) == Key(x) {
        ExtendsLastRun(before, out, head, x);
        runs := before[|out| - 1 := before[|out| - 1] + [x]];
      } else {
        OpensNewRun(before, out, head, x);
        runs := before + [[x]];
      }
    }
  }

  lemma {:induction false} BumpTimes(t: Second, who: Profile, slots: seq<SlotEntry>, cfg: AirportConfig)
    requires BumpAt(t, who, slots, cfg).Some?
    ensures BumpAt(t, who, slots, cfg).value.from == At(t)
    ensures BumpAt(t, who, slots, cfg).value.to == Shift(At(t), STEP)
  {
    if Judge(t, who, slots[0], cfg).Free? {
      BumpTimes(t, who, slots[1..], cfg);
    }
  }

  lemma NextEntry(start: Second, j: nat, who: Profile, slots: seq<SlotEntry>, cfg: AirportConfig)
    returns (e: TraceEntry)
    requires Blocked(Point(start, j), who, slots, cfg)
    ensures TraceTo(start, j + 1, who, slots, cfg) == TraceTo(start, j, who, slots, cfg) + [e]
    ensures e.from == At(Point(start, j)) && e.to == Shift(e.from, STEP) && e.to == At(Point(start, j + 1))
  {
    BumpTimes(Point(start, j), who, slots, cfg);
    NextPoint(start, j);
    e := BumpAt(Point(start, j), who, slots, cfg).value;
  }

  lemma StepsGrow(t: seq<TraceEntry>, e: TraceEntry)
    requires Steps(t) && e.from.At? && e.to == Shift(e.from, STEP) && (t != [] ==> t[|t| - 1].to == e.from)
    ensures Steps(t + [e])
  {
  }

  lemma {:induction false} SearchTraceSteps(start: Second, k: nat, who: Profile, slots: seq<SlotEntry>,
                                            cfg: AirportConfig)
    requires forall j: nat {:trigger Point(start, j)} :: j < k ==> Blocked(Point(start, j), who, slots, cfg)
    ensures var t := TraceTo(start, k, who, slots, cfg);
            && |t| == k && Steps(t)
            && (k > 0 ==> t[0].from == At(Point(start, 0)) && t[k - 1].to == At(Point(start, k)))
  {
    if k > 0 {
      SearchTraceSteps(start, k - 1, who, slots, cfg);
      assert Blocked(Point(start, k - 1), who, slots, cfg);
      var e := NextEntry(start, k - 1, who, slots, cfg);
      StepsGrow(TraceTo(start, k - 1, who, slots, cfg), e);
    }
  }

  lemma CompactedSteps(t: seq<TraceEntry>)
    requires Steps(t) && |t| < GRID
    ensures NoMergeableNeighbours(Compact(t)) && SameJourney(Compact(t), t) && Compact(Compact(t)) == Compact(t)
  {
    var runs := CompactPartitions(t);
    CompactIsSettled(t, runs);
  }

  /** The compacted trace of every search is an unbroken journey from the natural TTOT to the TTOT the
      search rests on, no two neighbours of it are mergeable, and compacting it again changes nothing. */
  lemma CompactedSearch(start: Second, who: Profile, slots: seq<SlotEntry>, cfg: AirportConfig)
    requires Bumps(start, who, slots, cfg).Some?
    ensures var k := Bumps(start, who, slots, cfg).value;
            var out := Compact(TraceTo(start, k, who, slots, cfg));
            && NoMergeableNeighbours(out) && Linked(out) && Compact(out) == out
            && (k == 0 <==> out == [])
            && (k > 0 ==> out[0].from == At(Point(start, 0)) && out[|out| - 1].to == At(Point(start, k)))
  {
    var k := Bumps(start, who, slots, cfg).value;
    RestsOnTheFirstFreePoint(start, who, slots, cfg);
    SearchTraceSteps(start, k, who, slots, cfg);
    CompactedSteps(TraceTo(start, k, who, slots, cfg));
  }

  lemma CompactIsSettled(t: seq<TraceEntry>, runs: seq<seq<TraceEntry>>)
    requires |t| < GRID && Partitions(runs, Compact(t), t) && NoMergeableNeighbours(Compact(t))
    ensures Compact(Compact(t)) == Compact(t)
  {
    var out := Compact(t);
    forall i | 0 <= i < |out|
      ensures out[i].from != out[i].to && out[i].kind == Family(out[i].kind)
    {
      assert Summarises(out[i], runs[i]);
      StepMoves(out[i].from, |runs[i]|);
    }
    CompactedIsFixed(out);
  }

  lemma {:induction false} CompactedIsFixed(out: seq<TraceEntry>)
    requires NoMergeableNeighbours(out)
    requires forall i :: 0 <= i < |out| ==> out[i].from != out[i].to && out[i].kind == Family(out[i].kind)
    ensures Compact(out) == out
  {
    if out != [] {
      var n := |out| - 1;
      var head := out[..n];
      CompactedIsFixed(head);
      assert out == head + [out[n]];
      OneMoreStays(head, out[n]);
    }
  }

  lemma OneMoreStays(head: seq<TraceEntry>, x: TraceEntry)
    requires x.from != x.to && x.kind == Family(x.kind)
    requires head != [] ==> !ShouldMerge(head[|head| - 1], x)
    ensures Add(head, x) == head + [x]
  {
  }

  /** What is left out of a trace: entries between two known times that are the same. */
  lemma LeftOut(e: TraceEntry)
    ensures Compact([e]) == if e.from == e.to && e.from != Absent then [] else [NormalizeKind(e)]
  {
    assert [e][..0] == [];
  }

  /** On other traces it can: two bumps that cancel merge into one that the next compaction drops. */
  lemma CompactIsNotIdempotentInGeneral()
    ensures var e := TraceEntry(WakeSeparation, "A", Absent, "", "", 0.0, At(0), At(30));
            var t := [e, e.(from := At(30), to := At(0))];
            Compact(t) != [] && Compact(Compact(t)) == []
  {
    var e := TraceEntry(WakeSeparation, "A", Absent, "", "", 0.0, At(0), At(30));
    var t := [e, e.(from := At(30), to := At(0))];
    assert t[..1] == [e] && [e][..0] == [];
    assert Compact([e]) == [e];
    assert Compact(t) == [e.(to := At(0))];
    assert [e.(to := At(0))][..0] == [];
  }
}
