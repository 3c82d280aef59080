/** The sequencing order: `compareSequencingCandidates` and the two stable sorts of
    backend/internal/cdm/sequence.go. */
module Ordering {
  import opened Text
  import opened Clock
  import opened Config
  import opened Separation
  import opened Strips
  import opened Sorting

  function Sign(a: int, b: int): int {
    if a < b then -1 else if a > b then 1 else 0
  }

  function CompareClock(a: Clock, b: Clock, now: Instant): int {
    Sign(ClockRank(a, ClockOf(now)), ClockRank(b, ClockOf(now)))
  }

  function CompareText(a: string, b: string): int {
    if a == [] && b == [] then 0
    else if a == [] then -1
    else if b == [] then 1
    else if a[0] < b[0] then -1
    else if a[0] > b[0] then 1
    else CompareText(a[1..], b[1..])
  }

  /** The preserved sort passes `preserve`: then started flights come first and current slots decide before natural
      times. */
  function Compare(l: Candidate, r: Candidate, now: Instant, preserve: bool): int {
    if preserve && l.started != r.started then (if l.started then -1 else 1)
    else if l.hasCtot != r.hasCtot then (if l.hasCtot then -1 else 1)
    else if l.input.tobtAuthoritative != r.input.tobtAuthoritative then (if l.input.tobtAuthoritative then -1 else 1)
    else if preserve && CompareClock(SlotTime(l), SlotTime(r), now) != 0 then
      CompareClock(SlotTime(l), SlotTime(r), now)
    else if l.staleBase != r.staleBase then (if l.staleBase then 1 else -1)
    else if CompareClock(l.natural, r.natural, now) != 0 then CompareClock(l.natural, r.natural, now)
    else if CompareClock(l.base, r.base, now) != 0 then CompareClock(l.base, r.base, now)
    else CompareText(Trim(l.strip.callsign), Trim(r.strip.callsign))
  }

  function SlotTime(c: Candidate): Clock {
    if c.slot.Some? then c.slot.value.ttot else Absent
  }

  datatype Order = PreservedOrder | QueueOrder

  predicate Before(o: Order, l: Candidate, r: Candidate, now: Instant) {
    match o
    case PreservedOrder => Compare(l, r, now, true) < 0
    case QueueOrder =>
      if l.improvement && r.improvement && l.slot.Some? && r.slot.Some?
         && CompareClock(SlotTime(l), SlotTime(r), now) != 0
      then CompareClock(SlotTime(l), SlotTime(r), now) < 0
      else Compare(l, r, now, false) < 0
  }

  function By(o: Order, now: Instant): (Candidate, Candidate) -> bool {
    (l, r) => Before(o, l, r, now)
  }

  // ---- The comparison is a total order ---------------------------------------------------

  lemma {:induction false} TextIsOrdered(a: string, b: string)
    ensures CompareText(a, b) == -CompareText(b, a)
    ensures CompareText(a, b) == 0 <==> a == b
  {
    if a != [] && b != [] {
      TextIsOrdered(a[1..], b[1..]);
      assert a == [a[0]] + a[1..] && b == [b[0]] + b[1..];
    }
  }

  lemma {:induction false} TextIsTransitive(a: string, b: string, c: string)
    requires CompareText(a, b) <= 0 && CompareText(b, c) <= 0
    ensures CompareText(a, c) <= 0
    ensures CompareText(a, b) < 0 || CompareText(b, c) < 0 ==> CompareText(a, c) < 0
  {
    if a != [] && b != [] && c != [] && a[0] == b[0] == c[0] {
      TextIsTransitive(a[1..], b[1..], c[1..]);
    }
  }

  /** For a fixed anchor, comparing candidates is antisymmetric and separates different callsigns. */
  lemma CompareIsAntisymmetric(a: Candidate, b: Candidate, now: Instant, preserve: bool)
    ensures Compare(a, b, now, preserve) == -Compare(b, a, now, preserve)
    ensures Compare(a, b, now, preserve) == 0 ==> Trim(a.strip.callsign) == Trim(b.strip.callsign)
  {
    TextIsOrdered(Trim(a.strip.callsign), Trim(b.strip.callsign));
  }

  lemma CompareIsTransitive(a: Candidate, b: Candidate, c: Candidate, now: Instant, preserve: bool)
    requires Compare(a, b, now, preserve) < 0 && Compare(b, c, now, preserve) < 0
    ensures Compare(a, c, now, preserve) < 0
  {
    var x, y, z := Trim(a.strip.callsign), Trim(b.strip.callsign), Trim(c.strip.callsign);
    if CompareText(x, y) <= 0 && CompareText(y, z) <= 0 {
      TextIsTransitive(x, y, z);
    }
  }

  /** The order in which no improve-only flights take part. */
  ghost predicate PlainQueue(s: seq<Candidate>) {
    forall c :: c in s ==> !c.improvement
  }

  ghost predicate TrimmedDistinct(s: seq<Candidate>) {
    && NoRepeats(s)
    && (forall a, b :: a in s && b in s && Trim(a.strip.callsign) == Trim(b.strip.callsign) ==> a == b)
  }

  lemma BeforeIsStrict(o: Order, a: Candidate, b: Candidate, now: Instant)
    requires o == QueueOrder ==> !a.improvement && !b.improvement
    ensures !(Before(o, a, b, now) && Before(o, b, a, now))
    ensures Trim(a.strip.callsign) != Trim(b.strip.callsign) ==> Before(o, a, b, now) || Before(o, b, a, now)
  {
    CompareIsAntisymmetric(a, b, now, o == PreservedOrder);
  }

  lemma BeforeIsTransitive(o: Order, a: Candidate, b: Candidate, c: Candidate, now: Instant)
    requires o == QueueOrder ==> !a.improvement && !b.improvement && !c.improvement
    requires Before(o, a, b, now) && Before(o, b, c, now)
    ensures Before(o, a, c, now)
  {
    CompareIsTransitive(a, b, c, now, o == PreservedOrder);
  }

  /** For a fixed anchor both sorts order distinct callsigns linearly, unless improve-only flights queue. */
  lemma BothOrdersAreLinear(o: Order, s: seq<Candidate>, now: Instant)
    requires TrimmedDistinct(s) && (o == QueueOrder ==> PlainQueue(s))
    ensures Linear(By(o, now), Elements(s))
  {
    var lt := By(o, now);
    forall a, b | a in s && b in s
      ensures !(lt(a, b) && lt(b, a)) && (a != b ==> lt(a, b) || lt(b, a))
    {
      BeforeIsStrict(o, a, b, now);
    }
    forall a, b, c | a in s && b in s && c in s && lt(a, b) && lt(b, c)
      ensures lt(a, c)
    {
      BeforeIsTransitive(o, a, b, c, now);
    }
  }
}
