/** Each flight's turn in a pass: the queue before it, the state it meets, its outcome and the queue after it. */
module Turns {
  import opened Text
  import opened Clock
  import opened Config
  import opened Separation
  import opened Search
  import opened Departure
  import opened Strips
  import opened Sorting
  import opened Ordering
  import opened Sequence
  import opened Timetable
  import opened Guarantees

  datatype Turn = Turn(prefix: seq<Candidate>, before: PassState, outcome: Outcome, rest: seq<Candidate>)

  function After(c: Candidate, t: Turn): PassState {
    PassState(t.outcome.held, Record(t.before.writes, c, t.outcome.write))
  }

  /** Draining the queue up to `c` leads from `st` to the state before its turn, and the rest from there to `end`. */
  ghost predicate IsTurn(c: Candidate, t: Turn, queue: seq<Candidate>, st: PassState, all: seq<Candidate>,
                         cfg: AirportConfig, now: Instant, end: PassState)
  {
    && queue == t.prefix + [c] + t.rest
    && Drain(t.prefix, st, all, cfg, now) == Ends(t.before)
    && Settle(c, t.before.held, all, cfg, now) == Ends(t.outcome)
    && Drain(t.rest, After(c, t), all, cfg, now) == Ends(end)
  }

  /** The turn of `c` in the pass over `strips` that ends with `end`. */
  ghost predicate IsTurnOfPass(c: Candidate, t: Turn, strips: seq<Strip>, cfg: AirportConfig, now: Instant,
                               end: PassState)
  {
    var all := Candidates(strips, cfg, now);
    && Prepare(all, cfg, now).Ends?
    && IsTurn(c, t, Prepare(all, cfg, now).value.1, PassState(Prepare(all, cfg, now).value.0, map[]), all, cfg, now,
              end)
  }

  function DataAfter(c: Candidate, write: Option<CdmData>): CdmData {
    if write.Some? then write.value else c.strip.data
  }

  // ---- Nothing is done to a flight after its turn ------------------------------------------

  lemma {:induction false} DrainKeepsWrite(queue: seq<Candidate>, st: PassState, all: seq<Candidate>,
                                           cfg: AirportConfig, now: Instant, end: PassState, k: string)
    requires Drain(queue, st, all, cfg, now) == Ends(end) && forall c :: c in queue ==> c.strip.callsign != k
    ensures (k in end.writes <==> k in st.writes) && (k in st.writes ==> end.writes[k] == st.writes[k])
  {
    if queue != [] {
      var c, rest := queue[0], queue[1..];
      assert c in queue && forall d :: d in rest ==> d in queue;
      var o := NextStep(queue, st, all, cfg, now);
      DrainKeepsWrite(rest, PassState(o.held, Record(st.writes, c, o.write)), all, cfg, now, end, k);
    }
  }

  lemma GoodStep(queue: seq<Candidate>, done: seq<Candidate>, st: PassState, all: seq<Candidate>, cfg: AirportConfig,
                 now: Instant, end: PassState) returns (t: Turn)
    requires queue != [] && Inv(queue, done, st, cfg, now) && Drain(queue, st, all, cfg, now) == Ends(end)
    ensures t.prefix == [] && t.before == st && t.rest == queue[1..]
    ensures Settle(queue[0], st.held, all, cfg, now) == Ends(t.outcome) && IsDue(queue[0], st, cfg, now)
    ensures Drain(queue[1..], After(queue[0], t), all, cfg, now) == Ends(end)
    ensures Inv(queue[1..], done + [queue[0]], After(queue[0], t), cfg, now)
    ensures forall h :: Name(h) != NameOf(queue[0]) ==> (h in st.held <==> h in t.outcome.held)
  {
    var c := queue[0];
    var o := NextStep(queue, st, all, cfg, now);
    assert IsDue(c, st, cfg, now);
    SettleSeats(c, st.held, all, o, cfg, now);
    StepKeepsInv(queue, done, st, o, cfg, now);
    t := Turn([], st, o, queue[1..]);
  }

  lemma {:induction false} DrainLeavesName(queue: seq<Candidate>, done: seq<Candidate>, st: PassState,
                                           all: seq<Candidate>, cfg: AirportConfig, now: Instant, end: PassState,
                                           name: string)
    requires Inv(queue, done, st, cfg, now) && Drain(queue, st, all, cfg, now) == Ends(end)
    requires forall c :: c in queue ==> NameOf(c) != name
    ensures forall h :: Name(h) == name ==> (h in st.held <==> h in end.held)
  {
    if queue != [] {
      var c := queue[0];
      assert c in queue && forall d :: d in queue[1..] ==> d in queue;
      var t := GoodStep(queue, done, st, all, cfg, now, end);
      DrainLeavesName(queue[1..], done + [c], After(c, t), all, cfg, now, end, name);
    }
  }

  lemma RestIsOthers(queue: seq<Candidate>, done: seq<Candidate>)
    requires queue != [] && DistinctNames(done + queue)
    ensures forall e :: e in queue[1..] ==> NameOf(e) != NameOf(queue[0]) && e.strip.callsign != queue[0].strip.callsign
  {
    PartsAreDistinct(done, queue);
    forall e | e in queue[1..]
      ensures NameOf(e) != NameOf(queue[0])
    {
      var i :| 1 <= i < |queue| && queue[i] == e;
    }
  }

  lemma FirstIsTurn(c: Candidate, t: Turn, queue: seq<Candidate>, st: PassState, all: seq<Candidate>,
                    cfg: AirportConfig, now: Instant, end: PassState)
    requires queue != [] && c == queue[0] && t.prefix == [] && t.before == st && t.rest == queue[1..]
    requires Settle(c, st.held, all, cfg, now) == Ends(t.outcome)
             && Drain(t.rest, After(c, t), all, cfg, now) == Ends(end)
    ensures IsTurn(c, t, queue, st, all, cfg, now, end)
  {
    assert queue == [] + [c] + queue[1..];
  }

  /** What the pass publishes for a flight, and the flight's entry in the final list, are those of its turn. */
  lemma TurnIsFinal(queue: seq<Candidate>, done: seq<Candidate>, st: PassState, all: seq<Candidate>, cfg: AirportConfig,
                    now: Instant, end: PassState, t: Turn)
    requires queue != [] && DistinctNames(done + queue)
             && Inv(queue[1..], done + [queue[0]], After(queue[0], t), cfg, now)
    requires queue[0].strip.callsign !in t.before.writes
    requires Drain(queue[1..], After(queue[0], t), all, cfg, now) == Ends(end)
    ensures Published(queue[0], end.writes) == DataAfter(queue[0], t.outcome.write)
    ensures forall h :: Name(h) == NameOf(queue[0]) ==> (h in t.outcome.held <==> h in end.held)
  {
    var c, rest := queue[0], queue[1..];
    RestIsOthers(queue, done);
    DrainKeepsWrite(rest, After(c, t), all, cfg, now, end, c.strip.callsign);
    DrainLeavesName(rest, done + [c], After(c, t), all, cfg, now, end, NameOf(c));
  }

  // ---- Every queued flight has its turn -------------------------------------------------------

  lemma DrainFrom(c: Candidate, rest: seq<Candidate>, st: PassState, all: seq<Candidate>, cfg: AirportConfig,
                  now: Instant, o: Outcome)
    requires Settle(c, st.held, all, cfg, now) == Ends(o)
    ensures Drain([c] + rest, st, all, cfg, now)
            == Drain(rest, PassState(o.held, Record(st.writes, c, o.write)), all, cfg, now)
  {
    assert ([c] + rest)[1..] == rest;
  }

  lemma Prepend(d: Candidate, prefix: seq<Candidate>, c: Candidate, rest: seq<Candidate>)
    ensures [d] + (prefix + [c] + rest) == ([d] + prefix) + [c] + rest
  {
  }

  lemma LaterTurn(c: Candidate, d: Candidate, t: Turn, queue: seq<Candidate>, st: PassState, all: seq<Candidate>,
                  cfg: AirportConfig, now: Instant, end: PassState, o: Outcome) returns (u: Turn)
    requires queue != [] && queue[0] == d && Settle(d, st.held, all, cfg, now) == Ends(o)
    requires IsTurn(c, t, queue[1..], PassState(o.held, Record(st.writes, d, o.write)), all, cfg, now, end)
    ensures IsTurn(c, u, queue, st, all, cfg, now, end)
    ensures u.before == t.before && u.outcome == t.outcome
  {
    u := Turn([d] + t.prefix, t.before, t.outcome, t.rest);
    DrainFrom(d, t.prefix, st, all, cfg, now, o);
    Prepend(d, t.prefix, c, t.rest);
    assert queue == [d] + queue[1..];
  }

  lemma {:induction false} TurnOf(queue: seq<Candidate>, done: seq<Candidate>, st: PassState, all: seq<Candidate>,
                                  cfg: AirportConfig, now: Instant, end: PassState, c: Candidate) returns (t: Turn)
    requires Inv(queue, done, st, cfg, now) && Drain(queue, st, all, cfg, now) == Ends(end) && c in queue
    ensures IsTurn(c, t, queue, st, all, cfg, now, end) && IsDue(c, t.before, cfg, now)
    ensures Clear(t.before.held, cfg) && Unique(t.before.held)
    ensures Published(c, end.writes) == DataAfter(c, t.outcome.write)
    ensures forall h :: Name(h) == NameOf(c) ==> (h in t.outcome.held <==> h in end.held)
  {
    var d := queue[0];
    t := GoodStep(queue, done, st, all, cfg, now, end);
    if c == d {
      FirstIsTurn(c, t, queue, st, all, cfg, now, end);
      TurnIsFinal(queue, done, st, all, cfg, now, end, t);
    } else {
      assert c in queue[1..] by { assert queue == [d] + queue[1..]; }
      var o := t.outcome;
      t := TurnOf(queue[1..], done + [d], After(d, t), all, cfg, now, end, c);
      t := LaterTurn(c, d, t, queue, st, all, cfg, now, end, o);
    }
  }

  /** Every queued flight of a pass has its turn in it, and the turn decides its record and its entry. */
  lemma TurnOfPass(strips: seq<Strip>, cfg: AirportConfig, now: Instant, end: PassState, c: Candidate) returns (t: Turn)
    requires DistinctCallsigns(strips) && Pass(strips, cfg, now) == Ends(end)
    requires c in Prepare(Candidates(strips, cfg, now), cfg, now).value.1
    ensures IsTurnOfPass(c, t, strips, cfg, now, end) && IsDue(c, t.before, cfg, now)
    ensures Clear(t.before.held, cfg) && Unique(t.before.held)
    ensures Published(c, end.writes) == DataAfter(c, t.outcome.write)
    ensures forall h :: Name(h) == NameOf(c) ==> (h in t.outcome.held <==> h in end.held)
  {
    var all := Candidates(strips, cfg, now);
    CandidatesOf(strips, cfg, now);
    CandidatesAreDistinct(strips, cfg, now);
    var kept := StartIsOrderly(all, cfg, now);
    var (held, queue) := Prepare(all, cfg, now).value;
    t := TurnOf(queue, kept, PassState(held, map[]), all, cfg, now, end, c);
  }
}
