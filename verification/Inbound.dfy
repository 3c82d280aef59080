/** Watching inbound flights for departures off their slot: `apply` and `assessInboundDeparture` of
    backend/internal/cdm/inbound_departures.go. */
module Inbound {
  import opened Text
  import opened Clock
  import opened Config
  import opened Sorting
  import Ordering

  const HISTORY := 86_400_000_000_000

  datatype Row = Row(callsign: string, departure: string, arrival: string, cid: string, ctot: string, atot: string,
                     rest: string)

  /** A flight as the monitor tells flights apart; a flight with another take-off time is another flight. */
  datatype FlightKey = FlightKey(callsign: string, departure: string, cid: string, atot: Option<Second>)

  function KeyOf(row: Row): FlightKey {
    FlightKey(Token(row.callsign), Token(row.departure), Trim(row.cid), ParseClock(row.atot))
  }

  datatype Sighting = Sighting(row: Row, observedAt: int)

  datatype Status = Pending | Compliant | Early | Late

  /** What is shown for a flight: the slot it is assessed against, and the deviation from it. */
  datatype Report = Report(key: FlightKey, row: Row, status: Status, deviation: int, outside: int)

  // ---- Assessing one departure --------------------------------------------------------

  /** Take-off minus slot, on the nearest day. */
  function Deviation(ctot: Second, atot: Second): (d: int)
    ensures -HALF_DAY <= d <= HALF_DAY && (atot - ctot - d) % DAY == 0
  {
    var d := atot - ctot;
    var e := if d > HALF_DAY then d - DAY else d;
    if e < -HALF_DAY then e + DAY else e
  }

  function Assess(key: FlightKey, row: Row): (r: Option<Report>)
    ensures r.Some? <==> ParseClock(row.ctot).Some? && ParseClock(row.atot).Some?
  {
    var ctot, atot := ParseClock(row.ctot), ParseClock(row.atot);
    if ctot.None? || atot.None? then None
    else
      var d := Deviation(ctot.value, atot.value);
      Some(if d > 600 then Report(key, row, Late, d, d - 600)
           else if d < -300 then Report(key, row, Early, d, -300 - d)
           else Report(key, row, Compliant, d, 0))
  }

  /** Outside the window by exactly the time that would bring the take-off back into it. */
  lemma OutsideMeasuresTheWindow(key: FlightKey, row: Row)
    requires Assess(key, row).Some?
    ensures var r := Assess(key, row).value;
            && r.outside >= 0
            && (r.status.Compliant? <==> -300 <= r.deviation <= 600)
            && (r.status.Early? ==> r.deviation + r.outside == -300 && r.outside > 0)
            && (r.status.Late? ==> r.deviation - r.outside == 600 && r.outside > 0)
  {
  }

  predicate IsFlagged(r: Report) {
    r.status.Early? && r.deviation < -600
  }

  // ---- One poll -------------------------------------------------------------------------

  predicate IsRelevant(row: Row, airport: string) {
    Trim(row.callsign) != "" && FoldEq(Trim(row.arrival), airport)
  }

  /** Slot history is kept for a day. */
  function Recent(departed: map<FlightKey, Sighting>, now: int): map<FlightKey, Sighting> {
    map k | k in departed && now - departed[k].observedAt < HISTORY :: departed[k]
  }

  /** The first relevant row of a flight. */
  function FirstRow(rows: seq<Row>, airport: string, k: FlightKey): Option<Row> {
    if rows == [] then None
    else
      var n := |rows| - 1;
      var earlier := FirstRow(rows[..n], airport, k);
      if earlier.Some? then earlier
      else if IsRelevant(rows[n], airport) && KeyOf(rows[n]) == k then Some(rows[n]) else None
  }

  /** The row as it is assessed: a departed flight with the slot of its first departed sighting. */
  function Frozen(row: Row, history: map<FlightKey, Sighting>): Row {
    var k := KeyOf(row);
    if k.atot.Some? && k in history then row.(ctot := history[k].row.ctot) else row
  }

  function ReportFor(row: Row, history: map<FlightKey, Sighting>): Option<Report> {
    var k := KeyOf(row);
    if k.atot.None? then (if ParseClock(row.ctot).Some? then Some(Report(k, row, Pending, 0, 0)) else None)
    else Assess(k, Frozen(row, history))
  }

  /** What a poll has worked out so far. */
  datatype Scan = Scan(seen: set<FlightKey>, departed: map<FlightKey, Sighting>, flagged: seq<Report>,
                       listed: seq<Report>)

  function ScanRow(s: Scan, row: Row, airport: string, now: int): Scan {
    var k := KeyOf(row);
    if !IsRelevant(row, airport) || k in s.seen then s
    else
      var t := s.(seen := s.seen + {k},
                  departed := if k.atot.Some? && k !in s.departed then s.departed[k := Sighting(row, now)]
                              else s.departed);
      match ReportFor(row, s.departed)
      case None => t
      case Some(r) => t.(listed := t.listed + [r], flagged := if IsFlagged(r) then t.flagged + [r] else t.flagged)
  }

  function ScanRows(s: Scan, rows: seq<Row>, airport: string, now: int): Scan {
    if rows == [] then s else ScanRow(ScanRows(s, rows[..|rows| - 1], airport, now), rows[|rows| - 1], airport, now)
  }

  predicate ByCallsign(a: Report, b: Report) {
    Ordering.CompareText(a.key.callsign, b.key.callsign) < 0
  }

  predicate BySlot(a: Report, b: Report) {
    var slots := Ordering.CompareText(Trim(a.row.ctot), Trim(b.row.ctot));
    if slots != 0 then slots < 0 else ByCallsign(a, b)
  }

  datatype Monitor = Monitor(airport: string, departed: map<FlightKey, Sighting>, stale: bool, flagged: seq<Report>,
                             listed: seq<Report>, updatedAt: Option<int>)

  datatype Poll = Poll(rows: seq<Row>, failed: bool, now: int)

  function NextPoll(m: Monitor, p: Poll): Monitor {
    if p.failed then m.(stale := true)
    else
      var s := ScanRows(Scan({}, Recent(m.departed, p.now), [], []), p.rows, m.airport, p.now);
      Monitor(m.airport, s.departed, false, StableSort(ByCallsign, s.flagged), StableSort(BySlot, s.listed),
              Some(p.now))
  }

  function PlayPolls(m: Monitor, polls: seq<Poll>): Monitor {
    if polls == [] then m else NextPoll(PlayPolls(m, polls[..|polls| - 1]), polls[|polls| - 1])
  }

  function Opened(airport: string): Monitor {
    Monitor(airport, map[], true, [], [], None)
  }

  // ---- What a scan produces ----------------------------------------------------------------

  /** Every report's flight was seen, none is reported twice, and the flagged reports are the early ones listed. */
  ghost predicate Tidy(s: Scan) {
    && (forall i :: 0 <= i < |s.listed| ==> s.listed[i].key in s.seen)
    && (forall i, j :: 0 <= i < j < |s.listed| ==> s.listed[i].key != s.listed[j].key)
    && (forall r :: r in s.flagged <==> r in s.listed && IsFlagged(r))
  }

  lemma RowKeepsTidy(s: Scan, row: Row, airport: string, now: int)
    requires Tidy(s)
    ensures Tidy(ScanRow(s, row, airport, now))
  {
    var t := ScanRow(s, row, airport, now);
    var r := ReportFor(row, s.departed);
    if |t.listed| > |s.listed| {
      assert r.Some? && t.listed == s.listed + [r.value] && r.value.key == KeyOf(row);
      assert forall q :: q in t.listed <==> q in s.listed || q == r.value;
    }
  }

  /** The scan's record of one flight, as its first row and the history decide it. */
  ghost predicate Recorded(s: Scan, history: map<FlightKey, Sighting>, first: Option<Row>, now: int, k: FlightKey) {
    && (k in s.seen <==> first.Some?)
    && (k in history ==> k in s.departed && s.departed[k] == history[k])
    && (k !in history ==> (k in s.departed <==> first.Some? && k.atot.Some?))
    && (k !in history && k in s.departed ==> s.departed[k] == Sighting(first.value, now))
  }

  function ReportOn(first: Option<Row>, history: map<FlightKey, Sighting>): Option<Report> {
    if first.Some? then ReportFor(first.value, history) else None
  }

  /** The scan lists for one flight exactly the report on its first row. */
  ghost predicate Reported(s: Scan, history: map<FlightKey, Sighting>, first: Option<Row>, k: FlightKey) {
    forall r: Report :: r.key == k ==> (r in s.listed <==> ReportOn(first, history) == Some(r))
  }

  ghost predicate Settled(s: Scan, history: map<FlightKey, Sighting>, first: Option<Row>, now: int, k: FlightKey) {
    Recorded(s, history, first, now, k) && Reported(s, history, first, k)
  }

  lemma ReportHasKey(row: Row, history: map<FlightKey, Sighting>)
    ensures ReportFor(row, history).Some? ==> ReportFor(row, history).value.key == KeyOf(row)
  {
  }

  lemma OwnRowSettles(s: Scan, history: map<FlightKey, Sighting>, row: Row, airport: string, now: int)
    requires Settled(s, history, None, now, KeyOf(row)) && IsRelevant(row, airport)
    ensures Settled(ScanRow(s, row, airport, now), history, Some(row), now, KeyOf(row))
  {
    ReportHasKey(row, history);
    assert ReportFor(row, s.departed) == ReportFor(row, history);
  }

  lemma OtherRowSettles(s: Scan, history: map<FlightKey, Sighting>, first: Option<Row>, row: Row, airport: string,
                        now: int, k: FlightKey)
    requires Settled(s, history, first, now, k) && k != KeyOf(row)
    ensures Settled(ScanRow(s, row, airport, now), history, first, now, k)
  {
    ReportHasKey(row, s.departed);
  }

  lemma {:induction false} ScanSettles(history: map<FlightKey, Sighting>, rows: seq<Row>, airport: string, now: int,
                                       k: FlightKey)
    ensures Settled(ScanRows(Scan({}, history, [], []), rows, airport, now), history, FirstRow(rows, airport, k), now,
                    k)
  {
    if rows != [] {
      var init, row := rows[..|rows| - 1], rows[|rows| - 1];
      var s := ScanRows(Scan({}, history, [], []), init, airport, now);
      ScanSettles(history, init, airport, now, k);
      if KeyOf(row) != k {
        OtherRowSettles(s, history, FirstRow(init, airport, k), row, airport, now, k);
      } else if IsRelevant(row, airport) && FirstRow(init, airport, k).None? {
        OwnRowSettles(s, history, row, airport, now);
      }
    }
  }

  lemma {:induction false} ScanIsTidy(history: map<FlightKey, Sighting>, rows: seq<Row>, airport: string, now: int)
    ensures Tidy(ScanRows(Scan({}, history, [], []), rows, airport, now))
  {
    if rows != [] {
      var init := rows[..|rows| - 1];
      ScanIsTidy(history, init, airport, now);
      RowKeepsTidy(ScanRows(Scan({}, history, [], []), init, airport, now), rows[|rows| - 1], airport, now);
    }
  }

  // ---- What a snapshot means -------------------------------------------------------------------

  ghost predicate NoKeyTwice(reports: seq<Report>) {
    forall i, j :: 0 <= i < j < |reports| ==> reports[i].key != reports[j].key
  }

  lemma DistinctKeysReorder(a: seq<Report>, b: seq<Report>)
    requires multiset(a) == multiset(b) && NoKeyTwice(b)
    ensures NoKeyTwice(a)
  {
    forall i, j | 0 <= i < j < |a|
      ensures a[i].key != a[j].key
    {
      var front, back := a[..j], a[j..];
      assert a == front + back && front[i] == a[i] && back[0] == a[j];
      assert multiset(a) == multiset(front) + multiset(back);
      assert a[i] in multiset(b) && a[j] in multiset(b);
      if a[i] == a[j] {
        assert multiset(b)[a[i]] >= 2;
        CountsOnce(b, a[i]);
      }
      var m :| 0 <= m < |b| && b[m] == a[i];
      var n :| 0 <= n < |b| && b[n] == a[j];
    }
  }

  lemma {:induction false} CountsOnce(b: seq<Report>, r: Report)
    requires NoKeyTwice(b)
    ensures multiset(b)[r] <= 1
  {
    if b != [] {
      var n := |b| - 1;
      assert b == b[..n] + [b[n]];
      CountsOnce(b[..n], r);
      assert b[n] == r ==> r !in b[..n];
    }
  }

  /** A successful poll lists each flight of the feed once, with the report on its first row, and flags exactly the
      listed departures more than ten minutes early. */
  lemma SnapshotIsExact(m: Monitor, p: Poll, k: FlightKey)
    requires !p.failed
    ensures var n := NextPoll(m, p);
            && NoKeyTwice(n.listed)
            && (forall r: Report :: r.key == k ==>
                  (r in n.listed <==> ReportOn(FirstRow(p.rows, m.airport, k), Recent(m.departed, p.now)) == Some(r)))
            && (forall r :: r in n.flagged <==> r in n.listed && IsFlagged(r))
  {
    var history := Recent(m.departed, p.now);
    var s := ScanRows(Scan({}, history, [], []), p.rows, m.airport, p.now);
    ScanSettles(history, p.rows, m.airport, p.now, k);
    ScanIsTidy(history, p.rows, m.airport, p.now);
    SortKeepsAll(BySlot, s.listed);
    SortKeepsAll(ByCallsign, s.flagged);
    DistinctKeysReorder(StableSort(BySlot, s.listed), s.listed);
    SameElements(StableSort(BySlot, s.listed), s.listed);
    SameElements(StableSort(ByCallsign, s.flagged), s.flagged);
  }

  function Successful(polls: seq<Poll>): seq<Poll> {
    if polls == [] then []
    else
      var n := |polls| - 1;
      Successful(polls[..n]) + (if polls[n].failed then [] else [polls[n]])
  }

  lemma NextSuccess(m: Monitor, polls: seq<Poll>, p: Poll)
    ensures PlayPolls(m, polls + [p]) == NextPoll(PlayPolls(m, polls), p)
  {
    assert (polls + [p])[..|polls|] == polls;
  }

  /** Failed polls leave no trace: whenever they occur in a run, its findings and its history are those of the
      successful polls alone, and only the stale flag tells that the last poll failed. */
  lemma {:induction false} FailedPollsLeaveNoTrace(m: Monitor, polls: seq<Poll>)
    requires polls != []
    ensures PlayPolls(m, polls) == PlayPolls(m, Successful(polls)).(stale := polls[|polls| - 1].failed)
  {
    var init, p := polls[..|polls| - 1], polls[|polls| - 1];
    if init != [] {
      FailedPollsLeaveNoTrace(m, init);
    }
    if !p.failed {
      NextSuccess(m, Successful(init), p);
    } else {
      assert Successful(polls) == Successful(init);
    }
  }

  /** The first departed sighting of a flight not in recent history is recorded with the slot it carries. */
  lemma FirstSightingIsRecorded(m: Monitor, p: Poll, k: FlightKey)
    requires !p.failed && k.atot.Some? && FirstRow(p.rows, m.airport, k).Some? && k !in Recent(m.departed, p.now)
    ensures k in NextPoll(m, p).departed
    ensures NextPoll(m, p).departed[k] == Sighting(FirstRow(p.rows, m.airport, k).value, p.now)
  {
    ScanSettles(Recent(m.departed, p.now), p.rows, m.airport, p.now, k);
  }

  /** Every departed flight on display is assessed against its recorded slot. */
  ghost predicate IsFaithful(m: Monitor) {
    forall r :: r in m.listed && r.key.atot.Some? ==>
      && r.key in m.departed && r.row.ctot == m.departed[r.key].row.ctot
      && Assess(r.key, r.row) == Some(r)
  }

  lemma ReportIsFrozen(s: Scan, history: map<FlightKey, Sighting>, first: Option<Row>, now: int, r: Report)
    requires Settled(s, history, first, now, r.key) && r in s.listed && r.key.atot.Some?
    requires first.Some? ==> KeyOf(first.value) == r.key
    ensures r.key in s.departed && r.row.ctot == s.departed[r.key].row.ctot && Assess(r.key, r.row) == Some(r)
  {
    assert ReportOn(first, history) == Some(r);
  }

  lemma {:induction false} FirstRowHasKey(rows: seq<Row>, airport: string, k: FlightKey)
    ensures FirstRow(rows, airport, k).Some? ==> KeyOf(FirstRow(rows, airport, k).value) == k
  {
    if rows != [] {
      FirstRowHasKey(rows[..|rows| - 1], airport, k);
    }
  }

  lemma PollIsFaithful(m: Monitor, p: Poll)
    requires IsFaithful(m)
    ensures IsFaithful(NextPoll(m, p))
  {
    if !p.failed {
      var history := Recent(m.departed, p.now);
      var s := ScanRows(Scan({}, history, [], []), p.rows, m.airport, p.now);
      SortKeepsAll(BySlot, s.listed);
      SameElements(StableSort(BySlot, s.listed), s.listed);
      forall r | r in NextPoll(m, p).listed && r.key.atot.Some?
        ensures r.key in s.departed && r.row.ctot == s.departed[r.key].row.ctot && Assess(r.key, r.row) == Some(r)
      {
        ScanSettles(history, p.rows, m.airport, p.now, r.key);
        FirstRowHasKey(p.rows, m.airport, r.key);
        ReportIsFrozen(s, history, FirstRow(p.rows, m.airport, r.key), p.now, r);
      }
    }
  }

  /** For a day after the first departed sighting, whatever the polls bring - failures, absences, other slots - the
      sighting stays on record, and every snapshot assesses the flight against the slot it carried then. */
  lemma {:induction false} SlotIsFrozenForADay(m: Monitor, polls: seq<Poll>, k: FlightKey)
    requires IsFaithful(m) && k in m.departed && k.atot.Some?
    requires forall p :: p in polls ==> p.now - m.departed[k].observedAt < HISTORY
    ensures var end := PlayPolls(m, polls);
            && IsFaithful(end) && k in end.departed && end.departed[k] == m.departed[k]
            && forall r :: r in end.listed && r.key == k ==>
                 r.row.ctot == m.departed[k].row.ctot && Assess(k, r.row) == Some(r)
  {
    if polls != [] {
      var init, p := polls[..|polls| - 1], polls[|polls| - 1];
      assert forall q :: q in init ==> q in polls;
      assert p in polls;
      SlotIsFrozenForADay(m, init, k);
      var before := PlayPolls(m, init);
      PollIsFaithful(before, p);
      if !p.failed {
        ScanSettles(Recent(before.departed, p.now), p.rows, before.airport, p.now, k);
      }
    }
  }

  // ---- The monitor as an object ---------------------------------------------------------------------

  class Airport {
    const name: string
    var departed: map<FlightKey, Sighting>
    var stale: bool
    var flagged: seq<Report>
    var listed: seq<Report>
    var updatedAt: Option<int>

    constructor (name: string)
      ensures AsMonitor() == Opened(name) && IsFaithful(AsMonitor())
    {
      this.name, departed, stale, flagged, listed, updatedAt := name, map[], true, [], [], None;
    }

    ghost function AsMonitor(): Monitor
      reads this
    {
      Monitor(name, departed, stale, flagged, listed, updatedAt)
    }

    method DropOldHistory(now: int)
      modifies this`departed
      ensures departed == Recent(old(departed), now)
    {
      var todo := departed.Keys;
      while todo != {}
        invariant todo <= departed.Keys <= old(departed).Keys
        invariant forall k :: k in departed ==> departed[k] == old(departed)[k]
        invariant forall k :: k in departed && k !in todo ==> now - departed[k].observedAt < HISTORY
        invariant forall k :: k in old(departed) && k !in departed ==> now - old(departed)[k].observedAt >= HISTORY
        decreases |todo|
      {
        var k :| k in todo;
        if now - departed[k].observedAt >= HISTORY {
          departed := departed - {k};
        }
        todo := todo - {k};
      }
    }

    method Apply(rows: seq<Row>, failed: bool, now: int)
      modifies this
      ensures AsMonitor() == NextPoll(old(AsMonitor()), Poll(rows, failed, now))
    {
      stale := failed;
      if failed {
        return;
      }
      DropOldHistory(now);
      ghost var start := Scan({}, departed, [], []);
      var seen: set<FlightKey> := {};
      var early: seq<Report>, all: seq<Report> := [], [];
      for i := 0 to |rows|
        invariant Scan(seen, departed, early, all) == ScanRows(start, rows[..i], name, now)
        invariant stale == failed && flagged == old(flagged) && listed == old(listed)
      {
        var row := rows[i];
        assert rows[..i + 1][..i] == rows[..i];
        if Trim(row.callsign) == "" || !FoldEq(Trim(row.arrival), name) {
          continue;
        }
        var key := KeyOf(row);
        if key in seen {
          continue;
        }
        seen := seen + {key};
        if key.atot.None? {
          if ParseClock(row.ctot).Some? {
            all := all + [Report(key, row, Pending, 0, 0)];
          }
          continue;
        }
        if key in departed {
          row := row.(ctot := departed[key].row.ctot);
        } else {
          departed := departed[key := Sighting(row, now)];
        }
        var report := Assess(key, row);
        if report.None? {
          continue;
        }
        all := all + [report.value];
        if report.value.status.Early? && report.value.deviation < -600 {
          early := early + [report.value];
        }
      }
      assert rows[..|rows|] == rows;
      flagged, listed, updatedAt := StableSort(ByCallsign, early), StableSort(BySlot, all), Some(now);
    }
  }
}
