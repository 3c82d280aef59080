/** What the monitor of inbound departures shows, in the fields of the feed's rows. */
module InboundRules {
  import opened Text
  import opened Clock
  import opened Config
  import opened Sorting
  import Ordering
  import opened Precedence
  import opened Inbound

  /** Rows count if they name a flight and arrive at the airport. */
  lemma CountsWhen(row: Row, airport: string)
    ensures IsRelevant(row, airport) <==> Trim(row.callsign) != "" && Upper(Trim(row.arrival)) == Upper(airport)
  {
  }

  /** Two rows are about one flight if callsign, departure and CID agree, and both have the same readable take-off time
      or neither has one. */
  lemma OneFlightWhen(a: Row, b: Row)
    ensures Inbound.KeyOf(a) == Inbound.KeyOf(b) <==>
            && Upper(Trim(a.callsign)) == Upper(Trim(b.callsign))
            && Upper(Trim(a.departure)) == Upper(Trim(b.departure))
            && Trim(a.cid) == Trim(b.cid) && ParseClock(a.atot) == ParseClock(b.atot)
  {
    TokenIsUpperTrim(a.callsign);
    TokenIsUpperTrim(b.callsign);
    TokenIsUpperTrim(a.departure);
    TokenIsUpperTrim(b.departure);
  }

  /** The row of a flight that counts is the first one about it. */
  lemma {:induction false} FirstRowCounts(rows: seq<Row>, airport: string, k: FlightKey, n: nat)
    requires n < |rows| && IsRelevant(rows[n], airport) && Inbound.KeyOf(rows[n]) == k
    requires forall m :: 0 <= m < n ==> !(IsRelevant(rows[m], airport) && Inbound.KeyOf(rows[m]) == k)
    ensures FirstRow(rows, airport, k) == Some(rows[n])
  {
    if n < |rows| - 1 {
      FirstRowCounts(rows[..|rows| - 1], airport, k, n);
    } else {
      NoRowCounts(rows[..n], airport, k);
    }
  }

  lemma {:induction false} NoRowCounts(rows: seq<Row>, airport: string, k: FlightKey)
    requires forall m :: 0 <= m < |rows| ==> !(IsRelevant(rows[m], airport) && Inbound.KeyOf(rows[m]) == k)
    ensures FirstRow(rows, airport, k) == None
  {
    if rows != [] {
      NoRowCounts(rows[..|rows| - 1], airport, k);
    }
  }

  /** A flight without a take-off time is shown as pending if its slot is readable. A departed one is shown if its
      take-off and the slot it is held to are, with the seconds between them: early more than five minutes before the
      slot, late more than ten minutes after it. */
  lemma ShownAs(row: Row, history: map<FlightKey, Sighting>)
    ensures var k := Inbound.KeyOf(row);
            var slot := ParseClock(if k.atot.Some? && k in history then history[k].row.ctot else row.ctot);
            var r := ReportFor(row, history);
            && (slot.None? ==> r.None?)
            && (slot.Some? && k.atot.None? ==> r == Some(Report(k, row, Pending, 0, 0)))
            && (slot.Some? && k.atot.Some? ==>
                  && r.Some? && r.value.key == k
                  && -43_200 <= r.value.deviation <= 43_200
                  && (r.value.deviation == 43_200 ==> slot.value < k.atot.value)
                  && (r.value.deviation == -43_200 ==> k.atot.value < slot.value)
                  && Shift(At(slot.value), r.value.deviation) == At(k.atot.value)
                  && r.value.status == (if r.value.deviation < -300 then Early
                                        else if r.value.deviation <= 600 then Compliant else Late)
                  && (IsFlagged(r.value) <==> r.value.deviation < -600))
  {
    var k := Inbound.KeyOf(row);
    var r := ReportFor(row, history);
    if r.Some? && k.atot.Some? {
      var slot := ParseClock(Frozen(row, history).ctot);
      ShiftIsModular(slot.value, r.value.deviation);
      SameRemainder(slot.value, r.value.deviation, k.atot.value);
    }
  }

  lemma SameRemainder(a: Second, d: int, b: Second)
    requires (b - a - d) % DAY == 0
    ensures (a + d) % DAY == b
  {
    var q := (b - a - d) / DAY;
    assert a + d == b + (-q) * DAY;
    assert (b + (-q) * DAY) % DAY == b;
  }

  /** A sighting is remembered for less than 24 hours. */
  lemma RememberedForADay(departed: map<FlightKey, Sighting>, now: int, k: FlightKey)
    ensures k in Recent(departed, now) <==> k in departed && now - departed[k].observedAt < 86_400_000_000_000
    ensures k in Recent(departed, now) ==> Recent(departed, now)[k] == departed[k]
  {
  }

  // ---- In which order -----------------------------------------------------------------------------

  lemma TextsAreWeak(a: string, b: string, c: string)
    requires Ordering.CompareText(b, a) >= 0 && Ordering.CompareText(c, b) >= 0
    ensures Ordering.CompareText(c, a) >= 0
    ensures Ordering.CompareText(c, a) == 0 ==> Ordering.CompareText(b, a) == 0 && Ordering.CompareText(c, b) == 0
  {
    Ordering.TextIsOrdered(a, b);
    Ordering.TextIsOrdered(b, c);
    Ordering.TextIsOrdered(a, c);
    Ordering.TextIsTransitive(a, b, c);
  }

  lemma ReportsAreWeak(s: seq<Report>)
    ensures Weak(ByCallsign, Elements(s)) && Weak(BySlot, Elements(s))
  {
    forall a: Report, b: Report
      ensures !(ByCallsign(a, b) && ByCallsign(b, a)) && !(BySlot(a, b) && BySlot(b, a))
    {
      Ordering.TextIsOrdered(a.key.callsign, b.key.callsign);
      Ordering.TextIsOrdered(Trim(a.row.ctot), Trim(b.row.ctot));
    }
    forall a: Report, b: Report, c: Report
      ensures !ByCallsign(b, a) && !ByCallsign(c, b) ==> !ByCallsign(c, a)
      ensures !BySlot(b, a) && !BySlot(c, b) ==> !BySlot(c, a)
    {
      if !ByCallsign(b, a) && !ByCallsign(c, b) {
        TextsAreWeak(a.key.callsign, b.key.callsign, c.key.callsign);
      }
      if !BySlot(b, a) && !BySlot(c, b) {
        TextsAreWeak(Trim(a.row.ctot), Trim(b.row.ctot), Trim(c.row.ctot));
      }
    }
  }

  /** Flagged departures are shown by callsign, all flights by slot and, with one slot, by callsign. */
  lemma SnapshotIsInOrder(m: Monitor, p: Poll)
    requires !p.failed
    ensures var n := NextPoll(m, p);
            && (forall i, j :: 0 <= i < j < |n.flagged| ==>
                  NoFurther(n.flagged[i].key.callsign, n.flagged[j].key.callsign))
            && (forall i, j :: 0 <= i < j < |n.listed| ==>
                  && NoFurther(Trim(n.listed[i].row.ctot), Trim(n.listed[j].row.ctot))
                  && (Trim(n.listed[i].row.ctot) == Trim(n.listed[j].row.ctot) ==>
                        NoFurther(n.listed[i].key.callsign, n.listed[j].key.callsign)))
            && n.updatedAt == Some(p.now) && !n.stale && n.airport == m.airport
  {
    var s := ScanRows(Scan({}, Recent(m.departed, p.now), [], []), p.rows, m.airport, p.now);
    ReportsAreWeak(s.flagged);
    ReportsAreWeak(s.listed);
    SortPutsInOrder(ByCallsign, s.flagged, Elements(s.flagged));
    SortPutsInOrder(BySlot, s.listed, Elements(s.listed));
    forall a: Report, b: Report
      ensures !ByCallsign(b, a) ==> NoFurther(a.key.callsign, b.key.callsign)
      ensures !BySlot(b, a) ==> NoFurther(Trim(a.row.ctot), Trim(b.row.ctot))
      ensures !BySlot(b, a) && Trim(a.row.ctot) == Trim(b.row.ctot) ==> NoFurther(a.key.callsign, b.key.callsign)
    {
      ReportsCompare(a, b);
    }
  }

  lemma ReportsCompare(a: Report, b: Report)
    ensures !ByCallsign(b, a) ==> NoFurther(a.key.callsign, b.key.callsign)
    ensures !BySlot(b, a) ==> NoFurther(Trim(a.row.ctot), Trim(b.row.ctot))
    ensures !BySlot(b, a) && Trim(a.row.ctot) == Trim(b.row.ctot) ==> NoFurther(a.key.callsign, b.key.callsign)
  {
    Ordering.TextIsOrdered(a.key.callsign, b.key.callsign);
    Ordering.TextIsOrdered(Trim(a.row.ctot), Trim(b.row.ctot));
    TextsCompare(a.key.callsign, b.key.callsign);
    TextsCompare(Trim(a.row.ctot), Trim(b.row.ctot));
  }
}
