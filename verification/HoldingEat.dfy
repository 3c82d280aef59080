/** Publishing estimated approach times of holding aircraft: `holdingEATPublicationWithGeometry` of
    backend/internal/app/aman_assembly.go and its cursor of the last projection per airport. */
module HoldingEat {
  import opened Text
  import opened Config
  import opened Sorting
  import Ordering

  datatype HoldEvent = HoldEvent(callsign: string, hold: string, holdType: string, eat: string)

  function KeyOf(e: HoldEvent): string {
    Token(e.callsign)
  }

  // ---- Which flights have an estimate to publish ------------------------------------------

  datatype Clearance = Clearance(hold: string, holdType: string, eat: string)

  /** `release` is the planned approach release time as published, if a plan with such a time exists. */
  datatype Flight = Flight(callsign: string, clearance: Option<Clearance>, release: Option<string>, gone: bool,
                           selected: Option<string>, stack: Option<string>)

  const ENROUTE := "enroute"

  predicate IsHolding(f: Flight, fixes: map<string, string>) {
    && f.clearance.Some? && f.clearance.value.hold != "" && f.clearance.value.holdType == ENROUTE
    && f.release.Some? && !f.gone && f.selected.Some? && (f.stack.Some? ==> f.stack == f.selected)
    && f.selected.value in fixes && FoldEq(Trim(f.clearance.value.hold), fixes[f.selected.value])
  }

  /** With `suppress`, flights that already carry their estimate are left out. */
  function Events(flights: seq<Flight>, fixes: map<string, string>, suppress: bool): seq<HoldEvent> {
    if flights == [] then []
    else
      var n := |flights| - 1;
      Events(flights[..n], fixes, suppress) +
      (if IsHolding(flights[n], fixes) && !(suppress && flights[n].clearance.value.eat == flights[n].release.value)
       then [HoldEvent(flights[n].callsign, flights[n].clearance.value.hold, flights[n].clearance.value.holdType,
                       flights[n].release.value)]
       else [])
  }

  method CollectEvents(flights: seq<Flight>, fixes: map<string, string>, suppress: bool)
    returns (events: seq<HoldEvent>)
    ensures events == Events(flights, fixes, suppress)
  {
    events := [];
    for i := 0 to |flights|
      invariant events == Events(flights[..i], fixes, suppress)
    {
      assert flights[..i + 1][..i] == flights[..i];
      var f := flights[i];
      if !IsHolding(f, fixes) {
        continue;
      }
      if suppress && f.clearance.value.eat == f.release.value {
        continue;
      }
      events := events + [HoldEvent(f.callsign, f.clearance.value.hold, f.clearance.value.holdType, f.release.value)];
    }
    assert flights[..|flights|] == flights;
  }

  // ---- A receiver -----------------------------------------------------------------------------

  /** What a receiver holds after applying events in order. */
  function Apply(held: map<string, HoldEvent>, events: seq<HoldEvent>): map<string, HoldEvent> {
    if events == [] then held
    else Apply(held, events[..|events| - 1])[KeyOf(events[|events| - 1]) := events[|events| - 1]]
  }

  /** The projection of a list of events: the last one of each key. */
  function Projection(events: seq<HoldEvent>): (p: map<string, HoldEvent>) {
    Apply(map[], events)
  }

  lemma {:induction false} ApplyIsMerge(held: map<string, HoldEvent>, events: seq<HoldEvent>)
    ensures Apply(held, events) == held + Projection(events)
  {
    if events != [] {
      ApplyIsMerge(held, events[..|events| - 1]);
    }
  }

  lemma ApplyNext(held: map<string, HoldEvent>, events: seq<HoldEvent>, e: HoldEvent)
    ensures Apply(held, events + [e]) == Apply(held, events)[KeyOf(e) := e]
  {
    assert (events + [e])[..|events|] == events;
  }

  ghost predicate WellKeyed(p: map<string, HoldEvent>) {
    forall k :: k in p ==> KeyOf(p[k]) == k
  }

  lemma {:induction false} ProjectionIsWellKeyed(events: seq<HoldEvent>)
    ensures WellKeyed(Projection(events))
  {
    if events != [] {
      ProjectionIsWellKeyed(events[..|events| - 1]);
    }
  }

  function Withdrawn(e: HoldEvent): HoldEvent {
    e.(eat := "")
  }

  ghost function Changed(previous: map<string, HoldEvent>, current: map<string, HoldEvent>,
                         due: set<string>): map<string, HoldEvent>
  {
    map k | k in current && IsDue(k, previous, current, due) :: current[k]
  }

  ghost function Gone(previous: map<string, HoldEvent>, current: map<string, HoldEvent>): map<string, HoldEvent> {
    map k | k in previous && IsGone(k, previous, current) :: Withdrawn(previous[k])
  }

  /** The updates that turn a receiver of `previous` into one of `current`: what is new, changed or due, and an empty
      estimate for what is gone. */
  ghost function Delta(previous: map<string, HoldEvent>, current: map<string, HoldEvent>,
                       due: set<string>): map<string, HoldEvent>
  {
    Changed(previous, current, due) + Gone(previous, current)
  }

  predicate IsDue(k: string, previous: map<string, HoldEvent>, current: map<string, HoldEvent>, due: set<string>) {
    k in current && (k in due || k !in previous || previous[k] != current[k])
  }

  predicate IsGone(k: string, previous: map<string, HoldEvent>, current: map<string, HoldEvent>) {
    k in previous && k !in current
  }

  ghost predicate IsChanges(previous: map<string, HoldEvent>, current: map<string, HoldEvent>, due: set<string>,
                            p: map<string, HoldEvent>)
  {
    && (forall k :: k in p <==> IsDue(k, previous, current, due))
    && (forall k :: k in p ==> p[k] == current[k])
  }

  ghost predicate IsWithdrawals(previous: map<string, HoldEvent>, current: map<string, HoldEvent>,
                                p: map<string, HoldEvent>)
  {
    && (forall k :: k in p <==> IsGone(k, previous, current))
    && (forall k :: k in p ==> p[k] == Withdrawn(previous[k]))
  }

  ghost predicate OncePerKey(events: seq<HoldEvent>) {
    forall i, j :: 0 <= i < j < |events| ==> KeyOf(events[i]) != KeyOf(events[j])
  }

  lemma DeltaIsBoth(previous: map<string, HoldEvent>, current: map<string, HoldEvent>, due: set<string>,
                    changed: map<string, HoldEvent>, gone: map<string, HoldEvent>)
    requires IsChanges(previous, current, due, changed) && IsWithdrawals(previous, current, gone)
    ensures changed + gone == Delta(previous, current, due)
  {
    assert changed == Changed(previous, current, due);
    assert gone == Gone(previous, current);
  }

  // ---- The publisher --------------------------------------------------------------------------------

  predicate TextBefore(a: string, b: string) {
    Ordering.CompareText(a, b) < 0
  }

  class Publisher {
    var last: map<string, map<string, HoldEvent>>

    constructor ()
      ensures Valid() && last == map[]
    {
      last := map[];
    }

    ghost predicate Valid()
      reads this
    {
      forall a :: a in last ==> WellKeyed(last[a])
    }

    function Cursor(airport: string): map<string, HoldEvent>
      reads this
    {
      if airport in last then last[airport] else map[]
    }

    /** Emits, once per key, exactly what a receiver of the last projection needs to reach the current one. Without
        authority or geometry the projection is empty. */
    method Publish(airport: string, enabled: bool, usable: bool, flights: seq<Flight>, fixes: map<string, string>)
      returns (updates: seq<HoldEvent>)
      requires Valid()
      modifies this
      ensures Valid() && forall a :: a != airport ==> Cursor(a) == old(Cursor(a))
      ensures !enabled ==> updates == [] && Cursor(airport) == map[]
      ensures enabled ==>
                && Cursor(airport) == Projection(if usable then Events(flights, fixes, false) else [])
                && Projection(updates) == Delta(old(Cursor(airport)), Cursor(airport),
                                                Projection(if usable then Events(flights, fixes, true) else []).Keys)
                && OncePerKey(updates)
    {
      if !enabled {
        last := last - {airport};
        return [];
      }
      var events, required: seq<HoldEvent> := [], [];
      if usable {
        events := CollectEvents(flights, fixes, false);
        required := CollectEvents(flights, fixes, true);
      }
      var current;
      updates, current := Diff(Cursor(airport), events, required);
      ProjectionIsWellKeyed(events);
      last := last[airport := current];
    }
  }

  method Diff(previous: map<string, HoldEvent>, events: seq<HoldEvent>, required: seq<HoldEvent>)
    returns (updates: seq<HoldEvent>, current: map<string, HoldEvent>)
    requires WellKeyed(previous)
    ensures current == Projection(events) && OncePerKey(updates)
    ensures Projection(updates) == Delta(previous, current, Projection(required).Keys)
  {
    var due := KeysOf(required);
    var order;
    current, order := Index(events);
    ProjectionIsWellKeyed(events);
    var changed := Changes(previous, current, order, due);
    var gone := Withdrawals(previous, current);
    updates := changed + gone;
    ApplyAll(map[], changed, gone);
    ApplyIsMerge(Projection(changed), gone);
    DeltaIsBoth(previous, current, due, Projection(changed), Projection(gone));
    Separate(previous, current, due, changed, gone);
  }

  lemma {:induction false} KeysAreProjected(events: seq<HoldEvent>)
    ensures forall i :: 0 <= i < |events| ==> KeyOf(events[i]) in Projection(events)
  {
    if events != [] {
      KeysAreProjected(events[..|events| - 1]);
    }
  }

  lemma Separate(previous: map<string, HoldEvent>, current: map<string, HoldEvent>, due: set<string>,
                 changed: seq<HoldEvent>, gone: seq<HoldEvent>)
    requires IsChanges(previous, current, due, Projection(changed))
             && IsWithdrawals(previous, current, Projection(gone))
    requires OncePerKey(changed) && OncePerKey(gone)
    ensures OncePerKey(changed + gone)
  {
    KeysAreProjected(changed);
    KeysAreProjected(gone);
    forall i, j | 0 <= i < |changed| && 0 <= j < |gone|
      ensures KeyOf(changed[i]) != KeyOf(gone[j])
    {
      assert IsDue(KeyOf(changed[i]), previous, current, due) && IsGone(KeyOf(gone[j]), previous, current);
    }
  }

  method KeysOf(events: seq<HoldEvent>) returns (keys: set<string>)
    ensures keys == Projection(events).Keys
  {
    keys := {};
    for i := 0 to |events|
      invariant keys == Projection(events[..i]).Keys
    {
      assert events[..i + 1][..i] == events[..i];
      keys := keys + {KeyOf(events[i])};
    }
    assert events[..|events|] == events;
  }

  /** The projection, and its keys in the order of their first event. */
  method Index(events: seq<HoldEvent>) returns (current: map<string, HoldEvent>, order: seq<string>)
    ensures current == Projection(events)
    ensures (forall k :: k in order <==> k in current) && (forall i, j :: 0 <= i < j < |order| ==> order[i] != order[j])
  {
    current, order := map[], [];
    for i := 0 to |events|
      invariant current == Projection(events[..i])
      invariant (forall k :: k in order <==> k in current)
                && (forall i, j :: 0 <= i < j < |order| ==> order[i] != order[j])
    {
      assert events[..i + 1][..i] == events[..i];
      var key := KeyOf(events[i]);
      if key !in current {
        order := order + [key];
      }
      current := current[key := events[i]];
    }
    assert events[..|events|] == events;
  }

  lemma Extend(updates: seq<HoldEvent>, e: HoldEvent)
    requires OncePerKey(updates) && KeyOf(e) !in Projection(updates)
    ensures OncePerKey(updates + [e]) && Projection(updates + [e]) == Projection(updates)[KeyOf(e) := e]
  {
    KeysAreProjected(updates);
    ApplyNext(map[], updates, e);
  }

  /** The changes whose keys have been looked at. */
  ghost predicate AreChangesAmong(keys: seq<string>, previous: map<string, HoldEvent>, current: map<string, HoldEvent>,
                                  due: set<string>, p: map<string, HoldEvent>)
  {
    && (forall k :: k in p <==> k in keys && IsDue(k, previous, current, due))
    && (forall k :: k in p ==> p[k] == current[k])
  }

  lemma NextChange(keys: seq<string>, key: string, previous: map<string, HoldEvent>, current: map<string, HoldEvent>,
                   due: set<string>, p: map<string, HoldEvent>)
    requires AreChangesAmong(keys, previous, current, due, p) && key !in keys && key in current
    ensures key !in p
    ensures AreChangesAmong(keys + [key], previous, current, due,
                            if IsDue(key, previous, current, due) then p[key := current[key]] else p)
  {
    forall k
      ensures k in keys + [key] <==> k in keys || k == key
    {
    }
  }

  method Changes(previous: map<string, HoldEvent>, current: map<string, HoldEvent>, order: seq<string>,
                 due: set<string>)
    returns (updates: seq<HoldEvent>)
    requires WellKeyed(current)
    requires (forall k :: k in order <==> k in current)
             && (forall i, j :: 0 <= i < j < |order| ==> order[i] != order[j])
    ensures IsChanges(previous, current, due, Projection(updates)) && OncePerKey(updates)
  {
    updates := [];
    for i := 0 to |order|
      invariant OncePerKey(updates) && AreChangesAmong(order[..i], previous, current, due, Projection(updates))
    {
      var key := order[i];
      assert key in order && key !in order[..i];
      assert order[..i + 1] == order[..i] + [key];
      NextChange(order[..i], key, previous, current, due, Projection(updates));
      if key in due || key !in previous || previous[key] != current[key] {
        Extend(updates, current[key]);
        updates := updates + [current[key]];
      }
    }
    assert order[..|order|] == order;
  }

  /** The keys of the last projection that are gone, each once, in order. */
  method GoneKeys(previous: map<string, HoldEvent>, current: map<string, HoldEvent>) returns (keys: seq<string>)
    ensures forall k :: k in keys <==> IsGone(k, previous, current)
    ensures forall i, j :: 0 <= i < j < |keys| ==> keys[i] != keys[j]
  {
    var todo := previous.Keys;
    var listed: seq<string> := [];
    while todo != {}
      invariant todo <= previous.Keys
      invariant forall k :: k in listed <==> IsGone(k, previous, current) && k !in todo
      invariant NoRepeats(listed)
      decreases |todo|
    {
      var key :| key in todo;
      todo := todo - {key};
      if key !in current {
        AddNew(listed, key);
        listed := listed + [key];
      }
    }
    keys := StableSort(TextBefore, listed);
    SortKeepsAll(TextBefore, listed);
    SameElements(keys, listed);
    RepeatsByIndex(keys);
  }

  lemma AddNew(keys: seq<string>, key: string)
    requires NoRepeats(keys) && key !in keys
    ensures NoRepeats(keys + [key])
  {
    assert key !in multiset(keys);
    forall k | k in keys + [key]
      ensures multiset(keys + [key])[k] == 1
    {
      assert multiset(keys + [key]) == multiset(keys) + multiset{key};
      assert k != key ==> k in keys;
    }
  }

  lemma RepeatsByIndex(keys: seq<string>)
    requires NoRepeats(keys)
    ensures forall i, j :: 0 <= i < j < |keys| ==> keys[i] != keys[j]
  {
    forall i, j | 0 <= i < j < |keys|
      ensures keys[i] != keys[j]
    {
      var front, back := keys[..j], keys[j..];
      assert keys == front + back && front[i] == keys[i] && back[0] == keys[j];
      assert multiset(keys) == multiset(front) + multiset(back);
      assert keys[i] in keys && keys[i] in multiset(front) && keys[j] in multiset(back);
    }
  }

  method Withdrawals(previous: map<string, HoldEvent>, current: map<string, HoldEvent>)
    returns (updates: seq<HoldEvent>)
    requires WellKeyed(previous)
    ensures IsWithdrawals(previous, current, Projection(updates)) && OncePerKey(updates)
  {
    var keys := GoneKeys(previous, current);
    updates := [];
    for i := 0 to |keys|
      invariant OncePerKey(updates)
      invariant forall k :: k in Projection(updates) <==> k in keys[..i]
      invariant forall k :: k in Projection(updates) ==>
                  k in previous && Projection(updates)[k] == Withdrawn(previous[k])
    {
      var key := keys[i];
      assert key in keys && key !in keys[..i];
      assert keys[..i + 1] == keys[..i] + [key];
      Extend(updates, Withdrawn(previous[key]));
      updates := updates + [Withdrawn(previous[key])];
    }
    assert keys[..|keys|] == keys;
  }

  lemma {:induction false} ApplyAll(held: map<string, HoldEvent>, a: seq<HoldEvent>, b: seq<HoldEvent>)
    ensures Apply(held, a + b) == Apply(Apply(held, a), b)
  {
    if b == [] {
      assert a + b == a;
    } else {
      assert (a + b)[..|a + b| - 1] == a + b[..|b| - 1];
      ApplyAll(held, a, b[..|b| - 1]);
    }
  }

  // ---- Runs ------------------------------------------------------------------------------------------

  /** One publication for an airport: whether writeback is enabled, the current projection and the keys that are due. */
  datatype Publication = Publication(enabled: bool, current: map<string, HoldEvent>, due: set<string>)

  /** The publisher's cursor, what the receiver holds, and the keys whose ownership was given up by disabling. */
  datatype Feed = Feed(cursor: map<string, HoldEvent>, held: map<string, HoldEvent>, orphans: set<string>)

  ghost function Next(f: Feed, p: Publication): Feed {
    if !p.enabled then Feed(map[], f.held, f.orphans + f.cursor.Keys)
    else Feed(p.current, f.held + Delta(f.cursor, p.current, p.due), f.orphans - p.current.Keys)
  }

  ghost function Run(f: Feed, ps: seq<Publication>): Feed {
    if ps == [] then f else Next(Run(f, ps[..|ps| - 1]), ps[|ps| - 1])
  }

  /** The receiver holds the cursor's projection; any other estimate it holds is empty or was left behind by
      disabling. */
  ghost predicate InStep(f: Feed) {
    && (forall k :: k in f.cursor ==> k in f.held && f.held[k] == f.cursor[k])
    && (forall k :: k in f.held && k !in f.cursor && k !in f.orphans ==> f.held[k].eat == "")
  }

  lemma NextIsInStep(f: Feed, p: Publication)
    requires InStep(f)
    ensures InStep(Next(f, p))
  {
  }

  lemma {:induction false} StayInStep(ps: seq<Publication>)
    ensures InStep(Run(Feed(map[], map[], {}), ps))
    ensures (forall p :: p in ps ==> p.enabled) ==> Run(Feed(map[], map[], {}), ps).orphans == {}
  {
    if ps != [] {
      var n := |ps| - 1;
      StayInStep(ps[..n]);
      NextIsInStep(Run(Feed(map[], map[], {}), ps[..n]), ps[n]);
      assert ps == ps[..n] + [ps[n]];
    }
  }

  /** Over any run with writeback enabled, a receiver that applies the updates in order holds exactly the current
      projection, and everything else it ever received has an empty estimate. */
  lemma {:induction false} ReceiverHoldsTheProjection(ps: seq<Publication>)
    requires ps != [] && forall p :: p in ps ==> p.enabled
    ensures var end, current := Run(Feed(map[], map[], {}), ps).held, ps[|ps| - 1].current;
            && (forall k :: k in current ==> k in end && end[k] == current[k])
            && (forall k :: k in end && k !in current ==> end[k].eat == "")
  {
    StayInStep(ps);
    assert ps[|ps| - 1] in ps;
  }

  /** Enabling writeback again sends the whole projection, and nothing but it. */
  lemma ReenablingResendsAll(f: Feed, off: Publication, on: Publication)
    requires !off.enabled && on.enabled
    ensures Delta(Next(f, off).cursor, on.current, on.due) == on.current
  {
  }

  /** Updates emitted by the publisher move a receiver as a run says. */
  lemma PublishingFeedsTheReceiver(f: Feed, p: Publication, updates: seq<HoldEvent>)
    requires p.enabled && Projection(updates) == Delta(f.cursor, p.current, p.due)
    ensures Apply(f.held, updates) == Next(f, p).held
  {
    ApplyIsMerge(f.held, updates);
  }

  // ---- What disabling leaves behind -----------------------------------------------------

  /** Every publication projects estimates that are not empty, as formatted times are. */
  ghost predicate HasEstimates(ps: seq<Publication>) {
    forall p, k :: p in ps && k in p.current ==> p.current[k].eat != ""
  }

  /** Off the projection, the receiver holds an estimate exactly for the orphans; everything current is held and is
      none. */
  ghost predicate OrphansAreExact(f: Feed) {
    && (forall k :: k in f.cursor ==>
          k in f.held && f.held[k] == f.cursor[k] && k !in f.orphans && f.cursor[k].eat != "")
    && (forall k :: k in f.orphans ==> k in f.held)
    && (forall k :: k in f.held && k !in f.cursor ==> (k in f.orphans <==> f.held[k].eat != ""))
  }

  lemma NextKeepsOrphansExact(f: Feed, p: Publication)
    requires OrphansAreExact(f) && forall k :: k in p.current ==> p.current[k].eat != ""
    ensures OrphansAreExact(Next(f, p))
  {
  }

  /** After any run an estimate outlives its projection exactly for the keys whose ownership disabling gave up and that
      were not projected since. */
  lemma {:induction false} OrphansAreWhatDisablingLeft(ps: seq<Publication>)
    requires HasEstimates(ps)
    ensures OrphansAreExact(Run(Feed(map[], map[], {}), ps))
  {
    if ps != [] {
      var init, p := ps[..|ps| - 1], ps[|ps| - 1];
      assert p in ps && forall q :: q in init ==> q in ps;
      OrphansAreWhatDisablingLeft(init);
      NextKeepsOrphansExact(Run(Feed(map[], map[], {}), init), p);
    }
  }

  /** An orphan keeps its estimate until its key is projected again, whatever is published meanwhile. */
  lemma {:induction false} OrphansStay(f: Feed, ps: seq<Publication>, k: string)
    requires k in f.orphans && k in f.held && k !in f.cursor
    requires forall p :: p in ps ==> k !in p.current
    ensures var end := Run(f, ps);
            k in end.orphans && k !in end.cursor && k in end.held && end.held[k] == f.held[k]
  {
    if ps != [] {
      var init, p := ps[..|ps| - 1], ps[|ps| - 1];
      assert p in ps && forall q :: q in init ==> q in ps;
      OrphansStay(f, init, k);
    }
  }

  /** Disabling writeback orphans everything that was projected: unless it is projected again, no later publication
      clears it, however many follow. */
  lemma DisablingOrphans(f: Feed, off: Publication, later: seq<Publication>, k: string)
    requires OrphansAreExact(f) && k in f.cursor && !off.enabled
    requires forall p :: p in later ==> k !in p.current
    ensures var end := Run(Next(f, off), later);
            k in end.orphans && k !in end.cursor && k in end.held && end.held[k] == f.cursor[k] && end.held[k].eat != ""
  {
    OrphansStay(Next(f, off), later, k);
  }

  // ---- What is collected ---------------------------------------------------------------------

  function EventOf(f: Flight): HoldEvent
    requires f.clearance.Some? && f.release.Some?
  {
    HoldEvent(f.callsign, f.clearance.value.hold, f.clearance.value.holdType, f.release.value)
  }

  /** The events are those of the holding flights; the suppressed ones carry their estimate already, so what is due is
      exactly what the clearance does not show yet. */
  lemma {:induction false} EventsAreOfHoldingFlights(flights: seq<Flight>, fixes: map<string, string>, suppress: bool,
                                                     e: HoldEvent)
    ensures e in Events(flights, fixes, suppress) <==>
              exists f ::
                f in flights && IsHolding(f, fixes) && e == EventOf(f)
                && (suppress ==> f.clearance.value.eat != e.eat)
  {
    if flights != [] {
      var init, last := flights[..|flights| - 1], flights[|flights| - 1];
      assert flights == init + [last];
      EventsAreOfHoldingFlights(init, fixes, suppress, e);
    }
  }

  /** A flight has a time to publish if it is cleared to a named enroute hold and still under way, its plan has a
      release time, it has selected a holding and is in no other stack, and the clearance names that holding's fix. */
  lemma HoldsWhen(f: Flight, fixes: map<string, string>)
    ensures IsHolding(f, fixes) <==>
            && f.clearance.Some? && f.clearance.value.hold != "" && f.clearance.value.holdType == "enroute"
            && !f.gone && f.release.Some? && f.selected.Some? && (f.stack == None || f.stack == f.selected)
            && f.selected.value in fixes && Upper(Trim(f.clearance.value.hold)) == Upper(fixes[f.selected.value])
  {
  }

  /** Updates are told apart by trimmed callsign, whatever its case. */
  lemma KeyIsTheCallsign(a: HoldEvent, b: HoldEvent)
    ensures KeyOf(a) == KeyOf(b) <==> Upper(Trim(a.callsign)) == Upper(Trim(b.callsign))
  {
    TokenIsUpperTrim(a.callsign);
    TokenIsUpperTrim(b.callsign);
  }
}
