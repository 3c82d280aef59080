/** What the vIFF push retry tracker does to one flight: the operations of
    backend/internal/cdm/viff_push_retry.go as steps on a value. An attempt is known by its ticket, which stands for
    the identity of the attempt object; `Tracker` uses the objects themselves, the run theorems use numbers. */
module Retry {
  import opened Text

  const SECOND := 1_000_000_000
  const RETRY_TIMEOUT := 300 * SECOND
  const LONGEST := 9223372036854775807

  /** What is sent to the network. `source` identifies the human command behind it, if there is one. */
  datatype Proposal = Proposal(source: Option<string>, sourceSet: bool, session: int,
                               authority: string, suspend: bool, params: string)

  /** Proposals are compared without their bookkeeping: the session, and whether the source was set. */
  predicate Same(a: Proposal, b: Proposal) {
    a.authority == b.authority && a.suspend == b.suspend && a.params == b.params && a.source == b.source
  }

  datatype Answer = Acknowledged | FeedPending | Failed

  /** `startedAt` is absent for a retry that is reserved but not yet prepared. */
  datatype Job<+T> = Job(ticket: T, state: Proposal, startedAt: Option<int>, notBefore: Option<int>, refresh: bool)

  datatype Flight<+T> = Flight(job: Option<Job<T>>, confirmed: Option<Proposal>, exhausted: Option<Proposal>,
                               pending: Option<Proposal>, failures: nat, failureSince: Option<int>, refresh: bool)

  /** One flight key of the tracker: whether its session was removed, and its entry. */
  datatype Slot<+T> = Slot(removed: bool, flight: Option<Flight<T>>)

  datatype Event<+T> =
    | Begin(state: Proposal)
    | Prepare(ticket: T)
    | RequireRefresh
    | Refresh(ticket: T, payload: Proposal)
    | Complete(ticket: T, answer: Answer)
    | ConfirmExport(confirmed: Option<Proposal>)
    | Discard(ticket: T)
    | RemoveSession

  predicate IsLive<T(==)>(s: Slot<T>, ticket: T) {
    s.flight.Some? && s.flight.value.job.Some? && s.flight.value.job.value.ticket == ticket
  }

  predicate SameAs(a: Option<Proposal>, b: Proposal) {
    a.Some? && Same(a.value, b)
  }

  function EntryOf<T>(s: Slot<T>): Flight<T> {
    match s.flight
    case Some(f) => f
    case None => Flight(None, None, None, None, 0, None, false)
  }

  function Begun<T>(f: Flight<T>, state: Proposal, now: int, unused: T): Flight<T> {
    if f.job.Some? then f.(pending := Some(state))
    else if SameAs(f.confirmed, state) || SameAs(f.exhausted, state) then f
    else
      var g := if f.exhausted.Some? then f.(exhausted := None, failures := 0, failureSince := None) else f;
      g.(job := Some(Job(unused, state, Some(now), None, false)))
  }

  function Prepared<T>(f: Flight<T>, now: int, unused: T): Flight<T>
    requires f.job.Some?
  {
    var j := f.job.value;
    var state := if f.pending.Some? then f.pending.value else j.state;
    f.(job := Some(Job(unused, state, Some(now), j.notBefore, j.refresh || f.refresh)), pending := None,
       refresh := false)
  }

  function Refreshed<T>(f: Flight<T>, payload: Proposal, unused: T): Flight<T>
    requires f.job.Some?
  {
    f.(job := Some(f.job.value.(ticket := unused, state := payload)))
  }

  /** The proposal that the next attempt carries: a pending one replaces the one just tried. */
  function Newest<T>(f: Flight<T>): Proposal
    requires f.job.Some?
  {
    if f.pending.Some? then f.pending.value else f.job.value.state
  }

  function RetryDelay(failures: nat): int {
    if failures <= 1 then 5 * SECOND else if failures == 2 then 15 * SECOND else 30 * SECOND
  }

  /** How long a failure period has lasted; a period without a start counts as longer than any timeout. */
  function FailingFor(since: Option<int>, now: int): int {
    if since.Some? then now - since.value else LONGEST
  }

  function FailureStart<T>(f: Flight<T>): Option<int>
    requires f.job.Some?
  {
    if f.failureSince.Some? then f.failureSince else f.job.value.startedAt
  }

  function Min(a: int, b: int): int {
    if a <= b then a else b
  }

  function Succeeded<T>(f: Flight<T>, now: int, unused: T): Flight<T>
    requires f.job.Some?
  {
    var state := f.job.value.state;
    var g := f.(job := None, pending := None, confirmed := Some(state), failures := 0, failureSince := None,
                exhausted := None);
    if f.pending.None? || Same(f.pending.value, state) then g
    else g.(job := Some(Job(unused, f.pending.value, None, Some(now), true)))
  }

  predicate Changes<T>(f: Flight<T>)
    requires f.job.Some?
  {
    f.pending.Some? && !Same(f.pending.value, f.job.value.state)
  }

  function Failing<T>(f: Flight<T>, now: int, unused: T): Flight<T>
    requires f.job.Some?
  {
    var since := FailureStart(f);
    var left := RETRY_TIMEOUT - FailingFor(since, now);
    var g := f.(job := None, pending := None, failures := f.failures + 1, failureSince := since);
    if left <= 0 then g.(exhausted := Some(Newest(f)))
    else
      var delay := Min(if Changes(f) then 0 else RetryDelay(f.failures + 1), left);
      var state := if Changes(f) then f.pending.value else f.job.value.state;
      g.(job := Some(Job(unused, state, None, Some(now + delay), true)))
  }

  /** One operation on the flight. `unused` is the ticket of the attempt that the operation creates, if it creates
      one. */
  function Step<T(==)>(s: Slot<T>, ev: Event<T>, now: int, unused: T): Slot<T> {
    match ev
    case Begin(state) => if s.removed then s else s.(flight := Some(Begun(EntryOf(s), state, now, unused)))
    case Prepare(t) => if IsLive(s, t) then s.(flight := Some(Prepared(s.flight.value, now, unused))) else s
    case RequireRefresh =>
      if s.flight.Some? && s.flight.value.job.Some? then s.(flight := Some(s.flight.value.(refresh := true))) else s
    case Refresh(t, payload) =>
      if IsLive(s, t) then s.(flight := Some(Refreshed(s.flight.value, payload, unused))) else s
    case Complete(t, answer) =>
      if !IsLive(s, t) then s
      else if answer.Acknowledged? then s.(flight := Some(Succeeded(s.flight.value, now, unused)))
      else s.(flight := Some(Failing(s.flight.value, now, unused)))
    case ConfirmExport(confirmed) =>
      if s.removed then s else s.(flight := Some(Flight(None, confirmed, None, None, 0, None, false)))
    case Discard(t) => if IsLive(s, t) then s.(flight := None) else s
    case RemoveSession => Slot(true, None)
  }

  // ---- Runs: every interleaving of the operations on one flight --------------------------

  datatype Timed = Timed(event: Event<nat>, now: int)

  /** A run's state: the slot, the first unused ticket, and the newest proposal that still has to be accounted for. A
      proposal counts from its `begin`; a refresh replaces the one about to be sent by the persisted payload; and
      confirming an export, discarding the live attempt or removing the session supersedes it. */
  datatype History = History(slot: Slot<nat>, next: nat, newest: Option<Proposal>)

  const START := History(Slot(false, None), 0, None)

  function NewestAfter(h: History, ev: Event<nat>): Option<Proposal> {
    match ev
    case Begin(state) => if h.slot.removed then h.newest else Some(state)
    case Refresh(t, payload) =>
      if IsLive(h.slot, t) && h.slot.flight.value.pending.None? && h.newest.Some? then Some(payload) else h.newest
    case ConfirmExport(_) => if h.slot.removed then h.newest else None
    case Discard(t) => if IsLive(h.slot, t) then None else h.newest
    case RemoveSession => None
    case _ => h.newest
  }

  function Advance(h: History, e: Timed): History {
    History(Step(h.slot, e.event, e.now, h.next), h.next + 1, NewestAfter(h, e.event))
  }

  function Play(h: History, events: seq<Timed>): History {
    if events == [] then h else Advance(Play(h, events[..|events| - 1]), events[|events| - 1])
  }

  predicate AccountedFor<T>(f: Flight<T>, p: Proposal) {
    || f.pending == Some(p)
    || (f.pending.None? && f.job.Some? && Same(f.job.value.state, p))
    || (f.job.None? && (SameAs(f.confirmed, p) || SameAs(f.exhausted, p)))
  }

  /** Only a flight with an attempt in flight has a proposal pending, tickets are used once, and the newest proposal
      is accounted for. */
  ghost predicate Sound(h: History) {
    && (h.newest.Some? ==> h.slot.flight.Some? && AccountedFor(h.slot.flight.value, h.newest.value))
    && (h.slot.removed ==> h.slot.flight.None?)
    && (h.slot.flight.Some? ==>
          && (h.slot.flight.value.job.None? ==> h.slot.flight.value.pending.None?)
          && (h.slot.flight.value.job.Some? ==> h.slot.flight.value.job.value.ticket < h.next))
  }

  lemma AdvanceIsSound(h: History, e: Timed)
    requires Sound(h)
    ensures Sound(Advance(h, e))
  {
  }

  /** After any run the newest proposal since the last supersession is pending, in flight, confirmed or given up on,
      and nothing is pending unless something is in flight. */
  lemma {:induction false} NoProposalIsLost(events: seq<Timed>)
    ensures Sound(Play(START, events))
  {
    if events != [] {
      NoProposalIsLost(events[..|events| - 1]);
      AdvanceIsSound(Play(START, events[..|events| - 1]), events[|events| - 1]);
    }
  }

  /** A superseded attempt never becomes live again. */
  lemma {:induction false} StaleStaysStale(h: History, events: seq<Timed>, t: nat)
    requires t < h.next && !IsLive(h.slot, t)
    ensures !IsLive(Play(h, events).slot, t) && t < Play(h, events).next
  {
    if events != [] {
      StaleStaysStale(h, events[..|events| - 1], t);
    }
  }

  predicate Names(ev: Event<nat>, t: nat) {
    (ev.Prepare? || ev.Refresh? || ev.Complete? || ev.Discard?) && ev.ticket == t
  }

  /** From the moment an attempt is superseded, its worker changes nothing any more: in every run that follows, each
      call that names the attempt leaves the flight as it found it. */
  lemma StaleWorkerChangesNothing(h: History, events: seq<Timed>, t: nat, n: nat)
    requires t < h.next && !IsLive(h.slot, t) && n < |events| && Names(events[n].event, t)
    ensures Play(h, events[..n + 1]).slot == Play(h, events[..n]).slot
  {
    StaleStaysStale(h, events[..n], t);
    assert events[..n + 1][..n] == events[..n];
  }

  // ---- One failure period ---------------------------------------------------------------------

  /** What a worker obeys: time does not run backwards, it waits for `notBefore`, it prepares a reserved attempt once,
      and it completes only what it prepared. */
  predicate Disciplined(s: Slot<nat>, clock: int, e: Timed) {
    && clock <= e.now
    && ((e.event.Prepare? || e.event.Complete?) && IsLive(s, e.event.ticket) ==>
          var j := s.flight.value.job.value;
          if e.event.Complete? then j.startedAt.Some?
          else j.notBefore.Some? ==> j.notBefore.value <= e.now && j.startedAt.None?)
  }

  /** The failure period a flight is in: the last time seen, the retries that a changed proposal made immediate, the
      proposals queued since the period's first attempt started, and the attempts started at or past the deadline. */
  datatype Period = Period(clock: int, changed: nat, queued: nat, late: nat)

  function CountPending<T>(f: Flight<T>): nat {
    if f.pending.Some? then 1 else 0
  }

  function CountLate<T>(f: Flight<T>, now: int): nat {
    if f.failureSince.Some? && now >= f.failureSince.value + RETRY_TIMEOUT then 1 else 0
  }

  function NextPeriod(p: Period, s: Slot<nat>, e: Timed): Period {
    var q := p.(clock := e.now);
    if s.flight.None? then Period(e.now, 0, 0, 0)
    else
      var f := s.flight.value;
      match e.event
      case Begin(_) => if f.job.Some? then q.(queued := q.queued + 1) else Period(e.now, 0, 0, 0)
      case Prepare(t) =>
        if !IsLive(s, t) then q
        else if f.failureSince.None? then Period(e.now, 0, 0, 0)
        else q.(late := q.late + CountLate(f, e.now))
      case Complete(t, answer) =>
        if !IsLive(s, t) then q
        else if answer.Acknowledged? then Period(e.now, 0, 0, 0)
        else q.(changed := q.changed + if Changes(f) then 1 else 0)
      case _ => q
  }

  /** How much time `n` failures with their full delays take at least. */
  function Elapsed(n: int): int {
    if n <= 0 then 0 else if n == 1 then 5 * SECOND else (20 + 30 * (n - 2)) * SECOND
  }

  /** The attempt in flight waits at least as long as the unhurried failures so far require, and never beyond the
      deadline. */
  ghost predicate Paced(f: Flight<nat>, p: Period) {
    && (f.failures > 0 <==> f.failureSince.Some?)
    && (f.job.None? ==> f.pending.None? && (f.failures == 0 || f.exhausted.Some?))
    && (f.job.Some? ==> f.job.value.startedAt.Some? ==> f.job.value.startedAt.value <= p.clock)
    && (f.job.Some? ==> p.changed + CountPending(f) <= p.queued)
    && (f.job.Some? ==> if f.failures == 0 then p.changed == 0 && p.late == 0 else Timely(f, f.job.value, p))
  }

  ghost predicate Timely(f: Flight<nat>, j: Job<nat>, p: Period)
    requires f.failureSince.Some?
  {
    var since := f.failureSince.value;
    var from := since + Min(RETRY_TIMEOUT, Elapsed(f.failures - p.changed));
    && since <= p.clock && f.failures <= 12 + p.changed
    && j.notBefore.Some? && from <= j.notBefore.value <= since + RETRY_TIMEOUT
    && (j.startedAt.Some? ==> from <= j.startedAt.value)
    && p.late <= 1 && (p.late == 1 ==> j.startedAt.Some? && j.startedAt.value >= since + RETRY_TIMEOUT)
  }

  ghost predicate PacedSlot(s: Slot<nat>, p: Period) {
    s.flight.Some? ==> Paced(s.flight.value, p)
  }

  lemma FailureKeepsPace(f: Flight<nat>, p: Period, now: int, unused: nat)
    requires Paced(f, p) && f.job.Some? && f.job.value.startedAt.Some? && p.clock <= now
    ensures Paced(Failing(f, now, unused), Period(now, p.changed + if Changes(f) then 1 else 0, p.queued, p.late))
  {
    var changed := p.changed + if Changes(f) then 1 else 0;
    var before, after := f.failures - p.changed, f.failures + 1 - changed;
    assert Elapsed(after) <= Elapsed(before) + if Changes(f) then 0 else RetryDelay(f.failures + 1);
    if FailingFor(FailureStart(f), now) < RETRY_TIMEOUT {
      assert Elapsed(before) < RETRY_TIMEOUT;
      assert before <= 11;
    }
  }

  lemma BeginKeepsPace(f: Flight<nat>, p: Period, state: Proposal, now: int, unused: nat)
    requires Paced(f, p) && p.clock <= now
    ensures Paced(Begun(f, state, now, unused),
                  if f.job.Some? then p.(clock := now, queued := p.queued + 1) else Period(now, 0, 0, 0))
  {
  }

  lemma PrepareKeepsPace(f: Flight<nat>, p: Period, now: int, unused: nat)
    requires Paced(f, p) && f.job.Some? && p.clock <= now
    requires var j := f.job.value; j.notBefore.Some? ==> j.notBefore.value <= now && j.startedAt.None?
    ensures Paced(Prepared(f, now, unused),
                  if f.failureSince.None? then Period(now, 0, 0, 0)
                  else p.(clock := now, late := p.late + CountLate(f, now)))
  {
  }

  lemma RefreshKeepsPace(f: Flight<nat>, p: Period, payload: Proposal, now: int, unused: nat)
    requires Paced(f, p) && f.job.Some? && p.clock <= now
    ensures Paced(Refreshed(f, payload, unused), p.(clock := now)) && Paced(f.(refresh := true), p.(clock := now))
  {
  }

  lemma TimePasses(f: Flight<nat>, p: Period, now: int)
    requires Paced(f, p) && p.clock <= now
    ensures Paced(f, p.(clock := now))
  {
  }

  lemma OthersKeepPace(s: Slot<nat>, p: Period, e: Timed, unused: nat)
    requires PacedSlot(s, p) && p.clock <= e.now && !e.event.Begin? && !e.event.Prepare? && !e.event.Complete?
    ensures PacedSlot(Step(s, e.event, e.now, unused), NextPeriod(p, s, e))
  {
    if s.flight.Some? {
      var f := s.flight.value;
      TimePasses(f, p, e.now);
      if f.job.Some? {
        RefreshKeepsPace(f, p, if e.event.Refresh? then e.event.payload else f.job.value.state, e.now, unused);
      }
    }
  }

  lemma CompleteKeepsPace(s: Slot<nat>, p: Period, e: Timed, unused: nat)
    requires PacedSlot(s, p) && Disciplined(s, p.clock, e) && e.event.Complete?
    ensures PacedSlot(Step(s, e.event, e.now, unused), NextPeriod(p, s, e))
  {
    if IsLive(s, e.event.ticket) && !e.event.answer.Acknowledged? {
      FailureKeepsPace(s.flight.value, p, e.now, unused);
    }
  }

  lemma QueueKeepsPace(s: Slot<nat>, p: Period, e: Timed, unused: nat)
    requires PacedSlot(s, p) && Disciplined(s, p.clock, e) && (e.event.Begin? || e.event.Prepare?)
    ensures PacedSlot(Step(s, e.event, e.now, unused), NextPeriod(p, s, e))
  {
    if s.flight.Some? {
      if e.event.Begin? {
        BeginKeepsPace(s.flight.value, p, e.event.state, e.now, unused);
      } else if IsLive(s, e.event.ticket) {
        PrepareKeepsPace(s.flight.value, p, e.now, unused);
      }
    }
  }

  lemma StepKeepsPace(s: Slot<nat>, p: Period, e: Timed, unused: nat)
    requires PacedSlot(s, p) && Disciplined(s, p.clock, e)
    ensures PacedSlot(Step(s, e.event, e.now, unused), NextPeriod(p, s, e))
  {
    if e.event.Complete? {
      CompleteKeepsPace(s, p, e, unused);
    } else if e.event.Begin? || e.event.Prepare? {
      QueueKeepsPace(s, p, e, unused);
    } else {
      OthersKeepPace(s, p, e, unused);
    }
  }

  function Follow(events: seq<Timed>, from: int): Period {
    if events == [] then Period(from, 0, 0, 0)
    else
      var n := |events| - 1;
      NextPeriod(Follow(events[..n], from), Play(START, events[..n]).slot, events[n])
  }

  ghost predicate AllDisciplined(events: seq<Timed>, from: int) {
    forall n | 0 <= n < |events| ::
      Disciplined(Play(START, events[..n]).slot, Follow(events[..n], from).clock, events[n])
  }

  lemma {:induction false} RunKeepsPace(events: seq<Timed>, from: int)
    requires AllDisciplined(events, from)
    ensures PacedSlot(Play(START, events).slot, Follow(events, from))
  {
    if events != [] {
      var n := |events| - 1;
      var init := events[..n];
      forall k | 0 <= k < n
        ensures Disciplined(Play(START, init[..k]).slot, Follow(init[..k], from).clock, init[k])
      {
        assert init[..k] == events[..k];
      }
      RunKeepsPace(init, from);
      StepKeepsPace(Play(START, init).slot, Follow(init, from), events[n], Play(START, init).next);
    }
  }

  /** However calls interleave, the attempts of one failure period, with the one reserved next, number at most
      thirteen plus the proposals queued meanwhile; the next one waits at most until five minutes after the first
      failing attempt started; and at most one starts at or past that deadline. */
  lemma FailurePeriodIsBounded(events: seq<Timed>, from: int)
    requires AllDisciplined(events, from)
    requires var s := Play(START, events).slot;
             s.flight.Some? && s.flight.value.job.Some? && s.flight.value.failures > 0
    ensures var f, p := Play(START, events).slot.flight.value, Follow(events, from);
            && f.failures + 1 <= 13 + p.changed <= 13 + p.queued
            && f.failureSince.Some? && f.job.value.notBefore.Some?
            && f.job.value.notBefore.value <= f.failureSince.value + RETRY_TIMEOUT
            && p.late <= 1
  {
    RunKeepsPace(events, from);
  }

  /** A failed attempt is the period's last exactly when it ends at or past the deadline; what it or the queue held
      is then given up on and remembered. */
  lemma GivesUpAtTheDeadline(f: Flight<nat>, p: Period, now: int, unused: nat)
    requires Paced(f, p) && f.job.Some? && f.job.value.startedAt.Some? && p.clock <= now
    ensures var g := Failing(f, now, unused);
            && g.failureSince.Some? && (g.job.None? <==> now >= g.failureSince.value + RETRY_TIMEOUT)
            && (g.job.None? ==> g.exhausted == Some(Newest(f)))
            && (p.late == 1 ==> g.job.None?)
  {
  }
}
