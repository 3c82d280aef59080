/** The push retry tracker as the objects it is made of: a map of entries that its methods update in place, and attempt
    objects whose identity decides whether a worker's call still counts. Each method is one step of module `Retry`. */
module Tracker {
  import opened Text
  import opened Retry

  datatype Key = Key(session: int, callsign: string)

  /** An attempt never changes; a worker that goes on gets a new one. */
  class Attempt {
    const key: Key
    const entry: Entry
    const state: Proposal
    const startedAt: Option<int>
    const notBefore: Option<int>
    const refreshRequired: bool

    constructor (key: Key, entry: Entry, state: Proposal, startedAt: Option<int>, notBefore: Option<int>,
                 refreshRequired: bool)
      ensures this.key == key && this.entry == entry
              && AsJob() == Job(this, state, startedAt, notBefore, refreshRequired)
    {
      this.key, this.entry, this.state := key, entry, state;
      this.startedAt, this.notBefore, this.refreshRequired := startedAt, notBefore, refreshRequired;
    }

    ghost function AsJob(): Job<Attempt> {
      Job(this, state, startedAt, notBefore, refreshRequired)
    }
  }

  datatype Verdict = Verdict(next: Attempt?, warn: bool, failingFor: int, failures: nat)

  const IGNORED := Verdict(null, false, 0, 0)

  class Entry {
    const session: int
    var inFlight: Attempt?
    var confirmed: Option<Proposal>
    var exhausted: Option<Proposal>
    var pending: Option<Proposal>
    var failures: nat
    var failureSince: Option<int>
    var refreshRequired: bool

    constructor (session: int, confirmed: Option<Proposal>)
      ensures this.session == session && inFlight == null
      ensures AsFlight() == Flight(None, confirmed, None, None, 0, None, false)
    {
      this.session, this.confirmed := session, confirmed;
      inFlight, exhausted, pending, failures, failureSince, refreshRequired := null, None, None, 0, None, false;
    }

    ghost function AsFlight(): Flight<Attempt>
      reads this
    {
      Flight(if inFlight == null then None else Some(inFlight.AsJob()), confirmed, exhausted, pending, failures,
             failureSince, refreshRequired)
    }

    /** The attempt in flight belongs to this entry and to the key that the entry is found under. */
    ghost predicate Owns(key: Key)
      reads this
    {
      inFlight != null ==> inFlight.entry == this && inFlight.key == key
    }

    method Begin(key: Key, state: Proposal, now: int) returns (attempt: Attempt?)
      requires Owns(key)
      modifies this
      ensures Owns(key)
      ensures attempt != null ==>
                fresh(attempt) && inFlight == attempt && AsFlight() == Begun(old(AsFlight()), state, now, attempt)
      ensures attempt == null ==> forall any: Attempt :: AsFlight() == Begun(old(AsFlight()), state, now, any)
    {
      if inFlight != null {
        pending := Some(state);
        return null;
      }
      if confirmed.Some? && Same(confirmed.value, state) {
        return null;
      }
      if exhausted.Some? {
        if Same(exhausted.value, state) {
          return null;
        }
        exhausted, failures, failureSince := None, 0, None;
      }
      attempt := new Attempt(key, this, state, Some(now), None, false);
      inFlight := attempt;
    }

    method Prepare(attempt: Attempt, now: int) returns (next: Attempt)
      requires inFlight == attempt && Owns(attempt.key)
      modifies this
      ensures Owns(attempt.key) && fresh(next) && inFlight == next && next.key == attempt.key
      ensures AsFlight() == Prepared(old(AsFlight()), now, next)
    {
      var state := attempt.state;
      if pending.Some? {
        state := pending.value;
      }
      next := new Attempt(attempt.key, attempt.entry, state, Some(now), attempt.notBefore,
                          attempt.refreshRequired || refreshRequired);
      refreshRequired, pending, inFlight := false, None, next;
    }

    method Refresh(attempt: Attempt, payload: Proposal) returns (next: Attempt)
      requires inFlight == attempt && Owns(attempt.key)
      modifies this
      ensures Owns(attempt.key) && fresh(next) && inFlight == next && next.key == attempt.key
      ensures AsFlight() == Refreshed(old(AsFlight()), payload, next)
    {
      next := new Attempt(attempt.key, attempt.entry, payload, attempt.startedAt, attempt.notBefore,
                          attempt.refreshRequired);
      inFlight := next;
    }

    /** The attempt reserved for the next request, in flight from now on. */
    method Reserve(key: Key, state: Proposal, notBefore: int) returns (next: Attempt)
      modifies this`inFlight
      ensures Owns(key) && fresh(next) && inFlight == next && next.key == key
      ensures AsFlight() == old(AsFlight()).(job := Some(Job(next, state, None, Some(notBefore), true)))
    {
      next := new Attempt(key, this, state, None, Some(notBefore), true);
      inFlight := next;
    }

    method Succeed(attempt: Attempt, now: int) returns (verdict: Verdict)
      requires inFlight == attempt && Owns(attempt.key)
      modifies this
      ensures Owns(attempt.key) && inFlight == verdict.next
      ensures verdict.next != null ==>
                fresh(verdict.next) && AsFlight() == Succeeded(old(AsFlight()), now, verdict.next)
      ensures verdict.next == null ==> forall any: Attempt :: AsFlight() == Succeeded(old(AsFlight()), now, any)
      ensures verdict == Verdict(verdict.next, false, 0, 0)
    {
      var queued := pending;
      inFlight, pending := null, None;
      confirmed, failures, failureSince, exhausted := Some(attempt.state), 0, None, None;
      if queued.None? || Same(queued.value, attempt.state) {
        return IGNORED;
      }
      var next := Reserve(attempt.key, queued.value, now);
      verdict := Verdict(next, false, 0, 0);
    }

    method Fail(attempt: Attempt, lag: bool, now: int) returns (verdict: Verdict)
      requires inFlight == attempt && Owns(attempt.key)
      modifies this
      ensures Owns(attempt.key) && inFlight == verdict.next
      ensures verdict.next != null ==> fresh(verdict.next) && AsFlight() == Failing(old(AsFlight()), now, verdict.next)
      ensures verdict.next == null ==> forall any: Attempt :: AsFlight() == Failing(old(AsFlight()), now, any)
      ensures verdict.failures == failures && verdict.failingFor == FailingFor(failureSince, now)
      ensures verdict.warn <==> !lag || verdict.next == null
    {
      var queued := pending;
      inFlight, pending := null, None;
      if failureSince.None? {
        failureSince := attempt.startedAt;
      }
      failures := failures + 1;
      var failingFor := FailingFor(failureSince, now);
      var state := attempt.state;
      if failingFor >= RETRY_TIMEOUT {
        if queued.Some? {
          state := queued.value;
        }
        exhausted := Some(state);
        return Verdict(null, true, failingFor, failures);
      }
      var delay := RetryDelay(failures);
      if queued.Some? && !Same(queued.value, state) {
        state, delay := queued.value, 0;
      }
      var next := Reserve(attempt.key, state, now + Min(delay, RETRY_TIMEOUT - failingFor));
      verdict := Verdict(next, !lag, failingFor, failures);
    }
  }

  class Retries {
    var entries: map<Key, Entry>
    var removed: set<int>

    /** Every key has its own entry, of its own session, which was not removed. */
    ghost predicate Valid()
      reads this, entries.Values
    {
      && (forall k, l :: k in entries && l in entries && k != l ==> entries[k] != entries[l])
      && (forall k :: k in entries ==> entries[k].session == k.session && k.session !in removed && entries[k].Owns(k))
    }

    /** What the tracker holds for one flight. */
    ghost function At(k: Key): Slot<Attempt>
      reads this, entries.Values
    {
      Slot(k.session in removed, if k in entries then Some(entries[k].AsFlight()) else None)
    }

    /** The call was this step at one key and changed no other flight. */
    twostate predicate Took(k: Key, ev: Event<Attempt>, now: int, new created: Attempt)
      reads this, entries.Values
    {
      && At(k) == Step(old(At(k)), ev, now, created)
      && Elsewhere(k)
    }

    twostate predicate Elsewhere(k: Key)
      reads this, entries.Values
    {
      forall l :: l != k ==> At(l) == old(At(l))
    }

    twostate predicate Untouched()
      reads this, entries.Values
    {
      forall k :: At(k) == old(At(k))
    }

    constructor ()
      ensures Valid() && forall k :: At(k) == Slot(false, None)
    {
      entries, removed := map[], {};
    }

    /** Whether an attempt is still the one in flight. */
    method IsCurrent(attempt: Attempt) returns (current: bool)
      requires Valid()
      ensures current == IsLive(At(attempt.key), attempt)
      ensures current ==>
                attempt.key in entries && entries[attempt.key] == attempt.entry && attempt.entry.inFlight == attempt
    {
      current := attempt.key in entries && entries[attempt.key] == attempt.entry && attempt.entry.inFlight == attempt;
    }

    method Begin(session: int, callsign: string, state: Proposal, now: int) returns (attempt: Attempt?)
      requires Valid()
      modifies this, entries.Values
      ensures Valid()
      ensures attempt != null ==> fresh(attempt) && Took(Key(session, callsign), Retry.Begin(state), now, attempt)
      ensures attempt != null ==> IsLive(At(Key(session, callsign)), attempt)
      ensures attempt == null ==> forall any: Attempt :: Took(Key(session, callsign), Retry.Begin(state), now, any)
    {
      if session in removed {
        return null;
      }
      var key := Key(session, callsign);
      if key !in entries {
        var created := new Entry(session, None);
        entries := entries[key := created];
      }
      ghost var before := entries[key].AsFlight();
      attempt := entries[key].Begin(key, state, now);
      assert before == EntryOf(old(At(key)));
      forall any: Attempt | attempt == null
        ensures Took(key, Retry.Begin(state), now, any)
      {
        assert entries[key].AsFlight() == Begun(before, state, now, any);
      }
    }

    method Prepare(attempt: Attempt, now: int) returns (next: Attempt?)
      requires Valid()
      modifies attempt.entry
      ensures Valid()
      ensures next == null <==> !old(IsLive(At(attempt.key), attempt))
      ensures next == null ==> Untouched()
      ensures next != null ==> fresh(next) && next.key == attempt.key && IsLive(At(attempt.key), next)
      ensures next != null ==> Took(attempt.key, Retry.Prepare(attempt), now, next)
    {
      var current := IsCurrent(attempt);
      if !current {
        return null;
      }
      next := attempt.entry.Prepare(attempt, now);
    }

    method RequireRefresh(session: int, callsign: string, ghost any: Attempt)
      requires Valid()
      modifies entries.Values
      ensures Valid() && Took(Key(session, callsign), Retry.RequireRefresh, 0, any)
    {
      var key := Key(session, callsign);
      if key in entries && entries[key].inFlight != null {
        entries[key].refreshRequired := true;
      }
    }

    method Refresh(attempt: Attempt, payload: Proposal) returns (next: Attempt?)
      requires Valid()
      modifies attempt.entry
      ensures Valid()
      ensures next == null <==> !old(IsLive(At(attempt.key), attempt))
      ensures next == null ==> Untouched()
      ensures next != null ==> fresh(next) && next.key == attempt.key && IsLive(At(attempt.key), next)
      ensures next != null ==> Took(attempt.key, Retry.Refresh(attempt, payload), 0, next)
    {
      var current := IsCurrent(attempt);
      if !current {
        return null;
      }
      next := attempt.entry.Refresh(attempt, payload);
    }

    /** What a completion reports, besides the step: whether it is worth a warning, and for how long and how often the
        flight has been failing. */
    method Complete(attempt: Attempt, answer: Answer, now: int) returns (verdict: Verdict)
      requires Valid()
      modifies attempt.entry
      ensures Valid()
      ensures !old(IsLive(At(attempt.key), attempt)) ==> Untouched() && verdict == IGNORED
      ensures verdict.next != null ==> fresh(verdict.next) && IsLive(At(attempt.key), verdict.next)
      ensures verdict.next != null ==> Took(attempt.key, Retry.Complete(attempt, answer), now, verdict.next)
      ensures verdict.next == null ==>
                forall any: Attempt :: Took(attempt.key, Retry.Complete(attempt, answer), now, any)
      ensures old(IsLive(At(attempt.key), attempt)) && !answer.Acknowledged? ==>
                && verdict.failures == EntryOf(At(attempt.key)).failures
                && verdict.failingFor == FailingFor(EntryOf(At(attempt.key)).failureSince, now)
                && (verdict.warn <==> answer.Failed? || verdict.next == null)
    {
      var current := IsCurrent(attempt);
      if !current {
        return IGNORED;
      }
      if answer.Acknowledged? {
        verdict := attempt.entry.Succeed(attempt, now);
      } else {
        verdict := attempt.entry.Fail(attempt, answer.FeedPending?, now);
      }
    }

    method ConfirmExport(session: int, callsign: string, confirmed: Option<Proposal>, ghost any: Attempt)
      requires Valid()
      modifies this
      ensures Valid() && Took(Key(session, callsign), Retry.ConfirmExport(confirmed), 0, any)
    {
      if session in removed {
        return;
      }
      var entry := new Entry(session, confirmed);
      entries := entries[Key(session, callsign) := entry];
    }

    method Discard(attempt: Attempt?, ghost any: Attempt)
      requires Valid()
      modifies this
      ensures Valid()
      ensures attempt != null ==> Took(attempt.key, Retry.Discard(attempt), 0, any)
      ensures attempt == null ==> Untouched()
    {
      if attempt == null {
        return;
      }
      var current := IsCurrent(attempt);
      if current {
        entries := entries - {attempt.key};
      }
    }

    method DropEntries(session: int)
      requires forall k :: k in entries ==> entries[k].session == k.session
      modifies this`entries
      ensures entries == old(entries) - set k | k in old(entries) && k.session == session
    {
      var todo := entries.Keys;
      while todo != {}
        invariant todo <= entries.Keys
        invariant entries == old(entries) - set k | k in old(entries) && k !in todo && k.session == session
        decreases |todo|
      {
        var key :| key in todo;
        if entries[key].session == session {
          entries := entries - {key};
        }
        todo := todo - {key};
      }
    }

    /** Every flight of the session is dropped and none of its flights is taken on again. */
    method RemoveSession(session: int, ghost any: Attempt)
      requires Valid()
      modifies this
      ensures Valid()
      ensures forall k :: At(k) == if k.session == session then Step(old(At(k)), Retry.RemoveSession, 0, any)
                                   else old(At(k))
    {
      removed := removed + {session};
      DropEntries(session);
    }
  }
}
