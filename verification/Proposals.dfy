/** What the retry tracker does with proposals, in terms of their fields and of clock times: which proposals count as
    the same, when an attempt starts, what the next one carries and how long it waits. */
module Proposals {
  import opened Text
  import opened Retry

  /** What of a proposal the network gets to see, and the command that it answers for. */
  function Content(p: Proposal): (string, bool, string, Option<string>) {
    (p.authority, p.suspend, p.params, p.source)
  }

  lemma SameMeansContent(a: Proposal, b: Proposal)
    ensures Same(a, b) <==> Content(a) == Content(b)
  {
  }

  /** The proposal that a flight carries: queued, else in flight, else the last confirmed or given up. */
  predicate Carries(f: Flight<nat>, q: Proposal) {
    match (f.pending, f.job)
    case (Some(p), _) => q == p
    case (None, Some(job)) => q == job.state
    case (None, None) => f.confirmed == Some(q) || f.exhausted == Some(q)
  }

  /** After any run the flight carries a proposal with the authority, suspend flag, parameters and source of the newest
      one. */
  lemma NewestIsCarried(events: seq<Timed>) returns (q: Proposal)
    requires Play(START, events).newest.Some?
    ensures var h := Play(START, events);
            && h.slot.flight.Some? && Carries(h.slot.flight.value, q)
            && q.authority == h.newest.value.authority && q.suspend == h.newest.value.suspend
            && q.params == h.newest.value.params && q.source == h.newest.value.source
  {
    NoProposalIsLost(events);
    var f, p := Play(START, events).slot.flight.value, Play(START, events).newest.value;
    q := if f.pending.Some? then f.pending.value
         else if f.job.Some? then f.job.value.state
         else if SameAs(f.confirmed, p) then f.confirmed.value else f.exhausted.value;
    SameMeansContent(q, p);
  }

  /** A proposal that differs from the one remembered, if there is one, in a field that counts. */
  predicate IsNews(remembered: Option<Proposal>, p: Proposal) {
    remembered.Some? ==>
      || remembered.value.authority != p.authority || remembered.value.suspend != p.suspend
      || remembered.value.params != p.params || remembered.value.source != p.source
  }

  /** With nothing in flight a proposal starts an attempt, at once and with itself, if and only if it is news compared
      both with the confirmed proposal and with the one given up, which is then forgotten together with its failures;
      with something in flight it waits its turn. */
  lemma BeginStartsExactlyWhen(s: Slot<nat>, p: Proposal, now: int, unused: nat)
    requires !s.removed
    ensures var f := if s.flight.Some? then s.flight.value else Flight(None, None, None, None, 0, None, false);
            var after := Step(s, Begin(p), now, unused);
            && after.flight.Some?
            && (f.job.None? ==>
                  (after.flight.value.job.Some? <==> IsNews(f.confirmed, p) && IsNews(f.exhausted, p)))
            && (f.job.None? && after.flight.value.job.Some? ==>
                  after.flight.value
                  == Flight(Some(Job(unused, p, Some(now), None, false)), f.confirmed, None, f.pending,
                            if f.exhausted.Some? then 0 else f.failures,
                            if f.exhausted.Some? then None else f.failureSince, f.refresh))
            && (f.job.None? && after.flight.value.job.None? ==> after.flight.value == f)
            && (f.job.Some? ==> after.flight.value == f.(pending := Some(p)))
  {
  }

  /** After an acknowledgement the queued proposal goes next, at once and to be reloaded, if and only if it is news
      compared with the one acknowledged. */
  lemma AcknowledgedThenNext(s: Slot<nat>, t: nat, now: int, unused: nat)
    requires IsLive(s, t)
    ensures var f := s.flight.value;
            var after := Step(s, Complete(t, Acknowledged), now, unused).flight;
            && after.Some? && after.value.confirmed == Some(f.job.value.state) && after.value.failures == 0
            && after.value.failureSince.None? && after.value.exhausted.None? && after.value.pending.None?
            && after.value.job == if f.pending.Some? && IsNews(Some(f.job.value.state), f.pending.value)
                                  then Some(Job(unused, f.pending.value, None, Some(now), true)) else None
  {
  }

  function AtMost(a: int, b: int): int {
    if b < a then b else a
  }

  /** After a failure within five minutes of the start of the first failing attempt, the next attempt carries the newest
      proposal and is to reload it. It may start at once if that is news, and otherwise 5, 15 or 30 seconds later, after
      the first, the second and any further failure; but never later than those five minutes allow. */
  lemma FailedThenNext(s: Slot<nat>, t: nat, answer: Answer, now: int, unused: nat)
    requires IsLive(s, t) && answer != Acknowledged
    requires s.flight.value.failureSince.Some? || s.flight.value.job.value.startedAt.Some?
    ensures var f := s.flight.value;
            var first := if f.failureSince.Some? then f.failureSince.value else f.job.value.startedAt.value;
            var news := f.pending.Some? && IsNews(Some(f.job.value.state), f.pending.value);
            var wait := if news then 0 else if f.failures == 0 then 5_000_000_000
                        else if f.failures == 1 then 15_000_000_000 else 30_000_000_000;
            var after := Step(s, Complete(t, answer), now, unused).flight;
            && after.Some? && after.value.confirmed == f.confirmed && after.value.failures == f.failures + 1
            && after.value.failureSince == Some(first) && after.value.pending.None?
            && (now - first < 300_000_000_000 ==>
                  after.value.exhausted == f.exhausted
                  && after.value.job == Some(Job(unused, if news then f.pending.value else f.job.value.state, None,
                                                 Some(AtMost(now + wait, first + 300_000_000_000)), true)))
            && (now - first >= 300_000_000_000 ==>
                  after.value.job.None?
                  && after.value.exhausted == Some(if f.pending.Some? then f.pending.value else f.job.value.state))
  {
  }

  /** Preparing an attempt takes over the queued proposal, starts it now and keeps the demand for a reload. */
  lemma PreparedTakesTheNewest(s: Slot<nat>, t: nat, now: int, unused: nat)
    requires IsLive(s, t)
    ensures var f := s.flight.value;
            var after := Step(s, Retry.Prepare(t), now, unused).flight;
            && after.Some? && after.value.pending.None? && !after.value.refresh
            && after.value.job == Some(Job(unused, if f.pending.Some? then f.pending.value else f.job.value.state,
                                           Some(now), f.job.value.notBefore, f.refresh || f.job.value.refresh))
            && after.value.failures == f.failures && after.value.failureSince == f.failureSince
            && after.value.confirmed == f.confirmed && after.value.exhausted == f.exhausted
  {
  }
}
