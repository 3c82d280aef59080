/** The export workers keep the tracker's time: the tracker calls of every run of the export protocol are one
    disciplined run of the retry tracker, so the bound on a failure period holds of the workers themselves. */
module Pace {
  import opened Text
  import opened Retry
  import opened Protocol

  /** The tracker call that a move makes, if it makes one. */
  function Emitted(s: System, m: Move): Option<Event<nat>> {
    match m
    case Propose(state) => Some(Begin(state))
    case Quit(w) => if w < |s.workers| && s.workers[w].Waiting? then Some(Discard(s.workers[w].ticket)) else None
    case Choose(w) =>
      if w < |s.workers| && s.workers[w].Locked? && IsLive(s.slot, s.workers[w].ticket) then
        Some(Prepare(s.workers[w].ticket))
      else None
    case Load(w, read) =>
      if w < |s.workers| && s.workers[w].Chosen? && s.workers[w].reload then EmittedByLoad(s, w, read) else None
    case Finish(w) =>
      if w < |s.workers| && s.workers[w].Answered? then Some(Complete(s.workers[w].ticket, s.workers[w].answer))
      else None
    case ReadyConfirm =>
      if s.gate.ByReady? && s.gate.ready.ReadyExported? then Some(ConfirmExport(s.gate.ready.confirmed)) else None
    case TobtMark => if s.gate == ByTobt(TobtWritten) then Some(RequireRefresh) else None
    case Remove => if s.cancelled then Some(RemoveSession) else None
    case _ => None
  }

  function EmittedByLoad(s: System, w: nat, read: Read): Option<Event<nat>>
    requires w < |s.workers| && s.workers[w].Chosen?
  {
    var t := s.workers[w].ticket;
    if read.ReadFailed? then None
    else if read.ReadRefused? || s.store.None? || s.store.value.readyPending || s.store.value.payload.None? then
      Some(Discard(t))
    else if !IsLive(s.slot, t) then None
    else Some(Refresh(t, s.store.value.payload.value))
  }

  lemma EmittedIsTheStep(s: System, m: Move)
    ensures match Emitted(s, m)
            case Some(ev) => Next(s, m).slot == Step(s.slot, ev, s.clock, s.next) && Next(s, m).next == s.next + 1
            case None => Next(s, m).slot == s.slot && Next(s, m).next == s.next
    ensures s.clock <= Next(s, m).clock
  {
  }

  /** The tracker calls of a run, in order and with their times. */
  function Calls(now: int, moves: seq<Move>): seq<Timed> {
    if moves == [] then []
    else
      var init, m := moves[..|moves| - 1], moves[|moves| - 1];
      var s := Moved(Initial(now), init);
      match Emitted(s, m)
      case Some(ev) => Calls(now, init) + [Timed(ev, s.clock)]
      case None => Calls(now, init)
  }

  /** A run of the protocol leaves the tracker as its own calls would. */
  lemma {:induction false} CallsRunTheTracker(now: int, moves: seq<Move>)
    ensures var h := Play(START, Calls(now, moves));
            h.slot == Moved(Initial(now), moves).slot && h.next == Moved(Initial(now), moves).next
  {
    if moves != [] {
      var init, m := moves[..|moves| - 1], moves[|moves| - 1];
      CallsRunTheTracker(now, init);
      var s, calls := Moved(Initial(now), init), Calls(now, init);
      EmittedIsTheStep(s, m);
      if Emitted(s, m).Some? {
        assert (calls + [Timed(Emitted(s, m).value, s.clock)])[..|calls|] == calls;
      }
    }
  }

  // ---- Workers obey the tracker's times -------------------------------------------------

  /** What a worker knows of its attempt, if that is live: while it waits, the time it waits for, which has come once it
      is inside; afterwards, that the attempt has started. */
  predicate IsPunctual(p: Worker, slot: Slot<nat>, clock: int) {
    !p.Done? && IsLive(slot, p.ticket) ==>
      var job := slot.flight.value.job.value;
      match p
      case Waiting(_, notBefore) => job.notBefore == notBefore && (notBefore.Some? ==> job.startedAt.None?)
      case Locked(_, notBefore) =>
        job.notBefore == notBefore && (notBefore.Some? ==> job.startedAt.None?) && IsDue(notBefore, clock)
      case _ => job.startedAt.Some?
  }

  ghost predicate AllPunctual(s: System) {
    forall w :: 0 <= w < |s.workers| ==> IsPunctual(s.workers[w], s.slot, s.clock)
  }

  lemma CallKeepsPunctual(p: Worker, slot: Slot<nat>, clock: int, ev: Event<nat>, at: int, unused: nat, later: int)
    requires IsPunctual(p, slot, clock) && (p.Done? || p.ticket < unused) && clock <= later
    ensures IsPunctual(p, Step(slot, ev, at, unused), later)
  {
  }

  lemma OthersStayPunctual(s: System, m: Move, p: Worker)
    requires IsPunctual(p, s.slot, s.clock) && (p.Done? || p.ticket < s.next)
    ensures IsPunctual(p, Next(s, m).slot, Next(s, m).clock)
  {
    EmittedIsTheStep(s, m);
    if Emitted(s, m).Some? {
      CallKeepsPunctual(p, s.slot, s.clock, Emitted(s, m).value, s.clock, s.next, Next(s, m).clock);
    }
  }

  lemma OwnEarlyMoveIsPunctual(s: System, m: Move)
    requires IsEarlyMove(m) && m.w < |s.workers| && Orderly(s) && IsPunctual(s.workers[m.w], s.slot, s.clock)
    ensures |Next(s, m).workers| == |s.workers|
    ensures IsPunctual(Next(s, m).workers[m.w], Next(s, m).slot, Next(s, m).clock)
  {
  }

  lemma OwnMoveIsPunctual(s: System, m: Move)
    requires IsWorkerMove(m) && m.w < |s.workers| && Orderly(s) && IsPunctual(s.workers[m.w], s.slot, s.clock)
    ensures |Next(s, m).workers| == |s.workers|
    ensures IsPunctual(Next(s, m).workers[m.w], Next(s, m).slot, Next(s, m).clock)
  {
    if IsEarlyMove(m) {
      OwnEarlyMoveIsPunctual(s, m);
    }
  }

  lemma ProposedIsPunctual(s: System, state: Proposal)
    requires Orderly(s) && |DoPropose(s, state).workers| > |s.workers|
    ensures var after := DoPropose(s, state);
            |after.workers| == |s.workers| + 1 && IsPunctual(after.workers[|s.workers|], after.slot, after.clock)
  {
  }

  lemma NextIsPunctual(s: System, m: Move)
    requires Orderly(s) && AllPunctual(s)
    ensures AllPunctual(Next(s, m))
  {
    var after := Next(s, m);
    MoveLeavesOthers(s, m);
    forall w | 0 <= w < |after.workers|
      ensures IsPunctual(after.workers[w], after.slot, after.clock)
    {
      if w >= |s.workers| {
        NewWorkersAreProposed(s, m);
        ProposedIsPunctual(s, m.state);
      } else if IsWorkerMove(m) && m.w == w {
        OwnMoveIsPunctual(s, m);
      } else {
        OthersStayPunctual(s, m, s.workers[w]);
      }
    }
  }

  lemma NewWorkersAreProposed(s: System, m: Move)
    requires |Next(s, m).workers| > |s.workers|
    ensures m.Propose?
  {
  }

  lemma {:induction false} RunsArePunctual(now: int, moves: seq<Move>)
    ensures AllPunctual(Moved(Initial(now), moves))
  {
    if moves != [] {
      var init := moves[..|moves| - 1];
      RunsArePunctual(now, init);
      OneWorkerPerAttempt(now, init);
      NextIsPunctual(Moved(Initial(now), init), moves[|moves| - 1]);
    }
  }

  lemma PunctualIsDisciplined(s: System, m: Move, clock: int)
    requires AllPunctual(s) && Emitted(s, m).Some? && clock <= s.clock
    ensures Disciplined(s.slot, clock, Timed(Emitted(s, m).value, s.clock))
  {
  }

  lemma {:induction false} FollowKeepsTime(now: int, moves: seq<Move>)
    ensures Follow(Calls(now, moves), now).clock <= Moved(Initial(now), moves).clock
  {
    if moves != [] {
      var init, m := moves[..|moves| - 1], moves[|moves| - 1];
      var s, calls := Moved(Initial(now), init), Calls(now, init);
      FollowKeepsTime(now, init);
      EmittedIsTheStep(s, m);
      if Emitted(s, m).Some? {
        assert (calls + [Timed(Emitted(s, m).value, s.clock)])[..|calls|] == calls;
      }
    }
  }

  lemma DisciplinedAppend(calls: seq<Timed>, from: int, e: Timed)
    requires AllDisciplined(calls, from)
    requires Disciplined(Play(START, calls).slot, Follow(calls, from).clock, e)
    ensures AllDisciplined(calls + [e], from)
  {
    var all := calls + [e];
    forall n | 0 <= n < |all|
      ensures Disciplined(Play(START, all[..n]).slot, Follow(all[..n], from).clock, all[n])
    {
      if n < |calls| {
        assert all[..n] == calls[..n] && all[n] == calls[n];
      } else {
        assert all[..n] == calls && all[n] == e;
      }
    }
  }

  /** The tracker calls of every interleaving obey the discipline that the tracker's bound rests on. */
  lemma {:induction false} CallsAreDisciplined(now: int, moves: seq<Move>)
    ensures AllDisciplined(Calls(now, moves), now)
  {
    if moves != [] {
      var init, m := moves[..|moves| - 1], moves[|moves| - 1];
      var s := Moved(Initial(now), init);
      CallsAreDisciplined(now, init);
      if Emitted(s, m).Some? {
        RunsArePunctual(now, init);
        CallsRunTheTracker(now, init);
        FollowKeepsTime(now, init);
        PunctualIsDisciplined(s, m, Follow(Calls(now, init), now).clock);
        DisciplinedAppend(Calls(now, init), now, Timed(Emitted(s, m).value, s.clock));
      }
    }
  }

  /** In every run of the workers and writers, a failure period has at most thirteen attempts, the reserved one
      included, plus the proposals queued meanwhile; the next attempt waits at most until five minutes after the first
      failing one started; and at most one attempt starts at or past that deadline. */
  lemma ExportFailureIsBounded(now: int, moves: seq<Move>)
    requires var s := Moved(Initial(now), moves).slot;
             s.flight.Some? && s.flight.value.job.Some? && s.flight.value.failures > 0
    ensures var f, p := Moved(Initial(now), moves).slot.flight.value, Follow(Calls(now, moves), now);
            && f.failures + 1 <= 13 + p.changed <= 13 + p.queued
            && f.failureSince.Some? && f.job.value.notBefore.Some?
            && f.job.value.notBefore.value <= f.failureSince.value + RETRY_TIMEOUT
            && p.late <= 1
  {
    CallsRunTheTracker(now, moves);
    CallsAreDisciplined(now, moves);
    FailurePeriodIsBounded(Calls(now, moves), now);
  }
}
