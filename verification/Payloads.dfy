/** What goes out to the network: every payload that a worker reloaded was in the store when it was read, and what the
    tracker confirms is what was sent. */
module Payloads {
  import opened Text
  import opened Retry
  import opened Protocol
  import opened Pace

  // ---- Reloaded payloads come from the store ------------------------------------------------

  /** At some point of the run, when `n` messages had gone out, the store held this payload for export. */
  ghost predicate WasStored(s: System, moves: seq<Move>, n: nat, payload: Proposal) {
    exists k | 0 <= k <= |moves| :: StoredAt(Moved(s, moves[..k]), n, payload)
  }

  predicate StoredAt(s: System, n: nat, payload: Proposal) {
    |s.log| == n && s.store == Some(Record(Some(payload), false))
  }

  ghost predicate NobodyLoaded(s: System) {
    forall w :: 0 <= w < |s.workers| ==> !s.workers[w].Loaded?
  }

  lemma LongerRun(s: System, init: seq<Move>, m: Move, n: nat, payload: Proposal)
    requires WasStored(s, init, n, payload)
    ensures WasStored(s, init + [m], n, payload)
  {
    var k :| 0 <= k <= |init| && StoredAt(Moved(s, init[..k]), n, payload);
    assert (init + [m])[..k] == init[..k];
  }

  lemma StoredNow(s: System, init: seq<Move>, m: Move, n: nat, payload: Proposal)
    requires StoredAt(Moved(s, init), n, payload)
    ensures WasStored(s, init + [m], n, payload)
  {
    assert (init + [m])[..|init|] == init;
  }

  /** A worker that holds a reloaded payload did so before, or has just read it. */
  lemma NextLoads(s: System, m: Move, w: nat)
    requires w < |Next(s, m).workers| && Next(s, m).workers[w].Loaded?
    ensures var p := Next(s, m).workers[w];
            || (w < |s.workers| && s.workers[w] == p)
            || (m == Load(w, ReadOk) && StoredAt(s, p.loadedAt, p.payload))
  {
    if IsWorkerMove(m) && m.w == w && w < |s.workers| {
      OwnMoveLoads(s, m);
    } else {
      MoveLeavesOthers(s, m);
      NewWorkersWait(s, m);
    }
  }

  lemma NewWorkersWait(s: System, m: Move)
    ensures forall w :: |s.workers| <= w < |Next(s, m).workers| ==> Next(s, m).workers[w].Waiting?
  {
  }

  lemma OwnMoveLoads(s: System, m: Move)
    requires IsWorkerMove(m) && m.w < |s.workers| == |Next(s, m).workers| && Next(s, m).workers[m.w].Loaded?
    ensures var p := Next(s, m).workers[m.w];
            s.workers[m.w] == p || (m == Load(m.w, ReadOk) && StoredAt(s, p.loadedAt, p.payload))
  {
  }

  /** A worker sends the payload it holds. */
  lemma NextSends(s: System, m: Move)
    requires |Next(s, m).log| > |s.log| && Next(s, m).log[|s.log|].FromWorker?
    ensures m.Send? && m.w < |s.workers|
    ensures var msg, p := Next(s, m).log[|s.log|], s.workers[m.w];
            && msg.id == m.w && (p.Chosen? || p.Loaded?) && msg.payload == p.payload
            && msg.loadedAt == (if p.Loaded? then Some(p.loadedAt) else None)
  {
  }

  ghost predicate AllWereStored(s: System, moves: seq<Move>, end: System) {
    && |s.log| <= |end.log|
    && (forall w :: 0 <= w < |end.workers| && end.workers[w].Loaded? ==>
          end.workers[w].loadedAt <= |end.log| && WasStored(s, moves, end.workers[w].loadedAt, end.workers[w].payload))
    && (forall i :: |s.log| <= i < |end.log| ==> IsFromStore(s, moves, end.log[i], i))
  }

  ghost predicate IsFromStore(s: System, moves: seq<Move>, msg: Message, i: nat) {
    msg.FromWorker? && msg.loadedAt.Some? ==>
      msg.loadedAt.value <= i && WasStored(s, moves, msg.loadedAt.value, msg.payload)
  }

  lemma NextWasStored(s: System, init: seq<Move>, m: Move)
    requires AllWereStored(s, init, Moved(s, init))
    ensures AllWereStored(s, init + [m], Next(Moved(s, init), m))
  {
    var now, after := Moved(s, init), Next(Moved(s, init), m);
    MoveLeavesOthers(now, m);
    forall w | 0 <= w < |after.workers| && after.workers[w].Loaded?
      ensures after.workers[w].loadedAt <= |after.log|
      ensures WasStored(s, init + [m], after.workers[w].loadedAt, after.workers[w].payload)
    {
      NextLoads(now, m, w);
      var p := after.workers[w];
      if w < |now.workers| && now.workers[w] == p {
        LongerRun(s, init, m, p.loadedAt, p.payload);
      } else {
        StoredNow(s, init, m, p.loadedAt, p.payload);
      }
    }
    forall i | |s.log| <= i < |after.log|
      ensures IsFromStore(s, init + [m], after.log[i], i)
    {
      if i < |now.log| {
        assert after.log[i] == now.log[i] && IsFromStore(s, init, now.log[i], i);
        if now.log[i].FromWorker? && now.log[i].loadedAt.Some? {
          LongerRun(s, init, m, now.log[i].loadedAt.value, now.log[i].payload);
        }
      } else if after.log[i].FromWorker? {
        NextSends(now, m);
        if now.workers[m.w].Loaded? {
          LongerRun(s, init, m, now.workers[m.w].loadedAt, now.workers[m.w].payload);
        }
      }
    }
  }

  lemma {:induction false} RunsSendWhatWasStored(s: System, moves: seq<Move>)
    requires NobodyLoaded(s)
    ensures AllWereStored(s, moves, Moved(s, moves))
  {
    if moves != [] {
      var init, m := moves[..|moves| - 1], moves[|moves| - 1];
      RunsSendWhatWasStored(s, init);
      NextWasStored(s, init, m);
      assert init + [m] == moves;
    }
  }

  /** In every run a payload that was sent as reloaded was in the store, not held back by a pending READY, at a point of
      the run before it was sent. */
  lemma ReloadedWasStored(now: int, moves: seq<Move>, i: nat)
    requires var log := Moved(Initial(now), moves).log;
             i < |log| && log[i].FromWorker? && log[i].loadedAt.Some?
    ensures var msg := Moved(Initial(now), moves).log[i];
            msg.loadedAt.value <= i && WasStored(Initial(now), moves, msg.loadedAt.value, msg.payload)
  {
    RunsSendWhatWasStored(Initial(now), moves);
  }

  /** After a TOBT-only write, whatever a worker begun before it sends was in the store at a point after the write had
      been marked, and before it was sent. */
  lemma TobtSendsWhatIsStored(now: int, before: seq<Move>, after: seq<Move>, i: nat)
    requires Moved(Initial(now), before).gate == ByTobt(TobtWritten)
    requires var s := Next(Moved(Initial(now), before), TobtMark);
             var log := Moved(s, after).log;
             |s.log| <= i < |log| && log[i].FromWorker? && log[i].id < |s.workers|
    ensures var s := Next(Moved(Initial(now), before), TobtMark);
            var msg := Moved(s, after).log[i];
            msg.loadedAt.Some? && msg.loadedAt.value <= i && WasStored(s, after, msg.loadedAt.value, msg.payload)
  {
    TobtForcesReload(now, before, after);
    OneWorkerPerAttempt(now, before);
    NobodyLoadsAtTheMark(Moved(Initial(now), before));
    var s := Next(Moved(Initial(now), before), TobtMark);
    RunsSendWhatWasStored(s, after);
    assert IsFromStore(s, after, Moved(s, after).log[i], i);
  }

  lemma NobodyLoadsAtTheMark(s: System)
    requires Orderly(s) && s.gate == ByTobt(TobtWritten)
    ensures NobodyLoaded(Next(s, TobtMark)) && Next(s, TobtMark).log == s.log
    ensures |Next(s, TobtMark).workers| == |s.workers|
  {
    assert forall w :: 0 <= w < |s.workers| ==> !Inside(s.workers[w]);
  }

  // ---- What is confirmed is what was sent --------------------------------------------------

  /** The payload that a worker sent last. */
  function LastSent(log: seq<Message>, w: nat): Option<Proposal> {
    if log == [] then None
    else
      var msg := log[|log| - 1];
      if msg.FromWorker? && msg.id == w then Some(msg.payload) else LastSent(log[..|log| - 1], w)
  }

  lemma LastSentAfter(log: seq<Message>, msg: Message, w: nat)
    ensures LastSent(log + [msg], w) == if msg.FromWorker? && msg.id == w then Some(msg.payload) else LastSent(log, w)
  {
    assert (log + [msg])[..|log|] == log;
  }

  function StateOf(slot: Slot<nat>, t: nat): Proposal
    requires IsLive(slot, t)
  {
    slot.flight.value.job.value.state
  }

  /** While its attempt is live, a worker is about to send what the tracker has in flight, or has sent just that if the
      network took it. */
  predicate Carries(p: Worker, w: nat, slot: Slot<nat>, log: seq<Message>) {
    match p
    case Chosen(t, payload, _) => IsLive(slot, t) ==> StateOf(slot, t) == payload
    case Loaded(t, payload, _) => IsLive(slot, t) ==> StateOf(slot, t) == payload
    case Answered(t, answer) => IsLive(slot, t) && answer != Failed ==> LastSent(log, w) == Some(StateOf(slot, t))
    case _ => true
  }

  /** A proposal that was sent by a worker, or exported with a READY. */
  ghost predicate WasSent(log: seq<Message>, p: Proposal) {
    exists i | 0 <= i < |log| :: (log[i].FromWorker? && log[i].payload == p) || log[i] == Export(Some(p))
  }

  ghost predicate IsHonest(s: System) {
    && (forall w :: 0 <= w < |s.workers| ==> Carries(s.workers[w], w, s.slot, s.log))
    && (s.gate.ByReady? && s.gate.ready.ReadyExported? && s.gate.ready.confirmed.Some? ==>
          WasSent(s.log, s.gate.ready.confirmed.value))
    && (s.slot.flight.Some? && s.slot.flight.value.confirmed.Some? ==>
          WasSent(s.log, s.slot.flight.value.confirmed.value))
  }

  lemma LiveKeepsState(slot: Slot<nat>, ev: Event<nat>, now: int, unused: nat, t: nat)
    requires t < unused && IsLive(Step(slot, ev, now, unused), t)
    ensures IsLive(slot, t) && StateOf(Step(slot, ev, now, unused), t) == StateOf(slot, t)
  {
  }

  lemma SentStaysSent(log: seq<Message>, msg: Message, p: Proposal)
    requires WasSent(log, p)
    ensures WasSent(log + [msg], p)
  {
    var i :| 0 <= i < |log| && ((log[i].FromWorker? && log[i].payload == p) || log[i] == Export(Some(p)));
    assert (log + [msg])[i] == log[i];
  }

  lemma {:induction false} LastSentWasSent(log: seq<Message>, w: nat)
    requires LastSent(log, w).Some?
    ensures WasSent(log, LastSent(log, w).value)
  {
    var n := |log| - 1;
    if log[n].FromWorker? && log[n].id == w {
      assert log[n].payload == LastSent(log, w).value;
    } else {
      LastSentWasSent(log[..n], w);
      SentStaysSent(log[..n], log[n], LastSent(log, w).value);
      assert log[..n] + [log[n]] == log;
    }
  }

  lemma OwnMoveCarries(s: System, m: Move)
    requires IsWorkerMove(m) && m.w < |s.workers| && LiveIn(s.slot, 0, s.next)
    requires Carries(s.workers[m.w], m.w, s.slot, s.log)
    ensures |Next(s, m).workers| == |s.workers|
    ensures Carries(Next(s, m).workers[m.w], m.w, Next(s, m).slot, Next(s, m).log)
  {
    if m.Send? {
      SendCarries(s, m);
    } else {
      CallCarries(s, m);
    }
  }

  lemma SendCarries(s: System, m: Move)
    requires m.Send? && m.w < |s.workers| && Carries(s.workers[m.w], m.w, s.slot, s.log)
    ensures Carries(Next(s, m).workers[m.w], m.w, Next(s, m).slot, Next(s, m).log)
  {
    var p := s.workers[m.w];
    if p.Chosen? {
      LastSentAfter(s.log, FromWorker(m.w, p.payload, None), m.w);
    } else if p.Loaded? {
      LastSentAfter(s.log, FromWorker(m.w, p.payload, Some(p.loadedAt)), m.w);
    }
  }

  lemma CallCarries(s: System, m: Move)
    requires IsWorkerMove(m) && !m.Send? && m.w < |s.workers| && LiveIn(s.slot, 0, s.next)
    requires Carries(s.workers[m.w], m.w, s.slot, s.log)
    ensures |Next(s, m).workers| == |s.workers|
    ensures Carries(Next(s, m).workers[m.w], m.w, Next(s, m).slot, Next(s, m).log)
  {
  }

  lemma OthersCarry(s: System, m: Move, w: nat)
    requires w < |s.workers| && !(IsWorkerMove(m) && m.w == w) && Carries(s.workers[w], w, s.slot, s.log)
    requires s.workers[w].Done? || s.workers[w].ticket < s.next
    ensures Carries(s.workers[w], w, Next(s, m).slot, Next(s, m).log)
  {
    var p, after := s.workers[w], Next(s, m);
    EmittedIsTheStep(s, m);
    MoveLeavesOthers(s, m);
    if !p.Done? && Emitted(s, m).Some? && IsLive(after.slot, p.ticket) {
      LiveKeepsState(s.slot, Emitted(s, m).value, s.clock, s.next, p.ticket);
    }
    if |after.log| > |s.log| {
      assert after.log == s.log + [after.log[|s.log|]];
      LastSentAfter(s.log, after.log[|s.log|], w);
    }
  }

  /** A proposal becomes confirmed by an acknowledgement of the attempt that carries it, or with a READY. */
  lemma ConfirmedComesFrom(slot: Slot<nat>, ev: Event<nat>, now: int, unused: nat, p: Proposal)
    requires var after := Step(slot, ev, now, unused);
             after.flight.Some? && after.flight.value.confirmed == Some(p)
    ensures || (slot.flight.Some? && slot.flight.value.confirmed == Some(p))
            || (ev.Complete? && ev.answer.Acknowledged? && IsLive(slot, ev.ticket) && StateOf(slot, ev.ticket) == p)
            || ev == ConfirmExport(Some(p))
  {
  }

  lemma EmittedCompletion(s: System, m: Move)
    requires Emitted(s, m).Some?
    ensures Emitted(s, m).value.Complete? ==>
              m.Finish? && m.w < |s.workers| && s.workers[m.w].Answered?
              && Emitted(s, m).value == Complete(s.workers[m.w].ticket, s.workers[m.w].answer)
    ensures Emitted(s, m).value.ConfirmExport? ==>
              s.gate.ByReady? && s.gate.ready.ReadyExported?
              && Emitted(s, m).value == ConfirmExport(s.gate.ready.confirmed)
  {
  }

  lemma NextConfirmsWhatWasSent(s: System, m: Move, p: Proposal)
    requires IsHonest(s) && Next(s, m).slot.flight.Some? && Next(s, m).slot.flight.value.confirmed == Some(p)
    ensures WasSent(s.log, p)
  {
    EmittedIsTheStep(s, m);
    if Emitted(s, m).Some? {
      var ev := Emitted(s, m).value;
      ConfirmedComesFrom(s.slot, ev, s.clock, s.next, p);
      EmittedCompletion(s, m);
      if !(s.slot.flight.Some? && s.slot.flight.value.confirmed == Some(p)) && ev.Complete? {
        assert Carries(s.workers[m.w], m.w, s.slot, s.log);
        LastSentWasSent(s.log, m.w);
      }
    }
  }

  lemma LogGrows(s: System, m: Move, p: Proposal)
    requires WasSent(s.log, p)
    ensures WasSent(Next(s, m).log, p)
  {
    MoveLeavesOthers(s, m);
    if |Next(s, m).log| > |s.log| {
      assert Next(s, m).log == s.log + [Next(s, m).log[|s.log|]];
      SentStaysSent(s.log, Next(s, m).log[|s.log|], p);
    }
  }

  lemma ReadyIsHonest(s: System, m: Move)
    requires IsHonest(s) && Next(s, m).gate.ByReady? && Next(s, m).gate.ready.ReadyExported?
    requires Next(s, m).gate.ready.confirmed.Some?
    ensures WasSent(Next(s, m).log, Next(s, m).gate.ready.confirmed.value)
  {
    if s.gate == Next(s, m).gate {
      LogGrows(s, m, s.gate.ready.confirmed.value);
    } else {
      ExportIsLogged(s, m);
      assert Next(s, m).log[|s.log|] == Export(Next(s, m).gate.ready.confirmed);
    }
  }

  lemma ExportIsLogged(s: System, m: Move)
    requires s.gate != Next(s, m).gate && Next(s, m).gate.ByReady? && Next(s, m).gate.ready.ReadyExported?
    ensures Next(s, m).log == s.log + [Export(Next(s, m).gate.ready.confirmed)]
  {
  }

  lemma NextIsHonest(s: System, m: Move)
    requires Orderly(s) && IsHonest(s)
    ensures IsHonest(Next(s, m))
  {
    var after := Next(s, m);
    MoveLeavesOthers(s, m);
    NewWorkersWait(s, m);
    forall w | 0 <= w < |after.workers|
      ensures Carries(after.workers[w], w, after.slot, after.log)
    {
      if w < |s.workers| {
        if IsWorkerMove(m) && m.w == w {
          OwnMoveCarries(s, m);
        } else {
          OthersCarry(s, m, w);
        }
      }
    }
    if after.gate.ByReady? && after.gate.ready.ReadyExported? && after.gate.ready.confirmed.Some? {
      ReadyIsHonest(s, m);
    }
    if after.slot.flight.Some? && after.slot.flight.value.confirmed.Some? {
      NextConfirmsWhatWasSent(s, m, after.slot.flight.value.confirmed.value);
      LogGrows(s, m, after.slot.flight.value.confirmed.value);
    }
  }

  /** In every reachable state, what the tracker has confirmed was sent by a worker or exported with a READY; and what a
      worker with a live attempt is about to send, or has sent and is about to report, is what the tracker has in
      flight. */
  lemma {:induction false} ConfirmedWasSent(now: int, moves: seq<Move>)
    ensures IsHonest(Moved(Initial(now), moves))
  {
    if moves != [] {
      var init := moves[..|moves| - 1];
      ConfirmedWasSent(now, init);
      OneWorkerPerAttempt(now, init);
      NextIsHonest(Moved(Initial(now), init), moves[|moves| - 1]);
    }
  }

  /** So when a worker reports that its live attempt was acknowledged, what it sent last becomes the confirmed
      proposal. */
  lemma AcknowledgedBecomesConfirmed(now: int, moves: seq<Move>, w: nat)
    requires var s := Moved(Initial(now), moves);
             w < |s.workers| && s.workers[w].Answered? && s.workers[w].answer == Acknowledged
             && IsLive(s.slot, s.workers[w].ticket)
    ensures var s := Moved(Initial(now), moves);
            var after := Next(s, Finish(w)).slot;
            LastSent(s.log, w).Some? && after.flight.Some? && after.flight.value.confirmed == LastSent(s.log, w)
  {
    ConfirmedWasSent(now, moves);
    var s := Moved(Initial(now), moves);
    assert Carries(s.workers[w], w, s.slot, s.log);
  }
}
