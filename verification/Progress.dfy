/** What becomes of a worker or a writer that finds the gate free: whole rounds of moves, from the gate and back. */
module Progress {
  import opened Text
  import opened Retry
  import opened Protocol

  /** The worker waits for its turn, its time has come, and it may enter. */
  predicate IsUp(s: System, w: nat) {
    && w < |s.workers| && s.workers[w].Waiting? && s.gate == Free && !s.cancelled
    && (s.workers[w].notBefore == None || s.workers[w].notBefore.value <= s.clock)
  }

  lemma OneMore(s: System, init: seq<Move>, m: Move)
    ensures Moved(s, init + [m]) == Next(Moved(s, init), m)
  {
    assert (init + [m])[..|init|] == init;
  }

  lemma Three(s: System, a: Move, b: Move, c: Move)
    ensures Moved(s, [a, b, c]) == Next(Next(Next(s, a), b), c)
  {
    OneMore(s, [], a);
    OneMore(s, [a], b);
    OneMore(s, [a, b], c);
    assert [] + [a] == [a] && [a] + [b] == [a, b] && [a, b] + [c] == [a, b, c];
  }

  lemma Two(s: System, a: Move, b: Move)
    ensures Moved(s, [a, b]) == Next(Next(s, a), b)
  {
    OneMore(s, [], a);
    OneMore(s, [a], b);
    assert [] + [a] == [a] && [a] + [b] == [a, b];
  }

  lemma Four(s: System, a: Move, b: Move, c: Move, d: Move)
    ensures Moved(s, [a, b, c, d]) == Next(Next(Next(Next(s, a), b), c), d)
  {
    Three(s, a, b, c);
    OneMore(s, [a, b, c], d);
    assert [a, b, c] + [d] == [a, b, c, d];
  }

  lemma Five(s: System, a: Move, b: Move, c: Move, d: Move, e: Move)
    ensures Moved(s, [a, b, c, d, e]) == Next(Next(Next(Next(Next(s, a), b), c), d), e)
  {
    Four(s, a, b, c, d);
    OneMore(s, [a, b, c, d], e);
    assert [a, b, c, d] + [e] == [a, b, c, d, e];
  }

  // ---- A worker's round ------------------------------------------------------------------------

  lemma EntersAndChooses(s: System, w: nat)
    requires IsUp(s, w) && IsLive(s.slot, s.workers[w].ticket)
    ensures var f := s.slot.flight.value;
            var p := if f.pending.Some? then f.pending.value else f.job.value.state;
            Next(Next(s, Enter(w)), Choose(w))
            == s.(workers := s.workers[w := Chosen(s.next, p, f.job.value.refresh || f.refresh)], gate := ByWorker(w),
                  next := s.next + 1, slot := Slot(s.slot.removed, Some(Prepared(f, s.clock, s.next))))
  {
    var t := s.workers[w].ticket;
    var entered := Next(s, Enter(w));
    assert entered == s.(workers := s.workers[w := Locked(t, s.workers[w].notBefore)], gate := ByWorker(w));
  }

  lemma Answers(s: System, w: nat, answer: Answer, t: nat, payload: Proposal, loadedAt: Option<nat>)
    requires w < |s.workers|
    requires s.workers[w] == if loadedAt.Some? then Loaded(t, payload, loadedAt.value) else Chosen(t, payload, false)
    ensures Next(s, Send(w, answer))
            == s.(workers := s.workers[w := Answered(t, answer)], log := s.log + [FromWorker(w, payload, loadedAt)])
  {
  }

  lemma Confirms(s: System, w: nat, t: nat)
    requires w < |s.workers| && s.workers[w] == Answered(t, Acknowledged) && IsLive(s.slot, t)
    requires s.slot.flight.value.pending.None? && !s.slot.flight.value.refresh
    ensures var p := s.slot.flight.value.job.value.state;
            Next(s, Finish(w))
            == s.(workers := s.workers[w := Done], gate := Free, next := s.next + 1,
                  slot := Slot(s.slot.removed, Some(Flight(None, Some(p), None, None, 0, None, false))))
  {
  }

  /** Sending what is in flight, and reporting that the network took it. */
  lemma SendsAndConfirms(s: System, w: nat, t: nat, payload: Proposal, loadedAt: Option<nat>)
    requires w < |s.workers| && IsLive(s.slot, t)
    requires s.workers[w] == if loadedAt.Some? then Loaded(t, payload, loadedAt.value) else Chosen(t, payload, false)
    requires s.slot.flight.value.job.value.state == payload
    requires s.slot.flight.value.pending.None? && !s.slot.flight.value.refresh
    ensures var after := Next(Next(s, Send(w, Acknowledged)), Finish(w));
            && after.gate == Free && after.workers == s.workers[w := Done]
            && after.log == s.log + [FromWorker(w, payload, loadedAt)]
            && after.slot.flight == Some(Flight(None, Some(payload), None, None, 0, None, false))
  {
    Answers(s, w, Acknowledged, t, payload, loadedAt);
    Confirms(Next(s, Send(w, Acknowledged)), w, t);
  }

  /** Without a reload the newest proposal goes out; if the network takes it, it is confirmed and the worker is done. */
  lemma AttemptGoesThrough(s: System, w: nat)
    requires IsUp(s, w) && IsLive(s.slot, s.workers[w].ticket)
    requires !s.slot.flight.value.refresh && !s.slot.flight.value.job.value.refresh
    ensures var f := s.slot.flight.value;
            var p := if f.pending.Some? then f.pending.value else f.job.value.state;
            var after := Moved(s, [Enter(w), Choose(w), Send(w, Acknowledged), Finish(w)]);
            after.gate == Free && after.workers == s.workers[w := Done]
            && after.log == s.log + [FromWorker(w, p, None)]
            && after.slot.flight == Some(Flight(None, Some(p), None, None, 0, None, false))
  {
    Four(s, Enter(w), Choose(w), Send(w, Acknowledged), Finish(w));
    EntersAndChooses(s, w);
    var f := s.slot.flight.value;
    SendsAndConfirms(Next(Next(s, Enter(w)), Choose(w)), w, s.next,
                     if f.pending.Some? then f.pending.value else f.job.value.state, None);
  }

  lemma Reloads(s: System, w: nat, payload: Proposal)
    requires IsUp(s, w) && IsLive(s.slot, s.workers[w].ticket)
    requires s.slot.flight.value.refresh || s.slot.flight.value.job.value.refresh
    requires s.store == Some(Record(Some(payload), false))
    ensures var loaded := Next(Next(Next(s, Enter(w)), Choose(w)), Load(w, ReadOk));
            && loaded.workers == s.workers[w := Loaded(s.next + 1, payload, |s.log|)] && loaded.log == s.log
            && loaded.slot.flight == Some(Refreshed(Prepared(s.slot.flight.value, s.clock, s.next), payload,
                                                    s.next + 1))
  {
    EntersAndChooses(s, w);
  }

  /** With one, what is stored goes out instead. */
  lemma ReloadGoesThrough(s: System, w: nat, payload: Proposal)
    requires IsUp(s, w) && IsLive(s.slot, s.workers[w].ticket)
    requires s.slot.flight.value.refresh || s.slot.flight.value.job.value.refresh
    requires s.store == Some(Record(Some(payload), false))
    ensures var after := Moved(s, [Enter(w), Choose(w), Load(w, ReadOk), Send(w, Acknowledged), Finish(w)]);
            after.gate == Free && after.workers == s.workers[w := Done]
            && after.log == s.log + [FromWorker(w, payload, Some(|s.log|))]
            && after.slot.flight == Some(Flight(None, Some(payload), None, None, 0, None, false))
  {
    Five(s, Enter(w), Choose(w), Load(w, ReadOk), Send(w, Acknowledged), Finish(w));
    Reloads(s, w, payload);
    SendsAndConfirms(Next(Next(Next(s, Enter(w)), Choose(w)), Load(w, ReadOk)), w, s.next + 1, payload, Some(|s.log|));
  }

  /** Nothing is stored for the flight, nothing that could be sent, or a READY is pending. */
  predicate NothingToSend(s: System) {
    s.store == None || s.store.value.readyPending || s.store.value.payload == None
  }

  /** A reload that finds nothing to send gives the flight up, and so does one that may not read. */
  lemma NothingToReload(s: System, w: nat, read: Read)
    requires IsUp(s, w) && IsLive(s.slot, s.workers[w].ticket)
    requires s.slot.flight.value.refresh || s.slot.flight.value.job.value.refresh
    requires read == ReadRefused || (read == ReadOk && NothingToSend(s))
    ensures var after := Moved(s, [Enter(w), Choose(w), Load(w, read)]);
            after.gate == Free && after.workers == s.workers[w := Done] && after.log == s.log
            && after.slot == Slot(s.slot.removed, None)
  {
    Three(s, Enter(w), Choose(w), Load(w, read));
    EntersAndChooses(s, w);
  }

  /** After a failure the worker is done exactly if nothing is left in flight, and otherwise waits for the time of the
      next attempt, which is the one in flight. */
  lemma FailureWaits(s: System, w: nat)
    requires IsUp(s, w) && IsLive(s.slot, s.workers[w].ticket)
    requires !s.slot.flight.value.refresh && !s.slot.flight.value.job.value.refresh
    ensures var after := Moved(s, [Enter(w), Choose(w), Send(w, Failed), Finish(w)]);
            after.gate == Free && |after.log| == |s.log| + 1 && after.slot.flight.Some?
            && match after.slot.flight.value.job {
              case None => after.workers == s.workers[w := Done]
              case Some(j) => after.workers == s.workers[w := Waiting(j.ticket, j.notBefore)]
            }
  {
    Four(s, Enter(w), Choose(w), Send(w, Failed), Finish(w));
    EntersAndChooses(s, w);
  }

  /** A worker whose attempt was superseded leaves the flight alone, */
  lemma StaleWorkerLeaves(s: System, w: nat)
    requires IsUp(s, w) && !IsLive(s.slot, s.workers[w].ticket)
    ensures Moved(s, [Enter(w), Choose(w)]) == s.(workers := s.workers[w := Done])
  {
    Two(s, Enter(w), Choose(w));
    var entered := Next(s, Enter(w));
    assert entered.slot == s.slot && entered.workers == s.workers[w := Locked(s.workers[w].ticket,
                                                                              s.workers[w].notBefore)];
    assert Next(entered, Choose(w)).workers == s.workers[w := Done];
  }

  /** and one that quits takes a live attempt along. */
  lemma QuitterGivesUp(s: System, w: nat)
    requires w < |s.workers| && s.workers[w].Waiting?
    ensures var after := Next(s, Quit(w));
            after.workers == s.workers[w := Done] && after.log == s.log
            && after.slot == if IsLive(s.slot, s.workers[w].ticket) then Slot(s.slot.removed, None) else s.slot
  {
  }

  /** Nobody enters while the gate is taken or after the session was cancelled, and no worker before its time. */
  lemma OthersStayOutside(s: System, m: Move)
    requires m.Enter? || m.ReadyEnter? || m.TobtEnter?
    requires s.gate != Free || s.cancelled
             || (m.Enter? && m.w < |s.workers| && s.workers[m.w].Waiting? && s.workers[m.w].notBefore.Some?
                 && s.workers[m.w].notBefore.value > s.clock)
    ensures Next(s, m) == s
  {
  }

  // ---- The world outside -------------------------------------------------------------------------

  lemma LoadsWhatIsStored(s: System, w: nat, payload: Proposal)
    requires w < |s.workers| && s.workers[w].Chosen? && s.workers[w].reload && IsLive(s.slot, s.workers[w].ticket)
    requires s.store == Some(Record(Some(payload), false))
    ensures Next(s, Load(w, ReadOk)).workers == s.workers[w := Loaded(s.next, payload, |s.log|)]
  {
  }

  /** Whatever is stored is what the next reload finds. */
  lemma StoredIsFound(s: System, w: nat, payload: Proposal)
    requires w < |s.workers| && s.workers[w].Chosen? && s.workers[w].reload && IsLive(s.slot, s.workers[w].ticket)
    ensures var after := Next(s, Store(Some(Record(Some(payload), false))));
            Next(after, Load(w, ReadOk)).workers == s.workers[w := Loaded(s.next, payload, |s.log|)]
  {
    LoadsWhatIsStored(s.(store := Some(Record(Some(payload), false))), w, payload);
  }

  /** Time passes, and never back; whoever waits for a time may enter once it has come. */
  lemma TimeComes(s: System, w: nat, now: int)
    requires w < |s.workers| && s.workers[w].Waiting? && s.gate == Free && !s.cancelled
    requires s.clock <= now && (s.workers[w].notBefore.Some? ==> s.workers[w].notBefore.value <= now)
    ensures Moved(s, [Tick(now), Enter(w)]).gate == ByWorker(w) && Moved(s, [Tick(now), Enter(w)]).clock == now
    ensures forall t :: t < s.clock ==> Next(s, Tick(t)) == s
  {
    Two(s, Tick(now), Enter(w));
  }

  /** Cancelling the session shuts the gate, */
  lemma CancelShutsTheGate(s: System, m: Move)
    requires m.Enter? || m.ReadyEnter? || m.TobtEnter?
    ensures Next(s, Cancel) == s.(cancelled := true)
    ensures Next(s.(cancelled := true), m) == s.(cancelled := true)
  {
  }

  /** and only then the flight is dropped for good. */
  lemma RemovedAfterCancel(s: System)
    ensures s.cancelled ==> Next(s, Remove).slot == Slot(true, None)
    ensures !s.cancelled ==> Next(s, Remove) == s
  {
  }

  // ---- The writers' rounds -------------------------------------------------------------------------

  lemma SendsReaAndExport(s: System, exported: Option<Proposal>)
    requires s.gate == Free && !s.cancelled
    ensures Next(Next(Next(s, ReadyEnter), ReadySendRea(true)), ReadyExport(exported, true))
            == s.(gate := ByReady(ReadyExported(exported)), log := s.log + [Rea, Export(exported)])
  {
    var sent := Next(Next(s, ReadyEnter), ReadySendRea(true));
    assert sent == s.(gate := ByReady(ReadyAcknowledged), log := s.log + [Rea]);
    assert s.log + [Rea] + [Export(exported)] == s.log + [Rea, Export(exported)];
  }

  lemma ConfirmsAndLeaves(s: System, exported: Option<Proposal>)
    requires s.gate == ByReady(ReadyExported(exported)) && !s.slot.removed
    ensures var after := Next(Next(s, ReadyConfirm), ReadyLeave);
            && after.gate == Free && after.log == s.log && after.workers == s.workers
            && after.slot.flight == Some(Flight(None, exported, None, None, 0, None, false))
            && after.store == if s.store.Some? then Some(Record(s.store.value.payload, false)) else None
  {
    assert Next(s, ReadyConfirm).gate == ByReady(ReadyConfirmed);
  }

  /** A READY that the network takes, and whose export it takes, leaves that export confirmed, nothing in flight, and no
      READY pending in the store. */
  lemma ReadyGoesThrough(s: System, exported: Option<Proposal>)
    requires s.gate == Free && !s.cancelled && !s.slot.removed
    ensures var after := Moved(s, [ReadyEnter, ReadySendRea(true), ReadyExport(exported, true), ReadyConfirm,
                                   ReadyLeave]);
            after.gate == Free && after.log == s.log + [Rea, Export(exported)] && after.workers == s.workers
            && after.slot.flight == Some(Flight(None, exported, None, None, 0, None, false))
            && after.store == if s.store.Some? then Some(Record(s.store.value.payload, false)) else None
  {
    Five(s, ReadyEnter, ReadySendRea(true), ReadyExport(exported, true), ReadyConfirm, ReadyLeave);
    SendsReaAndExport(s, exported);
    ConfirmsAndLeaves(Next(Next(Next(s, ReadyEnter), ReadySendRea(true)), ReadyExport(exported, true)), exported);
  }

  /** One that the network refuses, or whose export it refuses, changes nothing but the log. */
  lemma RefusedReadyLeaves(s: System)
    requires s.gate == Free && !s.cancelled
    ensures Moved(s, [ReadyEnter, ReadySendRea(false)]) == s.(log := s.log + [Rea])
  {
    Two(s, ReadyEnter, ReadySendRea(false));
    assert Next(s, ReadyEnter) == s.(gate := ByReady(ReadyEntered));
  }

  lemma RefusedExportLeaves(s: System, exported: Option<Proposal>)
    requires s.gate == Free && !s.cancelled
    ensures Moved(s, [ReadyEnter, ReadySendRea(true), ReadyExport(exported, false)])
            == s.(log := s.log + [Rea, Export(exported)])
  {
    Three(s, ReadyEnter, ReadySendRea(true), ReadyExport(exported, false));
    var sent := Next(Next(s, ReadyEnter), ReadySendRea(true));
    assert sent == s.(gate := ByReady(ReadyAcknowledged), log := s.log + [Rea]);
    assert s.log + [Rea] + [Export(exported)] == s.log + [Rea, Export(exported)];
  }

  lemma WritesTobt(s: System)
    requires s.gate == Free && !s.cancelled
    ensures Next(Next(s, TobtEnter), TobtWrite(true)) == s.(gate := ByTobt(TobtWritten), log := s.log + [Tobt])
  {
  }

  lemma MarksAndLeaves(s: System)
    requires s.gate == ByTobt(TobtWritten)
    ensures var after := Next(Next(s, TobtMark), TobtLeave);
            && after.gate == Free && after.log == s.log && after.workers == s.workers && after.store == s.store
            && after.slot == if s.slot.flight.Some? && s.slot.flight.value.job.Some?
                             then s.slot.(flight := Some(s.slot.flight.value.(refresh := true))) else s.slot
  {
    assert Next(s, TobtMark).gate == ByTobt(TobtMarked);
  }

  /** A TOBT that the network takes marks what is in flight for a reload; */
  lemma TobtGoesThrough(s: System)
    requires s.gate == Free && !s.cancelled
    ensures var after := Moved(s, [TobtEnter, TobtWrite(true), TobtMark, TobtLeave]);
            after.gate == Free && after.log == s.log + [Tobt] && after.workers == s.workers && after.store == s.store
            && after.slot == if s.slot.flight.Some? && s.slot.flight.value.job.Some?
                             then s.slot.(flight := Some(s.slot.flight.value.(refresh := true))) else s.slot
  {
    Four(s, TobtEnter, TobtWrite(true), TobtMark, TobtLeave);
    WritesTobt(s);
    MarksAndLeaves(Next(Next(s, TobtEnter), TobtWrite(true)));
  }

  /** one that it refuses changes nothing but the log. */
  lemma RefusedTobtLeaves(s: System)
    requires s.gate == Free && !s.cancelled
    ensures Moved(s, [TobtEnter, TobtWrite(false)]) == s.(log := s.log + [Tobt])
  {
    Two(s, TobtEnter, TobtWrite(false));
    assert Next(s, TobtEnter) == s.(gate := ByTobt(TobtEntered));
  }
}
