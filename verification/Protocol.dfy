/** Who may send one flight's data to the network, and when: the per-flight gate, the retry workers of
    backend/internal/cdm/master_viff_sync.go and the READY and TOBT writers of action_service.go, as interleaved
    steps. */
module Protocol {
  import opened Text
  import opened Retry

  /** Where a worker is in its loop. It waits for the time its attempt was reserved for, and from `Locked` to `Answered`
      it holds the gate. `loadedAt` is how many messages had gone out when the payload was read back from the store. */
  datatype Worker =
    | Waiting(ticket: nat, notBefore: Option<int>)
    | Locked(ticket: nat, notBefore: Option<int>)
    | Chosen(ticket: nat, payload: Proposal, reload: bool)
    | Loaded(ticket: nat, payload: Proposal, loadedAt: nat)
    | Answered(ticket: nat, answer: Answer)
    | Done

  datatype ReadyStage = ReadyEntered | ReadyAcknowledged | ReadyExported(confirmed: Option<Proposal>) | ReadyConfirmed

  datatype TobtStage = TobtEntered | TobtWritten | TobtMarked

  datatype Gate = Free | ByWorker(id: nat) | ByReady(ready: ReadyStage) | ByTobt(tobt: TobtStage)

  /** What is persisted for the flight; without a payload there is nothing to export. */
  datatype Record = Record(payload: Option<Proposal>, readyPending: bool)

  datatype Message =
    | FromWorker(id: nat, payload: Proposal, loadedAt: Option<nat>)
    | Rea
    | Export(exported: Option<Proposal>)
    | Tobt

  datatype System = System(slot: Slot<nat>, next: nat, workers: seq<Worker>, gate: Gate, store: Option<Record>,
                           cancelled: bool, log: seq<Message>, clock: int)

  datatype Read = ReadOk | ReadFailed | ReadRefused

  datatype Move =
    | Propose(state: Proposal)
    | Quit(w: nat)
    | Enter(w: nat)
    | Choose(w: nat)
    | Load(w: nat, read: Read)
    | Send(w: nat, answer: Answer)
    | Finish(w: nat)
    | ReadyEnter
    | ReadySendRea(ok: bool)
    | ReadyExport(exported: Option<Proposal>, ok: bool)
    | ReadyConfirm
    | ReadyLeave
    | TobtEnter
    | TobtWrite(ok: bool)
    | TobtMark
    | TobtLeave
    | Store(record: Option<Record>)
    | Cancel
    | Remove
    | Tick(now: int)

  function Initial(now: int): System {
    System(Slot(false, None), 0, [], Free, None, false, [], now)
  }

  /** One tracker call at the current time, with the next ticket at its disposal. */
  function Call(s: System, ev: Event<nat>): System {
    s.(slot := Step(s.slot, ev, s.clock, s.next), next := s.next + 1)
  }

  predicate IsDue(notBefore: Option<int>, clock: int) {
    notBefore.Some? ==> notBefore.value <= clock
  }

  function Put(s: System, w: nat, worker: Worker): System
    requires w < |s.workers|
  {
    s.(workers := s.workers[w := worker])
  }

  /** The worker stops, handing in whatever attempt it still has. */
  function Stop(s: System, w: nat, ticket: nat): System
    requires w < |s.workers|
  {
    Put(Call(s, Discard(ticket)), w, Done)
  }

  function DoPropose(s: System, state: Proposal): System {
    var t := Call(s, Begin(state));
    if IsLive(t.slot, s.next) then t.(workers := t.workers + [Waiting(s.next, None)]) else t
  }

  function DoChoose(s: System, w: nat): System
    requires w < |s.workers| && s.workers[w].Locked?
  {
    var t := s.workers[w].ticket;
    if !IsLive(s.slot, t) then Put(s, w, Done).(gate := Free)
    else
      var after := Call(s, Prepare(t));
      var job := after.slot.flight.value.job.value;
      Put(after, w, Chosen(s.next, job.state, job.refresh))
  }

  function DoLoad(s: System, w: nat, read: Read): System
    requires w < |s.workers| && s.workers[w].Chosen?
  {
    var t := s.workers[w].ticket;
    if read.ReadFailed? then Put(s, w, Answered(t, Failed))
    else if read.ReadRefused? || s.store.None? || s.store.value.readyPending || s.store.value.payload.None? then
      Stop(s, w, t).(gate := Free)
    else if !IsLive(s.slot, t) then Put(s, w, Done).(gate := Free)
    else
      var payload := s.store.value.payload.value;
      Put(Call(s, Refresh(t, payload)), w, Loaded(s.next, payload, |s.log|))
  }

  function DoSend(s: System, w: nat, answer: Answer): System
    requires w < |s.workers|
  {
    match s.workers[w]
    case Chosen(t, payload, false) => Put(s, w, Answered(t, answer)).(log := s.log + [FromWorker(w, payload, None)])
    case Loaded(t, payload, n) => Put(s, w, Answered(t, answer)).(log := s.log + [FromWorker(w, payload, Some(n))])
    case _ => s
  }

  function DoFinish(s: System, w: nat): System
    requires w < |s.workers| && s.workers[w].Answered?
  {
    var t := s.workers[w].ticket;
    var after := Call(s, Complete(t, s.workers[w].answer));
    Put(after, w,
        if IsLive(after.slot, s.next) then Waiting(s.next, after.slot.flight.value.job.value.notBefore) else Done)
      .(gate := Free)
  }

  /** One move of one party; a move that is not enabled changes nothing. */
  function Next(s: System, m: Move): System {
    match m
    case Propose(state) => DoPropose(s, state)
    case Quit(w) => if w < |s.workers| && s.workers[w].Waiting? then Stop(s, w, s.workers[w].ticket) else s
    case Enter(w) =>
      if w < |s.workers| && s.workers[w].Waiting? && IsDue(s.workers[w].notBefore, s.clock) && s.gate.Free?
         && !s.cancelled
      then Put(s, w, Locked(s.workers[w].ticket, s.workers[w].notBefore)).(gate := ByWorker(w)) else s
    case Choose(w) => if w < |s.workers| && s.workers[w].Locked? then DoChoose(s, w) else s
    case Load(w, read) =>
      if w < |s.workers| && s.workers[w].Chosen? && s.workers[w].reload then DoLoad(s, w, read) else s
    case Send(w, answer) => if w < |s.workers| then DoSend(s, w, answer) else s
    case Finish(w) => if w < |s.workers| && s.workers[w].Answered? then DoFinish(s, w) else s
    case ReadyEnter => if s.gate.Free? && !s.cancelled then s.(gate := ByReady(ReadyEntered)) else s
    case ReadySendRea(ok) =>
      if s.gate == ByReady(ReadyEntered)
      then s.(gate := if ok then ByReady(ReadyAcknowledged) else Free, log := s.log + [Rea])
      else s
    case ReadyExport(exported, ok) =>
      if s.gate == ByReady(ReadyAcknowledged)
      then s.(gate := if ok then ByReady(ReadyExported(exported)) else Free, log := s.log + [Export(exported)]) else s
    case ReadyConfirm =>
      if s.gate.ByReady? && s.gate.ready.ReadyExported?
      then Call(s, ConfirmExport(s.gate.ready.confirmed)).(gate := ByReady(ReadyConfirmed)) else s
    case ReadyLeave =>
      if s.gate == ByReady(ReadyConfirmed)
      then s.(gate := Free, store := if s.store.Some? then Some(s.store.value.(readyPending := false)) else None) else s
    case TobtEnter => if s.gate.Free? && !s.cancelled then s.(gate := ByTobt(TobtEntered)) else s
    case TobtWrite(ok) =>
      if s.gate == ByTobt(TobtEntered)
      then s.(gate := if ok then ByTobt(TobtWritten) else Free, log := s.log + [Tobt])
      else s
    case TobtMark => if s.gate == ByTobt(TobtWritten) then Call(s, RequireRefresh).(gate := ByTobt(TobtMarked)) else s
    case TobtLeave => if s.gate == ByTobt(TobtMarked) then s.(gate := Free) else s
    case Store(record) => s.(store := record)
    case Cancel => s.(cancelled := true)
    case Remove => if s.cancelled then Call(s, RemoveSession) else s
    case Tick(now) => if now < s.clock then s else s.(clock := now)
  }

  function Moved(s: System, moves: seq<Move>): System {
    if moves == [] then s else Next(Moved(s, moves[..|moves| - 1]), moves[|moves| - 1])
  }

  // ---- One worker owns the flight ---------------------------------------------------------------

  predicate Inside(p: Worker) {
    !p.Waiting? && !p.Done?
  }

  predicate Holds(p: Worker, ticket: nat) {
    !p.Done? && p.ticket == ticket
  }

  ghost predicate Someone(workers: seq<Worker>, t: nat) {
    exists w :: 0 <= w < |workers| && Holds(workers[w], t)
  }

  /** A worker is inside exactly when it has the gate, and no two workers hold the same ticket. */
  ghost predicate Orderly(s: System) {
    && (forall w :: 0 <= w < |s.workers| ==> (Inside(s.workers[w]) <==> s.gate == ByWorker(w)))
    && (s.gate.ByWorker? ==> s.gate.id < |s.workers|)
    && (forall w :: 0 <= w < |s.workers| && !s.workers[w].Done? ==> s.workers[w].ticket < s.next)
    && (forall v, w :: 0 <= v < w < |s.workers| && !s.workers[v].Done? && !s.workers[w].Done? ==>
          s.workers[v].ticket != s.workers[w].ticket)
    && LiveIn(s.slot, 0, s.next)
    && (s.slot.removed ==> s.slot.flight.None?)
  }

  predicate LiveIn(slot: Slot<nat>, from: nat, to: nat) {
    slot.flight.Some? && slot.flight.value.job.Some? ==> from <= slot.flight.value.job.value.ticket < to
  }

  /** An attempt in flight is held by some worker. */
  ghost predicate Attended(s: System) {
    forall t :: IsLive(s.slot, t) ==> Someone(s.workers, t)
  }

  /** A tracker call makes at most its own ticket live. */
  lemma CallsAreFresh(s: Slot<nat>, ev: Event<nat>, now: int, unused: nat)
    ensures forall t :: IsLive(Step(s, ev, now, unused), t) ==> t == unused || IsLive(s, t)
    ensures forall from: nat :: from <= unused && LiveIn(s, from, unused) ==>
              LiveIn(Step(s, ev, now, unused), from, unused + 1)
  {
  }

  /** What any worker move amounts to: one worker that has not stopped goes on with its ticket or a new one, or stops;
      the gate passes between it and nobody. */
  ghost predicate Acts(s: System, after: System, w: nat) {
    && w < |s.workers| == |after.workers|
    && (forall v :: 0 <= v < |s.workers| && v != w ==> after.workers[v] == s.workers[v])
    && !s.workers[w].Done?
    && (after.workers[w].Done? || after.workers[w].ticket == s.workers[w].ticket ||
        (after.workers[w].ticket == s.next && after.next == s.next + 1))
    && (after.gate == s.gate || (s.gate.Free? && after.gate == ByWorker(w))
        || (s.gate == ByWorker(w) && after.gate.Free?))
    && (Inside(after.workers[w]) <==> after.gate == ByWorker(w))
    && s.next <= after.next && LiveIn(after.slot, 0, after.next)
    && (s.slot.removed ==> after.slot.flight.None?) && s.slot.removed == after.slot.removed
  }

  predicate IsWorkerMove(m: Move) {
    m.Quit? || m.Enter? || m.Choose? || m.Load? || m.Send? || m.Finish?
  }

  /** The moves up to the choice of a payload. */
  predicate IsEarlyMove(m: Move) {
    m.Quit? || m.Enter? || m.Choose?
  }

  lemma EarlyMoves(s: System, m: Move)
    requires Orderly(s) && IsEarlyMove(m) && Next(s, m) != s
    ensures Acts(s, Next(s, m), m.w)
  {
  }

  lemma LateMoves(s: System, m: Move)
    requires Orderly(s) && IsWorkerMove(m) && !IsEarlyMove(m) && Next(s, m) != s
    ensures Acts(s, Next(s, m), m.w)
  {
  }

  lemma WorkerMoves(s: System, m: Move)
    requires Orderly(s) && IsWorkerMove(m) && Next(s, m) != s
    ensures Acts(s, Next(s, m), m.w)
  {
    if IsEarlyMove(m) {
      EarlyMoves(s, m);
    } else {
      LateMoves(s, m);
    }
  }

  lemma ActsAreOrderly(s: System, after: System, w: nat)
    requires Orderly(s) && Acts(s, after, w)
    ensures Orderly(after)
  {
    forall v | 0 <= v < |after.workers|
      ensures Inside(after.workers[v]) <==> after.gate == ByWorker(v)
    {
      assert v != w ==> (Inside(s.workers[v]) <==> s.gate == ByWorker(v));
    }
  }

  lemma PutAttends(s: System, after: System, w: nat)
    requires Attended(s) && w < |s.workers| && |after.workers| == |s.workers|
    requires forall v :: 0 <= v < |s.workers| && v != w ==> after.workers[v] == s.workers[v]
    requires forall t :: IsLive(after.slot, t) ==>
               Holds(after.workers[w], t) || (IsLive(s.slot, t) && !Holds(s.workers[w], t))
    ensures Attended(after)
  {
    forall t | IsLive(after.slot, t)
      ensures Someone(after.workers, t)
    {
      if Holds(after.workers[w], t) {
        assert Someone(after.workers, t);
      } else {
        assert Someone(s.workers, t);
        var v :| 0 <= v < |s.workers| && Holds(s.workers[v], t);
        assert Holds(after.workers[v], t);
      }
    }
  }

  lemma ProposeAttends(s: System, state: Proposal)
    requires Orderly(s) && Attended(s)
    ensures Attended(DoPropose(s, state))
  {
    var after := DoPropose(s, state);
    CallsAreFresh(s.slot, Begin(state), s.clock, s.next);
    forall t | IsLive(after.slot, t)
      ensures Someone(after.workers, t)
    {
      if t == s.next {
        assert Holds(after.workers[|s.workers|], t);
      } else {
        assert Someone(s.workers, t);
        var v :| 0 <= v < |s.workers| && Holds(s.workers[v], t);
        assert Holds(after.workers[v], t);
      }
    }
  }

  lemma EarlyMoveAttends(s: System, m: Move)
    requires Orderly(s) && Attended(s) && IsEarlyMove(m)
    ensures Attended(Next(s, m))
  {
    if Next(s, m) != s {
      PutAttends(s, Next(s, m), m.w);
    }
  }

  lemma LateMoveAttends(s: System, m: Move)
    requires Orderly(s) && Attended(s) && IsWorkerMove(m) && !IsEarlyMove(m)
    ensures Attended(Next(s, m))
  {
    if Next(s, m) != s {
      PutAttends(s, Next(s, m), m.w);
    }
  }

  lemma WorkerAttends(s: System, m: Move)
    requires Orderly(s) && Attended(s) && IsWorkerMove(m)
    ensures Attended(Next(s, m))
  {
    if IsEarlyMove(m) {
      EarlyMoveAttends(s, m);
    } else {
      LateMoveAttends(s, m);
    }
  }

  lemma WorkerIsOrderly(s: System, m: Move)
    requires Orderly(s) && IsWorkerMove(m)
    ensures Orderly(Next(s, m))
  {
    if Next(s, m) != s {
      WorkerMoves(s, m);
      ActsAreOrderly(s, Next(s, m), m.w);
    }
  }

  lemma ProposeIsOrderly(s: System, state: Proposal)
    requires Orderly(s)
    ensures Orderly(DoPropose(s, state))
  {
    CallsAreFresh(s.slot, Begin(state), s.clock, s.next);
    var after := DoPropose(s, state);
    assert forall w :: 0 <= w < |s.workers| ==> after.workers[w] == s.workers[w];
    assert |after.workers| > |s.workers| ==> s.gate != ByWorker(|s.workers|);
  }

  lemma WriterIsOrderly(s: System, m: Move)
    requires Orderly(s) && !IsWorkerMove(m) && !m.Propose?
    ensures Orderly(Next(s, m))
  {
    assert Next(s, m).workers == s.workers;
    assert forall w :: Next(s, m).gate == ByWorker(w) <==> s.gate == ByWorker(w);
  }

  lemma WriterAttends(s: System, m: Move)
    requires Attended(s) && !IsWorkerMove(m) && !m.Propose?
    ensures Attended(Next(s, m))
  {
    assert Next(s, m).workers == s.workers;
    assert forall t :: IsLive(Next(s, m).slot, t) ==> IsLive(s.slot, t);
  }

  lemma NextIsSound(s: System, m: Move)
    requires Orderly(s) && Attended(s)
    ensures Orderly(Next(s, m)) && Attended(Next(s, m))
  {
    if IsWorkerMove(m) {
      WorkerIsOrderly(s, m);
      WorkerAttends(s, m);
    } else if m.Propose? {
      ProposeIsOrderly(s, m.state);
      ProposeAttends(s, m.state);
    } else {
      WriterIsOrderly(s, m);
      WriterAttends(s, m);
    }
  }

  /** In every reachable state only the gate's holder is inside, no attempt is held by two workers, and the attempt in
      flight is held by one: nothing that is in flight or pending is left without a worker. */
  lemma {:induction false} OneWorkerPerAttempt(now: int, moves: seq<Move>)
    ensures Orderly(Moved(Initial(now), moves)) && Attended(Moved(Initial(now), moves))
  {
    if moves != [] {
      OneWorkerPerAttempt(now, moves[..|moves| - 1]);
      NextIsSound(Moved(Initial(now), moves[..|moves| - 1]), moves[|moves| - 1]);
    }
  }

  // ---- READY supersedes -------------------------------------------------------------------------------

  predicate IsBehind(p: Worker, bound: nat) {
    p.Done? || ((p.Waiting? || p.Locked?) && p.ticket < bound)
  }

  /** The first `count` workers can do no more than find out that they are superseded, and none of them has sent since
      message `mark`. */
  ghost predicate Superseded(s: System, count: nat, bound: nat, mark: nat) {
    && count <= |s.workers| && bound <= s.next && LiveIn(s.slot, bound, s.next)
    && (forall w :: 0 <= w < count ==> IsBehind(s.workers[w], bound))
    && NoneSent(s.log, count, mark)
  }

  ghost predicate NoneSent(log: seq<Message>, count: nat, mark: nat) {
    && mark <= |log|
    && (forall i :: mark <= i < |log| && log[i].FromWorker? ==> log[i].id >= count)
  }

  lemma MoveKeepsTickets(s: System, m: Move, bound: nat)
    requires bound <= s.next && LiveIn(s.slot, bound, s.next)
    ensures bound <= Next(s, m).next && LiveIn(Next(s, m).slot, bound, Next(s, m).next)
  {
    if IsWorkerMove(m) {
      WorkerKeepsTickets(s, m, bound);
    }
  }

  lemma WorkerKeepsTickets(s: System, m: Move, bound: nat)
    requires IsWorkerMove(m) && bound <= s.next && LiveIn(s.slot, bound, s.next)
    ensures bound <= Next(s, m).next && LiveIn(Next(s, m).slot, bound, Next(s, m).next)
  {
  }

  lemma OwnMoveStaysBehind(s: System, m: Move, bound: nat)
    requires LiveIn(s.slot, bound, s.next) && IsWorkerMove(m) && m.w < |s.workers| && IsBehind(s.workers[m.w], bound)
    ensures Next(s, m).log == s.log && |Next(s, m).workers| == |s.workers| && IsBehind(Next(s, m).workers[m.w], bound)
  {
  }

  lemma MoveLeavesOthers(s: System, m: Move)
    ensures |s.workers| <= |Next(s, m).workers|
    ensures forall v :: 0 <= v < |s.workers| && !(IsWorkerMove(m) && m.w == v) ==> Next(s, m).workers[v] == s.workers[v]
    ensures s.log == Next(s, m).log || (|Next(s, m).log| == |s.log| + 1 && Next(s, m).log[..|s.log|] == s.log)
    ensures |Next(s, m).log| > |s.log| && Next(s, m).log[|s.log|].FromWorker? ==>
              m.Send? && m.w < |s.workers| && Next(s, m).log[|s.log|].id == m.w
  {
  }

  lemma NextStaysSuperseded(s: System, m: Move, count: nat, bound: nat, mark: nat)
    requires Superseded(s, count, bound, mark)
    ensures Superseded(Next(s, m), count, bound, mark)
  {
    var after := Next(s, m);
    MoveKeepsTickets(s, m, bound);
    MoveLeavesOthers(s, m);
    if IsWorkerMove(m) && m.w < count {
      OwnMoveStaysBehind(s, m, bound);
    }
    forall i | mark <= i < |after.log| && after.log[i].FromWorker?
      ensures after.log[i].id >= count
    {
      assert i < |s.log| ==> after.log[..|s.log|][i] == s.log[i];
    }
  }

  lemma {:induction false} PlayStaysSuperseded(s: System, moves: seq<Move>, count: nat, bound: nat, mark: nat)
    requires Superseded(s, count, bound, mark)
    ensures Superseded(Moved(s, moves), count, bound, mark)
  {
    if moves != [] {
      PlayStaysSuperseded(s, moves[..|moves| - 1], count, bound, mark);
      NextStaysSuperseded(Moved(s, moves[..|moves| - 1]), moves[|moves| - 1], count, bound, mark);
    }
  }

  /** Once a READY export has been confirmed, no worker begun before it ever sends again, however the parties' moves
      interleave before and after. */
  lemma ConfirmedReadyIsFinal(now: int, before: seq<Move>, after: seq<Move>)
    requires Moved(Initial(now), before).gate.ByReady? && Moved(Initial(now), before).gate.ready.ReadyExported?
    ensures var s := Moved(Initial(now), before);
            var end := Moved(Next(s, ReadyConfirm), after);
            && |s.log| <= |end.log|
            && forall i :: |s.log| <= i < |end.log| && end.log[i].FromWorker? ==> end.log[i].id >= |s.workers|
  {
    var s := Moved(Initial(now), before);
    OneWorkerPerAttempt(now, before);
    PlayStaysSuperseded(Next(s, ReadyConfirm), after, |s.workers|, s.next, |s.log|);
  }

  // ---- A TOBT-only write ----------------------------------------------------------------------------------

  predicate WillReload(s: Slot<nat>, ticket: nat) {
    IsLive(s, ticket) ==> s.flight.value.refresh || s.flight.value.job.value.refresh
  }

  predicate Reloads(p: Worker, slot: Slot<nat>, next: nat, mark: nat) {
    match p
    case Waiting(t, _) => t < next && WillReload(slot, t)
    case Locked(t, _) => t < next && WillReload(slot, t)
    case Chosen(_, _, reload) => reload
    case Loaded(_, _, n) => n >= mark
    case _ => true
  }

  predicate IsReloaded(msg: Message, count: nat, mark: nat) {
    msg.FromWorker? && msg.id < count ==> msg.loadedAt.Some? && msg.loadedAt.value >= mark
  }

  /** Whatever the first `count` workers have sent since message `mark`, they read back from the store after it. */
  ghost predicate Reloading(s: System, count: nat, mark: nat) {
    && count <= |s.workers| && mark <= |s.log| && LiveIn(s.slot, 0, s.next)
    && (forall w :: 0 <= w < count ==> Reloads(s.workers[w], s.slot, s.next, mark))
    && (forall i :: mark <= i < |s.log| ==> IsReloaded(s.log[i], count, mark))
  }

  lemma CallsKeepReload(s: Slot<nat>, ev: Event<nat>, now: int, unused: nat, t: nat)
    requires t < unused && WillReload(s, t)
    ensures WillReload(Step(s, ev, now, unused), t)
  {
  }

  lemma MoveKeepsReload(s: System, m: Move, p: Worker, mark: nat)
    requires Reloads(p, s.slot, s.next, mark)
    ensures Reloads(p, Next(s, m).slot, Next(s, m).next, mark)
  {
    if p.Waiting? || p.Locked? {
      forall ev, now
        ensures WillReload(Step(s.slot, ev, now, s.next), p.ticket)
      {
        CallsKeepReload(s.slot, ev, now, s.next, p.ticket);
      }
    }
  }

  lemma OwnEarlyMoveReloads(s: System, m: Move, mark: nat)
    requires IsEarlyMove(m) && m.w < |s.workers| && Reloads(s.workers[m.w], s.slot, s.next, mark)
    requires LiveIn(s.slot, 0, s.next)
    ensures |Next(s, m).workers| == |s.workers| && Next(s, m).log == s.log
    ensures Reloads(Next(s, m).workers[m.w], Next(s, m).slot, Next(s, m).next, mark)
  {
  }

  lemma OwnMoveReloads(s: System, m: Move, mark: nat)
    requires IsWorkerMove(m) && m.w < |s.workers| && Reloads(s.workers[m.w], s.slot, s.next, mark) && mark <= |s.log|
    requires LiveIn(s.slot, 0, s.next)
    ensures |Next(s, m).workers| == |s.workers|
    ensures Reloads(Next(s, m).workers[m.w], Next(s, m).slot, Next(s, m).next, mark)
    ensures |Next(s, m).log| > |s.log| ==> Next(s, m).log[|s.log|].FromWorker? && Next(s, m).log[|s.log|].loadedAt.Some?
                                           && Next(s, m).log[|s.log|].loadedAt.value >= mark
  {
    if IsEarlyMove(m) {
      OwnEarlyMoveReloads(s, m, mark);
    }
  }

  lemma NextStaysReloading(s: System, m: Move, count: nat, mark: nat)
    requires Reloading(s, count, mark)
    ensures Reloading(Next(s, m), count, mark)
  {
    var after := Next(s, m);
    MoveKeepsTickets(s, m, 0);
    MoveLeavesOthers(s, m);
    if IsWorkerMove(m) && m.w < count {
      OwnMoveReloads(s, m, mark);
    }
    forall w | 0 <= w < count
      ensures Reloads(after.workers[w], after.slot, after.next, mark)
    {
      MoveKeepsReload(s, m, s.workers[w], mark);
    }
    forall i | mark <= i < |after.log|
      ensures IsReloaded(after.log[i], count, mark)
    {
      assert i < |s.log| ==> after.log[..|s.log|][i] == s.log[i];
    }
  }

  lemma {:induction false} PlayStaysReloading(s: System, moves: seq<Move>, count: nat, mark: nat)
    requires Reloading(s, count, mark)
    ensures Reloading(Moved(s, moves), count, mark)
  {
    if moves != [] {
      PlayStaysReloading(s, moves[..|moves| - 1], count, mark);
      NextStaysReloading(Moved(s, moves[..|moves| - 1]), moves[|moves| - 1], count, mark);
    }
  }

  /** After a TOBT-only write, whatever a worker begun before it sends was read back from the store after that write. */
  lemma TobtForcesReload(now: int, before: seq<Move>, after: seq<Move>)
    requires Moved(Initial(now), before).gate == ByTobt(TobtWritten)
    ensures var s := Moved(Initial(now), before);
            var end := Moved(Next(s, TobtMark), after);
            && |s.log| <= |end.log|
            && forall i :: |s.log| <= i < |end.log| && end.log[i].FromWorker? && end.log[i].id < |s.workers| ==>
                 end.log[i].loadedAt.Some? && end.log[i].loadedAt.value >= |s.log|
  {
    var s := Moved(Initial(now), before);
    OneWorkerPerAttempt(now, before);
    PlayStaysReloading(Next(s, TobtMark), after, |s.workers|, |s.log|);
  }
}
