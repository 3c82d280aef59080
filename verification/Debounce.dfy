/** The recalculation debouncer of backend/internal/cdm/debounce.go: its critical sections as steps on the entry of one
    key, and every interleaving of callers, goroutines and cancellation. Time is in nanoseconds. */
module Debounce {
  import opened Text

  /** An entry; `id` stands for the identity of the state object. */
  datatype Timer<+T> = Timer(id: T, last: int, scheduled: bool, running: bool, rerun: bool)

  datatype Wake = Gone | Early | Started

  /** A new entry gets a goroutine; a running one is marked to run again. `stamp` is the time read before locking. */
  function Scheduled<T>(slot: Option<Timer<T>>, stamp: int, unused: T): (Option<Timer<T>>, bool) {
    var e := if slot.Some? then slot.value.(last := stamp) else Timer(unused, stamp, false, false, false);
    if e.running then (Some(e.(rerun := true)), false)
    else if e.scheduled then (Some(e), false)
    else (Some(e.(scheduled := true)), true)
  }

  predicate Owns<T(==)>(slot: Option<Timer<T>>, id: T) {
    slot.Some? && slot.value.id == id
  }

  function Woken<T(==)>(slot: Option<Timer<T>>, id: T, now: int, interval: nat): (Option<Timer<T>>, Wake) {
    if !Owns(slot, id) then (slot, Gone)
    else if now < slot.value.last + interval then (slot, Early)
    else (Some(slot.value.(scheduled := false, running := true, rerun := false)), Started)
  }

  function Finished<T(==)>(slot: Option<Timer<T>>, id: T): (Option<Timer<T>>, bool) {
    if !Owns(slot, id) then (slot, false)
    else if slot.value.rerun then (Some(slot.value.(running := false, scheduled := true)), true)
    else (None, false)
  }

  // ---- Interleavings -----------------------------------------------------------------

  datatype Phase = Asleep | Running | Exited

  datatype Proc = Proc(id: nat, phase: Phase)

  /** One key's part of the system. `owed` says that a `Schedule` has not been followed by the start of a run, and
      `latest` is the latest stamp of any `Schedule` so far, if there was one. */
  datatype System = System(slot: Option<Timer<nat>>, procs: seq<Proc>, next: nat, clock: int, owed: bool,
                           latest: Option<int>)

  datatype Move = Schedule(stamp: int) | Awake(p: nat) | Return(p: nat) | Tick(now: int) | Cancel

  function Initial(now: int): System {
    System(None, [], 0, now, false, None)
  }

  function Max(a: int, b: int): int {
    if a >= b then a else b
  }

  function Next(s: System, m: Move, interval: nat): System {
    match m
    case Schedule(stamp) =>
      if stamp > s.clock then s
      else
        var (slot, launch) := Scheduled(s.slot, stamp, s.next);
        s.(slot := slot, next := s.next + 1, owed := true,
           latest := Some(if s.latest.Some? then Max(s.latest.value, stamp) else stamp),
           procs := if launch then s.procs + [Proc(slot.value.id, Asleep)] else s.procs)
    case Awake(p) =>
      if p >= |s.procs| || s.procs[p].phase != Asleep then s
      else
        var (slot, wake) := Woken(s.slot, s.procs[p].id, s.clock, interval);
        if wake == Early then s
        else s.(slot := slot, owed := s.owed && wake == Gone,
                procs := s.procs[p := s.procs[p].(phase := if wake == Started then Running else Exited)])
    case Return(p) =>
      if p >= |s.procs| || s.procs[p].phase != Running then s
      else
        var (slot, again) := Finished(s.slot, s.procs[p].id);
        s.(slot := slot, procs := s.procs[p := s.procs[p].(phase := if again then Asleep else Exited)])
    case Tick(now) => if now < s.clock then s else s.(clock := now)
    case Cancel => s.(slot := None, owed := false)
  }

  function Play(s: System, moves: seq<Move>, interval: nat): System {
    if moves == [] then s else Next(Play(s, moves[..|moves| - 1], interval), moves[|moves| - 1], interval)
  }

  /** The goroutine that owns the entry is where the entry's flags say, and it is the only one with that entry. */
  ghost predicate Matched(s: System, p: nat) {
    && s.slot.Some? && p < |s.procs| && s.procs[p].id == s.slot.value.id
    && s.procs[p].phase == (if s.slot.value.running then Running else Asleep)
    && s.slot.value.scheduled == !s.slot.value.running
  }

  ghost predicate Sound(s: System) {
    && (s.slot.Some? ==> exists p :: Matched(s, p))
    && (forall p :: 0 <= p < |s.procs| ==> s.procs[p].id < s.next)
    && (forall p, q :: 0 <= p < q < |s.procs| ==> s.procs[p].id != s.procs[q].id)
    && (s.owed ==> s.slot.Some? && (s.slot.value.scheduled || s.slot.value.rerun))
  }

  lemma OwnerMoves(s: System, m: Move, interval: nat, p: nat)
    requires Sound(s) && Matched(s, p) && (m.Awake? || m.Return?) && m.p == p
    ensures Sound(Next(s, m, interval))
  {
    var after := Next(s, m, interval);
    assert after.slot.Some? ==> Matched(after, p);
  }

  lemma StrangerMoves(s: System, m: Move, interval: nat)
    requires Sound(s) && (m.Awake? || m.Return?) && !Matched(s, m.p)
    ensures Sound(Next(s, m, interval)) && Next(s, m, interval).slot == s.slot
  {
    if s.slot.Some? {
      var p :| Matched(s, p);
      assert Matched(Next(s, m, interval), p);
    }
  }

  lemma CallerMoves(s: System, m: Move, interval: nat)
    requires Sound(s) && !m.Awake? && !m.Return?
    ensures Sound(Next(s, m, interval))
  {
    var after := Next(s, m, interval);
    if s.slot.Some? {
      var p :| Matched(s, p);
      assert after.slot.Some? ==> Matched(after, p);
    } else if after.slot.Some? {
      assert Matched(after, |s.procs|);
    }
  }

  lemma NextIsSound(s: System, m: Move, interval: nat)
    requires Sound(s)
    ensures Sound(Next(s, m, interval))
  {
    if m.Awake? || m.Return? {
      if Matched(s, m.p) {
        OwnerMoves(s, m, interval, m.p);
      } else {
        StrangerMoves(s, m, interval);
      }
    } else {
      CallerMoves(s, m, interval);
    }
  }

  /** In every interleaving, cancellation included, a pending entry is exactly one of scheduled and running and belongs
      to exactly one goroutine, which is waiting or running accordingly; and a `Schedule` that no run start has followed
      leaves the entry scheduled or marked to run again, unless it was cancelled. */
  lemma {:induction false} EntriesAreOwned(now: int, moves: seq<Move>, interval: nat)
    ensures Sound(Play(Initial(now), moves, interval))
  {
    if moves != [] {
      EntriesAreOwned(now, moves[..|moves| - 1], interval);
      NextIsSound(Play(Initial(now), moves[..|moves| - 1], interval), moves[|moves| - 1], interval);
    }
  }

  // ---- Without cancellation runs do not overlap ---------------------------------------------

  /** Every goroutine that has not exited owns the pending entry. */
  ghost predicate Alone(s: System) {
    forall p :: 0 <= p < |s.procs| && !s.procs[p].phase.Exited? ==> Owns(s.slot, s.procs[p].id)
  }

  lemma NextIsAlone(s: System, m: Move, interval: nat)
    requires Sound(s) && Alone(s) && !m.Cancel?
    ensures Alone(Next(s, m, interval))
  {
    var after := Next(s, m, interval);
    if s.slot.Some? {
      var p :| Matched(s, p);
      assert forall q :: 0 <= q < |s.procs| && q != p ==> s.procs[q].phase.Exited?;
    }
  }

  lemma {:induction false} RunsNeverOverlap(now: int, moves: seq<Move>, interval: nat)
    requires forall m :: m in moves ==> !m.Cancel?
    ensures var s := Play(Initial(now), moves, interval);
            && Alone(s)
            && forall p, q | 0 <= p < |s.procs| && 0 <= q < |s.procs| ::
                 s.procs[p].phase.Running? && s.procs[q].phase.Running? ==> p == q
  {
    var s := Play(Initial(now), moves, interval);
    EntriesAreOwned(now, moves, interval);
    if moves != [] {
      var init := moves[..|moves| - 1];
      assert forall m :: m in init ==> m in moves;
      RunsNeverOverlap(now, init, interval);
      EntriesAreOwned(now, init, interval);
      NextIsAlone(Play(Initial(now), init, interval), moves[|moves| - 1], interval);
    }
    forall p, q | 0 <= p < |s.procs| && 0 <= q < |s.procs| && s.procs[p].phase.Running? && s.procs[q].phase.Running?
      ensures p == q
    {
      assert Owns(s.slot, s.procs[p].id) && Owns(s.slot, s.procs[q].id);
    }
  }

  // ---- After cancellation ---------------------------------------------------------------------

  ghost predicate Retired(s: System, count: nat, bound: nat) {
    && count <= |s.procs| && bound <= s.next
    && (s.slot.Some? ==> s.slot.value.id >= bound)
    && (forall p :: 0 <= p < count ==> s.procs[p].id < bound)
  }

  /** A goroutine started before a cancellation may finish the run it is in, but starts no other, whatever follows. */
  lemma {:induction false} CancelledStartNoRun(now: int, before: seq<Move>, after: seq<Move>, interval: nat, p: nat)
    requires p < |Play(Initial(now), before, interval).procs|
    ensures var s := Next(Play(Initial(now), before, interval), Cancel, interval);
            var end := Play(s, after, interval);
            && Retired(end, |s.procs|, s.next) && p < |end.procs|
            && (end.procs[p].phase.Running? ==> s.procs[p].phase.Running?)
  {
    var s := Next(Play(Initial(now), before, interval), Cancel, interval);
    EntriesAreOwned(now, before, interval);
    if after != [] {
      CancelledStartNoRun(now, before, after[..|after| - 1], interval, p);
    }
  }

  // ---- A full interval of quiet ----------------------------------------------------------------

  /** The start of a run: goroutine `p` wakes and goes on to run. */
  ghost predicate StartsRun(s: System, p: nat, interval: nat) {
    p < |s.procs| && s.procs[p].phase.Asleep? && Next(s, Awake(p), interval).procs[p].phase.Running?
  }

  /** Stamps reach the lock in the order in which they were read. */
  predicate InOrder(s: System, m: Move) {
    m.Schedule? && s.latest.Some? ==> m.stamp >= s.latest.value
  }

  ghost predicate AllInOrder(now: int, moves: seq<Move>, interval: nat) {
    forall n | 0 <= n < |moves| :: InOrder(Play(Initial(now), moves[..n], interval), moves[n])
  }

  lemma StartIsInOrder(now: int, moves: seq<Move>, interval: nat, n: nat)
    requires AllInOrder(now, moves, interval) && n <= |moves|
    ensures AllInOrder(now, moves[..n], interval)
  {
    forall k | 0 <= k < n
      ensures InOrder(Play(Initial(now), moves[..n][..k], interval), moves[..n][k])
    {
      assert moves[..n][..k] == moves[..k];
    }
  }

  lemma NextKeepsLast(s: System, m: Move, interval: nat)
    requires InOrder(s, m) && (s.slot.Some? ==> Some(s.slot.value.last) == s.latest)
    ensures var after := Next(s, m, interval); after.slot.Some? ==> Some(after.slot.value.last) == after.latest
  {
  }

  lemma {:induction false} LastIsLatest(now: int, moves: seq<Move>, interval: nat)
    requires AllInOrder(now, moves, interval)
    ensures var s := Play(Initial(now), moves, interval); s.slot.Some? ==> Some(s.slot.value.last) == s.latest
  {
    if moves != [] {
      var n := |moves| - 1;
      StartIsInOrder(now, moves, interval, n);
      LastIsLatest(now, moves[..n], interval);
      NextKeepsLast(Play(Initial(now), moves[..n], interval), moves[n], interval);
    }
  }

  lemma {:induction false} LastIsNoLater(now: int, moves: seq<Move>, interval: nat)
    ensures var s := Play(Initial(now), moves, interval);
            s.slot.Some? ==> s.latest.Some? && s.slot.value.last <= s.latest.value
  {
    if moves != [] {
      LastIsNoLater(now, moves[..|moves| - 1], interval);
    }
  }

  /** A full interval has gone by since every `Schedule` so far. */
  predicate IsQuiet(s: System, interval: nat) {
    s.latest.Some? ==> s.clock >= s.latest.value + interval
  }

  /** Left alone from here on, goroutine `p` starts its next run only a full interval after every earlier `Schedule`. */
  ghost predicate WillWait(s: System, p: nat, interval: nat) {
    forall t :: StartsRun(Next(s, Tick(t), interval), p, interval) ==> IsQuiet(Next(s, Tick(t), interval), interval)
  }

  lemma WaitsFromLast(s: System, p: nat, interval: nat)
    requires Matched(s, p) && !s.slot.value.running
    requires s.latest.Some? && s.slot.value.last <= s.latest.value
    ensures WillWait(s, p, interval) <==> s.slot.value.last == s.latest.value || IsQuiet(s, interval)
  {
    var t := Max(s.clock, s.slot.value.last + interval);
    assert StartsRun(Next(s, Tick(t), interval), p, interval);
  }

  /** In a reachable state that waits for a run, the run waits out a full interval after every earlier `Schedule`
      exactly when the call that locked last carries the latest stamp, or that interval has gone by already. */
  lemma QuietExactlyWhenLastIsLatest(now: int, moves: seq<Move>, interval: nat, p: nat)
    requires var s := Play(Initial(now), moves, interval);
             Matched(s, p) && !s.slot.value.running
    ensures var s := Play(Initial(now), moves, interval);
            WillWait(s, p, interval) <==> Some(s.slot.value.last) == s.latest || IsQuiet(s, interval)
  {
    LastIsNoLater(now, moves, interval);
    WaitsFromLast(Play(Initial(now), moves, interval), p, interval);
  }

  /** So runs wait for quiet in every interleaving whose calls take the lock in stamp order. */
  lemma RunsWaitForQuiet(now: int, moves: seq<Move>, interval: nat, p: nat)
    requires AllInOrder(now, moves, interval) && StartsRun(Play(Initial(now), moves, interval), p, interval)
    ensures IsQuiet(Play(Initial(now), moves, interval), interval)
  {
    LastIsLatest(now, moves, interval);
  }

  /** Two calls that take the lock in the other order shorten the wait: stamps 10 and 15 are read, 15 is locked in
      first, and with an interval of 20 a run starts at 30, only 15 after the later call. */
  lemma OvertakingShortensTheWait()
    ensures var moves := [Tick(15), Schedule(15), Schedule(10), Tick(30)];
            var s := Play(Initial(0), moves, 20);
            StartsRun(s, 0, 20) && s.clock == 30 && s.latest == Some(15) && !IsQuiet(s, 20)
  {
    var moves := [Tick(15), Schedule(15), Schedule(10), Tick(30)];
    var s := Initial(0);
    assert moves[..3][..2][..1][..0] == [] && moves[..3][..2][..1] == [moves[0]];
    assert Play(s, moves[..3][..2][..1], 20) == Next(s, Tick(15), 20);
    assert moves[..3][..2][1] == Schedule(15) && moves[..3][2] == Schedule(10);
    assert Play(s, moves[..3][..2], 20) == Next(Next(s, Tick(15), 20), Schedule(15), 20);
  }

  // ---- No run without a request ----------------------------------------------------------------

  /** Whatever is scheduled or marked to run again was asked for after the last start. */
  ghost predicate IsOwed(s: System) {
    s.slot.Some? && (s.slot.value.scheduled || s.slot.value.rerun) ==> s.owed
  }

  lemma NextIsOwed(s: System, m: Move, interval: nat)
    requires IsOwed(s) && Sound(s)
    ensures IsOwed(Next(s, m, interval))
  {
    if m.Awake? && m.p < |s.procs| && Owns(s.slot, s.procs[m.p].id) {
      var p :| Matched(s, p);
      assert p == m.p;
    }
  }

  lemma {:induction false} RunsAreOwed(now: int, moves: seq<Move>, interval: nat)
    ensures IsOwed(Play(Initial(now), moves, interval))
  {
    if moves != [] {
      var init := moves[..|moves| - 1];
      RunsAreOwed(now, init, interval);
      EntriesAreOwned(now, init, interval);
      NextIsOwed(Play(Initial(now), init, interval), moves[|moves| - 1], interval);
    }
  }

  lemma {:induction false} NothingOwedStays(s: System, moves: seq<Move>, interval: nat)
    requires !s.owed && forall m :: m in moves ==> !m.Schedule?
    ensures !Play(s, moves, interval).owed
  {
    if moves != [] {
      assert moves[|moves| - 1] in moves && forall m :: m in moves[..|moves| - 1] ==> m in moves;
      NothingOwedStays(s, moves[..|moves| - 1], interval);
    }
  }

  lemma {:induction false} PlayOn(s: System, a: seq<Move>, b: seq<Move>, interval: nat)
    ensures Play(s, a + b, interval) == Play(Play(s, a, interval), b, interval)
  {
    if b == [] {
      assert a + b == a;
    } else {
      assert (a + b)[..|a + b| - 1] == a + b[..|b| - 1];
      PlayOn(s, a, b[..|b| - 1], interval);
    }
  }

  /** Between two starts of a run, whichever goroutines make them, there is a request: nothing runs twice for one. */
  lemma StartsAreRequested(now: int, before: seq<Move>, between: seq<Move>, interval: nat, p: nat, q: nat)
    requires var s := Play(Initial(now), before, interval);
             StartsRun(s, p, interval) && StartsRun(Play(Next(s, Awake(p), interval), between, interval), q, interval)
    ensures exists m :: m in between && m.Schedule?
  {
    var s := Play(Initial(now), before, interval);
    var started := Next(s, Awake(p), interval);
    if forall m :: m in between ==> !m.Schedule? {
      NothingOwedStays(started, between, interval);
      var all := before + [Awake(p)];
      assert all[..|before|] == before;
      PlayOn(Initial(now), all, between, interval);
      RunsAreOwed(now, all + between, interval);
      EntriesAreOwned(now, all + between, interval);
      StartIsOwed(Play(Initial(now), all + between, interval), q, interval);
    }
  }

  lemma StartIsOwed(s: System, q: nat, interval: nat)
    requires IsOwed(s) && Sound(s) && StartsRun(s, q, interval)
    ensures s.owed
  {
    var r :| Matched(s, r);
    assert Owns(s.slot, s.procs[q].id) && r == q;
  }

  // ---- The debouncer as an object --------------------------------------------------------------

  class TimerState {
    var lastScheduled: int
    var scheduled: bool
    var running: bool
    var rerun: bool

    constructor ()
      ensures !scheduled && !running && !rerun
    {
      lastScheduled, scheduled, running, rerun := 0, false, false, false;
    }

    ghost function AsTimer(): Timer<TimerState>
      reads this
    {
      Timer(this, lastScheduled, scheduled, running, rerun)
    }
  }

  /** Each method is one critical section of the source; the sleeping and the run between them belong to the
      goroutine. */
  class Debouncer {
    const interval: nat
    var pending: map<string, TimerState>

    constructor (interval: nat)
      ensures Valid() && this.interval == interval && pending == map[]
    {
      this.interval, pending := interval, map[];
    }

    ghost predicate Valid()
      reads this
    {
      forall k, l :: k in pending && l in pending && k != l ==> pending[k] != pending[l]
    }

    ghost function At(key: string): Option<Timer<TimerState>>
      reads this, pending.Values
    {
      if key in pending then Some(pending[key].AsTimer()) else None
    }

    twostate predicate OnlyAt(key: string)
      reads this, pending.Values
    {
      forall l :: l != key ==> At(l) == old(At(l))
    }

    /** Returns the entry for which a goroutine has to be started, if there is one. */
    method Schedule(key: string, stamp: int) returns (launch: TimerState?)
      requires Valid()
      modifies this, pending.Values
      ensures Valid() && OnlyAt(key)
      ensures key == "" ==> launch == null && At(key) == old(At(key))
      ensures key != "" ==> At(key).Some? && (launch == null || launch == At(key).value.id)
      ensures launch != null && old(At(key)).None? ==> fresh(launch)
      ensures key != "" ==> (At(key), launch != null) == Scheduled(old(At(key)), stamp, At(key).value.id)
    {
      if key == "" {
        return null;
      }
      if key !in pending {
        var created := new TimerState();
        pending := pending[key := created];
      }
      var state := pending[key];
      state.lastScheduled := stamp;
      if state.running {
        state.rerun := true;
        return null;
      }
      if state.scheduled {
        return null;
      }
      state.scheduled := true;
      return state;
    }

    method TryStart(key: string, expected: TimerState, now: int) returns (wake: Wake)
      requires Valid()
      modifies expected
      ensures Valid() && OnlyAt(key)
      ensures (At(key), wake) == Woken(old(At(key)), expected, now, interval)
    {
      if key !in pending || pending[key] != expected {
        return Gone;
      }
      if now < expected.lastScheduled + interval {
        return Early;
      }
      expected.scheduled, expected.running, expected.rerun := false, true, false;
      return Started;
    }

    method Finish(key: string, expected: TimerState) returns (again: bool)
      requires Valid()
      modifies this, expected
      ensures Valid() && OnlyAt(key)
      ensures (At(key), again) == Finished(old(At(key)), expected)
    {
      if key !in pending || pending[key] != expected {
        return false;
      }
      expected.running := false;
      if expected.rerun {
        expected.scheduled := true;
        return true;
      }
      pending := pending - {key};
      return false;
    }

    method CancelPrefix(prefix: string)
      requires Valid()
      modifies this`pending
      ensures Valid() && forall k :: At(k) == if HasPrefix(k, prefix) then None else old(At(k))
    {
      var todo := pending.Keys;
      while todo != {}
        invariant todo <= pending.Keys <= old(pending).Keys
        invariant forall k :: k in pending ==> pending[k] == old(pending)[k] && (k in todo || !HasPrefix(k, prefix))
        invariant forall k :: k in old(pending) && k !in pending ==> HasPrefix(k, prefix)
        decreases |todo|
      {
        var key :| key in todo;
        if HasPrefix(key, prefix) {
          pending := pending - {key};
        }
        todo := todo - {key};
      }
    }
  }

  predicate HasPrefix(s: string, prefix: string) {
    |prefix| <= |s| && s[..|prefix|] == prefix
  }

  lemma PrefixedKeys(key: string, prefix: string)
    ensures HasPrefix(key, prefix) <==> exists rest :: key == prefix + rest
  {
    if HasPrefix(key, prefix) {
      assert key == prefix + key[|prefix|..];
    }
  }
}
