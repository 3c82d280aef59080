/** The circular search for a take-off time: the loop of `calculateWithTrace` in
    backend/internal/cdm/calculate.go. */
module Search {
  import opened Text
  import opened Clock
  import opened Config
  import opened Separation

  const STEP := 30
  const GRID := 2880  // points of the half-minute grid through any time of day

  /** One bump of the search. `spacing` is in seconds. */
  datatype TraceEntry = TraceEntry(kind: Kind, callsign: string, ttot: Clock, runway: string, sid: string,
                                   spacing: real, from: Clock, to: Clock)

  function Point(start: Second, k: nat): Second {
    (start + STEP * k) % DAY
  }

  /** The bump that the first conflicting slot causes at time `t`, if there is one. */
  function BumpAt(t: Second, who: Profile, slots: seq<SlotEntry>, cfg: AirportConfig): Option<TraceEntry> {
    if slots == [] then None
    else
      var slot := slots[0];
      match Judge(t, who, slot, cfg)
      case Free => BumpAt(t, who, slots[1..], cfg)
      case Bump(kind, spacing) =>
        Some(TraceEntry(kind, slot.who.callsign, slot.ttot, slot.who.depRwy, slot.who.sid, spacing, At(t),
                        Shift(At(t), STEP)))
  }

  predicate Blocked(t: Second, who: Profile, slots: seq<SlotEntry>, cfg: AirportConfig) {
    BumpAt(t, who, slots, cfg).Some?
  }

  /** The least index from `k` up that is free, or none when the whole grid is not. */
  function FirstFree(free: nat -> bool, k: nat): Option<nat>
    requires k <= GRID
    decreases GRID - k
  {
    if k == GRID then None else if free(k) then Some(k) else FirstFree(free, k + 1)
  }

  function FreePoints(start: Second, who: Profile, slots: seq<SlotEntry>, cfg: AirportConfig): nat -> bool {
    (k: nat) => !Blocked(Point(start, k), who, slots, cfg)
  }

  /** The number of bumps until the search rests, or none when it circles forever. */
  function Bumps(start: Second, who: Profile, slots: seq<SlotEntry>, cfg: AirportConfig): Option<nat> {
    FirstFree(FreePoints(start, who, slots, cfg), 0)
  }

  lemma {:induction false} BlockedBySome(t: Second, who: Profile, slots: seq<SlotEntry>, cfg: AirportConfig)
    ensures Blocked(t, who, slots, cfg) <==> exists s :: s in slots && Judge(t, who, s, cfg).Bump?
  {
    if slots != [] {
      BlockedBySome(t, who, slots[1..], cfg);
      assert slots == [slots[0]] + slots[1..];
    }
  }

  /** If one flight's minima do not cover another's of its runway, then wherever that other one is, there is a time from
      which the search places the first at once, breaking the other's minima. */
  lemma SearchBreaksTheOther(cfg: AirportConfig, later: Profile, earlier: Profile, t: Second) returns (s: Second)
    requires Token(later.origin) == Token(earlier.origin) && Token(later.callsign) != Token(earlier.callsign)
    requires SameRunway(later.depRwy, earlier.depRwy) && !KeepsBoth(cfg, later, earlier)
    ensures Bumps(s, later, [SlotEntry(earlier, At(t))], cfg) == Some(0)
    ensures !Spaced(SlotEntry(earlier, At(t)), SlotEntry(later, At(s)), cfg)
  {
    s := OneBreaksTheOther(cfg, later, earlier, t);
    FreeExactlyWhenSpaced(s, later, SlotEntry(earlier, At(t)), cfg);
    FreeWhereItStarts(s, later, SlotEntry(earlier, At(t)), cfg);
  }

  lemma FreeWhereItStarts(start: Second, who: Profile, slot: SlotEntry, cfg: AirportConfig)
    requires Judge(start, who, slot, cfg).Free?
    ensures Bumps(start, who, [slot], cfg) == Some(0)
  {
    BlockedBySome(start, who, [slot], cfg);
    assert Point(start, 0) == start;
    assert FreePoints(start, who, [slot], cfg)(0);
  }

  // ---- The search ends exactly when some grid point is free ----------------------------

  lemma PointRepeats(start: Second, k: nat)
    ensures Point(start, k) == Point(start, k % GRID)
  {
    var q := k / GRID;
    assert k == q * GRID + k % GRID;
    assert start + STEP * k == (start + STEP * (k % GRID)) + q * DAY;
    AddDays(start + STEP * (k % GRID), q);
  }

  lemma AddDays(x: nat, q: nat)
    ensures (x + q * DAY) % DAY == x % DAY
  {
    var p, r := x / DAY, x % DAY;
    assert x + q * DAY == (p + q) * DAY + r;
  }

  lemma {:induction false} FirstFreeIsLeast(free: nat -> bool, k: nat)
    requires k <= GRID
    ensures var r := FirstFree(free, k);
            && (r.Some? ==> k <= r.value < GRID && free(r.value))
            && (forall j: nat :: k <= j < (if r.Some? then r.value else GRID) ==> !free(j))
    decreases GRID - k
  {
    if k < GRID && !free(k) {
      FirstFreeIsLeast(free, k + 1);
    }
  }

  lemma {:induction false} FirstFreeIsExtensional(f: nat -> bool, g: nat -> bool, k: nat)
    requires k <= GRID
    requires forall j: nat :: f(j) == g(j)
    ensures FirstFree(f, k) == FirstFree(g, k)
    decreases GRID - k
  {
    if k < GRID {
      FirstFreeIsExtensional(f, g, k + 1);
    }
  }

  /** However long the loop runs, it finds a free point exactly when one of the 2880 is free. */
  lemma EndsExactlyWhenAPointIsFree(start: Second, who: Profile, slots: seq<SlotEntry>, cfg: AirportConfig)
    ensures Bumps(start, who, slots, cfg).Some? <==> exists k: nat :: !Blocked(Point(start, k), who, slots, cfg)
  {
    var free := FreePoints(start, who, slots, cfg);
    FirstFreeIsLeast(free, 0);
    if Bumps(start, who, slots, cfg).Some? {
      assert free(Bumps(start, who, slots, cfg).value);
    }
    if k: nat :| !Blocked(Point(start, k), who, slots, cfg) {
      PointRepeats(start, k);
      assert free(k % GRID);
    }
  }

  /** The search rests on the first free point: every point it passed was blocked. */
  lemma RestsOnTheFirstFreePoint(start: Second, who: Profile, slots: seq<SlotEntry>, cfg: AirportConfig)
    requires Bumps(start, who, slots, cfg).Some?
    ensures var k := Bumps(start, who, slots, cfg).value;
            && k < GRID && !Blocked(Point(start, k), who, slots, cfg)
            && forall j: nat :: j < k ==> Blocked(Point(start, j), who, slots, cfg)
  {
    var free := FreePoints(start, who, slots, cfg);
    FirstFreeIsLeast(free, 0);
    forall j: nat | j < Bumps(start, who, slots, cfg).value
      ensures Blocked(Point(start, j), who, slots, cfg)
    {
      assert !free(j);
    }
  }

  /** The answer depends on which slots are occupied, not on how they are listed or repeated. */
  lemma SearchIgnoresListing(start: Second, who: Profile, a: seq<SlotEntry>, b: seq<SlotEntry>, cfg: AirportConfig)
    requires forall s :: s in a <==> s in b
    ensures Bumps(start, who, a, cfg) == Bumps(start, who, b, cfg)
  {
    forall k: nat
      ensures Blocked(Point(start, k), who, a, cfg) == Blocked(Point(start, k), who, b, cfg)
    {
      BlockedBySome(Point(start, k), who, a, cfg);
      BlockedBySome(Point(start, k), who, b, cfg);
    }
    FirstFreeIsExtensional(FreePoints(start, who, a, cfg), FreePoints(start, who, b, cfg), 0);
  }

  // ---- Pigeonhole bound --------------------------------------------------------------------

  /** How many grid points one slot can block when it reaches less than `w` seconds either way. */
  function Spread(w: nat): nat {
    if w == 0 then 1 else (w + 14) / 15
  }

  lemma {:induction false} InjectionBound(s: set<nat>, f: nat -> int, n: nat)
    requires forall x :: x in s ==> 0 <= f(x) < n
    requires forall x, y :: x in s && y in s && f(x) == f(y) ==> x == y
    ensures |s| <= n
    decreases n
  {
    if n == 0 {
      assert s == {} by {
        if x :| x in s {
          assert false;
        }
      }
    } else if x :| x in s && f(x) == n - 1 {
      InjectionBound(s - {x}, f, n - 1);
    } else {
      InjectionBound(s, f, n - 1);
    }
  }

  lemma PointsDiffer(start: Second, j: nat, k: nat)
    requires j < GRID && k < GRID && Point(start, j) == Point(start, k)
    ensures j == k
  {
    var a, b := start + STEP * j, start + STEP * k;
    assert a == a / DAY * DAY + a % DAY && b == b / DAY * DAY + b % DAY;
    assert STEP * (j - k) == (a / DAY - b / DAY) * DAY;
  }

  /** Distances from a fixed time to the grid points agree modulo the step. */
  lemma DistancesAgree(start: Second, s: Second, j: nat, k: nat)
    ensures (Between(At(s), At(Point(start, j))) - Between(At(s), At(Point(start, k)))) % STEP == 0
  {
    var a, b := start + STEP * j, start + STEP * k;
    var x, y := Between(At(s), At(a % DAY)), Between(At(s), At(b % DAY));
    var u := if x == a % DAY - s then 0 else if x == a % DAY - s + DAY then 1 else -1;
    var v := if y == b % DAY - s then 0 else if y == b % DAY - s + DAY then 1 else -1;
    assert x == a % DAY - s + u * DAY && y == b % DAY - s + v * DAY;
    assert a == a / DAY * DAY + a % DAY && b == b / DAY * DAY + b % DAY;
    var m := j - k + (u - v - a / DAY + b / DAY) * GRID;
    assert x - y == STEP * m;
    MultipleOfStep(m);
  }

  lemma MultipleOfStep(m: int)
    ensures (STEP * m) % STEP == 0
  {
  }

  predicate Near(t: Second, s: Second, w: nat) {
    t == s || Abs(Between(At(s), At(t))) < w
  }

  lemma NearPointsAreFew(start: Second, s: Second, w: nat, m: nat)
    requires m < GRID
    ensures |set k: nat | 0 <= k <= m && Near(Point(start, k), s, w)| <= Spread(w)
  {
    var hits := set k: nat | 0 <= k <= m && Near(Point(start, k), s, w);
    var low := if w == 0 then 0 else w - 1;
    var f := (k: nat) => (Between(At(s), At(Point(start, k))) + low) / STEP;
    forall k | k in hits
      ensures 0 <= f(k) < Spread(w)
    {
      assert -low <= Between(At(s), At(Point(start, k))) <= low;
    }
    forall j, k | j in hits && k in hits && f(j) == f(k)
      ensures j == k
    {
      DistancesAgree(start, s, j, k);
      var x, y := Between(At(s), At(Point(start, j))), Between(At(s), At(Point(start, k)));
      assert -STEP < x - y < STEP;
      assert x == y;
      BetweenIsTheShortWay(s, Point(start, j), x);
      BetweenIsTheShortWay(s, Point(start, k), y);
      PointsDiffer(start, j, k);
    }
    InjectionBound(hits, f, Spread(w));
  }

  /** The first `m + 1` grid points that one slot blocks, and that some slot of a list blocks. */
  function Hit(start: Second, m: nat, who: Profile, slot: SlotEntry, cfg: AirportConfig): set<nat> {
    set k: nat | 0 <= k <= m && Judge(Point(start, k), who, slot, cfg).Bump?
  }

  function HitAny(start: Second, m: nat, who: Profile, slots: seq<SlotEntry>, cfg: AirportConfig): set<nat> {
    if slots == [] then {} else Hit(start, m, who, slots[0], cfg) + HitAny(start, m, who, slots[1..], cfg)
  }

  lemma {:induction false} HitAnyIsBlocked(start: Second, m: nat, who: Profile, slots: seq<SlotEntry>,
                                           cfg: AirportConfig, k: nat)
    requires k <= m
    ensures k in HitAny(start, m, who, slots, cfg) <==> Blocked(Point(start, k), who, slots, cfg)
  {
    if slots != [] {
      HitAnyIsBlocked(start, m, who, slots[1..], cfg, k);
    }
  }

  lemma HitIsSmall(start: Second, m: nat, who: Profile, slot: SlotEntry, cfg: AirportConfig)
    requires m < GRID
    ensures |Hit(start, m, who, slot, cfg)| <= Spread(WidestWindow(cfg, who.depRwy))
  {
    var w := WidestWindow(cfg, who.depRwy);
    var hits := Hit(start, m, who, slot, cfg);
    if k :| k in hits {
      ConflictIsNear(Point(start, k), who, slot, cfg);
      var near := set k: nat | 0 <= k <= m && Near(Point(start, k), slot.ttot.sec, w);
      forall k | k in hits
        ensures k in near
      {
        ConflictIsNear(Point(start, k), who, slot, cfg);
      }
      NearPointsAreFew(start, slot.ttot.sec, w, m);
      SubsetSize(hits, near, {});
    }
  }

  lemma {:induction false} HitAnyIsSmall(start: Second, m: nat, who: Profile, slots: seq<SlotEntry>, cfg: AirportConfig)
    requires m < GRID
    ensures |HitAny(start, m, who, slots, cfg)| <= |slots| * Spread(WidestWindow(cfg, who.depRwy))
  {
    if slots != [] {
      var w := Spread(WidestWindow(cfg, who.depRwy));
      HitIsSmall(start, m, who, slots[0], cfg);
      HitAnyIsSmall(start, m, who, slots[1..], cfg);
      SubsetSize(HitAny(start, m, who, slots, cfg), Hit(start, m, who, slots[0], cfg),
                 HitAny(start, m, who, slots[1..], cfg));
      assert |slots| * w == (|slots| - 1) * w + w;
    }
  }

  lemma SubsetSize(s: set<nat>, a: set<nat>, b: set<nat>)
    requires s <= a + b
    ensures |s| <= |a| + |b|
  {
    assert (a + b) - s + s == a + b;
    assert a + b == a + (b - a);
    assert b - a + (b * a) == b;
  }

  /** With few enough slots the search ends, after at most one bump per point they can block. */
  lemma FewSlotsLeaveAFreePoint(start: Second, who: Profile, slots: seq<SlotEntry>, cfg: AirportConfig)
    requires |slots| * Spread(WidestWindow(cfg, who.depRwy)) < GRID
    ensures Bumps(start, who, slots, cfg).Some?
    ensures Bumps(start, who, slots, cfg).value <= |slots| * Spread(WidestWindow(cfg, who.depRwy))
  {
    var m := |slots| * Spread(WidestWindow(cfg, who.depRwy));
    var free, hits := FreePoints(start, who, slots, cfg), HitAny(start, m, who, slots, cfg);
    HitAnyIsSmall(start, m, who, slots, cfg);
    FirstFreeIsLeast(free, 0);
    if forall k: nat :: k <= m ==> !free(k) {
      forall k | k in UpTo(m)
        ensures k in hits
      {
        assert !free(k);
        HitAnyIsBlocked(start, m, who, slots, cfg, k);
      }
      SubsetSize(UpTo(m), hits, {});
      assert false;
    }
  }

  function UpTo(m: nat): (s: set<nat>)
    ensures |s| == m + 1
    ensures forall k: nat :: k in s <==> k <= m
  {
    if m == 0 then {0} else UpTo(m - 1) + {m}
  }
}
