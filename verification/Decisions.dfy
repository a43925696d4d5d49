/**
 What a plan decides, request by request, told from the queue, the snapshot and the policy: every verdict, tier
 and reason, with the slots and tokens in use counted over the requests ahead of it.
 */
module Decisions {
  import opened Options
  import opened Capacity
  import opened Admission
  import opened AdmissionLaws
  import opened Readings

  /** The classes from the highest to the lowest priority. */
  const ORDER: seq<Class> := [OwnerTurn, BuildMission, ControlRepair, StaffOps, Audit, Coach, Research, Experimental]

  predicate Outranks(c: Class, d: Class) {
    exists x, y :: 0 <= x < y < |ORDER| && ORDER[x] == c && ORDER[y] == d
  }

  /** Request `j` is decided before request `i`: its class is better, or the same and it stands earlier. */
  predicate Ahead(queue: seq<Request>, j: nat, i: nat)
    requires i < |queue|
  {
    j < |queue| && (Outranks(queue[j].class_, queue[i].class_) || (queue[j].class_ == queue[i].class_ && j < i))
  }

  // ---------------------------------------------------------------- what is in use

  ghost function GrantsAhead(queue: seq<Request>, i: nat, s: Snapshot, p: Policy): nat -> int
    requires i < |queue|
  {
    (j: nat) => if Ahead(queue, j, i) && Granted(queue, s, p, j) then 1 else 0
  }

  ghost function ClassGrantsAhead(queue: seq<Request>, i: nat, s: Snapshot, p: Policy): nat -> int
    requires i < |queue|
  {
    (j: nat) => if Ahead(queue, j, i) && Granted(queue, s, p, j) && queue[j].class_ == queue[i].class_ then 1 else 0
  }

  ghost function TokensAhead(queue: seq<Request>, i: nat, s: Snapshot, p: Policy): nat -> int
    requires i < |queue|
  {
    (j: nat) => if Ahead(queue, j, i) && Granted(queue, s, p, j) then queue[j].estTokens else 0
  }

  function RunningNow(m: map<Class, int>, c: Class): int {
    if c in m && m[c] > 0 then m[c] else 0
  }

  /** Background cycles in flight once the requests ahead are decided. */
  ghost function InUse(queue: seq<Request>, i: nat, s: Snapshot, p: Policy): int
    requires i < |queue|
  {
    RunningNow(s.running, ControlRepair) + RunningNow(s.running, StaffOps) + RunningNow(s.running, Audit)
    + RunningNow(s.running, Coach) + RunningNow(s.running, Research) + RunningNow(s.running, Experimental)
    + SumTo(|queue|, GrantsAhead(queue, i, s, p))
  }

  ghost function InUseOfClass(queue: seq<Request>, i: nat, s: Snapshot, p: Policy): int
    requires i < |queue|
  {
    RunningNow(s.running, queue[i].class_) + SumTo(|queue|, ClassGrantsAhead(queue, i, s, p))
  }

  /** A real number cut off toward zero. */
  predicate CutsOff(k: int, x: real) {
    if x >= 0.0 then k as real <= x < k as real + 1.0 else k as real - 1.0 < x <= k as real
  }

  /** Tokens that the requests ahead leave to background work, when the owner keeps `reserved`. */
  ghost function SpareTokens(queue: seq<Request>, i: nat, s: Snapshot, p: Policy, reserved: int): int
    requires i < |queue|
  {
    var left := s.tokensBudget - s.tokensUsed - reserved;
    (if left < 0 then 0 else left) - SumTo(|queue|, TokensAhead(queue, i, s, p))
  }

  // ---------------------------------------------------------------- the first obstacle

  /** The first thing in the way of a background request, if anything is. */
  ghost function Obstacle(queue: seq<Request>, i: nat, s: Snapshot, p: Policy, reserved: int): Option<Reason>
    requires i < |queue|
  {
    var c, pressure := queue[i].class_, Assess(s, p).pressure;
    var bears, bound := c in p.loadBearing, if c in p.maxPerClass then p.maxPerClass[c] else 1;
    if pressure == Critical then Some(if MemoryDecides(s, p) then HostSaturated else CriticalOwnerOnly)
    else if pressure == Tight && !bears then Some(if MemoryDecides(s, p) then HostSaturated else TightLoadBearing)
    else if LoadHigh(s, p) && !bears then Some(AmbientLoad)
    else if p.ownerBusyDefers && s.ownerActive && !bears then Some(OwnerTurnActive)
    else if 0 < p.maxBackground <= InUse(queue, i, s, p) then Some(BackgroundSlots)
    else if 0 < bound <= InUseOfClass(queue, i, s, p) then Some(ClassSlots)
    else if s.tokensBudget > 0 && queue[i].estTokens > 0 && queue[i].estTokens > SpareTokens(queue, i, s, p, reserved) then
      Some(TokenReserve)
    else None
  }

  /** The answer to request `i`. */
  ghost predicate Answers(queue: seq<Request>, i: nat, s: Snapshot, p: Policy, reserved: int, d: Decision)
    requires i < |queue|
  {
    var r, pressure := queue[i], Assess(s, p).pressure;
    && d.class_ == r.class_ && d.name == r.name && d.pressure == pressure
    && (d.verdict, d.tier, d.reason) ==
         if p.disabled then (Admit, Full, HeadroomOK)
         else if r.class_ == OwnerTurn || (r.class_ == BuildMission && !s.spawnHalted) then (Admit, Full, OwnerPriority)
         else if r.class_ == BuildMission then (Defer, NoTier, SpawnHalted)
         else
           match Obstacle(queue, i, s, p, reserved)
           case Some(reason) => (Defer, NoTier, reason)
           case None =>
             if pressure == Elevated && r.degradable && r.class_ !in p.loadBearing
             then (Degrade, Reduced, ElevatedDegrade) else (Admit, Full, HeadroomOK)
  }

  // ---------------------------------------------------------------- the order of decisions

  lemma OutranksByRank(c: Class, d: Class)
    ensures Outranks(c, d) <==> Rank(c) < Rank(d)
    ensures Rank(c) == Rank(d) <==> c == d
  {
    assert forall k :: 0 <= k < |ORDER| ==> Rank(ORDER[k]) == k;
    assert ORDER[Rank(c)] == c && ORDER[Rank(d)] == d;
  }

  lemma AheadByRank(queue: seq<Request>, j: nat, i: nat)
    requires i < |queue| && j < |queue|
    ensures Ahead(queue, j, i) <==> After(queue, j, i)
  {
    hide Outranks, Rank;
    OutranksByRank(queue[j].class_, queue[i].class_);
  }

  /** Items in strict priority order. */
  ghost predicate Ranked(queue: seq<Request>, items: seq<Item>) {
    && (forall m :: 0 <= m < |items| ==> items[m].index < |queue| && items[m].req == queue[items[m].index])
    && forall m, n :: 0 <= m < n < |items| ==> After(queue, items[m].index, items[n].index)
  }

  lemma {:induction false} ItemsRanked(queue: seq<Request>, n: nat, k: nat)
    requires n <= |queue|
    ensures var items := ItemsOfRank(queue[..n], k);
      Ranked(queue, items) && forall m :: 0 <= m < |items| ==> items[m].index < n && Rank(items[m].req.class_) == k
  {
    if n > 0 {
      assert queue[..n][..n - 1] == queue[..n - 1];
      ItemsRanked(queue, n - 1, k);
    }
  }

  lemma {:induction false} OrderRanked(queue: seq<Request>, k: nat)
    ensures var items := RankOrder(queue, k);
      Ranked(queue, items) && forall m :: 0 <= m < |items| ==> Rank(items[m].req.class_) < k
  {
    hide ItemsOfRank;
    if k > 0 {
      OrderRanked(queue, k - 1);
      assert queue[..|queue|] == queue;
      ItemsRanked(queue, |queue|, k - 1);
    }
  }

  // ---------------------------------------------------------------- sums over the requests ahead

  /** `w` over the requests ahead of `i`. */
  ghost function Only(queue: seq<Request>, i: nat, w: nat -> int): nat -> int
    requires i < |queue|
  {
    (j: nat) => if Ahead(queue, j, i) then w(j) else 0
  }

  lemma {:induction false} SumsAgree(items: seq<Item>, k: nat, v: nat -> int, w: nat -> int)
    requires k <= |items|
    requires forall m :: 0 <= m < k ==> v(items[m].index) == w(items[m].index)
    ensures SumItems(items[..k], v) == SumItems(items[..k], w)
  {
    if k > 0 {
      SumsAgree(items, k - 1, v, w);
      SumItemsNext(items, k - 1, v);
      SumItemsNext(items, k - 1, w);
    }
  }

  lemma {:induction false} SumStops(items: seq<Item>, k: nat, n: nat, w: nat -> int)
    requires k <= n <= |items| && forall m :: k <= m < n ==> w(items[m].index) == 0
    ensures SumItems(items[..n], w) == SumItems(items[..k], w)
  {
    if k < n {
      SumStops(items, k, n - 1, w);
      SumItemsNext(items, n - 1, w);
    }
  }

  /** What the items before the one of request `i` add up to is what the requests ahead of it do. */
  lemma SumAhead(queue: seq<Request>, k: nat, w: nat -> int)
    requires k < |RankOrder(queue, 8)| && RankOrder(queue, 8)[k].index < |queue|
    ensures SumItems(RankOrder(queue, 8)[..k], w) == SumTo(|queue|, Only(queue, RankOrder(queue, 8)[k].index, w))
  {
    hide RankOrder, Ahead, After, SumItems, SumTo;
    var items := RankOrder(queue, 8);
    var i := items[k].index;
    OrderRanked(queue, 8);
    forall m | 0 <= m < |items| ensures Ahead(queue, items[m].index, i) <==> m < k {
      AheadByRank(queue, items[m].index, i);
      if m >= k {
        NotAfter(queue, items, k, m);
      }
    }
    SumsAgree(items, k, w, Only(queue, i, w));
    SumStops(items, k, |items|, Only(queue, i, w));
    assert items[..|items|] == items;
    OrderSum(queue, Only(queue, i, w));
  }

  lemma NotAfter(queue: seq<Request>, items: seq<Item>, k: nat, m: nat)
    requires Ranked(queue, items) && k <= m < |items|
    ensures !After(queue, items[m].index, items[k].index)
  {
    if k < m {
      assert After(queue, items[k].index, items[m].index);
    }
  }

  lemma {:induction false} SameSum(n: nat, v: nat -> int, w: nat -> int)
    requires forall j: nat :: j < n ==> v(j) == w(j)
    ensures SumTo(n, v) == SumTo(n, w)
  {
    if n > 0 {
      SameSum(n - 1, v, w);
    }
  }

  // ---------------------------------------------------------------- the slots a request finds

  lemma PlaceOf(queue: seq<Request>, i: nat) returns (k: nat)
    requires i < |queue|
    ensures k < |RankOrder(queue, 8)| && RankOrder(queue, 8)[k].index == i
    ensures Requests(RankOrder(queue, 8)[..k]) == Before(queue, i)
  {
    hide RankOrder, Before;
    OrderCovers(queue, 8, i);
    k :| 0 <= k < |RankOrder(queue, 8)| && RankOrder(queue, 8)[k] == Item(queue[i], i);
    OrderBefore(queue, 8, k);
  }

  ghost predicate FindsSlots(queue: seq<Request>, i: nat, s: Snapshot, p: Policy, slots: Slots, reserved: int)
    requires i < |queue|
  {
    && slots.background == InUse(queue, i, s, p)
    && InFlight(slots, queue[i].class_) == InUseOfClass(queue, i, s, p)
    && (s.tokensBudget <= 0 ==> slots.tokensLeft < 0)
    && (s.tokensBudget > 0 ==> slots.tokensLeft == SpareTokens(queue, i, s, p, reserved) && slots.tokensLeft >= 0)
  }

  lemma SlotsFound(queue: seq<Request>, i: nat, s: Snapshot, p: Policy, reserved: int)
    requires i < |queue| && !p.disabled && Background(queue[i].class_)
    requires s.tokensBudget > 0 ==> CutsOff(reserved, s.tokensBudget as real * p.ownerReserve)
    ensures FindsSlots(queue, i, s, p, SlotsAfter(Before(queue, i), s, p, Assess(s, p)), reserved)
  {
    hide RankOrder, Assess, SlotsAfter, Planned, SumItems, SumTo, TokenAllowance, RunningIn, RunningTotal, CutsOff;
    var k := PlaceOf(queue, i);
    var c, items := queue[i].class_, RankOrder(queue, 8);
    BoundsHold(queue, k, s, p, c);
    SumAhead(queue, k, TokensOf(queue, s, p));
    SumAhead(queue, k, CyclesOf(queue, s, p));
    SumAhead(queue, k, CyclesOfClass(queue, s, p, c));
    SameSum(|queue|, Only(queue, i, TokensOf(queue, s, p)), TokensAhead(queue, i, s, p));
    SameSum(|queue|, Only(queue, i, CyclesOf(queue, s, p)), GrantsAhead(queue, i, s, p));
    SameSum(|queue|, Only(queue, i, CyclesOfClass(queue, s, p, c)), ClassGrantsAhead(queue, i, s, p));
    SlotsInUse(s.running);
    AllowanceIs(s, p, reserved);
  }

  lemma AllowanceIs(s: Snapshot, p: Policy, reserved: int)
    requires s.tokensBudget > 0 ==> CutsOff(reserved, s.tokensBudget as real * p.ownerReserve)
    ensures TokenAllowance(s, p) == if s.tokensBudget <= 0 then -1
      else if s.tokensBudget - s.tokensUsed - reserved < 0 then 0 else s.tokensBudget - s.tokensUsed - reserved
  {
    var x := s.tokensBudget as real * p.ownerReserve;
    if s.tokensBudget > 0 {
      CutsOffOnce(Truncated(x), reserved, x);
    }
  }

  lemma CutsOffOnce(j: int, k: int, x: real)
    requires j == Truncated(x) && CutsOff(k, x)
    ensures j == k
  {
    assert CutsOff(j, x);
  }

  // ---------------------------------------------------------------- the answers

  lemma FirstObstacle(queue: seq<Request>, i: nat, s: Snapshot, p: Policy, reserved: int, slots: Slots)
    requires i < |queue| && FindsSlots(queue, i, s, p, slots, reserved)
    ensures Refusal(queue[i], s, p, Assess(s, p), slots) == Obstacle(queue, i, s, p, reserved)
  {
    hide Assess, MemoryDecides, LoadHigh, InUse, InUseOfClass, SpareTokens, LoadAverageHeadroom;
    MemoryDecidesExactly(s, p);
    LoadHighExactly(s, p);
    LoadIsAssessed(s, p);
  }

  lemma LoadIsAssessed(s: Snapshot, p: Policy)
    ensures Assess(s, p).loadAverage == LoadAverageHeadroom(s, p)
  {
  }

  /** Every decision of a plan, in full. */
  lemma PlanExactly(queue: seq<Request>, i: nat, s: Snapshot, p: Policy, reserved: int)
    requires i < |queue| && (s.tokensBudget > 0 ==> CutsOff(reserved, s.tokensBudget as real * p.ownerReserve))
    ensures Answers(queue, i, s, p, reserved, Planned(queue, i, s, p))
  {
    hide Assess, Obstacle, Refusal, SlotsAfter, Before, CutsOff;
    if !p.disabled && Background(queue[i].class_) {
      SlotsFound(queue, i, s, p, reserved);
      FirstObstacle(queue, i, s, p, reserved, SlotsAfter(Before(queue, i), s, p, Assess(s, p)));
    }
  }

  lemma SomeReserve(s: Snapshot, p: Policy) returns (reserved: int)
    ensures CutsOff(reserved, s.tokensBudget as real * p.ownerReserve)
  {
    reserved := Truncated(s.tokensBudget as real * p.ownerReserve);
  }

  /** A request is degraded exactly when it is admitted background work of a class that bears no load, can be
      degraded, and the pressure is elevated. */
  lemma DegradesExactly(queue: seq<Request>, i: nat, s: Snapshot, p: Policy)
    requires i < |queue|
    ensures var d, c := Planned(queue, i, s, p), queue[i].class_;
      d.verdict == Degrade <==>
        && !p.disabled && c != OwnerTurn && c != BuildMission && d.Admitted()
        && Assess(s, p).pressure == Elevated && queue[i].degradable && c !in p.loadBearing
  {
    hide Assess, Obstacle, Planned;
    var reserved := SomeReserve(s, p);
    PlanExactly(queue, i, s, p, reserved);
  }

  /** The tier is the verdict's: full work is admitted, reduced work degraded, no work deferred; nothing is
      cancelled by a plan. */
  lemma TiersFollowVerdicts(queue: seq<Request>, i: nat, s: Snapshot, p: Policy)
    requires i < |queue|
    ensures var d := Planned(queue, i, s, p);
      && (d.verdict == Admit <==> d.tier == Full) && (d.verdict == Degrade <==> d.tier == Reduced)
      && (d.verdict == Defer <==> d.tier == NoTier) && d.verdict != Cancel
  {
    hide Assess, Obstacle, Planned;
    var reserved := SomeReserve(s, p);
    PlanExactly(queue, i, s, p, reserved);
  }
}
