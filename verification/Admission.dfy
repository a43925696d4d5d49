/**
 Admission of a queue: foreground work first, then background in priority order while slots and the
 background token allowance last.
 */
module Admission {
  import opened Options
  import opened Capacity

  datatype Verdict = Admit | Degrade | Defer | Cancel

  datatype Tier = Full | Reduced | NoTier

  datatype Reason =
    | OwnerPriority | HeadroomOK | ElevatedDegrade | OwnerTurnActive | TightLoadBearing | CriticalOwnerOnly
    | SpawnHalted | BackgroundSlots | ClassSlots | TokenReserve | HostSaturated | AmbientLoad | Preempted
    | MemoryGrind | SeatCount

  datatype Request = Request(class_: Class, name: string, estTokens: int, degradable: bool)

  datatype Decision = Decision(
    class_: Class, name: string, verdict: Verdict, tier: Tier, reason: Reason, pressure: Pressure)
  {
    predicate Admitted() {
      verdict == Admit || verdict == Degrade
    }
  }

  /** Cycles in flight by class and in all, and the tokens background may still spend (-1: no budget). */
  datatype Slots = Slots(inFlight: map<Class, int>, background: int, tokensLeft: int)

  function Truncated(x: real): int {
    if x >= 0.0 then x.Floor else -((-x).Floor)
  }

  function TokenAllowance(s: Snapshot, p: Policy): int {
    if s.tokensBudget <= 0 then -1
    else
      var left := s.tokensBudget - s.tokensUsed - OwnerTokens(s.tokensBudget, p);
      if left < 0 then 0 else left
  }

  /** The share of a token budget that background work leaves to the owner. */
  function OwnerTokens(budget: int, p: Policy): int {
    Truncated(budget as real * p.ownerReserve)
  }

  function ClassBound(p: Policy, c: Class): int {
    if c in p.maxPerClass then p.maxPerClass[c] else 1
  }

  function CountOf(m: map<Class, int>, c: Class): int {
    if c in m then m[c] else 0
  }

  function InFlight(slots: Slots, c: Class): int {
    CountOf(slots.inFlight, c)
  }

  /** A deferral names the host when memory is the dimension that decided. */
  function DeferReason(a: Assessment, fallback: Reason): Reason {
    if a.memory != UNKNOWN && a.memory == a.headroom then HostSaturated else fallback
  }

  /** Why a background request is put off, if it is. */
  function Refusal(r: Request, s: Snapshot, p: Policy, a: Assessment, slots: Slots): Option<Reason> {
    var loadBearing := r.class_ in p.loadBearing;
    if a.pressure == Critical then Some(DeferReason(a, CriticalOwnerOnly))
    else if a.pressure == Tight && !loadBearing then Some(DeferReason(a, TightLoadBearing))
    else if !loadBearing && a.loadAverage != UNKNOWN && (a.loadAverage <= 0.0 || a.loadAverage < p.ownerReserve) then
      Some(AmbientLoad)
    else if p.ownerBusyDefers && s.ownerActive && !loadBearing then Some(OwnerTurnActive)
    else if p.maxBackground > 0 && slots.background >= p.maxBackground then Some(BackgroundSlots)
    else if ClassBound(p, r.class_) > 0 && InFlight(slots, r.class_) >= ClassBound(p, r.class_) then Some(ClassSlots)
    else if slots.tokensLeft >= 0 && r.estTokens > 0 && r.estTokens > slots.tokensLeft then Some(TokenReserve)
    else None
  }

  /** The slots and tokens that an admitted background request takes. */
  function Taken(r: Request, slots: Slots): Slots {
    Slots(slots.inFlight[r.class_ := InFlight(slots, r.class_) + 1],
          slots.background + 1,
          if slots.tokensLeft < 0 then slots.tokensLeft
          else if slots.tokensLeft - r.estTokens < 0 then 0 else slots.tokensLeft - r.estTokens)
  }

  function Decide(r: Request, s: Snapshot, p: Policy, a: Assessment, slots: Slots): (Decision, Slots) {
    var d := Decision(r.class_, r.name, Admit, Full, OwnerPriority, a.pressure);
    if r.class_ == OwnerTurn then (d, slots)
    else if r.class_ == BuildMission then
      (if s.spawnHalted then d.(verdict := Defer, tier := NoTier, reason := SpawnHalted) else d, slots)
    else
      var refusal := Refusal(r, s, p, a, slots);
      if refusal.Some? then (d.(verdict := Defer, tier := NoTier, reason := refusal.value), slots)
      else if a.pressure == Elevated && r.degradable && r.class_ !in p.loadBearing then
        (d.(verdict := Degrade, tier := Reduced, reason := ElevatedDegrade), Taken(r, slots))
      else (d.(reason := HeadroomOK), Taken(r, slots))
  }

  // ---------------------------------------------------------------- slots already in use

  function RunningIn(m: map<Class, int>, cs: set<Class>): map<Class, int> {
    map c | c in m && c in cs && Background(c) && m[c] > 0 :: m[c]
  }

  function RunningTotal(m: map<Class, int>, cs: set<Class>): nat {
    TotalOf(RunningIn(m, cs), [ControlRepair, StaffOps, Audit, Coach, Research, Experimental])
  }

  function TotalOf(m: map<Class, int>, cs: seq<Class>): nat {
    if cs == [] then 0 else TotalOf(m, cs[..|cs| - 1]) + Positive(m, cs[|cs| - 1])
  }

  const ALL_CLASSES: set<Class> :=
    {OwnerTurn, BuildMission, ControlRepair, StaffOps, Audit, Coach, Research, Experimental}

  function InitialSlots(s: Snapshot, p: Policy): Slots {
    Slots(RunningIn(s.running, ALL_CLASSES), RunningTotal(s.running, ALL_CLASSES), TokenAllowance(s, p))
  }

  // ---------------------------------------------------------------- priority order

  /** The requests of rank `k`, in queue order. */
  function OfRank(queue: seq<Request>, k: nat): seq<Request> {
    if queue == [] then []
    else
      var last := queue[|queue| - 1];
      OfRank(queue[..|queue| - 1], k) + if Rank(last.class_) == k then [last] else []
  }

  function BelowRank(queue: seq<Request>, k: nat): seq<Request> {
    if k == 0 then [] else BelowRank(queue, k - 1) + OfRank(queue, k - 1)
  }

  /** What request `i` waits behind: every request of a better class, and those of its own class that
      stand before it in the queue. */
  function Before(queue: seq<Request>, i: nat): seq<Request>
    requires i < |queue|
  {
    BelowRank(queue, Rank(queue[i].class_)) + OfRank(queue[..i], Rank(queue[i].class_))
  }

  /** The slots left after some requests have been decided in order. */
  function SlotsAfter(rs: seq<Request>, s: Snapshot, p: Policy, a: Assessment): Slots {
    if rs == [] then InitialSlots(s, p)
    else Decide(rs[|rs| - 1], s, p, a, SlotsAfter(rs[..|rs| - 1], s, p, a)).1
  }

  function Switched(p: Policy, d: Decision): Decision {
    if p.disabled then d.(verdict := Admit, tier := Full, reason := HeadroomOK) else d
  }

  /** Request `i` decided with the slots that the requests it waits behind leave. */
  function Decided(queue: seq<Request>, i: nat, s: Snapshot, p: Policy, a: Assessment): Decision
    requires i < |queue|
  {
    Decide(queue[i], s, p, a, SlotsAfter(Before(queue, i), s, p, a)).0
  }

  /** The decision for request `i` of a queue: it depends on the requests it waits behind alone. */
  ghost function Planned(queue: seq<Request>, i: nat, s: Snapshot, p: Policy): Decision
    requires i < |queue|
  {
    Switched(p, Decided(queue, i, s, p, Assess(s, p)))
  }

  ghost function Admitting(r: Request, s: Snapshot, p: Policy): Decision {
    Planned([r], 0, s, p)
  }

  // ---------------------------------------------------------------- the pass itself

  /** A request with its place in the queue. */
  datatype Item = Item(req: Request, index: nat)

  /** The items of rank `k`, in queue order. */
  function ItemsOfRank(queue: seq<Request>, k: nat): seq<Item> {
    if queue == [] then []
    else
      var n := |queue| - 1;
      ItemsOfRank(queue[..n], k) + if Rank(queue[n].class_) == k then [Item(queue[n], n)] else []
  }

  /** The items below rank `k` in the order that a stable sort by rank gives. */
  function RankOrder(queue: seq<Request>, k: nat): seq<Item> {
    if k == 0 then [] else RankOrder(queue, k - 1) + ItemsOfRank(queue, k - 1)
  }

  function Requests(items: seq<Item>): (rs: seq<Request>)
    ensures |rs| == |items|
  {
    seq(|items|, k requires 0 <= k < |items| => items[k].req)
  }

  lemma NoRequests()
    ensures Requests([]) == []
  {
  }

  lemma RequestsConcat(a: seq<Item>, b: seq<Item>)
    ensures Requests(a + b) == Requests(a) + Requests(b)
  {
  }

  /** The `m`-th item of a rank comes after exactly the earlier requests of that rank. */
  lemma {:induction false} ItemsBefore(queue: seq<Request>, k: nat, m: nat)
    requires m < |ItemsOfRank(queue, k)|
    ensures var it := ItemsOfRank(queue, k)[m];
      && it.index < |queue| && it.req == queue[it.index] && Rank(it.req.class_) == k
      && Requests(ItemsOfRank(queue, k)[..m]) == OfRank(queue[..it.index], k)
  {
    var n := |queue| - 1;
    var items, init := ItemsOfRank(queue, k), ItemsOfRank(queue[..n], k);
    if m < |init| {
      ItemsBefore(queue[..n], k, m);
      assert items[..m] == init[..m];
      assert queue[..n][..init[m].index] == queue[..init[m].index];
    } else {
      assert items[..m] == init;
      ItemsAreOfRank(queue[..n], k);
    }
  }

  lemma {:induction false} ItemsAreOfRank(queue: seq<Request>, k: nat)
    ensures Requests(ItemsOfRank(queue, k)) == OfRank(queue, k)
  {
    if queue != [] {
      var n := |queue| - 1;
      ItemsAreOfRank(queue[..n], k);
      RequestsConcat(ItemsOfRank(queue[..n], k), if Rank(queue[n].class_) == k then [Item(queue[n], n)] else []);
    }
  }

  lemma {:induction false} OrderIsBelowRank(queue: seq<Request>, k: nat)
    ensures Requests(RankOrder(queue, k)) == BelowRank(queue, k)
  {
    hide Requests, ItemsOfRank, OfRank;
    if k == 0 {
      NoRequests();
    } else {
      OrderIsBelowRank(queue, k - 1);
      ItemsAreOfRank(queue, k - 1);
      RequestsConcat(RankOrder(queue, k - 1), ItemsOfRank(queue, k - 1));
    }
  }

  /** In rank order each item comes right after the requests it waits behind. */
  lemma {:induction false} OrderBefore(queue: seq<Request>, k: nat, m: nat)
    requires m < |RankOrder(queue, k)|
    ensures var it := RankOrder(queue, k)[m];
      && it.index < |queue| && it.req == queue[it.index]
      && Requests(RankOrder(queue, k)[..m]) == Before(queue, it.index)
  {
    var items, init, last := RankOrder(queue, k), RankOrder(queue, k - 1), ItemsOfRank(queue, k - 1);
    if m < |init| {
      OrderBefore(queue, k - 1, m);
      assert items[..m] == init[..m];
    } else {
      var j := m - |init|;
      ItemsBefore(queue, k - 1, j);
      assert items[..m] == init + last[..j];
      RequestsConcat(init, last[..j]);
      OrderIsBelowRank(queue, k - 1);
    }
  }

  lemma {:induction false} ItemsCover(queue: seq<Request>, i: nat)
    requires i < |queue|
    ensures Item(queue[i], i) in ItemsOfRank(queue, Rank(queue[i].class_))
  {
    var n := |queue| - 1;
    if i < n {
      ItemsCover(queue[..n], i);
    }
  }

  lemma {:induction false} OrderCovers(queue: seq<Request>, k: nat, i: nat)
    requires i < |queue| && Rank(queue[i].class_) < k
    ensures Item(queue[i], i) in RankOrder(queue, k)
  {
    if Rank(queue[i].class_) == k - 1 {
      ItemsCover(queue, i);
    } else {
      OrderCovers(queue, k - 1, i);
    }
  }

  /** Counts the cycles already in flight, class by class. */
  method CountRunning(s: Snapshot) returns (inFlight: map<Class, int>, background: int)
    ensures inFlight == RunningIn(s.running, ALL_CLASSES) && background == RunningTotal(s.running, ALL_CLASSES)
  {
    inFlight, background := map[], 0;
    var todo := s.running.Keys;
    Six(map[]);
    assert RunningIn(s.running, {}) == map[];
    while todo != {}
      invariant todo <= s.running.Keys
      invariant inFlight == RunningIn(s.running, s.running.Keys - todo)
      invariant background == RunningTotal(s.running, s.running.Keys - todo)
      decreases todo
    {
      var c :| c in todo;
      ghost var seen := s.running.Keys - todo;
      assert s.running.Keys - (todo - {c}) == seen + {c};
      RunningExtends(s.running, seen, c);
      if Background(c) && s.running[c] > 0 {
        inFlight := inFlight[c := CountOf(inFlight, c) + s.running[c]];
        background := background + s.running[c];
      }
      todo := todo - {c};
    }
    assert RunningIn(s.running, s.running.Keys) == RunningIn(s.running, ALL_CLASSES);
  }

  lemma PositiveExtends(m: map<Class, int>, cs: set<Class>, c: Class, k: Class)
    requires c in m && c !in cs
    ensures Positive(RunningIn(m, cs + {c}), k)
         == Positive(RunningIn(m, cs), k) + if k == c && Background(c) && m[c] > 0 then m[c] else 0
  {
  }

  lemma RunningExtends(m: map<Class, int>, cs: set<Class>, c: Class)
    requires c in m && c !in cs
    ensures var counted := Background(c) && m[c] > 0;
      && RunningIn(m, cs + {c}) == (if counted then RunningIn(m, cs)[c := m[c]] else RunningIn(m, cs))
      && RunningTotal(m, cs + {c}) == RunningTotal(m, cs) + (if counted then m[c] else 0)
  {
    hide TotalOf, Positive;
    var f, g := RunningIn(m, cs), RunningIn(m, cs + {c});
    forall k ensures Positive(g, k) == Positive(f, k) + if k == c && Background(c) && m[c] > 0 then m[c] else 0 {
      PositiveExtends(m, cs, c, k);
    }
    Six(f);
    Six(g);
  }

  /** An admission starts from the positive running counts of the background classes. */
  lemma SlotsInUse(m: map<Class, int>)
    ensures RunningTotal(m, ALL_CLASSES)
         == Positive(m, ControlRepair) + Positive(m, StaffOps) + Positive(m, Audit) + Positive(m, Coach)
          + Positive(m, Research) + Positive(m, Experimental)
    ensures forall c :: Background(c) ==> CountOf(RunningIn(m, ALL_CLASSES), c) == Positive(m, c)
  {
    hide TotalOf;
    Six(RunningIn(m, ALL_CLASSES));
  }

  lemma Six(m: map<Class, int>)
    ensures TotalOf(m, [ControlRepair, StaffOps, Audit, Coach, Research, Experimental])
         == Positive(m, ControlRepair) + Positive(m, StaffOps) + Positive(m, Audit) + Positive(m, Coach)
          + Positive(m, Research) + Positive(m, Experimental)
  {
    var cs := [ControlRepair, StaffOps, Audit, Coach, Research, Experimental];
    assert cs[..5][..4] == cs[..4] && cs[..4][..3] == cs[..3] && cs[..3][..2] == cs[..2] && cs[..2][..1] == cs[..1];
    assert TotalOf(m, cs[..1]) == Positive(m, ControlRepair) by {
      assert cs[..1][..0] == [];
    }
    assert TotalOf(m, cs[..2]) == TotalOf(m, cs[..1]) + Positive(m, StaffOps);
    assert TotalOf(m, cs[..3]) == TotalOf(m, cs[..2]) + Positive(m, Audit);
    assert TotalOf(m, cs[..4]) == TotalOf(m, cs[..3]) + Positive(m, Coach);
    assert TotalOf(m, cs[..5]) == TotalOf(m, cs[..4]) + Positive(m, Research);
  }

  /** Deciding the `k`-th item in rank order. */
  lemma OrderStep(queue: seq<Request>, k: nat, s: Snapshot, p: Policy, a: Assessment)
    requires k < |RankOrder(queue, 8)|
    ensures var items := RankOrder(queue, 8);
      var outcome := Decide(items[k].req, s, p, a, SlotsAfter(Requests(items[..k]), s, p, a));
      && items[k].index < |queue|
      && outcome.0 == Decided(queue, items[k].index, s, p, a)
      && outcome.1 == SlotsAfter(Requests(items[..k + 1]), s, p, a)
  {
    var items := RankOrder(queue, 8);
    OrderBefore(queue, 8, k);
    assert Requests(items[..k + 1])[..k] == Requests(items[..k]);
  }

  /** Deciding the items in order goes through the states and yields the expected decisions. */
  ghost predicate StatesFit(
    items: seq<Item>, s: Snapshot, p: Policy, a: Assessment, states: seq<Slots>, expected: seq<Decision>)
  {
    && |states| == |items| + 1
    && forall k :: 0 <= k < |items| ==>
         items[k].index < |expected| &&
         Decide(items[k].req, s, p, a, states[k]) == (expected[items[k].index], states[k + 1])
  }

  /** Decides items in order, each taking its slots from the ones after it. `states` and `expected` are
      the slots before each item and the decisions by queue position. */
  method DecideItems(
    items: seq<Item>, s: Snapshot, p: Policy, a: Assessment, first: Slots,
    ghost states: seq<Slots>, ghost expected: seq<Decision>) returns (answers: map<nat, Decision>)
    requires StatesFit(items, s, p, a, states, expected) && states[0] == first
    ensures forall k :: 0 <= k < |items| ==> items[k].index in answers
    ensures forall i :: i in answers ==> i < |expected| && answers[i] == expected[i]
  {
    hide Decide;
    var slots := first;
    answers := map[];
    for k := 0 to |items|
      invariant slots == states[k]
      invariant forall j :: 0 <= j < k ==> items[j].index in answers
      invariant forall i :: i in answers ==> i < |expected| && answers[i] == expected[i]
    {
      var (d, next) := Decide(items[k].req, s, p, a, slots);
      answers := answers[items[k].index := d];
      slots := next;
    }
  }

  ghost function SlotStates(queue: seq<Request>, s: Snapshot, p: Policy, a: Assessment): seq<Slots> {
    var items := RankOrder(queue, 8);
    seq(|items| + 1, k requires 0 <= k <= |items| => SlotsAfter(Requests(items[..k]), s, p, a))
  }

  ghost function AllDecided(queue: seq<Request>, s: Snapshot, p: Policy, a: Assessment): seq<Decision> {
    seq(|queue|, i requires 0 <= i < |queue| => Decided(queue, i, s, p, a))
  }

  lemma StatesAndDecisions(queue: seq<Request>, s: Snapshot, p: Policy, a: Assessment)
    ensures var items, states, expected := RankOrder(queue, 8), SlotStates(queue, s, p, a), AllDecided(queue, s, p, a);
      && StatesFit(items, s, p, a, states, expected) && states[0] == InitialSlots(s, p)
      && (forall i: nat :: i < |queue| ==> Item(queue[i], i) in items)
  {
    hide RankOrder, Decide, Decided;
    var items := RankOrder(queue, 8);
    assert Requests(items[..0]) == [];
    forall k: nat | k < |items|
      ensures items[k].index < |queue|
      ensures Decide(items[k].req, s, p, a, SlotsAfter(Requests(items[..k]), s, p, a))
           == (Decided(queue, items[k].index, s, p, a), SlotsAfter(Requests(items[..k + 1]), s, p, a))
    {
      OrderStep(queue, k, s, p, a);
    }
    forall i: nat | i < |queue| ensures Item(queue[i], i) in items {
      OrderCovers(queue, 8, i);
    }
  }

  /** Decides the whole queue and answers in queue order. */
  method Plan(queue: seq<Request>, s: Snapshot, p: Policy) returns (decisions: seq<Decision>)
    ensures |decisions| == |queue|
    ensures forall i :: 0 <= i < |queue| ==> decisions[i] == Planned(queue, i, s, p)
  {
    hide Assess, SlotStates, StatesFit, Decided, RankOrder, RunningIn, RunningTotal;
    var a := ComputeAssessment(s, p);
    var inFlight, background := CountRunning(s);
    var items := RankOrder(queue, 8);
    ghost var expected := AllDecided(queue, s, p, a);
    StatesAndDecisions(queue, s, p, a);
    var answers := DecideItems(items, s, p, a, Slots(inFlight, background, TokenAllowance(s, p)),
                               SlotStates(queue, s, p, a), expected);
    forall i: nat | i < |queue| ensures i in answers {
      assert Item(queue[i], i) in items;
    }
    decisions := seq(|queue|, i requires 0 <= i < |queue| => answers[i]);
    if p.disabled {
      for i := 0 to |decisions|
        invariant |decisions| == |queue|
        invariant forall j :: 0 <= j < |queue| ==> decisions[j] == if j < i then Switched(p, expected[j]) else expected[j]
      {
        decisions := decisions[i := decisions[i].(verdict := Admit, tier := Full, reason := HeadroomOK)];
      }
    }
  }

  /** Decides one request on its own. */
  method AdmitOne(r: Request, s: Snapshot, p: Policy) returns (d: Decision)
    ensures d == Admitting(r, s, p)
  {
    var ds := Plan([r], s, p);
    d := ds[0];
  }
}
