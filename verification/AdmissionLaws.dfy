/**
 What a plan guarantees: priority, agreement with one-at-a-time admission, and budgets that hold.
 */
module AdmissionLaws {
  import opened Capacity
  import opened Admission
  import opened Numbers

  // ---------------------------------------------------------------- priority

  lemma {:induction false} OfRankConcat(a: seq<Request>, b: seq<Request>, k: nat)
    ensures OfRank(a + b, k) == OfRank(a, k) + OfRank(b, k)
  {
    if b == [] {
      assert a + b == a;
    } else {
      var n := |b| - 1;
      assert (a + b)[..|a + b| - 1] == a + b[..n];
      OfRankConcat(a, b[..n], k);
    }
  }

  function Without(queue: seq<Request>, d: nat): seq<Request>
    requires d < |queue|
  {
    queue[..d] + queue[d + 1..]
  }

  lemma OfRankOne(r: Request, k: nat)
    ensures OfRank([r], k) == if Rank(r.class_) == k then [r] else []
  {
    assert [r][..0] == [];
  }

  lemma OfRankWithout(queue: seq<Request>, d: nat, k: nat)
    requires d < |queue| && Rank(queue[d].class_) != k
    ensures OfRank(Without(queue, d), k) == OfRank(queue, k)
  {
    hide OfRank;
    var front, back := queue[..d], queue[d + 1..];
    assert queue == front + ([queue[d]] + back);
    OfRankConcat(front, [queue[d]] + back, k);
    OfRankConcat([queue[d]], back, k);
    OfRankConcat(front, back, k);
    OfRankOne(queue[d], k);
    assert [] + OfRank(back, k) == OfRank(back, k);
  }

  predicate RanksAgree(q: seq<Request>, queue: seq<Request>, k: nat) {
    OfRank(q, k) == OfRank(queue, k)
  }

  lemma {:induction false} BelowRankAgrees(q: seq<Request>, queue: seq<Request>, k: nat)
    requires forall j: nat :: j < k ==> RanksAgree(q, queue, j)
    ensures BelowRank(q, k) == BelowRank(queue, k)
    decreases k
  {
    if k > 0 {
      BelowRankAgrees(q, queue, k - 1);
      assert RanksAgree(q, queue, k - 1);
    }
  }

  /** Request `d` comes after request `i` in priority order. */
  predicate After(queue: seq<Request>, i: nat, d: nat)
    requires i < |queue| && d < |queue|
  {
    var ri, rd := Rank(queue[i].class_), Rank(queue[d].class_);
    ri < rd || (ri == rd && i < d)
  }

  /** Taking a request out of the queue changes no decision that comes before it in priority order. */
  lemma LowerPriorityIsInvisible(queue: seq<Request>, i: nat, d: nat, s: Snapshot, p: Policy)
    requires i < |queue| && d < |queue| && After(queue, i, d)
    ensures Planned(Without(queue, d), if i < d then i else i - 1, s, p) == Planned(queue, i, s, p)
  {
    var q, k := Without(queue, d), Rank(queue[i].class_);
    var j := if i < d then i else i - 1;
    forall r: nat | r < k ensures RanksAgree(q, queue, r) {
      OfRankWithout(queue, d, r);
    }
    BelowRankAgrees(q, queue, k);
    if i < d {
      assert q[..j] == queue[..i];
    } else {
      assert q[..j] == Without(queue[..i], d);
      OfRankWithout(queue[..i], d, k);
    }
    assert q[j] == queue[i];
  }

  // ---------------------------------------------------------------- one at a time

  lemma SeatIgnoresRunning(s: Snapshot, m: map<Class, int>, p: Policy)
    ensures SeatHeadroom(s.(running := m), p) == SeatHeadroom(s, p)
  {
    hide TightestSeat;
    var t := s.(running := m);
    assert forall n :: n in s.softCaps ==> ProviderHeadroom(t, p, n) == ProviderHeadroom(s, p, n);
    TightestIsUnique(s, p, s.softCaps.Keys, SeatHeadroom(t, p));
  }

  lemma AssessIgnoresRunning(s: Snapshot, m: map<Class, int>, p: Policy)
    ensures Assess(s.(running := m), p) == Assess(s, p)
  {
    hide SeatHeadroom, Fraction, FreeFraction;
    SeatIgnoresRunning(s, m, p);
  }

  /** The running counts after requests have been admitted one at a time, in order. */
  ghost function RunningAfter(rs: seq<Request>, s: Snapshot, p: Policy): map<Class, int> {
    if rs == [] then s.running
    else
      var m := RunningAfter(rs[..|rs| - 1], s, p);
      var r := rs[|rs| - 1];
      if Background(r.class_) && Admitting(r, s.(running := m), p).Admitted()
      then m[r.class_ := Positive(m, r.class_) + 1] else m
  }

  predicate SameSlots(a: Slots, b: Slots) {
    && a.background == b.background
    && (a.tokensLeft < 0 <==> b.tokensLeft < 0)
    && forall c :: Background(c) ==> InFlight(a, c) == InFlight(b, c)
  }

  lemma SameSlotsSameDecision(r: Request, s: Snapshot, m: map<Class, int>, p: Policy, a: Assessment, x: Slots, y: Slots)
    requires SameSlots(x, y) && (x.tokensLeft < 0 || r.estTokens <= 0)
    ensures Decide(r, s.(running := m), p, a, x).0 == Decide(r, s, p, a, y).0
  {
  }

  lemma BumpedInitial(s: Snapshot, m: map<Class, int>, c: Class, p: Policy)
    requires Background(c)
    ensures var before, after := InitialSlots(s.(running := m), p), InitialSlots(s.(running := m[c := Positive(m, c) + 1]), p);
      && after.background == before.background + 1
      && after.tokensLeft == before.tokensLeft
      && forall k :: Background(k) ==> InFlight(after, k) == InFlight(before, k) + if k == c then 1 else 0
  {
    hide TotalOf, TokenAllowance, RunningIn, RunningTotal, Positive;
    var more := m[c := Positive(m, c) + 1];
    TokensIgnoreRunning(s.(running := m), more, p);
    SlotsInUse(m);
    SlotsInUse(more);
    forall k ensures Positive(more, k) == Positive(m, k) + if k == c then 1 else 0 {
      PositiveBumped(m, c, k);
    }
  }

  lemma PositiveBumped(m: map<Class, int>, c: Class, k: Class)
    ensures Positive(m[c := Positive(m, c) + 1], k) == Positive(m, k) + if k == c then 1 else 0
  {
  }

  lemma TokensIgnoreRunning(s: Snapshot, m: map<Class, int>, p: Policy)
    ensures TokenAllowance(s.(running := m), p) == TokenAllowance(s, p)
  {
  }

  lemma AdmittingIsDeciding(r: Request, s: Snapshot, p: Policy)
    ensures Admitting(r, s, p) == Switched(p, Decide(r, s, p, Assess(s, p), InitialSlots(s, p)).0)
  {
    assert [r][..0] == [];
    NothingBelow([r], Rank(r.class_));
    assert Before([r], 0) == [];
  }

  lemma {:induction false} NothingBelow(queue: seq<Request>, k: nat)
    requires |queue| == 1 && k <= Rank(queue[0].class_)
    ensures BelowRank(queue, k) == []
  {
    if k > 0 {
      NothingBelow(queue, k - 1);
      assert queue[..0] == [];
      assert OfRank(queue, k - 1) == [];
    }
  }

  predicate AllFree(rs: seq<Request>) {
    forall r :: r in rs ==> r.estTokens <= 0
  }

  /** No request of the queue spends tokens against a budget. */
  predicate CountsSlotsOnly(rs: seq<Request>, s: Snapshot) {
    s.tokensBudget <= 0 || AllFree(rs)
  }

  lemma {:induction false} SlotsFollowRunning(rs: seq<Request>, s: Snapshot, p: Policy)
    requires !p.disabled && CountsSlotsOnly(rs, s)
    ensures SameSlots(InitialSlots(s.(running := RunningAfter(rs, s, p)), p), SlotsAfter(rs, s, p, Assess(s, p)))
    ensures SlotsAfter(rs, s, p, Assess(s, p)).tokensLeft < 0 <==> s.tokensBudget <= 0
  {
    hide Assess, Admitting, Decide, InitialSlots, SameSlots;
    var a := Assess(s, p);
    if rs == [] {
      assert s.(running := s.running) == s;
      SameAsItself(InitialSlots(s, p));
      InitialTokens(s, p);
    } else {
      var init, r := rs[..|rs| - 1], rs[|rs| - 1];
      SlotsFollowRunning(init, s, p);
      assert s.tokensBudget <= 0 || r.estTokens <= 0;
      SlotsFollowStep(r, s, RunningAfter(init, s, p), p, a, SlotsAfter(init, s, p, a));
    }
  }

  lemma SameAsItself(a: Slots)
    ensures SameSlots(a, a)
  {
  }

  lemma InitialTokens(s: Snapshot, p: Policy)
    ensures InitialSlots(s, p).tokensLeft < 0 <==> s.tokensBudget <= 0
  {
  }

  lemma SlotsFollowStep(r: Request, s: Snapshot, m: map<Class, int>, p: Policy, a: Assessment, y: Slots)
    requires !p.disabled && a == Assess(s, p) && (s.tokensBudget <= 0 || r.estTokens <= 0)
    requires SameSlots(InitialSlots(s.(running := m), p), y) && (y.tokensLeft < 0 <==> s.tokensBudget <= 0)
    ensures var next := Decide(r, s, p, a, y).1;
      && (next.tokensLeft < 0 <==> s.tokensBudget <= 0)
      && SameSlots(InitialSlots(s.(running :=
           if Background(r.class_) && Admitting(r, s.(running := m), p).Admitted()
           then m[r.class_ := Positive(m, r.class_) + 1] else m), p), next)
  {
    hide Assess, Admitting, Decide, InitialSlots;
    AssessIgnoresRunning(s, m, p);
    AdmittingIsDeciding(r, s.(running := m), p);
    InitialTokens(s.(running := m), p);
    SameSlotsSameDecision(r, s, m, p, a, InitialSlots(s.(running := m), p), y);
    TakenWhenAdmitted(r, s, p, a, y);
    if Background(r.class_) {
      BumpedInitial(s, m, r.class_, p);
    }
  }

  lemma TakenWhenAdmitted(r: Request, s: Snapshot, p: Policy, a: Assessment, slots: Slots)
    ensures var (d, next) := Decide(r, s, p, a, slots);
      && next == (if Background(r.class_) && d.Admitted() then Taken(r, slots) else slots)
      && d.class_ == r.class_ && d.pressure == a.pressure && d.verdict != Cancel
  {
  }

  lemma {:induction false} OfRankFree(queue: seq<Request>, k: nat)
    requires AllFree(queue)
    ensures AllFree(OfRank(queue, k))
  {
    if queue != [] {
      OfRankFree(queue[..|queue| - 1], k);
    }
  }

  lemma {:induction false} BelowRankFree(queue: seq<Request>, k: nat)
    requires AllFree(queue)
    ensures AllFree(BelowRank(queue, k))
    decreases k
  {
    hide OfRank;
    if k > 0 {
      BelowRankFree(queue, k - 1);
      OfRankFree(queue, k - 1);
    }
  }

  /** Without token estimates, planning a queue is admitting its requests one at a time in priority
      order, each admission raising the running count of its class. */
  lemma PlanIsAdmittingInOrder(queue: seq<Request>, i: nat, s: Snapshot, p: Policy)
    requires i < |queue| && CountsSlotsOnly(queue, s)
    ensures Planned(queue, i, s, p) == Admitting(queue[i], s.(running := RunningAfter(Before(queue, i), s, p)), p)
  {
    var rs, r, a := Before(queue, i), queue[i], Assess(s, p);
    var m := RunningAfter(rs, s, p);
    AssessIgnoresRunning(s, m, p);
    AdmittingIsDeciding(r, s.(running := m), p);
    TakenWhenAdmitted(r, s.(running := m), p, a, InitialSlots(s.(running := m), p));
    TakenWhenAdmitted(r, s, p, a, SlotsAfter(rs, s, p, a));
    if p.disabled {
      DecisionNames(r, s, p, a, SlotsAfter(rs, s, p, a));
      DecisionNames(r, s.(running := m), p, a, InitialSlots(s.(running := m), p));
    } else {
      if s.tokensBudget > 0 {
        BelowRankFree(queue, Rank(r.class_));
        OfRankFree(queue[..i], Rank(r.class_));
      }
      SlotsFollowRunning(rs, s, p);
      SameSlotsSameDecision(r, s, m, p, a, InitialSlots(s.(running := m), p), SlotsAfter(rs, s, p, a));
    }
  }

  lemma DecisionNames(r: Request, s: Snapshot, p: Policy, a: Assessment, slots: Slots)
    ensures Decide(r, s, p, a, slots).0.name == r.name
  {
  }

  // ---------------------------------------------------------------- budgets

  function SumItems(items: seq<Item>, w: nat -> int): int {
    if items == [] then 0 else SumItems(items[..|items| - 1], w) + w(items[|items| - 1].index)
  }

  function SumTo(n: nat, w: nat -> int): int {
    if n == 0 then 0 else SumTo(n - 1, w) + w(n - 1)
  }

  function SumOfRanks(queue: seq<Request>, lo: nat, hi: nat, w: nat -> int): int {
    if queue == [] then 0
    else
      var n := |queue| - 1;
      SumOfRanks(queue[..n], lo, hi, w) + if lo <= Rank(queue[n].class_) < hi then w(n) else 0
  }

  lemma {:induction false} SumItemsConcat(a: seq<Item>, b: seq<Item>, w: nat -> int)
    ensures SumItems(a + b, w) == SumItems(a, w) + SumItems(b, w)
  {
    if b == [] {
      assert a + b == a;
    } else {
      assert (a + b)[..|a + b| - 1] == a + b[..|b| - 1];
      SumItemsConcat(a, b[..|b| - 1], w);
    }
  }

  lemma {:induction false} SumOfItemsOfRank(queue: seq<Request>, k: nat, w: nat -> int)
    ensures SumItems(ItemsOfRank(queue, k), w) == SumOfRanks(queue, k, k + 1, w)
  {
    if queue != [] {
      var n := |queue| - 1;
      SumOfItemsOfRank(queue[..n], k, w);
      var last := if Rank(queue[n].class_) == k then [Item(queue[n], n)] else [];
      SumItemsConcat(ItemsOfRank(queue[..n], k), last, w);
      if last != [] {
        assert last[..0] == [];
      }
    }
  }

  lemma {:induction false} SumOfRanksSplits(queue: seq<Request>, k: nat, w: nat -> int)
    ensures SumOfRanks(queue, 0, k + 1, w) == SumOfRanks(queue, 0, k, w) + SumOfRanks(queue, k, k + 1, w)
  {
    if queue != [] {
      SumOfRanksSplits(queue[..|queue| - 1], k, w);
    }
  }

  lemma {:induction false} SumOfNoRanks(queue: seq<Request>, w: nat -> int)
    ensures SumOfRanks(queue, 0, 0, w) == 0
  {
    if queue != [] {
      SumOfNoRanks(queue[..|queue| - 1], w);
    }
  }

  lemma {:induction false} SumOfOrder(queue: seq<Request>, k: nat, w: nat -> int)
    ensures SumItems(RankOrder(queue, k), w) == SumOfRanks(queue, 0, k, w)
  {
    hide SumOfRanks, ItemsOfRank;
    if k == 0 {
      SumOfNoRanks(queue, w);
    } else {
      hide SumItems, RankOrder;
      SumOfOrder(queue, k - 1, w);
      SumOfOneMoreRank(queue, k - 1, w);
    }
  }

  lemma SumOfOneMoreRank(queue: seq<Request>, k: nat, w: nat -> int)
    requires SumItems(RankOrder(queue, k), w) == SumOfRanks(queue, 0, k, w)
    ensures SumItems(RankOrder(queue, k + 1), w) == SumOfRanks(queue, 0, k + 1, w)
  {
    hide SumItems, ItemsOfRank, SumOfRanks;
    SumOfItemsOfRank(queue, k, w);
    SumItemsConcat(RankOrder(queue, k), ItemsOfRank(queue, k), w);
    SumOfRanksSplits(queue, k, w);
  }

  lemma {:induction false} SumOfAllRanks(queue: seq<Request>, w: nat -> int)
    ensures SumOfRanks(queue, 0, 8, w) == SumTo(|queue|, w)
  {
    if queue != [] {
      SumOfAllRanks(queue[..|queue| - 1], w);
    }
  }

  /** Request `i` is background work that the plan lets run. */
  ghost predicate Granted(queue: seq<Request>, s: Snapshot, p: Policy, i: nat) {
    i < |queue| && Background(queue[i].class_) && Planned(queue, i, s, p).Admitted()
  }

  ghost function TokensOf(queue: seq<Request>, s: Snapshot, p: Policy): nat -> int {
    (i: nat) => if Granted(queue, s, p, i) then queue[i].estTokens else 0
  }

  ghost function CyclesOf(queue: seq<Request>, s: Snapshot, p: Policy): nat -> int {
    (i: nat) => if Granted(queue, s, p, i) then 1 else 0
  }

  ghost function CyclesOfClass(queue: seq<Request>, s: Snapshot, p: Policy, c: Class): nat -> int {
    (i: nat) => if Granted(queue, s, p, i) && queue[i].class_ == c then 1 else 0
  }

  /** The slots within their bounds after the first `k` items have been decided. */
  ghost predicate WithinBounds(queue: seq<Request>, k: nat, s: Snapshot, p: Policy)
    requires k <= |RankOrder(queue, 8)|
  {
    var items := RankOrder(queue, 8);
    var slots, first := SlotsAfter(Requests(items[..k]), s, p, Assess(s, p)), InitialSlots(s, p);
    && slots.tokensLeft == (if s.tokensBudget <= 0 then -1
                            else TokenAllowance(s, p) - SumItems(items[..k], TokensOf(queue, s, p)))
    && (s.tokensBudget > 0 ==> slots.tokensLeft >= 0)
    && slots.background == first.background + SumItems(items[..k], CyclesOf(queue, s, p))
    && (p.maxBackground > 0 ==> slots.background <= Max(first.background, p.maxBackground))
  }

  ghost predicate WithinClassBound(queue: seq<Request>, k: nat, s: Snapshot, p: Policy, c: Class)
    requires k <= |RankOrder(queue, 8)|
  {
    var items := RankOrder(queue, 8);
    var slots, first := SlotsAfter(Requests(items[..k]), s, p, Assess(s, p)), InitialSlots(s, p);
    && InFlight(slots, c) == InFlight(first, c) + SumItems(items[..k], CyclesOfClass(queue, s, p, c))
    && (ClassBound(p, c) > 0 ==> InFlight(slots, c) <= Max(InFlight(first, c), ClassBound(p, c)))
  }

  /** What an admitted background request leaves. */
  lemma AdmittedFits(r: Request, s: Snapshot, p: Policy, a: Assessment, slots: Slots)
    requires Background(r.class_) && Decide(r, s, p, a, slots).0.Admitted()
    ensures var next := Decide(r, s, p, a, slots).1;
      && (p.maxBackground > 0 ==> next.background <= p.maxBackground)
      && (ClassBound(p, r.class_) > 0 ==> InFlight(next, r.class_) <= ClassBound(p, r.class_))
      && (slots.tokensLeft >= 0 ==> next.tokensLeft == slots.tokensLeft - r.estTokens && next.tokensLeft >= 0)
      && (slots.tokensLeft < 0 ==> next.tokensLeft == slots.tokensLeft)
      && next.background == slots.background + 1
      && forall c :: InFlight(next, c) == InFlight(slots, c) + if c == r.class_ then 1 else 0
  {
  }

  lemma SumItemsNext(items: seq<Item>, k: nat, w: nat -> int)
    requires k < |items|
    ensures SumItems(items[..k + 1], w) == SumItems(items[..k], w) + w(items[k].index)
  {
    assert items[..k + 1][..k] == items[..k];
  }

  lemma {:induction false} BoundsHold(queue: seq<Request>, k: nat, s: Snapshot, p: Policy, c: Class)
    requires !p.disabled && k <= |RankOrder(queue, 8)| && Background(c)
    ensures WithinBounds(queue, k, s, p) && WithinClassBound(queue, k, s, p, c)
  {
    hide WithinBounds, WithinClassBound, RankOrder;
    if k == 0 {
      BoundsStart(queue, s, p, c);
    } else {
      BoundsHold(queue, k - 1, s, p, c);
      BoundsStep(queue, k - 1, s, p, c);
    }
  }

  lemma BoundsStart(queue: seq<Request>, s: Snapshot, p: Policy, c: Class)
    ensures WithinBounds(queue, 0, s, p) && WithinClassBound(queue, 0, s, p, c)
  {
    hide RankOrder, Assess;
    assert Requests(RankOrder(queue, 8)[..0]) == [];
  }

  lemma BoundsStep(queue: seq<Request>, k: nat, s: Snapshot, p: Policy, c: Class)
    requires !p.disabled && k < |RankOrder(queue, 8)| && Background(c)
    requires WithinBounds(queue, k, s, p) && WithinClassBound(queue, k, s, p, c)
    ensures WithinBounds(queue, k + 1, s, p) && WithinClassBound(queue, k + 1, s, p, c)
  {
    TotalsStep(queue, k, s, p);
    ClassBoundStep(queue, k, s, p, c);
  }

  lemma TotalsStep(queue: seq<Request>, k: nat, s: Snapshot, p: Policy)
    requires !p.disabled && k < |RankOrder(queue, 8)| && WithinBounds(queue, k, s, p)
    ensures WithinBounds(queue, k + 1, s, p)
  {
    hide RankOrder, Assess, Decide, SlotsAfter, Before;
    var items, a := RankOrder(queue, 8), Assess(s, p);
    var it, slots := items[k], SlotsAfter(Requests(items[..k]), s, p, a);
    OrderStep(queue, k, s, p, a);
    OrderBefore(queue, 8, k);
    SumItemsNext(items, k, TokensOf(queue, s, p));
    SumItemsNext(items, k, CyclesOf(queue, s, p));
    TakenWhenAdmitted(it.req, s, p, a, slots);
    if Granted(queue, s, p, it.index) {
      AdmittedFits(it.req, s, p, a, slots);
    }
  }

  lemma ClassBoundStep(queue: seq<Request>, k: nat, s: Snapshot, p: Policy, c: Class)
    requires !p.disabled && k < |RankOrder(queue, 8)| && Background(c) && WithinClassBound(queue, k, s, p, c)
    ensures WithinClassBound(queue, k + 1, s, p, c)
  {
    hide RankOrder, Assess, Decide, SlotsAfter, Before;
    var items, a := RankOrder(queue, 8), Assess(s, p);
    var it, slots := items[k], SlotsAfter(Requests(items[..k]), s, p, a);
    OrderStep(queue, k, s, p, a);
    OrderBefore(queue, 8, k);
    SumItemsNext(items, k, CyclesOfClass(queue, s, p, c));
    TakenWhenAdmitted(it.req, s, p, a, slots);
    if Granted(queue, s, p, it.index) {
      AdmittedFits(it.req, s, p, a, slots);
    }
  }

  /** With control on, what a plan grants to background work stays within every budget. */
  lemma PlanNeverOverspends(queue: seq<Request>, s: Snapshot, p: Policy, c: Class)
    requires !p.disabled && Background(c)
    ensures s.tokensBudget > 0 ==> SumTo(|queue|, TokensOf(queue, s, p)) <= TokenAllowance(s, p)
    ensures var first := InitialSlots(s, p).background;
      p.maxBackground > 0 ==> first + SumTo(|queue|, CyclesOf(queue, s, p)) <= Max(first, p.maxBackground)
    ensures var first := InFlight(InitialSlots(s, p), c);
      ClassBound(p, c) > 0 ==> first + SumTo(|queue|, CyclesOfClass(queue, s, p, c)) <= Max(first, ClassBound(p, c))
  {
    var items := RankOrder(queue, 8);
    BoundsHold(queue, |items|, s, p, c);
    assert items[..|items|] == items;
    OrderSum(queue, TokensOf(queue, s, p));
    OrderSum(queue, CyclesOf(queue, s, p));
    OrderSum(queue, CyclesOfClass(queue, s, p, c));
  }

  lemma OrderSum(queue: seq<Request>, w: nat -> int)
    ensures SumItems(RankOrder(queue, 8), w) == SumTo(|queue|, w)
  {
    SumOfOrder(queue, 8, w);
    SumOfAllRanks(queue, w);
  }

  /** Owner turns always run in full; Build work waits only for the spawn clamp. */
  lemma ForegroundIsNeverShed(queue: seq<Request>, i: nat, s: Snapshot, p: Policy)
    requires i < |queue| && !Background(queue[i].class_)
    ensures Planned(queue, i, s, p).verdict == Admit && Planned(queue, i, s, p).tier == Full
       <==> queue[i].class_ == OwnerTurn || !s.spawnHalted || p.disabled
  {
  }
}
