/**
 Plans that become more permissive under more load, and so exactly when a policy rules them out.
 */
module PlanInversions {
  import opened Options
  import opened Capacity
  import opened Admission
  import opened AdmissionLaws
  import opened Monotone
  import opened PlanMonotone

  // ---------------------------------------------------------------- two requests

  lemma OfTwo(q: Request, r: Request, k: nat)
    requires Rank(q.class_) < Rank(r.class_)
    ensures OfRank([q], k) == if k == Rank(q.class_) then [q] else []
    ensures OfRank([q, r], k) == if k == Rank(q.class_) then [q] else if k == Rank(r.class_) then [r] else []
  {
    OfRankOne(q, k);
    OfRankOne(r, k);
    OfRankConcat([q], [r], k);
    assert [q, r] == [q] + [r];
  }

  lemma {:induction false} BelowOfTwo(q: Request, r: Request, k: nat)
    requires Rank(q.class_) < Rank(r.class_) && k <= Rank(r.class_)
    ensures BelowRank([q, r], k) == if k > Rank(q.class_) then [q] else []
  {
    hide OfRank, Rank;
    if k > 0 {
      BelowOfTwo(q, r, k - 1);
      OfTwo(q, r, k - 1);
    }
  }

  /** The worse of two requests is decided after the better one. */
  lemma SecondOfTwo(q: Request, r: Request, s: Snapshot, p: Policy)
    requires Rank(q.class_) < Rank(r.class_) && !p.disabled
    ensures var a := Assess(s, p);
      Planned([q, r], 1, s, p) == Decide(r, s, p, a, Decide(q, s, p, a, InitialSlots(s, p)).1).0
  {
    hide OfRank, BelowRank, Assess, Decide, InitialSlots, Rank;
    var a := Assess(s, p);
    BelowOfTwo(q, r, Rank(r.class_));
    OfTwo(q, r, Rank(r.class_));
    assert [q, r][..1] == [q];
    assert Before([q, r], 1) == [q] + [];
    assert [q] + [] == [q];
    SlotsNext([q], s, p, a);
    assert [q][..0] == [];
    StartSlots(s, p, a);
    SwitchedOn([q, r], 1, s, p);
  }

  // ---------------------------------------------------------------- a quiet host

  /** Nothing is known but the token budget and what is running. */
  function Quiet(used: int, budget: int, running: map<Class, int>, alert: Alert): Snapshot {
    Snapshot(false, 0.0, 0.0, 0.0, 0.0, used, budget, 0, 0, map[], map[], running, false, None,
             0.0, 0, 0, 0, 100, Unread, false, alert)
  }

  lemma QuietAssessment(s: Snapshot, p: Policy)
    requires s == Quiet(s.tokensUsed, s.tokensBudget, s.running, s.alert)
    ensures Assess(s, p).pressure == Worse(HeadroomPressure(p, TokenHeadroom(s)), AlertPressure(s.alert))
    ensures Assess(s, p).loadAverage == UNKNOWN
  {
    hide HeadroomPressure, Fraction;
    assert Fraction(0.0, 0.0) == UNKNOWN by {
      NoLimit();
    }
    assert SeatHeadroom(s, p) == UNKNOWN;
  }

  lemma NoLimit()
    ensures Fraction(0.0, 0.0) == UNKNOWN
  {
  }

  lemma QuietIsLighter(used: int, more: int, budget: int, running: map<Class, int>, x: Alert, y: Alert)
    requires used <= more && Level(AlertPressure(x)) <= Level(AlertPressure(y))
    ensures Heavier(Quiet(used, budget, running, x), Quiet(more, budget, running, y))
    ensures Reads(Quiet(used, budget, running, x))
  {
  }

  // ---------------------------------------------------------------- slots that a refusal frees

  /** A background class besides two others. */
  function Third(c: Class, d: Class): (e: Class)
    ensures Background(e) && e != c && e != d
  {
    if c != ControlRepair && d != ControlRepair then ControlRepair
    else if c != StaffOps && d != StaffOps then StaffOps else Audit
  }

  /** One slot is left, and its class is neither of the two. */
  function AlmostFull(p: Policy, c: Class, d: Class, alert: Alert): Snapshot {
    Quiet(0, 0, map[Third(c, d) := p.maxBackground - 1], alert)
  }

  lemma AlmostFullSlots(p: Policy, c: Class, d: Class, alert: Alert)
    requires p.maxBackground > 0
    ensures var slots := InitialSlots(AlmostFull(p, c, d, alert), p);
      && slots.background == p.maxBackground - 1 && slots.tokensLeft == -1
      && InFlight(slots, c) <= 0 && InFlight(slots, d) <= 0
  {
    hide TotalOf, RunningTotal;
    SlotsInUse(map[Third(c, d) := p.maxBackground - 1]);
  }

  /** A better class that bears no load, before a worse one that does: without the alert the first takes the last
      slot from the second, with it the first is put off and the second is let in. */
  lemma AlertFreesASlot(p: Policy, c: Class, d: Class)
    requires !p.disabled && p.maxBackground > 0 && Background(c) && Background(d)
    requires Rank(c) < Rank(d) && c !in p.loadBearing && d in p.loadBearing
    ensures var s, t := AlmostFull(p, c, d, NoAlert), AlmostFull(p, c, d, ThrottleAlert);
      var queue := [Request(c, "", 0, false), Request(d, "", 0, false)];
      Heavier(s, t) && Reads(s) && CountsSlotsOnly(queue, s) && !KeepsVerdict(queue, 1, s, t, p)
  {
    var s, t := AlmostFull(p, c, d, NoAlert), AlmostFull(p, c, d, ThrottleAlert);
    var q, r := Request(c, "", 0, false), Request(d, "", 0, false);
    QuietIsLighter(0, 0, 0, s.running, NoAlert, ThrottleAlert);
    SecondOfTwo(q, r, s, p);
    SecondOfTwo(q, r, t, p);
    QuietAssessment(s, p);
    QuietAssessment(t, p);
    AlmostFullSlots(p, c, d, NoAlert);
    AlmostFullSlots(p, c, d, ThrottleAlert);
    LightSide(q, r, s, p, Assess(s, p), InitialSlots(s, p));
    HeavySide(q, r, t, p, Assess(t, p), InitialSlots(t, p));
  }

  lemma LightSide(q: Request, r: Request, s: Snapshot, p: Policy, a: Assessment, slots: Slots)
    requires Background(q.class_) && Background(r.class_) && a.pressure == Normal && a.loadAverage == UNKNOWN
    requires !s.ownerActive && slots.background == p.maxBackground - 1 && slots.tokensLeft == -1
    requires InFlight(slots, q.class_) <= 0 && p.maxBackground > 0
    ensures Permits(Decide(r, s, p, a, Decide(q, s, p, a, slots).1).0) == 0
  {
  }

  lemma HeavySide(q: Request, r: Request, t: Snapshot, p: Policy, b: Assessment, slots: Slots)
    requires Background(q.class_) && Background(r.class_) && b.pressure == Tight && b.loadAverage == UNKNOWN
    requires q.class_ !in p.loadBearing && r.class_ in p.loadBearing
    requires slots.background == p.maxBackground - 1 && slots.tokensLeft == -1 && InFlight(slots, r.class_) <= 0
    ensures Permits(Decide(r, t, p, b, Decide(q, t, p, b, slots).1).0) == 2
  {
  }

  // ---------------------------------------------------------------- exactly when slots keep order

  /** The second of two requests is let further in by the heavier of two readings. */
  ghost predicate Inverts(queue: seq<Request>, s: Snapshot, t: Snapshot, p: Policy) {
    && |queue| == 2 && Heavier(s, t) && Reads(s) && s.tokensUsed >= 0
    && !KeepsVerdict(queue, 1, s, t, p)
  }

  /** Every plan in which tokens play no part keeps its verdicts under more load. */
  ghost predicate SlotPlansAreMonotone(p: Policy) {
    forall queue, i: nat, s, t :: i < |queue| && Heavier(s, t) && Reads(s) && CountsSlotsOnly(queue, s) ==>
      KeepsVerdict(queue, i, s, t, p)
  }

  lemma SlotInversion(p: Policy)
    requires !p.disabled && !SlotsKeepOrder(p)
    ensures exists queue, s, t :: Inverts(queue, s, t, p) && s.tokensBudget == 0 && NonNegative(queue)
  {
    var c, d :| Background(c) && Background(d) && Rank(c) < Rank(d) && d in p.loadBearing && c !in p.loadBearing;
    var s, t := AlmostFull(p, c, d, NoAlert), AlmostFull(p, c, d, ThrottleAlert);
    var queue := [Request(c, "", 0, false), Request(d, "", 0, false)];
    AlertFreesASlot(p, c, d);
    assert Inverts(queue, s, t, p) && s.tokensBudget == 0 && NonNegative(queue);
  }

  /** A policy in force keeps every verdict of every plan in which tokens play no part exactly when it bounds no
      total, or its load-bearing classes are the better ranks. */
  lemma SlotPlansAreMonotoneExactly(p: Policy)
    requires InRange(p)
    ensures SlotPlansAreMonotone(p) <==> p.disabled || SlotsKeepOrder(p)
  {
    hide KeepsVerdict, Heavier, Reads, CountsSlotsOnly, SlotsKeepOrder;
    if p.disabled || SlotsKeepOrder(p) {
      forall queue, i: nat, s, t | i < |queue| && Heavier(s, t) && Reads(s) && CountsSlotsOnly(queue, s)
        ensures KeepsVerdict(queue, i, s, t, p)
      {
        PlanKeepsVerdicts(queue, i, s, t, p);
      }
    } else {
      SlotInversion(p);
      var queue, s, t :| Inverts(queue, s, t, p) && s.tokensBudget == 0 && NonNegative(queue);
      NoBudgetCounts(queue, s);
    }
  }

  lemma NoBudgetCounts(queue: seq<Request>, s: Snapshot)
    requires s.tokensBudget == 0
    ensures CountsSlotsOnly(queue, s)
  {
  }

  // ---------------------------------------------------------------- tokens that a refusal frees

  /** A budget of which at least two tokens are not reserved. */
  ghost function SomeBudget(p: Policy): (n: int)
    requires 0.0 <= p.ownerReserve < 1.0
    ensures n >= 2 && n as real * (1.0 - p.ownerReserve) >= 2.0
  {
    var free := 1.0 - p.ownerReserve;
    var n := (2.0 / free).Floor + 1;
    BudgetCovers(free, n);
    n
  }

  lemma BudgetCovers(free: real, n: int)
    requires 0.0 < free <= 1.0 && n == (2.0 / free).Floor + 1
    ensures n as real * free >= 2.0 && n >= 2
  {
    var q := 2.0 / free;
    assert q * free == 2.0;
    assert n as real > q;
    Scaled(q, n as real, free);
    Scaled(free, 1.0, n as real);
  }

  lemma Scaled(a: real, b: real, k: real)
    requires a <= b && k >= 0.0
    ensures a * k <= b * k
  {
  }

  /** What is left for background work of that budget, before and after one token is spent. */
  lemma Allowances(p: Policy, budget: int)
    requires 0.0 <= p.ownerReserve < 1.0 && budget >= 2 && budget as real * (1.0 - p.ownerReserve) >= 2.0
    ensures var s, t := Quiet(0, budget, map[], NoAlert), Quiet(1, budget, map[], NoAlert);
      TokenAllowance(s, p) >= 2 && TokenAllowance(t, p) == TokenAllowance(s, p) - 1
  {
    var reserved := budget as real * p.ownerReserve;
    assert budget as real * (1.0 - p.ownerReserve) == budget as real - reserved;
    Scaled(0.0, p.ownerReserve, budget as real);
    assert OwnerTokens(budget, p) as real <= reserved;
  }

  /** With one token spent, pressure is at most elevated. */
  lemma OneSpentIsCalm(p: Policy, budget: int)
    requires InRange(p) && p.ownerReserve < 1.0 && budget >= 2 && budget as real * (1.0 - p.ownerReserve) >= 2.0
    ensures Level(HeadroomPressure(p, TokenHeadroom(Quiet(1, budget, map[], NoAlert)))) <= Level(Elevated)
    ensures HeadroomPressure(p, TokenHeadroom(Quiet(0, budget, map[], NoAlert))) == Normal
  {
    var n := budget as real;
    assert 0.0 / n == 0.0;
    var used := 1.0 / n;
    assert used * n == 1.0;
    if used > 1.0 - p.ownerReserve {
      Scaled(1.0 - p.ownerReserve, used, n);
      assert (1.0 - p.ownerReserve) * n == n * (1.0 - p.ownerReserve);
    }
    if used >= 1.0 {
      Scaled(1.0, used, n);
    }
  }

  function Costly(n: int): Request { Request(Coach, "", n, false) }

  const CHEAP := Request(Research, "", 1, false)

  lemma EmptySlots(s: Snapshot, p: Policy)
    requires s.running == map[]
    ensures var slots := InitialSlots(s, p);
      slots.background == 0 && slots.tokensLeft == TokenAllowance(s, p) && forall c :: InFlight(slots, c) == 0
  {
    hide TotalOf, RunningTotal, TokenAllowance;
    SlotsInUse(map[]);
  }

  lemma FirstFits(q: Request, r: Request, s: Snapshot, p: Policy, a: Assessment, slots: Slots)
    requires Background(q.class_) && Background(r.class_) && a.pressure == Normal && a.loadAverage == UNKNOWN
    requires !s.ownerActive && slots.background == 0 && InFlight(slots, q.class_) == 0
    requires slots.tokensLeft == q.estTokens > 0 && r.estTokens > 0
    ensures Permits(Decide(r, s, p, a, Decide(q, s, p, a, slots).1).0) == 0
  {
  }

  lemma FirstIsTooCostly(q: Request, r: Request, t: Snapshot, p: Policy, b: Assessment, slots: Slots)
    requires Background(q.class_) && Background(r.class_) && Level(b.pressure) <= Level(Elevated) && b.loadAverage == UNKNOWN
    requires !t.ownerActive && slots.background == 0 && InFlight(slots, r.class_) == 0 && !r.degradable
    requires slots.tokensLeft == q.estTokens - 1 && slots.tokensLeft >= r.estTokens > 0
    ensures Permits(Decide(r, t, p, b, Decide(q, t, p, b, slots).1).0) == 2
  {
  }

  /** Every policy in force that reserves less than everything has a plan in which one more spent token lets a
      request in: a costlier one before it no longer fits. */
  lemma SpentTokenFreesTokens(p: Policy)
    requires InRange(p) && !p.disabled && p.ownerReserve < 1.0
    ensures exists queue, s, t :: Inverts(queue, s, t, p) && NonNegative(queue)
  {
    var budget := SomeBudget(p);
    var s, t := Quiet(0, budget, map[], NoAlert), Quiet(1, budget, map[], NoAlert);
    var queue := [Costly(TokenAllowance(s, p)), CHEAP];
    Allowances(p, budget);
    OneSpentIsCalm(p, budget);
    QuietIsLighter(0, 1, budget, map[], NoAlert, NoAlert);
    hide Decide, TokenHeadroom, HeadroomPressure, InitialSlots, TokenAllowance, Assess, Planned;
    SecondOfTwo(queue[0], queue[1], s, p);
    SecondOfTwo(queue[0], queue[1], t, p);
    QuietAssessment(s, p);
    QuietAssessment(t, p);
    EmptySlots(s, p);
    EmptySlots(t, p);
    FirstFits(queue[0], queue[1], s, p, Assess(s, p), InitialSlots(s, p));
    FirstIsTooCostly(queue[0], queue[1], t, p, Assess(t, p), InitialSlots(t, p));
    assert Inverts(queue, s, t, p) && NonNegative(queue);
  }

  // ---------------------------------------------------------------- exactly when all plans keep order

  /** Every plan keeps its verdicts under more load, whatever its requests cost. */
  ghost predicate PlansAreMonotone(p: Policy) {
    forall queue, i: nat, s, t ::
      i < |queue| && Heavier(s, t) && Reads(s) && s.tokensUsed >= 0 && NonNegative(queue) ==>
        KeepsVerdict(queue, i, s, t, p)
  }

  /** With token estimates at play, exactly when control is off, or the policy reserves every token and its slots
      keep order. */
  lemma PlansAreMonotoneExactly(p: Policy)
    requires InRange(p)
    ensures PlansAreMonotone(p) <==> p.disabled || (p.ownerReserve == 1.0 && SlotsKeepOrder(p))
  {
    hide KeepsVerdict, Heavier, Reads, SlotsKeepOrder, NonNegative;
    if p.disabled || (p.ownerReserve == 1.0 && SlotsKeepOrder(p)) {
      forall queue, i: nat, s, t
        | i < |queue| && Heavier(s, t) && Reads(s) && s.tokensUsed >= 0 && NonNegative(queue)
        ensures KeepsVerdict(queue, i, s, t, p)
      {
        if p.disabled {
          SwitchedOff(queue, i, s, t, p);
        } else {
          PlanKeepsVerdicts(queue, i, s, t, p);
        }
      }
    } else if p.ownerReserve < 1.0 {
      SpentTokenFreesTokens(p);
    } else {
      SlotInversion(p);
    }
  }
}
