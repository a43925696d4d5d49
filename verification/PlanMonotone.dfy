/**
 When more load never makes a plan more permissive. One request alone is always safe; in a queue, a refusal
 higher up can free a slot or tokens for a request further down, and whether it can is decided by the policy.
 */
module PlanMonotone {
  import opened Options
  import opened Capacity
  import opened Admission
  import opened AdmissionLaws
  import opened Monotone

  // ---------------------------------------------------------------- refusals by class

  /** The host, the load or the owner keeps a whole class out, whatever slots and tokens are left. */
  predicate Gated(c: Class, s: Snapshot, p: Policy, a: Assessment) {
    || a.pressure == Critical
    || (c !in p.loadBearing
        && (|| a.pressure == Tight
            || (a.loadAverage != UNKNOWN && (a.loadAverage <= 0.0 || a.loadAverage < p.ownerReserve))
            || (p.ownerBusyDefers && s.ownerActive)))
  }

  predicate FullUp(slots: Slots, p: Policy) {
    p.maxBackground > 0 && slots.background >= p.maxBackground
  }

  predicate ClassFull(slots: Slots, p: Policy, c: Class) {
    ClassBound(p, c) > 0 && InFlight(slots, c) >= ClassBound(p, c)
  }

  predicate NoTokens(r: Request, slots: Slots) {
    slots.tokensLeft >= 0 && r.estTokens > 0 && r.estTokens > slots.tokensLeft
  }

  lemma RefusedExactly(r: Request, s: Snapshot, p: Policy, a: Assessment, slots: Slots)
    ensures Refusal(r, s, p, a, slots).Some?
      <==> Gated(r.class_, s, p, a) || FullUp(slots, p) || ClassFull(slots, p, r.class_) || NoTokens(r, slots)
  {
  }

  /** The load-bearing background classes are the better ranks: each better background class is one as well. */
  predicate BetterRanksBearLoad(p: Policy) {
    forall c, d :: Background(c) && Background(d) && Rank(c) < Rank(d) && d in p.loadBearing ==> c in p.loadBearing
  }

  /** Nothing refused higher up can free a slot further down. */
  predicate SlotsKeepOrder(p: Policy) {
    p.maxBackground <= 0 || BetterRanksBearLoad(p)
  }

  lemma SameRank(c: Class, d: Class)
    requires Rank(c) == Rank(d)
    ensures c == d
  {
  }

  /** A gate that keeps a class out keeps every worse one out. */
  lemma GatesGoDown(c: Class, d: Class, s: Snapshot, p: Policy, a: Assessment)
    requires BetterRanksBearLoad(p) && Background(c) && Background(d) && Rank(c) <= Rank(d) && Gated(c, s, p, a)
    ensures Gated(d, s, p, a)
  {
    if Rank(c) == Rank(d) {
      SameRank(c, d);
    }
  }

  // ---------------------------------------------------------------- tokens that decide nothing

  predicate NonNegative(rs: seq<Request>) {
    forall r :: r in rs ==> r.estTokens >= 0
  }

  /** Tokens refuse the same requests under both snapshots: there is no budget, nobody asks, or all is reserved. */
  predicate TokensDecideNothing(rs: seq<Request>, s: Snapshot, p: Policy) {
    CountsSlotsOnly(rs, s) || (p.ownerReserve == 1.0 && s.tokensUsed >= 0 && NonNegative(rs))
  }

  lemma AllReserved(s: Snapshot, p: Policy)
    requires p.ownerReserve == 1.0 && s.tokensUsed >= 0 && s.tokensBudget > 0
    ensures TokenAllowance(s, p) == 0
  {
    assert s.tokensBudget as real * 1.0 == s.tokensBudget as real;
  }

  /** What one decision leaves of the tokens. */
  lemma TokensAfterOne(r: Request, s: Snapshot, p: Policy, a: Assessment, slots: Slots)
    ensures var next := Decide(r, s, p, a, slots).1;
      && (slots.tokensLeft < 0 ==> next.tokensLeft < 0)
      && (slots.tokensLeft == 0 && r.estTokens >= 0 ==> next.tokensLeft == 0)
  {
    hide Refusal;
  }

  lemma {:induction false} TokensStay(rs: seq<Request>, s: Snapshot, p: Policy, a: Assessment)
    ensures s.tokensBudget <= 0 ==> SlotsAfter(rs, s, p, a).tokensLeft < 0
    ensures s.tokensBudget > 0 && p.ownerReserve == 1.0 && s.tokensUsed >= 0 && NonNegative(rs) ==>
      SlotsAfter(rs, s, p, a).tokensLeft == 0
  {
    hide Decide, OwnerTokens;
    if rs == [] {
      if s.tokensBudget > 0 && p.ownerReserve == 1.0 && s.tokensUsed >= 0 {
        AllReserved(s, p);
      }
    } else {
      var init, r := rs[..|rs| - 1], rs[|rs| - 1];
      TokensStay(init, s, p, a);
      TokensAfterOne(r, s, p, a, SlotsAfter(init, s, p, a));
      assert NonNegative(rs) ==> NonNegative(init) && r in rs;
    }
  }

  lemma SameTokenRefusals(
    rs: seq<Request>, r: Request, s: Snapshot, t: Snapshot, p: Policy, a: Assessment, b: Assessment)
    requires s.tokensBudget == t.tokensBudget && s.tokensUsed <= t.tokensUsed
    requires TokensDecideNothing(rs + [r], s, p)
    ensures NoTokens(r, SlotsAfter(rs, s, p, a)) <==> NoTokens(r, SlotsAfter(rs, t, p, b))
  {
    hide SlotsAfter;
    assert r in rs + [r] && forall x :: x in rs ==> x in rs + [r];
    TokensStay(rs, s, p, a);
    TokensStay(rs, t, p, b);
  }

  // ---------------------------------------------------------------- slots in use

  function InUse(slots: Slots): int {
    InFlight(slots, ControlRepair) + InFlight(slots, StaffOps) + InFlight(slots, Audit) + InFlight(slots, Coach)
    + InFlight(slots, Research) + InFlight(slots, Experimental)
  }

  lemma OneMoreInUse(r: Request, slots: Slots)
    requires Background(r.class_)
    ensures InUse(Taken(r, slots)) == InUse(slots) + 1
    ensures forall c :: InFlight(Taken(r, slots), c) == InFlight(slots, c) + if c == r.class_ then 1 else 0
  {
  }

  /** The background count is the sum of the classes. */
  lemma {:induction false} SlotsAddUp(rs: seq<Request>, s: Snapshot, p: Policy, a: Assessment)
    ensures SlotsAfter(rs, s, p, a).background == InUse(SlotsAfter(rs, s, p, a))
  {
    if rs == [] {
      hide TotalOf, TokenAllowance, RunningIn, RunningTotal;
      SlotsInUse(s.running);
    } else {
      hide Decide, Taken, InUse;
      var init, r := rs[..|rs| - 1], rs[|rs| - 1];
      var slots := SlotsAfter(init, s, p, a);
      SlotsAddUp(init, s, p, a);
      TakenWhenAdmitted(r, s, p, a, slots);
      if Background(r.class_) {
        OneMoreInUse(r, slots);
        OneMoreSlot(r, slots);
      }
    }
  }

  lemma OneMoreSlot(r: Request, slots: Slots)
    ensures Taken(r, slots).background == slots.background + 1
  {
  }

  // ---------------------------------------------------------------- two runs of one queue

  /** `b` is the assessment of a snapshot `t` with at least the load of `s`. */
  predicate Lighter(s: Snapshot, a: Assessment, t: Snapshot, b: Assessment) {
    && (s.ownerActive ==> t.ownerActive) && (s.spawnHalted ==> t.spawnHalted)
    && Level(a.pressure) <= Level(b.pressure) && Binds(a.loadAverage, b.loadAverage)
  }

  lemma GatesStay(c: Class, s: Snapshot, a: Assessment, t: Snapshot, b: Assessment, p: Policy)
    requires Lighter(s, a, t, b) && Gated(c, s, p, a)
    ensures Gated(c, t, p, b)
  {
  }

  /** The heavier snapshot has no fewer slots of the class and in all. */
  predicate NoMoreRoom(x: Slots, y: Slots, p: Policy, c: Class) {
    InFlight(x, c) <= InFlight(y, c) && (p.maxBackground > 0 ==> x.background <= y.background)
  }

  /** With no more room for a class, a request of it that the lighter snapshot refuses is refused again. */
  lemma RefusedAgain(r: Request, s: Snapshot, a: Assessment, x: Slots, t: Snapshot, b: Assessment, y: Slots, p: Policy)
    requires Lighter(s, a, t, b) && NoMoreRoom(x, y, p, r.class_) && (NoTokens(r, x) <==> NoTokens(r, y))
    requires Refusal(r, s, p, a, x).Some?
    ensures Refusal(r, t, p, b, y).Some?
  {
    hide Refusal, Gated;
    RefusedExactly(r, s, p, a, x);
    RefusedExactly(r, t, p, b, y);
    if Gated(r.class_, s, p, a) {
      GatesStay(r.class_, s, a, t, b, p);
    }
  }

  lemma AdmittedExactly(r: Request, s: Snapshot, p: Policy, a: Assessment, slots: Slots)
    requires Background(r.class_)
    ensures Decide(r, s, p, a, slots).0.Admitted() <==> Refusal(r, s, p, a, slots).None?
  {
    hide Refusal;
  }

  lemma StepPermits(r: Request, s: Snapshot, a: Assessment, x: Slots, t: Snapshot, b: Assessment, y: Slots, p: Policy)
    requires Lighter(s, a, t, b) && (NoTokens(r, x) <==> NoTokens(r, y))
    requires Background(r.class_) ==> Gated(r.class_, t, p, b) || FullUp(y, p) || NoMoreRoom(x, y, p, r.class_)
    ensures Permits(Decide(r, t, p, b, y).0) <= Permits(Decide(r, s, p, a, x).0)
  {
    if Background(r.class_) {
      RefusedExactly(r, t, p, b, y);
      if NoMoreRoom(x, y, p, r.class_) && Refusal(r, s, p, a, x).Some? {
        RefusedAgain(r, s, a, x, t, b, y, p);
      }
      hide Refusal, Taken, FullUp, NoMoreRoom, NoTokens;
      assert Refusal(r, t, p, b, y).None? ==> !Gated(r.class_, t, p, b);
    }
  }

  /** One more request, let through by both gates: the heavier run keeps no fewer slots of each class, unless it
      is full. */
  lemma StepKeepsRoom(
    r: Request, s: Snapshot, a: Assessment, x: Slots, t: Snapshot, b: Assessment, y: Slots, p: Policy, c: Class)
    requires Background(r.class_) && Lighter(s, a, t, b) && !Gated(r.class_, t, p, b) && (NoTokens(r, x) <==> NoTokens(r, y))
    requires InFlight(x, c) <= InFlight(y, c) && InFlight(x, r.class_) <= InFlight(y, r.class_)
    ensures FullUp(y, p) || InFlight(Decide(r, s, p, a, x).1, c) <= InFlight(Decide(r, t, p, b, y).1, c)
  {
    hide Decide, Refusal, Taken, Gated;
    TakenWhenAdmitted(r, s, p, a, x);
    TakenWhenAdmitted(r, t, p, b, y);
    OneMoreInUse(r, x);
    OneMoreInUse(r, y);
    AdmittedExactly(r, s, p, a, x);
    AdmittedExactly(r, t, p, b, y);
    RefusedExactly(r, s, p, a, x);
    RefusedExactly(r, t, p, b, y);
  }

  lemma SlotsNext(rs: seq<Request>, s: Snapshot, p: Policy, a: Assessment)
    requires rs != []
    ensures SlotsAfter(rs, s, p, a) == Decide(rs[|rs| - 1], s, p, a, SlotsAfter(rs[..|rs| - 1], s, p, a)).1
  {
  }

  /** A request of another class, or one that is refused, leaves a class as it was. */
  lemma UnchangedClass(r: Request, s: Snapshot, p: Policy, a: Assessment, slots: Slots, c: Class)
    requires !Background(r.class_) || r.class_ != c
    ensures InFlight(Decide(r, s, p, a, slots).1, c) == InFlight(slots, c)
  {
    hide Decide, Taken;
    TakenWhenAdmitted(r, s, p, a, slots);
    if Background(r.class_) {
      OneMoreInUse(r, slots);
    }
  }

  lemma PrefixTokens(rs: seq<Request>, s: Snapshot, p: Policy)
    requires rs != [] && TokensDecideNothing(rs, s, p)
    ensures TokensDecideNothing(rs[..|rs| - 1], s, p) && rs == rs[..|rs| - 1] + [rs[|rs| - 1]]
  {
    assert forall r :: r in rs[..|rs| - 1] ==> r in rs;
  }

  /** With no bound on the total, each class that is let in at all is on its own. */
  lemma {:induction false} ClassesApart(
    rs: seq<Request>, s: Snapshot, a: Assessment, t: Snapshot, b: Assessment, p: Policy, c: Class)
    requires Heavier(s, t) && Lighter(s, a, t, b) && p.maxBackground <= 0 && TokensDecideNothing(rs, s, p)
    requires Background(c) && !Gated(c, t, p, b)
    ensures InFlight(SlotsAfter(rs, s, p, a), c) <= InFlight(SlotsAfter(rs, t, p, b), c)
  {
    hide Heavier, Lighter, TokensDecideNothing, SlotsAfter, Decide, Gated, InitialSlots;
    if rs == [] {
      StartSlots(s, p, a);
      StartSlots(t, p, b);
      SlotsMonotone(s, t, p);
    } else {
      var init, r := rs[..|rs| - 1], rs[|rs| - 1];
      PrefixTokens(rs, s, p);
      ClassesApart(init, s, a, t, b, p, c);
      SlotsNext(rs, s, p, a);
      SlotsNext(rs, t, p, b);
      var x, y := SlotsAfter(init, s, p, a), SlotsAfter(init, t, p, b);
      if r.class_ == c {
        HeavierTokens(s, t);
        SameTokenRefusals(init, r, s, t, p, a, b);
        StepKeepsRoom(r, s, a, x, t, b, y, p, c);
      } else {
        UnchangedClass(r, s, p, a, x, c);
        UnchangedClass(r, t, p, b, y, c);
      }
    }
  }

  lemma StartSlots(s: Snapshot, p: Policy, a: Assessment)
    ensures SlotsAfter([], s, p, a) == InitialSlots(s, p)
  {
  }

  lemma HeavierTokens(s: Snapshot, t: Snapshot)
    requires Heavier(s, t)
    ensures s.tokensBudget == t.tokensBudget && s.tokensUsed <= t.tokensUsed
  {
  }

  /** The heavier run refuses everything from here on, or has no fewer slots in use of any class. */
  ghost predicate ShutOrAhead(rs: seq<Request>, x: Slots, t: Snapshot, b: Assessment, y: Slots, p: Policy) {
    || FullUp(y, p)
    || (exists r :: r in rs && Background(r.class_) && Gated(r.class_, t, p, b))
    || forall c :: Background(c) ==> InFlight(x, c) <= InFlight(y, c)
  }

  lemma StaysFull(r: Request, t: Snapshot, p: Policy, b: Assessment, y: Slots)
    requires FullUp(y, p)
    ensures FullUp(Decide(r, t, p, b, y).1, p)
  {
    hide Decide;
    TakenWhenAdmitted(r, t, p, b, y);
  }

  lemma StepStaysAhead(
    init: seq<Request>, r: Request, s: Snapshot, a: Assessment, x: Slots, t: Snapshot, b: Assessment, y: Slots, p: Policy)
    requires Lighter(s, a, t, b) && (NoTokens(r, x) <==> NoTokens(r, y)) && ShutOrAhead(init, x, t, b, y, p)
    ensures ShutOrAhead(init + [r], Decide(r, s, p, a, x).1, t, b, Decide(r, t, p, b, y).1, p)
  {
    hide Decide, Gated, Lighter, NoTokens, FullUp;
    if FullUp(y, p) {
      StaysFull(r, t, p, b, y);
    } else if q :| q in init && Background(q.class_) && Gated(q.class_, t, p, b) {
      assert q in init + [r];
    } else if Background(r.class_) && Gated(r.class_, t, p, b) {
      assert r in init + [r];
    } else {
      forall c | Background(c) ensures InFlight(Decide(r, s, p, a, x).1, c) <= InFlight(Decide(r, t, p, b, y).1, c) {
        if Background(r.class_) {
          StepKeepsRoom(r, s, a, x, t, b, y, p, c);
        } else {
          UnchangedClass(r, s, p, a, x, c);
          UnchangedClass(r, t, p, b, y, c);
        }
      }
    }
  }

  lemma {:induction false} StaysAhead(
    rs: seq<Request>, s: Snapshot, a: Assessment, t: Snapshot, b: Assessment, p: Policy)
    requires Heavier(s, t) && Lighter(s, a, t, b) && TokensDecideNothing(rs, s, p)
    ensures ShutOrAhead(rs, SlotsAfter(rs, s, p, a), t, b, SlotsAfter(rs, t, p, b), p)
  {
    hide Heavier, Lighter, TokensDecideNothing, SlotsAfter, Decide, Gated, FullUp, InitialSlots;
    if rs == [] {
      StartSlots(s, p, a);
      StartSlots(t, p, b);
      SlotsMonotone(s, t, p);
    } else {
      hide ShutOrAhead;
      var init, r := rs[..|rs| - 1], rs[|rs| - 1];
      PrefixTokens(rs, s, p);
      StaysAhead(init, s, a, t, b, p);
      HeavierTokens(s, t);
      SameTokenRefusals(init, r, s, t, p, a, b);
      SlotsNext(rs, s, p, a);
      SlotsNext(rs, t, p, b);
      StepStaysAhead(init, r, s, a, SlotsAfter(init, s, p, a), t, b, SlotsAfter(init, t, p, b), p);
    }
  }

  // ---------------------------------------------------------------- the plan

  lemma {:induction false} OfRankIsPart(queue: seq<Request>, k: nat)
    ensures forall r :: r in OfRank(queue, k) ==> r in queue && Rank(r.class_) == k
  {
    if queue != [] {
      OfRankIsPart(queue[..|queue| - 1], k);
    }
  }

  lemma {:induction false} BelowRankIsPart(queue: seq<Request>, k: nat)
    ensures forall r :: r in BelowRank(queue, k) ==> r in queue && Rank(r.class_) < k
    decreases k
  {
    hide OfRank;
    if k > 0 {
      BelowRankIsPart(queue, k - 1);
      OfRankIsPart(queue, k - 1);
    }
  }

  /** What a request waits behind is part of the queue, and of no worse rank. */
  lemma BeforeIsPart(queue: seq<Request>, i: nat)
    requires i < |queue|
    ensures forall r :: r in Before(queue, i) ==> r in queue && Rank(r.class_) <= Rank(queue[i].class_)
  {
    hide OfRank, BelowRank;
    BelowRankIsPart(queue, Rank(queue[i].class_));
    OfRankIsPart(queue[..i], Rank(queue[i].class_));
  }

  lemma PartTokens(queue: seq<Request>, part: seq<Request>, s: Snapshot, p: Policy)
    requires TokensDecideNothing(queue, s, p) && forall r :: r in part ==> r in queue
    ensures TokensDecideNothing(part, s, p)
  {
  }

  lemma AllAhead(x: Slots, y: Slots, p: Policy, c: Class)
    requires Background(c) && x.background == InUse(x) && y.background == InUse(y)
    requires forall k :: Background(k) ==> InFlight(x, k) <= InFlight(y, k)
    ensures NoMoreRoom(x, y, p, c)
  {
  }

  /** The decision on a request after the ones it waits behind. */
  lemma QueuePermits(rs: seq<Request>, r: Request, s: Snapshot, a: Assessment, t: Snapshot, b: Assessment, p: Policy)
    requires Heavier(s, t) && Lighter(s, a, t, b) && SlotsKeepOrder(p) && TokensDecideNothing(rs + [r], s, p)
    requires forall q :: q in rs ==> Rank(q.class_) <= Rank(r.class_)
    ensures Permits(Decide(r, t, p, b, SlotsAfter(rs, t, p, b)).0) <= Permits(Decide(r, s, p, a, SlotsAfter(rs, s, p, a)).0)
  {
    hide Heavier, Lighter, TokensDecideNothing, SlotsAfter, Decide, Gated, InUse;
    var x, y := SlotsAfter(rs, s, p, a), SlotsAfter(rs, t, p, b);
    assert forall q :: q in rs ==> q in rs + [r];
    PartTokens(rs + [r], rs, s, p);
    HeavierTokens(s, t);
    SameTokenRefusals(rs, r, s, t, p, a, b);
    if Background(r.class_) && !Gated(r.class_, t, p, b) {
      if p.maxBackground <= 0 {
        ClassesApart(rs, s, a, t, b, p, r.class_);
      } else {
        StaysAhead(rs, s, a, t, b, p);
        if q :| q in rs && Background(q.class_) && Gated(q.class_, t, p, b) {
          GatesGoDown(q.class_, r.class_, t, p, b);
          assert false;
        }
        SlotsAddUp(rs, s, p, a);
        SlotsAddUp(rs, t, p, b);
        if !FullUp(y, p) {
          AllAhead(x, y, p, r.class_);
        }
      }
    }
    StepPermits(r, s, a, x, t, b, y, p);
  }

  /** A plan that is never more permissive under the heavier of two snapshots. */
  ghost predicate KeepsVerdict(queue: seq<Request>, i: nat, s: Snapshot, t: Snapshot, p: Policy)
    requires i < |queue|
  {
    Permits(Planned(queue, i, t, p)) <= Permits(Planned(queue, i, s, p))
  }

  lemma SwitchedOff(queue: seq<Request>, i: nat, s: Snapshot, t: Snapshot, p: Policy)
    requires i < |queue| && p.disabled
    ensures KeepsVerdict(queue, i, s, t, p)
  {
  }

  lemma SwitchedOn(queue: seq<Request>, i: nat, s: Snapshot, p: Policy)
    requires i < |queue| && !p.disabled
    ensures Planned(queue, i, s, p)
         == Decide(queue[i], s, p, Assess(s, p), SlotsAfter(Before(queue, i), s, p, Assess(s, p))).0
  {
  }

  lemma PlanKeepsVerdicts(queue: seq<Request>, i: nat, s: Snapshot, t: Snapshot, p: Policy)
    requires i < |queue| && InRange(p) && Heavier(s, t) && Reads(s) && TokensDecideNothing(queue, s, p)
    requires p.disabled || SlotsKeepOrder(p)
    ensures KeepsVerdict(queue, i, s, t, p)
  {
    if p.disabled {
      SwitchedOff(queue, i, s, t, p);
    } else {
      LighterSnapshot(s, t, p);
      hide Heavier, TokensDecideNothing, Decide, Assess, SlotsAfter, Planned, Before, Lighter;
      SwitchedOn(queue, i, s, p);
      SwitchedOn(queue, i, t, p);
      BeforeIsPart(queue, i);
      PartTokens(queue, Before(queue, i) + [queue[i]], s, p);
      QueuePermits(Before(queue, i), queue[i], s, Assess(s, p), t, Assess(t, p), p);
    }
  }

  lemma LighterSnapshot(s: Snapshot, t: Snapshot, p: Policy)
    requires Heavier(s, t) && InRange(p) && Reads(s)
    ensures Lighter(s, Assess(s, p), t, Assess(t, p))
  {
    hide SeatHeadroom, MemoryHeadroom, CostHeadroom;
    AssessIsMonotone(s, t, p);
    LoadAverageBinds(s, t, p);
  }
}
