/**
 More load never relaxes the assessment of a snapshot or the admission of a request.
 */
module Monotone {
  import opened Options
  import opened Capacity
  import opened Admission
  import opened AdmissionLaws

  // ---------------------------------------------------------------- heavier snapshots

  function MemLevel(m: MemPressure): nat {
    match m case Unread => 0 case Easy => 1 case Warned => 2 case Severe => 3
  }

  /** `t` carries at least the load of `s` against the same limits. */
  ghost predicate Heavier(s: Snapshot, t: Snapshot) {
    && s.billable == t.billable && s.budgetUSD == t.budgetUSD && s.ceilingUSD == t.ceilingUSD
    && s.tokensBudget == t.tokensBudget && s.maxSessions == t.maxSessions && s.softCaps == t.softCaps
    && s.cores == t.cores && s.swapTotal == t.swapTotal
    && s.spentUSD <= t.spentUSD && s.projectedUSD <= t.projectedUSD
    && s.tokensUsed <= t.tokensUsed && s.activeSessions <= t.activeSessions
    && (forall n :: LoadOf(s.providerLoad, n) <= LoadOf(t.providerLoad, n))
    && (forall c :: Positive(s.running, c) <= Positive(t.running, c))
    && s.load1 <= t.load1 && s.swapUsed <= t.swapUsed
    && t.memFree <= s.memFree
    && (s.memPressure.Unread? <==> t.memPressure.Unread?) && MemLevel(s.memPressure) <= MemLevel(t.memPressure)
    && (s.planRemaining.None? <==> t.planRemaining.None?)
    && (s.planRemaining.Some? ==> t.planRemaining.value <= s.planRemaining.value)
    && (s.spawnHalted ==> t.spawnHalted) && (s.ownerActive ==> t.ownerActive)
    && Level(AlertPressure(s.alert)) <= Level(AlertPressure(t.alert))
  }

  /** `h` binds at least as much as `g`. */
  predicate Binds(g: real, h: real) {
    g == UNKNOWN || (h != UNKNOWN && h <= g)
  }

  lemma QuotientMonotone(a: real, b: real, d: real)
    requires a <= b && d > 0.0
    ensures a / d <= b / d
  {
  }

  lemma FractionBinds(a: real, b: real, limit: real)
    requires a <= b
    ensures Binds(Fraction(a, limit), Fraction(b, limit))
  {
    if limit > 0.0 {
      QuotientMonotone(a, b, limit);
    }
  }

  lemma ProviderBinds(s: Snapshot, t: Snapshot, p: Policy, n: string)
    requires Heavier(s, t) && n in s.softCaps
    ensures Binds(ProviderHeadroom(s, p, n), ProviderHeadroom(t, p, n))
  {
    FractionBinds(LoadOf(s.providerLoad, n) as real, LoadOf(t.providerLoad, n) as real,
                  ProviderCap(p, s.softCaps[n]) as real);
  }

  lemma SeatBinds(s: Snapshot, t: Snapshot, p: Policy)
    requires Heavier(s, t)
    ensures Binds(SeatHeadroom(s, p), SeatHeadroom(t, p))
  {
    FractionBinds(s.activeSessions as real, t.activeSessions as real, s.maxSessions as real);
    var g, h := SeatHeadroom(s, p), SeatHeadroom(t, p);
    if g != SessionHeadroom(s) {
      var n :| n in s.softCaps && g == ProviderHeadroom(s, p, n);
      ProviderBinds(s, t, p, n);
    }
  }

  /** A kernel reading is a percentage. */
  predicate Reads(s: Snapshot) {
    s.memFree <= 100
  }

  lemma FreeFractionBinds(f: int, g: int, limit: real)
    requires f <= g <= 100 && limit > 0.0
    ensures Binds(FreeFraction(g, limit), FreeFraction(f, limit))
    ensures FreeFraction(f, limit) == UNKNOWN || FreeFraction(f, limit) >= 0.0
    ensures FreeFraction(g, limit) == UNKNOWN || FreeFraction(g, limit) >= 0.0
  {
    if limit < 100.0 {
      QuotientMonotone(f as real - limit, g as real - limit, 100.0 - limit);
    } else if limit > 100.0 {
      AboveHundred(f as real, limit);
      AboveHundred(g as real, limit);
    }
  }

  lemma AboveHundred(f: real, limit: real)
    requires f <= 100.0 < limit
    ensures (f - limit) / (100.0 - limit) >= 1.0
  {
    var a, b := f - limit, 100.0 - limit;
    var q := a / b;
    assert q * b == a;
    if q < 1.0 {
      NegativeProduct(q - 1.0, b);
      assert (q - 1.0) * b == q * b - b;
    }
  }

  lemma NegativeProduct(x: real, y: real)
    requires x < 0.0 && y < 0.0
    ensures x * y > 0.0
  {
  }

  lemma MemoryBinds(s: Snapshot, t: Snapshot, p: Policy)
    requires Heavier(s, t) && InRange(p) && Reads(s)
    ensures Binds(MemoryHeadroom(s, p), MemoryHeadroom(t, p))
  {
    if !p.memoryGateOff {
      if s.memPressure.Unread? {
        if s.swapTotal > 0 {
          var limit := if p.swapCritical <= 0.0 then 0.9 else p.swapCritical;
          QuotientMonotone(s.swapUsed as real, t.swapUsed as real, s.swapTotal as real);
          QuotientMonotone(limit - t.swapUsed as real / s.swapTotal as real,
                           limit - s.swapUsed as real / s.swapTotal as real, limit);
        }
      } else {
        FreeFractionBinds(t.memFree, s.memFree, MemoryLimit(p));
      }
    }
  }

  lemma LoadAverageBinds(s: Snapshot, t: Snapshot, p: Policy)
    requires Heavier(s, t)
    ensures Binds(LoadAverageHeadroom(s, p), LoadAverageHeadroom(t, p))
  {
    if s.load1 > 0.0 && s.cores > 0 {
      var limit := if p.loadPerCoreCritical <= 0.0 then 4.0 else p.loadPerCoreCritical;
      QuotientMonotone(s.load1, t.load1, s.cores as real);
      QuotientMonotone(s.load1 / s.cores as real, t.load1 / s.cores as real, limit);
    }
  }

  lemma CostBinds(s: Snapshot, t: Snapshot)
    requires Heavier(s, t)
    ensures Binds(CostHeadroom(s), CostHeadroom(t))
  {
    FractionBinds(s.projectedUSD, t.projectedUSD, s.budgetUSD);
    FractionBinds(s.spentUSD, t.spentUSD, s.ceilingUSD);
  }

  lemma HeadroomPressureMonotone(p: Policy, g: real, h: real)
    requires Binds(g, h)
    ensures Level(HeadroomPressure(p, g)) <= Level(HeadroomPressure(p, h))
  {
  }

  /** The five dimensions folded in the order the assessment reads them. */
  function TightestOf(cost: real, token: real, seat: real, plan: real, memory: real): real {
    Tighter(Tighter(Tighter(Tighter(Tighter(UNKNOWN, cost), token), seat), plan), memory)
  }

  lemma TightestBinds(s: Snapshot, t: Snapshot, p: Policy)
    requires Heavier(s, t) && InRange(p) && Reads(s)
    ensures Binds(TightestOf(CostHeadroom(s), TokenHeadroom(s), SeatHeadroom(s, p), PlanHeadroom(s), MemoryHeadroom(s, p)),
                  TightestOf(CostHeadroom(t), TokenHeadroom(t), SeatHeadroom(t, p), PlanHeadroom(t), MemoryHeadroom(t, p)))
  {
    CostBinds(s, t);
    FractionBinds(s.tokensUsed as real, t.tokensUsed as real, s.tokensBudget as real);
    SeatBinds(s, t, p);
    MemoryBinds(s, t, p);
  }

  /** Raising any usage never lowers the pressure. */
  lemma AssessIsMonotone(s: Snapshot, t: Snapshot, p: Policy)
    requires Heavier(s, t) && InRange(p) && Reads(s)
    ensures Level(Assess(s, p).pressure) <= Level(Assess(t, p).pressure)
  {
    TightestBinds(s, t, p);
    HeadroomPressureMonotone(p,
      TightestOf(CostHeadroom(s), TokenHeadroom(s), SeatHeadroom(s, p), PlanHeadroom(s), MemoryHeadroom(s, p)),
      TightestOf(CostHeadroom(t), TokenHeadroom(t), SeatHeadroom(t, p), PlanHeadroom(t), MemoryHeadroom(t, p)));
  }

  // ---------------------------------------------------------------- one request

  function Permits(d: Decision): nat {
    match d.verdict case Admit => 2 case Degrade => 1 case Defer => 0 case Cancel => 0
  }

  lemma TokensMonotone(s: Snapshot, t: Snapshot, p: Policy)
    requires s.tokensBudget == t.tokensBudget && s.tokensUsed <= t.tokensUsed
    ensures TokenAllowance(s, p) < 0 <==> TokenAllowance(t, p) < 0
    ensures TokenAllowance(t, p) <= TokenAllowance(s, p)
  {
    hide OwnerTokens;
  }

  lemma SlotsMonotone(s: Snapshot, t: Snapshot, p: Policy)
    requires Heavier(s, t)
    ensures var x, y := InitialSlots(s, p), InitialSlots(t, p);
      && x.background <= y.background && (x.tokensLeft < 0 <==> y.tokensLeft < 0) && y.tokensLeft <= x.tokensLeft
      && forall c :: Background(c) ==> InFlight(x, c) <= InFlight(y, c)
  {
    hide TotalOf, TokenAllowance, RunningIn, RunningTotal;
    TokensMonotone(s, t, p);
    SlotsInUse(s.running);
    SlotsInUse(t.running);
  }

  lemma DecideMonotone(r: Request, s: Snapshot, t: Snapshot, p: Policy, a: Assessment, b: Assessment, x: Slots, y: Slots)
    requires (s.ownerActive ==> t.ownerActive) && (s.spawnHalted ==> t.spawnHalted)
    requires Level(a.pressure) <= Level(b.pressure) && Binds(a.loadAverage, b.loadAverage)
    requires x.background <= y.background && (x.tokensLeft < 0 <==> y.tokensLeft < 0) && y.tokensLeft <= x.tokensLeft
    requires forall c :: Background(c) ==> InFlight(x, c) <= InFlight(y, c)
    ensures Permits(Decide(r, t, p, b, y).0) <= Permits(Decide(r, s, p, a, x).0)
  {
    assert Background(r.class_) ==> InFlight(x, r.class_) <= InFlight(y, r.class_);
    assert Background(r.class_) && Refusal(r, s, p, a, x).Some? ==> Refusal(r, t, p, b, y).Some?;
  }

  /** Raising any usage never makes the verdict on a request more permissive. */
  lemma AdmissionIsMonotone(r: Request, s: Snapshot, t: Snapshot, p: Policy)
    requires Heavier(s, t) && InRange(p) && Reads(s)
    ensures Permits(Admitting(r, t, p)) <= Permits(Admitting(r, s, p))
  {
    AssessIsMonotone(s, t, p);
    LoadAverageBinds(s, t, p);
    SlotsMonotone(s, t, p);
    AdmittingIsDeciding(r, s, p);
    AdmittingIsDeciding(r, t, p);
    DecideMonotone(r, s, t, p, Assess(s, p), Assess(t, p), InitialSlots(s, p), InitialSlots(t, p));
  }
}
