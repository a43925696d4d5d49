/**
 What each pressure says about the raw readings of a snapshot: spent money and tokens, seats, the plan window,
 memory and swap, and the load average, against the limits they are measured by.
 */
module Readings {
  import opened Options
  import opened Capacity

  /** What is left of a whole is gone, or inside the owner reserve or below the degrade line where the level
      asks for no more than that. */
  predicate Lacking(left: real, whole: real, p: Policy, level: Pressure) {
    var room := if left > whole then whole else left;
    || left <= 0.0
    || (level in {Elevated, Tight} && room < p.ownerReserve * whole)
    || (level == Elevated && room < p.degrade * whole)
  }

  predicate CostShort(s: Snapshot, p: Policy, level: Pressure) {
    && s.billable
    && (|| (s.budgetUSD > 0.0 && Lacking(s.budgetUSD - s.projectedUSD, s.budgetUSD, p, level))
        || (s.ceilingUSD > 0.0 && Lacking(s.ceilingUSD - s.spentUSD, s.ceilingUSD, p, level)))
  }

  predicate CountShort(used: int, limit: int, p: Policy, level: Pressure) {
    limit > 0 && Lacking((limit - used) as real, limit as real, p, level)
  }

  /** An assumed cap calls for a pressure short of critical, and only while the floor under it lies below the
      line. */
  predicate AssumedShort(used: int, cap: int, p: Policy, level: Pressure) {
    var floor := if p.ownerReserve > 0.0 then p.ownerReserve / 2.0 else 0.1;
    var left, whole := (cap - used) as real, cap as real;
    var room := if left > whole then whole else left;
    || (level in {Elevated, Tight} && p.ownerReserve > 0.0 && (left <= 0.0 || room < p.ownerReserve * whole))
    || (level == Elevated && floor < p.degrade && (left <= 0.0 || room < p.degrade * whole))
  }

  predicate ProviderShort(s: Snapshot, p: Policy, n: string, level: Pressure)
    requires n in s.softCaps
  {
    var used := if n in s.providerLoad then s.providerLoad[n] else 0;
    if s.softCaps[n] > 0 then CountShort(used, s.softCaps[n], p, level)
    else AssumedShort(used, if p.providerCapFallback > 0 then p.providerCapFallback else 12, p, level)
  }

  predicate SeatShort(s: Snapshot, p: Policy, level: Pressure) {
    CountShort(s.activeSessions, s.maxSessions, p, level) || exists n :: n in s.softCaps && ProviderShort(s, p, n, level)
  }

  predicate PlanShort(s: Snapshot, p: Policy, level: Pressure) {
    s.planRemaining.Some? && Lacking(s.planRemaining.value, 1.0, p, level)
  }

  /** Free memory above the critical level; a level of 100 leaves nothing to measure by. */
  predicate FreeShort(free: int, limit: real, p: Policy, level: Pressure) {
    if limit < 100.0 then Lacking(free as real - limit, 100.0 - limit, p, level)
    else if limit > 100.0 then Lacking(limit - free as real, limit - 100.0, p, level)
    else free < 100 || (free > 100 && Lacking(1.0, 1.0, p, level))
  }

  predicate SwapShort(s: Snapshot, p: Policy, level: Pressure) {
    var limit := if p.swapCritical <= 0.0 then 0.9 else p.swapCritical;
    s.swapTotal > 0
    && Lacking(limit * s.swapTotal as real - s.swapUsed as real, limit * s.swapTotal as real, p, level)
  }

  /** A warning of the kernel counts as no more room than the owner reserve. */
  predicate MemoryShort(s: Snapshot, p: Policy, level: Pressure) {
    var limit := if p.memFreeCritical <= 0.0 then 20.0 else p.memFreeCritical;
    && !p.memoryGateOff
    && match s.memPressure
       case Unread => SwapShort(s, p, level)
       case Easy => FreeShort(s.memFree, limit, p, level)
       case Warned =>
         && !(limit == 100.0 && s.memFree == 100) && p.ownerReserve != -1.0
         && (|| FreeShort(s.memFree, limit, p, level) || p.ownerReserve <= 0.0
             || (level == Elevated && p.ownerReserve < p.degrade))
       case Severe => true
  }

  /** The levels that are at least one other than normal. */
  function AtLeast(level: Pressure): set<Pressure>
    requires level != Normal
  {
    match level case Elevated => {Elevated, Tight, Critical} case Tight => {Tight, Critical} case Critical => {Critical}
  }

  predicate AlertedTo(a: Alert, level: Pressure)
    requires level != Normal
  {
    match level
    case Elevated => a != NoAlert
    case Tight => a == ThrottleAlert || a == StopAlert
    case Critical => a == StopAlert
  }

  // ---------------------------------------------------------------- one quotient

  lemma Quotient(left: real, whole: real, t: real)
    requires whole > 0.0
    ensures left / whole <= 0.0 <==> left <= 0.0
    ensures left / whole > 1.0 <==> left > whole
    ensures left / whole < t <==> left < t * whole
  {
    Divided(left, whole);
    Multiplied(left / whole, left, whole, t);
  }

  lemma Divided(left: real, whole: real)
    requires whole > 0.0
    ensures left / whole * whole == left
  {
  }

  lemma Multiplied(q: real, left: real, whole: real, t: real)
    requires whole > 0.0 && q * whole == left
    ensures q <= 0.0 <==> left <= 0.0
    ensures q > 1.0 <==> left > whole
    ensures q < t <==> left < t * whole
  {
    Scaled(0.0, q, whole);
    Scaled(1.0, q, whole);
    Scaled(q, t, whole);
    assert 0.0 * whole == 0.0 && 1.0 * whole == whole;
  }

  lemma Scaled(x: real, y: real, whole: real)
    requires whole > 0.0
    ensures x < y <==> x * whole < y * whole
  {
    Grows(x, y, whole);
    Grows(y, x, whole);
  }

  lemma Grows(x: real, y: real, whole: real)
    requires whole > 0.0
    ensures x < y ==> x * whole < y * whole
  {
    var gap := y - x;
    assert gap > 0.0 ==> gap * whole > 0.0;
    assert gap * whole == y * whole - x * whole;
  }

  lemma OneLess(used: real, limit: real)
    requires limit > 0.0
    ensures 1.0 - used / limit == (limit - used) / limit
  {
    var q, r := used / limit, (limit - used) / limit;
    assert q * limit == used && r * limit == limit - used;
    assert (1.0 - q) * limit == limit - q * limit;
    Scaled(1.0 - q, r, limit);
    Scaled(r, 1.0 - q, limit);
  }

  /** A clamped quotient calls for a pressure exactly when what it measures is lacking. */
  lemma QuotientCalls(h: real, left: real, whole: real, p: Policy, level: Pressure)
    requires whole > 0.0 && h == Clamp(left / whole) && level != Normal
    ensures CallsFor(h, p, level) <==> Lacking(left, whole, p, level)
  {
    Quotient(left, whole, p.ownerReserve);
    Quotient(left, whole, p.degrade);
    Scaled(1.0, p.ownerReserve, whole);
    Scaled(1.0, p.degrade, whole);
  }

  lemma FractionCalls(used: real, limit: real, p: Policy, level: Pressure)
    requires level != Normal
    ensures CallsFor(Fraction(used, limit), p, level) <==> limit > 0.0 && Lacking(limit - used, limit, p, level)
  {
    hide Lacking, CallsFor;
    if limit > 0.0 {
      OneLess(used, limit);
      QuotientCalls(Fraction(used, limit), limit - used, limit, p, level);
    } else {
      UnknownCallsNothing(p, level);
    }
  }

  lemma UnknownCallsNothing(p: Policy, level: Pressure)
    ensures !CallsFor(UNKNOWN, p, level)
  {
  }

  lemma CountCalls(used: int, limit: int, p: Policy, level: Pressure)
    requires level != Normal
    ensures CallsFor(Fraction(used as real, limit as real), p, level) <==> CountShort(used, limit, p, level)
  {
    hide Lacking, CallsFor;
    FractionCalls(used as real, limit as real, p, level);
  }

  // ---------------------------------------------------------------- the dimensions

  lemma CostCalls(s: Snapshot, p: Policy, level: Pressure)
    requires level != Normal
    ensures CallsFor(CostHeadroom(s), p, level) <==> CostShort(s, p, level)
  {
    hide Lacking, CallsFor, Tighter, Fraction;
    UnknownCallsNothing(p, level);
    FractionCalls(s.projectedUSD, s.budgetUSD, p, level);
    FractionCalls(s.spentUSD, s.ceilingUSD, p, level);
    TighterCallsFor(UNKNOWN, Fraction(s.projectedUSD, s.budgetUSD), p, level);
    TighterCallsFor(Tighter(UNKNOWN, Fraction(s.projectedUSD, s.budgetUSD)), Fraction(s.spentUSD, s.ceilingUSD), p, level);
  }

  lemma AssumedCalls(used: int, cap: int, p: Policy, level: Pressure)
    requires level != Normal && cap > 0
    ensures CallsFor(InferredFloor(p, Fraction(used as real, cap as real)), p, level) <==> AssumedShort(used, cap, p, level)
  {
    hide Clamp;
    var left, whole := (cap - used) as real, cap as real;
    OneLess(used as real, whole);
    assert left == whole - used as real;
    var h := Fraction(used as real, whole);
    assert h == Clamp(left / whole);
    QuotientBelow(h, left, whole, p.ownerReserve);
    QuotientBelow(h, left, whole, p.degrade);
  }

  /** A clamped quotient lies below a line above zero exactly when what it measures does. */
  lemma QuotientBelow(h: real, left: real, whole: real, t: real)
    requires whole > 0.0 && h == Clamp(left / whole)
    ensures 0.0 <= h
    ensures t > 0.0 ==> (h < t <==> left <= 0.0 || (if left > whole then whole else left) < t * whole)
  {
    Quotient(left, whole, t);
    Scaled(1.0, t, whole);
  }

  lemma ProviderCalls(s: Snapshot, p: Policy, n: string, level: Pressure)
    requires n in s.softCaps && level != Normal
    ensures CallsFor(ProviderHeadroom(s, p, n), p, level) <==> ProviderShort(s, p, n, level)
  {
    hide CallsFor, InferredFloor, Fraction, AssumedShort, CountShort;
    var used := LoadOf(s.providerLoad, n);
    if s.softCaps[n] > 0 {
      CountCalls(used, s.softCaps[n], p, level);
    } else {
      AssumedCalls(used, ProviderCap(p, s.softCaps[n]), p, level);
    }
  }

  lemma TighterCallsMore(g: real, h: real, p: Policy, level: Pressure)
    requires 0.0 <= h <= g && CallsFor(g, p, level)
    ensures CallsFor(h, p, level)
  {
  }

  lemma SeatCalls(s: Snapshot, p: Policy, level: Pressure)
    requires level != Normal
    ensures CallsFor(SeatHeadroom(s, p), p, level) <==> SeatShort(s, p, level)
  {
    hide CallsFor, TightestSeat, ProviderHeadroom, ProviderShort, CountShort, Fraction;
    var h, names := SeatHeadroom(s, p), s.softCaps.Keys;
    CountCalls(s.activeSessions, s.maxSessions, p, level);
    forall n | n in names ensures CallsFor(ProviderHeadroom(s, p, n), p, level) <==> ProviderShort(s, p, n, level) {
      ProviderCalls(s, p, n, level);
    }
    if n :| n in names && ProviderShort(s, p, n, level) {
      TighterCallsMore(ProviderHeadroom(s, p, n), h, p, level);
    }
    if CountShort(s.activeSessions, s.maxSessions, p, level) {
      UnknownCallsNothing(p, level);
      TighterCallsMoreThanCensus(s, p, level);
    }
  }

  lemma TighterCallsMoreThanCensus(s: Snapshot, p: Policy, level: Pressure)
    requires CallsFor(SessionHeadroom(s), p, level)
    ensures CallsFor(SeatHeadroom(s, p), p, level)
  {
    hide TightestSeat;
    var h := SeatHeadroom(s, p);
    if h != SessionHeadroom(s) {
      TighterCallsMore(SessionHeadroom(s), h, p, level);
    }
  }

  lemma PlanCalls(s: Snapshot, p: Policy, level: Pressure)
    requires level != Normal
    ensures CallsFor(PlanHeadroom(s), p, level) <==> PlanShort(s, p, level)
  {
    if s.planRemaining.Some? {
      assert s.planRemaining.value / 1.0 == s.planRemaining.value;
      QuotientCalls(PlanHeadroom(s), s.planRemaining.value, 1.0, p, level);
    }
  }

  lemma FreeCalls(free: int, limit: real, p: Policy, level: Pressure)
    requires level != Normal
    ensures CallsFor(FreeFraction(free, limit), p, level) <==> FreeShort(free, limit, p, level)
  {
    hide Lacking, CallsFor;
    var left, whole := free as real - limit, 100.0 - limit;
    if limit < 100.0 {
      QuotientCalls(FreeFraction(free, limit), left, whole, p, level);
    } else if limit > 100.0 {
      assert left / whole == (-left) / (-whole);
      QuotientCalls(FreeFraction(free, limit), -left, -whole, p, level);
    } else {
      FullCalls(p, level);
    }
  }

  lemma FullCalls(p: Policy, level: Pressure)
    requires level != Normal
    ensures CallsFor(0.0, p, level) && !CallsFor(UNKNOWN, p, level)
    ensures CallsFor(1.0, p, level) <==> Lacking(1.0, 1.0, p, level)
  {
  }

  lemma SwapCalls(s: Snapshot, p: Policy, level: Pressure)
    requires level != Normal
    ensures CallsFor(SwapHeadroom(s, p), p, level) <==> SwapShort(s, p, level)
  {
    hide Lacking, CallsFor;
    UnknownCallsNothing(p, level);
    if s.swapTotal > 0 {
      var limit := if p.swapCritical <= 0.0 then 0.9 else p.swapCritical;
      var used, total := s.swapUsed as real, s.swapTotal as real;
      SharesOf(limit, used, total);
      QuotientCalls(SwapHeadroom(s, p), limit * total - used, limit * total, p, level);
    }
  }

  lemma SharesOf(limit: real, used: real, total: real)
    requires limit > 0.0 && total > 0.0
    ensures limit * total > 0.0
    ensures (limit - used / total) / limit == (limit * total - used) / (limit * total)
  {
    var whole := limit * total;
    Scaled(0.0, limit, total);
    var q := (limit - used / total) / limit;
    assert q * limit == limit - used / total;
    assert used / total * total == used;
    assert q * limit * total == limit * total - used;
    assert q * whole == q * limit * total;
  }

  lemma MemoryCalls(s: Snapshot, p: Policy, level: Pressure)
    requires level != Normal
    ensures CallsFor(MemoryHeadroom(s, p), p, level) <==> MemoryShort(s, p, level)
  {
    hide FreeShort, SwapShort, SwapHeadroom;
    SwapCalls(s, p, level);
    FreeCalls(s.memFree, MemoryLimit(p), p, level);
  }

  // ---------------------------------------------------------------- the pressure

  /** The pressure is at least a level exactly when the clamp has halted spawning, the alert is at least that
      level, or some reading alone is short by it: money (when billed), tokens, seats, the plan window or memory. */
  lemma PressureFromReadings(s: Snapshot, p: Policy, level: Pressure)
    requires level != Normal
    ensures Assess(s, p).pressure in AtLeast(level)
      <==> || s.spawnHalted || AlertedTo(s.alert, level)
           || CostShort(s, p, level) || CountShort(s.tokensUsed, s.tokensBudget, p, level)
           || SeatShort(s, p, level) || PlanShort(s, p, level) || MemoryShort(s, p, level)
  {
    hide Assess, CostShort, CountShort, SeatShort, PlanShort, MemoryShort, CallsFor;
    hide CostHeadroom, SeatHeadroom, PlanHeadroom, MemoryHeadroom, Fraction;
    PressureExactly(s, p, level);
    CostCalls(s, p, level);
    CountCalls(s.tokensUsed, s.tokensBudget, p, level);
    SeatCalls(s, p, level);
    PlanCalls(s, p, level);
    MemoryCalls(s, p, level);
  }

  /** A kernel warning alone halts the fleet exactly under a policy that reserves nothing. */
  lemma WarningHaltsExactly(s: Snapshot, p: Policy)
    requires InRange(p) && s.memPressure == Warned && !p.memoryGateOff && 0 <= s.memFree <= 100
    requires !FreeShort(s.memFree, MemoryLimit(p), p, Critical)
    ensures MemoryShort(s, p, Critical) <==> p.ownerReserve == 0.0 && !(p.memFreeCritical == 100.0 && s.memFree == 100)
  {
  }

  // ---------------------------------------------------------------- the load average

  /** The run queue leaves less than the owner reserve of what the cores can take. */
  predicate LoadHigh(s: Snapshot, p: Policy) {
    var limit := (if p.loadPerCoreCritical <= 0.0 then 4.0 else p.loadPerCoreCritical) * s.cores as real;
    && s.load1 > 0.0 && s.cores > 0
    && (s.load1 >= limit || limit - s.load1 < p.ownerReserve * limit)
  }

  lemma LoadHighExactly(s: Snapshot, p: Policy)
    ensures var h := LoadAverageHeadroom(s, p);
      h != UNKNOWN && (h <= 0.0 || h < p.ownerReserve) <==> LoadHigh(s, p)
  {
    if s.load1 > 0.0 && s.cores > 0 {
      var limit := if p.loadPerCoreCritical <= 0.0 then 4.0 else p.loadPerCoreCritical;
      var cores := s.cores as real;
      var left, whole := limit * cores - s.load1, limit * cores;
      SharesOf(limit, s.load1, cores);
      OneLess(s.load1 / cores, limit);
      assert LoadAverageHeadroom(s, p) == Clamp(left / whole);
      LoadLeft(left, whole, p.ownerReserve);
    }
  }

  lemma LoadLeft(left: real, whole: real, reserve: real)
    requires whole > 0.0 && left < whole
    ensures var h := Clamp(left / whole);
      h != UNKNOWN && (h <= 0.0 || h < reserve) <==> left <= 0.0 || left < reserve * whole
  {
    Quotient(left, whole, reserve);
  }

  // ---------------------------------------------------------------- the shipped policy

  /** Where the shipped policy draws its lines: a count at 60, 80 and 100 percent of its limit, free memory under 52
      and 36 and at 20 percent, swap at 54, 72 and 90 percent, an assumed cap at eight and ten agents and never
      critical, and the load average above 3.2 for each core. */
  lemma ShippedLines(s: Snapshot, used: int, limit: int)
    requires limit > 0
    ensures var p := DEFAULT_POLICY;
      && (CountShort(used, limit, p, Elevated) <==> 5 * used > 3 * limit)
      && (CountShort(used, limit, p, Tight) <==> 5 * used > 4 * limit)
      && (CountShort(used, limit, p, Critical) <==> used >= limit)
      && (AssumedShort(used, p.providerCapFallback, p, Elevated) <==> used >= 8)
      && (AssumedShort(used, p.providerCapFallback, p, Tight) <==> used >= 10)
      && !AssumedShort(used, p.providerCapFallback, p, Critical)
      && (LoadHigh(s, p) <==> s.cores > 0 && 10.0 * s.load1 > 32.0 * s.cores as real)
  {
  }

  lemma ShippedMemoryLines(s: Snapshot)
    ensures var p, total := DEFAULT_POLICY, s.swapTotal as real;
      && (s.memPressure == Easy ==>
            && (MemoryShort(s, p, Elevated) <==> s.memFree < 52) && (MemoryShort(s, p, Tight) <==> s.memFree < 36)
            && (MemoryShort(s, p, Critical) <==> s.memFree <= 20))
      && (s.memPressure == Unread && s.swapTotal > 0 ==>
            && (MemoryShort(s, p, Elevated) <==> 100.0 * s.swapUsed as real > 54.0 * total)
            && (MemoryShort(s, p, Tight) <==> 100.0 * s.swapUsed as real > 72.0 * total)
            && (MemoryShort(s, p, Critical) <==> 10.0 * s.swapUsed as real >= 9.0 * total))
  {
  }

  /** It is switched on, with three background cycles at most and no class bound of its own, lets repairs alone
      bear load, and makes ambient work wait for the owner. */
  lemma ShippedSwitches()
    ensures var p := DEFAULT_POLICY;
      && !p.disabled && !p.memoryGateOff && p.maxBackground == 3 && p.maxPerClass == map[] && p.ownerBusyDefers
      && forall c :: c in p.loadBearing <==> c == ControlRepair
  {
  }

  // ---------------------------------------------------------------- which dimension decides

  /** Memory is the tightest known dimension, or ties with it. */
  ghost predicate MemoryDecides(s: Snapshot, p: Policy) {
    && MemoryHeadroom(s, p) != UNKNOWN
    && forall h :: h in [CostHeadroom(s), TokenHeadroom(s), SeatHeadroom(s, p), PlanHeadroom(s)] && h != UNKNOWN ==>
         MemoryHeadroom(s, p) <= h
  }

  lemma MemoryDecidesExactly(s: Snapshot, p: Policy)
    ensures var a := Assess(s, p); a.memory != UNKNOWN && a.memory == a.headroom <==> MemoryDecides(s, p)
  {
    hide CostHeadroom, TokenHeadroom, SeatHeadroom, PlanHeadroom, MemoryHeadroom;
    var dims := [CostHeadroom(s), TokenHeadroom(s), SeatHeadroom(s, p), PlanHeadroom(s)];
    assert dims[0] in dims && dims[1] in dims && dims[2] in dims && dims[3] in dims;
  }
}
