/**
 What an admission pass reasons over: the classes of work, the capacity snapshot, the policy, and the
 assessment that folds every known headroom into one pressure. Fractions are real numbers.
 */
module Capacity {
  import opened Options

  // ---------------------------------------------------------------- classes of work

  datatype Class =
    | OwnerTurn | BuildMission | ControlRepair | StaffOps | Audit | Coach | Research | Experimental

  function Rank(c: Class): (r: nat)
    ensures r < 8
  {
    match c
    case OwnerTurn => 0
    case BuildMission => 1
    case ControlRepair => 2
    case StaffOps => 3
    case Audit => 4
    case Coach => 5
    case Research => 6
    case Experimental => 7
  }

  predicate Background(c: Class) {
    c != OwnerTurn && c != BuildMission
  }

  // ---------------------------------------------------------------- snapshot and policy

  /** The kernel's verdict; `Easy` is any verdict that is neither warn nor critical. */
  datatype MemPressure = Unread | Easy | Warned | Severe

  datatype Alert = NoAlert | WarnAlert | ThrottleAlert | StopAlert

  datatype Snapshot = Snapshot(
    billable: bool, spentUSD: real, projectedUSD: real, budgetUSD: real, ceilingUSD: real,
    tokensUsed: int, tokensBudget: int,
    activeSessions: int, maxSessions: int,
    providerLoad: map<string, int>, softCaps: map<string, int>,
    running: map<Class, int>, ownerActive: bool,
    planRemaining: Option<real>,
    load1: real, cores: int,
    swapUsed: int, swapTotal: int,
    memFree: int, memPressure: MemPressure,
    spawnHalted: bool, alert: Alert)

  datatype Policy = Policy(
    disabled: bool, ownerReserve: real, degrade: real,
    maxBackground: int, maxPerClass: map<Class, int>,
    loadPerCoreCritical: real, swapCritical: real, memFreeCritical: real, memoryGateOff: bool,
    providerCapFallback: int, loadBearing: set<Class>, ownerBusyDefers: bool)

  const DEFAULT_POLICY := Policy(false, 0.2, 0.4, 3, map[], 4.0, 0.9, 20.0, false, 12, {ControlRepair}, true)

  /** Repairs fractions that would switch the policy off. */
  function Repaired(p: Policy): Policy {
    var reserve := if p.ownerReserve < 0.0 || p.ownerReserve > 1.0 then DEFAULT_POLICY.ownerReserve else p.ownerReserve;
    var degrade := if p.degrade < 0.0 || p.degrade > 1.0 then DEFAULT_POLICY.degrade else p.degrade;
    p.(ownerReserve := reserve,
       degrade := if degrade < reserve then reserve else degrade,
       maxBackground := if p.maxBackground < 0 then DEFAULT_POLICY.maxBackground else p.maxBackground)
  }

  /** What every policy that was loaded satisfies. */
  predicate InRange(p: Policy) {
    0.0 <= p.ownerReserve <= p.degrade <= 1.0 && p.maxBackground >= 0
  }

  /** Loading repairs a fraction that is no fraction, a degrade line below the reserve and a negative bound, and
      changes nothing else; what is loaded is in range. */
  lemma LoadedPoliciesAreInRange(p: Policy)
    ensures InRange(Repaired(p)) && InRange(DEFAULT_POLICY)
    ensures InRange(p) ==> Repaired(p) == p
    ensures var q := Repaired(p);
      && q.ownerReserve == (if 0.0 <= p.ownerReserve <= 1.0 then p.ownerReserve else 0.2)
      && (0.0 <= p.degrade <= 1.0 ==> q.degrade == if p.degrade < q.ownerReserve then q.ownerReserve else p.degrade)
      && (!(0.0 <= p.degrade <= 1.0) ==> q.degrade == if 0.4 < q.ownerReserve then q.ownerReserve else 0.4)
      && q.maxBackground == (if p.maxBackground < 0 then 3 else p.maxBackground)
      && q == p.(ownerReserve := q.ownerReserve, degrade := q.degrade, maxBackground := q.maxBackground)
  {
  }

  function Positive(m: map<Class, int>, c: Class): nat {
    if c in m && m[c] > 0 then m[c] else 0
  }

  function LoadOf(m: map<string, int>, name: string): int {
    if name in m then m[name] else 0
  }

  // ---------------------------------------------------------------- headrooms

  /** A dimension that carries no signal. */
  const UNKNOWN := -1.0

  function Clamp(x: real): real {
    if x < 0.0 then 0.0 else if x > 1.0 then 1.0 else x
  }

  function Fraction(used: real, limit: real): real {
    if limit <= 0.0 then UNKNOWN else Clamp(1.0 - used / limit)
  }

  /** The tighter of two headrooms, where an unknown one does not bind. */
  function Tighter(a: real, b: real): real {
    if b == UNKNOWN then a else if a == UNKNOWN || b < a then b else a
  }

  function CostHeadroom(s: Snapshot): real {
    if !s.billable then UNKNOWN
    else Tighter(Tighter(UNKNOWN, Fraction(s.projectedUSD, s.budgetUSD)), Fraction(s.spentUSD, s.ceilingUSD))
  }

  function TokenHeadroom(s: Snapshot): real {
    Fraction(s.tokensUsed as real, s.tokensBudget as real)
  }

  function SessionHeadroom(s: Snapshot): real {
    Fraction(s.activeSessions as real, s.maxSessions as real)
  }

  function ProviderCap(p: Policy, cap: int): int {
    if cap > 0 then cap else if p.providerCapFallback > 0 then p.providerCapFallback else 12
  }

  /** An assumed cap may throttle the fleet, never halt it. */
  function InferredFloor(p: Policy, h: real): real {
    if h == UNKNOWN then h
    else
      var half := p.ownerReserve / 2.0;
      var floor := if half <= 0.0 || half >= p.ownerReserve then 0.1 else half;
      if h < floor then floor else h
  }

  function ProviderHeadroom(s: Snapshot, p: Policy, name: string): real
    requires name in s.softCaps
  {
    var cap := s.softCaps[name];
    var h := Fraction(LoadOf(s.providerLoad, name) as real, ProviderCap(p, cap) as real);
    if cap <= 0 then InferredFloor(p, h) else h
  }

  /** The tightest of the session census and the caps of `names`. */
  ghost function TightestSeat(s: Snapshot, p: Policy, names: set<string>): (h: real)
    requires names <= s.softCaps.Keys
    ensures h == SessionHeadroom(s) || exists n :: n in names && h == ProviderHeadroom(s, p, n)
    ensures SessionHeadroom(s) != UNKNOWN ==> h <= SessionHeadroom(s)
    ensures forall n :: n in names ==> 0.0 <= h <= ProviderHeadroom(s, p, n)
    ensures h == UNKNOWN || 0.0 <= h
    decreases |names|
  {
    if names == {} then SessionHeadroom(s)
    else
      var n :| n in names;
      Tighter(TightestSeat(s, p, names - {n}), ProviderHeadroom(s, p, n))
  }

  ghost function SeatHeadroom(s: Snapshot, p: Policy): real {
    TightestSeat(s, p, s.softCaps.Keys)
  }

  function MemoryLimit(p: Policy): real {
    if p.memFreeCritical <= 0.0 then 20.0 else p.memFreeCritical
  }

  /** Free memory above the critical level. At a level of 100 the quotient has no finite value: a reading
      below 100 is then out of memory, and a reading of 100 carries no signal. */
  function FreeFraction(free: int, limit: real): real {
    if limit == 100.0 then (if free < 100 then 0.0 else if free == 100 then UNKNOWN else 1.0)
    else Clamp((free as real - limit) / (100.0 - limit))
  }

  function SwapHeadroom(s: Snapshot, p: Policy): real {
    if s.swapTotal <= 0 then UNKNOWN
    else
      var limit := if p.swapCritical <= 0.0 then 0.9 else p.swapCritical;
      Clamp((limit - s.swapUsed as real / s.swapTotal as real) / limit)
  }

  function MemoryHeadroom(s: Snapshot, p: Policy): real {
    if p.memoryGateOff then UNKNOWN
    else
      match s.memPressure
      case Unread => SwapHeadroom(s, p)
      case Easy => FreeFraction(s.memFree, MemoryLimit(p))
      case Warned =>
        var h := FreeFraction(s.memFree, MemoryLimit(p));
        if h == UNKNOWN || h < p.ownerReserve then h else p.ownerReserve
      case Severe => 0.0
  }

  function LoadAverageHeadroom(s: Snapshot, p: Policy): real {
    if s.load1 <= 0.0 || s.cores <= 0 then UNKNOWN
    else
      var limit := if p.loadPerCoreCritical <= 0.0 then 4.0 else p.loadPerCoreCritical;
      Clamp(1.0 - s.load1 / s.cores as real / limit)
  }

  function PlanHeadroom(s: Snapshot): real {
    if s.planRemaining.None? then UNKNOWN else Clamp(s.planRemaining.value)
  }

  // ---------------------------------------------------------------- the assessment

  datatype Pressure = Normal | Elevated | Tight | Critical

  function Level(p: Pressure): nat {
    match p case Normal => 0 case Elevated => 1 case Tight => 2 case Critical => 3
  }

  datatype Assessment = Assessment(
    pressure: Pressure, headroom: real,
    cost: real, token: real, seat: real, memory: real, loadAverage: real, plan: real)

  function AlertPressure(a: Alert): Pressure {
    match a case NoAlert => Normal case WarnAlert => Elevated case ThrottleAlert => Tight case StopAlert => Critical
  }

  function Worse(a: Pressure, b: Pressure): Pressure {
    if Level(b) > Level(a) then b else a
  }

  /** The pressure that the tightest known headroom implies; `UNKNOWN` implies none. */
  function HeadroomPressure(p: Policy, tightest: real): Pressure {
    if tightest == UNKNOWN then Normal
    else if tightest <= 0.0 then Critical
    else if tightest < p.ownerReserve then Tight
    else if tightest < p.degrade then Elevated
    else Normal
  }

  function AssessmentOf(s: Snapshot, p: Policy, seat: real): Assessment {
    var cost, token, plan, memory := CostHeadroom(s), TokenHeadroom(s), PlanHeadroom(s), MemoryHeadroom(s, p);
    var tightest := Tighter(Tighter(Tighter(Tighter(Tighter(UNKNOWN, cost), token), seat), plan), memory);
    var base := if s.spawnHalted then Critical else HeadroomPressure(p, tightest);
    Assessment(Worse(base, AlertPressure(s.alert)), if tightest == UNKNOWN then 1.0 else tightest,
               cost, token, seat, memory, LoadAverageHeadroom(s, p), plan)
  }

  ghost function Assess(s: Snapshot, p: Policy): Assessment {
    AssessmentOf(s, p, SeatHeadroom(s, p))
  }

  /** One headroom alone calls for at least a pressure. */
  predicate CallsFor(h: real, p: Policy, level: Pressure) {
    h != UNKNOWN
    && (h <= 0.0 || (Level(level) <= Level(Tight) && h < p.ownerReserve) || (Level(level) <= Level(Elevated) && h < p.degrade))
  }

  lemma TighterCallsFor(a: real, b: real, p: Policy, level: Pressure)
    ensures CallsFor(Tighter(a, b), p, level) <==> CallsFor(a, p, level) || CallsFor(b, p, level)
  {
  }

  /** The pressure is at least a level exactly when the clamp has halted spawning, the alert is at least that
      level, or one of the five dimensions alone calls for it; load average never does. */
  lemma PressureExactly(s: Snapshot, p: Policy, level: Pressure)
    requires level != Normal
    ensures Level(Assess(s, p).pressure) >= Level(level)
      <==> || s.spawnHalted || Level(AlertPressure(s.alert)) >= Level(level)
           || CallsFor(CostHeadroom(s), p, level) || CallsFor(TokenHeadroom(s), p, level)
           || CallsFor(SeatHeadroom(s, p), p, level) || CallsFor(PlanHeadroom(s), p, level)
           || CallsFor(MemoryHeadroom(s, p), p, level)
  {
    hide CostHeadroom, TokenHeadroom, SeatHeadroom, PlanHeadroom, MemoryHeadroom, LoadAverageHeadroom, Tighter;
    var cost, token, seat, plan := CostHeadroom(s), TokenHeadroom(s), SeatHeadroom(s, p), PlanHeadroom(s);
    var a := Tighter(UNKNOWN, cost);
    var b := Tighter(a, token);
    var c := Tighter(b, seat);
    TighterCallsFor(UNKNOWN, cost, p, level);
    TighterCallsFor(a, token, p, level);
    TighterCallsFor(b, seat, p, level);
    TighterCallsFor(c, plan, p, level);
    TighterCallsFor(Tighter(c, plan), MemoryHeadroom(s, p), p, level);
    TightestCallsFor(Tighter(Tighter(c, plan), MemoryHeadroom(s, p)), p, level);
  }

  lemma TightestCallsFor(tightest: real, p: Policy, level: Pressure)
    requires level != Normal
    ensures Level(HeadroomPressure(p, tightest)) >= Level(level) <==> CallsFor(tightest, p, level)
  {
  }

  /** Folds every provider cap into the session census, in whatever order the map yields them. */
  method ComputeSeatHeadroom(s: Snapshot, p: Policy) returns (h: real)
    ensures h == SeatHeadroom(s, p)
  {
    h := SessionHeadroom(s);
    var todo := s.softCaps.Keys;
    while todo != {}
      invariant todo <= s.softCaps.Keys
      invariant h == TightestSeat(s, p, s.softCaps.Keys - todo)
      decreases todo
    {
      var name :| name in todo;
      var cap := s.softCaps[name];
      var x := Fraction(LoadOf(s.providerLoad, name) as real, ProviderCap(p, cap) as real);
      if cap <= 0 {
        x := InferredFloor(p, x);
      }
      TightestExtends(s, p, s.softCaps.Keys - todo, name);
      assert s.softCaps.Keys - todo + {name} == s.softCaps.Keys - (todo - {name});
      if x != UNKNOWN && (h == UNKNOWN || x < h) {
        h := x;
      }
      todo := todo - {name};
    }
  }

  lemma TightestIsUnique(s: Snapshot, p: Policy, names: set<string>, h: real)
    requires names <= s.softCaps.Keys
    requires h == SessionHeadroom(s) || exists n :: n in names && h == ProviderHeadroom(s, p, n)
    requires SessionHeadroom(s) != UNKNOWN ==> h <= SessionHeadroom(s)
    requires forall n :: n in names ==> 0.0 <= h <= ProviderHeadroom(s, p, n)
    ensures h == TightestSeat(s, p, names)
  {
  }

  lemma TightestExtends(s: Snapshot, p: Policy, names: set<string>, n: string)
    requires names <= s.softCaps.Keys && n in s.softCaps && n !in names
    ensures TightestSeat(s, p, names + {n}) == Tighter(TightestSeat(s, p, names), ProviderHeadroom(s, p, n))
  {
    var h := Tighter(TightestSeat(s, p, names), ProviderHeadroom(s, p, n));
    assert 0.0 <= ProviderHeadroom(s, p, n);
    assert h == ProviderHeadroom(s, p, n) ==> exists m :: m in names + {n} && h == ProviderHeadroom(s, p, m);
    TightestIsUnique(s, p, names + {n}, h);
  }

  /** Computes the capacity picture of a snapshot. */
  method ComputeAssessment(s: Snapshot, p: Policy) returns (a: Assessment)
    ensures a == Assess(s, p)
  {
    var cost := UNKNOWN;
    if s.billable {
      var readings := [Fraction(s.projectedUSD, s.budgetUSD), Fraction(s.spentUSD, s.ceilingUSD)];
      for k := 0 to 2
        invariant cost == if k == 0 then UNKNOWN else if k == 1 then Tighter(UNKNOWN, readings[0])
                          else Tighter(Tighter(UNKNOWN, readings[0]), readings[1])
      {
        if readings[k] != UNKNOWN && (cost == UNKNOWN || readings[k] < cost) {
          cost := readings[k];
        }
      }
    }
    var token := TokenHeadroom(s);
    var seat := ComputeSeatHeadroom(s, p);
    var memory := MemoryHeadroom(s, p);
    var plan := PlanHeadroom(s);
    var headroom, known := 1.0, false;
    var dims := [cost, token, seat, plan, memory];
    ghost var folded := [UNKNOWN, Tighter(UNKNOWN, cost), Tighter(Tighter(UNKNOWN, cost), token),
      Tighter(Tighter(Tighter(UNKNOWN, cost), token), seat),
      Tighter(Tighter(Tighter(Tighter(UNKNOWN, cost), token), seat), plan),
      Tighter(Tighter(Tighter(Tighter(Tighter(UNKNOWN, cost), token), seat), plan), memory)];
    for k := 0 to 5
      invariant known <==> folded[k] != UNKNOWN
      invariant headroom == if folded[k] == UNKNOWN then 1.0 else folded[k]
    {
      if dims[k] != UNKNOWN && (!known || dims[k] < headroom) {
        headroom, known := dims[k], true;
      }
    }
    var pressure := Normal;
    if s.spawnHalted {
      pressure := Critical;
    } else if known && headroom <= 0.0 {
      pressure := Critical;
    } else if known && headroom < p.ownerReserve {
      pressure := Tight;
    } else if known && headroom < p.degrade {
      pressure := Elevated;
    }
    if Level(AlertPressure(s.alert)) > Level(pressure) {
      pressure := AlertPressure(s.alert);
    }
    a := Assessment(pressure, headroom, cost, token, seat, memory, LoadAverageHeadroom(s, p), plan);
  }
}
