/**
 The seat dimension that decided, new panes bound to a destination, and work that is stopped early:
 three readings of a snapshot that must agree with the assessment.
 */
module Seats {
  import opened Capacity
  import opened Admission
  import opened AdmissionLaws
  import opened Strings
  import opened Readings

  // ---------------------------------------------------------------- the dimension that bound

  /** The dimension behind a seat headroom; provider "" is the session census. */
  datatype SeatBinding = SeatBinding(provider: string, used: int, limit: int, inferred: bool, headroom: real)

  function SessionBinding(s: Snapshot): SeatBinding {
    SeatBinding("", s.activeSessions, s.maxSessions, false, SessionHeadroom(s))
  }

  function ProviderBinding(s: Snapshot, p: Policy, n: string): SeatBinding
    requires n in s.softCaps
  {
    SeatBinding(n, LoadOf(s.providerLoad, n), ProviderCap(p, s.softCaps[n]), s.softCaps[n] <= 0, ProviderHeadroom(s, p, n))
  }

  /** `b` names the tightest of the session census and `names`: the census when it ties, otherwise the
      alphabetically first provider that attains the minimum. */
  ghost predicate Names(s: Snapshot, p: Policy, names: set<string>, b: SeatBinding)
    requires names <= s.softCaps.Keys
  {
    var h := TightestSeat(s, p, names);
    if h == SessionHeadroom(s) then b == SessionBinding(s)
    else
      && b.provider in names && b == ProviderBinding(s, p, b.provider) && b.headroom == h
      && forall m :: m in names && ProviderHeadroom(s, p, m) == h ==> m == b.provider || Below(b.provider, m)
  }

  lemma Distinct(a: string, b: string)
    ensures Below(a, b) || a == b || Below(b, a)
    ensures !(Below(a, b) && Below(b, a)) && !Below(a, a)
  {
    BelowIsTotal(a, b);
    if Below(a, b) {
      BelowIsStrict(a, b);
    }
    if Below(a, a) {
      BelowIsStrict(a, a);
    }
  }

  /** At most one binding is named, so the order of the provider map cannot matter. */
  lemma NamedOnce(s: Snapshot, p: Policy, names: set<string>, b: SeatBinding, c: SeatBinding)
    requires names <= s.softCaps.Keys && Names(s, p, names, b) && Names(s, p, names, c)
    ensures b == c
  {
    Distinct(b.provider, c.provider);
  }

  lemma NamesExtends(s: Snapshot, p: Policy, names: set<string>, n: string, b: SeatBinding)
    requires names <= s.softCaps.Keys && n in s.softCaps && n !in names && Names(s, p, names, b)
    ensures var h := ProviderHeadroom(s, p, n);
      var take := b.headroom == UNKNOWN || h < b.headroom
                  || (h == b.headroom && b.provider != "" && Below(n, b.provider));
      Names(s, p, names + {n}, if take then ProviderBinding(s, p, n) else b)
  {
    TightestExtends(s, p, names, n);
    Distinct(n, b.provider);
    forall m | m in names && Below(n, b.provider) && Below(b.provider, m) ensures Below(n, m) {
      BelowIsTransitive(n, b.provider, m);
    }
    forall m | m in names + {n} ensures 0.0 <= ProviderHeadroom(s, p, m) {
    }
  }

  /** Names the tightest seat dimension, whatever order the provider map yields. */
  method SeatDimension(s: Snapshot, p: Policy) returns (b: SeatBinding)
    ensures Names(s, p, s.softCaps.Keys, b) && b.headroom == SeatHeadroom(s, p)
  {
    b := SessionBinding(s);
    var todo := s.softCaps.Keys;
    while todo != {}
      invariant todo <= s.softCaps.Keys
      invariant Names(s, p, s.softCaps.Keys - todo, b)
      decreases todo
    {
      var name :| name in todo;
      ghost var seen := s.softCaps.Keys - todo;
      NamesExtends(s, p, seen, name, b);
      assert seen + {name} == s.softCaps.Keys - (todo - {name});
      var cap := s.softCaps[name];
      var limit := ProviderCap(p, cap);
      var used := LoadOf(s.providerLoad, name);
      var h := Fraction(used as real, limit as real);
      if cap <= 0 {
        h := InferredFloor(p, h);
      }
      if h != UNKNOWN &&
         (b.headroom == UNKNOWN || h < b.headroom || (h == b.headroom && b.provider != "" && Below(name, b.provider))) {
        b := SeatBinding(name, used, limit, cap <= 0, h);
      }
      todo := todo - {name};
    }
  }

  predicate SessionFull(s: Snapshot) {
    s.maxSessions > 0 && s.activeSessions >= s.maxSessions
  }

  predicate AtPublishedCap(s: Snapshot, n: string) {
    n in s.softCaps && s.softCaps[n] > 0 && LoadOf(s.providerLoad, n) >= s.softCaps[n]
  }

  predicate Blocks(h: real) {
    h != UNKNOWN && h <= 0.0
  }

  lemma FractionIsZero(used: int, limit: int)
    ensures Blocks(Fraction(used as real, limit as real)) <==> limit > 0 && used >= limit
  {
    if limit > 0 {
      var u, l := used as real, limit as real;
      if used >= limit {
        assert u / l >= 1.0;
      } else {
        assert u / l < 1.0;
      }
    }
  }

  lemma ProviderBlocksExactly(s: Snapshot, p: Policy, n: string)
    requires n in s.softCaps
    ensures Blocks(ProviderHeadroom(s, p, n)) <==> AtPublishedCap(s, n)
  {
    FractionIsZero(LoadOf(s.providerLoad, n), ProviderCap(p, s.softCaps[n]));
  }

  /** Seats halt exactly when the census is full or a published cap is reached: an assumed cap alone
      never halts. */
  lemma SeatsHaltExactly(s: Snapshot, p: Policy)
    ensures Blocks(SeatHeadroom(s, p)) <==> SessionFull(s) || exists n :: AtPublishedCap(s, n)
  {
    var h := SeatHeadroom(s, p);
    FractionIsZero(s.activeSessions, s.maxSessions);
    forall n | n in s.softCaps ensures Blocks(ProviderHeadroom(s, p, n)) <==> AtPublishedCap(s, n) {
      ProviderBlocksExactly(s, p, n);
    }
    if Blocks(h) && !SessionFull(s) {
      var n :| n in s.softCaps && h == ProviderHeadroom(s, p, n);
      assert AtPublishedCap(s, n);
    }
  }

  // ---------------------------------------------------------------- new panes

  datatype SpawnKind = Worker | Owner | Repair

  function KindName(kind: SpawnKind): string {
    match kind case Worker => "worker" case Owner => "owner" case Repair => "control_repair"
  }

  /** The tighter of the session census and one destination's own cap. */
  function DestBinding(s: Snapshot, p: Policy, dest: string): SeatBinding {
    if dest == "" || dest !in s.softCaps then SessionBinding(s)
    else
      var session, own := SessionBinding(s), ProviderBinding(s, p, dest);
      if session.headroom != UNKNOWN && (own.headroom == UNKNOWN || session.headroom < own.headroom) then session
      else if own.headroom == UNKNOWN then session
      else own
  }

  predicate Published(s: Snapshot, n: string) {
    n in s.softCaps && s.softCaps[n] > 0
  }

  /** No destination publishes a cap, or one that does is under it. */
  ghost predicate SomeDestHasRoom(s: Snapshot) {
    (forall n :: !Published(s, n)) || exists n :: Published(s, n) && !AtPublishedCap(s, n)
  }

  ghost function SpawnDecision(kind: SpawnKind, dest: string, s: Snapshot, p: Policy): Decision {
    var a := Assess(s, p);
    match kind
    case Owner => Decision(OwnerTurn, KindName(kind), Admit, Full, OwnerPriority, a.pressure)
    case Repair => Decision(ControlRepair, KindName(kind), Admit, Full, OwnerPriority, a.pressure)
    case Worker =>
      var refused := Decision(BuildMission, KindName(kind), Defer, NoTier, MemoryGrind, a.pressure);
      if Blocks(a.memory) then refused
      else if dest != "" && Blocks(DestBinding(s, p, dest).headroom) then refused.(reason := SeatCount)
      else if dest == "" && (SessionFull(s) || !SomeDestHasRoom(s)) then refused.(reason := SeatCount)
      else if s.spawnHalted then refused.(reason := SpawnHalted)
      else Decision(BuildMission, KindName(kind), Admit, Full, HeadroomOK, a.pressure)
  }

  method AnyPublishedDestHasHeadroom(s: Snapshot) returns (ok: bool)
    ensures ok <==> SomeDestHasRoom(s)
  {
    var saw := false;
    var todo := s.softCaps.Keys;
    while todo != {}
      invariant todo <= s.softCaps.Keys
      invariant saw <==> exists n :: n in s.softCaps.Keys - todo && Published(s, n)
      invariant forall n :: n in s.softCaps.Keys - todo && Published(s, n) ==> AtPublishedCap(s, n)
      decreases todo
    {
      var name :| name in todo;
      if s.softCaps[name] > 0 {
        assert Published(s, name);
        saw := true;
        if LoadOf(s.providerLoad, name) < s.softCaps[name] {
          return true;
        }
      }
      todo := todo - {name};
    }
    ok := !saw;
  }

  /** Whether a new process may be minted for a destination ("" when the destination is not known). */
  method AdmitSpawnDest(kind: SpawnKind, dest: string, s: Snapshot, p: Policy) returns (d: Decision)
    ensures d == SpawnDecision(kind, dest, s, p)
  {
    var a := ComputeAssessment(s, p);
    d := Decision(BuildMission, KindName(kind), Defer, NoTier, MemoryGrind, a.pressure);
    match kind {
      case Owner => d := Decision(OwnerTurn, KindName(kind), Admit, Full, OwnerPriority, a.pressure);
      case Repair => d := Decision(ControlRepair, KindName(kind), Admit, Full, OwnerPriority, a.pressure);
      case Worker =>
        if Blocks(a.memory) {
          return;
        }
        if dest != "" {
          if Blocks(DestBinding(s, p, dest).headroom) {
            d := d.(reason := SeatCount);
            return;
          }
        } else {
          var room := AnyPublishedDestHasHeadroom(s);
          if SessionFull(s) || !room {
            d := d.(reason := SeatCount);
            return;
          }
        }
        if s.spawnHalted {
          d := d.(reason := SpawnHalted);
          return;
        }
        d := Decision(BuildMission, KindName(kind), Admit, Full, HeadroomOK, a.pressure);
    }
  }

  /** A pane for one destination waits on the census and on that destination's own cap, no other's. */
  lemma DestBlocksExactly(s: Snapshot, p: Policy, dest: string)
    requires dest != ""
    ensures Blocks(DestBinding(s, p, dest).headroom) <==> SessionFull(s) || AtPublishedCap(s, dest)
  {
    FractionIsZero(s.activeSessions, s.maxSessions);
    if dest in s.softCaps {
      ProviderBlocksExactly(s, p, dest);
    }
  }

  /** A published cap is reached. */
  predicate CapReached(s: Snapshot, n: string) {
    n in s.softCaps && 0 < s.softCaps[n] <= if n in s.providerLoad then s.providerLoad[n] else 0
  }

  /** No seat is left for a destination; with none known, none is left when every destination that publishes a cap
      has reached it. */
  ghost predicate NoSeat(s: Snapshot, dest: string) {
    || 0 < s.maxSessions <= s.activeSessions
    || (dest != "" && CapReached(s, dest))
    || (dest == "" && (exists n :: n in s.softCaps && s.softCaps[n] > 0)
        && forall n :: n in s.softCaps && s.softCaps[n] > 0 ==> CapReached(s, n))
  }

  /** Every spawn decision, in full: owner seats and repair agents always start; a worker pane waits for memory,
      then for a seat, then for the spawn clamp, and for nothing else. */
  lemma SpawnExactly(kind: SpawnKind, dest: string, s: Snapshot, p: Policy)
    ensures var d := SpawnDecision(kind, dest, s, p);
      && d.pressure == Assess(s, p).pressure
      && (d.class_, d.name) == (match kind case Owner => (OwnerTurn, "owner") case Repair => (ControlRepair, "control_repair")
                                           case Worker => (BuildMission, "worker"))
      && (d.verdict, d.tier, d.reason) ==
           if kind != Worker then (Admit, Full, OwnerPriority)
           else if MemoryShort(s, p, Critical) then (Defer, NoTier, MemoryGrind)
           else if NoSeat(s, dest) then (Defer, NoTier, SeatCount)
           else if s.spawnHalted then (Defer, NoTier, SpawnHalted)
           else (Admit, Full, HeadroomOK)
  {
    hide Assess, MemoryHeadroom, MemoryShort, DestBinding;
    MemoryCalls(s, p, Critical);
    MemoryIsRead(s, p);
    SeatsRun(s, dest);
    if dest != "" {
      DestBlocksExactly(s, p, dest);
    }
  }

  lemma MemoryIsRead(s: Snapshot, p: Policy)
    ensures Assess(s, p).memory == MemoryHeadroom(s, p)
  {
  }

  lemma SeatsRun(s: Snapshot, dest: string)
    ensures NoSeat(s, dest) <==>
      if dest != "" then SessionFull(s) || AtPublishedCap(s, dest) else SessionFull(s) || !SomeDestHasRoom(s)
  {
    assert forall n :: CapReached(s, n) == AtPublishedCap(s, n);
    assert forall n :: Published(s, n) <==> n in s.softCaps && s.softCaps[n] > 0;
  }

  /** What a seat binding reports: the census against the session bound, or one provider's load against its
      published cap or, when it publishes none, the assumed one. */
  lemma BindingReads(s: Snapshot, p: Policy, b: SeatBinding)
    requires Names(s, p, s.softCaps.Keys, b)
    ensures b.headroom == SeatHeadroom(s, p)
    ensures
      || (b.provider == "" && b.used == s.activeSessions && b.limit == s.maxSessions && !b.inferred)
      || (b.provider in s.softCaps
          && b.used == (if b.provider in s.providerLoad then s.providerLoad[b.provider] else 0)
          && b.limit == (if s.softCaps[b.provider] > 0 then s.softCaps[b.provider]
                         else if p.providerCapFallback > 0 then p.providerCapFallback else 12)
          && (b.inferred <==> s.softCaps[b.provider] <= 0))
  {
    hide TightestSeat, ProviderHeadroom;
  }

  /** A worker pane with no known destination is admitted exactly when one for some published
      destination would be, or nothing is published and the other conditions hold. */
  lemma UnawareSpawnExactly(s: Snapshot, p: Policy)
    ensures SpawnDecision(Worker, "", s, p).Admitted()
       <==> || (exists n :: Published(s, n) && SpawnDecision(Worker, n, s, p).Admitted())
            || ((forall n :: !Published(s, n)) && !SessionFull(s) && !s.spawnHalted && !Blocks(MemoryHeadroom(s, p)))
  {
    forall n | n != "" ensures Blocks(DestBinding(s, p, n).headroom) <==> SessionFull(s) || AtPublishedCap(s, n) {
      DestBlocksExactly(s, p, n);
    }
    if n :| Published(s, n) && !AtPublishedCap(s, n) {
      assert SpawnDecision(Worker, "", s, p).Admitted() ==> SpawnDecision(Worker, n, s, p).Admitted();
    }
  }

  // ---------------------------------------------------------------- work stopped early

  /** Whether in-flight work of a class is cancelled under a snapshot. */
  ghost predicate Preempts(c: Class, preemptible: bool, s: Snapshot, p: Policy) {
    var pressure := Assess(s, p).pressure;
    && !p.disabled && Level(pressure) >= Level(Tight)
    && Background(c) && preemptible && !(pressure == Tight && c in p.loadBearing)
  }

  /** A class is preempted exactly when a fresh request of it would be deferred for pressure, so
      nothing is stopped that would be let in again. */
  lemma PreemptsExactlyWhatPressureDefers(r: Request, s: Snapshot, p: Policy)
    ensures Preempts(r.class_, true, s, p)
       <==> Admitting(r, s, p).verdict == Defer
            && Admitting(r, s, p).reason in {CriticalOwnerOnly, TightLoadBearing, HostSaturated}
  {
    AdmittingIsDeciding(r, s, p);
  }
}
