/**
 What is left of the cycle limiter's promises on a clock that may step back: the gap always, and the daily
 cap exactly when the configuration leaves no way to spend a day twice.
 */
module LimiterClock {
  import opened Options
  import opened Limiter

  predicate AllUnforced(attempts: seq<Attempt>) {
    forall a :: a in attempts ==> !a.force
  }

  /** On every clock each unforced pass starts at least the gap after the recorded pass before it. */
  lemma {:induction false} GapsHoldOnAnyClock(cfg: Config, attempts: seq<Attempt>)
    ensures GapsKept(cfg, Run(cfg, attempts).history)
  {
    if attempts != [] {
      GapsHoldOnAnyClock(cfg, attempts[..|attempts| - 1]);
      EveryPassIsCounted(cfg, attempts[..|attempts| - 1]);
    }
  }

  // ---------------------------------------------------------------- a gap orders unforced passes

  /** With a gap, unforced passes are recorded in the order of their starts, whatever the clock does. */
  lemma {:induction false} GapKeepsTheCap(cfg: Config, attempts: seq<Attempt>, now: int)
    requires MinCycleGap(cfg) > 0 && AllUnforced(attempts)
    requires var h := Run(cfg, attempts).history; h != [] ==> h[|h| - 1].at <= now
    ensures Tracks(Run(cfg, attempts), now) && DaysBounded(cfg, Run(cfg, attempts).history)
  {
    if attempts == [] {
      assert Starts([]) == [];
    } else {
      var init, a := attempts[..|attempts| - 1], attempts[|attempts| - 1];
      var w := Run(cfg, init);
      assert a in attempts && AllUnforced(init);
      EveryPassIsCounted(cfg, init);
      if Allowed(cfg, w.st, a.now, a.force) && a.records {
        GapKeepsTheCap(cfg, init, a.now);
        RecordingTracks(w, a.now, Cycle(a.now, a.force));
        RecordingStaysBounded(cfg, w, Cycle(a.now, a.force));
        TracksLater(Run(cfg, attempts), a.now, now);
      } else {
        GapKeepsTheCap(cfg, init, now);
      }
    }
  }

  // ---------------------------------------------------------------- a cap of one

  /** Every unforced pass is as old as some stamp that is still kept. */
  ghost predicate Covered(w: World) {
    forall c :: c in w.history && !c.forced ==> exists t :: t in w.st.recentCycles && c.at <= t
  }

  lemma {:induction false} NoneAfter(ts: seq<int>, cutoff: int)
    ensures CountAfter(ts, cutoff) == 0 <==> forall t :: t in ts ==> t <= cutoff
  {
    if ts != [] {
      var init, last := ts[..|ts| - 1], ts[|ts| - 1];
      NoneAfter(init, cutoff);
      assert ts == init + [last];
      if forall t :: t in ts ==> t <= cutoff {
        assert forall t :: t in init ==> t in ts;
        assert last in ts;
      } else {
        var t :| t in ts && t > cutoff;
        assert t in init || t == last;
      }
    }
  }

  lemma {:induction false} NoneIn(h: seq<Cycle>, from: int)
    requires forall c :: c in h && !c.forced ==> c.at < from
    ensures UnforcedIn(h, from) == 0
  {
    if h != [] {
      assert h[|h| - 1] in h;
      NoneIn(h[..|h| - 1], from);
    }
  }

  lemma PrunedKeepsLater(stamps: seq<int>, now: int, t: int)
    requires t in stamps && t > now - DAY
    ensures t in Pruned(stamps, now)
  {
    PrunedIs(stamps, now);
    assert multiset(Pruned(stamps, now))[t] == TimesAfter(stamps, now - DAY, t) > 0;
  }

  lemma RecordingCovers(w: World, c: Cycle)
    requires Covered(w)
    ensures Covered(World(Recorded(w.st, c.at), w.history + [c]))
  {
    hide Pruned;
    var recent := Recorded(w.st, c.at).recentCycles;
    assert recent[|recent| - 1] == c.at;
    forall x | x in w.history + [c] && !x.forced ensures exists t :: t in recent && x.at <= t {
      if x in w.history {
        var t :| t in w.st.recentCycles && x.at <= t;
        if t > c.at - DAY {
          PrunedKeepsLater(w.st.recentCycles, c.at, t);
          assert t in recent;
        } else {
          assert c.at in recent && x.at <= c.at;
        }
      } else {
        assert c.at in recent;
      }
    }
  }

  lemma CapOneStaysBounded(cfg: Config, w: World, c: Cycle)
    requires EffectiveMaxCyclesPerDay(cfg) == 1 && Covered(w) && DaysBounded(cfg, w.history)
    requires Allowed(cfg, w.st, c.at, c.forced)
    ensures DaysBounded(cfg, w.history + [c])
  {
    forall from ensures UnforcedIn(w.history + [c], from) <= 1 {
      UnforcedNext(w.history, c, from);
      if !c.forced && from <= c.at < from + DAY {
        NoneAfter(w.st.recentCycles, c.at - DAY);
        NoneIn(w.history, from);
      }
    }
  }

  lemma {:induction false} CapOneHolds(cfg: Config, attempts: seq<Attempt>)
    requires EffectiveMaxCyclesPerDay(cfg) == 1
    ensures Covered(Run(cfg, attempts)) && DaysBounded(cfg, Run(cfg, attempts).history)
  {
    if attempts != [] {
      var init, a := attempts[..|attempts| - 1], attempts[|attempts| - 1];
      var w := Run(cfg, init);
      CapOneHolds(cfg, init);
      if Allowed(cfg, w.st, a.now, a.force) && a.records {
        RecordingCovers(w, Cycle(a.now, a.force));
        CapOneStaysBounded(cfg, w, Cycle(a.now, a.force));
      }
    }
  }

  // ---------------------------------------------------------------- a day spent twice

  /** All stamps are of the present or earlier, and the first day holds `k` unforced passes, all still counted. */
  ghost predicate Packed(w: World, k: nat) {
    && (forall t :: t in w.st.recentCycles ==> t <= 0)
    && CountAfter(w.st.recentCycles, -DAY) == k && UnforcedIn(w.history, 0) == k
  }

  const ONCE := Attempt(0, false, true)

  /** So long ago that neither the gap nor the day's count holds anything back. */
  function LongAgo(cfg: Config): (at: int)
    ensures at <= -DAY && at <= -MinCycleGap(cfg)
  {
    if MinCycleGap(cfg) > DAY then -MinCycleGap(cfg) else -DAY
  }

  function Lead(cfg: Config, forced: bool): seq<Attempt> {
    if forced then [Attempt(LongAgo(cfg), true, true)] else []
  }

  /** `k` unforced passes at one time, each after a forced one long ago when there is a gap to get past. */
  function Packing(cfg: Config, forced: bool, k: nat): seq<Attempt> {
    if k == 0 then [] else Packing(cfg, forced, k - 1) + Lead(cfg, forced) + [ONCE]
  }

  /** Nothing but the day's count can hold back an unforced pass now. */
  predicate Clear(cfg: Config, st: State) {
    MinCycleGap(cfg) > 0 && st.lastCycleAt.Some? ==> -st.lastCycleAt.value >= MinCycleGap(cfg)
  }

  lemma KeptStamps(stamps: seq<int>, now: int, cutoff: int)
    requires now - DAY <= cutoff
    ensures CountAfter(Pruned(stamps, now) + [now], cutoff) == CountAfter(stamps, cutoff) + if now > cutoff then 1 else 0
    ensures forall t :: t in Pruned(stamps, now) ==> t in stamps
  {
    PruningKeepsCounts(stamps, now, cutoff);
    CountNext(Pruned(stamps, now), now, cutoff);
    PrunedIs(stamps, now);
    forall t | t in Pruned(stamps, now) ensures t in stamps {
      assert multiset(Pruned(stamps, now))[t] > 0;
      assert multiset(stamps)[t] > 0;
    }
  }

  lemma PackLead(cfg: Config, forced: bool, w: World, k: nat)
    requires Packed(w, k) && (forced || MinCycleGap(cfg) == 0)
    ensures var t := if forced then AfterAttempt(cfg, w, Attempt(LongAgo(cfg), true, true)) else w;
      Packed(t, k) && Clear(cfg, t.st)
  {
    if forced {
      KeptStamps(w.st.recentCycles, LongAgo(cfg), -DAY);
      UnforcedNext(w.history, Cycle(LongAgo(cfg), true), 0);
    }
  }

  lemma PackOne(cfg: Config, w: World, k: nat)
    requires Packed(w, k) && Clear(cfg, w.st) && k < EffectiveMaxCyclesPerDay(cfg)
    ensures Packed(AfterAttempt(cfg, w, ONCE), k + 1)
  {
    KeptStamps(w.st.recentCycles, 0, -DAY);
    UnforcedNext(w.history, Cycle(0, false), 0);
  }

  lemma RunLead(cfg: Config, forced: bool, attempts: seq<Attempt>)
    ensures var w := Run(cfg, attempts);
      var t := if forced then AfterAttempt(cfg, w, Attempt(LongAgo(cfg), true, true)) else w;
      Run(cfg, attempts + Lead(cfg, forced) + [ONCE]) == AfterAttempt(cfg, t, ONCE)
  {
    hide AfterAttempt, Run;
    RunNext(cfg, attempts + Lead(cfg, forced), ONCE);
    if forced {
      RunNext(cfg, attempts, Attempt(LongAgo(cfg), true, true));
    } else {
      assert attempts + [] == attempts;
    }
  }

  lemma {:induction false} PackingPacks(cfg: Config, forced: bool, k: nat)
    requires k <= EffectiveMaxCyclesPerDay(cfg) && (forced || MinCycleGap(cfg) == 0)
    ensures Packed(Run(cfg, Packing(cfg, forced, k)), k)
  {
    hide Run, Packing, Packed;
    if k == 0 {
      PackNothing(cfg, forced);
    } else {
      PackingPacks(cfg, forced, k - 1);
      PackMore(cfg, forced, k - 1);
    }
  }

  lemma PackNothing(cfg: Config, forced: bool)
    ensures Packed(Run(cfg, Packing(cfg, forced, 0)), 0)
  {
  }

  lemma PackMore(cfg: Config, forced: bool, k: nat)
    requires k < EffectiveMaxCyclesPerDay(cfg) && (forced || MinCycleGap(cfg) == 0)
    requires Packed(Run(cfg, Packing(cfg, forced, k)), k)
    ensures Packed(Run(cfg, Packing(cfg, forced, k + 1)), k + 1)
  {
    hide Run, AfterAttempt, Packed, Clear, Lead, LongAgo, MinCycleGap, EffectiveMaxCyclesPerDay;
    var before := Packing(cfg, forced, k);
    var w := Run(cfg, before);
    assert Packing(cfg, forced, k + 1) == before + Lead(cfg, forced) + [ONCE];
    RunLead(cfg, forced, before);
    PackLead(cfg, forced, w, k);
    PackOne(cfg, if forced then AfterAttempt(cfg, w, Attempt(LongAgo(cfg), true, true)) else w, k);
  }

  /** A pass a day later drops every stamp of the first day. */
  lemma DayLater(cfg: Config, forced: bool, w: World, k: nat)
    requires Packed(w, k) && k >= 2 && (forced || MinCycleGap(cfg) == 0)
    ensures var t := AfterAttempt(cfg, w, Attempt(DAY, forced, true));
      t.st.recentCycles == [DAY] && UnforcedIn(t.history, 0) == k
  {
    NoneAfter(w.st.recentCycles, 0);
    PrunedIs(w.st.recentCycles, DAY);
    UnforcedNext(w.history, Cycle(DAY, forced), 0);
  }

  /** Set back into the first day, the clock lets one more pass in. */
  lemma OneMore(cfg: Config, forced: bool, w: World, k: nat)
    requires w.st.recentCycles == [DAY] && UnforcedIn(w.history, 0) == k
    requires EffectiveMaxCyclesPerDay(cfg) >= 2 && (forced || MinCycleGap(cfg) == 0)
    ensures var t := if forced then AfterAttempt(cfg, w, Attempt(LongAgo(cfg), true, true)) else w;
      UnforcedIn(AfterAttempt(cfg, t, ONCE).history, 0) == k + 1
  {
    var t := if forced then AfterAttempt(cfg, w, Attempt(LongAgo(cfg), true, true)) else w;
    CountNext([], DAY, -DAY);
    assert CountAfter([DAY], -DAY) == 1;
    if forced {
      KeptStamps(w.st.recentCycles, LongAgo(cfg), -DAY);
      UnforcedNext(w.history, Cycle(LongAgo(cfg), true), 0);
    }
    assert CountAfter(t.st.recentCycles, -DAY) == 1 && UnforcedIn(t.history, 0) == k;
    UnforcedNext(t.history, Cycle(0, false), 0);
  }

  /** The day filled to the cap, a pass a day later, and the clock set back. */
  function SetBack(cfg: Config, forced: bool): seq<Attempt> {
    Packing(cfg, forced, EffectiveMaxCyclesPerDay(cfg)) + [Attempt(DAY, forced, true)] + Lead(cfg, forced) + [ONCE]
  }

  /** With a cap of at least two, and forced passes or no gap, a clock set back by a day lets one unforced pass
      too many into a day. */
  lemma ClockSetBackBreaksTheCap(cfg: Config, forced: bool)
    requires EffectiveMaxCyclesPerDay(cfg) >= 2 && (forced || MinCycleGap(cfg) == 0)
    ensures UnforcedIn(Run(cfg, SetBack(cfg, forced)).history, 0) == EffectiveMaxCyclesPerDay(cfg) + 1
  {
    hide Run, AfterAttempt, Packed, Packing;
    var cap := EffectiveMaxCyclesPerDay(cfg);
    var packed := Packing(cfg, forced, cap);
    PackingPacks(cfg, forced, cap);
    RunNext(cfg, packed, Attempt(DAY, forced, true));
    DayLater(cfg, forced, Run(cfg, packed), cap);
    RunLead(cfg, forced, packed + [Attempt(DAY, forced, true)]);
    OneMore(cfg, forced, Run(cfg, packed + [Attempt(DAY, forced, true)]), cap);
  }

  lemma {:induction false} PackingIsUnforced(cfg: Config, k: nat)
    ensures AllUnforced(Packing(cfg, false, k))
  {
    if k > 0 {
      PackingIsUnforced(cfg, k - 1);
    }
  }

  // ---------------------------------------------------------------- exactly when the cap holds

  /** Unforced passes alone stay within the cap on every clock exactly when there is a gap between them or the
      cap is one or off. */
  lemma CapHoldsOnAnyClockExactly(cfg: Config)
    ensures (forall attempts :: AllUnforced(attempts) ==> DaysBounded(cfg, Run(cfg, attempts).history))
      <==> MinCycleGap(cfg) > 0 || EffectiveMaxCyclesPerDay(cfg) <= 1
  {
    hide Run, MinCycleGap, EffectiveMaxCyclesPerDay;
    GapIsNotNegative(cfg);
    if MinCycleGap(cfg) > 0 || EffectiveMaxCyclesPerDay(cfg) <= 1 {
      forall attempts | AllUnforced(attempts) ensures DaysBounded(cfg, Run(cfg, attempts).history) {
        if EffectiveMaxCyclesPerDay(cfg) == 1 {
          CapOneHolds(cfg, attempts);
        } else if EffectiveMaxCyclesPerDay(cfg) > 1 {
          var h := Run(cfg, attempts).history;
          GapKeepsTheCap(cfg, attempts, if h == [] then 0 else h[|h| - 1].at);
        }
      }
    } else {
      ClockSetBackBreaksTheCap(cfg, false);
      PackingIsUnforced(cfg, EffectiveMaxCyclesPerDay(cfg));
      assert AllUnforced(SetBack(cfg, false));
      assert !DaysBounded(cfg, Run(cfg, SetBack(cfg, false)).history);
    }
  }

  lemma GapIsNotNegative(cfg: Config)
    ensures MinCycleGap(cfg) >= 0
  {
  }

  /** With forced passes in between, the cap holds on every clock exactly when it is one or off. */
  lemma CapHoldsWithForcedExactly(cfg: Config)
    ensures (forall attempts :: DaysBounded(cfg, Run(cfg, attempts).history)) <==> EffectiveMaxCyclesPerDay(cfg) <= 1
  {
    hide Run, MinCycleGap, EffectiveMaxCyclesPerDay;
    if EffectiveMaxCyclesPerDay(cfg) <= 1 {
      forall attempts ensures DaysBounded(cfg, Run(cfg, attempts).history) {
        if EffectiveMaxCyclesPerDay(cfg) == 1 {
          CapOneHolds(cfg, attempts);
        }
      }
    } else {
      ClockSetBackBreaksTheCap(cfg, true);
      assert !DaysBounded(cfg, Run(cfg, SetBack(cfg, true)).history);
    }
  }
}
