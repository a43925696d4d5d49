/**
 The cost guard on audit passes (internal/audit/config.go, auditor.go): a sliding one-day window over the
 starts of recorded passes and a minimum gap between them. Times and durations are nanoseconds.
 */
module Limiter {
  import opened Options
  import opened Sequences

  datatype Config = Config(maxCyclesPerDay: int, minCycleGapSec: int)

  const SECOND := 1_000_000_000
  const DAY := 24 * 60 * 60 * SECOND
  const DEFAULT_MAX_CYCLES_PER_DAY := 4
  const DEFAULT_MIN_CYCLE_GAP := 5 * 60 * SECOND

  function MinCycleGap(cfg: Config): int {
    if cfg.minCycleGapSec < 0 then 0
    else if cfg.minCycleGapSec == 0 then DEFAULT_MIN_CYCLE_GAP
    else cfg.minCycleGapSec * SECOND
  }

  /** Zero means no daily cap. */
  function EffectiveMaxCyclesPerDay(cfg: Config): int {
    if cfg.maxCyclesPerDay < 0 then 0
    else if cfg.maxCyclesPerDay == 0 then DEFAULT_MAX_CYCLES_PER_DAY
    else cfg.maxCyclesPerDay
  }

  datatype State = State(lastCycleAt: Option<int>, cycleCount: nat, recentCycles: seq<int>)

  const FRESH := State(None, 0, [])

  // ---------------------------------------------------------------- the window

  /** How often a time occurs among the stamps later than the cutoff. */
  function TimesAfter(ts: seq<int>, cutoff: int, t: int): nat {
    if t > cutoff then multiset(ts)[t] else 0
  }

  function CountAfter(ts: seq<int>, cutoff: int): nat {
    if ts == [] then 0
    else CountAfter(ts[..|ts| - 1], cutoff) + if ts[|ts| - 1] > cutoff then 1 else 0
  }

  function Kept(ts: seq<int>, cutoff: int): seq<int> {
    if ts == [] then []
    else Kept(ts[..|ts| - 1], cutoff) + if ts[|ts| - 1] > cutoff then [ts[|ts| - 1]] else []
  }

  function Itself(t: int): int { t }

  function Pruned(stamps: seq<int>, now: int): seq<int> {
    Sorted(Kept(stamps, now - DAY), Itself)
  }

  lemma {:induction false} KeptIs(ts: seq<int>, cutoff: int)
    ensures |Kept(ts, cutoff)| == CountAfter(ts, cutoff)
    ensures forall t :: multiset(Kept(ts, cutoff))[t] == TimesAfter(ts, cutoff, t)
  {
    if ts != [] {
      assert ts == ts[..|ts| - 1] + [ts[|ts| - 1]];
      KeptIs(ts[..|ts| - 1], cutoff);
    }
  }

  /** Pruning leaves exactly the stamps later than a day ago, each as often as before, in ascending order. */
  lemma PrunedIs(stamps: seq<int>, now: int)
    ensures InKeyOrder(Pruned(stamps, now), Itself)
    ensures |Pruned(stamps, now)| == CountAfter(stamps, now - DAY)
    ensures forall t :: multiset(Pruned(stamps, now))[t] == TimesAfter(stamps, now - DAY, t)
  {
    SortedIs(Kept(stamps, now - DAY), Itself);
    KeptIs(stamps, now - DAY);
    assert |multiset(Pruned(stamps, now))| == |multiset(Kept(stamps, now - DAY))|;
  }

  /** The number of stamps after a cutoff depends only on how often each stamp occurs. */
  lemma {:induction false} CountIsOrderless(a: seq<int>, b: seq<int>, cutoff: int)
    requires multiset(a) == multiset(b)
    ensures CountAfter(a, cutoff) == CountAfter(b, cutoff)
  {
    KeptIs(a, cutoff);
    KeptIs(b, cutoff);
    var ka, kb := multiset(Kept(a, cutoff)), multiset(Kept(b, cutoff));
    assert forall t :: ka[t] == kb[t];
    assert ka == kb;
    assert |ka| == |Kept(a, cutoff)|;
  }

  lemma CountNext(ts: seq<int>, t: int, cutoff: int)
    ensures CountAfter(ts + [t], cutoff) == CountAfter(ts, cutoff) + if t > cutoff then 1 else 0
  {
    assert (ts + [t])[..|ts|] == ts;
  }

  lemma {:induction false} KeptCount(ts: seq<int>, cutoff: int, later: int)
    requires cutoff <= later
    ensures CountAfter(Kept(ts, cutoff), later) == CountAfter(ts, later)
  {
    if ts == [] {
      assert Kept(ts, cutoff) == ts;
    } else {
      hide CountAfter, Kept;
      var init, last := ts[..|ts| - 1], ts[|ts| - 1];
      KeptCount(init, cutoff, later);
      KeptNext(ts, cutoff);
      CountNext(Kept(init, cutoff), last, later);
      CountNext(init, last, later);
      assert init + [last] == ts;
    }
  }

  lemma KeptNext(ts: seq<int>, cutoff: int)
    requires ts != []
    ensures var init, last := ts[..|ts| - 1], ts[|ts| - 1];
      Kept(ts, cutoff) == if last > cutoff then Kept(init, cutoff) + [last] else Kept(init, cutoff)
  {
    assert Kept(ts[..|ts| - 1], cutoff) + [] == Kept(ts[..|ts| - 1], cutoff);
  }

  /** Pruning drops no stamp that a check at the same time or later counts. */
  lemma PruningKeepsCounts(stamps: seq<int>, now: int, cutoff: int)
    requires now - DAY <= cutoff
    ensures CountAfter(Pruned(stamps, now), cutoff) == CountAfter(stamps, cutoff)
  {
    SortedIs(Kept(stamps, now - DAY), Itself);
    CountIsOrderless(Pruned(stamps, now), Kept(stamps, now - DAY), cutoff);
    KeptCount(stamps, now - DAY, cutoff);
  }

  method PruneWindow(stamps: seq<int>, now: int) returns (out: seq<int>)
    ensures InKeyOrder(out, Itself) && |out| == CountAfter(stamps, now - DAY)
    ensures forall t :: multiset(out)[t] == TimesAfter(stamps, now - DAY, t)
    ensures out == Pruned(stamps, now)
  {
    out := [];
    var cutoff := now - DAY;
    for i := 0 to |stamps|
      invariant out == Kept(stamps[..i], cutoff)
    {
      assert stamps[..i + 1][..i] == stamps[..i];
      if stamps[i] > cutoff {
        out := out + [stamps[i]];
      }
    }
    assert stamps[..|stamps|] == stamps;
    PrunedIs(stamps, now);
    out := Sorted(out, Itself);
  }

  // ---------------------------------------------------------------- one attempt

  predicate Allowed(cfg: Config, st: State, now: int, force: bool) {
    || force
    || (&& (MinCycleGap(cfg) > 0 && st.lastCycleAt.Some? ==> now - st.lastCycleAt.value >= MinCycleGap(cfg))
        && (EffectiveMaxCyclesPerDay(cfg) > 0 ==> CountAfter(st.recentCycles, now - DAY) < EffectiveMaxCyclesPerDay(cfg)))
  }

  function Recorded(st: State, now: int): State {
    State(Some(now), st.cycleCount + 1, Pruned(st.recentCycles, now) + [now])
  }

  datatype Refusal = GapNotElapsed | DailyCapReached

  method AllowCycle(cfg: Config, st: State, now: int, force: bool) returns (ok: bool, why: Option<Refusal>)
    ensures ok == Allowed(cfg, st, now, force) && why.None? == ok
    ensures why == Some(GapNotElapsed) <==>
      !force && MinCycleGap(cfg) > 0 && st.lastCycleAt.Some? && now - st.lastCycleAt.value < MinCycleGap(cfg)
    ensures why == Some(DailyCapReached) ==>
      0 < EffectiveMaxCyclesPerDay(cfg) <= CountAfter(st.recentCycles, now - DAY)
  {
    if !force {
      var gap := MinCycleGap(cfg);
      if gap > 0 && st.lastCycleAt.Some? {
        var since := now - st.lastCycleAt.value;
        if since < gap {
          return false, Some(GapNotElapsed);
        }
      }
      var max := EffectiveMaxCyclesPerDay(cfg);
      if max > 0 {
        var recent := PruneWindow(st.recentCycles, now);
        if |recent| >= max {
          return false, Some(DailyCapReached);
        }
      }
    }
    return true, None;
  }

  /** A pass asked for at `now`. One that is let through may still end before it is recorded. */
  datatype Attempt = Attempt(now: int, force: bool, records: bool)

  class Auditor {
    const cfg: Config
    var state: State
    ghost var history: seq<Cycle>

    constructor (cfg: Config)
      ensures this.cfg == cfg && state == FRESH && history == []
    {
      this.cfg, state, history := cfg, FRESH, [];
    }

    ghost function View(): World
      reads this
    {
      World(state, history)
    }

    method RecordCycle(now: int)
      modifies `state
      ensures state == Recorded(old(state), now)
    {
      var recent := PruneWindow(state.recentCycles, now);
      state := State(Some(now), state.cycleCount + 1, recent + [now]);
    }

    /** One pass, start to finish: it runs only when allowed, and stamps its own start. */
    method RunCycle(a: Attempt) returns (ran: bool)
      modifies this
      ensures ran == Allowed(cfg, old(state), a.now, a.force)
      ensures View() == AfterAttempt(cfg, old(View()), a)
    {
      var why;
      ran, why := AllowCycle(cfg, state, a.now, a.force);
      if ran && a.records {
        RecordCycle(a.now);
        history := history + [Cycle(a.now, a.force)];
      }
    }
  }

  // ---------------------------------------------------------------- whole runs

  datatype Cycle = Cycle(at: int, forced: bool)

  /** The durable state next to every pass ever recorded. */
  datatype World = World(st: State, history: seq<Cycle>)

  function AfterAttempt(cfg: Config, w: World, a: Attempt): World {
    if Allowed(cfg, w.st, a.now, a.force) && a.records
    then World(Recorded(w.st, a.now), w.history + [Cycle(a.now, a.force)])
    else w
  }

  function Run(cfg: Config, attempts: seq<Attempt>): World {
    if attempts == [] then World(FRESH, [])
    else AfterAttempt(cfg, Run(cfg, attempts[..|attempts| - 1]), attempts[|attempts| - 1])
  }

  /** The clock never steps back. */
  predicate Forward(attempts: seq<Attempt>) {
    forall i, j :: 0 <= i < j < |attempts| ==> attempts[i].now <= attempts[j].now
  }

  function Starts(h: seq<Cycle>): (ts: seq<int>)
    ensures |ts| == |h|
  {
    seq(|h|, i requires 0 <= i < |h| => h[i].at)
  }

  /** Unforced passes that start in the half-open day from `from`. */
  function UnforcedIn(h: seq<Cycle>, from: int): nat {
    if h == [] then 0
    else
      var c := h[|h| - 1];
      UnforcedIn(h[..|h| - 1], from) + if !c.forced && from <= c.at < from + DAY then 1 else 0
  }

  /** The state stands for the whole history, for every check from `now` on. */
  ghost predicate Tracks(w: World, now: int) {
    && w.st.cycleCount == |w.history|
    && w.st.lastCycleAt == (if w.history == [] then None else Some(w.history[|w.history| - 1].at))
    && (forall c :: c in w.history ==> c.at <= now)
    && (forall cutoff :: cutoff >= now - DAY ==>
        CountAfter(w.st.recentCycles, cutoff) == CountAfter(Starts(w.history), cutoff))
  }

  lemma StartsNext(h: seq<Cycle>, c: Cycle)
    ensures Starts(h + [c]) == Starts(h) + [c.at]
  {
  }

  lemma RecordingTracks(w: World, before: int, c: Cycle)
    requires Tracks(w, before) && before <= c.at
    ensures Tracks(World(Recorded(w.st, c.at), w.history + [c]), c.at)
  {
    StartsNext(w.history, c);
    forall cutoff | cutoff >= c.at - DAY
      ensures CountAfter(Recorded(w.st, c.at).recentCycles, cutoff) == CountAfter(Starts(w.history + [c]), cutoff)
    {
      PruningKeepsCounts(w.st.recentCycles, c.at, cutoff);
      CountNext(Pruned(w.st.recentCycles, c.at), c.at, cutoff);
      CountNext(Starts(w.history), c.at, cutoff);
    }
  }

  lemma ForwardInit(attempts: seq<Attempt>)
    requires attempts != [] && Forward(attempts)
    ensures Forward(attempts[..|attempts| - 1])
    ensures |attempts| > 1 ==> attempts[|attempts| - 2].now <= attempts[|attempts| - 1].now
  {
  }

  lemma TracksLater(w: World, now: int, later: int)
    requires Tracks(w, now) && now <= later
    ensures Tracks(w, later)
  {
  }

  lemma {:induction false} RunTracks(cfg: Config, attempts: seq<Attempt>, now: int)
    requires Forward(attempts) && (attempts != [] ==> attempts[|attempts| - 1].now <= now)
    ensures Tracks(Run(cfg, attempts), now)
  {
    if attempts == [] {
      assert Starts([]) == [];
    } else {
      var init, a := attempts[..|attempts| - 1], attempts[|attempts| - 1];
      ForwardInit(attempts);
      RunTracks(cfg, init, a.now);
      var w := Run(cfg, init);
      if Allowed(cfg, w.st, a.now, a.force) && a.records {
        RecordingTracks(w, a.now, Cycle(a.now, a.force));
      }
      TracksLater(Run(cfg, attempts), a.now, now);
    }
  }

  /** The passes that start after a cutoff. */
  function StartedAfter(h: seq<Cycle>, cutoff: int): set<int> {
    set k | 0 <= k < |h| && h[k].at > cutoff
  }

  lemma {:induction false} CountIsSize(h: seq<Cycle>, cutoff: int)
    ensures CountAfter(Starts(h), cutoff) == |StartedAfter(h, cutoff)|
  {
    if h != [] {
      var init, n := h[..|h| - 1], |h| - 1;
      CountIsSize(init, cutoff);
      assert h == init + [h[n]];
      StartsNext(init, h[n]);
      CountNext(Starts(init), h[n].at, cutoff);
      assert StartedAfter(h, cutoff) == StartedAfter(init, cutoff) + if h[n].at > cutoff then {n} else {};
    }
  }

  /** The guard answers from the pruned window exactly as the whole history would: an unforced pass runs when
      the last recorded pass started at least the gap ago (five minutes when none is set, no gap when it is
      negative) and fewer than the cap (four when none is set, no cap when it is negative), forced ones counted,
      started within the last day. A forced one always runs. */
  lemma AllowedExactly(cfg: Config, attempts: seq<Attempt>, now: int)
    requires Forward(attempts) && (attempts != [] ==> attempts[|attempts| - 1].now <= now)
    ensures var h := Run(cfg, attempts).history;
      var gap := if cfg.minCycleGapSec == 0 then 300 else cfg.minCycleGapSec;
      var cap := if cfg.maxCyclesPerDay == 0 then 4 else cfg.maxCyclesPerDay;
      Allowed(cfg, Run(cfg, attempts).st, now, false) <==>
        && (gap > 0 && h != [] ==> now - h[|h| - 1].at >= gap * 1_000_000_000)
        && (cap > 0 ==> |StartedAfter(h, now - 86_400_000_000_000)| < cap)
    ensures Allowed(cfg, Run(cfg, attempts).st, now, true)
  {
    hide Run, CountAfter, StartedAfter;
    RunTracks(cfg, attempts, now);
    CountIsSize(Run(cfg, attempts).history, now - DAY);
  }

  /** On every clock the counters say how many passes were recorded and when the last one started. */
  lemma {:induction false} EveryPassIsCounted(cfg: Config, attempts: seq<Attempt>)
    ensures var w := Run(cfg, attempts);
      && w.st.cycleCount == |w.history|
      && w.st.lastCycleAt == (if w.history == [] then None else Some(w.history[|w.history| - 1].at))
  {
    hide Allowed, Pruned;
    if attempts != [] {
      EveryPassIsCounted(cfg, attempts[..|attempts| - 1]);
    }
  }

  // ---------------------------------------------------------------- what the guard promises

  ghost predicate DaysBounded(cfg: Config, h: seq<Cycle>) {
    EffectiveMaxCyclesPerDay(cfg) > 0 ==> forall from :: UnforcedIn(h, from) <= EffectiveMaxCyclesPerDay(cfg)
  }

  predicate GapsKept(cfg: Config, h: seq<Cycle>) {
    forall i :: 0 < i < |h| && !h[i].forced && MinCycleGap(cfg) > 0 ==> h[i].at - h[i - 1].at >= MinCycleGap(cfg)
  }

  lemma {:induction false} UnforcedAreRecent(h: seq<Cycle>, from: int, cutoff: int)
    requires cutoff < from
    ensures UnforcedIn(h, from) <= CountAfter(Starts(h), cutoff)
  {
    if h == [] {
    } else {
      var init, c := h[..|h| - 1], h[|h| - 1];
      assert h == init + [c];
      StartsNext(init, c);
      CountNext(Starts(init), c.at, cutoff);
      UnforcedAreRecent(init, from, cutoff);
    }
  }

  lemma UnforcedNext(h: seq<Cycle>, c: Cycle, from: int)
    ensures UnforcedIn(h + [c], from) == UnforcedIn(h, from) + if !c.forced && from <= c.at < from + DAY then 1 else 0
  {
    assert (h + [c])[..|h|] == h;
  }

  lemma RecordingStaysBounded(cfg: Config, w: World, c: Cycle)
    requires Tracks(w, c.at) && Allowed(cfg, w.st, c.at, c.forced) && DaysBounded(cfg, w.history)
    ensures DaysBounded(cfg, w.history + [c])
  {
    if EffectiveMaxCyclesPerDay(cfg) > 0 {
      forall from ensures UnforcedIn(w.history + [c], from) <= EffectiveMaxCyclesPerDay(cfg) {
        UnforcedNext(w.history, c, from);
        if !c.forced && from <= c.at < from + DAY {
          UnforcedAreRecent(w.history, from, c.at - DAY);
        }
      }
    }
  }

  /** Over any run on a clock that does not step back, with forced passes anywhere in between: no half-open
      day holds more recorded unforced passes than the cap, and each one starts at least the gap after the
      recorded pass before it. */
  lemma {:induction false} EveryRunIsLimited(cfg: Config, attempts: seq<Attempt>)
    requires Forward(attempts)
    ensures DaysBounded(cfg, Run(cfg, attempts).history)
    ensures GapsKept(cfg, Run(cfg, attempts).history)
  {
    if attempts == [] {
    } else {
      var init, a := attempts[..|attempts| - 1], attempts[|attempts| - 1];
      ForwardInit(attempts);
      EveryRunIsLimited(cfg, init);
      RunTracks(cfg, init, a.now);
      var w := Run(cfg, init);
      if Allowed(cfg, w.st, a.now, a.force) && a.records {
        RecordingStaysBounded(cfg, w, Cycle(a.now, a.force));
      }
    }
  }

  lemma RunNext(cfg: Config, attempts: seq<Attempt>, a: Attempt)
    ensures Run(cfg, attempts + [a]) == AfterAttempt(cfg, Run(cfg, attempts), a)
  {
    assert (attempts + [a])[..|attempts|] == attempts;
  }
}
