/**
 The governor: live in-flight counts over any interleaving of cycles that begin and end. Begin and
 release each run under one mutex, so a run is a sequence of these steps.
 */
module Governor {
  import opened Capacity
  import opened Admission
  import opened AdmissionLaws
  import opened Readings

  /** One call of Begin and the release closure it returned. */
  datatype Ticket = Ticket(class_: Class, admitted: bool, released: bool)

  datatype Notice = Parked | Cleared

  datatype State = State(
    running: map<Class, int>, admitted: map<Class, int>, deferred: map<Class, int>,
    last: map<Class, Decision>, noticed: bool, tickets: seq<Ticket>, notices: seq<Notice>)

  const START := State(map[], map[], map[], map[], false, [], [])

  /** The caller's snapshot with the governor's own counts in it. */
  function LiveSnapshot(g: State, s: Snapshot): Snapshot {
    s.(running := map c | c in g.running && g.running[c] > 0 :: g.running[c])
  }

  function Bumped(m: map<Class, int>, c: Class): map<Class, int> {
    m[c := CountOf(m, c) + 1]
  }

  /** The notice that an assessment raises: one when background is parked, one when it resumes. */
  function NoticeOf(noticed: bool, pressure: Pressure): seq<Notice> {
    if pressure == Critical && !noticed then [Parked]
    else if pressure != Critical && noticed then [Cleared]
    else []
  }

  ghost function Outcome(g: State, c: Class, name: string, s: Snapshot, p: Policy): Decision {
    Admitting(Request(c, name, 0, true), LiveSnapshot(g, s), p)
  }

  /** The state after Begin has decided `d` under a pressure. */
  function Recorded(g: State, c: Class, d: Decision, pressure: Pressure): State {
    State(if d.Admitted() then Bumped(g.running, c) else g.running,
          if d.Admitted() then Bumped(g.admitted, c) else g.admitted,
          if d.Admitted() then g.deferred else Bumped(g.deferred, c),
          g.last[c := d],
          pressure == Critical,
          g.tickets + [Ticket(c, d.Admitted(), false)],
          g.notices + NoticeOf(g.noticed, pressure))
  }

  ghost function Begun(g: State, c: Class, name: string, s: Snapshot, p: Policy): State {
    Recorded(g, c, Outcome(g, c, name, s, p), Assess(LiveSnapshot(g, s), p).pressure)
  }

  predicate Releasable(g: State, k: nat) {
    k < |g.tickets| && g.tickets[k].admitted && !g.tickets[k].released
  }

  function Released(g: State, k: nat): State {
    if !Releasable(g, k) then g
    else
      var c := g.tickets[k].class_;
      g.(tickets := g.tickets[k := g.tickets[k].(released := true)],
         running := if CountOf(g.running, c) > 0 then g.running[c := g.running[c] - 1] else g.running)
  }

  // ---------------------------------------------------------------- runs

  datatype Event = Begin(class_: Class, name: string, snapshot: Snapshot) | Release(ticket: nat)

  ghost function Next(g: State, e: Event, p: Policy): State {
    match e
    case Begin(c, name, s) => Begun(g, c, name, s, p)
    case Release(k) => Released(g, k)
  }

  ghost function Run(events: seq<Event>, p: Policy): State {
    if events == [] then START else Next(Run(events[..|events| - 1], p), events[|events| - 1], p)
  }

  predicate IsLive(t: Ticket, c: Class) { t.class_ == c && t.admitted && !t.released }

  /** Admitted cycles of `c` that have not been released. */
  function Live(ts: seq<Ticket>, c: Class): nat {
    if ts == [] then 0 else Live(ts[..|ts| - 1], c) + if IsLive(ts[|ts| - 1], c) then 1 else 0
  }

  /** Calls of Begin for `c` that were (or were not) admitted. */
  function Calls(ts: seq<Ticket>, c: Class, admitted: bool): nat {
    if ts == [] then 0
    else
      Calls(ts[..|ts| - 1], c, admitted)
      + if ts[|ts| - 1].class_ == c && ts[|ts| - 1].admitted == admitted then 1 else 0
  }

  function LiveBackground(ts: seq<Ticket>): nat {
    Live(ts, ControlRepair) + Live(ts, StaffOps) + Live(ts, Audit) + Live(ts, Coach) + Live(ts, Research)
    + Live(ts, Experimental)
  }

  ghost predicate CountsAgree(g: State) {
    && (forall c :: CountOf(g.running, c) == Live(g.tickets, c))
    && (forall c :: CountOf(g.admitted, c) == Calls(g.tickets, c, true))
    && (forall c :: CountOf(g.deferred, c) == Calls(g.tickets, c, false))
  }

  ghost predicate WithinPolicy(g: State, p: Policy) {
    && (p.maxBackground > 0 ==> LiveBackground(g.tickets) <= p.maxBackground)
    && (forall c :: Background(c) && ClassBound(p, c) > 0 ==> Live(g.tickets, c) <= ClassBound(p, c))
  }

  /** Notices alternate, starting with a parked one. */
  predicate NoticesAlternate(g: State) {
    && (forall i :: 0 <= i < |g.notices| ==> g.notices[i] == if i % 2 == 0 then Parked else Cleared)
    && (g.noticed <==> |g.notices| % 2 == 1)
  }

  lemma {:induction false} LiveUpdate(ts: seq<Ticket>, k: nat, c: Class)
    requires k < |ts| && ts[k].admitted && !ts[k].released
    ensures Live(ts[k := ts[k].(released := true)], c) == Live(ts, c) - if ts[k].class_ == c then 1 else 0
    ensures forall b :: Calls(ts[k := ts[k].(released := true)], c, b) == Calls(ts, c, b)
  {
    var n := |ts| - 1;
    var us := ts[k := ts[k].(released := true)];
    if k == n {
      assert us[..n] == ts[..n];
    } else {
      LiveUpdate(ts[..n], k, c);
      assert us[..n] == ts[..n][k := ts[k].(released := true)];
    }
  }

  lemma LiveAppend(ts: seq<Ticket>, t: Ticket, c: Class)
    ensures Live(ts + [t], c) == Live(ts, c) + if IsLive(t, c) then 1 else 0
    ensures forall b :: Calls(ts + [t], c, b) == Calls(ts, c, b) + if t.class_ == c && t.admitted == b then 1 else 0
  {
    assert (ts + [t])[..|ts|] == ts;
  }

  lemma BumpedCount(m: map<Class, int>, c: Class, k: Class)
    ensures CountOf(Bumped(m, c), k) == CountOf(m, k) + if k == c then 1 else 0
  {
  }

  lemma RecordedCounts(g: State, c: Class, d: Decision, pressure: Pressure)
    requires CountsAgree(g)
    ensures CountsAgree(Recorded(g, c, d, pressure))
  {
    hide Live, Calls, Bumped, CountOf;
    var t := Ticket(c, d.Admitted(), false);
    forall m: map<Class, int>, k: Class
      ensures CountOf(Bumped(m, c), k) == CountOf(m, k) + if k == c then 1 else 0
    {
      BumpedCount(m, c, k);
    }
    forall k: Class
      ensures Live(g.tickets + [t], k) == Live(g.tickets, k) + if IsLive(t, k) then 1 else 0
      ensures Calls(g.tickets + [t], k, true) == Calls(g.tickets, k, true) + if t.class_ == k && t.admitted then 1 else 0
      ensures Calls(g.tickets + [t], k, false) == Calls(g.tickets, k, false) + if t.class_ == k && !t.admitted then 1 else 0
    {
      LiveAppend(g.tickets, t, k);
    }
  }

  lemma RecordedNotices(g: State, c: Class, d: Decision, pressure: Pressure)
    requires NoticesAlternate(g)
    ensures NoticesAlternate(Recorded(g, c, d, pressure))
  {
  }

  lemma ReleasedCounts(g: State, k: nat)
    requires CountsAgree(g)
    ensures CountsAgree(Released(g, k))
    ensures Releasable(g, k) ==>
      CountOf(Released(g, k).running, g.tickets[k].class_) == CountOf(g.running, g.tickets[k].class_) - 1
  {
    if Releasable(g, k) {
      var c := g.tickets[k].class_;
      LiveUpdate(g.tickets, k, c);
      assert CountOf(g.running, c) == Live(g.tickets, c) > 0;
      var us := g.tickets[k := g.tickets[k].(released := true)];
      forall b: Class
        ensures Live(us, b) == Live(g.tickets, b) - if c == b then 1 else 0
        ensures Calls(us, b, true) == Calls(g.tickets, b, true) && Calls(us, b, false) == Calls(g.tickets, b, false)
      {
        LiveUpdate(g.tickets, k, b);
      }
    }
  }

  /** The slots an admission starts from are the live cycles. */
  lemma InitialAreLive(g: State, s: Snapshot, p: Policy)
    requires CountsAgree(g)
    ensures var slots := InitialSlots(LiveSnapshot(g, s), p);
      slots.background == LiveBackground(g.tickets)
      && forall c :: Background(c) ==> InFlight(slots, c) == Live(g.tickets, c)
  {
    hide TotalOf, RunningIn, RunningTotal, Live;
    var running := LiveSnapshot(g, s).running;
    SlotsInUse(running);
    forall c | Background(c) ensures Positive(running, c) == Live(g.tickets, c) {
      assert CountOf(g.running, c) == Live(g.tickets, c);
    }
  }

  /** What an admitted background cycle finds in use. */
  lemma {:induction false} AdmittedHasRoom(g: State, c: Class, name: string, s: Snapshot, p: Policy)
    requires !p.disabled && CountsAgree(g) && Background(c) && Outcome(g, c, name, s, p).Admitted()
    ensures p.maxBackground > 0 ==> LiveBackground(g.tickets) + 1 <= p.maxBackground
    ensures ClassBound(p, c) > 0 ==> Live(g.tickets, c) + 1 <= ClassBound(p, c)
  {
    var r, live := Request(c, name, 0, true), LiveSnapshot(g, s);
    AdmittingIsDeciding(r, live, p);
    InitialAreLive(g, s, p);
    AdmittedFits(r, live, p, Assess(live, p), InitialSlots(live, p));
  }

  lemma RecordedWithinPolicy(g: State, c: Class, d: Decision, pressure: Pressure, p: Policy)
    requires WithinPolicy(g, p)
    requires Background(c) && d.Admitted() && p.maxBackground > 0 ==> LiveBackground(g.tickets) + 1 <= p.maxBackground
    requires Background(c) && d.Admitted() && ClassBound(p, c) > 0 ==> Live(g.tickets, c) + 1 <= ClassBound(p, c)
    ensures WithinPolicy(Recorded(g, c, d, pressure), p)
  {
    var t := Ticket(c, d.Admitted(), false);
    forall k: Class ensures Live(g.tickets + [t], k) == Live(g.tickets, k) + if IsLive(t, k) then 1 else 0 {
      LiveAppend(g.tickets, t, k);
    }
  }

  lemma ReleasedWithinPolicy(g: State, k: nat, p: Policy)
    requires CountsAgree(g) && WithinPolicy(g, p)
    ensures WithinPolicy(Released(g, k), p)
  {
    if Releasable(g, k) {
      forall c: Class
        ensures Live(Released(g, k).tickets, c) == Live(g.tickets, c) - if g.tickets[k].class_ == c then 1 else 0
      {
        LiveUpdate(g.tickets, k, c);
      }
    }
  }

  lemma BegunKeeps(g: State, c: Class, name: string, s: Snapshot, p: Policy)
    requires !p.disabled && CountsAgree(g) && WithinPolicy(g, p) && NoticesAlternate(g)
    ensures var t := Begun(g, c, name, s, p); CountsAgree(t) && WithinPolicy(t, p) && NoticesAlternate(t)
  {
    var d, pressure := Outcome(g, c, name, s, p), Assess(LiveSnapshot(g, s), p).pressure;
    RecordedCounts(g, c, d, pressure);
    RecordedNotices(g, c, d, pressure);
    if Background(c) && d.Admitted() {
      AdmittedHasRoom(g, c, name, s, p);
    }
    RecordedWithinPolicy(g, c, d, pressure, p);
  }

  /** In every reachable state the counts are the live cycles, every background bound holds and owner
      notices alternate. */
  lemma {:induction false} EveryRunStaysBounded(events: seq<Event>, p: Policy)
    requires !p.disabled
    ensures CountsAgree(Run(events, p)) && WithinPolicy(Run(events, p), p) && NoticesAlternate(Run(events, p))
  {
    if events != [] {
      var g, e := Run(events[..|events| - 1], p), events[|events| - 1];
      EveryRunStaysBounded(events[..|events| - 1], p);
      assert Run(events, p) == Next(g, e, p);
      match e {
        case Begin(c, name, s) =>
          BegunKeeps(g, c, name, s, p);
        case Release(k) =>
          ReleasedCounts(g, k);
          ReleasedWithinPolicy(g, k, p);
      }
    }
  }

  /** Releasing twice is releasing once. */
  lemma SecondReleaseDoesNothing(g: State, k: nat)
    ensures Released(Released(g, k), k) == Released(g, k)
  {
  }

  // ---------------------------------------------------------------- what a call of Begin is told

  /** Nothing but the cycles in flight can keep a background class out. */
  ghost predicate HostLetsIn(c: Class, s: Snapshot, p: Policy) {
    var pressure := Assess(s, p).pressure;
    && pressure != Critical
    && (c in p.loadBearing || (pressure != Tight && !LoadHigh(s, p) && !(p.ownerBusyDefers && s.ownerActive)))
  }

  /** In every reachable state a background cycle is let in exactly when the host allows its class and the live
      cycles, in all and of its class, are under their bounds; it is let in reduced exactly when the pressure is
      elevated and its class bears no load. Build work waits for the spawn clamp alone, owner turns for nothing. */
  lemma BegunExactly(events: seq<Event>, c: Class, name: string, s: Snapshot, p: Policy)
    requires !p.disabled
    ensures var ts, d := Run(events, p).tickets, Outcome(Run(events, p), c, name, s, p);
      var bound := if c in p.maxPerClass then p.maxPerClass[c] else 1;
      if c == OwnerTurn || c == BuildMission then d.Admitted() <==> c == OwnerTurn || !s.spawnHalted
      else
        && (d.Admitted() <==>
              HostLetsIn(c, s, p) && !(0 < p.maxBackground <= LiveBackground(ts)) && !(0 < bound <= Live(ts, c)))
        && (d.verdict == Degrade <==>
              d.Admitted() && Assess(s, p).pressure == Elevated && c !in p.loadBearing)
  {
    hide Assess, Run, LiveBackground, Live, InitialSlots, LoadAverageHeadroom, LoadHigh;
    var g := Run(events, p);
    var live := LiveSnapshot(g, s);
    EveryRunStaysBounded(events, p);
    AdmittingIsDeciding(Request(c, name, 0, true), live, p);
    AssessIgnoresRunning(s, live.running, p);
    assert live == s.(running := live.running);
    InitialAreLive(g, s, p);
    LoadHighExactly(s, p);
    LoadIsRead(s, p);
  }

  lemma LoadIsRead(s: Snapshot, p: Policy)
    ensures Assess(s, p).loadAverage == LoadAverageHeadroom(s, p)
  {
  }

  /** Event `k` is the latest Begin, or the latest of a class. */
  predicate LatestBegin(events: seq<Event>, k: nat) {
    k < |events| && events[k].Begin? && forall j :: k < j < |events| ==> !events[j].Begin?
  }

  predicate LatestOfClass(events: seq<Event>, k: nat, c: Class) {
    && k < |events| && events[k].Begin? && events[k].class_ == c
    && forall j :: k < j < |events| ==> !(events[j].Begin? && events[j].class_ == c)
  }

  /** The latch says whether the latest Begin found the host critical. */
  lemma {:induction false} LatchIsLatest(events: seq<Event>, p: Policy, k: nat)
    requires LatestBegin(events, k)
    ensures Run(events, p).noticed <==> Assess(events[k].snapshot, p).pressure == Critical
  {
    hide Assess, Outcome;
    var init := events[..|events| - 1];
    if k < |events| - 1 {
      LatchIsLatest(init, p, k);
    } else {
      AssessIgnoresRunning(events[k].snapshot, LiveSnapshot(Run(init, p), events[k].snapshot).running, p);
    }
  }

  /** The last decision kept for a class is the one its latest Begin was given. */
  lemma {:induction false} LastIsLatest(events: seq<Event>, p: Policy, k: nat, c: Class)
    requires LatestOfClass(events, k, c)
    ensures c in Run(events, p).last
    ensures Run(events, p).last[c] == Outcome(Run(events[..k], p), c, events[k].name, events[k].snapshot, p)
  {
    hide Assess, Outcome;
    if k < |events| - 1 {
      var init := events[..|events| - 1];
      assert init[..k] == events[..k];
      LastIsLatest(init, p, k, c);
    }
  }

  // ---------------------------------------------------------------- the governor itself

  class Governor {
    var running: map<Class, int>
    var admitted: map<Class, int>
    var deferred: map<Class, int>
    var last: map<Class, Decision>
    var noticed: bool
    var tickets: seq<Ticket>
    var notices: seq<Notice>

    function Value(): State
      reads this
    {
      State(running, admitted, deferred, last, noticed, tickets, notices)
    }

    constructor ()
      ensures Value() == START
    {
      running, admitted, deferred, last := map[], map[], map[], map[];
      noticed, tickets, notices := false, [], [];
    }

    /** The in-flight counts above zero. */
    method RunningCopy() returns (copy: map<Class, int>)
      ensures copy == map c | c in running && running[c] > 0 :: running[c]
    {
      copy := map[];
      var todo := running.Keys;
      while todo != {}
        invariant todo <= running.Keys
        invariant copy == map c | c in running.Keys - todo && running[c] > 0 :: running[c]
        decreases todo
      {
        var c :| c in todo;
        if running[c] > 0 {
          copy := copy[c := running[c]];
        }
        todo := todo - {c};
      }
    }

    /** Asks for capacity to run one cycle of a class. */
    method Begin(c: Class, name: string, s: Snapshot, p: Policy) returns (d: Decision, ticket: nat)
      modifies this
      ensures d == Outcome(old(Value()), c, name, s, p)
      ensures Value() == Begun(old(Value()), c, name, s, p) && ticket == |old(tickets)|
    {
      var copy := RunningCopy();
      var live := s.(running := copy);
      var a := ComputeAssessment(live, p);
      d := AdmitOne(Request(c, name, 0, true), live, p);
      Record(c, d, a.pressure);
      ticket := |tickets| - 1;
    }

    /** Books a decision: counters, notice latch and the ticket of its release closure. */
    method Record(c: Class, d: Decision, pressure: Pressure)
      modifies this
      ensures Value() == Recorded(old(Value()), c, d, pressure)
    {
      last := last[c := d];
      if d.Admitted() {
        running := Bumped(running, c);
        admitted := Bumped(admitted, c);
      } else {
        deferred := Bumped(deferred, c);
      }
      if pressure == Critical && !noticed {
        noticed := true;
        notices := notices + [Parked];
      } else if pressure != Critical && noticed {
        noticed := false;
        notices := notices + [Cleared];
      }
      tickets := tickets + [Ticket(c, d.Admitted(), false)];
    }

    /** Runs the release closure of one call of Begin. */
    method Release(k: nat)
      modifies this
      ensures Value() == Released(old(Value()), k)
    {
      if k < |tickets| && tickets[k].admitted && !tickets[k].released {
        var c := tickets[k].class_;
        tickets := tickets[k := tickets[k].(released := true)];
        if CountOf(running, c) > 0 {
          running := running[c := running[c] - 1];
        }
      }
    }
  }
}
