/**
 Repeated reports are quiet, and alerts for a standing finding keep their distance, unless one report
 names the finding twice.
 */
module ResidueAlerts {
  import opened Options
  import opened Residue
  import opened ResidueLaws
  import opened Sequences

  // ---------------------------------------------------------------- the same report again

  /** Every reported fingerprint has an outstanding entry. */
  ghost predicate Steady(es: seq<Entry>, fps: set<string>) {
    forall fp :: fp in fps ==> Lookup(es, fp).Some? && Outstanding(Lookup(es, fp).value)
  }

  lemma {:induction false} FoldedIsSteady(es: seq<Entry>, fs: seq<Finding>, a: MergeArgs)
    ensures Steady(Folded(es, fs, a).entries, SeenNow(fs))
  {
    hide IndexOf;
    if fs != [] {
      var init, f := fs[..|fs| - 1], fs[|fs| - 1];
      FoldedIsSteady(es, init, a);
      SeenNext(fs, |init|);
      assert fs[..|init| + 1] == fs;
      forall fp | fp in SeenNow(fs)
        ensures Lookup(Folded(es, fs, a).entries, fp).Some? && Outstanding(Lookup(Folded(es, fs, a).entries, fp).value)
      {
        FoldOneLookup(Folded(es, init, a), f, a, fp);
      }
    }
  }

  /** A fold over findings that all stand already adds and reopens nothing. */
  lemma {:induction false} SteadyFold(es: seq<Entry>, fs: seq<Finding>, a: MergeArgs, fps: set<string>)
    requires Steady(es, fps) && SeenNow(fs) <= fps
    ensures var d := Folded(es, fs, a); d.added == [] && d.reopened == [] && Steady(d.entries, fps)
  {
    hide IndexOf;
    if fs != [] {
      var init, f := fs[..|fs| - 1], fs[|fs| - 1];
      SeenNext(fs, |init|);
      assert fs[..|init| + 1] == fs;
      SteadyFold(es, init, a, fps);
      var d := Folded(es, init, a);
      if f.fp != "" {
        assert f.fp in fps && Lookup(d.entries, f.fp).Some?;
      }
      forall fp | fp in fps
        ensures Lookup(FoldOne(d, f, a).entries, fp).Some? && Outstanding(Lookup(FoldOne(d, f, a).entries, fp).value)
      {
        FoldOneLookup(d, f, a, fp);
      }
    }
  }

  lemma {:induction false} NoneMissed(es: seq<Entry>, seen: set<string>, a: MergeArgs)
    requires forall e :: e in es ==> !Missed(e, seen, a.covered)
    ensures ResolvedBy(es, seen, a) == []
  {
    if es != [] {
      NoneMissed(es[..|es| - 1], seen, a);
    }
  }

  /** Merging the same findings over the same scopes a second time adds, reopens and resolves nothing. */
  lemma RepeatedReportIsQuiet(es: seq<Entry>, a: MergeArgs, b: MergeArgs)
    requires Unique(es) && b.findings == a.findings && b.covered == a.covered
    ensures var r := ResultOf(Merged(es, a), b); r.added == [] && r.reopened == [] && r.resolved == []
  {
    hide Merged, Steady, Missed, Unique, Folded;
    var seen, m := SeenNow(a.findings), Merged(es, a);
    MergedIsSteady(es, a);
    FoldedUnique(es, a.findings, a);
    MergedLookup(es, a, "");
    SteadyFold(m, b.findings, b, seen);
    NothingMissed(es, a, b);
    NoneMissed(Folded(m, b.findings, b).entries, seen, b);
  }

  lemma MergedIsSteady(es: seq<Entry>, a: MergeArgs)
    requires Unique(es)
    ensures Steady(Merged(es, a), SeenNow(a.findings))
  {
    hide Merged, IndexOf, Folded, NotifySet;
    FoldedIsSteady(es, a.findings, a);
    FoldedUnique(es, a.findings, a);
    forall fp | fp in SeenNow(a.findings)
      ensures Lookup(Merged(es, a), fp).Some? && Outstanding(Lookup(Merged(es, a), fp).value)
    {
      MergedLookup(es, a, fp);
      assert Lookup(Folded(es, a.findings, a).entries, fp).value.fp == fp;
    }
  }

  /** What the second of two equal reports folds to leaves nothing to resolve. */
  lemma NothingMissed(es: seq<Entry>, a: MergeArgs, b: MergeArgs)
    requires Unique(es) && Unique(Merged(es, a)) && b.findings == a.findings && b.covered == a.covered
    ensures forall e :: e in Folded(Merged(es, a), b.findings, b).entries ==> !Missed(e, SeenNow(a.findings), b.covered)
  {
    hide Merged, IndexOf, Folded;
    var m, seen := Merged(es, a), SeenNow(a.findings);
    FoldedUnique(m, b.findings, b);
    var d := Folded(m, b.findings, b);
    forall e | e in d.entries ensures !Missed(e, seen, b.covered) {
      var k :| 0 <= k < |d.entries| && d.entries[k] == e;
      LookupIs(d.entries, k);
      if e.fp !in seen {
        FoldedKeepsUnseen(m, b.findings, b, e.fp);
        UnseenEntriesAreKept(es, a, e.fp);
      }
    }
  }

  lemma {:induction false} FoldedUnique(es: seq<Entry>, fs: seq<Finding>, a: MergeArgs)
    requires Unique(es)
    ensures Unique(Folded(es, fs, a).entries)
  {
    if fs != [] {
      FoldedUnique(es, fs[..|fs| - 1], a);
      FoldOneLookup(Folded(es, fs[..|fs| - 1], a), fs[|fs| - 1], a, "");
    }
  }

  // ---------------------------------------------------------------- counting alerts

  lemma {:induction false} CountOfConcat(xs: seq<Entry>, ys: seq<Entry>, fp: string)
    ensures CountOf(xs + ys, fp) == CountOf(xs, fp) + CountOf(ys, fp)
  {
    if ys == [] {
      assert xs + ys == xs;
    } else {
      assert (xs + ys)[..|xs + ys| - 1] == xs + ys[..|ys| - 1];
      CountOfConcat(xs, ys[..|ys| - 1], fp);
    }
  }

  lemma CountOfOne(e: Entry, fp: string)
    ensures CountOf([e], fp) == if e.fp == fp then 1 else 0
  {
    assert [e][..0] == [];
  }

  lemma {:induction false} CountOfSorted(es: seq<Entry>, key: Entry -> int, fp: string)
    ensures CountOf(Sorted(es, key), fp) == CountOf(es, fp)
  {
    hide CountOf, Place;
    if es != [] {
      var e, rest := es[|es| - 1], es[..|es| - 1];
      var init := Sorted(rest, key);
      CountOfSorted(rest, key, fp);
      CountOfInserted(init, Place(e, init, key), e, fp);
      CountOfNext(rest, e, fp);
      assert es == rest + [e];
    }
  }

  lemma CountOfInserted(init: seq<Entry>, k: nat, e: Entry, fp: string)
    requires k <= |init|
    ensures CountOf(init[..k] + [e] + init[k..], fp) == CountOf(init, fp) + if e.fp == fp then 1 else 0
  {
    hide CountOf;
    var a, b := init[..k], init[k..];
    assert init == a + b;
    CountOfConcat(a, b, fp);
    CountOfConcat(a + [e], b, fp);
    CountOfNext(a, e, fp);
  }

  lemma {:induction false} CountOfKeep(es: seq<Entry>, p: Entry -> bool, fp: string)
    ensures CountOf(Keep(es, p), fp) <= CountOf(es, fp)
  {
    if es != [] {
      var e := es[|es| - 1];
      CountOfKeep(es[..|es| - 1], p, fp);
      CountOfConcat(Keep(es[..|es| - 1], p), if p(e) then [e] else [], fp);
      CountOfOne(e, fp);
    }
  }

  function TimesNamed(fs: seq<Finding>, fp: string): nat {
    if fs == [] then 0 else TimesNamed(fs[..|fs| - 1], fp) + if fs[|fs| - 1].fp == fp then 1 else 0
  }

  /** A report names each finding at most once, as the report parser guarantees. */
  ghost predicate NamesOnce(fs: seq<Finding>) {
    forall fp :: fp != "" ==> TimesNamed(fs, fp) <= 1
  }

  lemma {:induction false} TimesNamedSeen(fs: seq<Finding>, fp: string)
    requires fp != ""
    ensures TimesNamed(fs, fp) > 0 <==> fp in SeenNow(fs)
  {
    if fs != [] {
      TimesNamedSeen(fs[..|fs| - 1], fp);
      SeenNext(fs, |fs| - 1);
      assert fs[..|fs|] == fs;
    }
  }

  function Changes(d: Fold, fp: string): nat {
    CountOf(d.added, fp) + CountOf(d.updated, fp) + CountOf(d.reopened, fp)
  }

  lemma CountOfNext(es: seq<Entry>, e: Entry, fp: string)
    ensures CountOf(es + [e], fp) == CountOf(es, fp) + if e.fp == fp then 1 else 0
  {
    assert (es + [e])[..|es|] == es;
  }

  lemma FoldOneChanges(d: Fold, f: Finding, a: MergeArgs, fp: string)
    ensures Changes(FoldOne(d, f, a), fp) == Changes(d, fp) + if f.fp != "" && f.fp == fp then 1 else 0
  {
    var i := IndexOf(d.entries, f.fp);
    if f.fp != "" && i < 0 {
      CountOfNext(d.added, NewEntry(f, a), fp);
    } else if f.fp != "" {
      CountOfNext(d.updated, SeenAgain(d.entries[i], f, a), fp);
      CountOfNext(d.reopened, SeenAgain(d.entries[i], f, a), fp);
    }
  }

  lemma {:induction false} ChangesCount(es: seq<Entry>, fs: seq<Finding>, a: MergeArgs, fp: string)
    ensures Changes(Folded(es, fs, a), fp) == if fp == "" then 0 else TimesNamed(fs, fp)
  {
    if fs != [] {
      ChangesCount(es, fs[..|fs| - 1], a, fp);
      FoldOneChanges(Folded(es, fs[..|fs| - 1], a), fs[|fs| - 1], a, fp);
    }
  }

  lemma NotifyCount(es: seq<Entry>, a: MergeArgs, fp: string)
    ensures var d := Folded(es, a.findings, a);
      CountOf(NotifySet(d, a), fp) <= if fp == "" then 0 else TimesNamed(a.findings, fp)
  {
    hide Folded, Sorted, Keep, CountOf, TimesNamed;
    var d := Folded(es, a.findings, a);
    var news, again := Keep(d.added + d.reopened, LoudFor(a)), Keep(d.updated, DueFor(a));
    var sorted := Sorted(news + again, WorstFirst);
    ChangesCount(es, a.findings, a, fp);
    CountOfKeep(d.added + d.reopened, LoudFor(a), fp);
    CountOfKeep(d.updated, DueFor(a), fp);
    CountOfConcat(d.added, d.reopened, fp);
    CountOfConcat(news, again, fp);
    CountOfSorted(news + again, WorstFirst, fp);
    if 0 < a.maxNotify < |sorted| {
      CountOfConcat(sorted[..a.maxNotify], sorted[a.maxNotify..], fp);
      assert sorted == sorted[..a.maxNotify] + sorted[a.maxNotify..];
    }
  }

  lemma {:induction false} CountHas(es: seq<Entry>, i: nat)
    requires i < |es|
    ensures CountOf(es, es[i].fp) >= 1
  {
    if i < |es| - 1 {
      CountHas(es[..|es| - 1], i);
    }
  }

  lemma {:induction false} CountTwo(es: seq<Entry>, i: nat, j: nat)
    requires i < j < |es| && es[i].fp == es[j].fp
    ensures CountOf(es, es[i].fp) >= 2
  {
    var n := |es| - 1;
    if j < n {
      CountTwo(es[..n], i, j);
    } else {
      CountHas(es[..n], i);
    }
  }

  // ---------------------------------------------------------------- alerts keep their distance

  /** Alerts for a finding that did not resolve in between are at least `window` apart. */
  predicate Spaced(alerts: seq<Alert>, window: int) {
    forall i, j :: 0 <= i < j < |alerts| && alerts[i].fp == alerts[j].fp && alerts[i].epoch == alerts[j].epoch ==>
      alerts[j].at - alerts[i].at >= window
  }

  /** The ledger knows an alert: its entry has not gone back in epochs, nor its stamp in time. */
  predicate Known(al: Alert, e: Option<Entry>) {
    && e.Some? && al.epoch <= e.value.reopens
    && (al.epoch == e.value.reopens ==> e.value.notifiedAt.Some? && al.at <= e.value.notifiedAt.value)
  }

  ghost predicate AllKnown(w: World) {
    forall al :: al in w.alerts ==> Known(al, Lookup(w.entries, al.fp))
  }

  /** How a changed entry relates to the one before the pass. */
  predicate ChangedFrom(before: Option<Entry>, n: Entry) {
    match before
    case None => n.reopens == 0
    case Some(e) =>
      if e.status == Resolved then n.reopens == e.reopens + 1
      else n.reopens == e.reopens && n.notifiedAt == e.notifiedAt
  }

  lemma NamesOnceInit(fs: seq<Finding>)
    requires fs != [] && NamesOnce(fs)
    ensures NamesOnce(fs[..|fs| - 1])
    ensures fs[|fs| - 1].fp != "" ==> TimesNamed(fs[..|fs| - 1], fs[|fs| - 1].fp) == 0
  {
    var init := fs[..|fs| - 1];
    forall fp | fp != "" ensures TimesNamed(init, fp) <= 1 {
      assert TimesNamed(fs, fp) <= 1;
    }
    assert fs[|fs| - 1].fp != "" ==> TimesNamed(fs, fs[|fs| - 1].fp) <= 1;
  }

  predicate Changed(d: Fold, n: Entry) {
    n in d.added || n in d.updated || n in d.reopened
  }

  /** A change is what the fold left of its fingerprint, and its kind says what the ledger held before. */
  predicate ComesFrom(es: seq<Entry>, d: Fold, n: Entry) {
    var before := Lookup(es, n.fp);
    && Lookup(d.entries, n.fp) == Some(n) && ChangedFrom(before, n)
    && (n in d.updated ==> before.Some? && before.value.status != Resolved)
    && (n in d.added ==> before == None)
    && (n in d.reopened ==> before.Some? && before.value.status == Resolved)
  }

  lemma ChangeStep(es: seq<Entry>, d: Fold, f: Finding, a: MergeArgs, n: Entry)
    requires f.fp != "" ==> Lookup(d.entries, f.fp) == Lookup(es, f.fp)
    requires f.fp != "" ==> forall e :: Changed(d, e) ==> e.fp != f.fp
    requires Changed(d, n) ==> ComesFrom(es, d, n)
    requires Changed(FoldOne(d, f, a), n)
    ensures ComesFrom(es, FoldOne(d, f, a), n)
  {
    hide IndexOf;
    FoldOneLookup(d, f, a, n.fp);
    if Changed(d, n) {
      assert f.fp != "" ==> n.fp != f.fp;
    }
  }

  lemma {:induction false} ChangesComeFrom(es: seq<Entry>, fs: seq<Finding>, a: MergeArgs, n: Entry)
    requires NamesOnce(fs) && Changed(Folded(es, fs, a), n)
    ensures ComesFrom(es, Folded(es, fs, a), n)
  {
    if fs != [] {
      var init, f := fs[..|fs| - 1], fs[|fs| - 1];
      NamesOnceInit(fs);
      hide TimesNamed, IndexOf, FoldOne, ComesFrom, Lookup;
      ChangesAreSeen(es, init, a);
      if f.fp != "" {
        TimesNamedSeen(init, f.fp);
        assert TimesNamed(init, f.fp) == 0;
        FoldedKeepsUnseen(es, init, a, f.fp);
      }
      if Changed(Folded(es, init, a), n) {
        ChangesComeFrom(es, init, a, n);
      }
      ChangeStep(es, Folded(es, init, a), f, a, n);
    }
  }

  /** An alert comes at least the window after every earlier alert of its epoch. */
  lemma AlertIsDue(w: World, a: MergeArgs, n: Entry, al: Alert)
    requires AllKnown(w) && NamesOnce(a.findings) && n in NotifySet(Folded(w.entries, a.findings, a), a)
    requires al in w.alerts && al.fp == n.fp && al.epoch == n.reopens
    ensures a.now - al.at >= Window(a)
  {
    var d := Folded(w.entries, a.findings, a);
    NotifySetIsDue(d, a, n);
    ChangesComeFrom(w.entries, a.findings, a, n);
    assert Known(al, Lookup(w.entries, al.fp));
  }

  /** A fold keeps the epoch of an entry or moves it on, and keeps its stamp. */
  predicate Advances(e: Option<Entry>, g: Option<Entry>) {
    e.Some? ==> g.Some? && g.value.reopens >= e.value.reopens && g.value.notifiedAt == e.value.notifiedAt
  }

  lemma {:induction false} FoldedAdvances(es: seq<Entry>, fs: seq<Finding>, a: MergeArgs, fp: string)
    ensures Advances(Lookup(es, fp), Lookup(Folded(es, fs, a).entries, fp))
  {
    if fs != [] {
      FoldedAdvances(es, fs[..|fs| - 1], a, fp);
      FoldOneLookup(Folded(es, fs[..|fs| - 1], a), fs[|fs| - 1], a, fp);
    }
  }

  lemma OldAlertStaysKnown(w: World, a: MergeArgs, al: Alert)
    requires Unique(w.entries) && AllKnown(w) && NamesOnce(a.findings) && al in w.alerts
    ensures Known(al, Lookup(Merged(w.entries, a), al.fp))
  {
    hide Merged, Unique;
    var d := Folded(w.entries, a.findings, a);
    FoldedUnique(w.entries, a.findings, a);
    FoldedAdvances(w.entries, a.findings, a, al.fp);
    MergedLookup(w.entries, a, al.fp);
    assert Known(al, Lookup(w.entries, al.fp));
    if n :| n in NotifySet(d, a) && n.fp == al.fp {
      NotifySetIsDue(d, a, n);
      ChangesComeFrom(w.entries, a.findings, a, n);
      if al.epoch == n.reopens {
        AlertIsDue(w, a, n, al);
      }
    }
  }

  lemma NewAlertIsKnown(w: World, a: MergeArgs, n: Entry)
    requires Unique(w.entries) && NamesOnce(a.findings) && n in NotifySet(Folded(w.entries, a.findings, a), a)
    ensures Known(Alert(n.fp, a.now, n.reopens), Lookup(Merged(w.entries, a), n.fp))
  {
    var d := Folded(w.entries, a.findings, a);
    FoldedUnique(w.entries, a.findings, a);
    NotifySetIsDue(d, a, n);
    ChangesComeFrom(w.entries, a.findings, a, n);
    ChangesAreSeen(w.entries, a.findings, a);
    MergedLookup(w.entries, a, n.fp);
  }

  lemma PassKeepsKnown(w: World, a: MergeArgs)
    requires Unique(w.entries) && AllKnown(w) && NamesOnce(a.findings)
    ensures AllKnown(AfterPass(w, a))
  {
    var notify := NotifySet(Folded(w.entries, a.findings, a), a);
    var more := AlertsFor(notify, a.now);
    forall al | al in w.alerts + more ensures Known(al, Lookup(Merged(w.entries, a), al.fp)) {
      if al in w.alerts {
        OldAlertStaysKnown(w, a, al);
      } else {
        var k :| 0 <= k < |more| && more[k] == al;
        NewAlertIsKnown(w, a, notify[k]);
      }
    }
  }

  /** One pass sends at most one alert for a finding. */
  lemma NotifiesOnce(es: seq<Entry>, a: MergeArgs)
    requires NamesOnce(a.findings)
    ensures var notify := NotifySet(Folded(es, a.findings, a), a);
      forall i, j :: 0 <= i < j < |notify| ==> notify[i].fp != notify[j].fp
  {
    var notify := NotifySet(Folded(es, a.findings, a), a);
    forall i, j | 0 <= i < j < |notify| ensures notify[i].fp != notify[j].fp {
      NotifyCount(es, a, notify[i].fp);
      if notify[i].fp == notify[j].fp {
        CountTwo(notify, i, j);
      }
    }
  }

  lemma SpacedAppend(alerts: seq<Alert>, more: seq<Alert>, window: int)
    requires Spaced(alerts, window)
    requires forall i, j :: 0 <= i < j < |more| ==> more[i].fp != more[j].fp
    requires forall al, k :: al in alerts && 0 <= k < |more| && al.fp == more[k].fp && al.epoch == more[k].epoch ==>
      more[k].at - al.at >= window
    ensures Spaced(alerts + more, window)
  {
    var t, n := alerts + more, |alerts|;
    assert forall i :: n <= i < |t| ==> t[i] == more[i - n];
    forall i, j | 0 <= i < j < |t| && t[i].fp == t[j].fp && t[i].epoch == t[j].epoch
      ensures t[j].at - t[i].at >= window
    {
      if i < n <= j {
        assert t[i] in alerts;
      }
    }
  }

  lemma PassKeepsSpacing(w: World, a: MergeArgs)
    requires AllKnown(w) && Spaced(w.alerts, Window(a)) && NamesOnce(a.findings)
    ensures Spaced(AfterPass(w, a).alerts, Window(a))
  {
    var notify := NotifySet(Folded(w.entries, a.findings, a), a);
    var more := AlertsFor(notify, a.now);
    NotifiesOnce(w.entries, a);
    forall al, k | al in w.alerts && 0 <= k < |more| && al.fp == more[k].fp && al.epoch == more[k].epoch
      ensures more[k].at - al.at >= Window(a)
    {
      AlertIsDue(w, a, notify[k], al);
    }
    SpacedAppend(w.alerts, more, Window(a));
  }

  /** Every pass of a run uses one re-alert window and names each finding once. */
  ghost predicate Regular(steps: seq<Step>, window: int) {
    forall s :: s in steps && s.Pass? ==> Window(s.args) == window && NamesOnce(s.args.findings)
  }

  lemma DisposeKeepsKnown(w: World, s: Step)
    requires s.Dispose? && Unique(w.entries) && AllKnown(w)
    ensures AllKnown(AfterStep(w, s))
  {
    var i := FirstIndexOf(w.entries, s.fp);
    if i < |w.entries| {
      var after := Disposed(w.entries, i, s.disposition, s.reason, s.target, s.now);
      forall al | al in w.alerts ensures Known(al, Lookup(Sorted(after, FirstSeen), al.fp)) {
        DisposedLookup(w.entries, i, s.disposition, s.reason, s.target, s.now, al.fp);
        SortedLookup(after, FirstSeen, al.fp);
        LookupIs(w.entries, i);
        assert Known(al, Lookup(w.entries, al.fp));
      }
    }
  }

  /** In every such run, two alerts for a finding that stayed open are at least the window apart. */
  lemma {:induction false} AlertsAreSpaced(steps: seq<Step>, window: int)
    requires Regular(steps, window)
    ensures AllKnown(Run(steps)) && Spaced(Run(steps).alerts, window)
  {
    if steps != [] {
      var init, s := steps[..|steps| - 1], steps[|steps| - 1];
      assert forall x :: x in init ==> x in steps;
      AlertsAreSpaced(init, window);
      EveryRunIsSound(init);
      assert s in steps;
      match s {
        case Pass(a) =>
          PassKeepsSpacing(Run(init), a);
          PassKeepsKnown(Run(init), a);
        case Dispose(_, _, _, _, _) => DisposeKeepsKnown(Run(init), s);
      }
    }
  }

  // ---------------------------------------------------------------- a report that repeats itself

  /** Findings of a report at the threshold that name a fingerprint. */
  function TimesLoud(fs: seq<Finding>, fp: string, a: MergeArgs): nat {
    if fs == [] then 0
    else
      var f := fs[|fs| - 1];
      TimesLoud(fs[..|fs| - 1], fp, a)
      + if f.fp == fp && f.fp != "" && AtLeast(f.severity, Threshold(a)) then 1 else 0
  }

  /** On an empty ledger nothing has been alerted on and nothing can reopen. */
  predicate FirstFold(d: Fold) {
    && d.reopened == []
    && (forall e :: e in d.entries ==> e.notifiedAt == None && e.status != Resolved)
    && (forall e :: e in d.updated ==> e.notifiedAt == None)
  }

  lemma KeepNext(es: seq<Entry>, e: Entry, p: Entry -> bool, fp: string)
    ensures CountOf(Keep(es + [e], p), fp) == CountOf(Keep(es, p), fp) + if p(e) && e.fp == fp then 1 else 0
  {
    assert (es + [e])[..|es|] == es;
    CountOfConcat(Keep(es, p), if p(e) then [e] else [], fp);
    CountOfOne(e, fp);
  }

  lemma FirstFoldCounts(fs: seq<Finding>, a: MergeArgs, fp: string)
    ensures var d := Folded([], fs, a);
      && FirstFold(d)
      && CountOf(Keep(d.added, LoudFor(a)), fp) + CountOf(Keep(d.updated, DueFor(a)), fp) == TimesLoud(fs, fp, a)
  {
    hide FirstFold, Keep, CountOf, FoldOne;
    if fs == [] {
      NothingFolded(a, fp);
    } else {
      FirstFoldCounts(fs[..|fs| - 1], a, fp);
      FirstFoldStep(Folded([], fs[..|fs| - 1], a), fs[|fs| - 1], a, fp);
    }
  }

  lemma NothingFolded(a: MergeArgs, fp: string)
    ensures FirstFold(Fold([], [], [], []))
    ensures CountOf(Keep([], LoudFor(a)), fp) == 0 && CountOf(Keep([], DueFor(a)), fp) == 0
  {
  }

  lemma FirstFoldStep(d: Fold, f: Finding, a: MergeArgs, fp: string)
    requires FirstFold(d)
    ensures var t := FoldOne(d, f, a);
      && FirstFold(t)
      && CountOf(Keep(t.added, LoudFor(a)), fp) + CountOf(Keep(t.updated, DueFor(a)), fp)
         == CountOf(Keep(d.added, LoudFor(a)), fp) + CountOf(Keep(d.updated, DueFor(a)), fp)
            + if f.fp == fp && f.fp != "" && AtLeast(f.severity, Threshold(a)) then 1 else 0
  {
    hide Keep, CountOf, IndexOf, AtLeast, Threshold;
    var i := IndexOf(d.entries, f.fp);
    if f.fp != "" && i < 0 {
      KeepNext(d.added, NewEntry(f, a), LoudFor(a), fp);
    } else if f.fp != "" {
      assert d.entries[i] in d.entries;
      KeepNext(d.updated, SeenAgain(d.entries[i], f, a), DueFor(a), fp);
    }
  }

  lemma {:induction false} CountWitness(es: seq<Entry>, fp: string)
    requires CountOf(es, fp) >= 1
    ensures exists i :: 0 <= i < |es| && es[i].fp == fp
  {
    if es[|es| - 1].fp != fp {
      CountWitness(es[..|es| - 1], fp);
      var i :| 0 <= i < |es| - 1 && es[..|es| - 1][i].fp == fp;
      assert es[i].fp == fp;
    }
  }

  lemma {:induction false} CountTwoWitness(es: seq<Entry>, fp: string)
    requires CountOf(es, fp) >= 2
    ensures exists i, j :: 0 <= i < j < |es| && es[i].fp == es[j].fp == fp
  {
    var n := |es| - 1;
    if es[n].fp == fp {
      CountWitness(es[..n], fp);
      var i :| 0 <= i < n && es[..n][i].fp == fp;
      assert es[i].fp == es[n].fp == fp;
    } else {
      CountTwoWitness(es[..n], fp);
      var i, j :| 0 <= i < j < n && es[..n][i].fp == es[..n][j].fp == fp;
      assert es[i].fp == es[j].fp == fp;
    }
  }

  lemma FirstNotifyCounts(a: MergeArgs, fp: string)
    requires a.maxNotify <= 0
    ensures CountOf(NotifySet(Folded([], a.findings, a), a), fp) == TimesLoud(a.findings, fp, a)
  {
    var d := Folded([], a.findings, a);
    var news, again := Keep(d.added, LoudFor(a)), Keep(d.updated, DueFor(a));
    FirstFoldCounts(a.findings, a, fp);
    assert d.added + d.reopened == d.added;
    CountOfConcat(news, again, fp);
    CountOfSorted(news + again, WorstFirst, fp);
  }

  ghost predicate OnceEach(es: seq<Entry>) {
    forall fp :: CountOf(es, fp) <= 1
  }

  /** The report names no finding twice at the alert threshold. */
  ghost predicate LoudOnce(a: MergeArgs) {
    forall fp :: TimesLoud(a.findings, fp, a) <= 1
  }

  /** Alerts of one moment and one epoch are spaced exactly when no two share a fingerprint. */
  lemma MomentSpacedExactly(notify: seq<Entry>, now: int, window: int)
    requires window > 0 && forall n :: n in notify ==> n.reopens == 0
    ensures Spaced(AlertsFor(notify, now), window) <==> OnceEach(notify)
  {
    var alerts := AlertsFor(notify, now);
    if fp :| CountOf(notify, fp) >= 2 {
      CountTwoWitness(notify, fp);
      var i, j :| 0 <= i < j < |notify| && notify[i].fp == notify[j].fp == fp;
      assert alerts[i].fp == alerts[j].fp && alerts[i].epoch == alerts[j].epoch && alerts[j].at == alerts[i].at;
    } else {
      forall i, j | 0 <= i < j < |alerts| ensures alerts[i].fp != alerts[j].fp {
        if notify[i].fp == notify[j].fp {
          CountTwo(notify, i, j);
        }
      }
    }
  }

  lemma {:induction false} FirstEpoch(fs: seq<Finding>, a: MergeArgs)
    ensures var d := Folded([], fs, a);
      && d.reopened == []
      && (forall e :: e in d.entries || e in d.added || e in d.updated ==> e.reopens == 0 && e.status != Resolved)
  {
    if fs != [] {
      FirstEpoch(fs[..|fs| - 1], a);
      var d := Folded([], fs[..|fs| - 1], a);
      var i := IndexOf(d.entries, fs[|fs| - 1].fp);
      if i >= 0 {
        assert d.entries[i] in d.entries;
      }
    }
  }

  lemma FirstAlerts(a: MergeArgs)
    ensures AfterPass(EMPTY, a).alerts == AlertsFor(NotifySet(Folded([], a.findings, a), a), a.now)
  {
    var more := AlertsFor(NotifySet(Folded([], a.findings, a), a), a.now);
    assert EMPTY.alerts + more == more;
  }

  lemma FirstNotifyEpoch(a: MergeArgs)
    ensures forall n :: n in NotifySet(Folded([], a.findings, a), a) ==> n.reopens == 0
  {
    var d := Folded([], a.findings, a);
    FirstEpoch(a.findings, a);
    forall n | n in NotifySet(d, a) ensures n.reopens == 0 {
      NotifySetIsDue(d, a, n);
    }
  }

  lemma FirstCounts(a: MergeArgs)
    requires a.maxNotify <= 0
    ensures forall fp :: CountOf(NotifySet(Folded([], a.findings, a), a), fp) == TimesLoud(a.findings, fp, a)
  {
    forall fp ensures CountOf(NotifySet(Folded([], a.findings, a), a), fp) == TimesLoud(a.findings, fp, a) {
      FirstNotifyCounts(a, fp);
    }
  }

  lemma SpacedByCounts(alerts: seq<Alert>, notify: seq<Entry>, a: MergeArgs)
    requires alerts == AlertsFor(notify, a.now)
    requires forall n :: n in notify ==> n.reopens == 0
    requires forall fp :: CountOf(notify, fp) == TimesLoud(a.findings, fp, a)
    ensures Spaced(alerts, Window(a)) <==> LoudOnce(a)
  {
    hide Spaced, AlertsFor, CountOf, TimesLoud;
    MomentSpacedExactly(notify, a.now, Window(a));
    assert OnceEach(notify) <==> LoudOnce(a) by {
      if LoudOnce(a) {
        forall fp ensures CountOf(notify, fp) <= 1 {
          assert TimesLoud(a.findings, fp, a) <= 1;
        }
      }
      if OnceEach(notify) {
        forall fp ensures TimesLoud(a.findings, fp, a) <= 1 {
          assert CountOf(notify, fp) <= 1;
        }
      }
    }
  }

  /** On an empty ledger, with no cap on alerts, one report keeps its alerts apart exactly when it names
      no finding twice at the alert threshold. */
  lemma FirstReportSpacedExactly(a: MergeArgs)
    requires a.maxNotify <= 0
    ensures Spaced(AfterPass(EMPTY, a).alerts, Window(a)) <==> LoudOnce(a)
  {
    FirstAlerts(a);
    FirstNotifyEpoch(a);
    FirstCounts(a);
    SpacedByCounts(AfterPass(EMPTY, a).alerts, NotifySet(Folded([], a.findings, a), a), a);
  }
}
