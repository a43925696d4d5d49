/**
 What every run of audit passes and dispositions keeps in the ledger.
 */
module ResidueLaws {
  import opened Options
  import opened Residue
  import opened Numbers
  import opened Sequences

  // ---------------------------------------------------------------- one entry at a time

  predicate Unique(es: seq<Entry>) {
    forall i, j :: 0 <= i < j < |es| ==> es[i].fp != es[j].fp
  }

  function Lookup(es: seq<Entry>, fp: string): Option<Entry> {
    var i := IndexOf(es, fp);
    if i < 0 then None else Some(es[i])
  }

  lemma LookupIs(es: seq<Entry>, k: nat)
    requires Unique(es) && k < |es|
    ensures Lookup(es, es[k].fp) == Some(es[k]) && IndexOf(es, es[k].fp) == k
  {
    hide IndexOf;
  }

  /** What a reported finding makes of the entry with its fingerprint. */
  function Told(e: Option<Entry>, f: Finding, a: MergeArgs): Entry {
    match e case None => NewEntry(f, a) case Some(x) => SeenAgain(x, f, a)
  }

  lemma FoldOneLookup(d: Fold, f: Finding, a: MergeArgs, fp: string)
    ensures Lookup(FoldOne(d, f, a).entries, fp)
         == if f.fp != "" && fp == f.fp then Some(Told(Lookup(d.entries, fp), f, a)) else Lookup(d.entries, fp)
    ensures Unique(d.entries) ==> Unique(FoldOne(d, f, a).entries)
  {
    hide IndexOf;
    if f.fp != "" {
      var i := IndexOf(d.entries, f.fp);
      if i < 0 {
        IndexOfAppend(d.entries, NewEntry(f, a), fp);
      } else {
        IndexOfSameFingerprints(d.entries, d.entries[i := SeenAgain(d.entries[i], f, a)], fp);
      }
    }
  }

  lemma AbsenceLookup(es: seq<Entry>, seen: set<string>, a: MergeArgs, fp: string)
    ensures var e := Lookup(es, fp);
      Lookup(AfterAbsence(es, seen, a), fp)
      == if e.Some? && Missed(e.value, seen, a.covered) then Some(Resolve(e.value, a)) else e
    ensures Unique(es) ==> Unique(AfterAbsence(es, seen, a))
  {
    IndexOfSameFingerprints(es, AfterAbsence(es, seen, a), fp);
  }

  lemma StampLookup(es: seq<Entry>, fps: set<string>, a: MergeArgs, fp: string)
    ensures var e := Lookup(es, fp);
      Lookup(Stamped(es, fps, a), fp)
      == if e.Some? && fp in fps then Some(e.value.(notifiedAt := Some(a.now))) else e
    ensures Unique(es) ==> Unique(Stamped(es, fps, a))
  {
    IndexOfSameFingerprints(es, Stamped(es, fps, a), fp);
  }

  // ---------------------------------------------------------------- sorting the file

  lemma {:induction false} LookupConcat(xs: seq<Entry>, ys: seq<Entry>, fp: string)
    ensures Lookup(xs + ys, fp) == if Lookup(ys, fp).Some? then Lookup(ys, fp) else Lookup(xs, fp)
  {
    if ys == [] {
      assert xs + ys == xs;
    } else {
      var n := |ys| - 1;
      assert xs + ys == (xs + ys[..n]) + [ys[n]] && ys == ys[..n] + [ys[n]];
      LookupConcat(xs, ys[..n], fp);
      IndexOfAppend(xs + ys[..n], ys[n], fp);
      IndexOfAppend(ys[..n], ys[n], fp);
    }
  }

  function Inserted(init: seq<Entry>, k: nat, e: Entry): seq<Entry>
    requires k <= |init|
  {
    init[..k] + [e] + init[k..]
  }

  lemma AbsentLookup(es: seq<Entry>, fp: string)
    ensures Lookup(es, fp) == None <==> fp !in Fingerprints(es)
  {
    if i: nat :| i < |es| && es[i].fp == fp {
      assert es[i] in es;
    }
  }

  lemma InsertedLookup(init: seq<Entry>, k: nat, e: Entry, fp: string)
    requires Unique(init) && k <= |init| && e.fp !in Fingerprints(init)
    ensures Lookup(Inserted(init, k, e), fp) == if fp == e.fp then Some(e) else Lookup(init, fp)
  {
    var a, b := init[..k], init[k..];
    assert init == a + b;
    LookupConcat(a, b, fp);
    LookupConcat(a + [e], b, fp);
    IndexOfAppend(a, e, fp);
    AbsentLookup(init, e.fp);
  }

  lemma FingerprintsConcat(xs: seq<Entry>, ys: seq<Entry>)
    ensures Fingerprints(xs + ys) == Fingerprints(xs) + Fingerprints(ys)
  {
  }

  lemma FingerprintsOne(e: Entry)
    ensures Fingerprints([e]) == {e.fp}
  {
    assert e in [e];
  }

  lemma InsertedFingerprints(init: seq<Entry>, k: nat, e: Entry)
    requires k <= |init|
    ensures Fingerprints(Inserted(init, k, e)) == Fingerprints(init) + {e.fp}
  {
    FingerprintsConcat(init[..k], init[k..]);
    FingerprintsConcat(init[..k] + [e], init[k..]);
    FingerprintsConcat(init[..k], [e]);
    FingerprintsOne(e);
    assert init == init[..k] + init[k..];
  }

  lemma InsertedCounts(init: seq<Entry>, k: nat, e: Entry)
    requires k <= |init|
    ensures CountOpen(Inserted(init, k, e)) == CountOpen(init) + if Outstanding(e) then 1 else 0
  {
    var a, b := init[..k], init[k..];
    assert init == a + b;
    CountOpenConcat(a, b);
    CountOpenConcat(a + [e], b);
    CountOpenConcat(a, [e]);
    assert [e][..0] == [];
  }

  lemma {:induction false} SortedCounts(es: seq<Entry>, key: Entry -> int)
    ensures CountOpen(Sorted(es, key)) == CountOpen(es)
  {
    if es != [] {
      var init := Sorted(es[..|es| - 1], key);
      SortedCounts(es[..|es| - 1], key);
      InsertedCounts(init, Place(es[|es| - 1], init, key), es[|es| - 1]);
    }
  }

  lemma {:induction false} SortedFingerprints(es: seq<Entry>, key: Entry -> int)
    ensures Fingerprints(Sorted(es, key)) == Fingerprints(es)
    ensures Unique(es) ==> Unique(Sorted(es, key))
  {
    if es != [] {
      var e, rest := es[|es| - 1], es[..|es| - 1];
      var init := Sorted(rest, key);
      SortedFingerprints(rest, key);
      InsertedFingerprints(init, Place(e, init, key), e);
      assert es == rest + [e];
      FingerprintsConcat(rest, [e]);
      FingerprintsOne(e);
      if Unique(es) {
        InsertUnique(init, Place(e, init, key), e);
        assert e.fp !in Fingerprints(rest);
      }
    }
  }

  lemma NewFingerprint(es: seq<Entry>)
    requires es != [] && Unique(es)
    ensures es[|es| - 1].fp !in Fingerprints(es[..|es| - 1])
  {
  }

  /** Putting the ledger in file order changes no entry and loses none. */
  lemma {:induction false} SortedLookup(es: seq<Entry>, key: Entry -> int, fp: string)
    requires Unique(es)
    ensures Lookup(Sorted(es, key), fp) == Lookup(es, fp)
  {
    hide IndexOf, Place, Fingerprints;
    if es != [] {
      var e, rest := es[|es| - 1], es[..|es| - 1];
      var init := Sorted(rest, key);
      SortedLookup(rest, key, fp);
      SortedFingerprints(rest, key);
      NewFingerprint(es);
      InsertedLookup(init, Place(e, init, key), e, fp);
      assert es == rest + [e];
      IndexOfAppend(rest, e, fp);
    }
  }

  lemma InsertUnique(init: seq<Entry>, k: nat, e: Entry)
    requires Unique(init) && k <= |init|
    ensures e.fp !in Fingerprints(init) ==> Unique(init[..k] + [e] + init[k..])
  {
    if e.fp !in Fingerprints(init) {
      forall i | 0 <= i < |init| ensures init[i].fp != e.fp {
        assert init[i] in init;
      }
    }
  }

  lemma {:induction false} CountOpenConcat(xs: seq<Entry>, ys: seq<Entry>)
    ensures CountOpen(xs + ys) == CountOpen(xs) + CountOpen(ys)
  {
    if ys == [] {
      assert xs + ys == xs;
    } else {
      assert (xs + ys)[..|xs + ys| - 1] == xs + ys[..|ys| - 1];
      CountOpenConcat(xs, ys[..|ys| - 1]);
    }
  }

  // ---------------------------------------------------------------- history

  /** An alert that was sent for a fingerprint, with the number of times it had reopened by then. */
  datatype Alert = Alert(fp: string, at: int, epoch: nat)

  /** The ledger with what has ever happened: the worst rating and the number of resolutions of each
      fingerprint, and every alert in order. */
  datatype World = World(entries: seq<Entry>, worst: string -> nat, resolutions: string -> nat, alerts: seq<Alert>)

  const EMPTY := World([], fp => 0, fp => 0, [])

  function WorstIn(fs: seq<Finding>, fp: string): nat {
    if fs == [] then 0
    else
      var f := fs[|fs| - 1];
      var before := WorstIn(fs[..|fs| - 1], fp);
      if f.fp != "" && f.fp == fp then Max(before, f.severity) else before
  }

  function CountOf(es: seq<Entry>, fp: string): nat {
    if es == [] then 0 else CountOf(es[..|es| - 1], fp) + if es[|es| - 1].fp == fp then 1 else 0
  }

  function AlertsFor(notify: seq<Entry>, now: int): (r: seq<Alert>)
    ensures |r| == |notify|
    ensures forall k :: 0 <= k < |r| ==> r[k] == Alert(notify[k].fp, now, notify[k].reopens)
  {
    seq(|notify|, k requires 0 <= k < |notify| => Alert(notify[k].fp, now, notify[k].reopens))
  }

  datatype Step =
    | Pass(args: MergeArgs)
    | Dispose(fp: string, disposition: Disposition, reason: string, target: string, now: int)

  function AfterPass(w: World, a: MergeArgs): World {
    var r := ResultOf(w.entries, a);
    World(Merged(w.entries, a),
          fp => Max(w.worst(fp), WorstIn(a.findings, fp)),
          fp => w.resolutions(fp) + CountOf(r.resolved, fp),
          w.alerts + AlertsFor(r.notify, a.now))
  }

  function AfterStep(w: World, s: Step): World {
    match s
    case Pass(a) => AfterPass(w, a)
    case Dispose(fp, disposition, reason, target, now) =>
      var i := FirstIndexOf(w.entries, fp);
      if fp == "" || disposition == Undisposed || (disposition == Ignored && reason == "") || i == |w.entries| then w
      else w.(entries := Sorted(Disposed(w.entries, i, disposition, reason, target, now), FirstSeen))
  }

  function Run(steps: seq<Step>): World {
    if steps == [] then EMPTY else AfterStep(Run(steps[..|steps| - 1]), steps[|steps| - 1])
  }

  /** What the ledger says about a fingerprint, against its history. */
  predicate Agrees(e: Option<Entry>, worst: nat, resolutions: nat) {
    match e
    case None => worst == 0 && resolutions == 0
    case Some(x) =>
      && (x.resolvedAt.Some? <==> x.status == Resolved)
      && x.severity <= x.maxSeverity == worst
      && resolutions == x.reopens + if x.status == Resolved then 1 else 0
  }

  ghost predicate Sound(w: World) {
    Unique(w.entries) && forall fp :: Agrees(Lookup(w.entries, fp), w.worst(fp), w.resolutions(fp))
  }

  lemma {:induction false} FoldedAgrees(w: World, fs: seq<Finding>, a: MergeArgs, fp: string)
    requires Unique(w.entries) && Agrees(Lookup(w.entries, fp), w.worst(fp), w.resolutions(fp))
    ensures Unique(Folded(w.entries, fs, a).entries)
    ensures Agrees(Lookup(Folded(w.entries, fs, a).entries, fp), Max(w.worst(fp), WorstIn(fs, fp)), w.resolutions(fp))
  {
    if fs != [] {
      FoldedAgrees(w, fs[..|fs| - 1], a, fp);
      FoldOneLookup(Folded(w.entries, fs[..|fs| - 1], a), fs[|fs| - 1], a, fp);
    }
  }

  lemma {:induction false} ResolvedOnce(es: seq<Entry>, seen: set<string>, a: MergeArgs, fp: string)
    requires Unique(es)
    ensures var e := Lookup(es, fp);
      CountOf(ResolvedBy(es, seen, a), fp) == if e.Some? && Missed(e.value, seen, a.covered) then 1 else 0
  {
    if es != [] {
      var n := |es| - 1;
      var init := ResolvedBy(es[..n], seen, a);
      ResolvedOnce(es[..n], seen, a, fp);
      assert es == es[..n] + [es[n]];
      IndexOfAppend(es[..n], es[n], fp);
      assert es[n].fp == fp ==> Lookup(es[..n], fp) == None;
      if Missed(es[n], seen, a.covered) {
        assert (init + [Resolve(es[n], a)])[..|init|] == init;
      } else {
        assert ResolvedBy(es, seen, a) == init;
      }
    }
  }

  /** A pass on one fingerprint: fold, then absence, then the alert stamp; file order changes nothing. */
  function PassedOn(e: Option<Entry>, seen: set<string>, fps: set<string>, fp: string, a: MergeArgs): Option<Entry> {
    var r := if e.Some? && Missed(e.value, seen, a.covered) then Some(Resolve(e.value, a)) else e;
    if r.Some? && fp in fps then Some(r.value.(notifiedAt := Some(a.now))) else r
  }

  lemma {:induction false} MergedLookup(es: seq<Entry>, a: MergeArgs, fp: string)
    requires Unique(Folded(es, a.findings, a).entries)
    ensures var d := Folded(es, a.findings, a);
      && Unique(Merged(es, a))
      && Lookup(Merged(es, a), fp)
         == PassedOn(Lookup(d.entries, fp), SeenNow(a.findings), Fingerprints(NotifySet(d, a)), fp, a)
  {
    var d := Folded(es, a.findings, a);
    var after := AfterAbsence(d.entries, SeenNow(a.findings), a);
    var fps := Fingerprints(NotifySet(d, a));
    AbsenceLookup(d.entries, SeenNow(a.findings), a, fp);
    StampLookup(after, fps, a, fp);
    SortedFingerprints(Stamped(after, fps, a), FirstSeen);
    SortedLookup(Stamped(after, fps, a), FirstSeen, fp);
  }

  lemma PassAgrees(w: World, a: MergeArgs, fp: string)
    requires Unique(w.entries) && Agrees(Lookup(w.entries, fp), w.worst(fp), w.resolutions(fp))
    ensures Unique(Merged(w.entries, a))
    ensures Agrees(Lookup(Merged(w.entries, a), fp), Max(w.worst(fp), WorstIn(a.findings, fp)),
                   w.resolutions(fp) + CountOf(ResultOf(w.entries, a).resolved, fp))
  {
    hide Folded, Merged, Lookup, CountOf, WorstIn, NotifySet;
    FoldedAgrees(w, a.findings, a, fp);
    ResolvedOnce(Folded(w.entries, a.findings, a).entries, SeenNow(a.findings), a, fp);
    MergedLookup(w.entries, a, fp);
  }

  /** Every merge keeps the ledger in agreement with its history. */
  lemma PassKeepsSound(w: World, a: MergeArgs)
    requires Sound(w)
    ensures Sound(AfterPass(w, a))
  {
    hide Merged, Lookup, Agrees, Unique, ResultOf, WorstIn, CountOf;
    var t := AfterPass(w, a);
    PassAgrees(w, a, "");
    forall fp ensures Agrees(Lookup(t.entries, fp), t.worst(fp), t.resolutions(fp)) {
      PassAgrees(w, a, fp);
    }
  }

  lemma DisposedLookup(es: seq<Entry>, i: nat, disposition: Disposition, reason: string, target: string, now: int, fp: string)
    requires Unique(es) && i < |es|
    ensures var after := Disposed(es, i, disposition, reason, target, now);
      Unique(after) && Lookup(after, fp) == if fp == es[i].fp then Some(after[i]) else Lookup(es, fp)
  {
    IndexOfSameFingerprints(es, Disposed(es, i, disposition, reason, target, now), fp);
  }

  lemma StepKeepsSound(w: World, s: Step)
    requires Sound(w)
    ensures Sound(AfterStep(w, s))
  {
    hide Sound;
    match s {
      case Pass(a) => PassKeepsSound(w, a);
      case Dispose(fp, disposition, reason, target, now) =>
        if FirstIndexOf(w.entries, fp) < |w.entries| {
          DisposeKeepsSound(w, FirstIndexOf(w.entries, fp), disposition, reason, target, now);
        }
    }
  }

  lemma DisposeKeepsSound(w: World, i: nat, disposition: Disposition, reason: string, target: string, now: int)
    requires Sound(w) && i < |w.entries|
    ensures Sound(w.(entries := Sorted(Disposed(w.entries, i, disposition, reason, target, now), FirstSeen)))
  {
    hide Sorted;
    var after := Disposed(w.entries, i, disposition, reason, target, now);
    DisposedLookup(w.entries, i, disposition, reason, target, now, "");
    SortedFingerprints(after, FirstSeen);
    forall q ensures Agrees(Lookup(Sorted(after, FirstSeen), q), w.worst(q), w.resolutions(q)) {
      DisposedLookup(w.entries, i, disposition, reason, target, now, q);
      SortedLookup(after, FirstSeen, q);
    }
  }

  /** In every run fingerprints stay unique, an entry carries a resolution time exactly while resolved,
      remembers the worst rating ever given, and has been resolved once per reopening, and once more
      while resolved. */
  lemma {:induction false} EveryRunIsSound(steps: seq<Step>)
    ensures Sound(Run(steps))
  {
    if steps != [] {
      EveryRunIsSound(steps[..|steps| - 1]);
      StepKeepsSound(Run(steps[..|steps| - 1]), steps[|steps| - 1]);
    }
  }

  // ---------------------------------------------------------------- the balance of open entries

  lemma CountOpenUpdate(es: seq<Entry>, i: nat, e: Entry)
    requires i < |es|
    ensures CountOpen(es[i := e]) + (if Outstanding(es[i]) then 1 else 0) == CountOpen(es) + if Outstanding(e) then 1 else 0
  {
    var a, b := es[..i], es[i + 1..];
    assert es == a + [es[i]] + b && es[i := e] == a + [e] + b;
    CountOpenConcat(a + [es[i]], b);
    CountOpenConcat(a + [e], b);
    CountOpenConcat(a, [es[i]]);
    CountOpenConcat(a, [e]);
    assert [e][..0] == [] && [es[i]][..0] == [];
  }

  lemma FoldOneBalance(d: Fold, f: Finding, a: MergeArgs)
    ensures var t := FoldOne(d, f, a);
      CountOpen(t.entries) - |t.added| - |t.reopened| == CountOpen(d.entries) - |d.added| - |d.reopened|
  {
    var i := IndexOf(d.entries, f.fp);
    if f.fp != "" {
      if i < 0 {
        CountOpenConcat(d.entries, [NewEntry(f, a)]);
        assert [NewEntry(f, a)][..0] == [];
      } else {
        CountOpenUpdate(d.entries, i, SeenAgain(d.entries[i], f, a));
      }
    }
  }

  lemma {:induction false} FoldedBalance(es: seq<Entry>, fs: seq<Finding>, a: MergeArgs)
    ensures var d := Folded(es, fs, a); CountOpen(d.entries) == CountOpen(es) + |d.added| + |d.reopened|
  {
    if fs != [] {
      FoldedBalance(es, fs[..|fs| - 1], a);
      FoldOneBalance(Folded(es, fs[..|fs| - 1], a), fs[|fs| - 1], a);
    }
  }

  lemma {:induction false} AbsenceBalance(es: seq<Entry>, seen: set<string>, a: MergeArgs)
    ensures CountOpen(AfterAbsence(es, seen, a)) + |ResolvedBy(es, seen, a)| == CountOpen(es)
  {
    if es != [] {
      var n := |es| - 1;
      AbsenceBalance(es[..n], seen, a);
      assert AfterAbsence(es, seen, a)[..n] == AfterAbsence(es[..n], seen, a);
    }
  }

  lemma {:induction false} CountOpenSame(xs: seq<Entry>, ys: seq<Entry>)
    requires |xs| == |ys| && forall k :: 0 <= k < |xs| ==> xs[k].status == ys[k].status
    ensures CountOpen(xs) == CountOpen(ys)
  {
    if xs != [] {
      CountOpenSame(xs[..|xs| - 1], ys[..|ys| - 1]);
    }
  }

  /** Outstanding after a pass = outstanding before + new + reopened - resolved, and it is what the pass reports. */
  lemma OpenTotalBalances(es: seq<Entry>, a: MergeArgs)
    ensures var r := ResultOf(es, a);
      && r.openTotal == CountOpen(Merged(es, a))
      && r.openTotal + |r.resolved| == CountOpen(es) + |r.added| + |r.reopened|
  {
    var d := Folded(es, a.findings, a);
    var after := AfterAbsence(d.entries, SeenNow(a.findings), a);
    FoldedBalance(es, a.findings, a);
    AbsenceBalance(d.entries, SeenNow(a.findings), a);
    CountOpenSame(after, Stamped(after, Fingerprints(NotifySet(d, a)), a));
    SortedCounts(MergedUnsorted(es, a), FirstSeen);
  }

  // ---------------------------------------------------------------- what a pass cannot touch

  lemma {:induction false} FoldedKeepsUnseen(es: seq<Entry>, fs: seq<Finding>, a: MergeArgs, fp: string)
    requires fp !in SeenNow(fs)
    ensures Lookup(Folded(es, fs, a).entries, fp) == Lookup(es, fp)
    ensures Unique(es) ==> Unique(Folded(es, fs, a).entries)
  {
    if fs != [] {
      var init := fs[..|fs| - 1];
      assert forall f :: f in init ==> f in fs;
      assert fs[|fs| - 1] in fs;
      FoldedKeepsUnseen(es, init, a, fp);
      FoldOneLookup(Folded(es, init, a), fs[|fs| - 1], a, fp);
    }
  }

  lemma {:induction false} KeepIsPart(es: seq<Entry>, p: Entry -> bool)
    ensures forall e :: e in Keep(es, p) <==> e in es && p(e)
  {
    if es != [] {
      KeepIsPart(es[..|es| - 1], p);
      assert es == es[..|es| - 1] + [es[|es| - 1]];
    }
  }

  lemma SortedIsPart(es: seq<Entry>, key: Entry -> int)
    ensures forall e :: e in Sorted(es, key) <==> e in es
  {
    SortedIs(es, key);
    forall e ensures e in Sorted(es, key) <==> e in es {
      assert e in Sorted(es, key) <==> e in multiset(Sorted(es, key));
      assert e in es <==> e in multiset(es);
    }
  }

  lemma NotifySetIsDue(d: Fold, a: MergeArgs, n: Entry)
    requires n in NotifySet(d, a)
    ensures ((n in d.added || n in d.reopened) && Loud(n, a)) || (n in d.updated && DueAgain(n, a))
  {
    KeepIsPart(d.added + d.reopened, LoudFor(a));
    KeepIsPart(d.updated, DueFor(a));
    var news, again := Keep(d.added + d.reopened, LoudFor(a)), Keep(d.updated, DueFor(a));
    SortedIsPart(news + again, WorstFirst);
    assert n in Sorted(news + again, WorstFirst);
    assert n in news + again;
    if n in news {
      assert LoudFor(a)(n);
    } else {
      assert DueFor(a)(n);
    }
  }

  lemma {:induction false} ChangesAreSeen(es: seq<Entry>, fs: seq<Finding>, a: MergeArgs)
    ensures var d := Folded(es, fs, a);
      forall e :: e in d.added || e in d.updated || e in d.reopened ==> e.fp in SeenNow(fs)
  {
    if fs != [] {
      var init, f := fs[..|fs| - 1], fs[|fs| - 1];
      ChangesAreSeen(es, init, a);
      assert fs == init + [f];
      assert SeenNow(init) <= SeenNow(fs);
      assert f.fp != "" ==> f.fp in SeenNow(fs);
    }
  }

  /** An entry that a pass did not see changes only by resolving, and only when the pass covered its scope. */
  lemma UnseenEntriesAreKept(es: seq<Entry>, a: MergeArgs, fp: string)
    requires Unique(es) && fp !in SeenNow(a.findings)
    ensures var e := Lookup(es, fp);
      Lookup(Merged(es, a), fp)
      == if e.Some? && Outstanding(e.value) && e.value.scope in a.covered then Some(Resolve(e.value, a)) else e
  {
    var d := Folded(es, a.findings, a);
    FoldedKeepsUnseen(es, a.findings, a, fp);
    ChangesAreSeen(es, a.findings, a);
    assert fp !in Fingerprints(NotifySet(d, a)) by {
      forall n | n in NotifySet(d, a) ensures n.fp != fp {
        NotifySetIsDue(d, a, n);
      }
    }
    MergedLookup(es, a, fp);
    var e := Lookup(es, fp);
    if e.Some? {
      assert e.value.fp == fp;
    }
  }
}
