/**
 What one audit pass does, told finding by finding: the entry it leaves, the kind of change it reports, and
 whether it alerts. Reports name each finding once, as the report parser guarantees.
 */
module ResiduePasses {
  import opened Options
  import opened Residue
  import opened ResidueLaws
  import opened ResidueAlerts
  import opened Sequences

  // ---------------------------------------------------------------- what a finding calls for

  /** A finding is alerted on when it is rated and at the threshold, and it is new, had been resolved, was never
      alerted on, or not within the window. */
  predicate Due(before: Option<Entry>, f: Finding, a: MergeArgs) {
    && f.severity > 0 && f.severity >= (if a.threshold.Some? then a.threshold.value else 5)
    && (|| before.None? || before.value.status == Resolved || before.value.notifiedAt.None?
        || a.now - before.value.notifiedAt.value >= (if a.renotify <= 0 then 86400 else a.renotify))
  }

  /** The entry of a finding that was reported. */
  predicate Reported(before: Option<Entry>, f: Finding, a: MergeArgs, alerted: bool, e: Entry) {
    && e.fp == f.fp && e.scope == f.scope && e.path == f.path && e.line == f.line && e.title == f.title
    && e.severity == f.severity && e.lastSeen == a.now && e.lastReport == a.reportID
    && match before
       case None =>
         && e.detail == f.detail && e.evidence == f.evidence && e.suggestion == f.suggestion
         && e.maxSeverity == f.severity && e.status == Open && e.firstSeen == a.now && e.resolvedAt == None
         && e.seenCount == 1 && e.reopens == 0 && e.notifiedAt == (if alerted then Some(a.now) else None)
         && e.disposition == Pending && e.dispositionAt == None && e.reason == "" && e.target == ""
       case Some(b) =>
         && e.detail == (if f.detail == "" then b.detail else f.detail)
         && e.evidence == (if f.evidence == "" then b.evidence else f.evidence)
         && e.suggestion == (if f.suggestion.None? then b.suggestion else f.suggestion)
         && e.maxSeverity == (if f.severity < b.maxSeverity then b.maxSeverity else f.severity)
         && e.status == (if b.status == Resolved then Reopened else Open)
         && e.firstSeen == b.firstSeen
         && e.resolvedAt == (if b.status == Resolved then None else b.resolvedAt)
         && e.seenCount == b.seenCount + 1
         && e.reopens == b.reopens + (if b.status == Resolved then 1 else 0)
         && e.notifiedAt == (if alerted then Some(a.now) else b.notifiedAt)
         && e.disposition == (if b.disposition == Undisposed || (b.status == Resolved && b.disposition == Ignored)
                              then Pending else b.disposition)
         && e.dispositionAt == b.dispositionAt && e.reason == b.reason && e.target == b.target
  }

  /** Finding `k` of a report, when it has a fingerprint. */
  predicate Names(fs: seq<Finding>, k: nat) {
    k < |fs| && fs[k].fp != ""
  }

  // ---------------------------------------------------------------- one finding through the fold

  predicate IsMember(e: Entry, es: seq<Entry>) {
    e in es
  }

  /** The change that a finding makes stands in the list of its kind, and is what the fold leaves of it. */
  predicate Filed(before: Option<Entry>, f: Finding, a: MergeArgs, d: Fold) {
    var e := Told(before, f, a);
    && Lookup(d.entries, f.fp) == Some(e)
    && (before.None? ==> IsMember(e, d.added))
    && (before.Some? && before.value.status == Resolved ==> IsMember(e, d.reopened))
    && (before.Some? && before.value.status != Resolved ==> IsMember(e, d.updated))
  }

  lemma FiledNow(d: Fold, f: Finding, a: MergeArgs)
    requires f.fp != ""
    ensures Filed(Lookup(d.entries, f.fp), f, a, FoldOne(d, f, a))
  {
    hide SeenAgain, NewEntry;
    FoldOneLookup(d, f, a, f.fp);
  }

  lemma FiledStays(before: Option<Entry>, g: Finding, d: Fold, f: Finding, a: MergeArgs)
    requires Filed(before, g, a, d) && f.fp != g.fp
    ensures Filed(before, g, a, FoldOne(d, f, a))
  {
    hide SeenAgain, NewEntry, Told, Lookup, IndexOf;
    FoldOneLookup(d, f, a, g.fp);
  }

  lemma {:induction false} NamedIsCounted(fs: seq<Finding>, k: nat)
    requires k < |fs|
    ensures TimesNamed(fs, fs[k].fp) >= 1
  {
    if k < |fs| - 1 {
      NamedIsCounted(fs[..|fs| - 1], k);
    }
  }

  lemma {:induction false} EachIsFiled(es: seq<Entry>, fs: seq<Finding>, a: MergeArgs, k: nat)
    requires NamesOnce(fs) && Names(fs, k)
    ensures Filed(Lookup(es, fs[k].fp), fs[k], a, Folded(es, fs, a))
  {
    hide Filed, FoldOne, TimesNamed, Lookup;
    var init, f := fs[..|fs| - 1], fs[|fs| - 1];
    NamesOnceInit(fs);
    if k < |init| {
      EachIsFiled(es, init, a, k);
      NamedIsCounted(init, k);
      FiledStays(Lookup(es, fs[k].fp), fs[k], Folded(es, init, a), f, a);
    } else {
      TimesNamedSeen(init, f.fp);
      FoldedKeepsUnseen(es, init, a, f.fp);
      FiledNow(Folded(es, init, a), f, a);
    }
  }

  // ---------------------------------------------------------------- the entry a pass leaves

  lemma {:induction false} SeenWhenNamed(fs: seq<Finding>, fp: string)
    ensures fp in SeenNow(fs) <==> exists k: nat :: Names(fs, k) && fs[k].fp == fp
  {
    if fp in SeenNow(fs) {
      var f :| f in fs && f.fp != "" && f.fp == fp;
      var k :| 0 <= k < |fs| && fs[k] == f;
      assert Names(fs, k);
    }
  }

  lemma ToldIsReported(before: Option<Entry>, f: Finding, a: MergeArgs, alerted: bool)
    requires before.Some? ==> before.value.fp == f.fp
    ensures var e := Told(before, f, a);
      Reported(before, f, a, alerted, if alerted then e.(notifiedAt := Some(a.now)) else e)
  {
  }

  /** Every entry of a reported finding, field by field. */
  lemma ReportedExactly(es: seq<Entry>, a: MergeArgs, k: nat)
    requires Unique(es) && NamesOnce(a.findings) && Names(a.findings, k)
    ensures var f := a.findings[k];
      var after := Lookup(Merged(es, a), f.fp);
      after.Some? && Reported(Lookup(es, f.fp), f, a, f.fp in Fingerprints(ResultOf(es, a).notify), after.value)
  {
    hide Reported, Told, NotifySet, Folded, Merged;
    var f := a.findings[k];
    FoldedUnique(es, a.findings, a);
    EachIsFiled(es, a.findings, a, k);
    MergedLookup(es, a, f.fp);
    SeenWhenNamed(a.findings, f.fp);
    ToldIsReported(Lookup(es, f.fp), f, a, f.fp in Fingerprints(ResultOf(es, a).notify));
  }

  /** Every entry of a finding that was not reported: it resolves when it stood in a covered scope, and is
      otherwise as it was. */
  lemma UnreportedExactly(es: seq<Entry>, a: MergeArgs, fp: string)
    requires Unique(es) && forall k :: 0 <= k < |a.findings| ==> a.findings[k].fp != fp || fp == ""
    ensures var before, after := Lookup(es, fp), Lookup(Merged(es, a), fp);
      after == if before.Some? && before.value.status != Resolved && before.value.scope in a.covered
               then Some(before.value.(status := Resolved, resolvedAt := Some(a.now), lastReport := a.reportID))
               else before
  {
    hide Merged;
    UnseenEntriesAreKept(es, a, fp);
  }

  // ---------------------------------------------------------------- the kinds of change

  lemma OneKind(es: seq<Entry>, a: MergeArgs, k: nat)
    requires NamesOnce(a.findings) && Names(a.findings, k)
    ensures var fp, r := a.findings[k].fp, ResultOf(es, a);
      && (fp in Fingerprints(r.added) <==> Lookup(es, fp).None?)
      && (fp in Fingerprints(r.reopened) <==> Lookup(es, fp).Some? && Lookup(es, fp).value.status == Resolved)
      && (fp in Fingerprints(r.updated) <==> Lookup(es, fp).Some? && Lookup(es, fp).value.status != Resolved)
  {
    hide Folded, Told, Lookup;
    var fp, d := a.findings[k].fp, Folded(es, a.findings, a);
    EachIsFiled(es, a.findings, a, k);
    LookupNames(es, fp);
    ToldKeepsName(Lookup(es, fp), a.findings[k], a);
    forall n | Changed(d, n) && n.fp == fp ensures ComesFrom(es, d, n) {
      ChangesComeFrom(es, a.findings, a, n);
    }
  }

  lemma LookupNames(es: seq<Entry>, fp: string)
    ensures Lookup(es, fp).Some? ==> Lookup(es, fp).value.fp == fp
  {
  }

  lemma ToldKeepsName(before: Option<Entry>, f: Finding, a: MergeArgs)
    requires before.Some? ==> before.value.fp == f.fp
    ensures Told(before, f, a).fp == f.fp
  {
  }

  /** The findings that a pass resolves stood, were not reported, and lie in a covered scope; each once. */
  lemma ResolvedExactly(es: seq<Entry>, a: MergeArgs, fp: string)
    requires Unique(es)
    ensures CountOf(ResultOf(es, a).resolved, fp) ==
      if fp !in SeenNow(a.findings) && Lookup(es, fp).Some? && Lookup(es, fp).value.status != Resolved
         && Lookup(es, fp).value.scope in a.covered then 1 else 0
  {
    hide Lookup, Folded, CountOf;
    var d := Folded(es, a.findings, a);
    FoldedUnique(es, a.findings, a);
    ResolvedOnce(d.entries, SeenNow(a.findings), a, fp);
    LookupNames(d.entries, fp);
    if fp !in SeenNow(a.findings) {
      FoldedKeepsUnseen(es, a.findings, a, fp);
    }
  }

  // ---------------------------------------------------------------- the alerts

  /** What the alerts are chosen from, worst first. */
  function Candidates(d: Fold, a: MergeArgs): seq<Entry> {
    Keep(d.added + d.reopened, LoudFor(a)) + Keep(d.updated, DueFor(a))
  }

  lemma CandidatesAre(d: Fold, a: MergeArgs, n: Entry)
    ensures n in Candidates(d, a) <==>
      ((n in d.added || n in d.reopened) && Loud(n, a)) || (n in d.updated && DueAgain(n, a))
  {
    KeepIsPart(d.added + d.reopened, LoudFor(a));
    KeepIsPart(d.updated, DueFor(a));
  }

  lemma ToldIsDue(before: Option<Entry>, f: Finding, a: MergeArgs)
    ensures var e := Told(before, f, a);
      Due(before, f, a) <==>
        Loud(e, a) && (before.None? || before.value.status == Resolved || DueAgain(e, a))
  {
  }

  /** A finding is among the candidates exactly when it is due. */
  lemma DueIsCandidate(es: seq<Entry>, a: MergeArgs, k: nat)
    requires NamesOnce(a.findings) && Names(a.findings, k)
    ensures var f, d := a.findings[k], Folded(es, a.findings, a);
      var e := Told(Lookup(es, f.fp), f, a);
      && e.fp == f.fp
      && (e in Candidates(d, a) <==> Due(Lookup(es, f.fp), f, a))
      && (forall n :: n in Candidates(d, a) && n.fp == f.fp ==> n == e)
  {
    hide Folded, Told, Lookup, Loud, DueAgain, Candidates, Due;
    var f, d := a.findings[k], Folded(es, a.findings, a);
    var before := Lookup(es, f.fp);
    var e := Told(before, f, a);
    LookupNames(es, f.fp);
    ToldKeepsName(before, f, a);
    EachIsFiled(es, a.findings, a, k);
    CandidatesAre(d, a, e);
    ToldIsDue(before, f, a);
    DueIsLoud(e, a);
    if Changed(d, e) {
      ChangesComeFrom(es, a.findings, a, e);
    }
    forall n | n in Candidates(d, a) && n.fp == f.fp ensures n == e {
      CandidatesAre(d, a, n);
      ChangesComeFrom(es, a.findings, a, n);
    }
  }

  predicate WorstStandFirst(es: seq<Entry>) {
    forall i, j :: 0 <= i < j < |es| ==> es[i].severity >= es[j].severity
  }

  lemma SortedByWorst(all: seq<Entry>)
    ensures var sorted := Sorted(all, WorstFirst);
      |sorted| == |all| && WorstStandFirst(sorted) && forall n :: n in sorted <==> n in all
  {
    hide Sorted;
    var sorted := Sorted(all, WorstFirst);
    SortedIs(all, WorstFirst);
    SortedIsPart(all, WorstFirst);
    assert |sorted| == |multiset(sorted)| == |multiset(all)| == |all|;
    forall i, j | 0 <= i < j < |sorted| ensures sorted[i].severity >= sorted[j].severity {
      assert WorstFirst(sorted[i]) <= WorstFirst(sorted[j]);
    }
  }

  lemma TopIsWorst(sorted: seq<Entry>, cut: nat)
    requires WorstStandFirst(sorted) && cut <= |sorted|
    ensures forall m, n :: m in sorted && m !in sorted[..cut] && n in sorted[..cut] ==> m.severity <= n.severity
  {
    assert sorted == sorted[..cut] + sorted[cut..];
    forall m, n | m in sorted && m !in sorted[..cut] && n in sorted[..cut] ensures m.severity <= n.severity {
      var i :| cut <= i < |sorted| && sorted[i] == m;
      var j :| 0 <= j < cut && sorted[j] == n;
    }
  }

  /** Alerts are candidates in the order of their severity; those left out are no worse than any that is sent. */
  lemma AlertsAreTheWorst(d: Fold, a: MergeArgs)
    ensures var all, notify := Candidates(d, a), NotifySet(d, a);
      && (forall n :: n in notify ==> n in all) && WorstStandFirst(notify)
      && |notify| == (if 0 < a.maxNotify < |all| then a.maxNotify else |all|)
      && (|notify| == |all| ==> forall n :: n in all ==> n in notify)
      && (forall m, n :: m in all && m !in notify && n in notify ==> m.severity <= n.severity)
  {
    hide Sorted, Candidates, NotifySet;
    var all := Candidates(d, a);
    var sorted, notify := Sorted(all, WorstFirst), NotifySet(d, a);
    NotifyIsCut(d, a);
    SortedByWorst(all);
    TopIsWorst(sorted, |notify|);
    assert sorted[..|sorted|] == sorted;
    assert notify == sorted[..|notify|];
  }

  lemma NotifyIsCut(d: Fold, a: MergeArgs)
    ensures var sorted := Sorted(Candidates(d, a), WorstFirst);
      NotifySet(d, a) == if 0 < a.maxNotify < |sorted| then sorted[..a.maxNotify] else sorted
  {
  }

  /** How many of the first `n` findings are due. */
  function DueCount(es: seq<Entry>, fs: seq<Finding>, a: MergeArgs): nat {
    if fs == [] then 0
    else
      var f := fs[|fs| - 1];
      DueCount(es, fs[..|fs| - 1], a) + if f.fp != "" && Due(Lookup(es, f.fp), f, a) then 1 else 0
  }

  lemma KeepGrows(es: seq<Entry>, e: Entry, p: Entry -> bool)
    ensures |Keep(es + [e], p)| == |Keep(es, p)| + if p(e) then 1 else 0
  {
    assert (es + [e])[..|es|] == es;
  }

  lemma {:induction false} KeepSplits(xs: seq<Entry>, ys: seq<Entry>, p: Entry -> bool)
    ensures |Keep(xs + ys, p)| == |Keep(xs, p)| + |Keep(ys, p)|
  {
    if ys == [] {
      assert xs + ys == xs;
    } else {
      var init, e := ys[..|ys| - 1], ys[|ys| - 1];
      KeepSplits(xs, init, p);
      assert xs + ys == (xs + init) + [e] && ys == init + [e];
      KeepGrows(xs + init, e, p);
      KeepGrows(init, e, p);
    }
  }

  function Size(d: Fold, a: MergeArgs): nat {
    |Keep(d.added, LoudFor(a))| + |Keep(d.reopened, LoudFor(a))| + |Keep(d.updated, DueFor(a))|
  }

  lemma SizeGrows(d: Fold, f: Finding, a: MergeArgs)
    ensures Size(FoldOne(d, f, a), a)
         == Size(d, a) + if f.fp != "" && Due(Lookup(d.entries, f.fp), f, a) then 1 else 0
  {
    hide Keep, Due, Loud, DueAgain;
    if f.fp != "" {
      var before := Lookup(d.entries, f.fp);
      var e := Told(before, f, a);
      ToldIsDue(before, f, a);
      DueIsLoud(e, a);
      KeepGrows(d.added, e, LoudFor(a));
      KeepGrows(d.reopened, e, LoudFor(a));
      KeepGrows(d.updated, e, DueFor(a));
    }
  }

  lemma DueIsLoud(e: Entry, a: MergeArgs)
    ensures DueAgain(e, a) ==> Loud(e, a)
  {
  }

  lemma {:induction false} DueFindings(es: seq<Entry>, fs: seq<Finding>, a: MergeArgs)
    requires NamesOnce(fs)
    ensures Size(Folded(es, fs, a), a) == DueCount(es, fs, a)
  {
    hide Size, Due, Lookup, TimesNamed, FoldOne;
    if fs == [] {
      NothingDue(a);
    } else {
      var init, f := fs[..|fs| - 1], fs[|fs| - 1];
      NamesOnceInit(fs);
      DueFindings(es, init, a);
      SizeGrows(Folded(es, init, a), f, a);
      if f.fp != "" {
        TimesNamedSeen(init, f.fp);
        FoldedKeepsUnseen(es, init, a, f.fp);
      }
    }
  }

  lemma NothingDue(a: MergeArgs)
    ensures Size(Fold([], [], [], []), a) == 0
    ensures forall es :: Size(Fold(es, [], [], []), a) == 0
  {
  }

  lemma CandidatesSize(d: Fold, a: MergeArgs)
    ensures |Candidates(d, a)| == Size(d, a)
  {
    KeepSplits(d.added, d.reopened, LoudFor(a));
  }

  /** A pass alerts on its worst due findings: each alert is for one that is due; as many are sent as are due, or
      as the maximum allows; and none that is left out is worse than one that is sent. */
  lemma AlertsExactly(es: seq<Entry>, a: MergeArgs, k: nat)
    requires NamesOnce(a.findings) && Names(a.findings, k)
    ensures var f, notify, due := a.findings[k], ResultOf(es, a).notify, DueCount(es, a.findings, a);
      && |notify| == (if 0 < a.maxNotify < due then a.maxNotify else due)
      && (f.fp in Fingerprints(notify) ==> Due(Lookup(es, f.fp), f, a))
      && (!(0 < a.maxNotify < due) ==> (f.fp in Fingerprints(notify) <==> Due(Lookup(es, f.fp), f, a)))
      && (Due(Lookup(es, f.fp), f, a) && f.fp !in Fingerprints(notify) ==>
            forall n :: n in notify ==> f.severity <= n.severity)
  {
    hide Folded, Told, Lookup, Candidates, Due, DueCount, NotifySet, Size;
    var f, d := a.findings[k], Folded(es, a.findings, a);
    var notify, all, e := NotifySet(d, a), Candidates(d, a), Told(Lookup(es, f.fp), f, a);
    DueIsCandidate(es, a, k);
    AlertsAreTheWorst(d, a);
    CandidatesSize(d, a);
    DueFindings(es, a.findings, a);
    ToldSeverity(Lookup(es, f.fp), f, a);
  }

  lemma ToldSeverity(before: Option<Entry>, f: Finding, a: MergeArgs)
    ensures Told(before, f, a).severity == f.severity
  {
  }

  /** The alerts of one pass stand worst first. */
  lemma AlertsInOrder(es: seq<Entry>, a: MergeArgs)
    ensures WorstStandFirst(ResultOf(es, a).notify)
  {
    AlertsAreTheWorst(Folded(es, a.findings, a), a);
  }

  // ---------------------------------------------------------------- the file

  /** The file is kept in the order in which findings were first seen. */
  lemma MergedInFileOrder(es: seq<Entry>, a: MergeArgs)
    ensures var file := Merged(es, a); forall i, j :: 0 <= i < j < |file| ==> file[i].firstSeen <= file[j].firstSeen
  {
    var unsorted, file := MergedUnsorted(es, a), Merged(es, a);
    SortedIs(unsorted, FirstSeen);
    forall i, j | 0 <= i < j < |file| ensures file[i].firstSeen <= file[j].firstSeen {
      assert FirstSeen(file[i]) <= FirstSeen(file[j]);
    }
  }

  /** Disposing of a finding sets its disposition, the time and, when given, reason and target, and touches no
      other entry. */
  lemma DisposedExactly(
    es: seq<Entry>, i: nat, disposition: Disposition, reason: string, target: string, now: int, fp: string)
    requires Unique(es) && i < |es|
    ensures var e, after := Lookup(es, fp), Lookup(Sorted(Disposed(es, i, disposition, reason, target, now), FirstSeen), fp);
      after == if fp != es[i].fp then e
               else Some(es[i].(disposition := disposition, dispositionAt := Some(now),
                                reason := if reason == "" then es[i].reason else reason,
                                target := if target == "" then es[i].target else target))
  {
    hide Lookup;
    DisposedLookup(es, i, disposition, reason, target, now, fp);
    SortedLookup(Disposed(es, i, disposition, reason, target, now), FirstSeen, fp);
  }
}
