/**
 The finding ledger: one entry for each fingerprint, merged with the report of every audit pass.
 Times are integers, severities are ladder positions (0 is unrated, 5 is critical), and fingerprints
 and reasons are already trimmed.
 */
module Residue {
  import opened Options
  import opened Sequences

  datatype Status = Open | Resolved | Reopened

  datatype Disposition = Undisposed | Pending | Filed | Ignored | Accepted

  datatype Entry = Entry(
    fp: string, scope: string, path: string, line: int, title: string, detail: string, evidence: string,
    severity: nat, maxSeverity: nat, status: Status,
    firstSeen: int, lastSeen: int, resolvedAt: Option<int>, seenCount: nat, reopens: nat,
    lastReport: string, notifiedAt: Option<int>, suggestion: Option<string>,
    disposition: Disposition, dispositionAt: Option<int>, reason: string, target: string)

  datatype Finding = Finding(
    fp: string, scope: string, path: string, line: int, title: string, detail: string, evidence: string,
    severity: nat, suggestion: Option<string>)

  datatype MergeArgs = MergeArgs(
    reportID: string, findings: seq<Finding>, covered: set<string>, threshold: Option<nat>, renotify: int,
    maxNotify: int, now: int)

  datatype MergeResult = MergeResult(
    added: seq<Entry>, updated: seq<Entry>, reopened: seq<Entry>, resolved: seq<Entry>, notify: seq<Entry>,
    openTotal: nat)

  const DAY := 86400

  predicate Outstanding(e: Entry) {
    e.status == Open || e.status == Reopened
  }

  function NewEntry(f: Finding, a: MergeArgs): Entry {
    Entry(f.fp, f.scope, f.path, f.line, f.title, f.detail, f.evidence, f.severity, f.severity, Open,
          a.now, a.now, None, 1, 0, a.reportID, None, f.suggestion, Pending, None, "", "")
  }

  function Either(s: string, t: string): string {
    if s != "" then s else t
  }

  /** An entry whose finding is reported again. */
  function SeenAgain(e: Entry, f: Finding, a: MergeArgs): Entry {
    var back := e.status == Resolved;
    e.(scope := f.scope, path := f.path, line := f.line, title := f.title,
       detail := Either(f.detail, e.detail), evidence := Either(f.evidence, e.evidence),
       severity := f.severity, maxSeverity := if f.severity > e.maxSeverity then f.severity else e.maxSeverity,
       lastSeen := a.now, seenCount := e.seenCount + 1, lastReport := a.reportID,
       suggestion := if f.suggestion.Some? then f.suggestion else e.suggestion,
       status := if back then Reopened else Open,
       reopens := if back then e.reopens + 1 else e.reopens,
       resolvedAt := if back then None else e.resolvedAt,
       disposition := if e.disposition == Undisposed || (back && e.disposition == Ignored) then Pending else e.disposition)
  }

  /** The last entry with a fingerprint, or -1. */
  function IndexOf(entries: seq<Entry>, fp: string): (i: int)
    ensures -1 <= i < |entries|
    ensures i >= 0 ==> entries[i].fp == fp
    ensures i == -1 <==> forall k :: 0 <= k < |entries| ==> entries[k].fp != fp
  {
    if entries == [] then -1
    else if entries[|entries| - 1].fp == fp then |entries| - 1
    else IndexOf(entries[..|entries| - 1], fp)
  }

  /** The ledger and the three kinds of change while the findings of a report are folded in. */
  datatype Fold = Fold(entries: seq<Entry>, added: seq<Entry>, updated: seq<Entry>, reopened: seq<Entry>)

  function FoldOne(d: Fold, f: Finding, a: MergeArgs): Fold {
    if f.fp == "" then d
    else
      var i := IndexOf(d.entries, f.fp);
      if i < 0 then d.(entries := d.entries + [NewEntry(f, a)], added := d.added + [NewEntry(f, a)])
      else
        var e := SeenAgain(d.entries[i], f, a);
        if d.entries[i].status == Resolved
        then d.(entries := d.entries[i := e], reopened := d.reopened + [e])
        else d.(entries := d.entries[i := e], updated := d.updated + [e])
  }

  function Folded(entries: seq<Entry>, fs: seq<Finding>, a: MergeArgs): Fold {
    if fs == [] then Fold(entries, [], [], [])
    else FoldOne(Folded(entries, fs[..|fs| - 1], a), fs[|fs| - 1], a)
  }

  function SeenNow(fs: seq<Finding>): set<string> {
    set f | f in fs && f.fp != "" :: f.fp
  }

  /** The pass could have seen the entry and did not. */
  predicate Missed(e: Entry, seen: set<string>, covered: set<string>) {
    e.fp !in seen && Outstanding(e) && e.scope in covered
  }

  function Resolve(e: Entry, a: MergeArgs): Entry {
    e.(status := Resolved, resolvedAt := Some(a.now), lastReport := a.reportID)
  }

  function AfterAbsence(entries: seq<Entry>, seen: set<string>, a: MergeArgs): (r: seq<Entry>)
    ensures |r| == |entries|
    ensures forall k :: 0 <= k < |entries| ==>
      r[k] == if Missed(entries[k], seen, a.covered) then Resolve(entries[k], a) else entries[k]
  {
    seq(|entries|, k requires 0 <= k < |entries| =>
      if Missed(entries[k], seen, a.covered) then Resolve(entries[k], a) else entries[k])
  }

  function ResolvedBy(entries: seq<Entry>, seen: set<string>, a: MergeArgs): seq<Entry> {
    if entries == [] then []
    else
      var e := entries[|entries| - 1];
      ResolvedBy(entries[..|entries| - 1], seen, a) + if Missed(e, seen, a.covered) then [Resolve(e, a)] else []
  }

  // ---------------------------------------------------------------- alerts

  predicate AtLeast(severity: nat, threshold: nat) {
    severity >= threshold && severity > 0
  }

  function Threshold(a: MergeArgs): nat {
    if a.threshold.Some? then a.threshold.value else 5
  }

  function Window(a: MergeArgs): int {
    if a.renotify <= 0 then DAY else a.renotify
  }

  predicate Loud(e: Entry, a: MergeArgs) {
    AtLeast(e.severity, Threshold(a))
  }

  predicate DueAgain(e: Entry, a: MergeArgs) {
    Loud(e, a) && (e.notifiedAt.None? || a.now - e.notifiedAt.value >= Window(a))
  }

  function Keep(es: seq<Entry>, p: Entry -> bool): seq<Entry> {
    if es == [] then [] else Keep(es[..|es| - 1], p) + if p(es[|es| - 1]) then [es[|es| - 1]] else []
  }

  function WorstFirst(e: Entry): int { -(e.severity as int) }

  function FirstSeen(e: Entry): int { e.firstSeen }

  function LoudFor(a: MergeArgs): Entry -> bool {
    (e: Entry) => Loud(e, a)
  }

  function DueFor(a: MergeArgs): Entry -> bool {
    (e: Entry) => DueAgain(e, a)
  }

  function NotifySet(d: Fold, a: MergeArgs): seq<Entry> {
    var sorted := Sorted(Keep(d.added + d.reopened, LoudFor(a)) + Keep(d.updated, DueFor(a)), WorstFirst);
    if 0 < a.maxNotify < |sorted| then sorted[..a.maxNotify] else sorted
  }

  function Fingerprints(es: seq<Entry>): set<string> {
    set e | e in es :: e.fp
  }

  /** Marks the entries that are alerted on now. */
  function Stamped(entries: seq<Entry>, fps: set<string>, a: MergeArgs): (r: seq<Entry>)
    ensures |r| == |entries|
    ensures forall k :: 0 <= k < |entries| ==>
      r[k] == if entries[k].fp in fps && IndexOf(entries, entries[k].fp) == k
              then entries[k].(notifiedAt := Some(a.now)) else entries[k]
  {
    seq(|entries|, k requires 0 <= k < |entries| =>
      if entries[k].fp in fps && IndexOf(entries, entries[k].fp) == k
      then entries[k].(notifiedAt := Some(a.now)) else entries[k])
  }

  function CountOpen(entries: seq<Entry>): nat {
    if entries == [] then 0
    else CountOpen(entries[..|entries| - 1]) + if Outstanding(entries[|entries| - 1]) then 1 else 0
  }

  /** The ledger after a pass, before it is put in file order. */
  function MergedUnsorted(entries: seq<Entry>, a: MergeArgs): seq<Entry> {
    var d := Folded(entries, a.findings, a);
    Stamped(AfterAbsence(d.entries, SeenNow(a.findings), a), Fingerprints(NotifySet(d, a)), a)
  }

  function Merged(entries: seq<Entry>, a: MergeArgs): seq<Entry> {
    Sorted(MergedUnsorted(entries, a), FirstSeen)
  }

  function ResultOf(entries: seq<Entry>, a: MergeArgs): MergeResult {
    var d := Folded(entries, a.findings, a);
    MergeResult(d.added, d.updated, d.reopened, ResolvedBy(d.entries, SeenNow(a.findings), a), NotifySet(d, a),
                CountOpen(MergedUnsorted(entries, a)))
  }

  /** The ledger once a finding has been disposed of. */
  function Disposed(entries: seq<Entry>, i: nat, disposition: Disposition, reason: string, target: string, now: int): seq<Entry>
    requires i < |entries|
  {
    var e := entries[i];
    entries[i := e.(disposition := disposition, dispositionAt := Some(now),
                    reason := Either(reason, e.reason), target := Either(target, e.target))]
  }

  function FirstIndexOf(entries: seq<Entry>, fp: string): (i: nat)
    ensures i <= |entries|
    ensures i < |entries| ==> entries[i].fp == fp
    ensures forall k :: 0 <= k < i ==> entries[k].fp != fp
  {
    if entries == [] || entries[0].fp == fp then 0 else 1 + FirstIndexOf(entries[1..], fp)
  }

  // ---------------------------------------------------------------- the store

  lemma IndexOfAppend(entries: seq<Entry>, e: Entry, fp: string)
    ensures IndexOf(entries + [e], fp) == if e.fp == fp then |entries| else IndexOf(entries, fp)
  {
    assert (entries + [e])[..|entries|] == entries;
  }

  lemma {:induction false} IndexOfSameFingerprints(xs: seq<Entry>, ys: seq<Entry>, fp: string)
    requires |xs| == |ys| && forall k :: 0 <= k < |xs| ==> xs[k].fp == ys[k].fp
    ensures IndexOf(xs, fp) == IndexOf(ys, fp)
  {
    if xs != [] {
      IndexOfSameFingerprints(xs[..|xs| - 1], ys[..|ys| - 1], fp);
    }
  }

  /** `byFP` is the index of the ledger by fingerprint. */
  ghost predicate Indexes(byFP: map<string, nat>, entries: seq<Entry>) {
    forall fp :: IndexOf(entries, fp) == if fp in byFP then byFP[fp] else -1
  }

  lemma IndexesAppend(byFP: map<string, nat>, entries: seq<Entry>, e: Entry)
    requires Indexes(byFP, entries)
    ensures Indexes(byFP[e.fp := |entries|], entries + [e])
  {
    forall fp ensures IndexOf(entries + [e], fp) == if fp == e.fp then |entries| else IndexOf(entries, fp) {
      IndexOfAppend(entries, e, fp);
    }
  }

  lemma IndexesUpdate(byFP: map<string, nat>, xs: seq<Entry>, ys: seq<Entry>)
    requires Indexes(byFP, xs) && |xs| == |ys| && forall k :: 0 <= k < |xs| ==> xs[k].fp == ys[k].fp
    ensures Indexes(byFP, ys)
  {
    forall fp ensures IndexOf(ys, fp) == IndexOf(xs, fp) {
      IndexOfSameFingerprints(xs, ys, fp);
    }
  }

  lemma FingerprintsNext(es: seq<Entry>, j: nat)
    requires j < |es|
    ensures Fingerprints(es[..j + 1]) == Fingerprints(es[..j]) + {es[j].fp}
  {
    assert es[..j + 1] == es[..j] + [es[j]];
  }

  lemma StampedInsert(es: seq<Entry>, fps: set<string>, fp: string, a: MergeArgs)
    ensures var i, stamped := IndexOf(es, fp), Stamped(es, fps, a);
      Stamped(es, fps + {fp}, a) == if i < 0 then stamped else stamped[i := stamped[i].(notifiedAt := Some(a.now))]
  {
    var i := IndexOf(es, fp);
    forall k | 0 <= k < |es| && es[k].fp == fp ensures IndexOf(es, es[k].fp) == k <==> k == i {
    }
  }

  lemma FoldedNext(es: seq<Entry>, fs: seq<Finding>, i: nat, a: MergeArgs)
    requires i < |fs|
    ensures Folded(es, fs[..i + 1], a) == FoldOne(Folded(es, fs[..i], a), fs[i], a)
  {
    assert fs[..i + 1][..i] == fs[..i];
  }

  lemma SeenNext(fs: seq<Finding>, i: nat)
    requires i < |fs|
    ensures SeenNow(fs[..i + 1]) == SeenNow(fs[..i]) + if fs[i].fp == "" then {} else {fs[i].fp}
  {
    assert fs[..i + 1] == fs[..i] + [fs[i]];
  }

  class Store {
    var entries: seq<Entry>

    constructor ()
      ensures entries == []
    {
      entries := [];
    }

    /** Folds one finding into the entries, the index and the three lists of changes. */
    method FoldFinding(f: Finding, a: MergeArgs, d: Fold, byFP: map<string, nat>) returns (d': Fold, byFP': map<string, nat>)
      requires Indexes(byFP, d.entries)
      ensures d' == FoldOne(d, f, a) && Indexes(byFP', d'.entries)
    {
      d', byFP' := d, byFP;
      if f.fp == "" {
        return;
      }
      assert IndexOf(d.entries, f.fp) == if f.fp in byFP then byFP[f.fp] else -1;
      if f.fp !in byFP {
        var e := NewEntry(f, a);
        IndexesAppend(byFP, d.entries, e);
        byFP' := byFP[f.fp := |d.entries|];
        d' := d.(entries := d.entries + [e], added := d.added + [e]);
        return;
      }
      var idx := byFP[f.fp];
      var e := SeenAgain(d.entries[idx], f, a);
      IndexesUpdate(byFP, d.entries, d.entries[idx := e]);
      if d.entries[idx].status == Resolved {
        d' := d.(entries := d.entries[idx := e], reopened := d.reopened + [e]);
      } else {
        d' := d.(entries := d.entries[idx := e], updated := d.updated + [e]);
      }
    }

    /** Resolves the entries the pass could have seen but did not. */
    method ResolveAbsent(es: seq<Entry>, seen: set<string>, a: MergeArgs) returns (after: seq<Entry>, resolved: seq<Entry>)
      ensures after == AfterAbsence(es, seen, a) && resolved == ResolvedBy(es, seen, a)
    {
      after, resolved := es, [];
      for i := 0 to |es|
        invariant |after| == |es|
        invariant forall k :: 0 <= k < |es| ==>
          after[k] == if k < i && Missed(es[k], seen, a.covered) then Resolve(es[k], a) else es[k]
        invariant resolved == ResolvedBy(es[..i], seen, a)
      {
        assert es[..i + 1][..i] == es[..i];
        if es[i].fp !in seen && Outstanding(es[i]) && es[i].scope in a.covered {
          after := after[i := Resolve(es[i], a)];
          resolved := resolved + [Resolve(es[i], a)];
        }
      }
      assert es[..|es|] == es;
    }

    /** New or reopened findings at the threshold, and open ones past the re-alert window; worst first. */
    method ChooseAlerts(d: Fold, a: MergeArgs) returns (notify: seq<Entry>)
      ensures notify == NotifySet(d, a)
    {
      var news := d.added + d.reopened;
      notify := [];
      for k := 0 to |news|
        invariant notify == Keep(news[..k], LoudFor(a))
      {
        assert news[..k + 1][..k] == news[..k];
        if AtLeast(news[k].severity, Threshold(a)) {
          notify := notify + [news[k]];
        }
      }
      assert news[..|news|] == news;
      ghost var first := notify;
      for k := 0 to |d.updated|
        invariant notify == first + Keep(d.updated[..k], DueFor(a))
      {
        assert d.updated[..k + 1][..k] == d.updated[..k];
        var e := d.updated[k];
        if AtLeast(e.severity, Threshold(a)) {
          if e.notifiedAt.None? || a.now - e.notifiedAt.value >= Window(a) {
            notify := notify + [e];
          }
        }
      }
      assert d.updated[..|d.updated|] == d.updated;
      notify := Sorted(notify, WorstFirst);
      if a.maxNotify > 0 && |notify| > a.maxNotify {
        notify := notify[..a.maxNotify];
      }
    }

    /** Records the alert time of every entry in the notify set. */
    method StampAlerts(es: seq<Entry>, notify: seq<Entry>, byFP: map<string, nat>, a: MergeArgs) returns (after: seq<Entry>)
      requires Indexes(byFP, es)
      ensures after == Stamped(es, Fingerprints(notify), a)
    {
      after := es;
      for j := 0 to |notify|
        invariant after == Stamped(es, Fingerprints(notify[..j]), a)
      {
        var fp := notify[j].fp;
        FingerprintsNext(notify, j);
        StampedInsert(es, Fingerprints(notify[..j]), fp, a);
        assert IndexOf(es, fp) == if fp in byFP then byFP[fp] else -1;
        if fp in byFP {
          after := after[byFP[fp] := after[byFP[fp]].(notifiedAt := Some(a.now))];
        }
      }
      assert notify[..|notify|] == notify;
    }

    method IndexByFingerprint(es: seq<Entry>) returns (byFP: map<string, nat>)
      ensures Indexes(byFP, es)
    {
      byFP := map[];
      for i := 0 to |es|
        invariant Indexes(byFP, es[..i])
      {
        IndexesAppend(byFP, es[..i], es[i]);
        assert es[..i + 1] == es[..i] + [es[i]];
        byFP := byFP[es[i].fp := i];
      }
      assert es[..|es|] == es;
    }

    method FoldFindings(es: seq<Entry>, index: map<string, nat>, a: MergeArgs)
      returns (d: Fold, byFP: map<string, nat>, seen: set<string>)
      requires Indexes(index, es)
      ensures d == Folded(es, a.findings, a) && seen == SeenNow(a.findings) && Indexes(byFP, d.entries)
    {
      d, byFP, seen := Fold(es, [], [], []), index, {};
      assert a.findings[..0] == [] && SeenNow([]) == {};
      for i := 0 to |a.findings|
        invariant d == Folded(es, a.findings[..i], a) && seen == SeenNow(a.findings[..i])
        invariant Indexes(byFP, d.entries)
      {
        var f := a.findings[i];
        FoldedNext(es, a.findings, i, a);
        SeenNext(a.findings, i);
        if f.fp != "" {
          seen := seen + {f.fp};
        }
        d, byFP := FoldFinding(f, a, d, byFP);
      }
      assert a.findings[..|a.findings|] == a.findings;
    }

    method CountOutstanding(es: seq<Entry>) returns (n: nat)
      ensures n == CountOpen(es)
    {
      n := 0;
      for i := 0 to |es|
        invariant n == CountOpen(es[..i])
      {
        assert es[..i + 1][..i] == es[..i];
        if Outstanding(es[i]) {
          n := n + 1;
        }
      }
      assert es[..|es|] == es;
    }

    /** Folds a report into the ledger and reports what changed. */
    method Merge(a: MergeArgs) returns (res: MergeResult)
      modifies this
      ensures entries == Merged(old(entries), a) && res == ResultOf(old(entries), a)
    {
      var es := entries;
      var index := IndexByFingerprint(es);
      var d, byFP, seen := FoldFindings(es, index, a);
      var after, resolved := ResolveAbsent(d.entries, seen, a);
      var notify := ChooseAlerts(d, a);
      IndexesUpdate(byFP, d.entries, after);
      var final := StampAlerts(after, notify, byFP, a);
      var open := CountOutstanding(final);
      res := MergeResult(d.added, d.updated, d.reopened, resolved, notify, open);
      entries := Sorted(final, FirstSeen);
    }

    /** Records how a finding was handled. */
    method SetDisposition(fp: string, disposition: Disposition, reason: string, target: string, now: int)
      returns (out: Option<Entry>)
      modifies this
      ensures var i := FirstIndexOf(old(entries), fp);
        var refused := fp == "" || disposition == Undisposed || (disposition == Ignored && reason == "")
                       || i == |old(entries)|;
        if refused then out == None && entries == old(entries)
        else entries == Sorted(Disposed(old(entries), i, disposition, reason, target, now), FirstSeen)
             && out == Some(Disposed(old(entries), i, disposition, reason, target, now)[i])
    {
      if fp == "" || disposition == Undisposed || (disposition == Ignored && reason == "") {
        return None;
      }
      for i := 0 to |entries|
        invariant forall k :: 0 <= k < i ==> entries[k].fp != fp
        invariant entries == old(entries)
      {
        if entries[i].fp == fp {
          var e := entries[i].(disposition := disposition, dispositionAt := Some(now));
          if reason != "" {
            e := e.(reason := reason);
          }
          if target != "" {
            e := e.(target := target);
          }
          assert FirstIndexOf(entries, fp) == i;
          entries := Sorted(entries[i := e], FirstSeen);
          return Some(e);
        }
      }
      assert FirstIndexOf(entries, fp) == |entries|;
      out := None;
    }
  }
}
