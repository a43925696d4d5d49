/**
 Report files under claimed ids (internal/agentreport/store.go): any number of concurrent savers, each
 publishing its record under the first free name of its id family, next to pruners that delete the lowest
 names one at a time.
 */
module Reports {
  import opened Options
  import opened Numbers
  import opened Strings

  datatype Record = Record(id: string, text: string)

  const MAX_SIBLINGS: nat := 1000
  const DEFAULT_KEEP: nat := 200

  /** The n-th name of an id family: the base itself, then "<base>-2", "<base>-3", and so on. */
  function Sibling(base: string, n: nat): string {
    if n <= 1 then base else base + "-" + Decimal(n)
  }

  lemma SiblingIs(base: string, n: nat)
    requires n >= 1
    ensures Sibling(base, n) == if n == 1 then base else base + "-" + Decimal(n)
  {
  }

  function FileName(id: string): string {
    id + ".json"
  }

  lemma SiblingsDiffer(base: string, m: nat, n: nat)
    requires 1 <= m < n
    ensures Sibling(base, m) != Sibling(base, n)
  {
    if m > 1 {
      var k := |base| + 1;
      assert Sibling(base, m)[k..] == Decimal(m) && Sibling(base, n)[k..] == Decimal(n);
      if Sibling(base, m) == Sibling(base, n) {
        DecimalInjective(m, n);
      }
    } else {
      assert |Sibling(base, n)| > |base|;
    }
  }

  // ---------------------------------------------------------------- the order of names

  predicate Older(a: string, b: string) {
    Below(FileName(a), FileName(b))
  }

  /** With the suffix attached every later sibling sorts before its base. */
  lemma SiblingsSortFirst(base: string, n: nat)
    requires n >= 2
    ensures Older(Sibling(base, n), base)
  {
    var rest := "-" + Decimal(n) + ".json";
    BelowAfterPrefix(base, rest, ".json");
    assert FileName(Sibling(base, n)) == base + rest;
  }

  /** Later siblings sort by their numerals as text, not by value. */
  lemma SiblingOrderExactly(base: string, m: nat, n: nat)
    requires 1 <= m < n
    ensures Older(Sibling(base, m), Sibling(base, n))
       <==> m >= 2 && Below(Decimal(m) + ".json", Decimal(n) + ".json")
  {
    hide Below, Decimal;
    if m == 1 {
      SiblingsSortFirst(base, n);
      BelowIsStrict(FileName(Sibling(base, n)), FileName(base));
    } else {
      BelowAfterPrefix(base + "-", Decimal(m) + ".json", Decimal(n) + ".json");
      assert FileName(Sibling(base, m)) == base + "-" + (Decimal(m) + ".json");
      assert FileName(Sibling(base, n)) == base + "-" + (Decimal(n) + ".json");
    }
  }

  lemma SameName(a: string, b: string)
    requires FileName(a) == FileName(b)
    ensures a == b
  {
    assert FileName(a)[..|a|] == a && FileName(b)[..|b|] == b;
  }

  // ---------------------------------------------------------------- pruning

  function Keeping(keep: int): nat {
    if keep <= 0 then DEFAULT_KEEP else keep
  }

  /** A prune deletes all but the last names: `keep` of them, or all when there are no more than that. */
  ghost predicate PruneSet(ids: set<string>, victims: set<string>, keep: int) {
    && victims <= ids
    && |ids - victims| == (if |ids| < Keeping(keep) then |ids| else Keeping(keep))
    && forall v, k :: v in victims && k in ids - victims ==> Older(v, k)
  }

  function Above(ids: set<string>, id: string): set<string> {
    set x | x in ids && Older(id, x)
  }

  /** A record is deleted exactly when at least `keep` names sort after its own. */
  lemma PrunedExactly(ids: set<string>, victims: set<string>, keep: int, id: string)
    requires PruneSet(ids, victims, keep) && id in ids
    ensures id in victims <==> |Above(ids, id)| >= if keep <= 0 then 200 else keep
  {
    var kept := ids - victims;
    if id in victims {
      if |ids| < Keeping(keep) {
        Subset(kept, ids);
      }
      Subset(kept, Above(ids, id));
    } else {
      assert id in kept;
      forall x | x in Above(ids, id) ensures x in kept - {id} {
        BelowIsStrict(FileName(id), FileName(x));
      }
      Subset(Above(ids, id), kept - {id});
    }
  }

  lemma {:induction false} Subset(a: set<string>, b: set<string>)
    requires a <= b
    ensures |a| <= |b| && (|a| == |b| ==> a == b)
  {
    assert b == a + (b - a);
    assert |b| == |a| + |b - a|;
  }

  /** A base is never deleted before its siblings, and a later sibling goes while its base stays exactly when
      the number of names to keep lies between the two counts of names that sort after them. */
  lemma SiblingGoesFirstExactly(ids: set<string>, victims: set<string>, keep: int, base: string, n: nat)
    requires PruneSet(ids, victims, keep) && n >= 2 && base in ids && Sibling(base, n) in ids
    ensures base in victims ==> Sibling(base, n) in victims
    ensures Sibling(base, n) in victims && base !in victims
       <==> |Above(ids, base)| < Keeping(keep) <= |Above(ids, Sibling(base, n))|
  {
    PrunedExactly(ids, victims, keep, base);
    PrunedExactly(ids, victims, keep, Sibling(base, n));
    SiblingsSortFirst(base, n);
    forall x | x in Above(ids, base) ensures x in Above(ids, Sibling(base, n)) {
      BelowIsTransitive(FileName(Sibling(base, n)), FileName(base), FileName(x));
    }
    Subset(Above(ids, base), Above(ids, Sibling(base, n)));
  }

  /** So deleting by name order can delete the report just saved, whatever is to be kept: beside one report less
      than that of later names, a later report of the same text in the same second goes and the first stays. */
  lemma NewestCanBePruned(base: string, n: nat, others: set<string>, keep: int)
    requires n >= 2 && |others| == Keeping(keep) - 1 && forall x :: x in others ==> Older(base, x)
    ensures PruneSet(others + {base, Sibling(base, n)}, {Sibling(base, n)}, keep)
  {
    var newest := Sibling(base, n);
    SiblingsSortFirst(base, n);
    BelowIsStrict(FileName(newest), FileName(base));
    if base in others {
      BelowIsStrict(FileName(base), FileName(base));
    }
    forall x | x in others + {base} ensures Older(newest, x) {
      if x in others {
        BelowIsTransitive(FileName(newest), FileName(base), FileName(x));
      }
    }
    assert others + {base, newest} == others + {base} + {newest};
    assert others + {base, newest} - {newest} == others + {base};
  }

  // ---------------------------------------------------------------- concurrent savers

  /** A saver tries the names of its family in order until one is free. */
  datatype Saver =
    | Trying(base: string, text: string, n: nat)
    | Saved(base: string, text: string, n: nat)
    | Failed(base: string, text: string)

  /** The published files; the savers; the ids ever deleted; and the names pruners still mean to delete. */
  datatype World = World(files: map<string, Record>, savers: seq<Saver>, removed: set<string>, doomed: set<string>)

  const EMPTY := World(map[], [], {}, {})

  datatype Step =
    | Begin(base: string, text: string)
    | Attempt(saver: nat)
    | Scan(victims: set<string>, keep: int)
    | Remove(id: string)

  /** The exclusive link of one attempt: the record appears whole under its id, or the name was taken. */
  function Attempted(w: World, k: nat): World
    requires k < |w.savers| && w.savers[k].Trying?
  {
    var s := w.savers[k];
    var id := Sibling(s.base, s.n);
    if id !in w.files then
      w.(files := w.files[id := Record(id, s.text)], savers := w.savers[k := Saved(s.base, s.text, s.n)])
    else if s.n < MAX_SIBLINGS then w.(savers := w.savers[k := Trying(s.base, s.text, s.n + 1)])
    else w.(savers := w.savers[k := Failed(s.base, s.text)])
  }

  ghost function Next(w: World, step: Step): World {
    match step
    case Begin(base, text) => w.(savers := w.savers + [Trying(base, text, 1)])
    case Attempt(k) => if k < |w.savers| && w.savers[k].Trying? then Attempted(w, k) else w
    case Scan(victims, keep) =>
      if PruneSet(w.files.Keys, victims, keep) then w.(doomed := w.doomed + victims) else w
    case Remove(id) =>
      if id in w.doomed && id in w.files then w.(files := w.files - {id}, removed := w.removed + {id}) else w
  }

  ghost function Run(steps: seq<Step>): World {
    if steps == [] then EMPTY else Next(Run(steps[..|steps| - 1]), steps[|steps| - 1])
  }

  function Published(w: World): set<string> {
    w.files.Keys + w.removed
  }

  predicate TriedUpTo(w: World, base: string, n: nat) {
    forall m :: 1 <= m < n ==> Sibling(base, m) in Published(w)
  }

  predicate OwnsId(w: World, s: Saver) {
    s.Saved? ==>
      var id := Sibling(s.base, s.n);
      id in w.removed || (id in w.files && w.files[id] == Record(id, s.text))
  }

  /** Every name before the one a saver is at, or got, has been published. */
  predicate FamilyTried(w: World, s: Saver) {
    match s
    case Trying(base, _, n) => 1 <= n <= 1000 && TriedUpTo(w, base, n)
    case Saved(base, _, n) => 1 <= n <= 1000 && TriedUpTo(w, base, n) && Sibling(base, n) in Published(w)
    case Failed(base, _) => TriedUpTo(w, base, 1001)
  }

  predicate HasSaver(w: World, id: string) {
    exists k :: 0 <= k < |w.savers| && w.savers[k].Saved? && Sibling(w.savers[k].base, w.savers[k].n) == id
  }

  /** Finished savers share an id only when its file was deleted in between. */
  predicate OwnersDiffer(w: World) {
    forall j, k :: 0 <= j < k < |w.savers| && w.savers[j].Saved? && w.savers[k].Saved? ==>
      Sibling(w.savers[j].base, w.savers[j].n) != Sibling(w.savers[k].base, w.savers[k].n)
      || Sibling(w.savers[j].base, w.savers[j].n) in w.removed
  }

  ghost predicate Safe(w: World) {
    && (forall id :: id in w.files ==> w.files[id].id == id)
    && (forall id :: id in Published(w) ==> HasSaver(w, id))
    && (forall k :: 0 <= k < |w.savers| ==> OwnsId(w, w.savers[k]) && FamilyTried(w, w.savers[k]))
    && OwnersDiffer(w)
  }

  lemma BeginKeepsSafe(w: World, base: string, text: string)
    requires Safe(w)
    ensures Safe(Next(w, Begin(base, text)))
  {
    var t := Next(w, Begin(base, text));
    forall id | id in Published(t) ensures HasSaver(t, id) {
      assert HasSaver(w, id);
      var k :| 0 <= k < |w.savers| && w.savers[k].Saved? && Sibling(w.savers[k].base, w.savers[k].n) == id;
      assert t.savers[k] == w.savers[k];
    }
    forall k | 0 <= k < |t.savers| ensures OwnsId(t, t.savers[k]) && FamilyTried(t, t.savers[k]) {
      if k < |w.savers| {
        StillTried(w, t, w.savers[k]);
      }
    }
  }

  lemma StillTried(w: World, t: World, s: Saver)
    requires FamilyTried(w, s) && Published(w) <= Published(t)
    ensures FamilyTried(t, s)
  {
  }

  lemma RemoveKeepsSafe(w: World, id: string)
    requires Safe(w)
    ensures Safe(Next(w, Remove(id)))
  {
    var t := Next(w, Remove(id));
    assert t.savers == w.savers && Published(t) == Published(w);
    forall i | i in Published(t) ensures HasSaver(t, i) {
      assert HasSaver(w, i);
    }
    forall k | 0 <= k < |t.savers| ensures OwnsId(t, t.savers[k]) && FamilyTried(t, t.savers[k]) {
      StillTried(w, t, w.savers[k]);
    }
  }

  lemma ScanKeepsSafe(w: World, victims: set<string>, keep: int)
    requires Safe(w)
    ensures Safe(Next(w, Scan(victims, keep)))
  {
    var t := Next(w, Scan(victims, keep));
    assert t.savers == w.savers && Published(t) == Published(w);
    forall i | i in Published(t) ensures HasSaver(t, i) {
      assert HasSaver(w, i);
    }
    forall k | 0 <= k < |t.savers| ensures OwnsId(t, t.savers[k]) && FamilyTried(t, t.savers[k]) {
      StillTried(w, t, w.savers[k]);
    }
  }

  /** A saver that finds its name taken moves on; the files stay as they are. */
  lemma RetryKeepsSafe(w: World, k: nat)
    requires Safe(w) && k < |w.savers| && w.savers[k].Trying? && Sibling(w.savers[k].base, w.savers[k].n) in w.files
    ensures Safe(Attempted(w, k))
  {
    hide Sibling;
    var t, s := Attempted(w, k), w.savers[k];
    assert t.files == w.files && t.removed == w.removed && Published(t) == Published(w);
    forall id | id in Published(t) ensures HasSaver(t, id) {
      assert HasSaver(w, id);
      var j :| 0 <= j < |w.savers| && w.savers[j].Saved? && Sibling(w.savers[j].base, w.savers[j].n) == id;
      assert t.savers[j] == w.savers[j];
    }
    forall j | 0 <= j < |t.savers| ensures OwnsId(t, t.savers[j]) && FamilyTried(t, t.savers[j]) {
      if j != k {
        StillTried(w, t, w.savers[j]);
        assert OwnsId(w, w.savers[j]);
      } else {
        RetriedFamily(w, s);
        StillTried(w, t, t.savers[k]);
      }
    }
  }

  lemma RetriedFamily(w: World, s: Saver)
    requires s.Trying? && FamilyTried(w, s) && Sibling(s.base, s.n) in w.files
    ensures FamilyTried(w, if s.n < MAX_SIBLINGS then Trying(s.base, s.text, s.n + 1) else Failed(s.base, s.text))
  {
    hide Sibling;
  }

  lemma ClaimOwners(w: World, k: nat)
    requires Safe(w) && k < |w.savers| && w.savers[k].Trying? && Sibling(w.savers[k].base, w.savers[k].n) !in w.files
    ensures OwnersDiffer(Attempted(w, k))
  {
    var t, s := Attempted(w, k), w.savers[k];
    var id := Sibling(s.base, s.n);
    forall j | 0 <= j < |w.savers| && w.savers[j].Saved? && Sibling(w.savers[j].base, w.savers[j].n) == id
      ensures id in w.removed
    {
      assert OwnsId(w, w.savers[j]);
    }
  }

  /** A saver that finds its name free publishes under it; no one else's file changes. */
  lemma ClaimKeepsSafe(w: World, k: nat)
    requires Safe(w) && k < |w.savers| && w.savers[k].Trying? && Sibling(w.savers[k].base, w.savers[k].n) !in w.files
    ensures Safe(Attempted(w, k))
  {
    hide Sibling;
    var t, s := Attempted(w, k), w.savers[k];
    var id := Sibling(s.base, s.n);
    assert t.savers[k] == Saved(s.base, s.text, s.n);
    ClaimOwners(w, k);
    forall i | i in Published(t) ensures HasSaver(t, i) {
      if i == id {
        assert t.savers[k].Saved?;
      } else {
        assert HasSaver(w, i);
        var j :| 0 <= j < |w.savers| && w.savers[j].Saved? && Sibling(w.savers[j].base, w.savers[j].n) == i;
        assert t.savers[j] == w.savers[j];
      }
    }
    forall j | 0 <= j < |t.savers| ensures OwnsId(t, t.savers[j]) && FamilyTried(t, t.savers[j]) {
      StillTried(w, t, w.savers[j]);
      if j != k {
        assert OwnsId(w, w.savers[j]);
      }
    }
  }

  /** In every interleaving of savers and pruners: a file holds its own id; a finished save's file holds that
      save's text until it is deleted; finished saves share an id only across a deletion; and every name of a
      family before one that was tried had been published. */
  lemma {:induction false} EveryRunIsSafe(steps: seq<Step>)
    ensures Safe(Run(steps))
  {
    if steps != [] {
      var init, step := steps[..|steps| - 1], steps[|steps| - 1];
      EveryRunIsSafe(init);
      var w := Run(init);
      hide Safe, PruneSet;
      match step {
        case Begin(base, text) => BeginKeepsSafe(w, base, text);
        case Scan(victims, keep) => ScanKeepsSafe(w, victims, keep);
        case Remove(id) => RemoveKeepsSafe(w, id);
        case Attempt(k) =>
          if k < |w.savers| && w.savers[k].Trying? {
            if Sibling(w.savers[k].base, w.savers[k].n) in w.files {
              RetryKeepsSafe(w, k);
            } else {
              ClaimKeepsSafe(w, k);
            }
          }
      }
    }
  }

  /** No step changes a published file; it leaves only by being deleted, after a prune chose its name. */
  lemma PublishedNeverChanges(w: World, step: Step, id: string)
    requires id in w.files
    ensures id in Next(w, step).files ==> Next(w, step).files[id] == w.files[id]
    ensures id !in Next(w, step).files ==> step == Remove(id) && id in w.doomed
  {
  }

  /** Step `i` of a run is a prune that found `id` with at least as many names after it as it was to keep. */
  ghost predicate PruneChose(steps: seq<Step>, i: nat, id: string) {
    && i < |steps| && steps[i].Scan?
    && var ids := Run(steps[..i]).files.Keys;
       id in ids && |Above(ids, id)| >= if steps[i].keep <= 0 then 200 else steps[i].keep
  }

  /** Only the oldest are deleted: every id that was ever deleted or is about to be was chosen by a prune that found
      at least as many names after it as it was to keep. */
  lemma {:induction false} DeletedWereOldest(steps: seq<Step>, id: string)
    requires id in Run(steps).doomed || id in Run(steps).removed
    ensures exists i: nat :: PruneChose(steps, i, id)
  {
    hide PruneSet, Above;
    var init, s := steps[..|steps| - 1], steps[|steps| - 1];
    var w := Run(init);
    if id in w.doomed || id in w.removed {
      DeletedWereOldest(init, id);
      var i: nat :| PruneChose(init, i, id);
      assert init[..i] == steps[..i];
      assert PruneChose(steps, i, id);
    } else {
      VictimsExist(w.files.Keys, s.victims, s.keep);
      PrunedExactly(w.files.Keys, s.victims, s.keep, id);
      assert PruneChose(steps, |steps| - 1, id);
    }
  }

  lemma VictimsExist(ids: set<string>, victims: set<string>, keep: int)
    requires PruneSet(ids, victims, keep)
    ensures victims <= ids
  {
  }

  /** Until something is deleted, every finished save has an id of its own whose file holds its text. */
  lemma {:induction false} SavesAreKept(steps: seq<Step>)
    requires Run(steps).removed == {}
    ensures var w := Run(steps);
      && (forall k :: 0 <= k < |w.savers| && w.savers[k].Saved? ==>
            var id := Sibling(w.savers[k].base, w.savers[k].n);
            id in w.files && w.files[id] == Record(id, w.savers[k].text))
      && (forall j, k :: 0 <= j < k < |w.savers| && w.savers[j].Saved? && w.savers[k].Saved? ==>
            Sibling(w.savers[j].base, w.savers[j].n) != Sibling(w.savers[k].base, w.savers[k].n))
  {
    EveryRunIsSafe(steps);
    hide Sibling, Run;
    var w := Run(steps);
    forall k | 0 <= k < |w.savers| && w.savers[k].Saved?
      ensures var id := Sibling(w.savers[k].base, w.savers[k].n);
        id in w.files && w.files[id] == Record(id, w.savers[k].text)
    {
      assert OwnsId(w, w.savers[k]);
    }
  }

  /** Proposed ids are a time stamp and a digest of fixed width. */
  ghost predicate Proposed(steps: seq<Step>) {
    forall s :: s in steps && s.Begin? ==> |s.base| == 25
  }

  lemma {:induction false} BasesAreProposed(steps: seq<Step>)
    requires Proposed(steps)
    ensures forall k :: 0 <= k < |Run(steps).savers| ==> |Run(steps).savers[k].base| == 25
  {
    if steps != [] {
      var init := steps[..|steps| - 1];
      assert forall s :: s in init ==> s in steps;
      assert steps[|steps| - 1] in steps;
      BasesAreProposed(init);
    }
  }

  lemma SameFamily(base: string, n: nat, other: string, m: nat)
    requires |base| == |other| && n >= 1 && m >= 1 && Sibling(base, n) == Sibling(other, m)
    ensures base == other && n == m
  {
    assert Sibling(base, n)[..|base|] == base && Sibling(other, m)[..|base|] == other;
    if n < m {
      SiblingsDiffer(base, n, m);
    } else if m < n {
      SiblingsDiffer(base, m, n);
    }
  }

  /** Id families have no gaps: until something is deleted, a sibling's predecessors are all there. */
  lemma FamiliesHaveNoGaps(steps: seq<Step>, base: string, n: nat, m: nat)
    requires Proposed(steps) && |base| == 25 && Run(steps).removed == {}
    requires 1 <= m < n && Sibling(base, n) in Run(steps).files
    ensures Sibling(base, m) in Run(steps).files
  {
    EveryRunIsSafe(steps);
    BasesAreProposed(steps);
    hide Run, Sibling;
    var w := Run(steps);
    assert HasSaver(w, Sibling(base, n));
    var k :| 0 <= k < |w.savers| && w.savers[k].Saved? && Sibling(w.savers[k].base, w.savers[k].n) == Sibling(base, n);
    assert FamilyTried(w, w.savers[k]);
    SameFamily(w.savers[k].base, w.savers[k].n, base, n);
    assert Sibling(base, m) in Published(w);
  }

  // ---------------------------------------------------------------- one saver, step by step

  predicate FirstFree(files: map<string, Record>, base: string, n: nat) {
    && 1 <= n <= 1000 && Sibling(base, n) !in files
    && forall m :: 1 <= m < n ==> Sibling(base, m) in files
  }

  ghost predicate NamedFirstFree(files: map<string, Record>, base: string, id: string) {
    exists n :: FirstFree(files, base, n) && id == if n == 1 then base else base + "-" + Decimal(n)
  }

  class Dir {
    var files: map<string, Record>

    constructor ()
      ensures files == map[]
    {
      files := map[];
    }

    /** Publishes a record under its id unless that name is taken. */
    method LinkExclusive(rec: Record) returns (ok: bool)
      modifies this
      ensures ok == (rec.id !in old(files))
      ensures files == if ok then old(files)[rec.id := rec] else old(files)
    {
      ok := rec.id !in files;
      if ok {
        files := files[rec.id := rec];
      }
    }

    /** Publishes under the first free name of the family, with that name in the record; None when a thousand
        names are taken. */
    method ClaimRecordFile(rec: Record) returns (claimed: Option<Record>)
      modifies this
      ensures claimed.Some? ==>
        && files == old(files)[claimed.value.id := claimed.value] && claimed.value.text == rec.text
        && NamedFirstFree(old(files), rec.id, claimed.value.id)
      ensures claimed.None? ==>
        files == old(files) && forall m :: 1 <= m <= 1000 ==> Sibling(rec.id, m) in old(files)
    {
      hide Sibling;
      var n := 1;
      while n <= MAX_SIBLINGS
        invariant 1 <= n <= MAX_SIBLINGS + 1 && files == old(files)
        invariant forall m :: 1 <= m < n ==> Sibling(rec.id, m) in old(files)
      {
        var named := rec.(id := Sibling(rec.id, n));
        var ok := LinkExclusive(named);
        if ok {
          SiblingIs(rec.id, n);
          assert FirstFree(old(files), rec.id, n);
          return Some(named);
        }
        n := n + 1;
      }
      return None;
    }

    /** Claims a name and prunes. Afterwards exactly those files are there, old or saved, that fewer than 200 names
        sort after, each as it was. */
    method Save(base: string, text: string) returns (saved: Option<Record>)
      modifies this
      ensures saved.None? ==> files == old(files) && forall m :: 1 <= m <= 1000 ==> Sibling(base, m) in old(files)
      ensures saved.Some? ==> saved.value.text == text && NamedFirstFree(old(files), base, saved.value.id)
      ensures saved.Some? ==>
        var all := old(files)[saved.value.id := saved.value];
        forall id :: id in files <==> id in all && |Above(all.Keys, id)| < 200
      ensures saved.Some? ==> forall id :: id in files ==> files[id] == old(files)[saved.value.id := saved.value][id]
    {
      hide PruneSet, Above, Sibling;
      saved := ClaimRecordFile(Record(base, text));
      if saved.Some? {
        ghost var claimed := files;
        Prune(DEFAULT_KEEP);
        forall id | id in claimed ensures id in files <==> |Above(claimed.Keys, id)| < 200 {
          PrunedExactly(claimed.Keys, claimed.Keys - files.Keys, DEFAULT_KEEP, id);
        }
      }
    }

    /** Deletes all but the last names in byte order. */
    method Prune(keep: int)
      modifies this
      ensures PruneSet(old(files).Keys, old(files).Keys - files.Keys, keep)
      ensures forall id :: id in files ==> id in old(files) && files[id] == old(files)[id]
    {
      var n := Keeping(keep);
      var names := SortNames(files.Keys);
      SizeOfDistinct(names);
      if |names| <= n {
        assert files.Keys - {} == files.Keys;
        return;
      }
      var cut := |names| - n;
      SplitSorted(names, cut);
      RemoveAll(names[..cut]);
      assert old(files).Keys - files.Keys == NamesIn(names[..cut]);
    }

    method RemoveAll(names: seq<string>)
      modifies this
      ensures files == old(files) - NamesIn(names)
    {
      assert NamesIn(names[..0]) == {};
      for i := 0 to |names|
        invariant files == old(files) - NamesIn(names[..i])
      {
        assert names[..i + 1] == names[..i] + [names[i]];
        assert NamesIn(names[..i + 1]) == NamesIn(names[..i]) + {names[i]};
        files := files - {names[i]};
      }
      assert names[..|names|] == names;
    }
  }

  function NamesIn(names: seq<string>): set<string> {
    set x | x in names
  }

  predicate InNameOrder(names: seq<string>) {
    forall i, j :: 0 <= i < j < |names| ==> Older(names[i], names[j])
  }

  lemma {:induction false} SizeOfDistinct(names: seq<string>)
    requires InNameOrder(names)
    ensures |NamesIn(names)| == |names|
  {
    if names == [] {
      assert NamesIn(names) == {};
    } else {
      var init, last := names[..|names| - 1], names[|names| - 1];
      SizeOfDistinct(init);
      assert NamesIn(names) == NamesIn(init) + {last};
      forall x | x in NamesIn(init) ensures x != last {
        BelowIsStrict(FileName(x), FileName(last));
      }
    }
  }

  lemma SplitSorted(names: seq<string>, cut: nat)
    requires InNameOrder(names) && cut <= |names|
    ensures NamesIn(names[..cut]) <= NamesIn(names) && NamesIn(names) - NamesIn(names[..cut]) == NamesIn(names[cut..])
    ensures |NamesIn(names[cut..])| == |names| - cut
    ensures forall v, k :: v in NamesIn(names[..cut]) && k in NamesIn(names[cut..]) ==> Older(v, k)
  {
    SizeOfDistinct(names[cut..]);
    assert names == names[..cut] + names[cut..];
    forall v | v in NamesIn(names[..cut]) ensures v !in NamesIn(names[cut..]) {
      forall k | k in NamesIn(names[cut..]) ensures v != k {
        BelowIsStrict(FileName(v), FileName(k));
      }
    }
  }

  method SortNames(ids: set<string>) returns (names: seq<string>)
    ensures InNameOrder(names) && NamesIn(names) == ids
  {
    names := [];
    var todo := ids;
    assert NamesIn(names) == {};
    while todo != {}
      invariant todo <= ids && InNameOrder(names) && NamesIn(names) == ids - todo
      decreases todo
    {
      var x :| x in todo;
      assert x !in NamesIn(names);
      names := InsertName(names, x);
      todo := todo - {x};
    }
  }

  method InsertName(names: seq<string>, x: string) returns (longer: seq<string>)
    requires InNameOrder(names) && x !in NamesIn(names)
    ensures InNameOrder(longer) && NamesIn(longer) == NamesIn(names) + {x}
  {
    hide Older;
    var j := |names|;
    while j > 0 && Older(x, names[j - 1])
      invariant 0 <= j <= |names| && forall i :: j <= i < |names| ==> Older(x, names[i])
    {
      j := j - 1;
    }
    forall i | 0 <= i < j ensures Older(names[i], x) {
      PlacedAfter(names, i, j, x);
    }
    longer := names[..j] + [x] + names[j..];
    assert forall y :: y in longer <==> y in names || y == x by {
      assert names == names[..j] + names[j..];
    }
  }

  lemma PlacedAfter(names: seq<string>, i: nat, j: nat, x: string)
    requires InNameOrder(names) && i < j <= |names| && x !in NamesIn(names) && !Older(x, names[j - 1])
    ensures Older(names[i], x)
  {
    BelowIsTotal(FileName(names[j - 1]), FileName(x));
    assert names[j - 1] in NamesIn(names);
    if FileName(names[j - 1]) == FileName(x) {
      SameName(names[j - 1], x);
    }
    if i < j - 1 {
      BelowIsTransitive(FileName(names[i]), FileName(names[j - 1]), FileName(x));
    }
  }
}
