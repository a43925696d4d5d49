/**
 The attribution log (internal/attrib/attrib.go): one append-only file of encoded records for each session.
 An append may be cut at any byte by a crash; the next one starts with a newline when the file does not end
 in one, so that a torn line never takes the next record with it.
 */
module TouchLog {
  import opened Options
  import opened TextLines
  import opened Sequences

  datatype Record = Record(session: string, agent: string, path: string, tool: string, at: int, via: string)

  /** Encoding a record as one line, and reading a line back, blanks around it trimmed. */
  datatype Codec = Codec(enc: Record -> string, dec: string -> Option<Record>)

  const MAX_TOUCH := 0x40_0000

  /** A line holds one record: it has no newline, decodes to what was encoded, and none of its strict
      prefixes decodes at all. */
  ghost predicate Reads(c: Codec, r: Record) {
    var text := c.enc(r);
    && Unbroken(text) && 0 < |text| < 0x40_0000 && c.dec(text) == Some(r)
    && forall k :: 0 <= k < |text| ==> c.dec(text[..k]) == None
  }

  // ---------------------------------------------------------------- reading a file

  /** The record of a line, when there is one and it names a path. */
  function Taken(c: Codec, line: string): seq<Record> {
    match c.dec(line)
    case Some(r) => if r.path != "" then [r] else []
    case None => []
  }

  /** Every record of a file up to the first line too long to scan. */
  function Loaded(c: Codec, b: string): seq<Record>
    decreases |b|
  {
    if b == "" then []
    else
      var i := Break(b);
      if i >= MAX_TOUCH then []
      else Taken(c, b[..i]) + if i == |b| then [] else Loaded(c, b[i + 1..])
  }

  predicate Fits(b: string)
    decreases |b|
  {
    b == "" || (Break(b) < MAX_TOUCH && (Break(b) < |b| ==> Fits(b[Break(b) + 1..])))
  }

  lemma LoadStep(c: Codec, l: string, rest: string)
    requires Unbroken(l) && |l| < MAX_TOUCH
    ensures Loaded(c, l + "\n" + rest) == Taken(c, l) + Loaded(c, rest)
    ensures Fits(l + "\n" + rest) <==> Fits(rest)
  {
    BreakOfLine(l, rest);
  }

  lemma LoadLast(c: Codec, t: string)
    requires Unbroken(t) && 0 < |t| < MAX_TOUCH
    ensures Loaded(c, t) == Taken(c, t) && Fits(t)
  {
    UnbrokenBreak(t);
    assert t[..|t|] == t;
    assert Taken(c, t) + [] == Taken(c, t);
  }

  lemma FirstFits(l: string, rest: string)
    requires Unbroken(l) && Fits(l + "\n" + rest)
    ensures |l| < MAX_TOUCH && Fits(rest)
  {
    BreakOfLine(l, rest);
  }

  lemma LoadSplitStep(c: Codec, l: string, rest: string, y: string)
    requires Unbroken(l) && |l| < MAX_TOUCH
    requires Loaded(c, rest + y) == Loaded(c, rest) + Loaded(c, y) && (Fits(rest + y) <==> Fits(y))
    ensures Loaded(c, l + "\n" + rest + y) == Loaded(c, l + "\n" + rest) + Loaded(c, y)
    ensures Fits(l + "\n" + rest + y) <==> Fits(y)
  {
    hide Loaded, Fits, Taken;
    LoadStep(c, l, rest);
    LoadStep(c, l, rest + y);
    assert l + "\n" + rest + y == l + "\n" + (rest + y);
    Regroup(Taken(c, l), Loaded(c, rest), Loaded(c, y));
  }

  lemma EmptyLoads(c: Codec)
    ensures Loaded(c, "") == [] && Fits("")
  {
  }

  lemma {:induction false} LoadSplits(c: Codec, x: string, y: string)
    requires EndsALine(x) && Fits(x)
    ensures Loaded(c, x + y) == Loaded(c, x) + Loaded(c, y)
    ensures Fits(x + y) <==> Fits(y)
    decreases |x|
  {
    hide Loaded, Fits, Taken;
    if x == "" {
      EmptyLoads(c);
      assert x + y == y;
      assert [] + Loaded(c, y) == Loaded(c, y);
    } else {
      var l, rest := FirstLine(x);
      FirstFits(l, rest);
      LoadSplits(c, rest, y);
      LoadSplitStep(c, l, rest, y);
    }
  }

  // ---------------------------------------------------------------- one append

  function Named(r: Record, session: string): Record {
    if r.session == "" then r.(session := session) else r
  }

  function AllNamed(rs: seq<Record>, session: string): seq<Record> {
    seq(|rs|, i requires 0 <= i < |rs| => Named(rs[i], session))
  }

  function Lines(c: Codec, rs: seq<Record>): string {
    if rs == [] then "" else c.enc(rs[0]) + "\n" + Lines(c, rs[1..])
  }

  function Healing(b: string): string {
    if EndsALine(b) then "" else "\n"
  }

  /** What a crash after `n` bytes leaves of a write. */
  function Cut(w: string, n: nat): string {
    if n < |w| then w[..n] else w
  }

  /** The records whose encodings lie whole in the first `n` bytes of their lines. */
  function Complete(c: Codec, rs: seq<Record>, n: nat): seq<Record> {
    if rs == [] || n < |c.enc(rs[0])| then []
    else [rs[0]] + Complete(c, rs[1..], if n > |c.enc(rs[0])| then n - |c.enc(rs[0])| - 1 else 0)
  }

  function Visible(rs: seq<Record>): seq<Record> {
    if rs == [] then [] else (if rs[0].path != "" then [rs[0]] else []) + Visible(rs[1..])
  }

  function Appended(c: Codec, b: string, rs: seq<Record>, n: nat): string {
    if rs == [] then b else b + Cut(Healing(b) + Lines(c, rs), n)
  }

  /** The records of one append that a crash after `n` bytes leaves whole; a healing newline comes first. */
  function Survivors(c: Codec, b: string, rs: seq<Record>, n: nat): seq<Record> {
    Complete(c, rs, if n > |Healing(b)| then n - |Healing(b)| else 0)
  }

  /** An append cut after `n` bytes leaves the first `n` bytes of what it writes: a newline when the file ends in a
      torn line, and the lines. */
  lemma AppendedExactly(c: Codec, b: string, rs: seq<Record>, n: nat)
    requires rs != []
    ensures var all := b + (if b != "" && b[|b| - 1] != '\n' then "\n" else "") + Lines(c, rs);
      Appended(c, b, rs, n) == if |b| + n < |all| then all[..|b| + n] else all
  {
    hide Lines;
    assert b + (Healing(b) + Lines(c, rs)) == b + Healing(b) + Lines(c, rs);
  }

  ghost predicate AllRead(c: Codec, rs: seq<Record>) {
    forall r :: r in rs ==> Reads(c, r)
  }

  lemma {:induction false} VisibleConcat(a: seq<Record>, b: seq<Record>)
    ensures Visible(a + b) == Visible(a) + Visible(b)
  {
    if a == [] {
      assert a + b == b;
    } else {
      assert (a + b)[1..] == a[1..] + b;
      VisibleConcat(a[1..], b);
    }
  }

  lemma NothingYet(c: Codec, rs: seq<Record>)
    requires AllRead(c, rs)
    ensures Complete(c, rs, 0) == []
  {
    if rs != [] {
      assert rs[0] in rs && Reads(c, rs[0]);
    }
  }

  /** A write cut inside the first line, or right before its newline. */
  lemma CutInFirst(c: Codec, r: Record, n: nat)
    requires Reads(c, r) && n <= |c.enc(r)|
    ensures Loaded(c, c.enc(r)[..n]) == (if n == |c.enc(r)| then Visible([r]) else []) && Fits(c.enc(r)[..n])
  {
    var text := c.enc(r);
    assert text[..|text|] == text;
    if n > 0 {
      LoadLast(c, text[..n]);
    }
  }

  /** Lines written up to any byte load as the records that were written whole. */
  lemma {:induction false} CutLinesLoad(c: Codec, rs: seq<Record>, n: nat)
    requires AllRead(c, rs)
    ensures Loaded(c, Cut(Lines(c, rs), n)) == Visible(Complete(c, rs, n)) && Fits(Cut(Lines(c, rs), n))
    decreases |rs|
  {
    if rs != [] {
      hide Loaded, Fits, Taken, Visible;
      var r, text, more := rs[0], c.enc(rs[0]), Lines(c, rs[1..]);
      assert r in rs && Reads(c, r);
      if n <= |text| {
        assert Cut(Lines(c, rs), n) == text[..n];
        CutInFirst(c, r, n);
        NothingYet(c, rs[1..]);
      } else {
        var m := n - |text| - 1;
        assert Cut(text + "\n" + more, n) == text + "\n" + Cut(more, m);
        CutLinesLoad(c, rs[1..], m);
        LoadStep(c, text, Cut(more, m));
        OneVisible(r, Complete(c, rs[1..], m));
      }
    }
  }

  lemma OneVisible(r: Record, rest: seq<Record>)
    ensures Visible([r] + rest) == (if r.path != "" then [r] else []) + Visible(rest)
  {
    assert ([r] + rest)[1..] == rest;
  }

  lemma HealTorn(c: Codec, w: string, t: string)
    requires EndsALine(w) && Fits(w) && Unbroken(t) && 0 < |t| < MAX_TOUCH
    ensures Loaded(c, w + t + "\n") == Loaded(c, w + t) && Fits(w + t + "\n") && EndsALine(w + t + "\n")
  {
    hide Loaded, Fits, Taken;
    LoadSplits(c, w, t);
    LoadSplits(c, w, t + "\n");
    LoadStep(c, t, "");
    LoadLast(c, t);
    EmptyLoads(c);
    assert t + "\n" + "" == t + "\n" && w + t + "\n" == w + (t + "\n");
    assert Taken(c, t) + [] == Taken(c, t);
  }

  /** A healing newline changes nothing that was readable. */
  lemma HealingKeeps(c: Codec, b: string)
    requires Fits(b)
    ensures Loaded(c, b + Healing(b)) == Loaded(c, b) && Fits(b + Healing(b)) && EndsALine(b + Healing(b))
  {
    hide Loaded, Fits, Whole, Torn;
    if EndsALine(b) {
      assert b + "" == b;
    } else {
      WholeAndTorn(b);
      TornExactly(b);
      WholeFits(b);
      HealTorn(c, Whole(b), Torn(b));
    }
  }

  lemma {:induction false} WholeFits(b: string)
    requires Fits(b)
    ensures Fits(Whole(b)) && |Torn(b)| < MAX_TOUCH
    decreases |b|
  {
    var i := Break(b);
    if i < |b| {
      var l, rest := b[..i], b[i + 1..];
      assert b == l + "\n" + rest;
      WholeStep(l, rest);
      WholeFits(rest);
      BreakOfLine(l, Whole(rest));
    }
  }

  /** After an append cut at any byte, the file shows what it showed before and the records written whole. */
  lemma AppendLoads(c: Codec, b: string, rs: seq<Record>, n: nat)
    requires Fits(b) && AllRead(c, rs)
    ensures Loaded(c, Appended(c, b, rs, n)) == Loaded(c, b) + Visible(Survivors(c, b, rs, n))
    ensures Fits(Appended(c, b, rs, n))
  {
    hide Loaded, Fits, Visible, Lines, EndsALine;
    var h := Healing(b);
    if rs == [] {
      NothingYet(c, []);
      NoneVisible();
      assert Loaded(c, b) + [] == Loaded(c, b);
    } else if n < |h| {
      NothingYet(c, rs);
      NoneVisible();
      assert Cut(h + Lines(c, rs), n) == "" && b + "" == b;
      assert Loaded(c, b) + [] == Loaded(c, b);
    } else {
      var m := n - |h|;
      HealingKeeps(c, b);
      CutLinesLoad(c, rs, m);
      LoadSplits(c, b + h, Cut(Lines(c, rs), m));
      assert b + Cut(h + Lines(c, rs), n) == (b + h) + Cut(Lines(c, rs), m);
    }
  }

  lemma NoneVisible()
    ensures Visible([]) == []
  {
  }

  /** A file fits the scanner exactly when it has no line of four mebibytes. */
  lemma {:induction false} FitsExactly(b: string)
    ensures Fits(b) <==> !HasLongLine(b, 0x40_0000)
    decreases |b|
  {
    hide HasLongLine;
    var i := Break(b);
    if i >= 0x40_0000 {
      LongLineShows(b, i, 0x40_0000);
    } else if i == |b| {
      ShortTextFits(b, 0x40_0000);
    } else {
      assert b == b[..i] + "\n" + b[i + 1..];
      FitsExactly(b[i + 1..]);
      HasLongLineAfter(b[..i], b[i + 1..], 0x40_0000);
    }
  }

  /** A line of four mebibytes hides itself and all that follows, and nothing before it. */
  lemma LongLineHidesTheRest(c: Codec, x: string, t: string)
    requires EndsALine(x) && !HasLongLine(x, 0x40_0000) && LongFrom(t, 0, 0x40_0000)
    ensures Loaded(c, x + t) == Loaded(c, x)
  {
    hide HasLongLine, Fits;
    FitsExactly(x);
    LoadSplits(c, x, t);
    assert Break(t) >= 0x40_0000;
    assert Loaded(c, t) == [];
    assert Loaded(c, x) + [] == Loaded(c, x);
  }

  lemma LinesOfPrefix(c: Codec, rs: seq<Record>, k: nat)
    requires 0 < k <= |rs|
    ensures |Lines(c, rs[..k])| == |c.enc(rs[0])| + 1 + |Lines(c, rs[1..][..k - 1])|
  {
    assert rs[..k][1..] == rs[1..][..k - 1];
  }

  /** A record is complete exactly when the cut comes no earlier than the end of its encoding; the complete ones
      are the first ones. */
  lemma {:induction false} CompleteExactly(c: Codec, rs: seq<Record>, n: nat, k: nat)
    requires AllRead(c, rs) && k < |rs|
    ensures k < |Complete(c, rs, n)| <==> |Lines(c, rs[..k])| + |c.enc(rs[k])| <= n
    ensures k < |Complete(c, rs, n)| ==> Complete(c, rs, n)[k] == rs[k]
    decreases |rs|
  {
    assert rs[0] in rs && Reads(c, rs[0]);
    assert AllRead(c, rs[1..]);
    if k == 0 {
      assert rs[..0] == [];
    } else {
      LinesOfPrefix(c, rs, k);
      assert rs[1..][k - 1] == rs[k];
      if n >= |c.enc(rs[0])| {
        var m := if n > |c.enc(rs[0])| then n - |c.enc(rs[0])| - 1 else 0;
        CompleteExactly(c, rs[1..], m, k - 1);
        assert Reads(c, rs[k]);
      }
    }
  }

  // ---------------------------------------------------------------- any number of appends

  /** An append of records for a session to the file of a directory, cut after `n` bytes. */
  datatype Step = Append(dir: string, session: string, records: seq<Record>, n: nat)

  /** The files next to the records ever written whole, with where they went. */
  datatype World = World(files: map<string, string>, whole: seq<(string, Record)>)

  function FileOf(files: map<string, string>, dir: string): string {
    if dir in files then files[dir] else ""
  }

  function Tagged(dir: string, rs: seq<Record>): seq<(string, Record)> {
    seq(|rs|, i requires 0 <= i < |rs| => (dir, rs[i]))
  }

  function AfterStep(c: Codec, w: World, s: Step): World {
    if s.records == [] then w
    else
      var b, rs := FileOf(w.files, s.dir), AllNamed(s.records, s.session);
      World(w.files[s.dir := Appended(c, b, rs, s.n)], w.whole + Tagged(s.dir, Survivors(c, b, rs, s.n)))
  }

  function Run(c: Codec, steps: seq<Step>): World {
    if steps == [] then World(map[], []) else AfterStep(c, Run(c, steps[..|steps| - 1]), steps[|steps| - 1])
  }

  /** The records of some directories among those written whole, in the order they were written. */
  function Of(whole: seq<(string, Record)>, dirs: set<string>): seq<Record> {
    if whole == [] then []
    else
      var last := whole[|whole| - 1];
      Of(whole[..|whole| - 1], dirs) + if last.0 in dirs then [last.1] else []
  }

  ghost predicate AllStepsRead(c: Codec, steps: seq<Step>) {
    forall s :: s in steps ==> AllRead(c, AllNamed(s.records, s.session))
  }

  lemma {:induction false} OfTagged(whole: seq<(string, Record)>, dir: string, rs: seq<Record>, dirs: set<string>)
    ensures Of(whole + Tagged(dir, rs), dirs) == Of(whole, dirs) + if dir in dirs then rs else []
    decreases |rs|
  {
    if rs == [] {
      assert whole + Tagged(dir, rs) == whole;
      assert Of(whole, dirs) + [] == Of(whole, dirs);
    } else {
      var init := rs[..|rs| - 1];
      var longer := whole + Tagged(dir, rs);
      assert longer[..|longer| - 1] == whole + Tagged(dir, init);
      OfTagged(whole, dir, init, dirs);
      assert rs == init + [rs[|rs| - 1]];
    }
  }

  /** What a file shows is exactly the records of its directory that were ever written whole and name a path,
      in the order they were written. */
  lemma {:induction false} FilesShowWhatWasWhole(c: Codec, steps: seq<Step>, dir: string)
    requires AllStepsRead(c, steps)
    ensures Loaded(c, FileOf(Run(c, steps).files, dir)) == Visible(Of(Run(c, steps).whole, {dir}))
    ensures Fits(FileOf(Run(c, steps).files, dir))
  {
    if steps == [] {
    } else {
      var init, s := steps[..|steps| - 1], steps[|steps| - 1];
      assert s in steps && forall x :: x in init ==> x in steps;
      FilesShowWhatWasWhole(c, init, dir);
      FileStep(c, Run(c, init), s, dir);
    }
  }

  lemma FileStep(c: Codec, w: World, s: Step, dir: string)
    requires AllRead(c, AllNamed(s.records, s.session))
    requires Loaded(c, FileOf(w.files, dir)) == Visible(Of(w.whole, {dir})) && Fits(FileOf(w.files, dir))
    ensures var t := AfterStep(c, w, s);
      Loaded(c, FileOf(t.files, dir)) == Visible(Of(t.whole, {dir})) && Fits(FileOf(t.files, dir))
  {
    hide Loaded, Visible, Of, Fits, Appended, Survivors, AllRead;
    if s.records != [] {
      var b, rs := FileOf(w.files, s.dir), AllNamed(s.records, s.session);
      OfTagged(w.whole, s.dir, Survivors(c, b, rs, s.n), {dir});
      if s.dir == dir {
        AppendLoads(c, b, rs, s.n);
        VisibleConcat(Of(w.whole, {dir}), Survivors(c, b, rs, s.n));
      } else {
        assert Of(w.whole, {dir}) + [] == Of(w.whole, {dir});
      }
    }
  }

  /** Record `r` is record `j` of an append, its session filled in from the append when it names none. */
  predicate WrittenBy(s: Step, j: nat, dir: string, r: Record) {
    && s.dir == dir && j < |s.records|
    && r == s.records[j].(session := if s.records[j].session != "" then s.records[j].session else s.session)
  }

  lemma {:induction false} CompletePart(c: Codec, rs: seq<Record>, n: nat)
    ensures forall r :: r in Complete(c, rs, n) ==> r in rs
  {
    if rs != [] {
      CompletePart(c, rs[1..], if n > |c.enc(rs[0])| then n - |c.enc(rs[0])| - 1 else 0);
    }
  }

  /** Every record written whole was given to some append to its directory, and carries its own session or, when
      it had none, that of the append. */
  lemma {:induction false} WrittenAreGiven(c: Codec, steps: seq<Step>, k: nat)
    requires k < |Run(c, steps).whole|
    ensures var w := Run(c, steps).whole[k];
      exists i: nat, j: nat :: i < |steps| && WrittenBy(steps[i], j, w.0, w.1)
  {
    hide Complete;
    var init, s := steps[..|steps| - 1], steps[|steps| - 1];
    var w, whole := Run(c, steps).whole[k], Run(c, init).whole;
    if k < |whole| {
      WrittenAreGiven(c, init, k);
      var i: nat, j: nat :| i < |init| && WrittenBy(init[i], j, w.0, w.1);
      assert WrittenBy(steps[i], j, w.0, w.1);
    } else {
      var rs := AllNamed(s.records, s.session);
      var h := |Healing(FileOf(Run(c, init).files, s.dir))|;
      var kept := Survivors(c, FileOf(Run(c, init).files, s.dir), rs, s.n);
      CompletePart(c, rs, if s.n > h then s.n - h else 0);
      assert w == (s.dir, kept[k - |whole|]);
      assert w.1 in kept && w.1 in rs;
      var j :| 0 <= j < |rs| && rs[j] == w.1;
      assert WrittenBy(steps[|steps| - 1], j, w.0, w.1);
    }
  }

  // ---------------------------------------------------------------- every session together

  function LoadedFrom(c: Codec, files: map<string, string>, dirs: seq<string>): seq<Record> {
    if dirs == [] then []
    else LoadedFrom(c, files, dirs[..|dirs| - 1]) + Loaded(c, FileOf(files, dirs[|dirs| - 1]))
  }

  function SetOf(dirs: seq<string>): set<string> {
    set d | d in dirs
  }

  predicate NoRepeats(dirs: seq<string>) {
    forall i, j :: 0 <= i < j < |dirs| ==> dirs[i] != dirs[j]
  }

  function VisibleOne(r: Record): seq<Record> {
    if r.path != "" then [r] else []
  }

  lemma VisibleNext(rs: seq<Record>, r: Record)
    ensures Visible(rs + [r]) == Visible(rs) + VisibleOne(r)
  {
    VisibleConcat(rs, [r]);
    assert VisibleOne(r) + [] == VisibleOne(r);
  }

  lemma MultisetOf(a: seq<Record>, b: seq<Record>)
    ensures multiset(a + b) == multiset(a) + multiset(b)
  {
  }

  /** The records of one more directory come on top of those of the others. */
  lemma {:induction false} OfDisjoint(whole: seq<(string, Record)>, a: set<string>, d: string)
    requires d !in a
    ensures multiset(Visible(Of(whole, a + {d}))) == multiset(Visible(Of(whole, a))) + multiset(Visible(Of(whole, {d})))
  {
    hide Visible, VisibleOne;
    if whole == [] {
      OfNone(a);
      OfNone({d});
      OfNone(a + {d});
    } else {
      var init, last := whole[..|whole| - 1], whole[|whole| - 1];
      OfDisjoint(init, a, d);
      OfLast(whole, a + {d});
      OfLast(whole, a);
      OfLast(whole, {d});
    }
  }

  lemma OfNone(dirs: set<string>)
    ensures Of([], dirs) == [] && multiset(Visible(Of([], dirs))) == multiset{}
  {
  }

  lemma OfLast(whole: seq<(string, Record)>, dirs: set<string>)
    requires whole != []
    ensures var init, last := whole[..|whole| - 1], whole[|whole| - 1];
      multiset(Visible(Of(whole, dirs)))
      == multiset(Visible(Of(init, dirs))) + if last.0 in dirs then multiset(VisibleOne(last.1)) else multiset{}
  {
    var init, last := whole[..|whole| - 1], whole[|whole| - 1];
    hide Visible, VisibleOne;
    if last.0 in dirs {
      VisibleNext(Of(init, dirs), last.1);
    } else {
      assert Of(init, dirs) + [] == Of(init, dirs);
    }
  }

  /** Loading every session's file yields, as a multiset, exactly the records ever written whole that name a
      path. No crash loses or doubles a record whose encoding was complete. */
  lemma {:induction false} LoadIsWhatWasWhole(c: Codec, steps: seq<Step>, dirs: seq<string>)
    requires AllStepsRead(c, steps) && NoRepeats(dirs)
    ensures multiset(LoadedFrom(c, Run(c, steps).files, dirs)) == multiset(Visible(Of(Run(c, steps).whole, SetOf(dirs))))
    decreases |dirs|
  {
    hide Loaded, Visible, Of, Run, AllStepsRead;
    var w := Run(c, steps);
    if dirs == [] {
      OfNothing(w.whole);
    } else {
      var init, d := dirs[..|dirs| - 1], dirs[|dirs| - 1];
      LoadIsWhatWasWhole(c, steps, init);
      FilesShowWhatWasWhole(c, steps, d);
      OfDisjoint(w.whole, SetOf(init), d);
      assert SetOf(dirs) == SetOf(init) + {d};
      MultisetOf(LoadedFrom(c, w.files, init), Loaded(c, FileOf(w.files, d)));
    }
  }

  lemma {:induction false} OfNothing(whole: seq<(string, Record)>)
    ensures Of(whole, SetOf([])) == [] && Visible([]) == []
  {
    if whole != [] {
      OfNothing(whole[..|whole| - 1]);
    }
  }

  // ---------------------------------------------------------------- the store

  function TimeOf(r: Record): int { r.at }

  /** The records read so far and those from the position on are all the records of the file. */
  ghost predicate LoadedTo(c: Codec, b: string, out: seq<Record>, pos: nat) {
    pos <= |b| && Loaded(c, b) == out + Loaded(c, b[pos..])
  }

  /** The next token of the scanner over a file of touches. */
  method ScanTouch(ghost c: Codec, b: string, pos: nat) returns (line: string, next: nat, tooLong: bool)
    requires pos < |b|
    ensures tooLong ==> Loaded(c, b[pos..]) == []
    ensures !tooLong ==> pos < next <= |b| && Loaded(c, b[pos..]) == Taken(c, line) + Loaded(c, b[next..])
  {
    hide Loaded, Taken;
    var t := b[pos..];
    var i := Break(t);
    line, next, tooLong := t[..i], |b|, i >= MAX_TOUCH;
    if tooLong {
      LoadTooLong(c, t);
    } else if i < |t| {
      next := pos + i + 1;
      assert t == line + "\n" + b[next..];
      LoadStep(c, line, b[next..]);
    } else {
      assert line == t && b[|b|..] == "";
      LoadLast(c, t);
      EmptyLoads(c);
      assert Taken(c, t) + [] == Taken(c, t);
    }
  }

  lemma LoadTooLong(c: Codec, t: string)
    requires t != "" && Break(t) >= MAX_TOUCH
    ensures Loaded(c, t) == []
  {
  }

  class Store {
    const codec: Codec
    var files: map<string, string>

    constructor (codec: Codec)
      ensures this.codec == codec && files == map[]
    {
      this.codec, files := codec, map[];
    }

    /** Writes text until `left` bytes are spent; nothing after a cut is written. */
    method Write(dir: string, text: string, left: nat) returns (left': nat, ok: bool)
      requires dir in files
      modifies `files
      ensures files == old(files)[dir := old(files)[dir] + Cut(text, left)]
      ensures ok == (|text| <= left) && left' == if ok then left - |text| else 0
    {
      files := files[dir := files[dir] + Cut(text, left)];
      ok := |text| <= left;
      left' := if ok then left - |text| else 0;
    }

    /** Writes line after line until the bytes run out. */
    method WriteLines(dir: string, records: seq<Record>, left: nat)
      requires dir in files
      modifies `files
      ensures files == old(files)[dir := old(files)[dir] + Cut(Lines(codec, records), left)]
    {
      ghost var target := files[dir] + Cut(Lines(codec, records), left);
      var rest, ok := left, true;
      assert records[0..] == records;
      for i := 0 to |records|
        invariant dir in files && files == old(files)[dir := files[dir]]
        invariant target == files[dir] + Cut(Lines(codec, records[i..]), rest)
      {
        hide Lines;
        LinesStep(codec, records, i);
        var line := codec.enc(records[i]) + "\n";
        CutStep(files[dir], line, Lines(codec, records[i + 1..]), rest);
        rest, ok := Write(dir, line, rest);
        if !ok {
          return;
        }
      }
      assert records[|records|..] == [];
      assert files[dir] + "" == files[dir];
    }

    static lemma LinesStep(c: Codec, rs: seq<Record>, i: nat)
      requires i < |rs|
      ensures Lines(c, rs[i..]) == c.enc(rs[i]) + "\n" + Lines(c, rs[i + 1..])
    {
      assert rs[i..][1..] == rs[i + 1..];
    }

    static lemma CutStep(before: string, line: string, rest: string, left: nat)
      ensures left < |line| ==> before + Cut(line + rest, left) == before + Cut(line, left)
      ensures left >= |line| ==>
        before + Cut(line + rest, left) == before + Cut(line, left) + Cut(rest, left - |line|)
    {
      if left < |line| {
        assert (line + rest)[..left] == line[..left];
      } else if left < |line + rest| {
        assert (line + rest)[..left] == line + rest[..left - |line|];
      }
    }

    /** An append that a crash cuts after `n` bytes, or that finishes when `n` is large enough. */
    method AppendRecords(dir: string, session: string, records: seq<Record>, n: nat)
      modifies `files
      ensures records == [] ==> files == old(files)
      ensures records != [] ==>
        files == old(files)[dir := Appended(codec, FileOf(old(files), dir), AllNamed(records, session), n)]
    {
      if |records| == 0 {
        return;
      }
      hide Lines;
      ghost var b := FileOf(files, dir);
      files := files[dir := FileOf(files, dir)];
      var left, ok := n, true;
      CutStep(b, Healing(b), Lines(codec, AllNamed(records, session)), n);
      if files[dir] != "" && files[dir][|files[dir]| - 1] != '\n' {
        left, ok := Write(dir, "\n", left);
        if !ok {
          return;
        }
      } else {
        assert b + Cut("", n) == b;
      }
      WriteLines(dir, AllNamed(records, session), left);
    }

    /** Every record of every session, oldest first. */
    method Load(dirs: seq<string>) returns (out: seq<Record>)
      ensures forall i, j :: 0 <= i < j < |out| ==> out[i].at <= out[j].at
      ensures multiset(out) == multiset(LoadedFrom(codec, files, dirs))
    {
      out := [];
      for k := 0 to |dirs|
        invariant multiset(out) == multiset(LoadedFrom(codec, files, dirs[..k]))
      {
        assert dirs[..k + 1][..k] == dirs[..k];
        var more := LoadFile(FileOf(files, dirs[k]));
        out := out + more;
      }
      assert dirs[..|dirs|] == dirs;
      SortedIs(out, TimeOf);
      out := Sorted(out, TimeOf);
      forall i, j | 0 <= i < j < |out| ensures out[i].at <= out[j].at {
        assert TimeOf(out[i]) <= TimeOf(out[j]);
      }
    }

    method LoadFile(b: string) returns (out: seq<Record>)
      ensures out == Loaded(codec, b)
    {
      hide Loaded;
      out := [];
      var pos := 0;
      assert b[0..] == b && [] + Loaded(codec, b) == Loaded(codec, b);
      while pos < |b|
        invariant LoadedTo(codec, b, out, pos)
      {
        var line, next, tooLong := ScanTouch(codec, b, pos);
        if tooLong {
          assert out + [] == out;
          return;
        }
        Regroup(out, Taken(codec, line), Loaded(codec, b[next..]));
        assert out + [] == out;
        match codec.dec(line) {
          case None =>
          case Some(r) =>
            if r.path != "" {
              out := out + [r];
            }
        }
        pos := next;
      }
      EmptyLoads(codec);
      assert b[|b|..] == "" && out + [] == out;
    }
  }
}
