/**
 The chat journal (internal/chatlog/chatlog.go): one file of newline-ended lines, appended to, replayed,
 paged and rewound. Replay and TailBytes cut on newlines and drop what follows the last one. The other
 readers use a line scanner: it keeps a last line without a newline, strips one trailing carriage return,
 and fails on a line that does not fit its buffer.
 */
module Journal {
  import opened Options
  import opened TextLines
  import opened Sequences

  const MAX_LINE := 0x10_0000
  const DEFAULT_TAIL_BYTES := 0x10_0000

  // ---------------------------------------------------------------- lines of a file

  function Kept(line: string): seq<string> {
    if line == "" then [] else [line]
  }

  predicate EndsInReturn(line: string) {
    line != "" && line[|line| - 1] == '\r'
  }

  function DropReturn(line: string): string {
    if EndsInReturn(line) then line[..|line| - 1] else line
  }

  /** Every complete non-empty line. */
  function Replayed(b: string): seq<string>
    decreases |b|
  {
    var i := Break(b);
    if i == |b| then [] else Kept(b[..i]) + Replayed(b[i + 1..])
  }

  function Both(a: Option<seq<string>>, b: Option<seq<string>>): Option<seq<string>> {
    if a.None? || b.None? then None else Some(a.value + b.value)
  }

  /** Every line the scanner yields that is not empty, or None when one is too long for it. */
  function Scanned(b: string): Option<seq<string>>
    decreases |b|
  {
    if b == "" then Some([])
    else
      var i := Break(b);
      if i >= MAX_LINE then None
      else Both(Some(Kept(DropReturn(b[..i]))), if i == |b| then Some([]) else Scanned(b[i + 1..]))
  }

  /** Each line followed by a newline. */
  function Written(lines: seq<string>): string {
    if lines == [] then "" else lines[0] + "\n" + Written(lines[1..])
  }

  lemma ReplayStep(l: string, rest: string)
    requires Unbroken(l)
    ensures Replayed(l + "\n" + rest) == Kept(l) + Replayed(rest)
  {
    BreakOfLine(l, rest);
  }

  lemma ScanStep(l: string, rest: string)
    requires Unbroken(l)
    ensures Scanned(l + "\n" + rest)
      == if |l| >= MAX_LINE then None else Both(Some(Kept(DropReturn(l))), Scanned(rest))
  {
    BreakOfLine(l, rest);
  }

  lemma ReplaySplitStep(l: string, rest: string, y: string)
    requires Unbroken(l) && Replayed(rest + y) == Replayed(rest) + Replayed(y)
    ensures Replayed(l + "\n" + rest + y) == Replayed(l + "\n" + rest) + Replayed(y)
  {
    hide Replayed, Break;
    ReplayStep(l, rest);
    ReplayStep(l, rest + y);
    var longer := l + "\n" + (rest + y);
    assert l + "\n" + rest + y == longer;
    Combine(Replayed(longer), Replayed(l + "\n" + rest), Kept(l), Replayed(rest), Replayed(y));
  }

  lemma Combine(both: seq<string>, front: seq<string>, a: seq<string>, b: seq<string>, c: seq<string>)
    requires both == a + (b + c) && front == a + b
    ensures both == front + c
  {
  }

  /** A file cut after a newline replays as its two halves. */
  lemma {:induction false} ReplaySplits(x: string, y: string)
    requires EndsALine(x)
    ensures Replayed(x + y) == Replayed(x) + Replayed(y)
    decreases |x|
  {
    if x == "" {
      assert x + y == y;
    } else {
      var l, rest := FirstLine(x);
      ReplaySplits(rest, y);
      ReplaySplitStep(l, rest, y);
    }
  }

  lemma BothAssociates(a: Option<seq<string>>, b: Option<seq<string>>, c: Option<seq<string>>)
    ensures Both(Both(a, b), c) == Both(a, Both(b, c))
  {
    if a.Some? && b.Some? && c.Some? {
      assert (a.value + b.value) + c.value == a.value + (b.value + c.value);
    }
  }

  lemma {:induction false} ScanSplits(x: string, y: string)
    requires EndsALine(x)
    ensures Scanned(x + y) == Both(Scanned(x), Scanned(y))
    decreases |x|
  {
    if x == "" {
      assert x + y == y;
      assert Scanned(y).Some? ==> [] + Scanned(y).value == Scanned(y).value;
    } else {
      var l, rest := FirstLine(x);
      ScanStep(l, rest);
      ScanStep(l, rest + y);
      assert x + y == l + "\n" + (rest + y);
      ScanSplits(rest, y);
      BothAssociates(Some(Kept(DropReturn(l))), Scanned(rest), Scanned(y));
    }
  }

  // ---------------------------------------------------------------- appending

  lemma NoBreak(t: string)
    requires Unbroken(t)
    ensures Replayed(t) == []
  {
    UnbrokenBreak(t);
  }

  lemma OneLine(t: string)
    requires Unbroken(t)
    ensures Replayed(t + "\n") == Kept(t)
  {
    BreakOfLine(t, "");
    assert t + "\n" + "" == t + "\n";
  }

  lemma AppendToSplit(w: string, t: string, line: string)
    requires EndsALine(w) && Unbroken(t) && Unbroken(line)
    ensures Replayed(w + t + (line + "\n")) == Replayed(w + t) + Kept(t + line)
  {
    hide Replayed, Kept;
    assert w + t + (line + "\n") == w + ((t + line) + "\n");
    ReplaySplits(w, t);
    NoBreak(t);
    ReplaySplits(w, (t + line) + "\n");
    OneLine(t + line);
  }

  /** What a replay shows after one append: the new line, joined to whatever a crash left behind. */
  lemma AppendReplays(b: string, line: string)
    requires Unbroken(line) && line != ""
    ensures Replayed(b + (line + "\n")) == Replayed(b) + [Torn(b) + line]
  {
    WholeAndTorn(b);
    AppendToSplit(Whole(b), Torn(b), line);
  }

  /** An append leaves its line readable exactly when the file did not end in a torn line. */
  lemma AppendSurvivesExactly(b: string, line: string)
    requires Unbroken(line) && line != ""
    ensures Replayed(b + (line + "\n")) == Replayed(b) + [line] <==> EndsALine(b)
  {
    var r, t := Replayed(b), Torn(b);
    AppendReplays(b, line);
    TornExactly(b);
    if t == "" {
      assert t + line == line;
    } else {
      assert |t + line| == |t| + |line|;
      assert (r + [line])[|r|] != (r + [t + line])[|r|];
    }
  }

  // ---------------------------------------------------------------- the tail of a file

  function TailOffset(b: string, maxBytes: int): nat {
    var window := if maxBytes <= 0 then DEFAULT_TAIL_BYTES else maxBytes;
    if |b| > window then |b| - window else 0
  }

  function TailLines(b: string, maxBytes: int): seq<string> {
    var off := TailOffset(b, maxBytes);
    if off == 0 then Replayed(b)
    else
      var i := Break(b[off..]);
      if off + i == |b| then [] else Replayed(b[off + i + 1..])
  }

  /** Where the lines of a tail read start. */
  function TailStart(b: string, maxBytes: int): (q: nat)
    ensures q <= |b|
  {
    var off := TailOffset(b, maxBytes);
    if off == 0 then 0
    else
      var i := Break(b[off..]);
      if off + i == |b| then |b| else off + i + 1
  }

  lemma TailStarts(b: string, maxBytes: int)
    ensures TailLines(b, maxBytes) == Replayed(b[TailStart(b, maxBytes)..])
    ensures TailStart(b, maxBytes) in {0, |b|} || b[TailStart(b, maxBytes) - 1] == '\n'
  {
    assert b[0..] == b;
    assert b[|b|..] == "";
  }

  lemma TailStartIsFirst(b: string, maxBytes: int, p: nat)
    requires TailOffset(b, maxBytes) < p <= |b| && b[p - 1] == '\n'
    ensures TailStart(b, maxBytes) <= p
  {
    var off := TailOffset(b, maxBytes);
    assert b[off..][p - 1 - off] == '\n';
  }

  lemma SuffixSplits(b: string, q: nat, p: nat)
    requires q <= p <= |b| && (q < p ==> b[p - 1] == '\n')
    ensures Replayed(b[q..]) == Replayed(b[q..p]) + Replayed(b[p..])
  {
    hide Replayed, Break;
    var x := b[q..p];
    assert b[q..] == x + b[p..];
    ReplaySplits(x, b[p..]);
  }

  /** The lines a tail read returns are the end of the lines a replay returns, from the first line that starts
      after the offset; an offset of zero leaves all of them. */
  lemma TailIsASuffix(b: string, maxBytes: int)
    ensures exists older :: Replayed(b) == older + TailLines(b, maxBytes)
    ensures TailOffset(b, maxBytes) == 0 ==> TailLines(b, maxBytes) == Replayed(b)
  {
    TailStarts(b, maxBytes);
    hide Replayed, Break, TailLines;
    var q := TailStart(b, maxBytes);
    assert b[0..] == b;
    if 0 < q < |b| {
      SuffixSplits(b, 0, q);
    } else if q == |b| {
      assert b[|b|..] == "";
      NoBreak("");
      assert Replayed(b) == Replayed(b) + [];
    } else {
      assert Replayed(b) == [] + Replayed(b);
    }
  }

  /** A line that starts after the offset is never lost: cut the file after any newline past it, and all that
      follows is in the tail. */
  lemma TailKeepsRecentLines(b: string, maxBytes: int, p: nat)
    requires TailOffset(b, maxBytes) < p <= |b| && b[p - 1] == '\n'
    ensures exists older :: TailLines(b, maxBytes) == older + Replayed(b[p..])
  {
    hide Replayed, Break, TailLines;
    TailStarts(b, maxBytes);
    TailStartIsFirst(b, maxBytes, p);
    SuffixSplits(b, TailStart(b, maxBytes), p);
  }

  lemma {:induction false} ReplayFits(b: string)
    ensures TextSize(Replayed(b)) + |Replayed(b)| <= |b|
    decreases |b|
  {
    hide Replayed, TextSize, Kept;
    var i := Break(b);
    if i < |b| {
      var l, rest := b[..i], b[i + 1..];
      assert b == l + "\n" + rest;
      ReplayFits(rest);
      ReplayStep(l, rest);
      SizeOfKept(l, Replayed(rest));
      KeptOnce(l);
    } else {
      NoBreak(b);
      NoSize();
    }
  }

  lemma KeptOnce(l: string)
    ensures |Kept(l)| <= 1
  {
  }

  lemma NoSize()
    ensures TextSize([]) == 0
  {
  }

  /** The bytes that a tail read asks for: a mebibyte when it asks for none. */
  function Asked(maxBytes: int): nat {
    if maxBytes <= 0 then 0x10_0000 else maxBytes
  }

  /** Position `q` is where the lines of a tail of `n` bytes start: at the beginning when the file is no longer
      than that, and otherwise at the first line that starts within the last `n` bytes. */
  predicate IsTailStart(b: string, n: nat, q: nat) {
    && q <= |b|
    && (|b| <= n ==> q == 0)
    && (|b| > n ==> q > |b| - n)
    && (0 < q < |b| ==> FollowsBreak(b, q))
    && forall p :: FollowsBreak(b, p) && p > |b| - n ==> q <= p
  }

  predicate FollowsBreak(b: string, p: int) {
    0 < p <= |b| && b[p - 1] == '\n'
  }

  /** A tail read truncates exactly when the file is longer than the bytes asked for; it returns exactly the
      lines from the first one that starts within those bytes, which take no more than they are. */
  lemma TailExactly(b: string, maxBytes: int)
    ensures TailOffset(b, maxBytes) > 0 <==> |b| > Asked(maxBytes)
    ensures exists q: nat :: IsTailStart(b, Asked(maxBytes), q) && TailLines(b, maxBytes) == Replayed(b[q..])
    ensures TextSize(TailLines(b, maxBytes)) + |TailLines(b, maxBytes)| <= Asked(maxBytes)
  {
    hide Replayed, Break, TailLines, TextSize;
    var n, q := Asked(maxBytes), TailStart(b, maxBytes);
    TailStarts(b, maxBytes);
    TailStartIsLate(b, maxBytes);
    forall p | FollowsBreak(b, p) && p > |b| - n ensures q <= p {
      if |b| > n {
        TailStartIsFirst(b, maxBytes, p);
      }
    }
    assert IsTailStart(b, n, q);
    ReplayFits(b[q..]);
  }

  lemma TailStartIsLate(b: string, maxBytes: int)
    ensures |b| > Asked(maxBytes) ==> TailStart(b, maxBytes) > |b| - Asked(maxBytes)
    ensures |b| <= Asked(maxBytes) ==> TailStart(b, maxBytes) == 0
  {
  }

  // ---------------------------------------------------------------- turns

  /** A turn starts at a user line that does not directly follow another. */
  predicate IsStart(lines: seq<string>, user: string -> bool, i: nat)
    requires i < |lines|
  {
    user(lines[i]) && (i > 0 ==> !user(lines[i - 1]))
  }

  function TurnStarts(lines: seq<string>, user: string -> bool): seq<nat> {
    if lines == [] then []
    else
      var n := |lines| - 1;
      TurnStarts(lines[..n], user) + if IsStart(lines, user, n) then [n] else []
  }

  lemma {:induction false} StartsAreExact(lines: seq<string>, user: string -> bool)
    ensures forall i :: i in TurnStarts(lines, user) <==> 0 <= i < |lines| && IsStart(lines, user, i)
    ensures forall j, k :: 0 <= j < k < |TurnStarts(lines, user)| ==> TurnStarts(lines, user)[j] < TurnStarts(lines, user)[k]
  {
    if lines != [] {
      var init := lines[..|lines| - 1];
      StartsAreExact(init, user);
      assert forall i :: 0 <= i < |init| ==> IsStart(lines, user, i) == IsStart(init, user, i);
      assert forall k :: 0 <= k < |TurnStarts(init, user)| ==> TurnStarts(init, user)[k] in TurnStarts(init, user);
    }
  }

  /** A turn starts at each user line that does not directly follow another, and nowhere else. */
  lemma TurnsStartExactly(lines: seq<string>, user: string -> bool, i: nat)
    ensures i in TurnStarts(lines, user) <==> i < |lines| && user(lines[i]) && (i == 0 || !user(lines[i - 1]))
  {
    StartsAreExact(lines, user);
  }

  lemma {:induction false} StartsOfPrefix(lines: seq<string>, user: string -> bool, m: nat)
    requires m < |TurnStarts(lines, user)|
    ensures TurnStarts(lines, user)[m] < |lines|
    ensures TurnStarts(lines[..TurnStarts(lines, user)[m]], user) == TurnStarts(lines, user)[..m]
  {
    var starts, n := TurnStarts(lines, user), |lines| - 1;
    var init := lines[..n];
    if m < |TurnStarts(init, user)| {
      StartsOfPrefix(init, user, m);
      assert init[..starts[m]] == lines[..starts[m]];
    }
  }

  /** Lines cut off at the front, of which the last is not a user line, take their own starts with them. */
  lemma {:induction false} StartsOfRest(x: seq<string>, y: seq<string>, user: string -> bool)
    requires y != [] ==> IsStart(x + y, user, |x|)
    ensures TurnStarts(x + y, user) == TurnStarts(x, user) + Shifted(TurnStarts(y, user), |x|)
    decreases |y|
  {
    if y == [] {
      assert x + y == x;
    } else {
      var init, n := y[..|y| - 1], |y| - 1;
      assert (x + y)[..|x| + n] == x + init;
      if init != [] {
        assert IsStart(x + init, user, |x|);
      }
      StartsOfRest(x, init, user);
      StartsOfRestStep(x, y, user);
    }
  }

  lemma StartsOfRestStep(x: seq<string>, y: seq<string>, user: string -> bool)
    requires y != [] && IsStart(x + y, user, |x|)
    requires TurnStarts(x + y[..|y| - 1], user) == TurnStarts(x, user) + Shifted(TurnStarts(y[..|y| - 1], user), |x|)
    ensures TurnStarts(x + y, user) == TurnStarts(x, user) + Shifted(TurnStarts(y, user), |x|)
  {
    hide TurnStarts, Shifted, IsStart;
    var init, n := y[..|y| - 1], |y| - 1;
    assert (x + y)[..|x| + n] == x + init;
    SameStart(x, y, user);
    TurnsOfLast(x + y, user);
    TurnsOfLast(y, user);
    ShiftedNext(TurnStarts(init, user), n, |x|);
    Regroup(TurnStarts(x, user), Shifted(TurnStarts(init, user), |x|), [|x| + n]);
  }

  lemma SameStart(x: seq<string>, y: seq<string>, user: string -> bool)
    requires y != [] && IsStart(x + y, user, |x|)
    ensures IsStart(x + y, user, |x + y| - 1) == IsStart(y, user, |y| - 1)
  {
  }

  lemma TurnsOfLast(lines: seq<string>, user: string -> bool)
    requires lines != []
    ensures var n := |lines| - 1;
      TurnStarts(lines, user)
      == if IsStart(lines, user, n) then TurnStarts(lines[..n], user) + [n] else TurnStarts(lines[..n], user)
  {
    assert TurnStarts(lines[..|lines| - 1], user) + [] == TurnStarts(lines[..|lines| - 1], user);
  }

  lemma ShiftedNext(starts: seq<nat>, n: nat, d: nat)
    ensures Shifted(starts + [n], d) == Shifted(starts, d) + [d + n]
  {
  }

  function Shifted(starts: seq<nat>, d: nat): seq<nat> {
    seq(|starts|, i requires 0 <= i < |starts| => starts[i] + d)
  }

  // ---------------------------------------------------------------- the window on connect

  function Cut(lines: seq<string>, user: string -> bool, maxTurns: int): (cut: nat)
    ensures cut <= |lines|
  {
    var starts := TurnStarts(lines, user);
    if maxTurns > 0 && |starts| > maxTurns
    then StartsOfPrefix(lines, user, |starts| - maxTurns); starts[|starts| - maxTurns]
    else 0
  }

  /** The window holds the last maxTurns turns, or the whole log when there are no more than that or none is
      asked for. Its own
      turn starts are the last ones of the log, and when something was cut it opens with one. */
  lemma {:induction false} WindowHoldsLastTurns(lines: seq<string>, user: string -> bool, maxTurns: int)
    ensures var cut, starts := Cut(lines, user, maxTurns), TurnStarts(lines, user);
      && (maxTurns <= 0 || |starts| <= maxTurns ==> cut == 0)
      && (0 < maxTurns < |starts| ==>
          && Shifted(TurnStarts(lines[cut..], user), cut) == starts[|starts| - maxTurns..]
          && cut < |lines| && IsStart(lines, user, cut))
  {
    var cut, starts := Cut(lines, user, maxTurns), TurnStarts(lines, user);
    if 0 < maxTurns < |starts| {
      StartsAreExact(lines, user);
      assert cut in starts;
      assert lines == lines[..cut] + lines[cut..];
      StartsOfRest(lines[..cut], lines[cut..], user);
      StartsOfPrefix(lines, user, |starts| - maxTurns);
    }
  }

  // ---------------------------------------------------------------- pages

  function Page(lines: seq<string>, start: int, end: int): seq<string> {
    var s := if start < 0 then 0 else start;
    var e := if end > |lines| then |lines| else end;
    if s >= e then [] else lines[s..e]
  }

  /** A page holds the lines from its start to its end that exist, in order. */
  lemma PageIs(lines: seq<string>, start: int, end: int, k: nat)
    ensures var page, from := Page(lines, start, end), if start < 0 then 0 else start;
      && (k < |page| <==> from + k < end && from + k < |lines|)
      && (k < |page| ==> page[k] == lines[from + k])
  {
  }

  /** Adjacent pages join up, and the page before the window completes the log. */
  lemma PagesMeet(lines: seq<string>, a: int, b: int, c: int)
    requires 0 <= a <= b <= c
    ensures Page(lines, a, b) + Page(lines, b, c) == Page(lines, a, c)
  {
  }

  lemma PageMeetsWindow(lines: seq<string>, user: string -> bool, maxTurns: int)
    ensures var cut := Cut(lines, user, maxTurns);
      Page(lines, 0, cut) + lines[cut..] == lines
  {
  }

  // ---------------------------------------------------------------- rewinding

  /** What a rewritten file must look like to be read back as it was written. */
  predicate Clean(lines: seq<string>) {
    forall l :: l in lines ==> l != "" && Unbroken(l) && |l| < MAX_LINE && !EndsInReturn(l)
  }

  predicate Scannable(lines: seq<string>) {
    forall l :: l in lines ==> l != "" && Unbroken(l) && |l| < MAX_LINE
  }

  lemma {:induction false} ScannedAreScannable(b: string)
    requires Scanned(b).Some?
    ensures Scannable(Scanned(b).value)
    decreases |b|
  {
    if b != "" && Break(b) < |b| {
      ScannedAreScannable(b[Break(b) + 1..]);
    }
  }

  function TextSize(lines: seq<string>): nat {
    if lines == [] then 0 else |lines[0]| + TextSize(lines[1..])
  }

  function Reread(lines: seq<string>): seq<string> {
    if lines == [] then [] else Kept(DropReturn(lines[0])) + Reread(lines[1..])
  }

  lemma {:induction false} WrittenEndsALine(lines: seq<string>)
    ensures EndsALine(Written(lines))
  {
    if lines != [] {
      WrittenEndsALine(lines[1..]);
    }
  }

  lemma {:induction false} WrittenScans(lines: seq<string>)
    requires Scannable(lines)
    ensures Scanned(Written(lines)) == Some(Reread(lines))
  {
    if lines != [] {
      var l, rest := lines[0], Written(lines[1..]);
      assert forall x :: x in lines[1..] ==> x in lines;
      assert l in lines;
      WrittenEndsALine(lines[1..]);
      ScanStep(l, rest);
      WrittenScans(lines[1..]);
    }
  }

  lemma {:induction false} RereadSize(lines: seq<string>)
    ensures TextSize(Reread(lines)) <= TextSize(lines)
    ensures TextSize(Reread(lines)) == TextSize(lines) ==> forall l :: l in lines ==> !EndsInReturn(l)
  {
    if lines != [] {
      RereadSize(lines[1..]);
      var d, more := DropReturn(lines[0]), Reread(lines[1..]);
      if d != "" {
        assert ([d] + more)[1..] == more;
      } else {
        assert [] + more == more;
      }
    }
  }

  lemma {:induction false} RereadClean(lines: seq<string>)
    requires Clean(lines)
    ensures Reread(lines) == lines
  {
    if lines != [] {
      assert lines[0] in lines && forall x :: x in lines[1..] ==> x in lines;
      RereadClean(lines[1..]);
    }
  }

  /** Lines taken from a scan and written back are read back the same exactly when none of them ends in a
      carriage return: the scanner would strip one more from each that does. */
  lemma WrittenReadsBackExactly(lines: seq<string>)
    requires Scannable(lines)
    ensures Scanned(Written(lines)) == Some(lines) <==> forall l :: l in lines ==> !EndsInReturn(l)
  {
    WrittenScans(lines);
    RereadSize(lines);
    if forall l :: l in lines ==> !EndsInReturn(l) {
      RereadClean(lines);
    }
  }

  datatype Rewind = Done(file: string) | NotPositive | Missing | Unscannable | TooFewTurns(turns: nat)

  /** Where the last n turns begin. */
  function RewindCut(lines: seq<string>, user: string -> bool, n: nat): (cut: nat)
    requires 1 <= n <= |TurnStarts(lines, user)|
    ensures cut < |lines| && TurnStarts(lines[..cut], user) == TurnStarts(lines, user)[..|TurnStarts(lines, user)| - n]
  {
    var starts := TurnStarts(lines, user);
    StartsOfPrefix(lines, user, |starts| - n);
    starts[|starts| - n]
  }

  /** The file after removing the last n turns, or why it stays as it was. */
  function Rewound(file: Option<string>, user: string -> bool, n: int): Rewind {
    if n < 1 then NotPositive
    else if file.None? then Missing
    else RewoundLines(Scanned(file.value), user, n)
  }

  function RewoundLines(scan: Option<seq<string>>, user: string -> bool, n: nat): Rewind
    requires n >= 1
  {
    match scan
    case None => Unscannable
    case Some(lines) =>
      if n > |TurnStarts(lines, user)| then TooFewTurns(|TurnStarts(lines, user)|)
      else Done(Written(lines[..RewindCut(lines, user, n)]))
  }

  /** Why a rewind is refused: it removes nothing, there is no file, a line is too long for the scanner, or there
      are not that many turns, and then how many there are. */
  lemma RewindRefusals(file: Option<string>, user: string -> bool, n: int, turns: nat)
    ensures var r := Rewound(file, user, n);
      && (r == NotPositive <==> n <= 0)
      && (r == Missing <==> n > 0 && file == None)
      && (r == Unscannable <==> n > 0 && file.Some? && HasLongLine(file.value, 0x10_0000))
      && (r == TooFewTurns(turns) <==>
            n > 0 && file.Some? && Scanned(file.value).Some? && |TurnStarts(Scanned(file.value).value, user)| == turns < n)
  {
    hide Scanned, TurnStarts, HasLongLine;
    if file.Some? {
      ScanFailsExactly(file.value);
    }
  }

  /** The scanner fails exactly when some line fills its buffer of a mebibyte. */
  lemma {:induction false} ScanFailsExactly(b: string)
    ensures Scanned(b) == None <==> HasLongLine(b, 0x10_0000)
    decreases |b|
  {
    hide HasLongLine;
    var i := Break(b);
    if i >= 0x10_0000 {
      LongLineShows(b, i, 0x10_0000);
    } else if i == |b| {
      ShortTextFits(b, 0x10_0000);
    } else {
      var l, rest := b[..i], b[i + 1..];
      assert b == l + "\n" + rest;
      ScanFailsExactly(rest);
      HasLongLineAfter(l, rest, 0x10_0000);
    }
  }

  /** The scanner reads the file, and it has the turns to remove. */
  predicate Rewindable(b: string, user: string -> bool, n: int) {
    Scanned(b).Some? && 1 <= n <= |TurnStarts(Scanned(b).value, user)|
  }

  function KeptLines(b: string, user: string -> bool, n: int): seq<string>
    requires Rewindable(b, user, n)
  {
    Scanned(b).value[..RewindCut(Scanned(b).value, user, n)]
  }

  predicate NoReturns(lines: seq<string>) {
    forall l :: l in lines ==> !EndsInReturn(l)
  }

  lemma KeptReadsBackExactly(b: string, user: string -> bool, n: int)
    requires Rewindable(b, user, n)
    ensures Scanned(Written(KeptLines(b, user, n))) == Some(KeptLines(b, user, n)) <==> NoReturns(KeptLines(b, user, n))
  {
    ScannedAreScannable(b);
    assert forall l :: l in KeptLines(b, user, n) ==> l in Scanned(b).value;
    WrittenReadsBackExactly(KeptLines(b, user, n));
  }

  /** A rewind goes through exactly when there are n turns to remove. It leaves the first lines, ended by newlines,
      with exactly n fewer turns that start where they did; and they are read back as they were exactly when none
      of them ends in a further carriage return. */
  lemma RewindRemovesTurns(b: string, user: string -> bool, n: int)
    ensures Rewound(Some(b), user, n).Done? <==> Rewindable(b, user, n)
    ensures Rewindable(b, user, n) ==>
      var starts, kept, file := TurnStarts(Scanned(b).value, user), KeptLines(b, user, n), Rewound(Some(b), user, n).file;
      && kept <= Scanned(b).value && TurnStarts(kept, user) == starts[..|starts| - n]
      && file == Written(kept) && EndsALine(file)
      && (Scanned(file) == Some(kept) <==> NoReturns(kept))
  {
    hide Scanned, Written, TurnStarts, RewindCut, NoReturns, Rewindable, Rewound, KeptLines;
    RewoundIs(b, user, n);
    if Rewindable(b, user, n) {
      KeptTurns(b, user, n);
      KeptReadsBackExactly(b, user, n);
      WrittenEndsALine(KeptLines(b, user, n));
    }
  }

  lemma RewoundIs(b: string, user: string -> bool, n: int)
    ensures Rewound(Some(b), user, n).Done? <==> Rewindable(b, user, n)
    ensures Rewindable(b, user, n) ==> Rewound(Some(b), user, n) == Done(Written(KeptLines(b, user, n)))
  {
    hide Scanned, Written, TurnStarts, RewindCut;
  }

  lemma KeptTurns(b: string, user: string -> bool, n: int)
    requires Rewindable(b, user, n)
    ensures var starts, kept := TurnStarts(Scanned(b).value, user), KeptLines(b, user, n);
      kept <= Scanned(b).value && TurnStarts(kept, user) == starts[..|starts| - n]
  {
    hide Scanned, TurnStarts, RewindCut;
  }

  // ---------------------------------------------------------------- the two families of readers

  lemma {:induction false} SizesCompare(b: string)
    requires EndsALine(b) && Scanned(b).Some?
    ensures TextSize(Scanned(b).value) <= TextSize(Replayed(b))
    ensures TextSize(Scanned(b).value) == TextSize(Replayed(b)) ==> forall l :: l in Replayed(b) ==> !EndsInReturn(l)
    ensures forall l :: l in Replayed(b) ==> |l| < MAX_LINE
    decreases |b|
  {
    if b != "" {
      var l, rest := FirstLine(b);
      ReplayStep(l, rest);
      ScanStep(l, rest);
      SizesCompare(rest);
      SizeOfKept(l, Replayed(rest));
      SizeOfKept(DropReturn(l), Scanned(rest).value);
    }
  }

  lemma SizeOfKept(l: string, rest: seq<string>)
    ensures TextSize(Kept(l) + rest) == |l| + TextSize(rest)
  {
    if l == "" {
      assert [] + rest == rest;
    } else {
      assert ([l] + rest)[1..] == rest;
    }
  }

  lemma {:induction false} CleanReadsAlike(b: string)
    requires EndsALine(b) && Clean(Replayed(b))
    ensures Scanned(b) == Some(Replayed(b))
    decreases |b|
  {
    if b != "" {
      var l, rest := FirstLine(b);
      ReplayStep(l, rest);
      ScanStep(l, rest);
      assert forall x :: x in Replayed(rest) || x in Kept(l) ==> x in Replayed(b);
      CleanReadsAlike(rest);
    }
  }

  lemma {:induction false} ReplayedAreLines(b: string)
    ensures forall l :: l in Replayed(b) ==> l != "" && '\n' !in l
    decreases |b|
  {
    if Break(b) < |b| {
      ReplayedAreLines(b[Break(b) + 1..]);
    }
  }

  /** On a file that ends its last line, the scanner shows what a replay shows exactly when no line ends in a
      carriage return and every line fits the scanner. */
  lemma ReadersAgreeExactly(b: string)
    requires EndsALine(b)
    ensures Scanned(b) == Some(Replayed(b))
      <==> forall l :: l in Replayed(b) ==> |l| < 0x10_0000 && (l == "" || l[|l| - 1] != '\r')
  {
    ReplayedAreLines(b);
    if Scanned(b).Some? {
      SizesCompare(b);
    }
    if forall l :: l in Replayed(b) ==> |l| < MAX_LINE && !EndsInReturn(l) {
      CleanReadsAlike(b);
    }
  }

  lemma TornScans(t: string)
    requires Unbroken(t) && |t| < MAX_LINE
    ensures Scanned(t) == Some(Kept(DropReturn(t)))
  {
    UnbrokenBreak(t);
    assert t[..|t|] == t;
    var k := Kept(DropReturn(t));
    assert k + [] == k;
  }

  /** A torn last line is shown by the scanner and by no replay. */
  lemma TornLineShowsOnlyInScans(b: string)
    requires |Torn(b)| < MAX_LINE
    ensures Replayed(b) == Replayed(Whole(b))
    ensures Scanned(b) == Both(Scanned(Whole(b)), Some(Kept(DropReturn(Torn(b)))))
  {
    var w, t := Whole(b), Torn(b);
    WholeAndTorn(b);
    ReplaySplits(w, t);
    ScanSplits(w, t);
    NoBreak(t);
    TornScans(t);
  }
}
