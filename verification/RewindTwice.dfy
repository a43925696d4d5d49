/**
 Two rewinds of the chat journal in a row (internal/chatlog/chatlog.go:297-359). The first one's file is read
 back by a scanner that strips one more carriage return from every line and then drops empty lines; when the
 two rewinds together are one rewind by the sum is given here exactly.
 */
module RewindTwice {
  import opened Options
  import opened TextLines
  import opened Journal

  /** A carriage return at the end is white space to the decoder, and nothing decodes to no user line. */
  ghost predicate IgnoresReturns(user: string -> bool) {
    !user("") && forall l :: user(DropReturn(l)) == user(l)
  }

  function Turns(lines: seq<string>, user: string -> bool): nat {
    |TurnStarts(lines, user)|
  }

  /** A turn at `i` that follows an earlier user line but for lone carriage returns. */
  predicate Glued(lines: seq<string>, user: string -> bool, j: nat, i: nat) {
    && j + 1 < i < |lines| && user(lines[j]) && user(lines[i])
    && forall k :: j < k < i ==> lines[k] == "\r"
  }

  /** Reading the lines back loses none of their turns. */
  predicate KeepsTurns(lines: seq<string>, user: string -> bool) {
    !exists j, i :: 0 <= j < |lines| && 0 <= i < |lines| && Glued(lines, user, j, i)
  }

  // ---------------------------------------------------------------- reading back

  lemma {:induction false} RereadSplits(a: seq<string>, b: seq<string>)
    ensures Reread(a + b) == Reread(a) + Reread(b)
  {
    if a == [] {
      assert a + b == b;
    } else {
      assert (a + b)[1..] == a[1..] + b;
      RereadSplits(a[1..], b);
    }
  }

  lemma RereadLast(lines: seq<string>)
    requires lines != []
    ensures Reread(lines) == Reread(lines[..|lines| - 1]) + Kept(DropReturn(lines[|lines| - 1]))
  {
    var init, last := lines[..|lines| - 1], lines[|lines| - 1];
    assert lines == init + [last];
    RereadSplits(init, [last]);
    assert [last][1..] == [] && Kept(DropReturn(last)) + [] == Kept(DropReturn(last));
  }

  lemma {:induction false} WrittenReplays(lines: seq<string>)
    requires Scannable(lines)
    ensures Replayed(Written(lines)) == lines
  {
    if lines != [] {
      assert lines[0] in lines && forall x :: x in lines[1..] ==> x in lines;
      WrittenReplays(lines[1..]);
      ReplayStep(lines[0], Written(lines[1..]));
    }
  }

  // ---------------------------------------------------------------- counting turns

  predicate UserLast(lines: seq<string>, user: string -> bool) {
    lines != [] && user(lines[|lines| - 1])
  }

  /** The last line that is not a lone carriage return is a user line. */
  predicate UserLastButReturns(lines: seq<string>, user: string -> bool) {
    lines != [] && (user(lines[|lines| - 1]) || (lines[|lines| - 1] == "\r" && UserLastButReturns(lines[..|lines| - 1], user)))
  }

  lemma UserLastOfLonger(x: seq<string>, user: string -> bool, l: string)
    requires IgnoresReturns(user) && l != ""
    ensures UserLast(x + Kept(DropReturn(l)), user) <==> user(l) || (l == "\r" && UserLast(x, user))
  {
    if DropReturn(l) == "" {
      assert x + [] == x;
    }
  }

  lemma {:induction false} RereadUserLast(lines: seq<string>, user: string -> bool)
    requires IgnoresReturns(user) && Scannable(lines)
    ensures UserLast(Reread(lines), user) <==> UserLastButReturns(lines, user)
  {
    hide UserLast, Reread, IgnoresReturns;
    if lines == [] {
      NothingReread();
      NoUserLast(user);
    } else {
      var init, last := lines[..|lines| - 1], lines[|lines| - 1];
      RereadLast(lines);
      assert last in lines && forall x :: x in init ==> x in lines;
      RereadUserLast(init, user);
      UserLastOfLonger(Reread(init), user, last);
    }
  }

  lemma NoUserLast(user: string -> bool)
    ensures !UserLast([], user)
  {
  }

  lemma TurnsOfLonger(lines: seq<string>, user: string -> bool, l: string)
    ensures Turns(lines + [l], user) == Turns(lines, user) + if user(l) && !UserLast(lines, user) then 1 else 0
  {
    assert (lines + [l])[..|lines|] == lines;
  }

  /** A start that reading back merges into the turn before it, were it added at the end. */
  predicate Merges(lines: seq<string>, user: string -> bool, l: string) {
    user(l) && !UserLast(lines, user) && UserLastButReturns(lines, user)
  }

  predicate NoneMerges(lines: seq<string>, user: string -> bool) {
    lines == []
    || (NoneMerges(lines[..|lines| - 1], user) && !Merges(lines[..|lines| - 1], user, lines[|lines| - 1]))
  }

  lemma RereadTurnsStep(init: seq<string>, user: string -> bool, l: string)
    requires IgnoresReturns(user) && l != "" && (UserLast(Reread(init), user) <==> UserLastButReturns(init, user))
    requires UserLast(init, user) ==> UserLastButReturns(init, user)
    ensures Turns(Reread(init) + Kept(DropReturn(l)), user) - Turns(Reread(init), user)
      == Turns(init + [l], user) - Turns(init, user) - if Merges(init, user, l) then 1 else 0
  {
    hide Reread, UserLast, UserLastButReturns, TurnStarts;
    TurnsOfLonger(init, user, l);
    if DropReturn(l) == "" {
      assert Reread(init) + [] == Reread(init);
    } else {
      TurnsOfLonger(Reread(init), user, DropReturn(l));
    }
  }

  lemma {:induction false} RereadTurns(lines: seq<string>, user: string -> bool)
    requires IgnoresReturns(user) && Scannable(lines)
    ensures Turns(Reread(lines), user) <= Turns(lines, user)
    ensures Turns(Reread(lines), user) == Turns(lines, user) <==> NoneMerges(lines, user)
  {
    hide Turns, Reread, Merges, IgnoresReturns;
    if lines == [] {
      NothingReread();
    } else {
      var init, last := lines[..|lines| - 1], lines[|lines| - 1];
      RereadLast(lines);
      assert last in lines && forall x :: x in init ==> x in lines;
      RereadTurns(init, user);
      RereadUserLast(init, user);
      assert lines == init + [last];
      RereadTurnsStep(init, user, last);
    }
  }

  lemma NothingReread()
    ensures Reread([]) == []
  {
  }

  lemma {:induction false} UserBeforeReturns(lines: seq<string>, user: string -> bool) returns (j: nat)
    requires UserLastButReturns(lines, user)
    ensures j < |lines| && user(lines[j]) && forall k :: j < k < |lines| ==> lines[k] == "\r"
  {
    j := |lines| - 1;
    if !user(lines[j]) {
      j := UserBeforeReturns(lines[..j], user);
    }
  }

  lemma {:induction false} ReturnsAfterUser(lines: seq<string>, user: string -> bool, j: nat)
    requires j < |lines| && user(lines[j]) && forall k :: j < k < |lines| ==> lines[k] == "\r"
    ensures UserLastButReturns(lines, user)
  {
    if j + 1 < |lines| {
      ReturnsAfterUser(lines[..|lines| - 1], user, j);
    }
  }

  lemma {:induction false} NoneMergesExactly(lines: seq<string>, user: string -> bool)
    requires IgnoresReturns(user)
    ensures NoneMerges(lines, user) <==> KeepsTurns(lines, user)
  {
    if lines != [] {
      var init, n := lines[..|lines| - 1], |lines| - 1;
      NoneMergesExactly(init, user);
      forall j: nat, i: nat | i < n ensures Glued(lines, user, j, i) <==> Glued(init, user, j, i) {
      }
      if Merges(init, user, lines[n]) {
        var j := UserBeforeReturns(init, user);
        assert Glued(lines, user, j, n);
      }
      forall j: nat | Glued(lines, user, j, n) ensures Merges(init, user, lines[n]) {
        ReturnsAfterUser(init, user, j);
        assert user(DropReturn("\r")) == user("\r");
      }
    }
  }

  /** Joining two texts can merge the turn at the seam, and loses no other. */
  lemma {:induction false} TurnsJoin(a: seq<string>, b: seq<string>, user: string -> bool)
    ensures Turns(a + b, user)
      == Turns(a, user) + Turns(b, user) - if b != [] && user(b[0]) && UserLast(a, user) then 1 else 0
    decreases |b|
  {
    if b == [] {
      assert a + b == a;
    } else {
      var init, last := b[..|b| - 1], b[|b| - 1];
      TurnsJoin(a, init, user);
      assert b == init + [last] && a + b == (a + init) + [last];
      TurnsOfLonger(init, user, last);
      TurnsOfLonger(a + init, user, last);
    }
  }

  // ---------------------------------------------------------------- the second rewind

  /** Text that starts with a turn, after text that does not end in one, is cut off by its own number of turns. */
  lemma CutAtTheSeam(a: seq<string>, b: seq<string>, user: string -> bool)
    requires b != [] && user(b[0]) && !UserLast(a, user)
    ensures 1 <= Turns(b, user) <= Turns(a + b, user) == Turns(a, user) + Turns(b, user)
    ensures RewindCut(a + b, user, Turns(b, user)) == |a|
  {
    hide TurnStarts;
    StartsOfRest(a, b, user);
    StartsAreExact(b, user);
    assert IsStart(b, user, 0);
    assert TurnStarts(b, user)[0] == 0;
  }

  lemma RereadHead(b: seq<string>, user: string -> bool)
    requires IgnoresReturns(user) && b != [] && user(b[0])
    ensures Reread(b) != [] && user(Reread(b)[0])
  {
  }

  lemma RereadPrefix(a: seq<string>)
    requires Scannable(a)
    ensures Reread(a) == a <==> NoReturns(a)
  {
    RereadSize(a);
    if NoReturns(a) {
      RereadClean(a);
    }
  }

  /** The lines kept by the first rewind, `a` of them to stay. */
  lemma SecondCut(a: seq<string>, b: seq<string>, user: string -> bool)
    requires IgnoresReturns(user) && Scannable(a) && Scannable(b) && b != [] && user(b[0]) && !UserLast(a, user)
    ensures var back, n := Reread(a + b), Turns(b, user);
      n >= 1 && (Turns(back, user) >= n && back[..RewindCut(back, user, n)] == a <==> NoReturns(a) && KeepsTurns(b, user))
  {
    hide TurnStarts, Reread, Scannable, IgnoresReturns, KeepsTurns, NoneMerges, NoReturns;
    var back, n := Reread(a + b), Turns(b, user);
    RereadSplits(a, b);
    CutAtTheSeam([], b, user);
    assert [] + b == b;
    RereadHead(b, user);
    RereadPrefix(a);
    RereadTurns(a, user);
    RereadTurns(b, user);
    NoneMergesExactly(b, user);
    TurnsJoin(Reread(a), Reread(b), user);
    if NoReturns(a) && KeepsTurns(b, user) {
      CutAtTheSeam(a, Reread(b), user);
    } else if Turns(back, user) >= n && back[..RewindCut(back, user, n)] == a {
      assert Turns(a, user) == Turns(back, user) - n;
      CutAtTheSeam(Reread(a), Reread(b), user);
    }
  }

  lemma TwoCuts(lines: seq<string>, user: string -> bool, m: nat, n: nat)
    requires m >= 1 && n >= 1 && m + n <= Turns(lines, user)
    ensures var low, high := RewindCut(lines, user, m + n), RewindCut(lines, user, m);
      && low < high && user(lines[low]) && !UserLast(lines[..low], user)
      && Turns(lines[low..high], user) == n && lines[..high] == lines[..low] + lines[low..high]
  {
    var low, high := RewindCut(lines, user, m + n), RewindCut(lines, user, m);
    var starts := TurnStarts(lines, user);
    StartsAreExact(lines, user);
    assert low == starts[|starts| - m - n] && high == starts[|starts| - m];
    assert low in starts;
    hide TurnStarts, RewindCut;
    CutAtTheSeam(lines[..low], lines[low..high], user);
    assert lines[..high] == lines[..low] + lines[low..high];
  }

  /** The lines of a file that a rewind by m leaves and one by m + n takes away. */
  function Between(b: string, user: string -> bool, m: nat, n: nat): seq<string>
    requires m >= 1 && n >= 1 && Rewindable(b, user, m + n)
  {
    var lines := Scanned(b).value;
    TwoCuts(lines, user, m, n);
    lines[RewindCut(lines, user, m + n)..RewindCut(lines, user, m)]
  }

  /** The first rewind's file as the second one reads it. */
  lemma FirstReadsBack(b: string, user: string -> bool, m: nat)
    requires Rewindable(b, user, m)
    ensures Scanned(Written(KeptLines(b, user, m))) == Some(Reread(KeptLines(b, user, m)))
    ensures Scannable(KeptLines(b, user, m))
  {
    hide Scanned, Written, RewindCut, TurnStarts, Reread;
    ScannedAreScannable(b);
    WrittenScans(KeptLines(b, user, m));
  }

  lemma WrittenDiffers(x: seq<string>, y: seq<string>)
    requires Scannable(x) && Scannable(y)
    ensures Written(x) == Written(y) <==> x == y
  {
    WrittenReplays(x);
    WrittenReplays(y);
  }

  lemma RewindOfReread(a: seq<string>, b: seq<string>, user: string -> bool)
    requires IgnoresReturns(user) && Scannable(a) && Scannable(b) && b != [] && user(b[0]) && !UserLast(a, user)
    ensures var n := Turns(b, user);
      n >= 1 && (RewoundLines(Some(Reread(a + b)), user, n) == Done(Written(a)) <==> NoReturns(a) && KeepsTurns(b, user))
  {
    hide IgnoresReturns, KeepsTurns, NoReturns, Written, TurnStarts, RewindCut;
    var back := Reread(a + b);
    SecondCut(a, b, user);
    RereadIsScannable(a + b);
    if Turns(back, user) >= Turns(b, user) {
      var kept := back[..RewindCut(back, user, Turns(b, user))];
      WrittenDiffers(kept, a);
    }
  }

  lemma {:induction false} RereadIsScannable(lines: seq<string>)
    requires Scannable(lines)
    ensures Scannable(Reread(lines))
  {
    if lines != [] {
      assert lines[0] in lines && forall x :: x in lines[1..] ==> x in lines;
      RereadIsScannable(lines[1..]);
    }
  }

  /** Rewinding by m and then by n is rewinding by m + n exactly when no line that is to stay ends in a further
      carriage return, and no turn in between follows an earlier user line but for lone carriage returns. */
  lemma RewindsAddExactly(b: string, user: string -> bool, m: nat, n: nat)
    requires IgnoresReturns(user) && m >= 1 && n >= 1 && Rewindable(b, user, m + n)
    ensures var first := Rewound(Some(b), user, m);
      && first.Done?
      && (Rewound(Some(first.file), user, n) == Rewound(Some(b), user, m + n)
          <==> NoReturns(KeptLines(b, user, m + n)) && KeepsTurns(Between(b, user, m, n), user))
  {
    hide IgnoresReturns, KeepsTurns, NoReturns, Written, Scanned, TurnStarts, RewindCut, RewoundLines, Scannable;
    var a, middle := KeptLines(b, user, m + n), Between(b, user, m, n);
    TwoCuts(Scanned(b).value, user, m, n);
    RewoundIs(b, user, m);
    RewoundIs(b, user, m + n);
    FirstReadsBack(b, user, m);
    FirstReadsBack(b, user, m + n);
    assert KeptLines(b, user, m) == a + middle;
    assert Scannable(middle) by { PartIsScannable(a, middle); }
    RewindOfReread(a, middle, user);
  }

  lemma PartIsScannable(a: seq<string>, b: seq<string>)
    requires Scannable(a + b)
    ensures Scannable(b)
  {
    assert forall x :: x in b ==> x in a + b;
  }
}
