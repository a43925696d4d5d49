/**
 Cutting a report to a delivery bound (internal/agentreport/elide.go): both ends are kept, cut between
 characters and at line breaks where one is near, and a marker in between says how much is missing.
 */
module Elide {
  import opened Utf8

  type bytes = seq<byte>

  const NEWLINE: byte := 10
  const DELIVERY_BOUND := 2000
  const MIN_SIDE := 80

  // ---------------------------------------------------------------- one side

  /** The last character start at or before a position. */
  function Back(s: bytes, n: nat): (m: nat)
    requires n < |s|
    ensures m <= n && (m > 0 ==> RuneStart(s[m]))
    ensures forall k :: m < k <= n ==> !RuneStart(s[k])
  {
    if n > 0 && !RuneStart(s[n]) then Back(s, n - 1) else n
  }

  /** The first character start at or after a position, or the end. */
  function Ahead(s: bytes, n: nat): (m: nat)
    requires n <= |s|
    ensures n <= m <= |s| && (m < |s| ==> RuneStart(s[m]))
    ensures forall k :: n <= k < m ==> !RuneStart(s[k])
    decreases |s| - n
  {
    if n < |s| && !RuneStart(s[n]) then Ahead(s, n + 1) else n
  }

  /** The last newline, or -1. */
  function LastBreak(s: bytes): (i: int)
    ensures -1 <= i < |s| && (i >= 0 ==> s[i] == NEWLINE)
    ensures forall k :: i < k < |s| ==> s[k] != NEWLINE
  {
    if s == [] then -1 else if s[|s| - 1] == NEWLINE then |s| - 1 else LastBreak(s[..|s| - 1])
  }

  /** The first newline, or -1. */
  function FirstBreak(s: bytes): (i: int)
    ensures -1 <= i < |s| && (i >= 0 ==> s[i] == NEWLINE)
    ensures forall k :: 0 <= k < (if i < 0 then |s| else i) ==> s[k] != NEWLINE
  {
    if s == [] then -1
    else if s[0] == NEWLINE then 0
    else
      var i := FirstBreak(s[1..]);
      if i < 0 then -1 else i + 1
  }

  /** Where the kept head ends. */
  function HeadEnd(s: bytes, n: int): (e: nat)
    ensures e <= |s| && (0 <= n < |s| ==> e <= n)
  {
    if n >= |s| then |s|
    else if n <= 0 then 0
    else
      var m := Back(s, n);
      var i := LastBreak(s[..m]);
      if i > m / 2 then i + 1 else m
  }

  /** Where the kept tail starts. */
  function TailStart(s: bytes, n: int): (b: nat)
    ensures b <= |s| && (0 <= n < |s| ==> b >= |s| - n)
  {
    if n >= |s| then 0
    else if n <= 0 then |s|
    else
      var m := Ahead(s, |s| - n);
      var i := FirstBreak(s[m..]);
      if 0 <= i < (|s| - m) / 2 then m + i + 1 else m
  }

  /** The head is cut between characters. */
  lemma HeadIsClean(s: bytes, n: int)
    requires WellFormed(s)
    ensures WellFormed(s[..HeadEnd(s, n)]) && WellFormed(s[HeadEnd(s, n)..])
  {
    hide WellFormed;
    if n >= |s| {
      CutAtStart(s, |s|);
    } else if n <= 0 {
      EndsAreClean(s);
    } else {
      var m := Back(s, n);
      if m > 0 {
        CutAtStart(s, m);
      } else {
        EndsAreClean(s);
      }
      var i := LastBreak(s[..m]);
      if i > m / 2 {
        assert s[i] == s[..m][i];
        CutAfterAscii(s, i);
      }
    }
  }

  /** The piece of whole characters that fits ends at the last byte up to the budget that starts a character, or
      is empty; at the other end it starts at the first one. */
  lemma PiecesAreWhole(s: bytes, n: nat)
    requires 0 < n < |s|
    ensures var m := Back(s, n); m <= n && (m > 0 ==> !(0x80 <= s[m] < 0xC0)) && forall k :: m < k <= n ==> 0x80 <= s[k] < 0xC0
    ensures var m := Ahead(s, |s| - n);
      |s| - n <= m && (m < |s| ==> !(0x80 <= s[m] < 0xC0)) && forall k :: |s| - n <= k < m ==> 0x80 <= s[k] < 0xC0
  {
    hide Back, Ahead;
  }

  /** The head ends right after the last line break of the longest piece of whole characters that fits, when
      that break lies in the piece's second half; otherwise it is that piece. */
  lemma HeadEndsAtLastBreak(s: bytes, n: nat)
    requires 0 < n < |s|
    ensures var m, e := Back(s, n), HeadEnd(s, n);
      && e <= m && (forall k :: e <= k < m ==> s[k] != 10 || k <= m / 2)
      && (e < m ==> e - 1 > m / 2 && s[e - 1] == 10)
      && (e == m ==> forall k :: m / 2 < k < m - 1 ==> s[k] != 10 || (m > 0 && s[m - 1] == 10))
  {
    var m := Back(s, n);
    assert forall k :: 0 <= k < m ==> s[..m][k] == s[k];
  }

  /** The tail starts right after the first line break of the longest piece of whole characters that fits, when
      that break lies in the piece's first half; otherwise it is that piece. */
  lemma TailStartsAtFirstBreak(s: bytes, n: nat)
    requires 0 < n < |s|
    ensures var m, b := Ahead(s, |s| - n), TailStart(s, n);
      && m <= b
      && (b > m ==> b - 1 - m < (|s| - m) / 2 && s[b - 1] == 10 && forall k :: m <= k < b - 1 ==> s[k] != 10)
      && (b == m ==> forall k :: m <= k < m + (|s| - m) / 2 ==> s[k] != 10)
  {
    var m := Ahead(s, |s| - n);
    assert forall k :: 0 <= k < |s| - m ==> s[m..][k] == s[m + k];
    assert forall k :: m <= k < |s| ==> s[k] == s[m..][k - m];
  }

  lemma EndsAreClean(s: bytes)
    requires WellFormed(s)
    ensures WellFormed(s[..0]) && WellFormed(s[0..]) && WellFormed(s[|s|..])
  {
    assert s[0..] == s && s[..0] == [] && s[|s|..] == [];
  }

  /** The tail is cut between characters. */
  lemma TailIsClean(s: bytes, n: int)
    requires WellFormed(s)
    ensures WellFormed(s[TailStart(s, n)..])
  {
    hide WellFormed;
    EndsAreClean(s);
    if 0 < n < |s| {
      var m := Ahead(s, |s| - n);
      CutAtStart(s, m);
      var i := FirstBreak(s[m..]);
      if 0 <= i < (|s| - m) / 2 {
        assert s[m + i] == s[m..][i];
        CutAfterAscii(s, m + i);
      }
    }
  }

  /** Each side keeps at least half of what its budget allows, less the three bytes that a cut character can
      take with it. */
  lemma SidesKeepHalf(s: bytes, n: nat)
    requires WellFormed(s) && 0 < n < |s|
    ensures 2 * HeadEnd(s, n) >= n - 3 && 2 * (|s| - TailStart(s, n)) >= n - 3
  {
    hide WellFormed;
    StartIsNear(s, n);
    if |s| - n + 3 < |s| {
      StartIsNear(s, |s| - n + 3);
    }
  }

  method TrimToRuneBoundaryHead(s: bytes, n: int) returns (cut: bytes)
    ensures cut == s[..HeadEnd(s, n)]
  {
    if n >= |s| {
      return s;
    }
    if n <= 0 {
      return [];
    }
    var m := n;
    while m > 0 && !RuneStart(s[m])
      invariant 0 <= m <= n && Back(s, n) == Back(s, m)
    {
      m := m - 1;
    }
    cut := s[..m];
    var i := LastBreak(cut);
    if i > |cut| / 2 {
      assert cut[..i + 1] == s[..i + 1];
      cut := cut[..i + 1];
    }
  }

  method TrimToRuneBoundaryTail(s: bytes, n: int) returns (cut: bytes)
    ensures cut == s[TailStart(s, n)..]
  {
    if n >= |s| {
      return s;
    }
    if n <= 0 {
      return [];
    }
    var start := |s| - n;
    while start < |s| && !RuneStart(s[start])
      invariant |s| - n <= start <= |s| && Ahead(s, |s| - n) == Ahead(s, start)
    {
      start := start + 1;
    }
    cut := s[start..];
    var i := FirstBreak(cut);
    if 0 <= i < |cut| / 2 {
      assert cut[i + 1..] == s[start + i + 1..];
      cut := cut[i + 1..];
    }
  }

  // ---------------------------------------------------------------- both sides

  /** Any split of a budget that gives the tail a part of it. */
  ghost predicate Shares(share: nat -> nat) {
    forall b :: share(b) <= b
  }

  function Budget(n: int): nat {
    if n < 2 * MIN_SIDE then 2 * MIN_SIDE else n
  }

  /** The kept ends: the head's length, and where the tail starts. */
  datatype Sides = Sides(head: nat, tail: nat)

  function Split(text: bytes, n: int, share: nat -> nat): (s: Sides)
    ensures s.head <= s.tail <= |text|
  {
    var budget := Budget(n);
    if budget >= |text| then Sides(|text|, |text|)
    else
      var head := HeadEnd(text, budget - share(budget));
      Sides(head, head + TailStart(text[head..], share(budget)))
  }

  function Elided(s: Sides): int {
    s.tail - s.head
  }

  method SplitSides(text: bytes, n: int, share: nat -> nat) returns (head: bytes, tail: bytes)
    ensures head == text[..Split(text, n, share).head] && tail == text[Split(text, n, share).tail..]
  {
    hide HeadEnd, TailStart;
    var budget := if n < 2 * MIN_SIDE then 2 * MIN_SIDE else n;
    if budget >= |text| {
      assert text[..|text|] == text;
      return text, [];
    }
    var tailBudget := share(budget);
    var headBudget := budget - tailBudget;
    head := TrimToRuneBoundaryHead(text, headBudget);
    tail := TrimToRuneBoundaryTail(text[|head|..], tailBudget);
    assert text[|head|..][TailStart(text[|head|..], tailBudget)..] == text[Split(text, n, share).tail..];
  }

  /** The kept ends fit the budget, and something is elided exactly when the text does not. */
  lemma SplitFits(text: bytes, n: int, share: nat -> nat)
    requires Shares(share)
    ensures var s, budget := Split(text, n, share), if n < 160 then 160 else n;
      && s.head + (|text| - s.tail) <= budget
      && (Elided(s) > 0 <==> budget < |text|)
  {
    var budget := Budget(n);
    if budget < |text| {
      assert share(budget) <= budget;
      var rest := text[Split(text, n, share).head..];
    }
  }

  lemma TailOfRest(text: bytes, head: nat, n: int)
    requires head <= |text| && WellFormed(text[head..])
    ensures WellFormed(text[head + TailStart(text[head..], n)..])
  {
    hide WellFormed, TailStart;
    var rest := text[head..];
    TailIsClean(rest, n);
    DropTwice(text, head, TailStart(rest, n));
  }

  lemma SplitIsClean(text: bytes, n: int, share: nat -> nat)
    requires WellFormed(text)
    ensures WellFormed(text[..Split(text, n, share).head]) && WellFormed(text[Split(text, n, share).tail..])
  {
    hide WellFormed, HeadEnd, TailStart;
    var budget := Budget(n);
    if budget >= |text| {
      CutAtStart(text, |text|);
    } else {
      HeadIsClean(text, budget - share(budget));
      TailOfRest(text, HeadEnd(text, budget - share(budget)), share(budget));
    }
  }

  lemma DropTwice(text: bytes, a: nat, b: nat)
    requires a + b <= |text|
    ensures text[a..][b..] == text[a + b..]
  {
  }

  // ---------------------------------------------------------------- the marker

  /** The fixed parts of the marker text, around its two counts. */
  datatype Frame = Frame(before: bytes, between: bytes, after: bytes)

  /** A count in decimal ASCII. */
  function Digits(n: nat): bytes {
    if n < 10 then [48 + n] else Digits(n / 10) + [48 + n % 10]
  }

  /** A decimal numeral in ASCII, without leading zeros. */
  predicate IsNumeral(d: bytes) {
    d != [] && (forall k :: 0 <= k < |d| ==> 48 <= d[k] <= 57) && (|d| > 1 ==> d[0] != 48)
  }

  /** What a numeral says. */
  function Value(d: bytes): int {
    if d == [] then 0 else 10 * Value(d[..|d| - 1]) + (d[|d| - 1] as int - 48)
  }

  lemma {:induction false} DigitsRead(n: nat)
    ensures IsNumeral(Digits(n)) && Value(Digits(n)) == n
    ensures n > 0 ==> Digits(n)[0] != 48
  {
    if n >= 10 {
      DigitsRead(n / 10);
      var d := Digits(n);
      assert d[..|d| - 1] == Digits(n / 10);
    } else {
      assert Digits(n)[..0] == [];
    }
  }

  function Marker(f: Frame, elided: nat, total: nat): bytes {
    f.before + Digits(elided) + f.between + Digits(total) + f.after
  }

  lemma {:induction false} DigitsAreClean(n: nat)
    ensures WellFormed(Digits(n))
  {
    if n >= 10 {
      DigitsAreClean(n / 10);
    }
    var last: bytes := [48 + n % 10];
    assert RuneLength(last) == 1 && last[1..] == [];
    if n >= 10 {
      Joined(Digits(n / 10), last);
    }
  }

  predicate FrameWellFormed(f: Frame) {
    WellFormed(f.before) && WellFormed(f.between) && WellFormed(f.after)
  }

  lemma MarkerIsClean(f: Frame, elided: nat, total: nat)
    requires FrameWellFormed(f)
    ensures WellFormed(Marker(f, elided, total))
  {
    DigitsAreClean(elided);
    DigitsAreClean(total);
    Joined(f.before, Digits(elided));
    Joined(f.before + Digits(elided), f.between);
    Joined(f.before + Digits(elided) + f.between, Digits(total));
    Joined(f.before + Digits(elided) + f.between + Digits(total), f.after);
  }

  // ---------------------------------------------------------------- the elision

  datatype Elision = Elision(text: bytes, truncated: bool, totalBytes: nat, elidedBytes: int)

  function Bound(bound: int): nat {
    if bound <= 0 then DELIVERY_BOUND else bound
  }

  /** The split under the marker that counts `elided` bytes. */
  function SplitFor(text: bytes, bound: int, f: Frame, elided: nat, share: nat -> nat): (s: Sides)
    ensures s.head <= s.tail <= |text|
  {
    Split(text, Bound(bound) - |Marker(f, elided, |text|)|, share)
  }

  function FirstGuess(text: bytes, bound: int, f: Frame, share: nat -> nat): nat {
    Elided(SplitFor(text, bound, f, 0, share))
  }

  function Final(text: bytes, bound: int, f: Frame, share: nat -> nat): (s: Sides)
    ensures s.head <= s.tail <= |text|
  {
    SplitFor(text, bound, f, FirstGuess(text, bound, f, share), share)
  }

  /** What is delivered is the first `i` bytes of the text, a marker that says in numerals how many bytes are
      missing and how many there were, and the text from byte `j` on; that many are missing. */
  predicate DeliversEnds(text: bytes, f: Frame, e: Elision, missing: bytes, all: bytes, i: nat, j: nat) {
    && i <= j <= |text| && IsNumeral(missing) && IsNumeral(all)
    && e.text == text[..i] + (f.before + missing + f.between + all + f.after) + text[j..]
    && e.truncated && Value(missing) == e.elidedBytes == j - i && Value(all) == e.totalBytes == |text|
  }

  lemma MarkedDelivery(text: bytes, f: Frame, s: Sides)
    requires s.head <= s.tail <= |text|
    ensures var e := Elision(text[..s.head] + Marker(f, Elided(s), |text|) + text[s.tail..], true, |text|, Elided(s));
      DeliversEnds(text, f, e, Digits(Elided(s)), Digits(|text|), s.head, s.tail)
  {
    hide Digits, Value, IsNumeral;
    DigitsRead(Elided(s));
    DigitsRead(|text|);
  }

  method ElideText(text: bytes, bound: int, f: Frame, share: nat -> nat) returns (e: Elision)
    ensures |text| <= (if bound <= 0 then 2000 else bound) ==> e == Elision(text, false, |text|, 0)
    ensures |text| > (if bound <= 0 then 2000 else bound) ==>
      var s := Final(text, bound, f, share);
      && e == Elision(text[..s.head] + Marker(f, Elided(s), |text|) + text[s.tail..], true, |text|, Elided(s))
      && DeliversEnds(text, f, e, Digits(Elided(s)), Digits(|text|), s.head, s.tail)
  {
    hide Marker, Split;
    var total := |text|;
    var limit := if bound <= 0 then DELIVERY_BOUND else bound;
    if total <= limit {
      return Elision(text, false, total, 0);
    }
    var marker := Marker(f, 0, total);
    var head, tail := SplitSides(text, limit - |marker|, share);
    var elided := total - |head| - |tail|;
    marker := Marker(f, elided, total);
    head, tail := SplitSides(text, limit - |marker|, share);
    elided := total - |head| - |tail|;
    marker := Marker(f, elided, total);
    MarkedDelivery(text, f, Final(text, bound, f, share));
    return Elision(head + marker + tail, true, total, elided);
  }

  /** The first round makes room for a marker that counts nothing, the second for one that counts what the first
      left out. */
  lemma RoomsExactly(text: bytes, bound: int, f: Frame, share: nat -> nat)
    ensures var fixed := |f.before| + |f.between| + |f.after| + |Digits(|text|)|;
      var limit := if bound <= 0 then 2000 else bound;
      var first := Split(text, limit - fixed - 1, share);
      Final(text, bound, f, share) == Split(text, limit - fixed - |Digits(first.tail - first.head)|, share)
  {
    hide Split, Digits;
    OneDigit();
  }

  lemma OneDigit()
    ensures |Digits(0)| == 1
  {
  }

  /** The marker's count is exact, and positive exactly when the room left beside the marker, never less than
      two minimal sides, is smaller than the text. */
  lemma CountIsExact(text: bytes, bound: int, f: Frame, share: nat -> nat)
    requires Shares(share)
    ensures var s := Final(text, bound, f, share);
      var room := Bound(bound) - |Marker(f, FirstGuess(text, bound, f, share), |text|)|;
      && s.head + Elided(s) + (|text| - s.tail) == |text|
      && (Elided(s) > 0 <==> Budget(room) < |text|)
  {
    SplitFits(text, Bound(bound) - |Marker(f, FirstGuess(text, bound, f, share), |text|)|, share);
  }

  /** Of a text over its bound something is missing exactly when it is longer than two minimal sides: a text no
      longer than that can be marked as truncated with nothing elided. */
  lemma OverBoundIsCutExactly(text: bytes, bound: int, f: Frame, share: nat -> nat)
    requires Shares(share) && |text| > Bound(bound)
    ensures Elided(Final(text, bound, f, share)) > 0 <==> |text| > 160
  {
    CountIsExact(text, bound, f, share);
  }

  /** What is delivered exceeds the bound only by the digits that the final count has over the first one, or
      because two minimal sides and the marker do not fit. */
  lemma SizeIsBounded(text: bytes, bound: int, f: Frame, share: nat -> nat)
    requires Shares(share)
    ensures var s := Final(text, bound, f, share);
      var guess := FirstGuess(text, bound, f, share);
      var marker := Marker(f, Elided(s), |text|);
      var planned := |Marker(f, guess, |text|)|;
      && |marker| - planned == |Digits(Elided(s))| - |Digits(guess)|
      && |text[..s.head] + marker + text[s.tail..]|
         <= (if Bound(bound) >= planned + 2 * MIN_SIDE then Bound(bound) else planned + 2 * MIN_SIDE)
            + (|Digits(Elided(s))| - |Digits(guess)|)
  {
    hide Split, FirstGuess, Digits, Shares;
    var room := Bound(bound) - |Marker(f, FirstGuess(text, bound, f, share), |text|)|;
    assert Final(text, bound, f, share) == Split(text, room, share);
    SplitFits(text, room, share);
  }

  /** Well-formed UTF-8 in, well-formed UTF-8 out. */
  lemma {:induction false} DeliveredIsWellFormed(text: bytes, bound: int, f: Frame, share: nat -> nat)
    requires WellFormed(text) && FrameWellFormed(f)
    ensures var s := Final(text, bound, f, share);
      WellFormed(text[..s.head] + Marker(f, Elided(s), |text|) + text[s.tail..])
  {
    hide WellFormed, Marker, Final, FrameWellFormed;
    var s := Final(text, bound, f, share);
    FinalIsClean(text, bound, f, share);
    MarkerIsClean(f, Elided(s), |text|);
    JoinedThrice(text[..s.head], Marker(f, Elided(s), |text|), text[s.tail..]);
  }

  lemma FinalIsClean(text: bytes, bound: int, f: Frame, share: nat -> nat)
    requires WellFormed(text)
    ensures var s := Final(text, bound, f, share); WellFormed(text[..s.head]) && WellFormed(text[s.tail..])
  {
    hide WellFormed, Marker, Split, FirstGuess;
    var room := Bound(bound) - |Marker(f, FirstGuess(text, bound, f, share), |text|)|;
    assert Final(text, bound, f, share) == Split(text, room, share);
    SplitIsClean(text, room, share);
  }

  lemma JoinedThrice(a: bytes, b: bytes, c: bytes)
    requires WellFormed(a) && WellFormed(b) && WellFormed(c)
    ensures WellFormed(a + b + c)
  {
    hide WellFormed;
    Joined(a, b);
    Joined(a + b, c);
  }
}
