/**
 When an elided report keeps what splitSides promises of both its ends: at least a minimal side each, or that
 side's whole share (internal/agentreport/elide.go:130-186). Cutting at a line break or before a straddling
 character can leave less than both; the exact budgets for which no text does so are given here.
 */
module ElideSides {
  import opened Utf8
  import opened Elide

  /** The head keeps a minimal side or its whole share. */
  predicate HeadKept(s: bytes, n: nat) {
    HeadEnd(s, n) >= MIN_SIDE || HeadEnd(s, n) == n
  }

  /** The tail keeps a minimal side or its whole share. */
  predicate TailKept(s: bytes, n: nat) {
    |s| - TailStart(s, n) >= MIN_SIDE || |s| - TailStart(s, n) == n
  }

  predicate HeadIsSafe(n: nat) {
    n == 0 || n >= 2 * MIN_SIDE - 1
  }

  predicate TailIsSafe(n: nat) {
    n == 0 || n >= 2 * MIN_SIDE + 2
  }

  // ---------------------------------------------------------------- texts that are cut short

  /** A character of four bytes. */
  const WIDE: bytes := [0xF0, 0x9F, 0x98, 0x80]

  function Letters(k: nat): (s: bytes)
    ensures |s| == k && forall j :: 0 <= j < k ==> s[j] == 97
  {
    seq(k, _ => 97)
  }

  lemma {:induction false} AsciiIsClean(s: bytes)
    requires forall k :: 0 <= k < |s| ==> s[k] < 0x80
    ensures WellFormed(s)
  {
    if s != [] {
      AsciiIsClean(s[1..]);
    }
  }

  lemma AroundWide(a: bytes, b: bytes)
    requires forall k :: 0 <= k < |a| ==> a[k] < 0x80
    requires forall k :: 0 <= k < |b| ==> b[k] < 0x80
    ensures WellFormed(a + WIDE + b)
  {
    AsciiIsClean(a);
    AsciiIsClean(b);
    assert RuneLength(WIDE) == 4 && WIDE[4..] == [];
    Joined(a, WIDE);
    Joined(a + WIDE, b);
  }

  /** What comes before the wide character in a text whose head is cut short: it straddles the budget, and for
      the larger budgets a line ends just behind the middle of the rest. */
  function HeadBody(n: nat): (a: bytes)
    requires n > 0
    ensures |a| == (if n <= MIN_SIDE then n - 1 else if n < 2 * MIN_SIDE - 5 then n else 2 * MIN_SIDE - 5)
    ensures forall k :: 0 <= k < |a| ==> a[k] < 0x80
    ensures LastBreak(a) == if n <= MIN_SIDE then -1 else |a| / 2 + 1
  {
    if n <= MIN_SIDE then Letters(n - 1)
    else
      var m := if n < 2 * MIN_SIDE - 5 then n else 2 * MIN_SIDE - 5;
      var a := Letters(m / 2 + 1) + [NEWLINE] + Letters(m - m / 2 - 2);
      assert a[m / 2 + 1] == NEWLINE;
      a
  }

  function ShortHead(n: nat, pad: nat): bytes
    requires n > 0
  {
    HeadBody(n) + WIDE + Letters(pad)
  }

  lemma WideIsGivenUp(a: bytes, b: bytes, n: nat)
    requires |a| <= n < |a| + 4
    ensures Back(a + WIDE + b, n) == |a|
  {
    var s := a + WIDE + b;
    assert s[|a|] == 0xF0;
    assert Back(s, |a|) == |a| && (n >= |a| + 1 ==> Back(s, |a| + 1) == |a|) && (n >= |a| + 2 ==> Back(s, |a| + 2) == |a|);
  }

  lemma HeadCutShort(n: nat, pad: nat)
    requires !HeadIsSafe(n)
    ensures WellFormed(ShortHead(n, pad)) && |ShortHead(n, pad)| > n + pad
    ensures !HeadKept(ShortHead(n, pad), n)
  {
    hide WellFormed, HeadBody, Back, LastBreak;
    var a, s := HeadBody(n), ShortHead(n, pad);
    AroundWide(a, Letters(pad));
    WideIsGivenUp(a, Letters(pad), n);
    assert s[..|a|] == a;
  }

  /** What comes after the wide character in a text whose tail is cut short, a line of it ending just before the
      middle for the larger budgets. */
  function TailBody(n: nat): (b: bytes)
    requires n > 0
    ensures |b| == (if n <= MIN_SIDE then n - 1 else if n < 2 * MIN_SIDE - 2 then n else 2 * MIN_SIDE - 2)
    ensures forall k :: 0 <= k < |b| ==> b[k] < 0x80
    ensures FirstBreak(b) == if n <= MIN_SIDE then -1 else |b| / 2 - 1
  {
    if n <= MIN_SIDE then Letters(n - 1)
    else
      var m := if n < 2 * MIN_SIDE - 2 then n else 2 * MIN_SIDE - 2;
      var b := Letters(m / 2 - 1) + [NEWLINE] + Letters(m - m / 2);
      assert b[m / 2 - 1] == NEWLINE;
      b
  }

  function ShortTail(n: nat, pad: nat): bytes
    requires n > 0
  {
    Letters(pad) + WIDE + TailBody(n)
  }

  lemma WideIsSkipped(a: bytes, b: bytes, n: nat)
    requires |a| < n <= |a| + 4 && (b == [] || b[0] < 0x80)
    ensures Ahead(a + WIDE + b, n) == |a| + 4
  {
    var s := a + WIDE + b;
    assert s[|a| + 1] == 0x9F && s[|a| + 2] == 0x98 && s[|a| + 3] == 0x80;
    assert Ahead(s, |a| + 4) == |a| + 4 by {
      assert |b| > 0 ==> s[|a| + 4] == b[0];
    }
    assert Ahead(s, |a| + 3) == |a| + 4 && Ahead(s, |a| + 2) == |a| + 4;
  }

  lemma TailCutShort(n: nat, pad: nat)
    requires !TailIsSafe(n)
    ensures WellFormed(ShortTail(n, pad)) && |ShortTail(n, pad)| > n + pad
    ensures !TailKept(ShortTail(n, pad), n)
  {
    hide WellFormed, TailBody, Ahead, FirstBreak;
    var b, s := TailBody(n), ShortTail(n, pad);
    AroundWide(Letters(pad), b);
    WideIsSkipped(Letters(pad), b, |s| - n);
    assert s[pad + 4..] == b;
  }

  // ---------------------------------------------------------------- one side

  lemma HeadStaysLong(s: bytes, n: nat)
    requires WellFormed(s) && n < |s| && HeadIsSafe(n)
    ensures HeadKept(s, n)
  {
    hide WellFormed;
    if n > 0 {
      StartIsNear(s, n);
    }
  }

  lemma TailStaysLong(s: bytes, n: nat)
    requires WellFormed(s) && n < |s| && TailIsSafe(n)
    ensures TailKept(s, n)
  {
    hide WellFormed;
    if n > 0 {
      StartIsNear(s, |s| - n + 3);
    }
  }

  /** Every head keeps a minimal side or its whole share exactly when the share is nothing, or so large that
      half of it, less a cut character, is still a minimal side. */
  lemma HeadKeepsItsSideExactly(n: nat)
    ensures (forall s | WellFormed(s) && n < |s| :: HeadKept(s, n)) <==> n == 0 || n >= 2 * MIN_SIDE - 1
  {
    hide WellFormed, HeadKept;
    if HeadIsSafe(n) {
      forall s | WellFormed(s) && n < |s| ensures HeadKept(s, n) {
        HeadStaysLong(s, n);
      }
    } else {
      HeadCutShort(n, 0);
    }
  }

  /** Likewise every tail, whose line break may take one byte more than half. */
  lemma TailKeepsItsSideExactly(n: nat)
    ensures (forall s | WellFormed(s) && n < |s| :: TailKept(s, n)) <==> n == 0 || n >= 2 * MIN_SIDE + 2
  {
    hide WellFormed, TailKept;
    if TailIsSafe(n) {
      forall s | WellFormed(s) && n < |s| ensures TailKept(s, n) {
        TailStaysLong(s, n);
      }
    } else {
      TailCutShort(n, 0);
    }
  }

  // ---------------------------------------------------------------- both sides

  /** A split keeps a minimal side or the whole share at both ends. */
  predicate SidesKept(text: bytes, n: int, share: nat -> nat)
    requires share(Budget(n)) <= Budget(n)
  {
    var s, tailShare := Split(text, n, share), share(Budget(n));
    && (s.head >= MIN_SIDE || s.head == Budget(n) - tailShare)
    && (|text| - s.tail >= MIN_SIDE || |text| - s.tail == tailShare)
  }

  lemma SplitKeeps(text: bytes, n: int, share: nat -> nat)
    requires share(Budget(n)) <= Budget(n) && |text| > Budget(n)
    ensures var head := Budget(n) - share(Budget(n));
      SidesKept(text, n, share) <==> HeadKept(text, head) && TailKept(text[HeadEnd(text, head)..], share(Budget(n)))
  {
    hide HeadEnd, TailStart;
  }

  lemma SafeSplitKeeps(text: bytes, n: int, share: nat -> nat)
    requires share(Budget(n)) <= Budget(n) && |text| > Budget(n) && WellFormed(text)
    requires HeadIsSafe(Budget(n) - share(Budget(n))) && TailIsSafe(share(Budget(n)))
    ensures SidesKept(text, n, share)
  {
    hide WellFormed, HeadKept, TailKept, SidesKept;
    var head := Budget(n) - share(Budget(n));
    SplitKeeps(text, n, share);
    HeadStaysLong(text, head);
    HeadIsClean(text, head);
    TailStaysLong(text[HeadEnd(text, head)..], share(Budget(n)));
  }

  /** Padding in front of a text that is longer than the tail's budget does not move the tail. */
  lemma TailAfterLetters(n: nat, pad: nat, k: nat)
    requires n > 0 && k <= pad
    ensures ShortTail(n, pad)[k..] == ShortTail(n, pad - k)
  {
    assert Letters(pad)[k..] == Letters(pad - k);
  }

  lemma {:induction false} UnsafeSplitCuts(n: int, share: nat -> nat) returns (text: bytes)
    requires share(Budget(n)) <= Budget(n)
    requires !(HeadIsSafe(Budget(n) - share(Budget(n))) && TailIsSafe(share(Budget(n))))
    ensures WellFormed(text) && |text| > Budget(n) && !SidesKept(text, n, share)
  {
    hide WellFormed, HeadKept, TailKept, SidesKept, ShortHead, ShortTail;
    var tail := share(Budget(n));
    var head := Budget(n) - tail;
    if !HeadIsSafe(head) {
      text := ShortHead(head, tail);
      HeadCutShort(head, tail);
    } else {
      text := ShortTail(tail, head);
      TailCutShort(tail, head);
      var e := HeadEnd(text, head);
      TailAfterLetters(tail, head, e);
      TailCutShort(tail, head - e);
    }
    SplitKeeps(text, n, share);
  }

  /** Every report over the budget keeps what is promised of both its ends exactly when both shares are
      nothing or large enough. */
  lemma SplitKeepsSidesExactly(n: int, share: nat -> nat)
    requires share(Budget(n)) <= Budget(n)
    ensures (forall text | WellFormed(text) && |text| > Budget(n) :: SidesKept(text, n, share))
       <==> HeadIsSafe(Budget(n) - share(Budget(n))) && TailIsSafe(share(Budget(n)))
  {
    hide WellFormed, SidesKept;
    if HeadIsSafe(Budget(n) - share(Budget(n))) && TailIsSafe(share(Budget(n))) {
      forall text | WellFormed(text) && |text| > Budget(n) ensures SidesKept(text, n, share) {
        SafeSplitKeeps(text, n, share);
      }
    } else {
      var text := UnsafeSplitCuts(n, share);
    }
  }

  /** With three fifths for the tail that takes 396 bytes beside the marker. */
  lemma ThreeFifthsKeepSidesExactly(n: int, share: nat -> nat)
    requires share(Budget(n)) == 3 * Budget(n) / 5
    ensures (forall text | WellFormed(text) && |text| > Budget(n) :: SidesKept(text, n, share)) <==> n >= 396
  {
    SplitKeepsSidesExactly(n, share);
  }
}
