/**
 A file as newline-ended lines: what both journals of the repository are made of.
 */
module TextLines {

  /** Where the first newline is, or the length when there is none. */
  function Break(b: string): (i: nat)
    ensures i <= |b| && (i < |b| ==> b[i] == '\n')
    ensures forall k :: 0 <= k < i ==> b[k] != '\n'
  {
    if b == "" || b[0] == '\n' then 0 else 1 + Break(b[1..])
  }

  predicate EndsALine(b: string) {
    b == "" || b[|b| - 1] == '\n'
  }

  /** Everything up to and including the last newline. */
  function Whole(b: string): string
    decreases |b|
  {
    var i := Break(b);
    if i == |b| then "" else b[..i + 1] + Whole(b[i + 1..])
  }

  /** What follows the last newline. */
  function Torn(b: string): string
    decreases |b|
  {
    var i := Break(b);
    if i == |b| then b else Torn(b[i + 1..])
  }

  predicate Unbroken(t: string) {
    forall k :: 0 <= k < |t| ==> t[k] != '\n'
  }

  lemma {:induction false} BreakIsUnique(b: string, i: nat)
    requires i <= |b| && (i < |b| ==> b[i] == '\n')
    requires forall k :: 0 <= k < i ==> b[k] != '\n'
    ensures Break(b) == i
  {
    if i > 0 {
      BreakIsUnique(b[1..], i - 1);
    }
  }

  lemma BreakOfLine(l: string, rest: string)
    requires Unbroken(l)
    ensures var b := l + "\n" + rest;
      Break(b) == |l| && b[..|l|] == l && b[|l| + 1..] == rest
  {
    BreakIsUnique(l + "\n" + rest, |l|);
  }

  lemma FirstLine(x: string) returns (l: string, rest: string)
    requires x != "" && EndsALine(x)
    ensures x == l + "\n" + rest && Unbroken(l) && EndsALine(rest)
  {
    var i := Break(x);
    assert x[|x| - 1] == '\n';
    l, rest := x[..i], x[i + 1..];
  }

  lemma UnbrokenBreak(t: string)
    requires Unbroken(t)
    ensures Break(t) == |t|
  {
    BreakIsUnique(t, |t|);
  }

  lemma WholeStep(l: string, rest: string)
    requires Unbroken(l)
    ensures Whole(l + "\n" + rest) == l + "\n" + Whole(rest) && Torn(l + "\n" + rest) == Torn(rest)
  {
    BreakOfLine(l, rest);
    assert (l + "\n" + rest)[..|l| + 1] == l + "\n";
  }

  lemma {:induction false} WholeAndTorn(b: string)
    ensures b == Whole(b) + Torn(b) && Unbroken(Torn(b)) && EndsALine(Whole(b))
    decreases |b|
  {
    var i := Break(b);
    if i < |b| {
      var l, rest := b[..i], b[i + 1..];
      assert b == l + "\n" + rest;
      WholeStep(l, rest);
      WholeAndTorn(rest);
    }
  }

  lemma TornExactly(b: string)
    ensures EndsALine(b) <==> Torn(b) == ""
  {
    WholeAndTorn(b);
    var w, t := Whole(b), Torn(b);
    if t == "" {
      assert w + t == w;
    } else {
      assert (w + t)[|w + t| - 1] == t[|t| - 1];
    }
  }

  // ---------------------------------------------------------------- long lines

  /** `n` characters without a newline. */
  predicate HasLongLine(b: string, n: nat) {
    exists i :: 0 <= i <= |b| && LongFrom(b, i, n)
  }

  predicate LongFrom(b: string, i: int, n: nat) {
    0 <= i <= |b| - n && forall k :: i <= k < i + n ==> b[k] != '\n'
  }

  lemma HasLongLineAfter(l: string, rest: string, n: nat)
    requires Unbroken(l) && |l| < n
    ensures HasLongLine(l + "\n" + rest, n) <==> HasLongLine(rest, n)
  {
    var b, m := l + "\n" + rest, |l| + 1;
    assert forall k :: 0 <= k < |rest| ==> b[m + k] == rest[k];
    assert b[|l|] == '\n';
    if i :| LongFrom(rest, i, n) {
      assert forall k :: m + i <= k < m + i + n ==> b[k] == rest[k - m];
      assert LongFrom(b, m + i, n);
    }
    if i :| LongFrom(b, i, n) {
      assert i > |l|;
      assert forall k :: i - m <= k < i - m + n ==> rest[k] == b[m + k];
      assert LongFrom(rest, i - m, n);
    }
  }

  lemma ShortTextFits(b: string, n: nat)
    requires |b| < n
    ensures !HasLongLine(b, n)
  {
  }

  lemma LongLineShows(b: string, i: nat, n: nat)
    requires n <= i <= |b| && Unbroken(b[..i])
    ensures HasLongLine(b, n)
  {
    assert forall k :: 0 <= k < i ==> b[..i][k] == b[k];
    assert LongFrom(b, 0, n);
  }
}
