/**
 Byte strings of well-formed UTF-8, by the syntax of section 4 of RFC 3629, and where they may be cut.
 */
module Utf8 {

  type byte = x: int | 0 <= x < 256

  /** A byte that is not the inside of an encoded character. */
  predicate RuneStart(b: byte) {
    !(0x80 <= b < 0xC0)
  }

  /** The second byte that the first one allows. */
  predicate SecondFits(first: byte, second: byte) {
    if first == 0xE0 then 0xA0 <= second < 0xC0
    else if first == 0xED then 0x80 <= second < 0xA0
    else if first == 0xF0 then 0x90 <= second < 0xC0
    else if first == 0xF4 then 0x80 <= second < 0x90
    else !RuneStart(second)
  }

  /** The length of the character that starts a byte string, or 0 when none does. */
  function RuneLength(s: seq<byte>): (n: nat)
    ensures n <= |s| && n <= 4
    ensures n > 0 ==> RuneStart(s[0]) && forall k :: 0 < k < n ==> !RuneStart(s[k])
  {
    if s == [] then 0
    else if s[0] < 0x80 then 1
    else if 0xC2 <= s[0] < 0xE0 && |s| >= 2 && !RuneStart(s[1]) then 2
    else if 0xE0 <= s[0] < 0xF0 && |s| >= 3 && SecondFits(s[0], s[1]) && !RuneStart(s[2]) then 3
    else if 0xF0 <= s[0] < 0xF5 && |s| >= 4 && SecondFits(s[0], s[1]) && !RuneStart(s[2]) && !RuneStart(s[3]) then 4
    else 0
  }

  predicate WellFormed(s: seq<byte>)
    decreases |s|
  {
    s == [] || (RuneLength(s) > 0 && WellFormed(s[RuneLength(s)..]))
  }

  lemma SameRune(s: seq<byte>, t: seq<byte>)
    requires RuneLength(s) > 0 && RuneLength(s) <= |t| && s[..RuneLength(s)] == t[..RuneLength(s)]
    ensures RuneLength(t) == RuneLength(s)
  {
    var n := RuneLength(s);
    assert forall k :: 0 <= k < n ==> s[..n][k] == s[k] && t[..n][k] == t[k];
  }

  lemma {:induction false} Joined(a: seq<byte>, b: seq<byte>)
    requires WellFormed(a) && WellFormed(b)
    ensures WellFormed(a + b)
    decreases |a|
  {
    if a == [] {
      assert a + b == b;
    } else {
      var n := RuneLength(a);
      assert (a + b)[..n] == a[..n] && (a + b)[n..] == a[n..] + b;
      SameRune(a, a + b);
      Joined(a[n..], b);
    }
  }

  /** A well-formed string may be cut before any byte that starts a character. */
  lemma {:induction false} CutAtStart(s: seq<byte>, n: nat)
    requires WellFormed(s) && n <= |s| && (n < |s| ==> RuneStart(s[n]))
    ensures WellFormed(s[..n]) && WellFormed(s[n..])
    decreases |s|
  {
    if n == 0 {
      assert s[..0] == [] && s[0..] == s;
    } else {
      var k := RuneLength(s);
      var rest := s[k..];
      CutAtStart(rest, n - k);
      assert s[n..] == rest[n - k..];
      assert s[..n][..k] == s[..k] && s[..n][k..] == rest[..n - k];
      SameRune(s, s[..n]);
    }
  }

  /** It may also be cut right after an ASCII byte. */
  lemma {:induction false} CutAfterAscii(s: seq<byte>, i: nat)
    requires WellFormed(s) && i < |s| && s[i] < 0x80
    ensures WellFormed(s[..i + 1]) && WellFormed(s[i + 1..])
  {
    CutAtStart(s, i);
    var rest := s[i..];
    assert RuneLength(rest) == 1 && rest[1..] == s[i + 1..];
    if i + 1 < |s| {
      assert rest[1..] != [] && RuneLength(rest[1..]) > 0 && rest[1..][0] == s[i + 1];
    }
    CutAtStart(s, i + 1);
  }

  /** No four bytes in a row lie inside characters. */
  lemma {:induction false} StartIsNear(s: seq<byte>, n: nat)
    requires WellFormed(s) && n < |s|
    ensures exists j :: n - 3 <= j <= n && j >= 0 && RuneStart(s[j])
    decreases |s|
  {
    var k := RuneLength(s);
    if n < k {
      assert RuneStart(s[0]);
    } else {
      StartIsNear(s[k..], n - k);
      var j :| n - k - 3 <= j <= n - k && j >= 0 && RuneStart(s[k..][j]);
      assert RuneStart(s[j + k]);
    }
  }

  // ---------------------------------------------------------------- characters

  /** A Unicode scalar value. */
  predicate Scalar(c: int) {
    0 <= c < 0xD800 || 0xE000 <= c < 0x11_0000
  }

  predicate Scalars(cs: seq<int>) {
    forall c :: c in cs ==> Scalar(c)
  }

  /** The encoding of a character, by section 3 of RFC 3629. */
  function Encode(c: int): seq<byte>
    requires Scalar(c)
  {
    if c < 0x80 then [c]
    else if c < 0x800 then [0xC0 + c / 64, 0x80 + c % 64]
    else if c < 0x1_0000 then [0xE0 + c / 0x1000, 0x80 + c / 64 % 64, 0x80 + c % 64]
    else [0xF0 + c / 0x4_0000, 0x80 + c / 0x1000 % 64, 0x80 + c / 64 % 64, 0x80 + c % 64]
  }

  function EncodeAll(cs: seq<int>): seq<byte>
    requires Scalars(cs)
  {
    if cs == [] then [] else Encode(cs[0]) + EncodeAll(cs[1..])
  }

  lemma EncodingIsRune(c: int, rest: seq<byte>)
    requires Scalar(c)
    ensures RuneLength(Encode(c) + rest) == |Encode(c)|
  {
  }

  lemma Sextets(high: int, low: int)
    requires high >= 0 && 0 <= low < 64
    ensures (high * 64 + low) / 64 == high && (high * 64 + low) % 64 == low
  {
  }

  lemma Shifted(c: int)
    requires c >= 0
    ensures c / 0x1000 == c / 64 / 64 && c / 0x4_0000 == c / 64 / 64 / 64
  {
  }

  lemma TwoBytes(x: int, y: int)
    requires 2 <= x < 32 && 0 <= y < 64
    ensures Scalar(x * 64 + y) && Encode(x * 64 + y) == [0xC0 + x, 0x80 + y]
  {
    Sextets(x, y);
  }

  lemma ThreeBytes(x: int, y: int, z: int)
    requires 0 <= x < 16 && 0 <= y < 64 && 0 <= z < 64 && (x == 0 ==> y >= 32) && (x == 13 ==> y < 32)
    ensures var c := (x * 64 + y) * 64 + z; Scalar(c) && Encode(c) == [0xE0 + x, 0x80 + y, 0x80 + z]
  {
    Sextets(x, y);
    Sextets(x * 64 + y, z);
    Shifted((x * 64 + y) * 64 + z);
  }

  lemma FourBytes(w: int, x: int, y: int, z: int)
    requires 0 <= w < 5 && 0 <= x < 64 && 0 <= y < 64 && 0 <= z < 64 && (w == 0 ==> x >= 16) && (w == 4 ==> x < 16)
    ensures var c := ((w * 64 + x) * 64 + y) * 64 + z;
      Scalar(c) && Encode(c) == [0xF0 + w, 0x80 + x, 0x80 + y, 0x80 + z]
  {
    Sextets(w, x);
    Sextets(w * 64 + x, y);
    Sextets((w * 64 + x) * 64 + y, z);
    Shifted(((w * 64 + x) * 64 + y) * 64 + z);
  }

  lemma RuneIsEncoding(s: seq<byte>) returns (c: int)
    requires RuneLength(s) > 0
    ensures Scalar(c) && Encode(c) == s[..RuneLength(s)]
  {
    hide Scalar, Encode;
    var n := RuneLength(s);
    if n == 1 {
      c := s[0];
      OneByte(c);
    } else if n == 2 {
      c := (s[0] as int - 0xC0) * 64 + (s[1] as int - 0x80);
      TwoBytes(s[0] as int - 0xC0, s[1] as int - 0x80);
    } else if n == 3 {
      c := ((s[0] as int - 0xE0) * 64 + (s[1] as int - 0x80)) * 64 + (s[2] as int - 0x80);
      ThreeBytes(s[0] as int - 0xE0, s[1] as int - 0x80, s[2] as int - 0x80);
    } else {
      c := (((s[0] as int - 0xF0) * 64 + (s[1] as int - 0x80)) * 64 + (s[2] as int - 0x80)) * 64 + (s[3] as int - 0x80);
      FourBytes(s[0] as int - 0xF0, s[1] as int - 0x80, s[2] as int - 0x80, s[3] as int - 0x80);
    }
  }

  lemma OneByte(c: int)
    requires 0 <= c < 0x80
    ensures Scalar(c) && Encode(c) == [c]
  {
  }

  lemma {:induction false} EncodedIsWellFormed(cs: seq<int>)
    requires Scalars(cs)
    ensures WellFormed(EncodeAll(cs))
  {
    if cs != [] {
      var rest := EncodeAll(cs[1..]);
      EncodedIsWellFormed(cs[1..]);
      EncodingIsRune(cs[0], rest);
      assert (Encode(cs[0]) + rest)[|Encode(cs[0])|..] == rest;
    }
  }

  lemma FirstRune(s: seq<byte>)
    requires WellFormed(s) && s != []
    ensures RuneLength(s) > 0 && WellFormed(s[RuneLength(s)..])
  {
  }

  lemma NothingEncoded()
    ensures Scalars([]) && EncodeAll([]) == []
  {
  }

  lemma OneMore(c: int, cs: seq<int>)
    requires Scalar(c) && Scalars(cs)
    ensures Scalars([c] + cs) && EncodeAll([c] + cs) == Encode(c) + EncodeAll(cs)
  {
    assert ([c] + cs)[1..] == cs;
  }

  lemma {:induction false} WellFormedIsEncoded(s: seq<byte>) returns (cs: seq<int>)
    requires WellFormed(s)
    ensures Scalars(cs) && EncodeAll(cs) == s
    decreases |s|
  {
    hide *;
    cs := [];
    if s == [] {
      NothingEncoded();
    } else {
      FirstRune(s);
      var n := RuneLength(s);
      var c := RuneIsEncoding(s);
      var more := WellFormedIsEncoded(s[n..]);
      cs := [c] + more;
      OneMore(c, more);
      assert s == s[..n] + s[n..];
    }
  }

  /** The syntax accepts exactly the encodings of sequences of characters. */
  lemma WellFormedExactly(s: seq<byte>)
    ensures WellFormed(s) <==> exists cs :: Scalars(cs) && EncodeAll(cs) == s
  {
    if WellFormed(s) {
      var cs := WellFormedIsEncoded(s);
    }
    if cs :| Scalars(cs) && EncodeAll(cs) == s {
      EncodedIsWellFormed(cs);
    }
  }
}
