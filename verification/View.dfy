/**
 The replay view, defined without stream keys, generations or passes: a fragment that no open
 response of its id can take starts a frame, and the frame's text is found by looking ahead.
 */
module View {
  import opened Transcript

  /** What one journal line does to an open response. */
  function After(f: Frame, l: Line): Frame {
    if Seals(l) then Sealed(f)
    else if l.ToolResult? then Marked(f)
    else if l.Fragment? && l.id == f.id then Absorbed(f, l)
    else f
  }

  /** What an open response becomes over the rest of the journal. */
  function Gathered(f: Frame, lines: seq<Line>): Frame
    decreases |lines|
  {
    if !Open(f) then f
    else if lines == [] then Sealed(f)
    else Gathered(After(f, lines[0]), lines[1..])
  }

  /** The ids with an open response after one more line ("" is the unlabelled response). */
  function OpenAfter(open: set<string>, l: Line): set<string> {
    if Seals(l) then {}
    else if !l.Fragment? then open
    else if Terminal(l.stop) then open - {l.id}
    else open + {l.id}
  }

  function ViewFrom(filtered: string -> bool, open: set<string>, lines: seq<Line>): seq<Line>
    decreases |lines|
  {
    if lines == [] then []
    else Shown(filtered, open, lines) + ViewFrom(filtered, OpenAfter(open, lines[0]), lines[1..])
  }

  /** What the view shows in place of the first of `lines`. */
  function Shown(filtered: string -> bool, open: set<string>, lines: seq<Line>): seq<Line>
    requires lines != []
  {
    if !lines[0].Fragment? then [lines[0]]
    else if lines[0].id in open then []
    else [Rendered(filtered, Gathered(NewFrame(lines[0].id), lines))]
  }

  function Coalesced(filtered: string -> bool, lines: seq<Line>): seq<Line> {
    ViewFrom(filtered, {}, lines)
  }

  // ---------------------------------------------------------------- settle lines cut the journal

  lemma {:induction false} GatheredStopsAtSeal(f: Frame, a: seq<Line>, s: Line, b: seq<Line>)
    requires Seals(s)
    ensures Gathered(f, a + [s] + b) == Gathered(f, a)
    decreases |a|
  {
    var whole := a + [s] + b;
    if a == [] {
      assert whole[0] == s;
    } else {
      assert whole[0] == a[0] && whole[1..] == a[1..] + [s] + b;
      GatheredStopsAtSeal(After(f, a[0]), a[1..], s, b);
    }
  }

  lemma {:induction false} SealSplitsView(
    filtered: string -> bool, open: set<string>, a: seq<Line>, s: Line, b: seq<Line>)
    requires Seals(s)
    ensures ViewFrom(filtered, open, a + [s] + b)
         == ViewFrom(filtered, open, a) + [s] + Coalesced(filtered, b)
    decreases |a|
  {
    var whole := a + [s] + b;
    if a == [] {
      assert whole[0] == s && whole[1..] == b;
    } else {
      assert whole[0] == a[0] && whole[1..] == a[1..] + [s] + b;
      SealSplitsView(filtered, OpenAfter(open, a[0]), a[1..], s, b);
      if a[0].Fragment? {
        GatheredStopsAtSeal(NewFrame(a[0].id), a, s, b);
      }
    }
  }

  /** A settle line, or a line that does not decode, cuts the view into two independent views. */
  lemma SealSplits(filtered: string -> bool, a: seq<Line>, s: Line, b: seq<Line>)
    requires Seals(s)
    ensures Coalesced(filtered, a + [s] + b) == Coalesced(filtered, a) + [s] + Coalesced(filtered, b)
  {
    SealSplitsView(filtered, {}, a, s, b);
  }

  // ---------------------------------------------------------------- what passes through

  function PassThrough(lines: seq<Line>): seq<Line>
    decreases |lines|
  {
    if lines == [] then []
    else (if lines[0].Fragment? then [] else [lines[0]]) + PassThrough(lines[1..])
  }

  lemma {:induction false} PassThroughConcat(a: seq<Line>, b: seq<Line>)
    ensures PassThrough(a + b) == PassThrough(a) + PassThrough(b)
    decreases |a|
  {
    if a == [] {
      assert a + b == b;
    } else {
      assert (a + b)[1..] == a[1..] + b;
      PassThroughConcat(a[1..], b);
    }
  }

  lemma {:induction false} ViewKeepsOtherLines(filtered: string -> bool, open: set<string>, lines: seq<Line>)
    ensures PassThrough(ViewFrom(filtered, open, lines)) == PassThrough(lines)
    decreases |lines|
  {
    if lines != [] {
      var here := Shown(filtered, open, lines);
      var rest := ViewFrom(filtered, OpenAfter(open, lines[0]), lines[1..]);
      ViewKeepsOtherLines(filtered, OpenAfter(open, lines[0]), lines[1..]);
      PassThroughConcat(here, rest);
      assert PassThrough(here) == if lines[0].Fragment? then [] else [lines[0]];
    }
  }

  // ---------------------------------------------------------------- which fragments belong together

  /** Fragment `i` continues the response that fragment `j` belongs to. */
  predicate Joins(lines: seq<Line>, j: nat, i: nat)
    requires i < |lines|
  {
    && j < i
    && lines[j].Fragment? && lines[i].Fragment? && lines[j].id == lines[i].id
    && StaysOpen(lines, j, i)
  }

  /** No line in j..i seals the response of fragment `j`: no settle line, no line that does not decode, and no
      terminal stop of its own id. */
  predicate StaysOpen(lines: seq<Line>, j: nat, i: nat)
    requires j <= i <= |lines| && j < |lines| && lines[j].Fragment?
  {
    forall k :: j <= k < i ==>
      && !lines[k].Settle? && !lines[k].Broken?
      && !(lines[k].Fragment? && lines[k].id == lines[j].id
           && lines[k].stop in {"end_turn", "stop_sequence", "max_tokens"})
  }

  function OpenAll(lines: seq<Line>): set<string> {
    if lines == [] then {} else OpenAfter(OpenAll(lines[..|lines| - 1]), lines[|lines| - 1])
  }

  /** An id is open after a prefix exactly when some fragment of the prefix still stays open. */
  lemma {:induction false} OpenIffStaysOpen(lines: seq<Line>, i: nat, id: string)
    requires i <= |lines|
    ensures id in OpenAll(lines[..i])
       <==> exists j: nat :: j < i && lines[j].Fragment? && lines[j].id == id && StaysOpen(lines, j, i)
    decreases i
  {
    if i > 0 {
      assert lines[..i][..i - 1] == lines[..i - 1];
      OpenIffStaysOpen(lines, i - 1, id);
      var l := lines[i - 1];
      forall j: nat | j < i - 1 && lines[j].Fragment? && lines[j].id == id
        ensures StaysOpen(lines, j, i) <==>
                StaysOpen(lines, j, i - 1) && !Seals(l) && !(l.Fragment? && l.id == id && Terminal(l.stop))
      {
      }
      if l.Fragment? && l.id == id && !Terminal(l.stop) {
        assert StaysOpen(lines, i - 1, i);
      }
      if id in OpenAll(lines[..i]) && !(l.Fragment? && l.id == id) {
        var j: nat :| j < i - 1 && lines[j].Fragment? && lines[j].id == id && StaysOpen(lines, j, i - 1);
        assert StaysOpen(lines, j, i);
      }
    }
  }

  /** The view with each line decided from the whole journal: the frame of a response stands where its
      first fragment stood, later fragments vanish, every other line stays. */
  ghost function ViewByMembership(filtered: string -> bool, lines: seq<Line>, i: nat): seq<Line>
    requires i <= |lines|
    decreases |lines| - i
  {
    if i == |lines| then []
    else
      var here :=
        if !lines[i].Fragment? then [lines[i]]
        else if exists j: nat :: j < i && Joins(lines, j, i) then []
        else [Rendered(filtered, Gathered(NewFrame(lines[i].id), lines[i..]))];
      here + ViewByMembership(filtered, lines, i + 1)
  }

  lemma {:induction false} ViewIsByMembershipFrom(filtered: string -> bool, lines: seq<Line>, i: nat)
    requires i <= |lines|
    ensures ViewFrom(filtered, OpenAll(lines[..i]), lines[i..]) == ViewByMembership(filtered, lines, i)
    decreases |lines| - i
  {
    hide Rendered, Gathered, StaysOpen;
    if i < |lines| {
      assert lines[i..][1..] == lines[i + 1..];
      assert lines[..i + 1][..i] == lines[..i];
      ViewIsByMembershipFrom(filtered, lines, i + 1);
      if lines[i].Fragment? {
        OpenIffStaysOpen(lines, i, lines[i].id);
        if j: nat :| j < i && lines[j].Fragment? && lines[j].id == lines[i].id && StaysOpen(lines, j, i) {
          assert Joins(lines, j, i);
        }
      }
    }
  }

  lemma ViewIsByMembership(filtered: string -> bool, lines: seq<Line>)
    ensures Coalesced(filtered, lines) == ViewByMembership(filtered, lines, 0)
  {
    assert lines[..0] == [] && lines[0..] == lines;
    ViewIsByMembershipFrom(filtered, lines, 0);
  }

  // ---------------------------------------------------------------- coalescing twice

  /** A frame with no body cannot be given its timestamp back. */
  function WithoutIdleStamp(l: Line): Line {
    if l.Fragment? && l.content == Blocks([]) then l.(ts := "") else l
  }

  function MapLines(lines: seq<Line>, f: Line -> Line): (r: seq<Line>)
    ensures |r| == |lines| && forall k :: 0 <= k < |lines| ==> r[k] == f(lines[k])
  {
    seq(|lines|, k requires 0 <= k < |lines| => f(lines[k]))
  }

  /** The shape of every frame the coalescer emits. */
  predicate IsSealedFrame(filtered: string -> bool, l: Line) {
    && l.Fragment? && Terminal(l.stop)
    && l.content.Blocks?
    && (var blocks := l.content.blocks;
    || blocks == []
    || (|blocks| == 1 && blocks[0].Text? && blocks[0].text != "" && !filtered(blocks[0].text)))
  }

  lemma {:induction false} GatheredIsSealed(f: Frame, lines: seq<Line>)
    requires Open(f) || Terminal(f.stop)
    ensures Terminal(Gathered(f, lines).stop) && Gathered(f, lines).id == f.id
    decreases |lines|
  {
    if Open(f) && lines != [] {
      GatheredIsSealed(After(f, lines[0]), lines[1..]);
    }
  }

  lemma {:induction false} ViewIsSealed(filtered: string -> bool, open: set<string>, lines: seq<Line>)
    ensures forall l :: l in ViewFrom(filtered, open, lines) && l.Fragment? ==> IsSealedFrame(filtered, l)
    decreases |lines|
  {
    if lines != [] {
      ViewIsSealed(filtered, OpenAfter(open, lines[0]), lines[1..]);
      if lines[0].Fragment? && lines[0].id !in open {
        var f := Gathered(NewFrame(lines[0].id), lines);
        GatheredIsSealed(NewFrame(lines[0].id), lines);
        assert IsSealedFrame(filtered, Rendered(filtered, f));
      }
    }
  }

  lemma {:induction false} SealedFrameAgain(filtered: string -> bool, l: Line, rest: seq<Line>)
    requires IsSealedFrame(filtered, l)
    ensures Rendered(filtered, Gathered(NewFrame(l.id), [l] + rest)) == WithoutIdleStamp(l)
  {
    var f := NewFrame(l.id);
    var a := Absorbed(f, l);
    assert Gathered(f, [l] + rest) == Gathered(a, ([l] + rest)[1..]) == a;
    if l.content == Blocks([]) {
      assert BlocksApplied(EMPTY_ACC, 0, []) == (EMPTY_ACC, 0);
    } else {
      var blocks, body := l.content.blocks, l.content.blocks[0].text;
      assert BlocksApplied(EMPTY_ACC, 0, blocks) == BlocksApplied(Acc(body, false), 1, blocks[1..]);
      assert blocks[1..] == [];
    }
  }

  lemma {:induction false} SealedViewAgain(filtered: string -> bool, lines: seq<Line>)
    requires forall l :: l in lines && l.Fragment? ==> IsSealedFrame(filtered, l)
    ensures Coalesced(filtered, lines) == MapLines(lines, WithoutIdleStamp)
    decreases |lines|
  {
    if lines != [] {
      hide Rendered, Gathered, WithoutIdleStamp, Terminal;
      SealedViewAgain(filtered, lines[1..]);
      assert lines == [lines[0]] + lines[1..];
      assert lines[0] in lines;
      NothingOpens(filtered, lines[0]);
      if lines[0].Fragment? {
        SealedFrameAgain(filtered, lines[0], lines[1..]);
      } else {
        StaysAsItIs(lines[0]);
      }
    }
  }

  lemma NothingOpens(filtered: string -> bool, l: Line)
    requires l.Fragment? ==> IsSealedFrame(filtered, l)
    ensures OpenAfter({}, l) == {}
  {
  }

  lemma StaysAsItIs(l: Line)
    requires !l.Fragment?
    ensures WithoutIdleStamp(l) == l
  {
  }

  /** Coalescing a coalesced view gives it back, less the timestamps of frames without a body. */
  lemma CoalescedTwice(filtered: string -> bool, lines: seq<Line>)
    ensures Coalesced(filtered, Coalesced(filtered, lines))
         == MapLines(Coalesced(filtered, lines), WithoutIdleStamp)
  {
    ViewIsSealed(filtered, {}, lines);
    SealedViewAgain(filtered, Coalesced(filtered, lines));
  }

  /** A frame whose body was filtered out of the view although its text was stamped. */
  predicate FilteredWithStamp(filtered: string -> bool, f: Frame) {
    f.acc.text != "" && filtered(f.acc.text) && f.ts != ""
  }

  /** Some response of the view was filtered out of it with its timestamp kept. */
  predicate HidesStamp(filtered: string -> bool, open: set<string>, lines: seq<Line>)
    decreases |lines|
  {
    lines != [] &&
    ((lines[0].Fragment? && lines[0].id !in open
      && FilteredWithStamp(filtered, Gathered(NewFrame(lines[0].id), lines)))
     || HidesStamp(filtered, OpenAfter(open, lines[0]), lines[1..]))
  }

  predicate StampedOnlyWithText(f: Frame) {
    f.ts != "" ==> f.acc.text != ""
  }

  lemma {:induction false} BlocksNeverErase(acc: Acc, parts: nat, blocks: seq<Block>)
    requires parts > 0 ==> acc.text != ""
    ensures var (a, n) := BlocksApplied(acc, parts, blocks);
      (acc.text != "" ==> a.text != "") && (n > 0 ==> a.text != "")
    decreases |blocks|
  {
    if blocks != [] {
      BlocksNeverErase(BlockApplied(acc, parts, blocks[0]), PartsAfter(parts, blocks[0]), blocks[1..]);
    }
  }

  lemma {:induction false} GatheredStamp(f: Frame, lines: seq<Line>)
    requires StampedOnlyWithText(f)
    ensures StampedOnlyWithText(Gathered(f, lines))
    decreases |lines|
  {
    if Open(f) && lines != [] {
      if lines[0].Fragment? && lines[0].content.Blocks? {
        BlocksNeverErase(f.acc, 0, lines[0].content.blocks);
      }
      GatheredStamp(After(f, lines[0]), lines[1..]);
    }
  }

  lemma {:induction false} HidesStampIffChanged(filtered: string -> bool, open: set<string>, lines: seq<Line>)
    ensures HidesStamp(filtered, open, lines)
       <==> exists l :: l in ViewFrom(filtered, open, lines) && WithoutIdleStamp(l) != l
    decreases |lines|
  {
    if lines != [] {
      var rest := ViewFrom(filtered, OpenAfter(open, lines[0]), lines[1..]);
      HidesStampIffChanged(filtered, OpenAfter(open, lines[0]), lines[1..]);
      var view := ViewFrom(filtered, open, lines);
      if lines[0].Fragment? && lines[0].id !in open {
        var f := Gathered(NewFrame(lines[0].id), lines);
        var r := Rendered(filtered, f);
        GatheredStamp(NewFrame(lines[0].id), lines);
        assert view == [r] + rest;
        assert WithoutIdleStamp(r) != r <==> FilteredWithStamp(filtered, f);
        assert forall l :: l in view <==> l == r || l in rest;
      } else if lines[0].Fragment? {
        assert view == rest;
      } else {
        assert view == [lines[0]] + rest;
        assert forall l :: l in view <==> l == lines[0] || l in rest;
      }
    }
  }

  /** Coalescing is idempotent exactly on the journals where no stamped response is filtered out. */
  lemma IdempotentExactly(filtered: string -> bool, lines: seq<Line>)
    ensures Coalesced(filtered, Coalesced(filtered, lines)) == Coalesced(filtered, lines)
       <==> !HidesStamp(filtered, {}, lines)
  {
    var view := Coalesced(filtered, lines);
    CoalescedTwice(filtered, lines);
    HidesStampIffChanged(filtered, {}, lines);
    var again := MapLines(view, WithoutIdleStamp);
    if again == view {
      forall l | l in view ensures WithoutIdleStamp(l) == l {
        var k :| 0 <= k < |view| && view[k] == l;
        assert again[k] == WithoutIdleStamp(view[k]);
      }
    }
  }
}
