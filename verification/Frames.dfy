/**
 The replay view told from the journal alone: where each frame stands, and its id, timestamp, stop reason and
 body in terms of the fragments that belong to it.
 */
module Frames {
  import opened Transcript
  import opened View
  import opened Bodies

  /** Line `m` is a fragment of the response that fragment `i` opens. */
  predicate Belongs(lines: seq<Line>, i: nat, m: nat) {
    && i <= m < |lines| && lines[i].Fragment? && lines[m].Fragment? && lines[m].id == lines[i].id
    && StaysOpen(lines, i, m)
  }

  predicate BringsText(content: Content) {
    || (content.Plain? && content.text != "")
    || (content.Blocks? && SomeText(content.blocks))
  }

  predicate SomeText(blocks: seq<Block>) {
    exists b :: b in blocks && b.Text? && b.text != ""
  }

  /** Fragment `m` stamps the response. */
  predicate Stamps(lines: seq<Line>, i: nat, m: nat) {
    Belongs(lines, i, m) && BringsText(lines[m].content) && lines[m].ts != ""
  }

  /** Fragment `m` ends the response. */
  predicate Ends(lines: seq<Line>, i: nat, m: nat) {
    Belongs(lines, i, m) && lines[m].stop in {"end_turn", "stop_sequence", "max_tokens"}
  }

  /** The last stamp before line `n`. */
  function StampBefore(lines: seq<Line>, i: nat, n: nat): string
    requires n <= |lines|
  {
    if n == 0 then "" else if Stamps(lines, i, n - 1) then lines[n - 1].ts else StampBefore(lines, i, n - 1)
  }

  /** The stop reason given before line `n`; a response that no fragment ends has ended its turn. */
  function StopBefore(lines: seq<Line>, i: nat, n: nat): string
    requires n <= |lines|
  {
    if n == 0 then "end_turn" else if Ends(lines, i, n - 1) then lines[n - 1].stop else StopBefore(lines, i, n - 1)
  }

  function BodyOf(lines: seq<Line>, i: nat): string
    requires i < |lines| && lines[i].Fragment?
  {
    BodyIsJoinedSegments(lines, i);
    var segs := Segments([], false, MemberEvents(lines, i, i));
    Woven(segs, |segs|)
  }

  /** The frame of the response that fragment `i` opens. */
  function FrameAt(filtered: string -> bool, lines: seq<Line>, i: nat): Line
    requires i < |lines| && lines[i].Fragment?
  {
    var body := BodyOf(lines, i);
    Fragment(lines[i].id, StampBefore(lines, i, |lines|), StopBefore(lines, i, |lines|),
             Blocks(if body == "" || filtered(body) then [] else [Text(body)]))
  }

  /** The view from line `i` on: the frame of a response stands where its first fragment stood, later fragments
      vanish, every other line stays. */
  ghost function ReplayView(filtered: string -> bool, lines: seq<Line>, i: nat): seq<Line>
    requires i <= |lines|
    decreases |lines| - i
  {
    if i == |lines| then []
    else
      var here :=
        if !lines[i].Fragment? then [lines[i]]
        else if exists j: nat :: j < i && Belongs(lines, j, i) then []
        else [FrameAt(filtered, lines, i)];
      here + ReplayView(filtered, lines, i + 1)
  }

  // ---------------------------------------------------------------- what a frame gathers

  lemma {:induction false} WrittenParts(acc: Acc, parts: nat, blocks: seq<Block>)
    ensures BlocksApplied(acc, parts, blocks).1 > 0 <==> parts > 0 || SomeText(blocks)
    decreases |blocks|
  {
    hide BlockApplied;
    if blocks != [] {
      WrittenParts(BlockApplied(acc, parts, blocks[0]), PartsAfter(parts, blocks[0]), blocks[1..]);
      assert forall b :: b in blocks <==> b == blocks[0] || b in blocks[1..];
    }
  }

  lemma WrittenExactly(acc: Acc, content: Content)
    ensures ContentApplied(acc, content).1 <==> BringsText(content)
  {
    if content.Blocks? {
      WrittenParts(acc, 0, content.blocks);
    }
  }

  lemma {:induction false} NothingBefore(lines: seq<Line>, i: nat, n: nat)
    requires n <= i && n <= |lines|
    ensures StampBefore(lines, i, n) == "" && StopBefore(lines, i, n) == "end_turn"
  {
    if n > 0 {
      NothingBefore(lines, i, n - 1);
    }
  }

  lemma {:induction false} NothingOnceSealed(lines: seq<Line>, i: nat, m: nat, n: nat)
    requires i <= m <= n <= |lines| && i < |lines| && lines[i].Fragment? && !StaysOpen(lines, i, m)
    ensures StampBefore(lines, i, n) == StampBefore(lines, i, m)
    ensures StopBefore(lines, i, n) == StopBefore(lines, i, m)
  {
    if m < n {
      NothingOnceSealed(lines, i, m, n - 1);
      assert !StaysOpen(lines, i, n - 1);
    }
  }

  /** One line of a response that is still open. */
  lemma AfterFields(f: Frame, lines: seq<Line>, i: nat, m: nat)
    requires i <= m < |lines| && lines[i].Fragment? && StaysOpen(lines, i, m) && f.id == lines[i].id && Open(f)
    requires f.ts == StampBefore(lines, i, m) && StopBefore(lines, i, m) == "end_turn"
    ensures var next := After(f, lines[m]);
      && next.id == lines[i].id && next.ts == StampBefore(lines, i, m + 1)
      && (if StaysOpen(lines, i, m + 1) then Open(next) && StopBefore(lines, i, m + 1) == "end_turn"
          else next.stop == StopBefore(lines, i, m + 1) != "")
  {
    hide ContentApplied, BringsText;
    var l := lines[m];
    if l.Fragment? {
      WrittenExactly(f.acc, l.content);
    }
    assert StaysOpen(lines, i, m + 1) <==> !l.Settle? && !l.Broken? && !Ends(lines, i, m);
  }

  lemma {:induction false} GatheredFields(f: Frame, lines: seq<Line>, i: nat, m: nat)
    requires i <= m <= |lines| && i < |lines| && lines[i].Fragment? && StaysOpen(lines, i, m)
    requires f.id == lines[i].id && Open(f)
    requires f.ts == StampBefore(lines, i, m) && StopBefore(lines, i, m) == "end_turn"
    ensures var g := Gathered(f, lines[m..]);
      && g.id == lines[i].id && g.ts == StampBefore(lines, i, |lines|) && g.stop == StopBefore(lines, i, |lines|)
    decreases |lines| - m
  {
    hide After, StampBefore, StopBefore;
    if m < |lines| {
      assert lines[m..][0] == lines[m] && lines[m..][1..] == lines[m + 1..];
      AfterFields(f, lines, i, m);
      if StaysOpen(lines, i, m + 1) {
        GatheredFields(After(f, lines[m]), lines, i, m + 1);
      } else {
        NothingOnceSealed(lines, i, m + 1, |lines|);
      }
    }
  }

  lemma GatheredIsFrame(filtered: string -> bool, lines: seq<Line>, i: nat)
    requires i < |lines| && lines[i].Fragment?
    ensures Rendered(filtered, Gathered(NewFrame(lines[i].id), lines[i..])) == FrameAt(filtered, lines, i)
    ensures StopBefore(lines, i, |lines|) != ""
  {
    hide Gathered, Segments, MemberEvents, Woven, JoinAll;
    NothingBefore(lines, i, i);
    GatheredFields(NewFrame(lines[i].id), lines, i, i);
    BodyIsJoinedSegments(lines, i);
    var segs := Segments([], false, MemberEvents(lines, i, i));
    JoiningAddsOnlySeparators(segs, |segs|);
    assert segs[..|segs|] == segs;
    StopIs(lines, i, |lines|);
  }

  /** The stamp of a frame is that of the last fragment of its response that brings text and has one. */
  lemma {:induction false} StampIs(lines: seq<Line>, i: nat, n: nat)
    requires n <= |lines|
    ensures (exists m: nat :: m < n && Stamps(lines, i, m) && StampBefore(lines, i, n) == lines[m].ts
                && forall k: nat :: m < k < n ==> !Stamps(lines, i, k))
         || (StampBefore(lines, i, n) == "" && forall m: nat :: m < n ==> !Stamps(lines, i, m))
  {
    if n > 0 && !Stamps(lines, i, n - 1) {
      StampIs(lines, i, n - 1);
    }
  }

  /** Its stop reason is the one its own fragments give, and end_turn when they give none; none comes after it. */
  lemma {:induction false} StopIs(lines: seq<Line>, i: nat, n: nat)
    requires n <= |lines|
    ensures (exists m: nat :: m < n && Ends(lines, i, m) && StopBefore(lines, i, n) == lines[m].stop
                && forall k: nat :: m < k < n ==> !Belongs(lines, i, k))
         || (StopBefore(lines, i, n) == "end_turn" && forall m: nat :: m < n ==> !Ends(lines, i, m))
  {
    if n > 0 && !Ends(lines, i, n - 1) {
      StopIs(lines, i, n - 1);
    }
  }

  // ---------------------------------------------------------------- the whole view

  lemma {:induction false} MembershipIsReplay(filtered: string -> bool, lines: seq<Line>, i: nat)
    requires i <= |lines|
    ensures ViewByMembership(filtered, lines, i) == ReplayView(filtered, lines, i)
    decreases |lines| - i
  {
    hide FrameAt, Rendered, Gathered;
    if i < |lines| {
      MembershipIsReplay(filtered, lines, i + 1);
      if lines[i].Fragment? {
        GatheredIsFrame(filtered, lines, i);
        assert forall j: nat :: j < i ==> (Joins(lines, j, i) <==> Belongs(lines, j, i));
      }
    }
  }

  /** The replay view is decided by which fragments belong together, frame by frame and field by field. */
  lemma ViewIsReplay(filtered: string -> bool, lines: seq<Line>)
    ensures Coalesced(filtered, lines) == ReplayView(filtered, lines, 0)
  {
    ViewIsByMembership(filtered, lines);
    MembershipIsReplay(filtered, lines, 0);
  }
}
