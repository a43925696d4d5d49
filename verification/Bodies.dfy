/**
 The text of a response, computed from the fragments that belong to it: the text inside one segment
 is concatenated as it stands, and segments are joined with at most one blank line.
 */
module Bodies {
  import opened Transcript
  import opened View

  /** A segment edge, or some text. */
  datatype Event = Mark | Piece(text: string)

  /** The events of the blocks of one message, of which earlier ones have brought text or not. */
  function BlockEvents(written: bool, blocks: seq<Block>): seq<Event>
    decreases |blocks|
  {
    if blocks == [] then []
    else
      var here :=
        match blocks[0]
        case Foreign => []
        case NonText => [Mark]
        case Text(s) => if s == "" then [] else if written then [Mark, Piece(s)] else [Piece(s)];
      here + BlockEvents(written || (blocks[0].Text? && blocks[0].text != ""), blocks[1..])
  }

  function ContentEvents(content: Content): seq<Event> {
    match content
    case Absent => []
    case Plain(s) => if s == "" then [] else [Piece(s)]
    case Blocks(blocks) => BlockEvents(false, blocks)
  }

  /** What line `m` contributes to the response that fragment `i` opened. */
  function LineEvents(lines: seq<Line>, i: nat, m: nat): seq<Event>
    requires i <= m < |lines| && lines[i].Fragment?
  {
    if !StaysOpen(lines, i, m) then []
    else if lines[m].ToolResult? then [Mark]
    else if lines[m].Fragment? && lines[m].id == lines[i].id then ContentEvents(lines[m].content)
    else []
  }

  /** What lines m.. of the journal contribute to the response that fragment `i` opened. */
  function MemberEvents(lines: seq<Line>, i: nat, m: nat): seq<Event>
    requires i <= m <= |lines| && i < |lines| && lines[i].Fragment?
    decreases |lines| - m
  {
    if m == |lines| then [] else LineEvents(lines, i, m) + MemberEvents(lines, i, m + 1)
  }

  /** The segments with more text on the last one. */
  function Grown(segs: seq<string>, t: string): seq<string>
    requires segs != []
  {
    segs[..|segs| - 1] + [segs[|segs| - 1] + t]
  }

  /** The texts between consecutive edges, starting from segments already there. */
  function Segments(segs: seq<string>, edge: bool, events: seq<Event>): seq<string>
    decreases |events|
  {
    if events == [] then segs
    else
      match events[0]
      case Mark => Segments(segs, segs != [], events[1..])
      case Piece(t) =>
        if segs == [] || edge then Segments(segs + [t], false, events[1..])
        else Segments(Grown(segs, t), false, events[1..])
  }

  function JoinAll(segs: seq<string>): string {
    if segs == [] then "" else JoinSegments(JoinAll(segs[..|segs| - 1]), segs[|segs| - 1])
  }

  function ApplyEvents(acc: Acc, events: seq<Event>): Acc
    decreases |events|
  {
    if events == [] then acc
    else ApplyEvents(match events[0] case Mark => MarkEdge(acc) case Piece(t) => AppendSegment(acc, t), events[1..])
  }

  predicate Texts(events: seq<Event>) {
    forall e :: e in events && e.Piece? ==> e.text != ""
  }

  predicate NoEmpty(segs: seq<string>) {
    forall k :: 0 <= k < |segs| ==> segs[k] != ""
  }

  lemma {:induction false} ApplyConcat(acc: Acc, a: seq<Event>, b: seq<Event>)
    ensures ApplyEvents(acc, a + b) == ApplyEvents(ApplyEvents(acc, a), b)
    decreases |a|
  {
    if a == [] {
      assert a + b == b;
    } else {
      assert (a + b)[1..] == a[1..] + b;
      ApplyConcat(match a[0] case Mark => MarkEdge(acc) case Piece(t) => AppendSegment(acc, t), a[1..], b);
    }
  }

  lemma BlockWrites(acc: Acc, parts: nat, block: Block)
    requires parts > 0 ==> acc.text != ""
    ensures PartsAfter(parts, block) > 0 ==> BlockApplied(acc, parts, block).text != ""
  {
  }

  lemma {:induction false} BlocksAreEvents(acc: Acc, parts: nat, blocks: seq<Block>)
    requires parts > 0 ==> acc.text != ""
    ensures BlocksApplied(acc, parts, blocks).0 == ApplyEvents(acc, BlockEvents(parts > 0, blocks))
    ensures Texts(BlockEvents(parts > 0, blocks))
    decreases |blocks|
  {
    hide AppendSegment;
    if blocks != [] {
      var next := BlockApplied(acc, parts, blocks[0]);
      var n := PartsAfter(parts, blocks[0]);
      BlockWrites(acc, parts, blocks[0]);
      BlocksAreEvents(next, n, blocks[1..]);
      var rest := BlockEvents(n > 0, blocks[1..]);
      match blocks[0] {
        case Foreign =>
          assert BlockEvents(parts > 0, blocks) == rest;
        case NonText =>
          assert ([Mark] + rest)[1..] == rest;
        case Text(s) =>
          if s == "" {
            assert BlockEvents(parts > 0, blocks) == rest;
          } else if parts > 0 {
            var here := [Mark, Piece(s)];
            assert (here + rest)[1..] == [Piece(s)] + rest && ([Piece(s)] + rest)[1..] == rest;
          } else {
            assert ([Piece(s)] + rest)[1..] == rest;
          }
      }
    }
  }

  lemma ContentIsEvents(acc: Acc, content: Content)
    ensures ContentApplied(acc, content).0 == ApplyEvents(acc, ContentEvents(content))
    ensures Texts(ContentEvents(content))
  {
    if content.Blocks? {
      BlocksAreEvents(acc, 0, content.blocks);
    }
  }

  lemma {:induction false} NothingAfterSeal(lines: seq<Line>, i: nat, m: nat)
    requires i <= m <= |lines| && i < |lines| && lines[i].Fragment?
    requires !StaysOpen(lines, i, m)
    ensures MemberEvents(lines, i, m) == []
    decreases |lines| - m
  {
    if m < |lines| {
      assert !StaysOpen(lines, i, m + 1);
      NothingAfterSeal(lines, i, m + 1);
    }
  }

  lemma AfterIsEvents(f: Frame, lines: seq<Line>, i: nat, m: nat)
    requires i <= m < |lines| && lines[i].Fragment?
    requires f.id == lines[i].id && Open(f) && StaysOpen(lines, i, m)
    ensures var next := After(f, lines[m]);
      && next.id == f.id && next.acc == ApplyEvents(f.acc, LineEvents(lines, i, m))
      && Texts(LineEvents(lines, i, m)) && (Open(next) <==> StaysOpen(lines, i, m + 1))
  {
    hide ContentApplied, ContentEvents;
    var l := lines[m];
    if l.Fragment? && l.id == f.id {
      ContentIsEvents(f.acc, l.content);
    }
    assert StaysOpen(lines, i, m + 1) <==>
      !l.Settle? && !l.Broken? && !(l.Fragment? && l.id == f.id && l.stop in {"end_turn", "stop_sequence", "max_tokens"});
  }

  lemma TextsConcat(a: seq<Event>, b: seq<Event>)
    requires Texts(a) && Texts(b)
    ensures Texts(a + b)
  {
  }

  lemma {:induction false} GatheredIsEvents(f: Frame, lines: seq<Line>, i: nat, m: nat)
    requires i <= m <= |lines| && i < |lines| && lines[i].Fragment?
    requires f.id == lines[i].id && Open(f) && StaysOpen(lines, i, m)
    ensures Gathered(f, lines[m..]).acc == ApplyEvents(f.acc, MemberEvents(lines, i, m))
    ensures Texts(MemberEvents(lines, i, m))
    decreases |lines| - m
  {
    hide After, ApplyEvents, LineEvents, Texts, StaysOpen;
    if m < |lines| {
      var next, here, rest := After(f, lines[m]), LineEvents(lines, i, m), MemberEvents(lines, i, m + 1);
      assert lines[m..][0] == lines[m] && lines[m..][1..] == lines[m + 1..];
      AfterIsEvents(f, lines, i, m);
      ApplyConcat(f.acc, here, rest);
      if Open(next) {
        GatheredIsEvents(next, lines, i, m + 1);
      } else {
        NothingAfterSeal(lines, i, m + 1);
        NoEvents(next.acc);
      }
      TextsConcat(here, rest);
    } else {
      NoEvents(f.acc);
    }
  }

  lemma NoEvents(acc: Acc)
    ensures ApplyEvents(acc, []) == acc && Texts([])
  {
  }

  lemma JoinExtended(prev: string, last: string, t: string)
    requires last != ""
    ensures JoinSegments(prev, last + t) == JoinSegments(prev, last) + t
  {
    if prev != "" {
      assert (last + t)[0] == last[0];
      assert prev + (last + t) == prev + last + t;
      assert prev + "\n\n" + (last + t) == prev + "\n\n" + last + t;
    }
  }

  lemma JoinAllGrown(segs: seq<string>, t: string)
    requires segs != [] && NoEmpty(segs) && t != ""
    ensures JoinAll(Grown(segs, t)) == JoinAll(segs) + t && NoEmpty(Grown(segs, t))
  {
    var grown := Grown(segs, t);
    assert grown[..|grown| - 1] == segs[..|segs| - 1];
    JoinExtended(JoinAll(segs[..|segs| - 1]), segs[|segs| - 1], t);
  }

  lemma {:induction false} EventsAreSegments(segs: seq<string>, edge: bool, events: seq<Event>)
    requires NoEmpty(segs) && Texts(events) && (segs == [] ==> !edge)
    ensures ApplyEvents(Acc(JoinAll(segs), edge), events).text == JoinAll(Segments(segs, edge, events))
    ensures NoEmpty(Segments(segs, edge, events))
    decreases |events|
  {
    if events != [] {
      assert events[0] in events;
      assert JoinAll(segs) == "" <==> segs == [] by {
        if segs != [] {
          assert segs[|segs| - 1] != "";
        }
      }
      match events[0] {
        case Mark =>
          EventsAreSegments(segs, segs != [], events[1..]);
        case Piece(t) =>
          if segs == [] || edge {
            assert (segs + [t])[..|segs|] == segs;
            EventsAreSegments(segs + [t], false, events[1..]);
          } else {
            JoinAllGrown(segs, t);
            EventsAreSegments(Grown(segs, t), false, events[1..]);
          }
      }
    }
  }

  /** The body of the response that fragment `i` opens is its segments, joined. */
  lemma BodyIsJoinedSegments(lines: seq<Line>, i: nat)
    requires i < |lines| && lines[i].Fragment?
    ensures Gathered(NewFrame(lines[i].id), lines[i..]).acc.text
         == JoinAll(Segments([], false, MemberEvents(lines, i, i)))
    ensures NoEmpty(Segments([], false, MemberEvents(lines, i, i)))
  {
    GatheredIsEvents(NewFrame(lines[i].id), lines, i, i);
    EventsAreSegments([], false, MemberEvents(lines, i, i));
  }

  // ---------------------------------------------------------------- nothing lost, nothing added

  function Flat(segs: seq<string>): string {
    if segs == [] then "" else Flat(segs[..|segs| - 1]) + segs[|segs| - 1]
  }

  function Pieces(events: seq<Event>): string
    decreases |events|
  {
    if events == [] then "" else (if events[0].Piece? then events[0].text else "") + Pieces(events[1..])
  }

  lemma FlatAppend(segs: seq<string>, t: string)
    ensures Flat(segs + [t]) == Flat(segs) + t
  {
    assert (segs + [t])[..|segs|] == segs;
  }

  lemma FlatGrown(segs: seq<string>, t: string)
    requires segs != []
    ensures Flat(Grown(segs, t)) == Flat(segs) + t
  {
    var init, last := segs[..|segs| - 1], segs[|segs| - 1];
    FlatAppend(init, last + t);
    assert Flat(init) + (last + t) == Flat(init) + last + t;
  }

  /** Cutting the text into segments keeps every piece of text, in order. */
  lemma {:induction false} SegmentsKeepText(segs: seq<string>, edge: bool, events: seq<Event>)
    ensures Flat(Segments(segs, edge, events)) == Flat(segs) + Pieces(events)
    decreases |events|
  {
    hide Flat, Grown;
    if events == [] {
      assert Flat(segs) + "" == Flat(segs);
    } else {
      match events[0] {
        case Mark =>
          SegmentsKeepText(segs, segs != [], events[1..]);
        case Piece(t) =>
          var grown := if segs == [] || edge then segs + [t] else Grown(segs, t);
          SegmentsKeepText(grown, false, events[1..]);
          if segs == [] || edge {
            FlatAppend(segs, t);
          } else {
            FlatGrown(segs, t);
          }
          assert Flat(segs) + t + Pieces(events[1..]) == Flat(segs) + (t + Pieces(events[1..]));
      }
    }
  }

  /** The separator before segment `k`: a blank line unless a line break is already there. */
  function SeparatorBefore(segs: seq<string>, k: nat): string
    requires k < |segs| && NoEmpty(segs)
  {
    if k == 0 || segs[k - 1][|segs[k - 1]| - 1] in {'\n', '\r'} || segs[k][0] in {'\n', '\r'} then "" else "\n\n"
  }

  function Woven(segs: seq<string>, n: nat): string
    requires n <= |segs| && NoEmpty(segs)
  {
    if n == 0 then "" else Woven(segs, n - 1) + SeparatorBefore(segs, n - 1) + segs[n - 1]
  }

  /** Joining adds exactly the blank lines between segments that no line break separates. */
  lemma {:induction false} JoiningAddsOnlySeparators(segs: seq<string>, n: nat)
    requires n <= |segs| && NoEmpty(segs)
    ensures JoinAll(segs[..n]) == Woven(segs, n)
    ensures n > 0 ==> (var joined := JoinAll(segs[..n]);
                       joined != "" && joined[|joined| - 1] == segs[n - 1][|segs[n - 1]| - 1])
  {
    if n > 0 {
      JoiningAddsOnlySeparators(segs, n - 1);
      assert segs[..n][..n - 1] == segs[..n - 1];
    }
  }

  // ---------------------------------------------------------------- every fragment has one response

  /** Fragment `i` starts a response: no earlier fragment's response can take it. */
  ghost predicate Starts(lines: seq<Line>, i: nat) {
    i < |lines| && lines[i].Fragment? && !(exists j: nat :: j < i && Joins(lines, j, i))
  }

  ghost predicate StartedBy(lines: seq<Line>, i: nat, m: nat) {
    i <= m < |lines| && Starts(lines, i) && lines[m].Fragment? && lines[i].id == lines[m].id && StaysOpen(lines, i, m)
  }

  lemma {:induction false} SomeStart(lines: seq<Line>, m: nat) returns (i: nat)
    requires m < |lines| && lines[m].Fragment?
    ensures StartedBy(lines, i, m)
    decreases m
  {
    if j: nat :| j < m && Joins(lines, j, m) {
      i := SomeStart(lines, j);
      assert StaysOpen(lines, i, m);
    } else {
      i := m;
    }
  }

  /** A fragment belongs to exactly one response. */
  lemma FragmentHasOneStart(lines: seq<Line>, m: nat)
    requires m < |lines| && lines[m].Fragment?
    ensures exists i: nat :: StartedBy(lines, i, m)
    ensures forall i: nat, j: nat :: StartedBy(lines, i, m) && StartedBy(lines, j, m) ==> i == j
  {
    var i := SomeStart(lines, m);
    forall i: nat, j: nat | StartedBy(lines, i, m) && StartedBy(lines, j, m) ensures i == j {
      if i < j {
        assert Joins(lines, i, j);
      } else if j < i {
        assert Joins(lines, j, i);
      }
    }
  }
}
