/**
 The coalescer's working state: streams under string keys, the key each wire id currently uses, the
 unlabelled stream, and the generation counter that renews a sealed id.
 */
module Streams {
  import opened Transcript
  import opened View
  import opened Numbers

  // ---------------------------------------------------------------- stream keys

  function BaseKey(id: string): string { "id:" + id }

  function GenKey(id: string, g: nat): string { "id:" + id + "#" + Decimal(g) }

  function LegacyKey(n: nat): string { "legacy-" + Decimal(n) }

  lemma GenKeyInjective(id: string, g: nat, h: nat)
    requires GenKey(id, g) == GenKey(id, h)
    ensures g == h
  {
    var n := |"id:" + id + "#"|;
    assert GenKey(id, g)[n..] == Decimal(g) && GenKey(id, h)[n..] == Decimal(h);
    DecimalInjective(g, h);
  }

  lemma LegacyKeyInjective(m: nat, n: nat)
    requires LegacyKey(m) == LegacyKey(n)
    ensures m == n
  {
    assert LegacyKey(m)[7..] == Decimal(m) && LegacyKey(n)[7..] == Decimal(n);
    DecimalInjective(m, n);
  }

  /** The next generation of `id` after `g` whose key is free. */
  function NextGen(keys: set<string>, id: string, g: nat): nat
    decreases keys
  {
    if GenKey(id, g + 1) in keys then NextGen(keys - {GenKey(id, g + 1)}, id, g + 1) else g + 1
  }

  lemma {:induction false} NextGenIsLeastFree(keys: set<string>, id: string, g: nat)
    ensures g < NextGen(keys, id, g) && GenKey(id, NextGen(keys, id, g)) !in keys
    ensures forall h :: g < h < NextGen(keys, id, g) ==> GenKey(id, h) in keys
    decreases keys
  {
    if GenKey(id, g + 1) in keys {
      NextGenIsLeastFree(keys - {GenKey(id, g + 1)}, id, g + 1);
      if GenKey(id, NextGen(keys, id, g)) == GenKey(id, g + 1) {
        GenKeyInjective(id, NextGen(keys, id, g), g + 1);
      }
    }
  }

  // ---------------------------------------------------------------- the state, line by line

  datatype Stream = Stream(frame: Frame, firstIdx: nat)

  datatype State = State(
    streams: map<string, Stream>,
    legacyOpen: string,
    legacyN: nat,
    openByWire: map<string, string>,
    wireGen: nat,
    absorbed: seq<string>)

  const START := State(map[], "", 0, map[], 0, [])

  function MapFrames(streams: map<string, Stream>, f: Frame -> Frame): map<string, Stream> {
    map k | k in streams :: streams[k].(frame := f(streams[k].frame))
  }

  function WithStream(s: State, key: string, id: string, idx: nat): State {
    if key in s.streams then s else s.(streams := s.streams[key := Stream(NewFrame(id), idx)])
  }

  predicate HasCurrent(s: State, id: string) {
    id in s.openByWire && s.openByWire[id] in s.streams && Open(s.streams[s.openByWire[id]].frame)
  }

  function WireKey(s: State, id: string): string {
    if HasCurrent(s, id) then s.openByWire[id]
    else if BaseKey(id) !in s.streams || Open(s.streams[BaseKey(id)].frame) then BaseKey(id)
    else GenKey(id, NextGen(s.streams.Keys, id, s.wireGen))
  }

  /** The state once the stream that takes a fragment of `id` is open. */
  function WireOpened(s: State, id: string, idx: nat): State {
    if HasCurrent(s, id) then s
    else
      var key := WireKey(s, id);
      var minted := BaseKey(id) in s.streams && !Open(s.streams[BaseKey(id)].frame);
      WithStream(s, key, id, idx).(
        openByWire := s.openByWire[id := key],
        wireGen := if minted then NextGen(s.streams.Keys, id, s.wireGen) else s.wireGen)
  }

  function LegacyOpened(s: State, idx: nat): State {
    if s.legacyOpen != "" then s
    else WithStream(s, LegacyKey(s.legacyN), "", idx).(legacyOpen := LegacyKey(s.legacyN), legacyN := s.legacyN + 1)
  }

  function StepKey(s: State, l: Line): string
    requires l.Fragment?
  {
    if l.id != "" then WireKey(s, l.id) else if s.legacyOpen != "" then s.legacyOpen else LegacyKey(s.legacyN)
  }

  function Opened(s: State, l: Line, idx: nat): State
    requires l.Fragment?
  {
    if l.id != "" then WireOpened(s, l.id, idx) else LegacyOpened(s, idx)
  }

  function FragmentStep(s: State, l: Line, idx: nat): State
    requires l.Fragment?
  {
    var key := StepKey(s, l);
    var o := Opened(s, l, idx);
    if key !in o.streams then o
    else
      o.(streams := o.streams[key := o.streams[key].(frame := Absorbed(o.streams[key].frame, l))],
         legacyOpen := if Terminal(l.stop) && key == o.legacyOpen then "" else o.legacyOpen,
         absorbed := o.absorbed + [key])
  }

  function Step(s: State, l: Line, idx: nat): State {
    if Seals(l) then
      s.(streams := MapFrames(s.streams, Sealed), legacyOpen := "", openByWire := map[],
         absorbed := s.absorbed + [""])
    else if l.ToolResult? then
      s.(streams := MapFrames(s.streams, Marked), absorbed := s.absorbed + [""])
    else if l.Other? then
      s.(absorbed := s.absorbed + [""])
    else
      FragmentStep(s, l, idx)
  }

  function StateAfter(lines: seq<Line>, n: nat): State
    requires n <= |lines|
  {
    if n == 0 then START else Step(StateAfter(lines, n - 1), lines[n - 1], n - 1)
  }

  /** What stands at line `i` of the view: the line, the frame of a stream first seen there, or nothing. */
  function EmittedAt(filtered: string -> bool, s: State, lines: seq<Line>, i: nat): seq<Line>
    requires i < |lines| && i < |s.absorbed|
  {
    var key := s.absorbed[i];
    if key == "" then [lines[i]]
    else if key in s.streams && s.streams[key].firstIdx == i then [Rendered(filtered, s.streams[key].frame)]
    else []
  }

  function Emitted(filtered: string -> bool, s: State, lines: seq<Line>, n: nat): seq<Line>
    requires n <= |lines| && n <= |s.absorbed|
  {
    if n == 0 then [] else Emitted(filtered, s, lines, n - 1) + EmittedAt(filtered, s, lines, n - 1)
  }

  /** Every stream was opened by the line at its first index, and every fragment has a stream. */
  predicate Indexed(s: State, n: nat) {
    && |s.absorbed| == n
    && (forall k :: k in s.streams ==> k != "" && s.streams[k].firstIdx < n && s.absorbed[s.streams[k].firstIdx] == k)
    && (forall i :: 0 <= i < n && s.absorbed[i] != "" ==>
          s.absorbed[i] in s.streams && s.streams[s.absorbed[i]].firstIdx <= i)
    && (s.legacyOpen != "" ==> s.legacyOpen in s.streams)
  }

  /** Opening the stream of a fragment adds at most one stream, at this line. */
  lemma OpenedAddsStream(s: State, l: Line, n: nat)
    requires l.Fragment? && Indexed(s, n)
    ensures var key, o := StepKey(s, l), Opened(s, l, n);
      && key != "" && o.streams == WithStream(s, key, l.id, n).streams && key in o.streams
      && o.absorbed == s.absorbed
      && (o.legacyOpen != "" ==> o.legacyOpen in o.streams)
  {
    if l.id != "" && !HasCurrent(s, l.id) && BaseKey(l.id) in s.streams && !Open(s.streams[BaseKey(l.id)].frame) {
      NextGenIsLeastFree(s.streams.Keys, l.id, s.wireGen);
      var g := NextGen(s.streams.Keys, l.id, s.wireGen);
      assert StepKey(s, l) == GenKey(l.id, g) && GenKey(l.id, g)[0] == 'i';
    }
  }

  lemma FragmentStepIndexed(s: State, l: Line, n: nat)
    requires l.Fragment? && Indexed(s, n)
    ensures Indexed(FragmentStep(s, l, n), n + 1)
    ensures FragmentStep(s, l, n).absorbed == s.absorbed + [StepKey(s, l)]
  {
    OpenedAddsStream(s, l, n);
    var key, o, t := StepKey(s, l), Opened(s, l, n), FragmentStep(s, l, n);
    forall k | k in t.streams
      ensures k != "" && t.streams[k].firstIdx < n + 1 && t.absorbed[t.streams[k].firstIdx] == k
    {
      assert t.streams[k].firstIdx == o.streams[k].firstIdx;
      if k !in s.streams {
        assert k == key && o.streams[k].firstIdx == n;
      }
    }
    forall i | 0 <= i < n + 1 && t.absorbed[i] != ""
      ensures t.absorbed[i] in t.streams && t.streams[t.absorbed[i]].firstIdx <= i
    {
      if i < n {
        assert t.absorbed[i] == s.absorbed[i];
      }
    }
  }

  lemma StepIndexed(s: State, l: Line, n: nat)
    requires Indexed(s, n)
    ensures Indexed(Step(s, l, n), n + 1)
    ensures Step(s, l, n).absorbed == s.absorbed + [if l.Fragment? then StepKey(s, l) else ""]
  {
    if l.Fragment? {
      FragmentStepIndexed(s, l, n);
    }
  }

  lemma {:induction false} StateIndexed(lines: seq<Line>, n: nat)
    requires n <= |lines|
    ensures Indexed(StateAfter(lines, n), n)
  {
    if n > 0 {
      StateIndexed(lines, n - 1);
      StepIndexed(StateAfter(lines, n - 1), lines[n - 1], n - 1);
    }
  }

  function AllSealed(s: State): State {
    s.(streams := MapFrames(s.streams, Sealed))
  }

  /** The view that the two passes produce. */
  function KeyedView(filtered: string -> bool, lines: seq<Line>): seq<Line> {
    StateIndexed(lines, |lines|);
    Emitted(filtered, AllSealed(StateAfter(lines, |lines|)), lines, |lines|)
  }

  // ---------------------------------------------------------------- the passes

  function ListAt(m: map<nat, seq<string>>, i: nat): seq<string> {
    if i in m then m[i] else []
  }

  /** The streams already emitted when pass 2 reaches line `i`. */
  ghost predicate EmittedBefore(s: State, emitted: set<string>, i: nat) {
    emitted == set k | k in s.streams && s.streams[k].firstIdx < i
  }

  lemma EmittedBeforeNext(s: State, n: nat, emitted: set<string>, i: nat)
    requires Indexed(s, n) && i < n && EmittedBefore(s, emitted, i)
    ensures s.absorbed[i] !in emitted || s.streams[s.absorbed[i]].firstIdx < i
    ensures EmittedBefore(s, if s.absorbed[i] in s.streams && s.streams[s.absorbed[i]].firstIdx == i
                             then emitted + {s.absorbed[i]} else emitted, i + 1)
  {
  }

  class Coalescer {
    var streams: map<string, Stream>
    var legacyOpen: string
    var legacyN: nat
    var openByWire: map<string, string>
    var wireGen: nat
    var absorbed: seq<string>

    function Value(): State
      reads this
    {
      State(streams, legacyOpen, legacyN, openByWire, wireGen, absorbed)
    }

    constructor ()
      ensures Value() == START
    {
      streams, legacyOpen, legacyN, openByWire, wireGen, absorbed := map[], "", 0, map[], 0, [];
    }

    /** Seals every open stream, one at a time. */
    method SealStreams()
      modifies this`streams
      ensures streams == MapFrames(old(streams), Sealed)
    {
      var todo := streams.Keys;
      while todo != {}
        invariant todo <= streams.Keys == old(streams).Keys
        invariant forall k :: k in streams ==>
          streams[k] == if k in todo then old(streams)[k] else old(streams)[k].(frame := Sealed(old(streams)[k].frame))
        decreases todo
      {
        var key :| key in todo;
        var st := streams[key];
        if st.frame.stop == "" {
          streams := streams[key := st.(frame := st.frame.(stop := "end_turn"))];
        }
        todo := todo - {key};
      }
    }

    /** A tool result is a segment edge for every open stream that already has text. */
    method MarkEdgeOpen()
      modifies this`streams
      ensures streams == MapFrames(old(streams), Marked)
    {
      var todo := streams.Keys;
      while todo != {}
        invariant todo <= streams.Keys == old(streams).Keys
        invariant forall k :: k in streams ==>
          streams[k] == if k in todo then old(streams)[k] else old(streams)[k].(frame := Marked(old(streams)[k].frame))
        decreases todo
      {
        var key :| key in todo;
        var f := streams[key].frame;
        if f.acc.text != "" && f.stop == "" {
          streams := streams[key := streams[key].(frame := f.(acc := f.acc.(edge := true)))];
        }
        todo := todo - {key};
      }
    }

    /** The key of the open stream of a wire id, minting a new generation once the old one is sealed. */
    method OpenWireStream(id: string, idx: nat) returns (key: string)
      modifies this`streams, this`openByWire, this`wireGen
      ensures key == WireKey(old(Value()), id) && Value() == WireOpened(old(Value()), id, idx)
    {
      if id in openByWire {
        var cur := openByWire[id];
        if cur in streams && streams[cur].frame.stop == "" {
          return cur;
        }
      }
      key := BaseKey(id);
      if key !in streams {
        streams := streams[key := Stream(NewFrame(id), idx)];
        openByWire := openByWire[id := key];
        return;
      }
      if streams[key].frame.stop == "" {
        openByWire := openByWire[id := key];
        return;
      }
      ghost var untried := streams.Keys;
      wireGen := wireGen + 1;
      key := GenKey(id, wireGen);
      NextGenIsLeastFree(streams.Keys, id, old(wireGen));
      while key in streams
        invariant key == GenKey(id, wireGen) && old(wireGen) < wireGen
        invariant wireGen <= NextGen(streams.Keys, id, old(wireGen))
        invariant streams == old(streams) && openByWire == old(openByWire)
        decreases NextGen(streams.Keys, id, old(wireGen)) - wireGen
      {
        wireGen := wireGen + 1;
        key := GenKey(id, wireGen);
      }
      streams := streams[key := Stream(NewFrame(id), idx)];
      openByWire := openByWire[id := key];
    }

    /** Pass 1 for one line. */
    method Take(l: Line, idx: nat)
      requires Indexed(Value(), idx)
      modifies this
      ensures Value() == Step(old(Value()), l, idx)
    {
      hide WireOpened, WireKey, Absorbed;
      StepIndexed(Value(), l, idx);
      match l {
        case Broken(_) =>
          SealStreams();
          legacyOpen, openByWire, absorbed := "", map[], absorbed + [""];
        case Settle(_) =>
          SealStreams();
          legacyOpen, openByWire, absorbed := "", map[], absorbed + [""];
        case ToolResult(_) =>
          MarkEdgeOpen();
          absorbed := absorbed + [""];
        case Other(_) =>
          absorbed := absorbed + [""];
        case Fragment(_, _, _, _) =>
          OpenedAddsStream(Value(), l, idx);
          ghost var s0 := Value();
          var key := OpenStream(l.id, idx);
          assert Value() == Opened(s0, l, idx) && key == StepKey(s0, l);
          absorbed := absorbed + [key];
          AbsorbInto(key, l);
      }
    }

    /** The stream of a wire id, or the one unlabelled stream. */
    method OpenStream(id: string, idx: nat) returns (key: string)
      modifies this`streams, this`openByWire, this`wireGen, this`legacyOpen, this`legacyN
      ensures id != "" ==> key == WireKey(old(Value()), id) && Value() == WireOpened(old(Value()), id, idx)
      ensures id == "" ==> key == LegacyOpened(old(Value()), idx).legacyOpen && Value() == LegacyOpened(old(Value()), idx)
    {
      if id != "" {
        key := OpenWireStream(id, idx);
      } else {
        if legacyOpen == "" {
          legacyOpen := LegacyKey(legacyN);
          legacyN := legacyN + 1;
          if legacyOpen !in streams {
            streams := streams[legacyOpen := Stream(NewFrame(""), idx)];
          }
        }
        key := legacyOpen;
      }
    }

    /** Appends a fragment's text to its stream, and seals the stream on a terminal stop. */
    method AbsorbInto(key: string, l: Line)
      requires l.Fragment? && key in streams
      modifies this`streams, this`legacyOpen
      ensures streams == old(streams)[key := old(streams)[key].(frame := Absorbed(old(streams)[key].frame, l))]
      ensures legacyOpen == if Terminal(l.stop) && key == old(legacyOpen) then "" else old(legacyOpen)
    {
      var f := streams[key].frame;
      var acc, wrote := ApplyAssistantContent(f.acc, l.content);
      f := f.(acc := acc);
      if wrote && l.ts != "" {
        f := f.(ts := l.ts);
      }
      if Terminal(l.stop) {
        f := f.(stop := l.stop);
        if key == legacyOpen {
          legacyOpen := "";
        }
      }
      streams := streams[key := streams[key].(frame := f)];
    }

    /** The streams by the line they were first seen at: at most one for each line. */
    method IndexByFirst() returns (byFirst: map<nat, seq<string>>)
      requires Indexed(Value(), |absorbed|)
      ensures forall k :: k in streams ==> streams[k].firstIdx in byFirst
      ensures forall i :: i in byFirst ==>
        i < |absorbed| && absorbed[i] in streams && streams[absorbed[i]].firstIdx == i && byFirst[i] == [absorbed[i]]
    {
      byFirst := map[];
      var todo := streams.Keys;
      while todo != {}
        invariant todo <= streams.Keys
        invariant forall k :: k in streams.Keys - todo ==> streams[k].firstIdx in byFirst
        invariant forall i :: i in byFirst ==>
          && i < |absorbed| && absorbed[i] in streams.Keys - todo
          && streams[absorbed[i]].firstIdx == i && byFirst[i] == [absorbed[i]]
        decreases todo
      {
        var key :| key in todo;
        var i := streams[key].firstIdx;
        byFirst := byFirst[i := ListAt(byFirst, i) + [key]];
        todo := todo - {key};
      }
    }

    /** Emits the frame of a stream once; a stream with neither text nor stop reason shows nothing. */
    method Flush(filtered: string -> bool, key: string, emitted: set<string>, out: seq<Line>)
      returns (emitted': set<string>, out': seq<Line>)
      requires key in streams
      ensures emitted' == emitted + {key}
      ensures out' == if key in emitted || (streams[key].frame.acc.text == "" && Open(streams[key].frame)) then out
                      else out + [Rendered(filtered, streams[key].frame)]
    {
      emitted', out' := emitted + {key}, out;
      if key !in emitted && (streams[key].frame.acc.text != "" || streams[key].frame.stop != "") {
        out' := out + [Rendered(filtered, streams[key].frame)];
      }
    }

    /** Pass 2: each sealed frame at its stream's first line, every other line as it is. */
    method Emit(filtered: string -> bool, lines: seq<Line>) returns (out: seq<Line>)
      requires Indexed(Value(), |lines|)
      requires forall k :: k in streams ==> !Open(streams[k].frame)
      ensures out == Emitted(filtered, Value(), lines, |lines|)
    {
      hide Rendered;
      ghost var s := Value();
      var byFirst := IndexByFirst();
      out := [];
      var emitted: set<string> := {};
      for i := 0 to |lines|
        invariant out == Emitted(filtered, s, lines, i)
        invariant EmittedBefore(s, emitted, i)
      {
        EmittedBeforeNext(s, |lines|, emitted, i);
        if i in byFirst {
          emitted, out := Flush(filtered, byFirst[i][0], emitted, out);
        }
        if absorbed[i] == "" {
          out := out + [lines[i]];
        }
      }

      // Nothing is left to flush.
      var todo := streams.Keys;
      while todo != {}
        invariant todo <= streams.Keys == emitted
        invariant out == Emitted(filtered, s, lines, |lines|)
        decreases todo
      {
        var key :| key in todo;
        emitted, out := Flush(filtered, key, emitted, out);
        todo := todo - {key};
      }
    }
  }
}
