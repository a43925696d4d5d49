/**
 Wire ids that spell another id's generation key share its stream. The two passes show the replay view
 on every journal over a set of ids exactly when the set has no such pair.
 */
module Collisions {
  import opened Transcript
  import opened View
  import opened Streams
  import opened Coalesce

  /** `g` finished responses of `w`, one that is still open, and then a fragment of `v`. */
  function Witness(w: string, v: string, g: nat): seq<Line> {
    seq(g + 2, i => if i < g then Fragment(w, "", "end_turn", Plain("a"))
                    else if i == g then Fragment(w, "", "", Plain("a"))
                    else Fragment(v, "", "", Plain("b")))
  }

  lemma {:induction false} WitnessView(filtered: string -> bool, w: string, v: string, g: nat, i: nat)
    requires v != w && i <= g + 2
    ensures |ViewFrom(filtered, if i == g + 1 then {w} else {}, Witness(w, v, g)[i..])| == g + 2 - i || i == g + 2
    decreases g + 2 - i
  {
    var lines := Witness(w, v, g);
    if i < g + 2 {
      assert lines[i..][0] == lines[i] && lines[i..][1..] == lines[i + 1..];
      if i < g + 1 {
        WitnessView(filtered, w, v, g, i + 1);
        assert OpenAfter({}, lines[i]) == if i == g then {w} else {};
      } else {
        assert lines[g + 2..] == [];
      }
    }
  }

  /** The keys that `n` generations of `w` take. */
  ghost predicate OnlyGenerations(s: State, w: string) {
    && (forall k :: k in s.streams ==> k == BaseKey(w) || exists h: nat :: 0 < h <= s.wireGen && k == GenKey(w, h))
    && (forall k :: k in s.openByWire ==> k == w)
  }

  lemma NextGenerationIsFree(s: State, w: string)
    requires OnlyGenerations(s, w)
    ensures NextGen(s.streams.Keys, w, s.wireGen) == s.wireGen + 1
  {
    var key := GenKey(w, s.wireGen + 1);
    assert |key| > |BaseKey(w)|;
    forall h: nat | 0 < h <= s.wireGen ensures key != GenKey(w, h) {
      if key == GenKey(w, h) {
        GenKeyInjective(w, s.wireGen + 1, h);
      }
    }
  }

  ghost predicate AllDone(s: State) {
    forall k :: k in s.streams ==> !Open(s.streams[k].frame)
  }

  /** The stream that one more response of `w` opens when all earlier ones are finished. */
  lemma GenerationOpens(s: State, w: string, l: Line, n: nat)
    requires OnlyGenerations(s, w) && AllDone(s) && w != "" && l.Fragment? && l.id == w
    requires s.streams == map[] ==> s.wireGen == 0
    requires s.streams != map[] ==> BaseKey(w) in s.streams
    ensures var gen := if s.streams == map[] then 0 else s.wireGen + 1;
      var key := if s.streams == map[] then BaseKey(w) else GenKey(w, gen);
      && key !in s.streams && StepKey(s, l) == key
      && Opened(s, l, n) == s.(streams := s.streams[key := Stream(NewFrame(w), n)],
                               openByWire := s.openByWire[w := key], wireGen := gen)
  {
    NextGenerationIsFree(s, w);
    NextGenIsLeastFree(s.streams.Keys, w, s.wireGen);
  }

  lemma GenerationsGrow(s: State, w: string, key: string, st: Stream, t: State)
    requires OnlyGenerations(s, w) && s.wireGen <= t.wireGen
    requires t.streams == s.streams[key := st] && t.openByWire == s.openByWire[w := key]
    requires key == BaseKey(w) || (0 < t.wireGen && key == GenKey(w, t.wireGen))
    ensures OnlyGenerations(t, w) && |t.streams| <= |s.streams| + 1
  {
    hide GenKey, BaseKey;
    OneMoreKey(s.streams, key, st);
    forall k | k in t.streams && k != BaseKey(w) ensures exists h: nat :: 0 < h <= t.wireGen && k == GenKey(w, h) {
      if k != key {
        var h: nat :| 0 < h <= s.wireGen && k == GenKey(w, h);
      }
    }
  }

  lemma OneMoreKey(m: map<string, Stream>, key: string, st: Stream)
    ensures |m[key := st]| <= |m| + 1
  {
    assert m[key := st].Keys == m.Keys + {key};
    assert |m[key := st].Keys| <= |m.Keys| + 1;
  }

  lemma GenerationStep(s: State, w: string, l: Line, n: nat)
    requires OnlyGenerations(s, w) && AllDone(s) && w != "" && l.Fragment? && l.id == w
    requires s.streams == map[] ==> s.wireGen == 0
    requires s.streams != map[] ==> BaseKey(w) in s.streams
    ensures var t := FragmentStep(s, l, n);
      && OnlyGenerations(t, w) && BaseKey(w) in t.streams
      && |t.streams| <= |s.streams| + 1
      && t.wireGen == (if s.streams == map[] then 0 else s.wireGen + 1)
      && (Terminal(l.stop) ==> AllDone(t))
      && (s.streams != map[] && l.stop == "" ==>
            GenKey(w, t.wireGen) in t.streams && Open(t.streams[GenKey(w, t.wireGen)].frame))
  {
    hide GenKey, BaseKey, OnlyGenerations, StepKey, Opened;
    GenerationOpens(s, w, l, n);
    var key, t := StepKey(s, l), FragmentStep(s, l, n);
    var f := Absorbed(NewFrame(w), l);
    assert t.streams == s.streams[key := Stream(f, n)];
    assert f.stop == if Terminal(l.stop) then l.stop else "";
    GenerationsGrow(s, w, key, Stream(f, n), t);
  }

  lemma StateUnfolds(lines: seq<Line>, n: nat)
    requires n < |lines| && lines[n].Fragment?
    ensures StateAfter(lines, n + 1) == FragmentStep(StateAfter(lines, n), lines[n], n)
  {
  }

  /** `n` finished responses of `w`. */
  ghost predicate Generations(s: State, w: string, n: nat) {
    && OnlyGenerations(s, w) && AllDone(s) && |s.streams| <= n
    && (n == 0 ==> s.streams == map[] && s.wireGen == 0)
    && (n > 0 ==> BaseKey(w) in s.streams && s.wireGen == n - 1)
  }

  lemma {:induction false} WitnessState(w: string, v: string, g: nat, n: nat)
    requires w != "" && n <= g
    ensures Generations(StateAfter(Witness(w, v, g), n), w, n)
  {
    hide FragmentStep, BaseKey, GenKey;
    if n > 0 {
      var lines := Witness(w, v, g);
      WitnessState(w, v, g, n - 1);
      StateUnfolds(lines, n - 1);
      GenerationStep(StateAfter(lines, n - 1), w, lines[n - 1], n - 1);
    }
  }

  /** A fragment of `v` whose base key is open already adds no stream. */
  lemma BaseKeyTaken(s: State, w: string, l: Line, n: nat)
    requires OnlyGenerations(s, w) && l.Fragment? && l.id != "" && l.id != w
    requires BaseKey(l.id) in s.streams && Open(s.streams[BaseKey(l.id)].frame)
    ensures FragmentStep(s, l, n).streams.Keys == s.streams.Keys
  {
    assert StepKey(s, l) == BaseKey(l.id);
  }

  /** The fragment of `v` goes into the open response of `w`. */
  lemma WitnessCollides(w: string, v: string, g: nat)
    requires w != "" && v != w && v != "" && g > 0 && GenKey(w, g) == BaseKey(v)
    ensures |StateAfter(Witness(w, v, g), g + 2).streams| <= g + 1
  {
    var lines := Witness(w, v, g);
    WitnessState(w, v, g, g);
    StateUnfolds(lines, g);
    GenerationStep(StateAfter(lines, g), w, lines[g], g);
    var s := StateAfter(lines, g + 1);
    BaseKeyTaken(s, w, lines[g + 1], g + 1);
    StateUnfolds(lines, g + 1);
    assert |StateAfter(lines, g + 2).streams.Keys| == |s.streams.Keys|;
  }

  lemma {:induction false} EmittedCount(filtered: string -> bool, s: State, lines: seq<Line>, i: nat)
    requires Indexed(s, |lines|) && i <= |lines|
    requires forall k :: 0 <= k < |lines| ==> s.absorbed[k] != ""
    ensures |Emitted(filtered, s, lines, i)| == |FirstBefore(s, i)|
  {
    if i == 0 {
      assert FirstBefore(s, 0) == {};
    } else {
      EmittedCount(filtered, s, lines, i - 1);
      FirstBeforeNext(s, |lines|, i - 1);
    }
  }

  function FirstBefore(s: State, i: nat): set<string> {
    set k | k in s.streams && s.streams[k].firstIdx < i
  }

  lemma FirstBeforeNext(s: State, n: nat, i: nat)
    requires Indexed(s, n) && i < n && s.absorbed[i] != ""
    ensures |FirstBefore(s, i + 1)| == |FirstBefore(s, i)| + if s.streams[s.absorbed[i]].firstIdx == i then 1 else 0
  {
    var key := s.absorbed[i];
    if s.streams[key].firstIdx == i {
      assert FirstBefore(s, i + 1) == FirstBefore(s, i) + {key};
    } else {
      assert FirstBefore(s, i + 1) == FirstBefore(s, i);
    }
  }

  lemma {:induction false} AllAbsorbed(lines: seq<Line>, n: nat)
    requires n <= |lines| && forall l :: l in lines ==> l.Fragment?
    ensures Indexed(StateAfter(lines, n), n)
    ensures forall k :: 0 <= k < n ==> StateAfter(lines, n).absorbed[k] != ""
  {
    hide Indexed, FragmentStep, Step, StepKey;
    StateIndexed(lines, n);
    if n > 0 {
      AllAbsorbed(lines, n - 1);
      var s := StateAfter(lines, n - 1);
      assert lines[n - 1] in lines;
      StateUnfolds(lines, n - 1);
      AbsorbedNext(s, lines[n - 1], n - 1);
    }
  }

  lemma AbsorbedNext(s: State, l: Line, n: nat)
    requires Indexed(s, n) && l.Fragment?
    ensures FragmentStep(s, l, n).absorbed == s.absorbed + [StepKey(s, l)] && StepKey(s, l) != ""
  {
    OpenedAddsStream(s, l, n);
    FragmentStepIndexed(s, l, n);
  }

  /** When every line is a fragment, the passes show one frame for each stream. */
  lemma FramesAreStreams(filtered: string -> bool, lines: seq<Line>)
    requires forall l :: l in lines ==> l.Fragment?
    ensures |KeyedView(filtered, lines)| == |StateAfter(lines, |lines|).streams|
  {
    AllAbsorbed(lines, |lines|);
    var s := AllSealed(StateAfter(lines, |lines|));
    EmittedCount(filtered, s, lines, |lines|);
    assert FirstBefore(s, |lines|) == s.streams.Keys;
    assert s.streams.Keys == StateAfter(lines, |lines|).streams.Keys;
  }

  lemma CollisionShows(filtered: string -> bool, w: string, v: string, g: nat)
    requires w != "" && g > 0 && GenKey(w, g) == BaseKey(v)
    ensures Ids(Witness(w, v, g)) <= {w, v}
    ensures KeyedView(filtered, Witness(w, v, g)) != Coalesced(filtered, Witness(w, v, g))
  {
    var lines := Witness(w, v, g);
    assert |GenKey(w, g)| > |BaseKey(w)| > 3;
    assert v != "" && v != w;
    FramesAreStreams(filtered, lines);
    WitnessCollides(w, v, g);
    WitnessView(filtered, w, v, g, 0);
    assert lines[0..] == lines;
  }

  /** Over a set of wire ids, the two passes show the replay view on every journal exactly when no id
      of the set spells a generation of another. */
  lemma FaithfulExactlyWhenCollisionFree(filtered: string -> bool, ids: set<string>)
    ensures CollisionFree(ids)
       <==> forall lines: seq<Line> :: Ids(lines) <= ids ==> KeyedView(filtered, lines) == Coalesced(filtered, lines)
  {
    if CollisionFree(ids) {
      forall lines: seq<Line> | Ids(lines) <= ids
        ensures KeyedView(filtered, lines) == Coalesced(filtered, lines)
      {
        KeyedViewIsCoalesced(filtered, lines);
      }
    } else {
      var v, w, g: nat :| v in ids && w in ids && w != "" && g > 0 && GenKey(w, g) == BaseKey(v);
      CollisionShows(filtered, w, v, g);
      assert Ids(Witness(w, v, g)) <= ids;
    }
  }

  // ---------------------------------------------------------------- what the code therefore keeps

  /** The coalescer treats the parts of a journal around a settle line independently, although its
      wire keys, generations and legacy counter carry over. */
  lemma PassesSplitAtSeal(filtered: string -> bool, a: seq<Line>, s: Line, b: seq<Line>)
    requires Seals(s) && CollisionFree(Ids(a + [s] + b))
    ensures KeyedView(filtered, a + [s] + b) == KeyedView(filtered, a) + [s] + KeyedView(filtered, b)
  {
    assert Ids(a) <= Ids(a + [s] + b) && Ids(b) <= Ids(a + [s] + b);
    KeyedViewIsCoalesced(filtered, a + [s] + b);
    KeyedViewIsCoalesced(filtered, a);
    KeyedViewIsCoalesced(filtered, b);
    SealSplits(filtered, a, s, b);
  }

  lemma {:induction false} ViewIds(filtered: string -> bool, open: set<string>, lines: seq<Line>)
    ensures Ids(ViewFrom(filtered, open, lines)) <= Ids(lines)
    decreases |lines|
  {
    if lines != [] {
      ViewIds(filtered, OpenAfter(open, lines[0]), lines[1..]);
      assert lines[0] in lines && forall l :: l in lines[1..] ==> l in lines;
      if lines[0].Fragment? {
        GatheredIsSealed(NewFrame(lines[0].id), lines);
      }
      var here, rest := Shown(filtered, open, lines), ViewFrom(filtered, OpenAfter(open, lines[0]), lines[1..]);
      forall l: Line | l in here + rest && l.Fragment? ensures l.id in Ids(lines) {
        if l in rest {
          assert l.id in Ids(rest);
        }
      }
    }
  }

  /** Running the two passes on their own output changes it exactly when a stamped response was hidden. */
  lemma PassesTwice(filtered: string -> bool, lines: seq<Line>)
    requires CollisionFree(Ids(lines))
    ensures KeyedView(filtered, KeyedView(filtered, lines)) == MapLines(KeyedView(filtered, lines), WithoutIdleStamp)
    ensures KeyedView(filtered, KeyedView(filtered, lines)) == KeyedView(filtered, lines)
       <==> !HidesStamp(filtered, {}, lines)
  {
    ViewIds(filtered, {}, lines);
    KeyedViewIsCoalesced(filtered, lines);
    KeyedViewIsCoalesced(filtered, Coalesced(filtered, lines));
    CoalescedTwice(filtered, lines);
    IdempotentExactly(filtered, lines);
  }
}
