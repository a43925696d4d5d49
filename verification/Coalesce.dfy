/**
 The two-pass coalescer shows the replay view, exactly when no wire id spells another id's generation.
 */
module Coalesce {
  import opened Transcript
  import opened View
  import opened Frames
  import opened Streams
  import opened Sequences

  function Ids(lines: seq<Line>): set<string> {
    set l | l in lines && l.Fragment? :: l.id
  }

  /** No id of the journal is another one with `#` and a positive number after it. */
  ghost predicate CollisionFree(ids: set<string>) {
    forall v, w, g: nat {:trigger GenKey(w, g), BaseKey(v)} ::
      v in ids && w in ids && w != "" && g > 0 ==> GenKey(w, g) != BaseKey(v)
  }

  // ---------------------------------------------------------------- what the state keeps

  /** The open stream of `id` is the one its pointer names. */
  predicate Points(s: State, id: string, key: string) {
    if id == "" then s.legacyOpen == key && key != "" else id in s.openByWire && s.openByWire[id] == key
  }

  predicate Holds(s: State, id: string, key: string) {
    key in s.streams && Open(s.streams[key].frame) && s.streams[key].frame.id == id
  }

  ghost predicate KeyFits(s: State, key: string, id: string) {
    if id == "" then exists m: nat :: m < s.legacyN && key == LegacyKey(m)
    else key == BaseKey(id) || exists g: nat :: 0 < g && key == GenKey(id, g)
  }

  /** Every pointer names a stream of its own id, and the unlabelled one an open stream. */
  predicate PointersFit(s: State) {
    && (s.legacyOpen != "" ==> Holds(s, "", s.legacyOpen))
    && (forall w :: w in s.openByWire ==>
          w != "" && s.openByWire[w] in s.streams && s.streams[s.openByWire[w]].frame.id == w)
  }

  ghost predicate Consistent(s: State, ids: set<string>, open: set<string>) {
    && (forall k :: k in s.streams ==>
          s.streams[k].frame.id in ids && KeyFits(s, k, s.streams[k].frame.id))
    && (forall k, id :: Holds(s, id, k) ==> Points(s, id, k))
    && PointersFit(s)
    && (forall id :: id in open <==> exists k :: Holds(s, id, k))
  }

  /** Wire keys and unlabelled keys are told apart by their first character. */
  lemma FirstChar(s: State, key: string, id: string)
    requires KeyFits(s, key, id)
    ensures key != "" && key[0] == if id == "" then 'l' else 'i'
  {
  }

  lemma BaseKeyInjective(v: string, w: string)
    requires BaseKey(v) == BaseKey(w)
    ensures v == w
  {
    assert BaseKey(v)[3..] == v && BaseKey(w)[3..] == w;
  }

  /** A stream found under the base key of a wire id is a stream of that id. */
  lemma BaseKeyIsOwn(s: State, ids: set<string>, open: set<string>, id: string)
    requires Consistent(s, ids, open) && CollisionFree(ids) && id in ids && id != "" && BaseKey(id) in s.streams
    ensures s.streams[BaseKey(id)].frame.id == id
  {
    var owner := s.streams[BaseKey(id)].frame.id;
    FirstChar(s, BaseKey(id), owner);
    if BaseKey(id) == BaseKey(owner) {
      BaseKeyInjective(id, owner);
    }
  }

  lemma LegacyKeyIsFree(s: State, ids: set<string>, open: set<string>)
    requires Consistent(s, ids, open)
    ensures LegacyKey(s.legacyN) !in s.streams
  {
    var key := LegacyKey(s.legacyN);
    if key in s.streams {
      FirstChar(s, key, s.streams[key].frame.id);
      var m: nat :| m < s.legacyN && key == LegacyKey(m);
      LegacyKeyInjective(m, s.legacyN);
    }
  }

  /** A fragment goes to the open stream of its own id, or to a fresh stream when there is none. */
  lemma KeyIsOwnOrFresh(s: State, ids: set<string>, open: set<string>, l: Line)
    requires Consistent(s, ids, open) && CollisionFree(ids) && l.Fragment? && l.id in ids
    ensures var key := StepKey(s, l);
      if l.id in open then Holds(s, l.id, key) else key !in s.streams
  {
    if l.id in open {
      var k :| Holds(s, l.id, k);
      assert Points(s, l.id, k);
    } else if l.id == "" {
      LegacyKeyIsFree(s, ids, open);
    } else {
      assert !HasCurrent(s, l.id) by {
        assert l.id in s.openByWire ==> !Holds(s, l.id, s.openByWire[l.id]);
      }
      if BaseKey(l.id) in s.streams {
        BaseKeyIsOwn(s, ids, open, l.id);
        assert !Holds(s, l.id, BaseKey(l.id));
        NextGenIsLeastFree(s.streams.Keys, l.id, s.wireGen);
      }
    }
  }

  // ---------------------------------------------------------------- one line

  /** What one line does to the frame of any stream that is already there. */
  function AfterIfOpen(f: Frame, l: Line): Frame {
    if Open(f) then After(f, l) else f
  }

  /** One line moves every old stream as the look-ahead view does, and opens a stream when none takes it. */
  ghost predicate Follows(s: State, l: Line, n: nat, open: set<string>, t: State) {
    && (forall k :: k in s.streams ==>
          k in t.streams && t.streams[k] == Stream(AfterIfOpen(s.streams[k].frame, l), s.streams[k].firstIdx))
    && (forall k :: k in t.streams && k !in s.streams ==>
          l.Fragment? && l.id !in open && k == StepKey(s, l)
          && t.streams[k] == Stream(After(NewFrame(l.id), l), n))
    && (l.Fragment? ==> StepKey(s, l) in t.streams && (StepKey(s, l) in s.streams <==> l.id in open))
  }

  lemma HolderIsKey(s: State, ids: set<string>, open: set<string>, l: Line, k: string)
    requires Consistent(s, ids, open) && CollisionFree(ids) && l.Fragment? && l.id in ids && Holds(s, l.id, k)
    ensures k == StepKey(s, l) && l.id in open
  {
    KeyIsOwnOrFresh(s, ids, open, l);
    assert Points(s, l.id, k);
  }

  lemma FragmentFollows(s: State, ids: set<string>, open: set<string>, l: Line, n: nat)
    requires Consistent(s, ids, open) && CollisionFree(ids) && Indexed(s, n)
    requires l.Fragment? && l.id in ids
    ensures Follows(s, l, n, open, FragmentStep(s, l, n))
  {
    hide StepKey, KeyFits, CollisionFree, WireOpened;
    OpenedAddsStream(s, l, n);
    KeyIsOwnOrFresh(s, ids, open, l);
    var key, t := StepKey(s, l), FragmentStep(s, l, n);
    assert t.streams.Keys == s.streams.Keys + {key};
    forall k | k in s.streams
      ensures t.streams[k] == Stream(AfterIfOpen(s.streams[k].frame, l), s.streams[k].firstIdx)
    {
      if Holds(s, l.id, k) {
        HolderIsKey(s, ids, open, l, k);
      }
    }
  }

  lemma StepFollows(s: State, ids: set<string>, open: set<string>, l: Line, n: nat)
    requires Consistent(s, ids, open) && CollisionFree(ids) && Indexed(s, n)
    requires l.Fragment? ==> l.id in ids
    ensures Follows(s, l, n, open, Step(s, l, n))
  {
    if l.Fragment? {
      FragmentFollows(s, ids, open, l, n);
    }
  }

  lemma FragmentStepPointers(s: State, l: Line, n: nat)
    requires l.Fragment? && Indexed(s, n)
    ensures var key, t := StepKey(s, l), FragmentStep(s, l, n);
      && t.openByWire == (if l.id != "" then s.openByWire[l.id := key] else s.openByWire)
      && t.legacyOpen == (var o := if l.id == "" then key else s.legacyOpen;
                          if Terminal(l.stop) && key == o then "" else o)
      && t.legacyN >= s.legacyN && (l.id == "" && s.legacyOpen == "" ==> t.legacyN == s.legacyN + 1)
  {
    OpenedAddsStream(s, l, n);
    if l.id != "" && HasCurrent(s, l.id) {
      assert s.openByWire[l.id := s.openByWire[l.id]] == s.openByWire;
    }
  }

  lemma KeyFitsKept(s: State, t: State, key: string, id: string)
    requires KeyFits(s, key, id) && s.legacyN <= t.legacyN
    ensures KeyFits(t, key, id)
  {
  }

  lemma NewKeyFits(s: State, l: Line, n: nat)
    requires l.Fragment? && Indexed(s, n) && StepKey(s, l) !in s.streams
    ensures KeyFits(FragmentStep(s, l, n), StepKey(s, l), l.id)
  {
    FragmentStepPointers(s, l, n);
    if l.id != "" && StepKey(s, l) != BaseKey(l.id) {
      NextGenIsLeastFree(s.streams.Keys, l.id, s.wireGen);
      assert StepKey(s, l) == GenKey(l.id, NextGen(s.streams.Keys, l.id, s.wireGen));
    }
  }

  lemma FollowsKeepsKeys(s: State, ids: set<string>, open: set<string>, l: Line, n: nat, t: State, k: string)
    requires Consistent(s, ids, open) && Follows(s, l, n, open, t) && k in t.streams && s.legacyN <= t.legacyN
    requires l.Fragment? ==> l.id in ids
    requires l.Fragment? && StepKey(s, l) !in s.streams ==> KeyFits(t, StepKey(s, l), l.id)
    ensures t.streams[k].frame.id in ids && KeyFits(t, k, t.streams[k].frame.id)
  {
    if k in s.streams {
      KeyFitsKept(s, t, k, s.streams[k].frame.id);
    }
  }

  lemma StepKeepsKeys(s: State, ids: set<string>, open: set<string>, l: Line, n: nat)
    requires Consistent(s, ids, open) && Indexed(s, n) && Follows(s, l, n, open, Step(s, l, n))
    requires l.Fragment? ==> l.id in ids
    ensures forall k :: k in Step(s, l, n).streams ==>
      Step(s, l, n).streams[k].frame.id in ids && KeyFits(Step(s, l, n), k, Step(s, l, n).streams[k].frame.id)
  {
    var t := Step(s, l, n);
    if l.Fragment? {
      FragmentStepPointers(s, l, n);
      if StepKey(s, l) !in s.streams {
        NewKeyFits(s, l, n);
      }
    }
    forall k | k in t.streams ensures t.streams[k].frame.id in ids && KeyFits(t, k, t.streams[k].frame.id) {
      FollowsKeepsKeys(s, ids, open, l, n, t, k);
    }
  }

  /** The ids with an open stream change as the look-ahead view's open ids do. */
  lemma FollowsKeepsOpen(s: State, l: Line, n: nat, open: set<string>, t: State, id: string)
    requires Follows(s, l, n, open, t)
    requires id in open <==> exists k :: Holds(s, id, k)
    requires l.Fragment? && l.id in open ==> Holds(s, l.id, StepKey(s, l))
    ensures id in OpenAfter(open, l) <==> exists k :: Holds(t, id, k)
  {
    if id in OpenAfter(open, l) {
      if l.Fragment? && id == l.id {
        assert Holds(t, id, StepKey(s, l));
      } else {
        var k :| Holds(s, id, k);
        assert Holds(t, id, k);
      }
    }
    if k :| Holds(t, id, k) {
      if k in s.streams {
        assert Holds(s, id, k);
      }
    }
  }

  lemma FragmentPointers(s: State, ids: set<string>, open: set<string>, l: Line, n: nat, t: State)
    requires Consistent(s, ids, open) && Follows(s, l, n, open, t) && l.Fragment?
    requires l.id in open ==> Holds(s, l.id, StepKey(s, l))
    requires t.openByWire == if l.id != "" then s.openByWire[l.id := StepKey(s, l)] else s.openByWire
    requires t.legacyOpen == (var o := if l.id == "" then StepKey(s, l) else s.legacyOpen;
                              if Terminal(l.stop) && StepKey(s, l) == o then "" else o)
    requires StepKey(s, l) != ""
    ensures PointersFit(t)
    ensures forall k, id :: Holds(t, id, k) ==> Points(t, id, k)
  {
    hide StepKey, KeyFits;
    var key := StepKey(s, l);
    assert t.streams[key].frame.id == l.id;
    forall k, id | Holds(t, id, k) ensures Points(t, id, k) {
      if k != key {
        assert Holds(s, id, k);
        assert Points(s, id, k);
        assert id == l.id ==> l.id in open;
      }
    }
    if l.id != "" && s.legacyOpen != "" {
      assert Holds(s, "", s.legacyOpen);
      assert Holds(t, "", s.legacyOpen);
    }
  }

  lemma StepPointers(s: State, ids: set<string>, open: set<string>, l: Line, n: nat)
    requires Consistent(s, ids, open) && Indexed(s, n) && Follows(s, l, n, open, Step(s, l, n))
    requires l.Fragment? && l.id in open ==> Holds(s, l.id, StepKey(s, l))
    ensures PointersFit(Step(s, l, n))
    ensures forall k, id :: Holds(Step(s, l, n), id, k) ==> Points(Step(s, l, n), id, k)
  {
    hide StepKey, KeyFits, FragmentStep;
    var t := Step(s, l, n);
    if l.Fragment? {
      FragmentStepPointers(s, l, n);
      OpenedAddsStream(s, l, n);
      FragmentPointers(s, ids, open, l, n, t);
    } else if !Seals(l) {
      forall k, id | Holds(t, id, k) ensures Points(t, id, k) {
        assert Holds(s, id, k);
      }
      assert s.legacyOpen != "" ==> Holds(t, "", s.legacyOpen);
    }
  }

  lemma StepConsistent(s: State, ids: set<string>, open: set<string>, l: Line, n: nat)
    requires Consistent(s, ids, open) && CollisionFree(ids) && Indexed(s, n)
    requires l.Fragment? ==> l.id in ids
    ensures Consistent(Step(s, l, n), ids, OpenAfter(open, l))
  {
    var t := Step(s, l, n);
    StepFollows(s, ids, open, l, n);
    if l.Fragment? {
      KeyIsOwnOrFresh(s, ids, open, l);
    }
    StepKeepsKeys(s, ids, open, l, n);
    StepPointers(s, ids, open, l, n);
    forall id ensures id in OpenAfter(open, l) <==> exists k :: Holds(t, id, k) {
      FollowsKeepsOpen(s, l, n, open, t, id);
    }
  }

  lemma StartConsistent(ids: set<string>)
    ensures Consistent(START, ids, {})
  {
  }

  lemma {:induction false} StateConsistent(lines: seq<Line>, ids: set<string>, n: nat)
    requires n <= |lines| && Ids(lines) <= ids && CollisionFree(ids)
    ensures Consistent(StateAfter(lines, n), ids, OpenAll(lines[..n])) && Indexed(StateAfter(lines, n), n)
  {
    hide Consistent, Indexed, Step, CollisionFree;
    StateIndexed(lines, n);
    if n == 0 {
      StartConsistent(ids);
      assert lines[..0] == [];
    } else {
      StateConsistent(lines, ids, n - 1);
      StateIndexed(lines, n - 1);
      assert lines[..n][..n - 1] == lines[..n - 1];
      assert lines[n - 1].Fragment? ==> lines[n - 1].id in Ids(lines);
      StepConsistent(StateAfter(lines, n - 1), ids, OpenAll(lines[..n - 1]), lines[n - 1], n - 1);
    }
  }

  lemma StateFollows(lines: seq<Line>, ids: set<string>, m: nat)
    requires m < |lines| && Ids(lines) <= ids && CollisionFree(ids)
    ensures var s, t, l := StateAfter(lines, m), StateAfter(lines, m + 1), lines[m];
      && Indexed(s, m) && Indexed(t, m + 1) && Follows(s, l, m, OpenAll(lines[..m]), t)
      && t.absorbed == s.absorbed + [if l.Fragment? then StepKey(s, l) else ""]
      && (l.Fragment? ==> StepKey(s, l) != "")
  {
    var s, open, l := StateAfter(lines, m), OpenAll(lines[..m]), lines[m];
    StateConsistent(lines, ids, m);
    assert l.Fragment? ==> l.id in Ids(lines);
    StepFollows(s, ids, open, l, m);
    StepIndexed(s, l, m);
    if l.Fragment? {
      OpenedAddsStream(s, l, m);
    }
  }

  // ---------------------------------------------------------------- the whole journal

  /** What stands at line `i` once every stream has also been given the lines still to come. */
  function ForeseenAt(filtered: string -> bool, s: State, lines: seq<Line>, i: nat, rest: seq<Line>): seq<Line>
    requires i < |lines| && i < |s.absorbed|
  {
    var key := s.absorbed[i];
    if key == "" then [lines[i]]
    else if key in s.streams && s.streams[key].firstIdx == i then
      [Rendered(filtered, Gathered(s.streams[key].frame, rest))]
    else []
  }

  function Foreseen(filtered: string -> bool, s: State, lines: seq<Line>, n: nat, rest: seq<Line>): seq<Line>
    requires n <= |lines| && n <= |s.absorbed|
  {
    if n == 0 then []
    else Foreseen(filtered, s, lines, n - 1, rest) + ForeseenAt(filtered, s, lines, n - 1, rest)
  }

  lemma {:induction false} ForeseenMoves(
    filtered: string -> bool, s: State, l: Line, n: nat, open: set<string>, t: State,
    lines: seq<Line>, i: nat, rest: seq<Line>)
    requires i <= n < |lines| && Indexed(s, n) && Follows(s, l, n, open, t)
    requires |t.absorbed| == n + 1 && t.absorbed[..n] == s.absorbed
    ensures Foreseen(filtered, t, lines, i, rest) == Foreseen(filtered, s, lines, i, [l] + rest)
    decreases i
  {
    if i > 0 {
      ForeseenMoves(filtered, s, l, n, open, t, lines, i - 1, rest);
      var key := s.absorbed[i - 1];
      assert t.absorbed[i - 1] == t.absorbed[..n][i - 1] == key;
      if key != "" {
        var f := s.streams[key].frame;
        assert ([l] + rest)[1..] == rest;
        assert Gathered(f, [l] + rest) == Gathered(AfterIfOpen(f, l), rest);
      }
    }
  }

  lemma ShownIsForeseen(
    filtered: string -> bool, s: State, open: set<string>, t: State, lines: seq<Line>, m: nat)
    requires m < |lines| && Indexed(s, m) && Indexed(t, m + 1) && Follows(s, lines[m], m, open, t)
    requires t.absorbed[m] == if lines[m].Fragment? then StepKey(s, lines[m]) else ""
    requires lines[m].Fragment? ==> StepKey(s, lines[m]) != ""
    ensures ForeseenAt(filtered, t, lines, m, lines[m + 1..]) == Shown(filtered, open, lines[m..])
  {
    var l := lines[m];
    assert lines[m..][1..] == lines[m + 1..];
    if l.Fragment? && l.id !in open {
      var f := NewFrame(l.id);
      assert Gathered(f, lines[m..]) == Gathered(After(f, l), lines[m..][1..]);
    }
  }

  lemma AbsorbedPrefix(s: State, t: State, m: nat)
    requires Indexed(s, m) && Indexed(t, m + 1) && s.absorbed <= t.absorbed
    ensures |s.absorbed| == m && |t.absorbed| == m + 1 && t.absorbed[..m] == s.absorbed
  {
  }

  /** One more line moves its share of the view from what is to come to what is foreseen. */
  lemma ForeseenStep(
    filtered: string -> bool, s: State, open: set<string>, t: State, lines: seq<Line>, m: nat)
    requires m < |lines| && Indexed(s, m) && Indexed(t, m + 1) && Follows(s, lines[m], m, open, t)
    requires t.absorbed == s.absorbed + [if lines[m].Fragment? then StepKey(s, lines[m]) else ""]
    requires lines[m].Fragment? ==> StepKey(s, lines[m]) != ""
    ensures Foreseen(filtered, t, lines, m + 1, lines[m + 1..])
         == Foreseen(filtered, s, lines, m, lines[m..]) + Shown(filtered, open, lines[m..])
  {
    hide Indexed, Follows, StepKey, Shown, ForeseenAt;
    AbsorbedPrefix(s, t, m);
    ShownIsForeseen(filtered, s, open, t, lines, m);
    assert lines[m..] == [lines[m]] + lines[m + 1..];
    ForeseenMoves(filtered, s, lines[m], m, open, t, lines, m, lines[m + 1..]);
  }

  lemma ViewUnfolds(filtered: string -> bool, open: set<string>, lines: seq<Line>, m: nat)
    requires m < |lines|
    ensures ViewFrom(filtered, open, lines[m..])
         == Shown(filtered, open, lines[m..]) + ViewFrom(filtered, OpenAfter(open, lines[m]), lines[m + 1..])
  {
    assert lines[m..][1..] == lines[m + 1..];
  }

  lemma ViewStep(
    filtered: string -> bool, s: State, open: set<string>, t: State, lines: seq<Line>, m: nat, view: seq<Line>)
    requires m < |lines| && Indexed(s, m) && Indexed(t, m + 1) && Follows(s, lines[m], m, open, t)
    requires t.absorbed == s.absorbed + [if lines[m].Fragment? then StepKey(s, lines[m]) else ""]
    requires lines[m].Fragment? ==> StepKey(s, lines[m]) != ""
    requires Foreseen(filtered, s, lines, m, lines[m..]) + ViewFrom(filtered, open, lines[m..]) == view
    ensures Foreseen(filtered, t, lines, m + 1, lines[m + 1..])
          + ViewFrom(filtered, OpenAfter(open, lines[m]), lines[m + 1..]) == view
  {
    var later := ViewFrom(filtered, OpenAfter(open, lines[m]), lines[m + 1..]);
    ForeseenStep(filtered, s, open, t, lines, m);
    ViewUnfolds(filtered, open, lines, m);
    Regroup(Foreseen(filtered, s, lines, m, lines[m..]), Shown(filtered, open, lines[m..]), later);
  }

  lemma OpenAllNext(lines: seq<Line>, n: nat)
    requires n < |lines|
    ensures OpenAll(lines[..n + 1]) == OpenAfter(OpenAll(lines[..n]), lines[n])
  {
    assert lines[..n + 1][..n] == lines[..n];
  }

  lemma NothingForeseen(filtered: string -> bool, lines: seq<Line>)
    ensures Indexed(StateAfter(lines, 0), 0)
    ensures Foreseen(filtered, StateAfter(lines, 0), lines, 0, lines[0..])
          + ViewFrom(filtered, OpenAll(lines[..0]), lines[0..]) == Coalesced(filtered, lines)
  {
    assert lines[..0] == [] && lines[0..] == lines;
  }

  /** The streams found so far, given the lines to come, and the look-ahead view of those lines make up
      the whole view, at every line of the journal. */
  lemma {:induction false} ViewForeseen(filtered: string -> bool, lines: seq<Line>, ids: set<string>, n: nat)
    requires n <= |lines| && Ids(lines) <= ids && CollisionFree(ids)
    ensures Indexed(StateAfter(lines, n), n)
    ensures Foreseen(filtered, StateAfter(lines, n), lines, n, lines[n..])
          + ViewFrom(filtered, OpenAll(lines[..n]), lines[n..]) == Coalesced(filtered, lines)
  {
    hide Foreseen, ViewFrom, Coalesced, StateAfter, OpenAll, Follows, Indexed, Step;
    if n == 0 {
      NothingForeseen(filtered, lines);
    } else {
      ViewForeseen(filtered, lines, ids, n - 1);
      StateFollows(lines, ids, n - 1);
      ViewStep(filtered, StateAfter(lines, n - 1), OpenAll(lines[..n - 1]), StateAfter(lines, n),
               lines, n - 1, Coalesced(filtered, lines));
      OpenAllNext(lines, n - 1);
    }
  }

  lemma {:induction false} ForeseenOfNothing(filtered: string -> bool, s: State, lines: seq<Line>, i: nat)
    requires i <= |lines| && i <= |s.absorbed|
    ensures Foreseen(filtered, s, lines, i, []) == Emitted(filtered, AllSealed(s), lines, i)
    decreases i
  {
    if i > 0 {
      ForeseenOfNothing(filtered, s, lines, i - 1);
    }
  }

  /** On collision-free ids the two passes show the replay view. */
  lemma KeyedViewIsCoalesced(filtered: string -> bool, lines: seq<Line>)
    requires CollisionFree(Ids(lines))
    ensures KeyedView(filtered, lines) == Coalesced(filtered, lines)
  {
    var n := |lines|;
    ViewForeseen(filtered, lines, Ids(lines), n);
    assert lines[n..] == [];
    ForeseenOfNothing(filtered, StateAfter(lines, n), lines, n);
  }

  /** Merges assistant fragments into one sealed frame for each response. */
  method CoalesceStreamLines(filtered: string -> bool, lines: seq<Line>) returns (out: seq<Line>)
    ensures out == KeyedView(filtered, lines)
    ensures CollisionFree(Ids(lines)) ==> out == Coalesced(filtered, lines) == ReplayView(filtered, lines, 0)
  {
    if |lines| == 0 {
      return [];
    }
    var c := new Coalescer();
    for i := 0 to |lines|
      invariant c.Value() == StateAfter(lines, i) && fresh(c)
    {
      StateIndexed(lines, i);
      c.Take(lines[i], i);
    }
    StateIndexed(lines, |lines|);
    c.SealStreams();
    out := c.Emit(filtered, lines);
    if CollisionFree(Ids(lines)) {
      KeyedViewIsCoalesced(filtered, lines);
    }
    ViewIsReplay(filtered, lines);
  }
}
