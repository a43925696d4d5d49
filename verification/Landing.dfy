/**
 The record of one detached landing (cmd/integrate/detach.go): a parent that announces the landing and names
 its child, the child that records its start and its outcome, and readers, all over one file that every write
 replaces whole. A child of an earlier landing may still be alive.
 */
module Landing {
  import opened Options

  /** The record: which landing it is for, the child's process (0 while starting), and the outcome. */
  datatype Rec = Rec(launch: string, pid: nat, exit: Option<int>)

  /** Where the parent is; before its last write it holds what it read. */
  datatype Parent = Silent | Announced | Started(pid: nat) | Holding(pid: nat, seen: Rec) | Returned

  datatype Child = Unborn | Born | Working(pid: nat) | Finishing(pid: nat, code: int, seen: Option<Rec>) | Over

  /** A child of an earlier landing, with that landing's launch, that has not yet recorded its outcome. */
  datatype Earlier =
    | NoEarlier
    | Lingering(launch: string, pid: nat)
    | EarlierHolding(launch: string, pid: nat, code: int, seen: Option<Rec>)

  /** The file and the processes; what this landing's child has recorded; and whether it did so while the parent
      held a starting record. */
  datatype World = World(
    file: Option<Rec>, parent: Parent, child: Child, earlier: Earlier,
    recorded: Option<int>, refusedToStart: bool, overlapped: bool)

  const SPAWN_FAILED := 2

  function Start(file: Option<Rec>, earlier: Earlier): World {
    World(file, Silent, Unborn, earlier, None, false, false)
  }

  // ---------------------------------------------------------------- the steps

  datatype Step =
    | Announce
    | SpawnFails
    | Spawn(pid: nat)
    | ParentReads
    | ParentNames
    | ChildStarts(pid: nat, written: bool)
    | ChildReads(code: int)
    | ChildWrites
    | ChildDies
    | EarlierReads(code: int)
    | EarlierWrites

  /** A record whose landing has neither a child's name nor an outcome. */
  predicate Unnamed(rec: Rec) {
    rec.pid == 0 && rec.exit == None
  }

  /** The outcome written over whatever the child read. */
  function Finished(launch: string, pid: nat, seen: Option<Rec>, code: int): Rec {
    match seen
    case Some(rec) => rec.(exit := Some(code))
    case None => Rec(launch, pid, Some(code))
  }

  /** One atomic step of one process; a step that its process is not at changes nothing. */
  function Next(me: string, w: World, step: Step): World {
    match step
    case Announce =>
      if w.parent == Silent then w.(file := Some(Rec(me, 0, None)), parent := Announced) else w
    case SpawnFails =>
      if w.parent == Announced
      then w.(file := Some(Rec(me, 0, Some(SPAWN_FAILED))), parent := Returned, refusedToStart := true) else w
    case Spawn(pid) =>
      if w.parent == Announced && pid > 0 then w.(parent := Started(pid), child := Born) else w
    case ParentReads =>
      if w.parent.Started? then
        w.(parent := if w.file.Some? && Unnamed(w.file.value) then Holding(w.parent.pid, w.file.value) else Returned)
      else w
    case ParentNames =>
      if w.parent.Holding? then w.(file := Some(w.parent.seen.(pid := w.parent.pid)), parent := Returned) else w
    case ChildStarts(pid, written) =>
      if w.child == Born && pid > 0
      then w.(child := Working(pid), file := if written then Some(Rec(me, pid, None)) else w.file) else w
    case ChildReads(code) =>
      if w.child.Working? then w.(child := Finishing(w.child.pid, code, w.file)) else w
    case ChildWrites =>
      if w.child.Finishing? then
        w.(child := Over, file := Some(Finished(me, w.child.pid, w.child.seen, w.child.code)),
           recorded := Some(w.child.code), overlapped := w.parent.Holding?)
      else w
    case ChildDies =>
      if w.child in {Unborn, Over} then w else w.(child := Over)
    case EarlierReads(code) =>
      if w.earlier.Lingering? then w.(earlier := EarlierHolding(w.earlier.launch, w.earlier.pid, code, w.file)) else w
    case EarlierWrites =>
      if w.earlier.EarlierHolding? then
        var e := w.earlier;
        w.(earlier := NoEarlier, file := Some(Finished(e.launch, e.pid, e.seen, e.code)))
      else w
  }

  function Run(me: string, start: World, steps: seq<Step>): World {
    if steps == [] then start else Next(me, Run(me, start, steps[..|steps| - 1]), steps[|steps| - 1])
  }

  // ---------------------------------------------------------------- what a reader reports

  datatype Report = Landed | Refused(exit: int) | Starting | NeverStarted | Running | Died | NoRecord

  /** A reader's answer; a starting record is judged by its age, a named one by whether its process is alive. */
  function PrintResult(file: Option<Rec>, late: bool, alive: bool): Report {
    match file
    case None => NoRecord
    case Some(rec) =>
      match rec.exit
      case Some(code) => if code == 0 then Landed else Refused(code)
      case None =>
        if rec.pid == 0 then (if late then NeverStarted else Starting)
        else if alive then Running else Died
  }

  const EXIT_RUNNING := 3

  function StatusOf(r: Report): int {
    match r
    case Landed => 0
    case Refused(code) => code
    case Starting => EXIT_RUNNING
    case Running => EXIT_RUNNING
    case NeverStarted => 1
    case Died => 1
    case NoRecord => 2
  }

  /** A landing is under way when its record has no outcome, and is young while it names no child, or names one
      that is alive. */
  predicate UnderWay(file: Option<Rec>, late: bool, alive: bool) {
    file.Some? && file.value.exit == None && if file.value.pid == 0 then !late else alive
  }

  /** Each status means what it says: a recorded outcome is returned as it is; 3 also stands for a landing under
      way, 2 for no record, and 1 for a landing that never started or died. So status 0 means landed and nothing
      else does, while a refusal with status 1, 2 or 3 cannot be told from those. */
  lemma StatusesExactly(file: Option<Rec>, late: bool, alive: bool, status: int)
    ensures StatusOf(PrintResult(file, late, alive)) == status <==>
      || (file.Some? && file.value.exit == Some(status))
      || (status == 3 && UnderWay(file, late, alive))
      || (status == 2 && file == None)
      || (status == 1 && file.Some? && file.value.exit == None && !UnderWay(file, late, alive))
    ensures PrintResult(file, late, alive) == Landed <==> file.Some? && file.value.exit == Some(0)
  {
  }

  // ---------------------------------------------------------------- no earlier child alive

  /** A record of this landing that is not finished. */
  predicate Open(me: string, rec: Rec) {
    rec.launch == me && rec.exit == None
  }

  /** How far each process is allows only some of what the others have done. */
  predicate InStep(me: string, w: World) {
    && w.earlier == NoEarlier
    && (w.parent in {Silent, Announced} ==> w.child == Unborn)
    && (w.child != Over ==> w.recorded == None)
    && (w.recorded == None ==> !w.overlapped)
    && (w.refusedToStart ==> w.child == Unborn && w.parent == Returned)
    && (w.parent.Started? || w.parent.Holding? ==> !w.refusedToStart)
    && (w.parent.Started? ==> w.parent.pid > 0)
    && (w.parent.Holding? ==> w.parent.pid > 0 && w.parent.seen == Rec(me, 0, None))
    && (w.parent.Holding? && w.recorded.Some? ==> w.overlapped)
    && (w.parent.Started? ==> !w.overlapped)
  }

  /** The file once the landing is announced: this landing's, with the outcome that was recorded unless the
      parent wrote its stale record over it. */
  predicate Told(me: string, w: World) {
    w.parent != Silent ==>
      && w.file.Some? && w.file.value.launch == me
      && (w.refusedToStart ==> w.file == Some(Rec(me, 0, Some(2))))
      && (w.child.Finishing? ==> w.child.seen.Some? && Open(me, w.child.seen.value))
      && w.file.value.exit ==
           if w.refusedToStart then Some(2)
           else if w.overlapped && w.parent == Returned then None
           else w.recorded
  }

  lemma StepKeepsInStep(me: string, w: World, step: Step)
    requires InStep(me, w) && Told(me, w)
    ensures InStep(me, Next(me, w, step))
  {
  }

  lemma StepKeepsTold(me: string, w: World, step: Step)
    requires InStep(me, w) && Told(me, w)
    ensures Told(me, Next(me, w, step))
  {
  }

  lemma {:induction false} EveryRunIsTold(me: string, file: Option<Rec>, steps: seq<Step>)
    ensures InStep(me, Run(me, Start(file, NoEarlier), steps)) && Told(me, Run(me, Start(file, NoEarlier), steps))
  {
    if steps != [] {
      EveryRunIsTold(me, file, steps[..|steps| - 1]);
      StepKeepsInStep(me, Run(me, Start(file, NoEarlier), steps[..|steps| - 1]), steps[|steps| - 1]);
      StepKeepsTold(me, Run(me, Start(file, NoEarlier), steps[..|steps| - 1]), steps[|steps| - 1]);
    }
  }

  /** From the announcement on every reader sees this landing's record, whatever stood there before; and once the
      child has recorded its outcome the record shows it, except exactly when the child wrote while the parent
      held the starting record and the parent has since written that record back. */
  lemma OutcomeShowsExactly(me: string, file: Option<Rec>, steps: seq<Step>)
    ensures var w := Run(me, Start(file, NoEarlier), steps);
      && (w.parent != Silent ==> w.file.Some? && w.file.value.launch == me)
      && (w.refusedToStart ==> w.file == Some(Rec(me, 0, Some(2))))
      && (w.recorded.Some? ==>
            w.file.Some? && (w.file.value.exit == w.recorded <==> !(w.overlapped && w.parent == Returned)))
  {
    EveryRunIsTold(me, file, steps);
  }

  /** A finished record stays finished, with the same outcome, at every step but one: the parent naming a child
      that has already recorded its outcome in between. */
  lemma FinishedStays(me: string, file: Option<Rec>, steps: seq<Step>, step: Step)
    ensures var w := Run(me, Start(file, NoEarlier), steps);
      var t := Next(me, w, step);
      w.parent != Silent && w.file.Some? && w.file.value.exit.Some? && (step == ParentNames ==> !w.overlapped) ==>
        t.file.Some? && t.file.value.exit == w.file.value.exit
  {
    EveryRunIsTold(me, file, steps);
  }

  /** The one way to lose an outcome: the child starts, finishes and records between the parent's read and its
      write. A reader then reports a landing that died. */
  lemma OutcomeCanBeLost(me: string, file: Option<Rec>, pid: nat, code: int)
    requires pid > 0
    ensures var w := Run(me, Start(file, NoEarlier),
        [Announce, Spawn(pid), ParentReads, ChildStarts(pid, true), ChildReads(code), ChildWrites, ParentNames]);
      w.recorded == Some(code) && w.file == Some(Rec(me, pid, None)) && PrintResult(w.file, false, false) == Died
  {
    var s0 := Start(file, NoEarlier);
    var steps := [Announce, Spawn(pid), ParentReads, ChildStarts(pid, true), ChildReads(code), ChildWrites, ParentNames];
    var s1 := Next(me, s0, Announce);
    var s2 := Next(me, s1, Spawn(pid));
    var s3 := Next(me, s2, ParentReads);
    var s4 := Next(me, s3, ChildStarts(pid, true));
    var s5 := Next(me, s4, ChildReads(code));
    var s6 := Next(me, s5, ChildWrites);
    assert steps[..1][..0] == [] && Run(me, s0, steps[..1]) == s1;
    assert steps[..2][..1] == steps[..1] && Run(me, s0, steps[..2]) == s2;
    assert steps[..3][..2] == steps[..2] && Run(me, s0, steps[..3]) == s3;
    assert steps[..4][..3] == steps[..3] && Run(me, s0, steps[..4]) == s4;
    assert steps[..5][..4] == steps[..4] && Run(me, s0, steps[..5]) == s5;
    assert steps[..6][..5] == steps[..5] && Run(me, s0, steps[..6]) == s6;
    assert steps[..7] == steps;
  }

  /** A landing whose record names its child, written by the child as it starts or by the parent, reads as running
      while that child is alive and as died when it is not. */
  lemma NamedRecordTracksItsChild(me: string, file: Option<Rec>, steps: seq<Step>, step: Step, late: bool, alive: bool)
    ensures var w := Run(me, Start(file, NoEarlier), steps);
      var t := Next(me, w, step);
      ((w.child == Born && step.ChildStarts? && step.written && step.pid > 0)
       || (w.parent.Holding? && step == ParentNames)) ==>
        && t.file == Some(Rec(me, if step.ChildStarts? then step.pid else w.parent.pid, None))
        && PrintResult(t.file, late, alive) == (if alive then Running else Died)
  {
    EveryRunIsTold(me, file, steps);
  }

  // ---------------------------------------------------------------- earlier children

  /** No child of an earlier landing can still record a success. */
  predicate NoLateSuccess(e: Earlier) {
    e == NoEarlier || (e.EarlierHolding? && e.code != 0)
  }

  /** A record that reads as landed was written by this landing's child. */
  predicate Honest(w: World) {
    w.parent != Silent && PrintResult(w.file, false, false) == Landed ==> w.recorded == Some(0)
  }

  predicate HonestSoFar(w: World) {
    && NoLateSuccess(w.earlier) && Honest(w)
    && (w.parent in {Silent, Announced} ==> w.child == Unborn)
    && (w.child != Over ==> w.recorded == None)
    && (w.parent.Holding? ==> w.parent.seen.exit == None)
  }

  lemma {:induction false} EveryRunIsHonest(me: string, file: Option<Rec>, earlier: Earlier, steps: seq<Step>)
    requires NoLateSuccess(earlier)
    ensures HonestSoFar(Run(me, Start(file, earlier), steps))
  {
    if steps != [] {
      EveryRunIsHonest(me, file, earlier, steps[..|steps| - 1]);
      StepKeepsHonest(me, Run(me, Start(file, earlier), steps[..|steps| - 1]), steps[|steps| - 1]);
    }
  }

  lemma StepKeepsHonest(me: string, w: World, step: Step)
    requires HonestSoFar(w)
    ensures HonestSoFar(Next(me, w, step))
  {
  }

  ghost predicate Trusted(me: string, file: Option<Rec>, earlier: Earlier) {
    forall steps :: Honest(Run(me, Start(file, earlier), steps))
  }

  /** In every interleaving LANDED means that this landing's own child recorded exit 0, exactly when no child of
      an earlier landing can still record a success. */
  lemma LandedIsTrustedExactly(me: string, file: Option<Rec>, earlier: Earlier)
    ensures Trusted(me, file, earlier) <==> NoLateSuccess(earlier)
  {
    if NoLateSuccess(earlier) {
      forall steps ensures Honest(Run(me, Start(file, earlier), steps)) {
        EveryRunIsHonest(me, file, earlier, steps);
      }
    } else {
      LateSuccess(me, file, earlier);
    }
  }

  lemma LateSuccess(me: string, file: Option<Rec>, earlier: Earlier)
    requires !NoLateSuccess(earlier)
    ensures !Honest(Run(me, Start(file, earlier), [Announce, EarlierReads(0), EarlierWrites]))
  {
    var s0 := Start(file, earlier);
    var steps := [Announce, EarlierReads(0), EarlierWrites];
    var s1 := Next(me, s0, Announce);
    var s2 := Next(me, s1, EarlierReads(0));
    assert steps[..1][..0] == [] && Run(me, s0, steps[..1]) == s1;
    assert steps[..2][..1] == steps[..1] && Run(me, s0, steps[..2]) == s2;
    assert steps[..3] == steps;
  }

  // ---------------------------------------------------------------- one process at a time

  /** The record file as each process uses it when no other one comes between its read and its write. */
  class RecordFile {
    var file: Option<Rec>

    constructor (file: Option<Rec>)
      ensures this.file == file
    {
      this.file := file;
    }

    /** A child's outcome: two steps of the protocol back to back. */
    method RecordResult(me: string, ghost w: World, pid: nat, code: int)
      requires w.file == file && w.child == Working(pid)
      modifies this
      ensures file == Next(me, Next(me, w, ChildReads(code)), ChildWrites).file
      ensures file.Some? && file.value.exit == Some(code)
    {
      var rec := if file.Some? then file.value else Rec(me, pid, None);
      file := Some(rec.(exit := Some(code)));
    }

    /** The parent names its child unless the child has written: two steps back to back lose nothing. */
    method NameChild(me: string, ghost w: World, pid: nat)
      requires w.file == file && w.parent == Started(pid)
      modifies this
      ensures file == Next(me, Next(me, w, ParentReads), ParentNames).file
      ensures old(file).Some? && old(file).value.exit.Some? ==> file == old(file)
    {
      if file.Some? && file.value.pid == 0 && file.value.exit == None {
        file := Some(file.value.(pid := pid));
      }
    }
  }
}
