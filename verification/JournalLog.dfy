/**
 The journal as an object over its file (internal/chatlog/chatlog.go): the reading loops and the rewrite,
 each proved against the line functions of Journal.
 */
module JournalLog {
  import opened Options
  import opened TextLines
  import opened Journal
  import opened Sequences

  datatype Snapshot = Snapshot(lines: seq<string>, turnStarts: seq<nat>) | TooLong

  datatype Window = Window(lines: seq<string>, start: nat, total: nat) | NoWindow

  datatype Range = Range(lines: seq<string>, total: nat) | NoRange

  /** The lines read so far and those from the position on are all the lines of the file. */
  ghost predicate ReplayedTo(b: string, all: seq<string>, lines: seq<string>, pos: nat) {
    pos <= |b| && all == lines + Replayed(b[pos..])
  }

  ghost predicate ScannedTo(b: string, lines: seq<string>, pos: nat) {
    pos <= |b| && Scanned(b) == Both(Some(lines), Scanned(b[pos..]))
  }

  lemma ScanStart(b: string)
    ensures ScannedTo(b, [], 0)
  {
    assert b[0..] == b;
    if Scanned(b).Some? {
      assert [] + Scanned(b).value == Scanned(b).value;
    }
  }

  lemma ScannedToEnd(b: string, lines: seq<string>)
    requires ScannedTo(b, lines, |b|)
    ensures Scanned(b) == Some(lines)
  {
    assert b[|b|..] == "";
    assert lines + [] == lines;
  }

  /** The next newline-ended line from a position; at the end of the file there is none. */
  method ReadString(b: string, pos: nat) returns (line: string, next: nat, eof: bool)
    requires pos <= |b|
    ensures eof ==> Replayed(b[pos..]) == []
    ensures !eof ==> pos < next <= |b| && Replayed(b[pos..]) == Kept(line) + Replayed(b[next..])
  {
    hide Replayed;
    var t := b[pos..];
    var i := Break(t);
    line, next, eof := t[..i], |b|, i == |t|;
    if eof {
      NoBreak(t);
    } else {
      next := pos + i + 1;
      assert t == line + "\n" + b[next..];
      ReplayStep(line, b[next..]);
    }
  }

  /** The next token of a line scanner: the text before a newline or the end, less one carriage return. */
  method Scan(b: string, pos: nat) returns (line: string, next: nat, tooLong: bool)
    requires pos < |b|
    ensures tooLong ==> Scanned(b[pos..]) == None
    ensures !tooLong ==> pos < next <= |b| && Scanned(b[pos..]) == Both(Some(Kept(line)), Scanned(b[next..]))
  {
    hide Scanned, Kept, DropReturn;
    var t := b[pos..];
    var i := Break(t);
    line, next, tooLong := DropReturn(t[..i]), |b|, i >= MAX_LINE;
    if i < |t| {
      next := pos + i + 1;
      assert t == t[..i] + "\n" + b[next..];
      ScanStep(t[..i], b[next..]);
    } else if tooLong {
      TooLongScans(t);
    } else {
      assert t[..i] == t && b[|b|..] == "";
      TornScans(t);
      NothingScans();
      assert Kept(line) + [] == Kept(line);
    }
  }

  lemma NothingScans()
    ensures Scanned("") == Some([])
  {
  }

  lemma TooLongScans(t: string)
    requires Unbroken(t) && |t| >= MAX_LINE
    ensures Scanned(t) == None
  {
    UnbrokenBreak(t);
  }

  lemma ReadGrows(b: string, all: seq<string>, lines: seq<string>, pos: nat, line: string, next: nat)
    requires ReplayedTo(b, all, lines, pos) && pos < next <= |b|
    requires Replayed(b[pos..]) == Kept(line) + Replayed(b[next..])
    ensures ReplayedTo(b, all, lines + Kept(line), next)
  {
    Regroup(lines, Kept(line), Replayed(b[next..]));
  }

  lemma ScanGrows(b: string, lines: seq<string>, pos: nat, line: string, next: nat)
    requires ScannedTo(b, lines, pos) && pos < next <= |b|
    requires Scanned(b[pos..]) == Both(Some(Kept(line)), Scanned(b[next..]))
    ensures ScannedTo(b, if line == "" then lines else lines + [line], next)
  {
    BothAssociates(Some(lines), Some(Kept(line)), Scanned(b[next..]));
    assert lines + [] == lines;
  }

  /** The turn starts among the lines, and whether the last line is a user line. */
  ghost predicate Marked(lines: seq<string>, user: string -> bool, starts: seq<nat>, prevUser: bool) {
    starts == TurnStarts(lines, user) && prevUser == (lines != [] && user(lines[|lines| - 1]))
  }

  lemma MarkedNext(lines: seq<string>, user: string -> bool, starts: seq<nat>, prevUser: bool, line: string)
    requires Marked(lines, user, starts, prevUser)
    ensures Marked(lines + [line], user, if user(line) && !prevUser then starts + [|lines|] else starts, user(line))
  {
    assert (lines + [line])[..|lines|] == lines;
  }

  lemma PageNext(lines: seq<string>, line: string, from: nat, to: nat)
    ensures Page(lines + [line], from, to) == Page(lines, from, to) + if from <= |lines| < to then [line] else []
  {
  }

  class Log {
    /** The bytes of the file, or None when there is no file. */
    var file: Option<string>

    constructor (file: Option<string>)
      ensures this.file == file
    {
      this.file := file;
    }

    function Bytes(): string
      reads this
    {
      if file.Some? then file.value else ""
    }

    method Append(line: string)
      modifies this
      ensures file == if line == "" then old(file) else Some(old(Bytes()) + (line + "\n"))
    {
      if line != "" {
        file := Some(Bytes() + (line + "\n"));
      }
    }

    method Replay() returns (lines: seq<string>)
      ensures lines == Replayed(Bytes())
    {
      var b := Bytes();
      assert b[0..] == b;
      lines := ReplayRest(b, Replayed(b), 0);
    }

    method TailBytes(maxBytes: int) returns (lines: seq<string>, truncated: bool)
      ensures lines == TailLines(Bytes(), maxBytes)
      ensures truncated <==> |Bytes()| > (if maxBytes <= 0 then 0x10_0000 else maxBytes)
    {
      hide Replayed, TailLines;
      var b := Bytes();
      var window := if maxBytes <= 0 then DEFAULT_TAIL_BYTES else maxBytes;
      var pos := if |b| > window then |b| - window else 0;
      truncated := pos > 0;
      TailStarts(b, maxBytes);
      if pos > 0 {
        pos := SkipTorn(b, pos);
      }
      lines := ReplayRest(b, TailLines(b, maxBytes), pos);
    }

    /** The start of the first line after a position that may be inside one. */
    static method SkipTorn(b: string, pos: nat) returns (next: nat)
      requires pos <= |b|
      ensures next == if pos + Break(b[pos..]) == |b| then |b| else pos + Break(b[pos..]) + 1
    {
      var i := Break(b[pos..]);
      next := if pos + i == |b| then |b| else pos + i + 1;
    }

    static method ReplayRest(b: string, ghost all: seq<string>, from: nat) returns (lines: seq<string>)
      requires from <= |b| && all == Replayed(b[from..])
      ensures lines == all
    {
      lines := [];
      var pos := from;
      while true
        invariant ReplayedTo(b, all, lines, pos)
        decreases |b| - pos
      {
        var line, next, eof := ReadString(b, pos);
        if eof {
          return;
        }
        ReadGrows(b, all, lines, pos, line, next);
        lines := lines + Kept(line);
        pos := next;
      }
    }

    method TakeSnapshot(user: string -> bool) returns (s: Snapshot)
      ensures s == match Scanned(Bytes())
                   case None => TooLong
                   case Some(lines) => Snapshot(lines, TurnStarts(lines, user))
    {
      var lines: seq<string>, turnStarts: seq<nat>, prevUser := [], [], false;
      var b, pos := Bytes(), 0;
      ScanStart(b);
      while pos < |b|
        invariant ScannedTo(b, lines, pos)
        invariant Marked(lines, user, turnStarts, prevUser)
      {
        var line, next, tooLong := Scan(b, pos);
        if tooLong {
          return TooLong;
        }
        ScanGrows(b, lines, pos, line, next);
        pos := next;
        if line != "" {
          MarkedNext(lines, user, turnStarts, prevUser, line);
          var isUser := user(line);
          if isUser && !prevUser {
            turnStarts := turnStarts + [|lines|];
          }
          prevUser := isUser;
          lines := lines + [line];
        }
      }
      ScannedToEnd(b, lines);
      return Snapshot(lines, turnStarts);
    }

    method ReplayTail(user: string -> bool, maxTurns: int) returns (w: Window)
      ensures w == match Scanned(Bytes())
                   case None => NoWindow
                   case Some(all) => Window(all[Cut(all, user, maxTurns)..], Cut(all, user, maxTurns), |all|)
    {
      hide Scanned, TurnStarts;
      var s := TakeSnapshot(user);
      if s.TooLong? {
        return NoWindow;
      }
      var cut := 0;
      if maxTurns > 0 && |s.turnStarts| > maxTurns {
        StartsOfPrefix(s.lines, user, |s.turnStarts| - maxTurns);
        cut := s.turnStarts[|s.turnStarts| - maxTurns];
      }
      return Window(s.lines[cut..], cut, |s.lines|);
    }

    /** Counts every line and keeps those of one page. */
    method ReadRange(start: int, end: int) returns (r: Range)
      ensures r == match Scanned(Bytes())
                   case None => NoRange
                   case Some(all) => Range(Page(all, start, end), |all|)
    {
      var from := if start < 0 then 0 else start;
      var to := if end < from then from else end;
      var out: seq<string>, i := [], 0;
      ghost var seen: seq<string> := [];
      var b, pos := Bytes(), 0;
      ScanStart(b);
      while pos < |b|
        invariant ScannedTo(b, seen, pos)
        invariant i == |seen| && out == Page(seen, from, to)
      {
        var line, next, tooLong := Scan(b, pos);
        if tooLong {
          return NoRange;
        }
        ScanGrows(b, seen, pos, line, next);
        PageNext(seen, line, from, to);
        pos := next;
        if line != "" {
          seen := seen + [line];
          if from <= i < to {
            out := out + [line];
          }
          i := i + 1;
        }
      }
      ScannedToEnd(b, seen);
      assert Page(seen, start, end) == Page(seen, from, to);
      if from >= i || from >= to {
        return Range([], i);
      }
      return Range(out, i);
    }

    /** The file is replaced only when every turn to remove is there. */
    method TruncateTurns(user: string -> bool, n: int) returns (r: Rewind)
      modifies this
      ensures r == Rewound(old(file), user, n)
      ensures file == if r.Done? then Some(r.file) else old(file)
    {
      if n < 1 {
        return NotPositive;
      }
      if file.None? {
        return Missing;
      }
      var s := TakeSnapshot(user);
      if s.TooLong? {
        return Unscannable;
      }
      if n > |s.turnStarts| {
        return TooFewTurns(|s.turnStarts|);
      }
      StartsOfPrefix(s.lines, user, |s.turnStarts| - n);
      var cut := s.turnStarts[|s.turnStarts| - n];
      var text := WriteLines(s.lines[..cut]);
      file := Some(text);
      return Done(text);
    }

    static method WriteLines(lines: seq<string>) returns (text: string)
      ensures text == Written(lines)
    {
      text := "";
      assert lines[0..] == lines;
      for i := 0 to |lines|
        invariant Written(lines) == text + Written(lines[i..])
      {
        assert lines[i..][1..] == lines[i + 1..];
        WrittenStep(text, lines[i], Written(lines[i + 1..]));
        text := text + lines[i] + "\n";
      }
      assert lines[|lines|..] == [];
    }

    static lemma WrittenStep(text: string, line: string, rest: string)
      ensures text + (line + "\n" + rest) == (text + line + "\n") + rest
    {
    }
  }
}
