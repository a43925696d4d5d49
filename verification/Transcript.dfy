/**
 Journal lines and the text of one assistant response.

 A journal line is kept as the decoder of the coalescer sees it: a line it cannot decode, a settle
 line, a tool result, an assistant fragment, or anything else. The first four kinds of line that are
 not fragments carry their raw text and are passed through untouched.
 */
module Transcript {

  /** One content block of an assistant message. `Foreign` is a block with no usable text field. */
  datatype Block = Foreign | NonText | Text(text: string)

  datatype Content = Absent | Plain(text: string) | Blocks(blocks: seq<Block>)

  datatype Line =
    | Broken(raw: string)
    | Settle(raw: string)
    | ToolResult(raw: string)
    | Other(raw: string)
    | Fragment(id: string, ts: string, stop: string, content: Content)

  /** Lines that seal every open response. */
  predicate Seals(l: Line) {
    l.Broken? || l.Settle?
  }

  predicate Terminal(stop: string) {
    stop == "end_turn" || stop == "stop_sequence" || stop == "max_tokens"
  }

  /** Text gathered so far, and whether the next text starts a new segment. */
  datatype Acc = Acc(text: string, edge: bool)

  const EMPTY_ACC := Acc("", false)

  predicate IsBreak(c: char) {
    c == '\n' || c == '\r'
  }

  /** A line break already separates the two texts. */
  predicate BreakBetween(prev: string, next: string)
    requires prev != "" && next != ""
  {
    IsBreak(prev[|prev| - 1]) || IsBreak(next[0])
  }

  function JoinSegments(prev: string, next: string): string {
    if prev == "" then next
    else if next == "" then prev
    else if BreakBetween(prev, next) then prev + next
    else prev + "\n\n" + next
  }

  function AppendSegment(acc: Acc, text: string): Acc {
    if text == "" then acc
    else if acc.text == "" then Acc(text, false)
    else if acc.edge then Acc(JoinSegments(acc.text, text), false)
    else Acc(acc.text + text, acc.edge)
  }

  function MarkEdge(acc: Acc): Acc {
    if acc.text != "" then Acc(acc.text, true) else acc
  }

  /** One block, when `parts` text blocks of the same message have already been written. */
  function BlockApplied(acc: Acc, parts: nat, block: Block): Acc {
    match block
    case Foreign => acc
    case NonText => MarkEdge(acc)
    case Text(s) => if s == "" then acc else AppendSegment(Acc(acc.text, acc.edge || parts > 0), s)
  }

  function PartsAfter(parts: nat, block: Block): nat {
    if block.Text? && block.text != "" then parts + 1 else parts
  }

  function BlocksApplied(acc: Acc, parts: nat, blocks: seq<Block>): (Acc, nat)
    decreases |blocks|
  {
    if blocks == [] then (acc, parts)
    else BlocksApplied(BlockApplied(acc, parts, blocks[0]), PartsAfter(parts, blocks[0]), blocks[1..])
  }

  function ContentApplied(acc: Acc, content: Content): (Acc, bool) {
    match content
    case Absent => (acc, false)
    case Plain(s) => if s == "" then (acc, false) else (AppendSegment(acc, s), true)
    case Blocks(blocks) => var (a, parts) := BlocksApplied(acc, 0, blocks); (a, parts > 0)
  }

  /** Walks the content of one message in order, updating the accumulated text and the edge flag. */
  method ApplyAssistantContent(acc: Acc, content: Content) returns (after: Acc, wrote: bool)
    ensures (after, wrote) == ContentApplied(acc, content)
  {
    after, wrote := acc, false;
    match content {
      case Absent =>
      case Plain(s) =>
        if s != "" {
          after := AppendSegment(after, s);
          wrote := true;
        }
      case Blocks(blocks) =>
        var textParts: nat := 0;
        for k := 0 to |blocks|
          invariant BlocksApplied(after, textParts, blocks[k..]) == BlocksApplied(acc, 0, blocks)
          invariant wrote <==> textParts > 0
        {
          assert blocks[k..][1..] == blocks[k + 1..];
          match blocks[k] {
            case Foreign =>
            case NonText =>
              if after.text != "" {
                after := Acc(after.text, true);
              }
            case Text(s) =>
              if s != "" {
                if textParts > 0 {
                  after := Acc(after.text, true);
                }
                after := AppendSegment(after, s);
                textParts := textParts + 1;
                wrote := true;
              }
          }
        }
    }
  }

  /** One assistant response: its wire id ("" when unlabelled), text, timestamp and stop reason. */
  datatype Frame = Frame(id: string, acc: Acc, ts: string, stop: string)

  function NewFrame(id: string): Frame {
    Frame(id, EMPTY_ACC, "", "")
  }

  predicate Open(f: Frame) {
    f.stop == ""
  }

  function Absorbed(f: Frame, l: Line): Frame
    requires l.Fragment?
  {
    var (acc, wrote) := ContentApplied(f.acc, l.content);
    Frame(f.id, acc, if wrote && l.ts != "" then l.ts else f.ts, if Terminal(l.stop) then l.stop else f.stop)
  }

  function Marked(f: Frame): Frame {
    if Open(f) then f.(acc := MarkEdge(f.acc)) else f
  }

  function Sealed(f: Frame): Frame {
    if Open(f) then f.(stop := "end_turn") else f
  }

  /** The emitted frame: the body is dropped when it is empty or filtered out of the view. */
  function Rendered(filtered: string -> bool, f: Frame): Line {
    Fragment(f.id, f.ts, Sealed(f).stop,
             Blocks(if filtered(f.acc.text) || f.acc.text == "" then [] else [Text(f.acc.text)]))
  }
}
