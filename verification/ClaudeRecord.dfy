/**
 One record of a Claude Code transcript, reduced to the fields the adapter tests, and the
 classification predicates over it.

 Two things are taken as given: `Parser`, which turns a line into a record or rejects it, and
 `Notes`, the tests on text by which the adapter tells runtime notes from human words. What is
 proved about the adapter holds for any such tests; module ClaudeText states Claude Code's own.
 */
module ClaudeRecord {
  import opened Wrappers
  import opened Lines

  type Parser = Bytes -> Option<Record>

  datatype Notes = Notes(
    injected: string -> bool,        // the text is a runtime injection
    interruption: string -> bool,    // the text opens with the note an interruption leaves
    pastedImage: string -> bool,     // the text opens with the note of a pasted image
    wordsAfterInjection: Content -> bool) // human words follow injections in one record

  datatype Subtype = CompactBoundary(manual: bool) | TurnDuration | OtherSubtype

  /** `queued` is the text of a queue record absorbed mid turn, before the injection test. */
  datatype Kind = Assistant | User | System(subtype: Subtype) | Queue(queued: Option<string>) | OtherKind

  datatype StopReason = NoReason | Refusal | Final | OtherReason

  /** The body of a tool result: absent, a string, or the text blocks inside an array. */
  datatype Output = NoOutput | OneOutput(text: string) | OutputBlocks(texts: seq<string>)

  datatype Block =
    | TextBlock(text: Option<string>)
    | ThinkingBlock
    | ToolUseBlock(id: Option<string>, name: Option<string>, paths: seq<string>)
    | ToolResultBlock(callId: Option<string>, isError: bool, output: Output)
    | OtherBlock

  datatype Content = NoContent | Plain(text: string) | Blocks(blocks: seq<Block>)

  datatype Record = Record(
    kind: Kind,
    content: Content,
    isSidechain: bool,
    isMeta: bool,
    isCompactSummary: bool,
    promptFromSystem: bool,
    pluginAsUser: bool,
    syntheticModel: bool,
    apiError: bool,
    stopReason: StopReason,
    interruptedDenial: bool)

  predicate IsSpace(c: char) {
    || '\t' <= c <= '\r' || c == ' ' || c == '\U{85}' || c == '\U{A0}' || c == '\U{1680}'
    || '\U{2000}' <= c <= '\U{200A}' || c == '\U{2028}' || c == '\U{2029}' || c == '\U{202F}'
    || c == '\U{205F}' || c == '\U{3000}'
  }

  function TrimStart(s: string): string {
    if s != [] && IsSpace(s[0]) then TrimStart(s[1..]) else s
  }

  predicate Blank(s: string) {
    TrimStart(s) == []
  }

  function Join(parts: seq<string>): string {
    if parts == [] then []
    else if |parts| == 1 then parts[0]
    else parts[0] + "\n" + Join(parts[1..])
  }

  /** The strings of the text blocks of a message, in order. */
  function Texts(blocks: seq<Block>): seq<string> {
    if blocks == [] then []
    else (match blocks[0]
          case TextBlock(Some(text)) => [text]
          case _ => []) + Texts(blocks[1..])
  }

  function ExtractText(content: Content): Option<string> {
    match content
    case NoContent => None
    case Plain(text) => if Blank(text) then None else Some(text)
    case Blocks(blocks) =>
      var parts := Texts(blocks);
      if parts == [] then None else Some(Join(parts))
  }

  predicate HasToolResult(content: Content) {
    content.Blocks? && exists block | block in content.blocks :: block.ToolResultBlock?
  }

  predicate HasSystemSource(record: Record) {
    record.promptFromSystem && !(record.kind.User? && record.pluginAsUser)
  }

  predicate SystemGenerated(record: Record, text: string, notes: Notes) {
    (record.isMeta && !notes.pastedImage(text)) || HasSystemSource(record)
  }

  /** Thinking and calls alone: a reply may still follow. */
  predicate OpensMessage(content: Content) {
    content.Blocks? && content.blocks != []
    && forall block | block in content.blocks :: block.ThinkingBlock? || block.ToolUseBlock?
  }
}
