/**
 The conversation events both runtimes share, as read out of a Claude Code transcript.

 A transcript is a sequence of lines, each read as an entry or, when blank or corrupt, as nothing;
 how an entry is written as JSON is a given.
 */
module ClaudeSession {
  import opened Wrappers
  import opened ClaudeRecord

  datatype EventKind =
    | UserPrompt
    | UserInterjection
    | AssistantReply
    | ToolUse
    | FileEdit
    | CompactFiltered
    | CompactSummary
    | TurnEnd
    | ToolResult
    | Unmodelled

  datatype Event = Event(
    kind: EventKind,
    text: Option<string>,
    timestamp: Option<string>,
    paths: seq<string>,
    tool: Option<string>,
    line: Option<nat>)

  datatype Session = Session(id: string, cwd: Option<string>, events: seq<Event>)

  /** A record with the fields of its line that do not bear on what kind of event it is. */
  datatype Entry = Entry(
    record: Record,
    sessionId: Option<string>,
    cwd: Option<string>,
    timestamp: Option<string>,
    uuid: Option<string>,
    parentUuid: Option<string>)

  /** The tests on text, and the split of human words from injections ahead of them. */
  datatype Reading = Reading(notes: Notes, split: Content -> Option<(string, string)>)

  function TextEvent(kind: EventKind, text: string, entry: Entry, line: nat): Event {
    Event(kind, Some(text), entry.timestamp, [], None, Some(line))
  }

  function OtherEvent(entry: Entry, line: nat): Event {
    Event(Unmodelled, None, entry.timestamp, [], None, Some(line))
  }

  function Internal(entry: Entry, line: nat): Event {
    var text := ExtractText(entry.record.content);
    if text.Some? then TextEvent(Unmodelled, text.value, entry, line) else OtherEvent(entry, line)
  }

  function WithText(texts: seq<string>): seq<string> {
    if texts == [] then []
    else (if Blank(texts[0]) then [] else [texts[0]]) + WithText(texts[1..])
  }

  function OutputText(output: Output): Option<string> {
    match output
    case NoOutput => None
    case OneOutput(text) => if Blank(text) then None else Some(text)
    case OutputBlocks(texts) => if WithText(texts) == [] then None else Some(Join(WithText(texts)))
  }

  function ResultEvent(block: Block, entry: Entry, line: nat): seq<Event> {
    if block.ToolResultBlock? && OutputText(block.output).Some?
    then [TextEvent(ToolResult, OutputText(block.output).value, entry, line)] else []
  }

  function AssistantEvent(block: Block, entry: Entry, line: nat): seq<Event> {
    match block
    case TextBlock(text) =>
      if text.None? || Blank(text.value) then []
      else [TextEvent(if entry.record.isCompactSummary then CompactSummary else AssistantReply, text.value, entry,
                      line)]
    case ToolUseBlock(_, name, paths) =>
      var called := name.GetOr("tool");
      [Event(if paths == [] then ToolUse else FileEdit, Some(called), entry.timestamp, paths, Some(called), Some(line))]
    case _ => [OtherEvent(entry, line)]
  }

  /** The events of blocks taken one by one. */
  function BlockEvents(blocks: seq<Block>, entry: Entry, line: nat, of: (Block, Entry, nat) -> seq<Event>): seq<Event> {
    if blocks == [] then []
    else BlockEvents(blocks[..|blocks| - 1], entry, line, of) + of(blocks[|blocks| - 1], entry, line)
  }

  function UserEvents(entry: Entry, line: nat, rd: Reading): seq<Event> {
    var record := entry.record;
    var text := ExtractText(record.content);
    if SystemGenerated(record, text.GetOr(""), rd.notes) then [Internal(entry, line)]
    else if HasToolResult(record.content) then BlockEvents(record.content.blocks, entry, line, ResultEvent)
    else if text.None? then []
    else if !record.isCompactSummary && rd.split(record.content).Some? then
      var (injected, human) := rd.split(record.content).value;
      [TextEvent(UserPrompt, human, entry, line), TextEvent(Unmodelled, injected, entry, line)]
    else
      [TextEvent(if record.isCompactSummary then CompactSummary
                 else if rd.notes.injected(text.value) then Unmodelled
                 else UserPrompt, text.value, entry, line)]
  }

  function AssistantEvents(entry: Entry, line: nat): seq<Event> {
    var record := entry.record;
    if record.isMeta || HasSystemSource(record) then [Internal(entry, line)]
    else
      match record.content
      case Blocks(blocks) => BlockEvents(blocks, entry, line, AssistantEvent)
      case Plain(text) => if Blank(text) then [] else [TextEvent(AssistantReply, text, entry, line)]
      case NoContent => []
  }

  function EntryEvents(entry: Entry, line: nat, rd: Reading): seq<Event> {
    match entry.record.kind
    case User => UserEvents(entry, line, rd)
    case Assistant => AssistantEvents(entry, line)
    case Queue(Some(text)) =>
      if Blank(text) || rd.notes.injected(text) then [OtherEvent(entry, line)]
      else [TextEvent(UserInterjection, text, entry, line)]
    case _ => [OtherEvent(entry, line)]
  }

  function ReadOne(session: Session, entry: Entry, line: nat, rd: Reading): Session {
    Session(
      if session.id == "" then entry.sessionId.GetOr("") else session.id,
      if session.cwd.None? && entry.cwd != Some("") then entry.cwd else session.cwd,
      session.events + EntryEvents(entry, line, rd))
  }

  function ParseOf(lines: seq<Option<Entry>>, rd: Reading): Session {
    if lines == [] then Session("", None, [])
    else
      var n := |lines| - 1;
      var session := ParseOf(lines[..n], rd);
      if lines[n].None? then session else ReadOne(session, lines[n].value, n, rd)
  }

  method CollectBlocks(blocks: seq<Block>, entry: Entry, line: nat, of: (Block, Entry, nat) -> seq<Event>)
    returns (events: seq<Event>)
    ensures events == BlockEvents(blocks, entry, line, of)
  {
    events := [];
    for i := 0 to |blocks|
      invariant events == BlockEvents(blocks[..i], entry, line, of)
    {
      assert blocks[..i + 1][..i] == blocks[..i];
      events := events + of(blocks[i], entry, line);
    }
    assert blocks[..|blocks|] == blocks;
  }

  method ReadUser(entry: Entry, line: nat, rd: Reading) returns (events: seq<Event>)
    ensures events == UserEvents(entry, line, rd)
  {
    var record := entry.record;
    var text := ExtractText(record.content);
    if SystemGenerated(record, text.GetOr(""), rd.notes) {
      return [Internal(entry, line)];
    }
    if HasToolResult(record.content) {
      events := CollectBlocks(record.content.blocks, entry, line, ResultEvent);
      return;
    }
    events := [];
    if text.Some? {
      if !record.isCompactSummary {
        var split := rd.split(record.content);
        if split.Some? {
          return [TextEvent(UserPrompt, split.value.1, entry, line), TextEvent(Unmodelled, split.value.0, entry, line)];
        }
      }
      var kind := if record.isCompactSummary then CompactSummary
                  else if rd.notes.injected(text.value) then Unmodelled else UserPrompt;
      events := [TextEvent(kind, text.value, entry, line)];
    }
  }

  method Parse(lines: seq<Option<Entry>>, rd: Reading) returns (session: Session)
    ensures session == ParseOf(lines, rd)
  {
    var id: string, cwd: Option<string>, events: seq<Event> := "", None, [];
    for lineno := 0 to |lines|
      invariant Session(id, cwd, events) == ParseOf(lines[..lineno], rd)
    {
      assert lines[..lineno + 1][..lineno] == lines[..lineno];
      if lines[lineno].None? {
        continue;
      }
      var entry := lines[lineno].value;
      if id == "" && entry.sessionId.Some? {
        id := entry.sessionId.value;
      }
      if cwd.None? && entry.cwd.Some? && entry.cwd.value != "" {
        cwd := entry.cwd;
      }
      var read;
      if entry.record.kind.User? {
        read := ReadUser(entry, lineno, rd);
      } else if entry.record.kind.Assistant? && !entry.record.isMeta && !HasSystemSource(entry.record)
                && entry.record.content.Blocks? {
        read := CollectBlocks(entry.record.content.blocks, entry, lineno, AssistantEvent);
      } else {
        read := EntryEvents(entry, lineno, rd);
      }
      events := events + read;
    }
    assert lines[..|lines|] == lines;
    session := Session(id, cwd, events);
  }
}
