/**
 Where executions end in a Claude Code transcript: the scan that decides which prefixes may be
 settled or published, and the call tracking that holds it back.

 `Step` is the meaning of one line; the methods are the source's loops, proved against it.
 */
module ClaudeCloses {
  import opened Wrappers
  import opened Lines
  import opened ClaudeRecord
  import opened Sequences

  datatype TurnClose = Reply | Interrupt

  datatype Close = Close(end: nat, kind: TurnClose)

  datatype Reader = Reader(parse: Parser, notes: Notes)

  datatype State = State(
    offset: nat,
    pending: Option<Close>,
    interrupted: bool,
    closes: seq<Close>,
    open: set<string>,
    manualCompaction: bool)

  const START := State(0, None, false, [], {}, false)

  /** A user record that is not tool output, with its text. */
  function UserText(record: Record): Option<string> {
    if record.kind.User? && !HasToolResult(record.content)
    then Some(ExtractText(record.content).GetOr("")) else None
  }

  predicate Prompts(record: Record, notes: Notes) {
    UserText(record).Some? && !SystemGenerated(record, UserText(record).value, notes)
  }

  predicate Marker(record: Record, notes: Notes) {
    UserText(record).Some? && notes.interruption(UserText(record).value)
  }

  predicate InterruptedTool(record: Record) {
    record.kind.User? && record.interruptedDenial && record.content.Blocks?
    && exists block | block in record.content.blocks :: block.ToolResultBlock? && block.isError
  }

  predicate Stops(record: Record, notes: Notes) {
    InterruptedTool(record) || Marker(record, notes)
  }

  predicate Generated(record: Record) {
    record.kind.Assistant? && (record.syntheticModel || record.apiError)
  }

  predicate TerminalReply(record: Record) {
    record.kind.Assistant? && !Generated(record)
    && (match record.stopReason
        case Refusal => true
        case Final => !OpensMessage(record.content)
        case _ => false)
  }

  predicate Lasts(record: Record) {
    record.kind == System(TurnDuration)
  }

  /** The effect of one block on the calls without output. */
  function BlockEffect(block: Block, open: set<string>): set<string> {
    match block
    case ToolUseBlock(Some(id), _, _) => open + {id}
    case ToolResultBlock(Some(id), _, _) => open - {id}
    case _ => open
  }

  function BlocksEffect(blocks: seq<Block>, open: set<string>): set<string> {
    if blocks == [] then open
    else BlockEffect(blocks[|blocks| - 1], BlocksEffect(blocks[..|blocks| - 1], open))
  }

  predicate HumanWords(record: Record, notes: Notes) {
    var text := ExtractText(record.content).GetOr("");
    text != "" && !SystemGenerated(record, text, notes)
    && (!notes.injected(text) || notes.wordsAfterInjection(record.content))
  }

  function Tracked(record: Record, open: set<string>, notes: Notes): set<string> {
    if !(record.kind.Assistant? || record.kind.User?) || record.isCompactSummary || HasSystemSource(record) then
      open
    else if record.kind.User? && !HasToolResult(record.content) then
      if HumanWords(record, notes) then {} else open
    else if record.content.Blocks? then BlocksEffect(record.content.blocks, open)
    else open
  }

  method TrackOpenCalls(record: Record, open: set<string>, notes: Notes) returns (now: set<string>)
    ensures now == Tracked(record, open, notes)
  {
    now := open;
    if !(record.kind.Assistant? || record.kind.User?) || record.isCompactSummary || HasSystemSource(record) {
      return;
    }
    if record.kind.User? && !HasToolResult(record.content) {
      if HumanWords(record, notes) {
        now := {};
      }
      return;
    }
    if record.content.Blocks? {
      var blocks := record.content.blocks;
      for i := 0 to |blocks|
        invariant now == BlocksEffect(blocks[..i], open)
      {
        match blocks[i] {
          case ToolUseBlock(Some(id), _, _) => now := now + {id};
          case ToolResultBlock(Some(id), _, _) => now := now - {id};
          case _ =>
        }
        assert blocks[..i + 1][..i] == blocks[..i];
      }
      assert blocks[..|blocks|] == blocks;
    }
  }

  /** A prompt fixes the provisional boundary and starts the next execution. */
  function Fix(state: State): State {
    state.(pending := None, interrupted := false, closes := Finish(state))
  }

  /** How a record read with no call open can end an execution, first match first. */
  datatype Ending = ByDuration | ByReply | ByStop | ByGiveUp | Nothing

  function EndingOf(record: Record, compacted: bool, includeEnded: bool, notes: Notes): Ending {
    if Lasts(record) then ByDuration
    else if TerminalReply(record) then ByReply
    else if Stops(record, notes) then ByStop
    else if includeEnded && (Generated(record) || compacted) then ByGiveUp
    else Nothing
  }

  function Settle(state: State, ending: Ending): State {
    var kind := if state.interrupted then Interrupt else Reply;
    match ending
    case ByDuration => state.(closes := state.closes + [Close(state.offset, kind)], pending := None)
    case ByReply => state.(pending := Some(Close(state.offset, Reply)), interrupted := false)
    case ByStop => state.(pending := Some(Close(state.offset, Interrupt)), interrupted := true)
    case ByGiveUp => state.(pending := Some(Close(state.offset, kind)))
    case Nothing => state
  }

  predicate ManualBoundary(record: Record) {
    record.kind.System? && record.kind.subtype.CompactBoundary? && record.kind.subtype.manual
  }

  /** The calls still open after a record, a stop abandoning them all. */
  function OpenAfter(record: Record, open: set<string>, notes: Notes): set<string> {
    if Stops(record, notes) then {} else Tracked(record, open, notes)
  }

  /** The state a conversation record leaves before it may end anything. */
  function Advance(state: State, record: Record, offset: nat, notes: Notes): State {
    (if Prompts(record, notes) then Fix(state) else state)
    .(offset := offset,
      open := OpenAfter(record, state.open, notes),
      manualCompaction := ManualBoundary(record))
  }

  /** What a conversation record ends; nothing while a call is open. */
  function Ends(state: State, record: Record, includeEnded: bool, notes: Notes): Ending {
    if OpenAfter(record, state.open, notes) != {} then Nothing
    else EndingOf(record, state.manualCompaction && record.isCompactSummary, includeEnded, notes)
  }

  predicate Conversation(parsed: Option<Record>) {
    parsed.Some? && !parsed.value.isSidechain && !parsed.value.isMeta
  }

  function Step(state: State, line: Bytes, includeEnded: bool, rd: Reader): State {
    var offset := state.offset + |line|;
    var parsed := rd.parse(line);
    if Conversation(parsed) then
      Settle(Advance(state, parsed.value, offset, rd.notes), Ends(state, parsed.value, includeEnded, rd.notes))
    else state.(offset := offset)
  }

  lemma StepOf(state: State, line: Bytes, includeEnded: bool, rd: Reader)
    ensures Conversation(rd.parse(line)) ==>
              Step(state, line, includeEnded, rd)
              == Settle(Advance(state, rd.parse(line).value, state.offset + |line|, rd.notes),
                        Ends(state, rd.parse(line).value, includeEnded, rd.notes))
    ensures !Conversation(rd.parse(line))
        ==> Step(state, line, includeEnded, rd) == state.(offset := state.offset + |line|)
  {
  }

  function Run(lines: seq<Bytes>, includeEnded: bool, rd: Reader): State {
    if lines == [] then START
    else Step(Run(lines[..|lines| - 1], includeEnded, rd), lines[|lines| - 1], includeEnded, rd)
  }

  function Finish(state: State): seq<Close> {
    state.closes + if state.pending.Some? then [state.pending.value] else []
  }

  /** The scan of a whole text. */
  function Scan(text: Bytes, includeEnded: bool, rd: Reader): State {
    Run(SplitInclusive(text), includeEnded, rd)
  }

  function Closes(text: Bytes, includeEnded: bool, rd: Reader): seq<Close> {
    Finish(Scan(text, includeEnded, rd))
  }

  lemma RunMore(lines: seq<Bytes>, i: nat, includeEnded: bool, rd: Reader)
    requires i < |lines|
    ensures Run(lines[..i + 1], includeEnded, rd) == Step(Run(lines[..i], includeEnded, rd), lines[i], includeEnded, rd)
  {
    TakeMore(lines, i);
  }

  /** One more line, and what it does. */
  lemma RunOn(lines: seq<Bytes>, i: nat, includeEnded: bool, rd: Reader)
    requires i < |lines|
    ensures Run(lines[..i + 1], includeEnded, rd) == Step(Run(lines[..i], includeEnded, rd), lines[i], includeEnded, rd)
    ensures var state, parsed := Run(lines[..i], includeEnded, rd), rd.parse(lines[i]);
            var offset := state.offset + |lines[i]|;
            Step(state, lines[i], includeEnded, rd)
            == if Conversation(parsed)
               then Settle(Advance(state, parsed.value, offset, rd.notes),
                           Ends(state, parsed.value, includeEnded, rd.notes))
               else state.(offset := offset)
  {
    RunMore(lines, i, includeEnded, rd);
    StepOf(Run(lines[..i], includeEnded, rd), lines[i], includeEnded, rd);
  }

  /** What a record read with no call open ends. */
  method EndExecution(record: Record, offset: nat, pending: Option<Close>, interrupted: bool, closes: seq<Close>,
                      compacted: bool, includeEnded: bool, notes: Notes, ghost manual: bool)
    returns (pending': Option<Close>, interrupted': bool, closes': seq<Close>)
    ensures State(offset, pending', interrupted', closes', {}, manual)
         == Settle(State(offset, pending, interrupted, closes, {}, manual),
                   EndingOf(record, compacted, includeEnded, notes))
  {
    pending', interrupted', closes' := pending, interrupted, closes;
    if record.kind == System(TurnDuration) {
      closes' := closes + [Close(offset, if interrupted then Interrupt else Reply)];
      pending' := None;
    } else if TerminalReply(record) {
      pending' := Some(Close(offset, Reply));
      interrupted' := false;
    } else if Stops(record, notes) {
      pending' := Some(Close(offset, Interrupt));
      interrupted' := true;
    } else if includeEnded && (Generated(record) || compacted) {
      pending' := Some(Close(offset, if interrupted then Interrupt else Reply));
    }
  }

  /** One iteration of the scan's loop on a conversation record. */
  method ReadRecord(record: Record, offset: nat, pending: Option<Close>, interrupted: bool, closes: seq<Close>,
                    open: set<string>, manualCompaction: bool, includeEnded: bool, notes: Notes)
    returns (pending': Option<Close>, interrupted': bool, closes': seq<Close>, open': set<string>, manual': bool)
    ensures var before := State(offset, pending, interrupted, closes, open, manualCompaction);
            State(offset, pending', interrupted', closes', open', manual')
            == Settle(Advance(before, record, offset, notes), Ends(before, record, includeEnded, notes))
  {
    ghost var before := State(offset, pending, interrupted, closes, open, manualCompaction);
    pending', interrupted', closes' := pending, interrupted, closes;
    var userText := UserText(record);
    if userText.Some? && !SystemGenerated(record, userText.value, notes) {
      if pending.Some? {
        closes' := closes + [pending.value];
        pending' := None;
      }
      interrupted' := false;
    }
    open' := TrackOpenCalls(record, open, notes);
    var compacted := manualCompaction && record.isCompactSummary;
    manual' := false;
    if record.kind.System? && record.kind.subtype.CompactBoundary? {
      manual' := record.kind.subtype.manual;
    }
    if InterruptedTool(record) || (userText.Some? && notes.interruption(userText.value)) {
      open' := {};
    }
    assert State(offset, pending', interrupted', closes', open', manual') == Advance(before, record, offset, notes);
    if open' == {} {
      pending', interrupted', closes' :=
        EndExecution(record, offset, pending', interrupted', closes', compacted, includeEnded, notes, manual');
    }
  }

  /** Where the text stood before a record does not bear on what the record does. */
  lemma ReadAlike(state: State, record: Record, offset: nat, includeEnded: bool, notes: Notes)
    ensures Advance(state.(offset := offset), record, offset, notes) == Advance(state, record, offset, notes)
    ensures Ends(state.(offset := offset), record, includeEnded, notes) == Ends(state, record, includeEnded, notes)
  {
  }

  method ExecutionCloses(text: Bytes, includeEnded: bool, rd: Reader) returns (closes: seq<Close>)
    ensures closes == Closes(text, includeEnded, rd)
  {
    var offset: nat, pending: Option<Close>, interrupted := 0, None, false;
    closes := [];
    var open: set<string>, manualCompaction := {}, false;
    var lines := SplitInclusive(text);
    ghost var state := START;
    for i := 0 to |lines|
      invariant state == Run(lines[..i], includeEnded, rd)
      invariant State(offset, pending, interrupted, closes, open, manualCompaction) == state
    {
      ghost var before := state;
      RunOn(lines, i, includeEnded, rd);
      state := Step(before, lines[i], includeEnded, rd);
      offset := offset + |lines[i]|;
      var parsed := rd.parse(lines[i]);
      if parsed.None? || parsed.value.isSidechain || parsed.value.isMeta {
        continue;
      }
      ReadAlike(before, parsed.value, offset, includeEnded, rd.notes);
      pending, interrupted, closes, open, manualCompaction :=
        ReadRecord(parsed.value, offset, pending, interrupted, closes, open, manualCompaction, includeEnded, rd.notes);
    }
    assert lines[..|lines|] == lines;
    if pending.Some? {
      closes := closes + [pending.value];
    }
  }
}
