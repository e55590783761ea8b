/** How counting given-up executions as ended relates to the strict scan, and how call tracking
    relates to the calls a transcript reports open. */
module ClaudeEnded {
  import opened Lines
  import opened ClaudeRecord
  import opened ClaudeCloses
  import opened ClaudeClosesProofs
  import opened Sequences

  // ---- Strict and inclusive scans --------------------------------------------------------

  /** `at` sends each strict close to an inclusive one: in order, same kind, never earlier. */
  ghost predicate Embeds(strict: seq<Close>, inclusive: seq<Close>, at: seq<nat>) {
    && |at| == |strict|
    && (forall k | 0 <= k < |at| :: at[k] < |inclusive|)
    && (forall k, l | 0 <= k < l < |at| :: at[k] < at[l])
    && (forall k | 0 <= k < |at| :: inclusive[at[k]].kind == strict[k].kind && strict[k].end <= inclusive[at[k]].end)
  }

  /** The images of the first `n` strict closes end by `limit`. */
  ghost predicate Within(n: nat, inclusive: seq<Close>, at: seq<nat>, limit: nat) {
    n <= |at| && forall k | 0 <= k < n :: at[k] < |inclusive| && inclusive[at[k]].end <= limit
  }

  ghost predicate Simulates(strict: State, inclusive: State, at: seq<nat>) {
    && strict.offset == inclusive.offset && strict.open == inclusive.open
    && strict.interrupted == inclusive.interrupted && strict.manualCompaction == inclusive.manualCompaction
    && Embeds(strict.closes, inclusive.closes, at)
    && (strict.pending.Some? ==>
          && inclusive.pending.Some?
          && inclusive.pending.value.kind == strict.pending.value.kind
          && strict.pending.value.end <= inclusive.pending.value.end)
  }

  /** Where the strict scan's fixed closes sit among the inclusive scan's fixed closes. */
  function Places(lines: seq<Bytes>, rd: Reader): seq<nat> {
    if lines == [] then []
    else
      var front := lines[..|lines| - 1];
      Placed(Run(front, false, rd), Run(lines, false, rd), Run(lines, true, rd), Places(front, rd))
  }

  function Placed(before: State, strict: State, inclusive: State, at: seq<nat>): seq<nat> {
    if |strict.closes| > |before.closes| && inclusive.closes != [] then at + [|inclusive.closes| - 1] else at
  }

  function Embedding(lines: seq<Bytes>, rd: Reader): seq<nat> {
    Places(lines, rd) + if Run(lines, false, rd).pending.Some? then [|Run(lines, true, rd).closes|] else []
  }

  lemma SettleSimulates(strict: State, inclusive: State, at: seq<nat>, limit: nat, ending: Ending, giveUp: bool)
    requires Simulates(strict, inclusive, at) && Sound(strict, limit) && limit < strict.offset
    requires ending != ByGiveUp && (giveUp ==> ending == Nothing)
    ensures var s, i := Settle(strict, ending), Settle(inclusive, if giveUp then ByGiveUp else ending);
            Simulates(s, i, Placed(strict, s, i, at))
  {
    if strict.pending.Some? {
      assert strict.pending.value == Finish(strict)[|strict.closes|];
    }
  }

  lemma EmbedsMore(strict: seq<Close>, inclusive: seq<Close>, at: seq<nat>, s: Close, i: Close)
    requires Embeds(strict, inclusive, at) && i.kind == s.kind && s.end <= i.end
    ensures Embeds(strict + [s], inclusive + [i], at + [|inclusive|])
  {
  }

  lemma EmbedsLonger(strict: seq<Close>, inclusive: seq<Close>, at: seq<nat>, more: seq<Close>)
    requires Embeds(strict, inclusive, at)
    ensures Embeds(strict, inclusive + more, at)
  {
  }

  /** A prompt fixes what both readings hold. */
  lemma FixSimulates(strict: State, inclusive: State, at: seq<nat>)
    requires Simulates(strict, inclusive, at)
    ensures Simulates(Fix(strict), Fix(inclusive), Placed(strict, Fix(strict), Fix(inclusive), at))
  {
    if strict.pending.Some? {
      EmbedsMore(strict.closes, inclusive.closes, at, strict.pending.value, inclusive.pending.value);
    } else {
      NothingMore(strict.closes);
      EmbedsLonger(strict.closes, inclusive.closes, at, Finish(inclusive)[|inclusive.closes|..]);
      assert Finish(inclusive) == inclusive.closes + Finish(inclusive)[|inclusive.closes|..];
    }
  }

  lemma AdvanceSimulates(strict: State, inclusive: State, at: seq<nat>, record: Record, offset: nat, notes: Notes)
    requires Simulates(strict, inclusive, at)
    ensures var s, i := Advance(strict, record, offset, notes), Advance(inclusive, record, offset, notes);
            Simulates(s, i, Placed(strict, s, i, at)) && (Lasts(record) ==> s.closes == strict.closes)
  {
    if Prompts(record, notes) {
      FixSimulates(strict, inclusive, at);
    }
  }

  /** The two readings end an execution alike, except that only the inclusive one gives up. */
  lemma EndsAgree(strict: State, inclusive: State, record: Record, notes: Notes)
    requires strict.open == inclusive.open && strict.manualCompaction == inclusive.manualCompaction
    ensures var narrow, wide := Ends(strict, record, false, notes), Ends(inclusive, record, true, notes);
            && narrow != ByGiveUp && (wide == narrow || (wide == ByGiveUp && narrow == Nothing))
            && (narrow == ByDuration ==> Lasts(record))
  {
  }

  lemma SettledSimulates(before: State, s: State, i: State, at: seq<nat>, limit: nat, narrow: Ending, wide: Ending,
                         s': State, i': State)
    requires Simulates(s, i, Placed(before, s, i, at)) && Sound(s, limit) && limit < s.offset
    requires narrow != ByGiveUp && (wide == narrow || (wide == ByGiveUp && narrow == Nothing))
    requires narrow == ByDuration ==> s.closes == before.closes
    requires s' == Settle(s, narrow) && i' == Settle(i, wide)
    ensures Simulates(s', i', Placed(before, s', i', at))
  {
    SettleSimulates(s, i, Placed(before, s, i, at), limit, narrow, wide != narrow);
  }

  lemma RecordSimulates(strict: State, inclusive: State, at: seq<nat>, record: Record, offset: nat, notes: Notes,
                        s': State, i': State)
    requires Simulates(strict, inclusive, at) && Sound(strict, strict.offset) && strict.offset < offset
    requires s' == Settle(Advance(strict, record, offset, notes), Ends(strict, record, false, notes))
    requires i' == Settle(Advance(inclusive, record, offset, notes), Ends(inclusive, record, true, notes))
    ensures Simulates(s', i', Placed(strict, s', i', at))
  {
    var s, i := Advance(strict, record, offset, notes), Advance(inclusive, record, offset, notes);
    AdvanceSimulates(strict, inclusive, at, record, offset, notes);
    AdvanceSound(strict, strict.offset, record, offset, notes);
    EndsAgree(strict, inclusive, record, notes);
    SettledSimulates(strict, s, i, at, strict.offset, Ends(strict, record, false, notes),
                     Ends(inclusive, record, true, notes), s', i');
  }

  lemma SkippedSimulates(strict: State, inclusive: State, at: seq<nat>, offset: nat)
    requires Simulates(strict, inclusive, at)
    ensures var s, i := strict.(offset := offset), inclusive.(offset := offset);
            Simulates(s, i, Placed(strict, s, i, at))
  {
  }

  lemma StepAt(state: State, offset: nat, line: Bytes, includeEnded: bool, rd: Reader)
    requires offset == state.offset + |line|
    ensures Conversation(rd.parse(line)) ==>
              Step(state, line, includeEnded, rd)
              == Settle(Advance(state, rd.parse(line).value, offset, rd.notes),
                        Ends(state, rd.parse(line).value, includeEnded, rd.notes))
    ensures !Conversation(rd.parse(line)) ==> Step(state, line, includeEnded, rd) == state.(offset := offset)
  {
    StepOf(state, line, includeEnded, rd);
  }

  lemma StepSimulates(strict: State, inclusive: State, at: seq<nat>, line: Bytes, rd: Reader, s: State, i: State)
    requires Simulates(strict, inclusive, at) && Sound(strict, strict.offset) && line != []
    requires s == Step(strict, line, false, rd) && i == Step(inclusive, line, true, rd)
    ensures Simulates(s, i, Placed(strict, s, i, at))
  {
    var offset, parsed := strict.offset + |line|, rd.parse(line);
    StepAt(strict, offset, line, false, rd);
    StepAt(inclusive, offset, line, true, rd);
    if Conversation(parsed) {
      RecordSimulates(strict, inclusive, at, parsed.value, offset, rd.notes, s, i);
    } else {
      SkippedSimulates(strict, inclusive, at, offset);
    }
  }

  lemma {:induction false} RunSimulates(lines: seq<Bytes>, rd: Reader)
    requires NonEmpty(lines)
    ensures Simulates(Run(lines, false, rd), Run(lines, true, rd), Places(lines, rd))
  {
    if lines != [] {
      var front := lines[..|lines| - 1];
      RunSimulates(front, rd);
      RunSound(front, false, rd);
      StepSimulates(Run(front, false, rd), Run(front, true, rd), Places(front, rd), lines[|lines| - 1], rd,
                    Run(lines, false, rd), Run(lines, true, rd));
    }
  }

  lemma {:induction false} PlacesGrow(a: seq<Bytes>, b: seq<Bytes>, rd: Reader)
    ensures Places(a, rd) <= Places(a + b, rd)
  {
    if b == [] {
      assert a + b == a;
    } else {
      PlacesGrow(a, b[..|b| - 1], rd);
      assert (a + b)[..|a + b| - 1] == a + b[..|b| - 1];
    }
  }

  /**
   Counting given-up executions embeds the strict closes in order and in kind, never earlier;
   and the image of a close that `text` already fixes lies within `text`, whatever follows.
   */
  lemma EndedSimulatesStrict(text: Bytes, more: Bytes, rd: Reader)
    requires Whole(text)
    ensures var at := Embedding(SplitInclusive(text + more), rd);
            && Embeds(Closes(text + more, false, rd), Closes(text + more, true, rd), at)
            && Within(|Scan(text, false, rd).closes|, Closes(text + more, true, rd), at, |text|)
  {
    var a, b := SplitInclusive(text), SplitInclusive(more);
    SplitAppend(text, more);
    RunSimulates(a + b, rd);
    FinishEmbeds(Run(a + b, false, rd), Run(a + b, true, rd), Places(a + b, rd));
    OffsetIsLength(a, true, rd);
    JoinedSplit(text);
    FixedWithin(a, b, rd);
  }

  lemma FinishEmbeds(strict: State, inclusive: State, at: seq<nat>)
    requires Simulates(strict, inclusive, at)
    ensures Embeds(Finish(strict), Finish(inclusive), at + if strict.pending.Some? then [|inclusive.closes|] else [])
  {
  }

  lemma FixedWithin(a: seq<Bytes>, b: seq<Bytes>, rd: Reader)
    requires NonEmpty(a) && NonEmpty(b)
    ensures var at, late := Embedding(a + b, rd), Finish(Run(a + b, true, rd));
            Within(|Run(a, false, rd).closes|, late, at, Run(a, true, rd).offset)
  {
    RunSimulates(a, rd);
    PlacesGrow(a, b, rd);
    RunGrows(a, b, true, rd);
    RunSound(a, true, rd);
    var early := Run(a, true, rd);
    assert forall p | 0 <= p < |early.closes| :: Finish(early)[p] == early.closes[p];
  }

  /** A line whose record ends an execution only in the inclusive reading. */
  ghost predicate GivesUp(lines: seq<Bytes>, end: nat, rd: Reader) {
    exists k | 0 < k <= |lines| ::
      |Joined(lines[..k])| == end && Conversation(rd.parse(lines[k - 1]))
      && (Generated(rd.parse(lines[k - 1]).value) || rd.parse(lines[k - 1]).value.isCompactSummary)
  }

  ghost predicate Accounted(c: Close, strict: seq<Close>, lines: seq<Bytes>, rd: Reader) {
    c in strict || GivesUp(lines, c.end, rd)
  }

  lemma GivesUpGrows(lines: seq<Bytes>, line: Bytes, end: nat, rd: Reader)
    requires GivesUp(lines, end, rd)
    ensures GivesUp(lines + [line], end, rd)
  {
    var k :| 0 < k <= |lines| && |Joined(lines[..k])| == end && Conversation(rd.parse(lines[k - 1]))
          && (Generated(rd.parse(lines[k - 1]).value) || rd.parse(lines[k - 1]).value.isCompactSummary);
    assert (lines + [line])[..k] == lines[..k];
  }

  ghost predicate Accounts(s: State, i: State, lines: seq<Bytes>, rd: Reader) {
    && s.offset == i.offset && s.open == i.open && s.interrupted == i.interrupted
    && s.manualCompaction == i.manualCompaction
    && (forall c | c in i.closes :: Accounted(c, s.closes, lines, rd))
    && (i.pending.Some? ==> i.pending == s.pending || GivesUp(lines, i.pending.value.end, rd))
  }

  lemma AdvanceAccounts(s: State, i: State, lines: seq<Bytes>, record: Record, offset: nat, rd: Reader)
    requires Accounts(s, i, lines, rd)
    ensures Accounts(Advance(s, record, offset, rd.notes), Advance(i, record, offset, rd.notes), lines, rd)
  {
  }

  lemma SettleAccounts(s: State, i: State, lines: seq<Bytes>, narrow: Ending, wide: Ending, rd: Reader)
    requires Accounts(s, i, lines, rd)
    requires narrow != ByGiveUp && (wide == narrow || (wide == ByGiveUp && narrow == Nothing))
    requires wide == ByGiveUp ==> GivesUp(lines, i.offset, rd)
    ensures Accounts(Settle(s, narrow), Settle(i, wide), lines, rd)
  {
  }

  lemma {:induction false} RunAccounts(lines: seq<Bytes>, rd: Reader)
    ensures Accounts(Run(lines, false, rd), Run(lines, true, rd), lines, rd)
  {
    if lines != [] {
      var front, line := lines[..|lines| - 1], lines[|lines| - 1];
      RunAccounts(front, rd);
      AccountsMore(Run(front, false, rd), Run(front, true, rd), front, line, rd);
      OffsetIsLength(front, true, rd);
      StepAccounts(Run(front, false, rd), Run(front, true, rd), front, line, rd, Run(lines, false, rd),
                   Run(lines, true, rd));
      assert lines == front + [line];
    }
  }

  /** A longer transcript accounts for what a shorter one did. */
  lemma AccountsMore(s: State, i: State, front: seq<Bytes>, line: Bytes, rd: Reader)
    requires Accounts(s, i, front, rd)
    ensures Accounts(s, i, front + [line], rd)
  {
    forall end: nat | GivesUp(front, end, rd) ensures GivesUp(front + [line], end, rd) {
      GivesUpGrows(front, line, end, rd);
    }
  }

  lemma StepAccounts(s: State, i: State, front: seq<Bytes>, line: Bytes, rd: Reader, s': State, i': State)
    requires Accounts(s, i, front + [line], rd) && i.offset == |Joined(front)|
    requires s' == Step(s, line, false, rd) && i' == Step(i, line, true, rd)
    ensures Accounts(s', i', front + [line], rd)
  {
    var lines, parsed := front + [line], rd.parse(line);
    StepOf(s, line, false, rd);
    StepOf(i, line, true, rd);
    if Conversation(parsed) {
      var record, offset := parsed.value, i.offset + |line|;
      AdvanceAccounts(s, i, lines, record, offset, rd);
      EndsAgree(s, i, record, rd.notes);
      var narrow, wide := Ends(s, record, false, rd.notes), Ends(i, record, true, rd.notes);
      if wide == ByGiveUp {
        LastGivesUp(front, line, rd);
      }
      SettleAccounts(Advance(s, record, offset, rd.notes), Advance(i, record, offset, rd.notes), lines, narrow, wide,
                     rd);
    }
  }

  lemma LastGivesUp(front: seq<Bytes>, line: Bytes, rd: Reader)
    requires Conversation(rd.parse(line)) && (Generated(rd.parse(line).value) || rd.parse(line).value.isCompactSummary)
    ensures GivesUp(front + [line], |Joined(front)| + |line|, rd)
  {
    var lines := front + [line];
    JoinedOne(line);
    JoinedAppend(front, [line]);
    NothingMore(lines);
    assert |Joined(lines[..|lines|])| == |Joined(front)| + |line| && lines[|lines| - 1] == line;
  }

  /** Nothing else is added: an inclusive close is a strict one or ends a given-up execution. */
  lemma EndedAddsOnlyGivenUp(text: Bytes, c: Close, rd: Reader)
    requires c in Closes(text, true, rd)
    ensures Accounted(c, Closes(text, false, rd), SplitInclusive(text), rd)
  {
    RunAccounts(SplitInclusive(text), rd);
  }

  // ---- Calls a transcript reports open ---------------------------------------------------

  datatype OpenCall = OpenCall(line: nat, id: string, name: string)

  function Without(calls: seq<OpenCall>, id: string): (kept: seq<OpenCall>)
    ensures forall call :: call in kept <==> call in calls && call.id != id
  {
    if calls == [] then []
    else Without(calls[..|calls| - 1], id) + if calls[|calls| - 1].id == id then [] else [calls[|calls| - 1]]
  }

  function BlockReport(block: Block, line: nat, calls: seq<OpenCall>): seq<OpenCall> {
    match block
    case ToolUseBlock(Some(id), name, _) => calls + [OpenCall(line, id, name.GetOr("tool"))]
    case ToolResultBlock(Some(id), _, _) => Without(calls, id)
    case _ => calls
  }

  function BlocksReport(blocks: seq<Block>, line: nat, calls: seq<OpenCall>): seq<OpenCall> {
    if blocks == [] then calls
    else BlockReport(blocks[|blocks| - 1], line, BlocksReport(blocks[..|blocks| - 1], line, calls))
  }

  /** A record whose blocks the report of open calls looks at. */
  predicate Counts(record: Record) {
    (record.kind.Assistant? || record.kind.User?) && !record.isMeta && !record.isCompactSummary
    && !HasSystemSource(record) && record.content.Blocks?
  }

  function Report(lines: seq<Bytes>, parse: Parser): seq<OpenCall> {
    if lines == [] then []
    else
      var n := |lines| - 1;
      var calls, parsed := Report(lines[..n], parse), parse(lines[n]);
      if parsed.Some? && Counts(parsed.value) then BlocksReport(parsed.value.content.blocks, n, calls) else calls
  }

  method OpenToolCalls(text: Bytes, parse: Parser) returns (open: seq<OpenCall>)
    ensures open == Report(SplitInclusive(text), parse)
  {
    open := [];
    var lines := SplitInclusive(text);
    for lineno := 0 to |lines|
      invariant open == Report(lines[..lineno], parse)
    {
      assert lines[..lineno + 1][..lineno] == lines[..lineno];
      ghost var before := open;
      var parsed := parse(lines[lineno]);
      if parsed.None? || !Counts(parsed.value) {
        continue;
      }
      var blocks := parsed.value.content.blocks;
      for i := 0 to |blocks|
        invariant open == BlocksReport(blocks[..i], lineno, before)
      {
        assert blocks[..i + 1][..i] == blocks[..i];
        match blocks[i] {
          case ToolUseBlock(Some(id), name, _) => open := open + [OpenCall(lineno, id, name.GetOr("tool"))];
          case ToolResultBlock(Some(id), _, _) => open := Without(open, id);
          case _ =>
        }
      }
      assert blocks[..|blocks|] == blocks;
    }
    assert lines[..|lines|] == lines;
  }

  ghost predicate Reported(ids: set<string>, calls: seq<OpenCall>) {
    forall id | id in ids :: exists call | call in calls :: call.id == id
  }

  lemma BlockReported(block: Block, line: nat, open: set<string>, calls: seq<OpenCall>)
    requires Reported(open, calls)
    ensures Reported(BlockEffect(block, open), BlockReport(block, line, calls))
  {
    var now, report := BlockEffect(block, open), BlockReport(block, line, calls);
    forall id | id in now ensures exists call | call in report :: call.id == id {
      if id in open {
        var call :| call in calls && call.id == id;
        assert call in report;
      } else {
        assert report[|report| - 1].id == id;
      }
    }
  }

  lemma {:induction false} BlocksReported(blocks: seq<Block>, line: nat, open: set<string>, calls: seq<OpenCall>)
    requires Reported(open, calls)
    ensures Reported(BlocksEffect(blocks, open), BlocksReport(blocks, line, calls))
  {
    if blocks != [] {
      var n := |blocks| - 1;
      BlocksReported(blocks[..n], line, open, calls);
      BlockReported(blocks[n], line, BlocksEffect(blocks[..n], open), BlocksReport(blocks[..n], line, calls));
    }
  }

  /** Without a tool result, a record can only add to the report. */
  lemma {:induction false} BlocksReportKeeps(blocks: seq<Block>, line: nat, open: set<string>, calls: seq<OpenCall>)
    requires Reported(open, calls) && forall block | block in blocks :: !block.ToolResultBlock?
    ensures Reported(open, BlocksReport(blocks, line, calls))
  {
    if blocks != [] {
      var n := |blocks| - 1;
      BlocksReportKeeps(blocks[..n], line, open, calls);
      var before := BlocksReport(blocks[..n], line, calls);
      assert forall call | call in before :: call in BlockReport(blocks[n], line, before);
    }
  }

  lemma {:induction false} RunReported(lines: seq<Bytes>, ended: bool, rd: Reader)
    requires forall k | 0 <= k < |lines| :: rd.parse(lines[k]).Some? ==> !rd.parse(lines[k]).value.isSidechain
    ensures Reported(Run(lines, ended, rd).open, Report(lines, rd.parse))
  {
    if lines != [] {
      var n := |lines| - 1;
      var front, parsed := lines[..n], rd.parse(lines[n]);
      RunReported(front, ended, rd);
      var open, calls := Run(front, ended, rd).open, Report(front, rd.parse);
      if Conversation(parsed) && Counts(parsed.value) {
        var record := parsed.value;
        if record.kind.User? && !HasToolResult(record.content) {
          BlocksReportKeeps(record.content.blocks, n, open, calls);
        } else {
          BlocksReported(record.content.blocks, n, open, calls);
        }
      }
    }
  }

  /**
   On a transcript without sidechain records, every call that holds a boundary back is one the
   transcript reports open; so where it reports none, nothing is held back.
   */
  lemma TrackedCallsAreReported(text: Bytes, ended: bool, rd: Reader)
    requires forall line | line in SplitInclusive(text) ::
               rd.parse(line).Some? ==> !rd.parse(line).value.isSidechain
    ensures Reported(Scan(text, ended, rd).open, Report(SplitInclusive(text), rd.parse))
  {
    RunReported(SplitInclusive(text), ended, rd);
  }
}
