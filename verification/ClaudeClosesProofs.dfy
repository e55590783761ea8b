/** What the execution scan guarantees over whole transcripts as they grow. */
module ClaudeClosesProofs {
  import opened Lines
  import opened ClaudeRecord
  import opened ClaudeCloses

  lemma {:induction false} RunAppend(a: seq<Bytes>, line: Bytes, ended: bool, rd: Reader)
    ensures Run(a + [line], ended, rd) == Step(Run(a, ended, rd), line, ended, rd)
  {
    assert (a + [line])[..|a + [line]| - 1] == a;
  }

  /** The scan's offset is the length of what it read. */
  lemma {:induction false} OffsetIsLength(lines: seq<Bytes>, ended: bool, rd: Reader)
    ensures Run(lines, ended, rd).offset == |Joined(lines)|
  {
    if lines != [] {
      OffsetIsLength(lines[..|lines| - 1], ended, rd);
    }
  }

  // ---- Online scanning -------------------------------------------------------------------

  ghost predicate Increasing(closes: seq<Close>) {
    forall i, j | 0 <= i < j < |closes| :: closes[i].end < closes[j].end
  }

  /** A pending boundary is an interrupt exactly when the scan is interrupted; ends grow to `limit`. */
  ghost predicate Sound(state: State, limit: nat) {
    && Increasing(Finish(state))
    && (forall i | 0 <= i < |Finish(state)| :: 0 < Finish(state)[i].end <= limit)
    && (state.pending.Some? ==> (state.pending.value.kind == Interrupt <==> state.interrupted))
  }

  lemma SettleSound(state: State, limit: nat, ending: Ending)
    requires limit < state.offset && Sound(state, limit)
    ensures Sound(Settle(state, ending), state.offset)
  {
    assert forall i | 0 <= i < |state.closes| :: Finish(state)[i] == state.closes[i];
  }

  lemma AdvanceSound(state: State, limit: nat, record: Record, offset: nat, notes: Notes)
    requires Sound(state, limit)
    ensures Sound(Advance(state, record, offset, notes), limit)
    ensures Finish(Advance(state, record, offset, notes)) == Finish(state)
  {
  }

  lemma StepSound(state: State, line: Bytes, ended: bool, rd: Reader)
    requires Sound(state, state.offset) && line != []
    ensures var next := Step(state, line, ended, rd); Sound(next, next.offset)
  {
    var offset, parsed := state.offset + |line|, rd.parse(line);
    if Conversation(parsed) {
      AdvanceSound(state, state.offset, parsed.value, offset, rd.notes);
      SettleSound(Advance(state, parsed.value, offset, rd.notes), state.offset,
                  Ends(state, parsed.value, ended, rd.notes));
    } else {
      assert Finish(state.(offset := offset)) == Finish(state);
    }
  }

  ghost predicate NonEmpty(lines: seq<Bytes>) {
    forall k | 0 <= k < |lines| :: lines[k] != []
  }

  lemma {:induction false} RunSound(lines: seq<Bytes>, ended: bool, rd: Reader)
    requires NonEmpty(lines)
    ensures Sound(Run(lines, ended, rd), Run(lines, ended, rd).offset)
  {
    if lines != [] {
      RunSound(lines[..|lines| - 1], ended, rd);
      StepSound(Run(lines[..|lines| - 1], ended, rd), lines[|lines| - 1], ended, rd);
    }
  }

  /**
   How one scan's closes relate to an earlier scan's at `mark`: what was fixed stays, the
   provisional boundary stays or gives way to one past the mark, and the rest is past it.
   */
  ghost predicate Continues(early: State, mark: nat, late: seq<Close>) {
    var n := |early.closes|;
    && early.closes <= late
    && (early.pending.Some? ==> |late| > n && (late[n] == early.pending.value || late[n].end > mark))
    && (forall i | n + (if early.pending.Some? then 1 else 0) <= i < |late| :: late[i].end > mark)
  }

  ghost predicate Grows(early: State, mark: nat, late: State) {
    && mark <= late.offset
    && early.closes <= late.closes
    && Continues(early, mark, Finish(late))
    && (early.pending.Some? && |late.closes| == |early.closes| ==> late.pending.Some?)
  }

  lemma SettleGrows(early: State, mark: nat, state: State, ending: Ending)
    requires mark < state.offset && Grows(early, mark, state)
    ensures Grows(early, mark, Settle(state, ending))
  {
    assert forall i | 0 <= i < |state.closes| :: Finish(state)[i] == state.closes[i];
  }

  lemma AdvanceGrows(early: State, mark: nat, state: State, record: Record, offset: nat, notes: Notes)
    requires mark <= offset && Grows(early, mark, state)
    ensures Grows(early, mark, Advance(state, record, offset, notes))
  {
    assert Finish(Advance(state, record, offset, notes)) == Finish(state);
  }

  lemma StepGrows(early: State, mark: nat, state: State, line: Bytes, ended: bool, rd: Reader)
    requires line != [] && Grows(early, mark, state)
    ensures Grows(early, mark, Step(state, line, ended, rd))
  {
    var offset, parsed := state.offset + |line|, rd.parse(line);
    if Conversation(parsed) {
      AdvanceGrows(early, mark, state, parsed.value, offset, rd.notes);
      SettleGrows(early, mark, Advance(state, parsed.value, offset, rd.notes),
                  Ends(state, parsed.value, ended, rd.notes));
    } else {
      assert Finish(state.(offset := offset)) == Finish(state);
    }
  }

  lemma {:induction false} RunGrows(a: seq<Bytes>, b: seq<Bytes>, ended: bool, rd: Reader)
    requires NonEmpty(b)
    ensures Grows(Run(a, ended, rd), Run(a, ended, rd).offset, Run(a + b, ended, rd))
  {
    if b == [] {
      assert a + b == a;
    } else {
      var front, last := b[..|b| - 1], b[|b| - 1];
      RunGrows(a, front, ended, rd);
      assert a + b == (a + front) + [last];
      RunAppend(a + front, last, ended, rd);
      StepGrows(Run(a, ended, rd), Run(a, ended, rd).offset, Run(a + front, ended, rd), last, ended, rd);
    }
  }

  /**
   The scan is online. Reading on from whole text keeps every fixed boundary and in its place;
   the one provisional boundary stays or gives way to a later one; nothing else is reported
   inside text already read. Ends strictly increase.
   */
  lemma OnlineCloses(text: Bytes, more: Bytes, ended: bool, rd: Reader)
    requires Whole(text)
    ensures var early, late := Scan(text, ended, rd), Closes(text + more, ended, rd);
            Continues(early, |text|, late) && Increasing(late)
  {
    var a, b := SplitInclusive(text), SplitInclusive(more);
    SplitAppend(text, more);
    RunGrows(a, b, ended, rd);
    RunSound(a + b, ended, rd);
    OffsetIsLength(a, ended, rd);
    JoinedSplit(text);
  }

  /** A torn last line that does not parse changes no boundary. */
  lemma TornTail(text: Bytes, tail: Bytes, ended: bool, rd: Reader)
    requires Whole(text) && tail != [] && NoLF(tail) && rd.parse(tail).None?
    ensures Closes(text + tail, ended, rd) == Closes(text, ended, rd)
  {
    SplitAppend(text, tail);
    OneLine(tail);
    RunAppend(SplitInclusive(text), tail, ended, rd);
  }

  /** A duration record keeps the kind of the provisional boundary it absorbs. */
  lemma DurationKeepsKind(lines: seq<Bytes>, line: Bytes, ended: bool, rd: Reader)
    requires NonEmpty(lines)
    requires Conversation(rd.parse(line)) && Lasts(rd.parse(line).value)
    requires var state := Run(lines, ended, rd); state.pending.Some? && state.open == {}
    ensures var state, next := Run(lines, ended, rd), Run(lines + [line], ended, rd);
            next.pending.None?
            && next.closes == state.closes + [Close(next.offset, state.pending.value.kind)]
  {
    RunSound(lines, ended, rd);
    RunAppend(lines, line, ended, rd);
  }

  // ---- Gating on open calls --------------------------------------------------------------

  /** Some number of lines ends exactly at the close, with no call open and the close reported last. */
  ghost predicate Gated(lines: seq<Bytes>, c: Close, ended: bool, rd: Reader) {
    exists k | 0 < k <= |lines| :: GatedBy(Run(lines[..k], ended, rd), c)
  }

  ghost predicate GatedBy(state: State, c: Close) {
    state.offset == c.end && state.open == {} && Finish(state) != [] && Finish(state)[|Finish(state)| - 1] == c
  }

  lemma StepGated(state: State, line: Bytes, c: Close, ended: bool, rd: Reader)
    requires c in Finish(Step(state, line, ended, rd)) && c !in Finish(state)
    ensures GatedBy(Step(state, line, ended, rd), c)
  {
    var parsed := rd.parse(line);
    StepOf(state, line, ended, rd);
    if Conversation(parsed) {
      var now := Advance(state, parsed.value, state.offset + |line|, rd.notes);
      AdvanceFinish(state, parsed.value, state.offset + |line|, rd.notes);
      EndsClosed(state, parsed.value, state.offset + |line|, ended, rd.notes);
      SettleGated(now, Ends(state, parsed.value, ended, rd.notes), c);
    }
  }

  lemma AdvanceFinish(state: State, record: Record, offset: nat, notes: Notes)
    ensures Finish(Advance(state, record, offset, notes)) == Finish(state)
  {
  }

  /** Nothing ends while a call is open. */
  lemma EndsClosed(state: State, record: Record, offset: nat, ended: bool, notes: Notes)
    ensures Ends(state, record, ended, notes) != Nothing ==> Advance(state, record, offset, notes).open == {}
  {
  }

  lemma SettleGated(state: State, ending: Ending, c: Close)
    requires ending != Nothing ==> state.open == {}
    requires c in Finish(Settle(state, ending)) && c !in Finish(state)
    ensures GatedBy(Settle(state, ending), c)
  {
    assert forall x | x in state.closes :: x in Finish(state);
  }

  lemma {:induction false} RunGated(lines: seq<Bytes>, c: Close, ended: bool, rd: Reader)
    requires c in Finish(Run(lines, ended, rd))
    ensures Gated(lines, c, ended, rd)
  {
    if lines != [] {
      var front := lines[..|lines| - 1];
      if c in Finish(Run(front, ended, rd)) {
        RunGated(front, c, ended, rd);
        var k :| 0 < k <= |front| && GatedBy(Run(front[..k], ended, rd), c);
        assert front[..k] == lines[..k];
      } else {
        StepGated(Run(front, ended, rd), lines[|lines| - 1], c, ended, rd);
        assert lines[..|lines|] == lines;
      }
    }
  }

  /**
   Every boundary ends a line, leaves no tracked call open in the prefix it cuts, and is the
   last boundary a fresh scan of that prefix reports.
   */
  lemma CutsAreClosed(text: Bytes, c: Close, ended: bool, rd: Reader)
    requires c in Closes(text, ended, rd)
    ensures 0 < c.end <= |text|
    ensures Whole(text[..c.end]) || c.end == |text|
    ensures GatedBy(Scan(text[..c.end], ended, rd), c)
  {
    var lines := SplitInclusive(text);
    RunGated(lines, c, ended, rd);
    var k :| 0 < k <= |lines| && GatedBy(Run(lines[..k], ended, rd), c);
    OffsetIsLength(lines[..k], ended, rd);
    CutAtLine(text, k);
  }
}
