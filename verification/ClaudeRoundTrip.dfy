/** What a rendered transcript holds: closed calls, one chain, and the session it was written from. */
module ClaudeRoundTrip {
  import opened Wrappers
  import opened Lines
  import opened ClaudeRecord
  import opened ClaudeCloses
  import opened ClaudeEnded
  import opened ClaudeSession
  import opened ClaudeRender

  // ---- The chain of records ----------------------------------------------------------------

  /** Each record names the one before it, and the first names none. */
  lemma OneUnbrokenChain(events: seq<Event>, target: Target, details: Details, w: Wording, k: nat)
    requires k < |RenderOf(events, target, details, w)|
    ensures var out := RenderOf(events, target, details, w);
            && out[k].uuid == Some(target.uuid(k))
            && out[k].parentUuid == (if k == 0 then None else out[k - 1].uuid)
            && out[k].sessionId == Some(target.sessionId) && !out[k].record.isSidechain
  {
    BodiesAreSaid(events, |events|, details, w, k);
  }

  lemma {:induction false} BodiesAreSaid(events: seq<Event>, n: nat, details: Details, w: Wording, k: nat)
    requires n <= |events| && k < |Bodies(events, n, details, w)|
    ensures var record := Bodies(events, n, details, w)[k].record; record == Said(record.kind, record.content)
  {
    if k < |Bodies(events, n - 1, details, w)| {
      BodiesAreSaid(events, n - 1, details, w, k);
    }
  }

  // ---- No call is left open ----------------------------------------------------------------

  /** The lines are some writing of these records. */
  ghost predicate Writes(lines: seq<Bytes>, bodies: seq<Body>, parse: Parser) {
    |lines| == |bodies| && forall k | 0 <= k < |lines| :: parse(lines[k]) == Some(bodies[k].record)
  }

  lemma StepOpen(state: State, line: Bytes, ended: bool, rd: Reader)
    requires Conversation(rd.parse(line))
    ensures Step(state, line, ended, rd).open == OpenAfter(rd.parse(line).value, state.open, rd.notes)
  {
  }

  lemma LineMore(lines: seq<Bytes>, line: Bytes, ended: bool, rd: Reader)
    ensures Run(lines + [line], ended, rd) == Step(Run(lines, ended, rd), line, ended, rd)
    ensures Report(lines + [line], rd.parse)
         == var parsed, calls := rd.parse(line), Report(lines, rd.parse);
            if parsed.Some? && Counts(parsed.value) then BlocksReport(parsed.value.content.blocks, |lines|, calls)
            else calls
  {
    assert (lines + [line])[..|lines|] == lines;
  }

  lemma TextLeavesNoneOpen(lines: seq<Bytes>, line: Bytes, event: Event, text: string, w: Wording, ended: bool,
                           rd: Reader)
    requires Run(lines, ended, rd).open == {} && Report(lines, rd.parse) == []
    requires rd.parse(line) == Some(TextBody(event, text, w).record)
    ensures Run(lines + [line], ended, rd).open == {} && Report(lines + [line], rd.parse) == []
  {
    LineMore(lines, line, ended, rd);
    StepOpen(Run(lines, ended, rd), line, ended, rd);
    var block := TextBlock(Some(text));
    OneBlock(block, |lines|, {}, []);
  }

  lemma OneBlock(block: Block, line: nat, open: set<string>, calls: seq<OpenCall>)
    ensures BlocksEffect([block], open) == BlockEffect(block, open)
    ensures BlocksReport([block], line, calls) == BlockReport(block, line, calls)
  {
    assert [block][..0] == [];
  }

  predicate Ordinary(record: Record) {
    record == Said(record.kind, record.content)
  }

  lemma CallOpens(lines: seq<Bytes>, use: Bytes, id: string, ended: bool, rd: Reader)
    requires Run(lines, ended, rd).open == {} && Report(lines, rd.parse) == [] && rd.parse(use).Some?
    requires var record := rd.parse(use).value;
             Ordinary(record) && record.kind == Assistant && record.content.Blocks?
             && |record.content.blocks| == 1 && record.content.blocks[0].ToolUseBlock?
                 && record.content.blocks[0].id == Some(id)
    ensures Run(lines + [use], ended, rd).open == {id}
    ensures var calls := Report(lines + [use], rd.parse); |calls| == 1 && calls[0].id == id
  {
    var block := rd.parse(use).value.content.blocks[0];
    LineMore(lines, use, ended, rd);
    StepOpen(Run(lines, ended, rd), use, ended, rd);
    OneBlock(block, |lines|, {}, []);
    assert rd.parse(use).value.content.blocks == [block];
  }

  lemma ResultCloses(lines: seq<Bytes>, result: Bytes, id: string, ended: bool, rd: Reader)
    requires Run(lines, ended, rd).open == {id} && rd.parse(result).Some?
    requires var calls := Report(lines, rd.parse); |calls| == 1 && calls[0].id == id
    requires var record := rd.parse(result).value;
             Ordinary(record) && record.kind == User && record.content.Blocks?
             && |record.content.blocks| == 1 && record.content.blocks[0].ToolResultBlock?
                 && record.content.blocks[0].callId == Some(id)
    ensures Run(lines + [result], ended, rd).open == {} && Report(lines + [result], rd.parse) == []
  {
    var block := rd.parse(result).value.content.blocks[0];
    var calls := Report(lines, rd.parse);
    LineMore(lines, result, ended, rd);
    StepOpen(Run(lines, ended, rd), result, ended, rd);
    OneBlock(block, |lines|, {id}, calls);
    assert rd.parse(result).value.content.blocks == [block];
    assert calls[..0] == [] && Without(calls, id) == [];
  }

  lemma PairLeavesNoneOpen(lines: seq<Bytes>, use: Bytes, result: Bytes, event: Event, detail: Option<Detail>,
                           minted: nat,
                           w: Wording, ended: bool, rd: Reader)
    requires Run(lines, ended, rd).open == {} && Report(lines, rd.parse) == []
    requires rd.parse(use) == Some(CallBodies(event, detail, minted, w)[0].record)
    requires rd.parse(result) == Some(CallBodies(event, detail, minted, w)[1].record)
    ensures Run(lines + [use] + [result], ended, rd).open == {} && Report(lines + [use] + [result], rd.parse) == []
  {
    CallOpens(lines, use, w.callId(minted), ended, rd);
    ResultCloses(lines + [use], result, w.callId(minted), ended, rd);
  }

  /** What one event is written as keeps every call closed. */
  lemma EventLeavesNoneOpen(front: seq<Bytes>, own: seq<Bytes>, events: seq<Event>, i: nat, details: Details,
                            minted: nat,
                            w: Wording, ended: bool, rd: Reader)
    requires i < |events| && Run(front, ended, rd).open == {} && Report(front, rd.parse) == []
    requires Writes(own, EventBodies(events, i, details, minted, w), rd.parse)
    ensures Run(front + own, ended, rd).open == {} && Report(front + own, rd.parse) == []
  {
    if IsCall(events, i, details) {
      assert own == [own[0], own[1]] && front + own == front + [own[0]] + [own[1]];
      PairLeavesNoneOpen(front, own[0], own[1], events[i], DetailAt(details, i), minted, w, ended, rd);
    } else if WrittenText(events[i], w).Some? {
      assert own == [own[0]];
      TextLeavesNoneOpen(front, own[0], events[i], WrittenText(events[i], w).value, w, ended, rd);
    } else {
      assert own == [] && front + own == front;
    }
  }

  /** However it is written down, a rendered session leaves no call open, for either reader of calls. */
  lemma {:induction false} NoCallIsOpen(events: seq<Event>, n: nat, details: Details, w: Wording, lines: seq<Bytes>,
                                        ended: bool, rd: Reader)
    requires n <= |events| && Writes(lines, Bodies(events, n, details, w), rd.parse)
    ensures Run(lines, ended, rd).open == {} && Report(lines, rd.parse) == []
  {
    if n > 0 {
      var before := Bodies(events, n - 1, details, w);
      var minted := Minted(events, n, details);
      var front, own := lines[..|before|], lines[|before|..];
      WritesSplit(lines, before, EventBodies(events, n - 1, details, minted, w), rd.parse);
      NoCallIsOpen(events, n - 1, details, w, front, ended, rd);
      EventLeavesNoneOpen(front, own, events, n - 1, details, minted, w, ended, rd);
      Halves(lines, |before|);
    }
  }

  lemma Halves(lines: seq<Bytes>, n: nat)
    requires n <= |lines|
    ensures lines[..n] + lines[n..] == lines
  {
  }

  lemma WritesSplit(lines: seq<Bytes>, a: seq<Body>, b: seq<Body>, parse: Parser)
    requires Writes(lines, a + b, parse)
    ensures Writes(lines[..|a|], a, parse) && Writes(lines[|a|..], b, parse)
  {
    assert forall k | 0 <= k < |a| :: (a + b)[k] == a[k];
    assert forall k | 0 <= k < |b| :: (a + b)[|a| + k] == b[k];
  }
}
