/** The boundaries callers ask for: where a reply completed, where a person stopped, where anything ended. */
module ClaudeBoundaries {
  import opened Wrappers
  import opened Lines
  import opened ClaudeCloses
  import opened ClaudeClosesProofs

  /** The ends of the closes of one kind. */
  function EndsOf(closes: seq<Close>, kind: TurnClose): seq<nat> {
    if closes == [] then []
    else EndsOf(closes[..|closes| - 1], kind)
         + if closes[|closes| - 1].kind == kind then [closes[|closes| - 1].end] else []
  }

  function CompletedTurns(text: Bytes, rd: Reader): seq<nat> {
    EndsOf(Closes(text, false, rd), Reply)
  }

  function InterruptedTurns(text: Bytes, rd: Reader): seq<nat> {
    EndsOf(Closes(text, false, rd), Interrupt)
  }

  function EndedTurn(text: Bytes, rd: Reader): Option<nat> {
    var closes := Closes(text, false, rd);
    if closes == [] then None else Some(closes[|closes| - 1].end)
  }

  lemma {:induction false} EndsMembers(closes: seq<Close>, kind: TurnClose, end: nat)
    ensures end in EndsOf(closes, kind) <==> Close(end, kind) in closes
  {
    if closes != [] {
      var front, last := closes[..|closes| - 1], closes[|closes| - 1];
      EndsMembers(front, kind, end);
      assert closes == front + [last];
    }
  }

  lemma {:induction false} EndsIncrease(closes: seq<Close>, kind: TurnClose)
    requires Increasing(closes)
    ensures forall i, j | 0 <= i < j < |EndsOf(closes, kind)| :: EndsOf(closes, kind)[i] < EndsOf(closes, kind)[j]
  {
    if closes != [] {
      var front, last := closes[..|closes| - 1], closes[|closes| - 1];
      EndsIncrease(front, kind);
      forall i | 0 <= i < |EndsOf(front, kind)| ensures EndsOf(front, kind)[i] < last.end {
        EndsMembers(front, kind, EndsOf(front, kind)[i]);
        var k :| 0 <= k < |front| && front[k] == Close(EndsOf(front, kind)[i], kind);
        assert closes[k] == front[k];
      }
    }
  }

  lemma ClosesIncrease(text: Bytes, ended: bool, rd: Reader)
    ensures Increasing(Closes(text, ended, rd))
  {
    RunSound(SplitInclusive(text), ended, rd);
  }

  /**
   Completed and interrupted boundaries climb, never share an offset, and together are every
   place an execution ended; the last of them is where the last execution ended.
   */
  lemma BoundariesPartition(text: Bytes, rd: Reader, end: nat)
    ensures var completed, interrupted := CompletedTurns(text, rd), InterruptedTurns(text, rd);
            && (forall i, j | 0 <= i < j < |completed| :: completed[i] < completed[j])
            && (forall i, j | 0 <= i < j < |interrupted| :: interrupted[i] < interrupted[j])
            && !(end in completed && end in interrupted)
            && ((end in completed || end in interrupted) <==> exists c | c in Closes(text, false, rd) :: c.end == end)
            && (EndedTurn(text, rd) == Some(end) ==> end in completed || end in interrupted)
            && (end in completed || end in interrupted
                ==> EndedTurn(text, rd).Some? && end <= EndedTurn(text, rd).value)
  {
    var closes := Closes(text, false, rd);
    ClosesIncrease(text, false, rd);
    EndsIncrease(closes, Reply);
    EndsIncrease(closes, Interrupt);
    EndsMembers(closes, Reply, end);
    EndsMembers(closes, Interrupt, end);
    forall c | c in closes && c.end == end ensures Close(end, Reply) in closes || Close(end, Interrupt) in closes {
      assert c == Close(end, if c.kind.Reply? then Reply else Interrupt);
    }
    if closes != [] {
      var last := closes[|closes| - 1];
      assert last in closes && last == Close(last.end, last.kind);
    }
  }

  /** A completed boundary before the last one stays, whatever the transcript gains. */
  lemma PublishedCutsStay(text: Bytes, more: Bytes, rd: Reader, end: nat)
    requires Whole(text) && end in CompletedTurns(text, rd) && EndedTurn(text, rd) != Some(end)
    ensures end in CompletedTurns(text + more, rd)
  {
    var early, closes := Scan(text, false, rd), Closes(text, false, rd);
    EndsMembers(closes, Reply, end);
    var k :| 0 <= k < |closes| && closes[k] == Close(end, Reply);
    OnlineCloses(text, more, false, rd);
    assert k < |early.closes|;
    assert Closes(text + more, false, rd)[k] == early.closes[k];
    EndsMembers(Closes(text + more, false, rd), Reply, end);
  }
}
