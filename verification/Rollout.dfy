/**
 A Codex rollout carrier: a header line, then records. A paginated header may continue another
 carrier from a cut given as a byte offset and an exclusive ordinal.

 Parsing JSON is a given (`Json`), reading a line into the fields the code tests. Lengths are
 unbounded naturals: every sum the source checks for overflow is also compared with a limit of
 the same width, and both failures are the same error.
 */
module Rollout {
  import opened Wrappers
  import opened Lines

  datatype Unavailable = Incomplete | BudgetExceeded | ReadFailed | Ambiguous | Changed

  datatype Limits = Limits(bytes: nat, workingBytes: nat, records: nat, lookupEntries: nat)

  datatype BaseJson = NotObject | BaseObject(threadId: Option<string>, endOrdinal: Option<nat>, endOffset: Option<nat>)

  datatype PayloadJson = PayloadJson(id: Option<string>, paginated: bool, base: Option<BaseJson>)

  datatype HeaderJson = HeaderJson(sessionMeta: bool, ordinal: Option<nat>, payload: Option<PayloadJson>)

  /** `header` parses a header line without its newline; `ordinal` is a record's ordinal, if it parses and has one. */
  datatype Json = Json(header: Bytes -> Option<HeaderJson>, ordinal: Bytes -> Option<nat>)

  datatype History = History(sourceId: string, ordinalExclusive: nat, byteOffset: nat)

  datatype Parts = Parts(header: Bytes, body: Bytes, ordinal: Option<nat>)

  datatype Split = Split(parts: Parts, history: Option<History>)

  datatype SplitFailure = Unrecognized | BrokenLineage

  predicate HasNewline(bytes: Bytes) {
    FirstLine(bytes) > 0 && bytes[FirstLine(bytes) - 1] == LF
  }

  lemma {:induction false} FirstLineSame(a: Bytes, b: Bytes)
    requires a <= b && HasNewline(a)
    ensures HasNewline(b) && FirstLine(b) == FirstLine(a)
  {
    if a[0] != LF {
      FirstLineSame(a[1..], b[1..]);
    }
  }

  function HistoryOf(payload: PayloadJson): Result<Option<History>, SplitFailure> {
    if !payload.paginated || payload.base.None? then Ok(None)
    else match payload.base.value
         case BaseObject(Some(id), Some(ordinal), Some(offset)) =>
           if id == "" then Err(BrokenLineage) else Ok(Some(History(id, ordinal, offset)))
         case _ => Err(BrokenLineage)
  }

  function SplitRollout(bytes: Bytes, expectedThread: Option<string>, json: Json): Result<Split, SplitFailure> {
    if !HasNewline(bytes) then Err(Unrecognized)
    else
      var end := FirstLine(bytes);
      match json.header(bytes[..end - 1])
      case Some(HeaderJson(true, ordinal, Some(payload))) =>
        if expectedThread.Some? && payload.id != expectedThread then Err(Unrecognized)
        else
          var history :- HistoryOf(payload);
          Ok(Split(Parts(bytes[..end], bytes[end..], ordinal), history))
      case _ => Err(Unrecognized)
  }

  /** The leaf still has a header of the expected thread. */
  predicate RecognizedRollout(bytes: Bytes, thread: string, json: Json) {
    HasNewline(bytes)
    && var header := json.header(bytes[..FirstLine(bytes) - 1]);
       header.Some? && header.value.sessionMeta
       && header.value.payload.Some? && header.value.payload.value.id == Some(thread)
  }

  function HeaderThread(header: Bytes, json: Json): Option<string> {
    var line := if header != [] && header[|header| - 1] == LF then header[..|header| - 1] else header;
    match json.header(line)
    case Some(HeaderJson(_, _, Some(payload))) => payload.id
    case _ => None
  }

  // ---- Prefixes ----------------------------------------------------------------------------

  /** A line without its newline. */
  function Chomp(line: Bytes): Bytes {
    if line == [] then [] else line[..|line| - 1]
  }

  predicate IsRecord(line: Bytes) {
    line != [LF]
  }

  datatype Allowance = Allowance(previous: nat, left: Option<nat>)

  /** Admits each record in turn: its ordinal grows, and it takes one from a finite allowance. */
  function Admit(lines: seq<Bytes>, previous: nat, left: Option<nat>, json: Json): Result<Allowance, Unavailable>
  {
    if lines == [] then Ok(Allowance(previous, left))
    else if !IsRecord(lines[0]) then Admit(lines[1..], previous, left, json)
    else if left == Some(0) then Err(BudgetExceeded)
    else
      var left' := if left.Some? then Some(left.value - 1) else None;
      match json.ordinal(Chomp(lines[0]))
      case None => Err(Incomplete)
      case Some(ordinal) =>
        if ordinal <= previous then Err(Incomplete) else Admit(lines[1..], ordinal, left', json)
  }

  datatype Prefix = Prefix(end: nat, left: Option<nat>)

  /** Where the cut `history` names ends in the body of the carrier it names. */
  function Cut(parts: Parts, history: History): Option<nat> {
    if |parts.header| <= history.byteOffset <= |parts.header| + |parts.body|
    then Some(history.byteOffset - |parts.header|) else None
  }

  function PrefixEnd(parts: Parts, history: History, left: Option<nat>, json: Json): Result<Prefix, Unavailable> {
    match Cut(parts, history)
    case None => Err(Incomplete)
    case Some(end) =>
      if !Whole(parts.body[..end]) || parts.ordinal.None? then Err(Incomplete)
      else
        var admitted :- Admit(SplitInclusive(parts.body[..end]), parts.ordinal.value, left, json);
        if admitted.previous + 1 != history.ordinalExclusive then Err(Incomplete)
        else Ok(Prefix(end, admitted.left))
  }

  method ValidatedPrefixEnd(parts: Parts, history: History, left: Option<nat>, json: Json)
    returns (r: Result<Prefix, Unavailable>)
    ensures r == PrefixEnd(parts, history, left, json)
  {
    if history.byteOffset < |parts.header| || history.byteOffset - |parts.header| > |parts.body| {
      return Err(Incomplete);
    }
    var prefixEnd := history.byteOffset - |parts.header|;
    var prefix := parts.body[..prefixEnd];
    if prefix != [] && prefix[|prefix| - 1] != LF {
      return Err(Incomplete);
    }
    if parts.ordinal.None? {
      return Err(Incomplete);
    }
    var previous, remaining := parts.ordinal.value, left;
    var lines := SplitInclusive(prefix);
    for i := 0 to |lines|
      invariant Admit(lines, parts.ordinal.value, left, json) == Admit(lines[i..], previous, remaining, json)
    {
      var line := lines[i];
      assert lines[i..][1..] == lines[i + 1..];
      if line == [LF] {
        continue;
      }
      if remaining.Some? {
        if remaining.value == 0 {
          return Err(BudgetExceeded);
        }
        remaining := Some(remaining.value - 1);
      }
      var ordinal := json.ordinal(Chomp(line));
      if ordinal.None? || ordinal.value <= previous {
        return Err(Incomplete);
      }
      previous := ordinal.value;
    }
    if previous + 1 != history.ordinalExclusive {
      return Err(Incomplete);
    }
    return Ok(Prefix(prefixEnd, remaining));
  }

  /** The ordinals of the records among some lines. */
  function Ordinals(lines: seq<Bytes>, json: Json): seq<Option<nat>>
  {
    if lines == [] then []
    else (if IsRecord(lines[0]) then [json.ordinal(Chomp(lines[0]))] else []) + Ordinals(lines[1..], json)
  }

  /** Every record has an ordinal, and they climb from `previous`. */
  ghost predicate Climbs(ordinals: seq<Option<nat>>, previous: nat) {
    && (forall i | 0 <= i < |ordinals| :: ordinals[i].Some? && ordinals[i].value > previous)
    && (forall i, j | 0 <= i < j < |ordinals| :: ordinals[i].value < ordinals[j].value)
  }

  function Highest(ordinals: seq<Option<nat>>, previous: nat): nat {
    if ordinals == [] || ordinals[|ordinals| - 1].None? then previous else ordinals[|ordinals| - 1].value
  }

  /** Admission, declaratively: the ordinals climb, and a finite allowance covers every record. */
  lemma {:induction false} AdmitMeaning(lines: seq<Bytes>, previous: nat, left: Option<nat>, json: Json)
    ensures var ordinals, r := Ordinals(lines, json), Admit(lines, previous, left, json);
            && (r.Ok? <==> Climbs(ordinals, previous) && (left.Some? ==> |ordinals| <= left.value))
            && (r.Ok? ==> r.value == Allowance(Highest(ordinals, previous),
                                               if left.Some? then Some(left.value - |ordinals|) else None))
  {
    if lines != [] && !IsRecord(lines[0]) {
      AdmitMeaning(lines[1..], previous, left, json);
      assert Ordinals(lines, json) == Ordinals(lines[1..], json);
    } else if lines != [] {
      var first := json.ordinal(Chomp(lines[0]));
      OrdinalsCons(lines, json);
      if first.Some? && first.value > previous && left != Some(0) {
        AdmitMeaning(lines[1..], first.value, if left.Some? then Some(left.value - 1) else None, json);
        ClimbsCons(first.value, Ordinals(lines[1..], json), previous);
      }
    }
  }

  lemma OrdinalsCons(lines: seq<Bytes>, json: Json)
    requires lines != [] && IsRecord(lines[0])
    ensures Ordinals(lines, json) == [json.ordinal(Chomp(lines[0]))] + Ordinals(lines[1..], json)
    ensures Ordinals(lines, json)[0] == json.ordinal(Chomp(lines[0]))
    ensures |Ordinals(lines, json)| == 1 + |Ordinals(lines[1..], json)|
  {
  }

  lemma ClimbsCons(first: nat, rest: seq<Option<nat>>, previous: nat)
    requires first > previous
    ensures Climbs([Some(first)] + rest, previous) <==> Climbs(rest, first)
    ensures Highest([Some(first)] + rest, previous) == Highest(rest, first) || !Climbs(rest, first)
  {
    var all: seq<Option<nat>> := [Some(first)] + rest;
    assert forall i | 0 <= i < |rest| :: rest[i] == all[i + 1];
    if Climbs(all, previous) {
      ClimbsTail(all, previous);
      assert all[1..] == rest;
    }
    if Climbs(rest, first) {
      ClimbsHead(first, rest, previous);
    }
  }

  lemma ClimbsTail(all: seq<Option<nat>>, previous: nat)
    requires all != [] && Climbs(all, previous)
    ensures Climbs(all[1..], all[0].value)
  {
    forall i | 0 <= i < |all| - 1 ensures all[1..][i].Some? && all[1..][i].value > all[0].value {
      assert all[1..][i] == all[i + 1];
    }
  }

  lemma ClimbsHead(first: nat, rest: seq<Option<nat>>, previous: nat)
    requires first > previous && Climbs(rest, first)
    ensures Climbs([Some(first)] + rest, previous)
  {
    var all: seq<Option<nat>> := [Some(first)] + rest;
    forall i | 0 <= i < |all| ensures all[i].Some? && all[i].value > previous {
      assert i > 0 ==> all[i] == rest[i - 1];
    }
    forall i, j | 0 <= i < j < |all| ensures all[i].value < all[j].value {
      assert all[j] == rest[j - 1] && (i > 0 ==> all[i] == rest[i - 1]);
    }
  }
}
