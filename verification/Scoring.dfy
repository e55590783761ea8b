/**
 Scoring a secret case. Recovery through the token mappings proves which ranges of the original
 were replaced; each expectation is then judged by what those ranges cover or touch.

 Where tokens match in an output is a given (`Matcher`), as the mapping of a token to its value.
 */
module Scoring {
  import opened Wrappers
  import opened Pointer
  import opened Ranges
  import opened Sequences

  datatype Failure = NoMapping | NotAligned | StructureChanged | NoSuchLeaf

  type Mappings = map<string, string>

  type Matcher = string -> seq<Range>

  /** Matches come left to right, without overlap, inside the text. */
  predicate Successive(matches: seq<Range>, cursor: int, length: int) {
    if matches == [] then cursor <= length
    else cursor <= matches[0].start <= matches[0].end <= length && Successive(matches[1..], matches[0].end, length)
  }

  datatype Recovery = Recovery(text: string, spans: seq<Range>)

  /** What the output from `cursor` on recovers to, and where the mapped values come to lie. */
  function Recover(output: string, cursor: int, offset: int, matches: seq<Range>,
                   mappings: Mappings): Result<Recovery, Failure>
    requires 0 <= cursor && Successive(matches, cursor, |output|)
    decreases |matches|
  {
    if matches == [] then Ok(Recovery(output[cursor..], []))
    else
      var literal := output[cursor..matches[0].start];
      var token := output[matches[0].start..matches[0].end];
      if token !in mappings then Err(NoMapping)
      else
        var start := offset + |literal|;
        var end := start + |mappings[token]|;
        var rest :- Recover(output, matches[0].end, end, matches[1..], mappings);
        Ok(Recovery(literal + mappings[token] + rest.text, [Range(start, end)] + rest.spans))
  }

  function Aligned(original: string, output: string, mappings: Mappings,
                   matches: seq<Range>): Result<seq<Range>, Failure>
    requires Successive(matches, 0, |output|)
  {
    var recovered :- Recover(output, 0, 0, matches, mappings);
    if recovered.text != original then Err(NotAligned) else Ok(recovered.spans)
  }

  function Before(text: string, spans: seq<Range>, rest: Result<Recovery, Failure>): Result<Recovery, Failure> {
    match rest
    case Err(error) => Err(error)
    case Ok(r) => Ok(Recovery(text + r.text, spans + r.spans))
  }

  method ProtectedRanges(original: string, output: string, mappings: Mappings, matches: seq<Range>)
    returns (r: Result<seq<Range>, Failure>)
    requires Successive(matches, 0, |output|)
    ensures r == Aligned(original, output, mappings, matches)
  {
    var recovered: string, spans: seq<Range> := [], [];
    var cursor, offset := 0, 0;
    ghost var all := Recover(output, 0, 0, matches, mappings);
    assert matches[0..] == matches;
    assert all.Ok? ==> recovered + all.value.text == all.value.text && spans + all.value.spans == all.value.spans;
    for i := 0 to |matches|
      invariant 0 <= cursor && Successive(matches[i..], cursor, |output|)
      invariant all == Before(recovered, spans, Recover(output, cursor, offset, matches[i..], mappings))
    {
      ghost var wasRecovered, wasSpans := recovered, spans;
      assert matches[i..][1..] == matches[i + 1..];
      var literal := output[cursor..matches[i].start];
      recovered := recovered + literal;
      offset := offset + |literal|;
      var token := output[matches[i].start..matches[i].end];
      if token !in mappings {
        return Err(NoMapping);
      }
      var value := mappings[token];
      recovered := recovered + value;
      spans := spans + [Range(offset, offset + |value|)];
      Regroup(wasRecovered, wasSpans, literal + value, [Range(offset, offset + |value|)],
              Recover(output, matches[i].end, offset + |value|, matches[i + 1..], mappings));
      assert recovered == wasRecovered + (literal + value);
      offset := offset + |value|;
      cursor := matches[i].end;
    }
    recovered := recovered + output[cursor..];
    assert spans + [] == spans;
    if recovered != original {
      return Err(NotAligned);
    }
    return Ok(spans);
  }

  lemma Regroup(a: string, s: seq<Range>, b: string, t: seq<Range>, rest: Result<Recovery, Failure>)
    ensures Before(a + b, s + t, rest) == Before(a, s, Before(b, t, rest))
  {
    if rest.Ok? {
      assert a + b + rest.value.text == a + (b + rest.value.text);
      assert s + t + rest.value.spans == s + (t + rest.value.spans);
    }
  }

  // ---- Verdicts ----------------------------------------------------------------------------

  datatype Verdict = TP | FN | FP | TN

  function VerdictOf(check: Check, spans: seq<Range>): Verdict {
    if check.protect then if Covered(check.range.start, check.range.end, spans) then TP else FN
    else if Overlaps(check.range.start, check.range.end, spans) then FP
    else TN
  }

  type Spans = map<string, seq<Range>>

  function Verdicts(checks: seq<Check>, spans: Spans): Result<seq<Verdict>, Failure> {
    if checks == [] then Ok([])
    else if checks[0].pointer !in spans then Err(NoSuchLeaf)
    else
      var rest :- Verdicts(checks[1..], spans);
      Ok([VerdictOf(checks[0], spans[checks[0].pointer])] + rest)
  }

  /** Same kinds throughout, the same keys, the same lengths. */
  predicate SameShape(before: Json, after: Json)
    decreases before, Width(before) + 1
  {
    match (before, after)
    case (Str(_), Str(_)) => true
    case (Atom(kind, _), Atom(other, _)) => kind == other
    case (Items(items), Items(others)) =>
      |items| == |others| && forall i | 0 <= i < |items| :: SameShape(items[i], others[i])
    case (Object(fields), Object(others)) =>
      && (set f | f in fields :: f.key) == (set f | f in others :: f.key)
      && forall i | 0 <= i < |fields| ::
           Find(others, fields[i].key).Some? && SameShape(fields[i].value, Find(others, fields[i].key).value)
    case _ => false
  }

  function LeafAt(leaves: seq<Leaf>, path: string): Option<Json> {
    if leaves == [] then None
    else if leaves[0].path == path then Some(leaves[0].value)
    else LeafAt(leaves[1..], path)
  }

  datatype Alignment = Alignment(spans: Spans, changed: seq<string>)

  /** The replaced ranges of each string, and the pointers of other leaves that changed. */
  function AlignLeaves(before: seq<Leaf>, after: seq<Leaf>, mappings: Mappings, matcher: Matcher,
                       done: Alignment): Result<Alignment, Failure>
    requires forall text :: Successive(matcher(text), 0, |text|)
  {
    if before == [] then Ok(done)
    else
      match LeafAt(after, before[0].path)
      case None => Err(NoSuchLeaf)
      case Some(now) =>
        match before[0].value
        case Str(original) =>
          if !now.Str? then Err(StructureChanged)
          else
            var spans :- Aligned(original, now.text, mappings, matcher(now.text));
            AlignLeaves(before[1..], after, mappings, matcher, done.(spans := done.spans[before[0].path := spans]))
        case other =>
          AlignLeaves(before[1..], after, mappings, matcher,
                      if now == other then done else done.(changed := done.changed + [before[0].path]))
  }

  datatype Scored = Scored(verdicts: seq<Verdict>, changed: seq<string>)

  function ScoreOf(input: Json, output: Json, checks: seq<Check>, mappings: Mappings,
                   matcher: Matcher): Result<Scored, Failure>
    requires forall text :: Successive(matcher(text), 0, |text|)
  {
    if !SameShape(input, output) then Err(StructureChanged)
    else
      var aligned :- AlignLeaves(Leaves(input, []), Leaves(output, []), mappings, matcher, Alignment(map[], []));
      var verdicts :- Verdicts(checks, aligned.spans);
      Ok(Scored(verdicts, aligned.changed))
  }

  datatype Counts = Counts(tp: nat, fn: nat, fp: nat, tn: nat)

  function Tally(verdicts: seq<Verdict>): Counts {
    if verdicts == [] then Counts(0, 0, 0, 0)
    else
      var c := Tally(verdicts[..|verdicts| - 1]);
      match verdicts[|verdicts| - 1]
      case TP => c.(tp := c.tp + 1)
      case FN => c.(fn := c.fn + 1)
      case FP => c.(fp := c.fp + 1)
      case TN => c.(tn := c.tn + 1)
  }

  method JudgeOne(check: Check, spans: seq<Range>) returns (verdict: Verdict)
    ensures verdict == VerdictOf(check, spans)
  {
    if check.protect {
      var covered := Coverage(check.range.start, check.range.end, spans);
      verdict := if covered then TP else FN;
    } else {
      verdict := if Overlaps(check.range.start, check.range.end, spans) then FP else TN;
    }
  }

  lemma VerdictsMore(checks: seq<Check>, i: nat, spans: Spans, verdicts: seq<Verdict>,
                     all: Result<seq<Verdict>, Failure>)
    requires i < |checks| && all == After(verdicts, Verdicts(checks[i..], spans)) && checks[i].pointer in spans
    ensures all == After(verdicts + [VerdictOf(checks[i], spans[checks[i].pointer])], Verdicts(checks[i + 1..], spans))
  {
    assert checks[i..][1..] == checks[i + 1..];
    var rest := Verdicts(checks[i + 1..], spans);
    var verdict := VerdictOf(checks[i], spans[checks[i].pointer]);
    assert rest.Ok? ==> verdicts + ([verdict] + rest.value) == verdicts + [verdict] + rest.value;
  }

  function After(verdicts: seq<Verdict>, rest: Result<seq<Verdict>, Failure>): Result<seq<Verdict>, Failure> {
    match rest
    case Err(error) => Err(error)
    case Ok(more) => Ok(verdicts + more)
  }

  /** Judges each expectation in turn; on an error nothing is counted. */
  method Judge(checks: seq<Check>, spans: Spans) returns (r: Result<seq<Verdict>, Failure>, counts: Counts)
    ensures r == Verdicts(checks, spans)
    ensures counts == if r.Ok? then Tally(r.value) else Counts(0, 0, 0, 0)
  {
    var verdicts: seq<Verdict> := [];
    counts := Counts(0, 0, 0, 0);
    ghost var all := Verdicts(checks, spans);
    assert checks[0..] == checks && (all.Ok? ==> verdicts + all.value == all.value);
    for i := 0 to |checks|
      invariant counts == Tally(verdicts) && all == After(verdicts, Verdicts(checks[i..], spans))
    {
      if checks[i].pointer !in spans {
        return Err(NoSuchLeaf), Counts(0, 0, 0, 0);
      }
      VerdictsMore(checks, i, spans, verdicts, all);
      var verdict := JudgeOne(checks[i], spans[checks[i].pointer]);
      assert (verdicts + [verdict])[..|verdicts|] == verdicts;
      verdicts := verdicts + [verdict];
      counts := match verdict
        case TP => counts.(tp := counts.tp + 1)
        case FN => counts.(fn := counts.fn + 1)
        case FP => counts.(fp := counts.fp + 1)
        case TN => counts.(tn := counts.tn + 1);
    }
    assert verdicts + [] == verdicts;
    return Ok(verdicts), counts;
  }

  method Score(input: Json, output: Json, checks: seq<Check>, mappings: Mappings, matcher: Matcher)
    returns (r: Result<Scored, Failure>, counts: Counts)
    requires forall text :: Successive(matcher(text), 0, |text|)
    ensures r == ScoreOf(input, output, checks, mappings, matcher)
    ensures counts == if r.Ok? then Tally(r.value.verdicts) else Counts(0, 0, 0, 0)
  {
    if !SameShape(input, output) {
      return Err(StructureChanged), Counts(0, 0, 0, 0);
    }
    var before, after := Leaves(input, []), Leaves(output, []);
    var done := Alignment(map[], []);
    ghost var all := AlignLeaves(before, after, mappings, matcher, done);
    for i := 0 to |before|
      invariant all == AlignLeaves(before[i..], after, mappings, matcher, done)
    {
      DropMore(before, i);
      var now := LeafAt(after, before[i].path);
      if now.None? {
        return Err(NoSuchLeaf), Counts(0, 0, 0, 0);
      }
      if before[i].value.Str? {
        if !now.value.Str? {
          return Err(StructureChanged), Counts(0, 0, 0, 0);
        }
        var spans := ProtectedRanges(before[i].value.text, now.value.text, mappings, matcher(now.value.text));
        if spans.Err? {
          return Err(spans.error), Counts(0, 0, 0, 0);
        }
        done := done.(spans := done.spans[before[i].path := spans.value]);
      } else if now.value != before[i].value {
        done := done.(changed := done.changed + [before[i].path]);
      }
    }
    var judged;
    judged, counts := Judge(checks, done.spans);
    r := if judged.Ok? then Ok(Scored(judged.value, done.changed)) else Err(judged.error);
  }
}
