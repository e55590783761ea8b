/** Replacing exactly the protected ranges scores as exactly that. */
module ScoringProofs {
  import opened Wrappers
  import opened Pointer
  import opened PointerProofs
  import opened Ranges
  import opened Secret
  import opened Sequences
  import opened Scoring

  // ---- Alignment ---------------------------------------------------------------------------

  /** What stands in the output for the range of a protected check. */
  type Token = Check -> string

  function Shown(text: string, check: Check, token: Token): string
    requires Valid(check, |text|)
  {
    if check.protect then token(check) else text[check.range.start..check.range.end]
  }

  predicate AllValid(checks: seq<Check>, length: int) {
    forall k | 0 <= k < |checks| :: Valid(checks[k], length)
  }

  /** The text with each protected range replaced by its token. */
  function Redacted(text: string, checks: seq<Check>, token: Token): string
    requires AllValid(checks, |text|)
  {
    if checks == [] then [] else Shown(text, checks[0], token) + Redacted(text, checks[1..], token)
  }

  /** Where the tokens stand in an output whose checks are written from `at` on. */
  function TokenRanges(text: string, checks: seq<Check>, token: Token, at: int): seq<Range>
    requires AllValid(checks, |text|)
  {
    if checks == [] then []
    else
      var end := at + |Shown(text, checks[0], token)|;
      (if checks[0].protect then [Range(at, end)] else []) + TokenRanges(text, checks[1..], token, end)
  }

  /** Every token recovers the text it stands for. */
  predicate Recoverable(text: string, checks: seq<Check>, token: Token, mappings: Mappings)
    requires AllValid(checks, |text|)
  {
    forall k | 0 <= k < |checks| && checks[k].protect ::
      token(checks[k]) in mappings && mappings[token(checks[k])] == text[checks[k].range.start..checks[k].range.end]
  }

  lemma {:induction false} TokensSucceed(text: string, checks: seq<Check>, token: Token, cursor: int, at: int)
    requires AllValid(checks, |text|) && cursor <= at
    ensures Successive(TokenRanges(text, checks, token, at), cursor, at + |Redacted(text, checks, token)|)
  {
    if checks != [] {
      var end := at + |Shown(text, checks[0], token)|;
      if checks[0].protect {
        TokensSucceed(text, checks[1..], token, end, end);
        var rest := TokenRanges(text, checks[1..], token, end);
        assert ([Range(at, end)] + rest)[1..] == rest;
      } else {
        TokensSucceed(text, checks[1..], token, cursor, end);
        assert [] + TokenRanges(text, checks[1..], token, end) == TokenRanges(text, checks[1..], token, end);
      }
    }
  }

  /**
   Recovery, from the middle of a redacted output: `output[cursor..at]` is kept text not yet
   recovered, and from `at` on the output shows the remaining checks.
   */
  lemma {:induction false} RecoverRedacted(text: string, checks: seq<Check>, token: Token, mappings: Mappings,
                                           output: string, cursor: int, offset: int, at: int, from: int)
    requires AllValid(checks, |text|) && TilesFrom(checks, from, |text|) && Recoverable(text, checks, token, mappings)
    requires 0 <= cursor <= at <= |output| && output[at..] == Redacted(text, checks, token)
    requires 0 <= offset <= from <= |text| && output[cursor..at] == text[offset..from]
    ensures Successive(TokenRanges(text, checks, token, at), cursor, |output|)
    ensures Recover(output, cursor, offset, TokenRanges(text, checks, token, at), mappings)
         == Ok(Recovery(text[offset..], Protects(checks)))
    decreases |checks|, 1
  {
    TokensSucceed(text, checks, token, cursor, at);
    if checks == [] {
      RecoverEnd(text, output, cursor, offset, at, from);
    } else {
      ShownFirst(text, checks, token, output, at);
      if checks[0].protect {
        RecoverToken(text, checks, token, mappings, output, cursor, offset, at, from);
      } else {
        RecoverKept(text, checks, token, mappings, output, cursor, offset, at, from);
      }
    }
  }

  lemma RecoverEnd(text: string, output: string, cursor: int, offset: int, at: int, from: int)
    requires 0 <= cursor <= at <= |output| && output[at..] == [] && 0 <= offset <= from == |text|
    requires output[cursor..at] == text[offset..from]
    ensures output[cursor..] == text[offset..]
  {
    assert at == |output|;
  }

  lemma ShownFirst(text: string, checks: seq<Check>, token: Token, output: string, at: int)
    requires checks != [] && AllValid(checks, |text|)
    requires 0 <= at <= |output| && output[at..] == Redacted(text, checks, token)
    ensures var end := at + |Shown(text, checks[0], token)|;
            && end <= |output| && output[at..end] == Shown(text, checks[0], token)
            && output[end..] == Redacted(text, checks[1..], token)
  {
    var shown := Shown(text, checks[0], token);
    assert output[at..][..|shown|] == shown && output[at..][|shown|..] == Redacted(text, checks[1..], token);
  }

  lemma {:induction false} RecoverKept(text: string, checks: seq<Check>, token: Token, mappings: Mappings,
                                       output: string, cursor: int, offset: int, at: int, from: int)
    requires checks != [] && !checks[0].protect
    requires AllValid(checks, |text|) && TilesFrom(checks, from, |text|) && Recoverable(text, checks, token, mappings)
    requires 0 <= cursor <= at <= |output| && 0 <= offset <= from <= |text| && output[cursor..at] == text[offset..from]
    requires var end := at + |Shown(text, checks[0], token)|;
             && end <= |output| && output[at..end] == Shown(text, checks[0], token)
             && output[end..] == Redacted(text, checks[1..], token)
    ensures Successive(TokenRanges(text, checks, token, at), cursor, |output|)
    ensures Recover(output, cursor, offset, TokenRanges(text, checks, token, at), mappings)
         == Ok(Recovery(text[offset..], Protects(checks)))
    decreases |checks|, 0
  {
    var later, rest := checks[0].range.end, checks[1..];
    var end := at + |Shown(text, checks[0], token)|;
    Adjoin(output, cursor, at, end);
    Adjoin(text, offset, from, later);
    RecoverRedacted(text, rest, token, mappings, output, cursor, offset, end, later);
    assert TokenRanges(text, checks, token, at) == TokenRanges(text, rest, token, end);
    assert Protects(checks) == Protects(rest);
  }

  lemma {:induction false} RecoverToken(text: string, checks: seq<Check>, token: Token, mappings: Mappings,
                                        output: string, cursor: int, offset: int, at: int, from: int)
    requires checks != [] && checks[0].protect
    requires AllValid(checks, |text|) && TilesFrom(checks, from, |text|) && Recoverable(text, checks, token, mappings)
    requires 0 <= cursor <= at <= |output| && 0 <= offset <= from <= |text| && output[cursor..at] == text[offset..from]
    requires var end := at + |token(checks[0])|;
             end <= |output| && output[at..end] == token(checks[0])
                 && output[end..] == Redacted(text, checks[1..], token)
    ensures Successive(TokenRanges(text, checks, token, at), cursor, |output|)
    ensures Recover(output, cursor, offset, TokenRanges(text, checks, token, at), mappings)
         == Ok(Recovery(text[offset..], Protects(checks)))
    decreases |checks|, 0
  {
    var first, rest := checks[0], checks[1..];
    var end := at + |token(first)|;
    var later := first.range.end;
    TokenFits(text, checks, token, mappings, from);
    TokenFirst(text, checks, token, mappings, at, from);
    NothingBetween(text, output, end, later);
    RecoverRedacted(text, rest, token, mappings, output, end, later, end, later);
    RecoverBehind(text, output, cursor, offset, Range(at, end), TokenRanges(text, rest, token, end), mappings,
                  from, later, Protects(rest));
  }

  /** The first token maps to the text it stands for. */
  lemma TokenFits(text: string, checks: seq<Check>, token: Token, mappings: Mappings, from: int)
    requires checks != [] && checks[0].protect
    requires AllValid(checks, |text|) && TilesFrom(checks, from, |text|) && Recoverable(text, checks, token, mappings)
    ensures checks[0].range.start == from && 0 <= from <= checks[0].range.end <= |text|
    ensures token(checks[0]) in mappings && mappings[token(checks[0])] == text[from..checks[0].range.end]
  {
  }

  /** What follows the first token, and the range it takes. */
  lemma TokenFirst(text: string, checks: seq<Check>, token: Token, mappings: Mappings, at: int, from: int)
    requires checks != [] && checks[0].protect
    requires AllValid(checks, |text|) && TilesFrom(checks, from, |text|) && Recoverable(text, checks, token, mappings)
    ensures var rest, end := checks[1..], at + |token(checks[0])|;
            AllValid(rest, |text|) && TilesFrom(rest, checks[0].range.end, |text|)
                && Recoverable(text, rest, token, mappings)
    ensures var rest, end := checks[1..], at + |token(checks[0])|;
            && TokenRanges(text, checks, token, at) == [Range(at, end)] + TokenRanges(text, rest, token, end)
            && Protects(checks) == [checks[0].range] + Protects(rest)
  {
    RestFits(text, checks, token, mappings, from);
  }

  lemma RestFits(text: string, checks: seq<Check>, token: Token, mappings: Mappings, from: int)
    requires checks != []
    requires AllValid(checks, |text|) && TilesFrom(checks, from, |text|) && Recoverable(text, checks, token, mappings)
    ensures var rest := checks[1..];
            AllValid(rest, |text|) && TilesFrom(rest, checks[0].range.end, |text|)
                && Recoverable(text, rest, token, mappings)
  {
  }

  lemma NothingBetween(text: string, output: string, end: int, later: int)
    requires 0 <= end <= |output| && 0 <= later <= |text|
    ensures output[end..end] == text[later..later]
  {
  }

  /** Kept text and one token, in front of a rest that recovers. */
  lemma RecoverBehind(text: string, output: string, cursor: int, offset: int, one: Range, rest: seq<Range>,
                      mappings: Mappings, from: int, later: int, spans: seq<Range>)
    requires 0 <= cursor <= one.start <= one.end <= |output| && Successive(rest, one.end, |output|)
    requires output[one.start..one.end] in mappings && 0 <= offset <= from <= later <= |text|
    requires output[cursor..one.start] == text[offset..from]
    requires mappings[output[one.start..one.end]] == text[from..later]
    requires Recover(output, one.end, later, rest, mappings) == Ok(Recovery(text[later..], spans))
    ensures Successive([one] + rest, cursor, |output|)
    ensures Recover(output, cursor, offset, [one] + rest, mappings)
         == Ok(Recovery(text[offset..], [Range(from, later)] + spans))
  {
    RecoverOne(output, cursor, offset, one, rest, mappings);
    Known(text, offset, from, later, Range(from, later), spans);
  }

  /** Kept text and a mapped value, in front of the recovered rest. */
  lemma Known(text: string, offset: int, from: int, later: int, range: Range, rest: seq<Range>)
    requires 0 <= offset <= from <= later <= |text|
    ensures Before(text[offset..from] + text[from..later], [range], Ok(Recovery(text[later..], rest)))
         == Ok(Recovery(text[offset..], [range] + rest))
  {
    Adjoin(text, offset, from, later);
    Adjoin(text, offset, later, |text|);
  }

  lemma RecoverOne(output: string, cursor: int, offset: int, one: Range, rest: seq<Range>, mappings: Mappings)
    requires 0 <= cursor <= one.start <= one.end <= |output| && Successive(rest, one.end, |output|)
    requires output[one.start..one.end] in mappings
    ensures Successive([one] + rest, cursor, |output|)
    ensures var literal, value := output[cursor..one.start], mappings[output[one.start..one.end]];
            var start := offset + |literal|;
            Recover(output, cursor, offset, [one] + rest, mappings)
            == Before(literal + value, [Range(start, start + |value|)],
                      Recover(output, one.end, start + |value|, rest, mappings))
  {
    assert ([one] + rest)[1..] == rest;
  }

  /** Alignment of a redacted text gives back exactly the protected ranges. */
  lemma AlignRedacted(text: string, checks: seq<Check>, token: Token, mappings: Mappings)
    requires AllValid(checks, |text|) && TilesFrom(checks, 0, |text|) && Recoverable(text, checks, token, mappings)
    ensures Successive(TokenRanges(text, checks, token, 0), 0, |Redacted(text, checks, token)|)
    ensures Aligned(text, Redacted(text, checks, token), mappings, TokenRanges(text, checks, token, 0))
        == Ok(Protects(checks))
  {
    var output := Redacted(text, checks, token);
    RecoverRedacted(text, checks, token, mappings, output, 0, 0, 0, 0);
    assert text[0..] == text;
  }

  /** The range of the recovered text that a match stands for. */
  ghost predicate Explains(recovered: Recovery, offset: int, output: string, match': Range, i: nat, mappings: Mappings)
    requires i < |recovered.spans|
  {
    var span := recovered.spans[i];
    && 0 <= match'.start <= match'.end <= |output| && output[match'.start..match'.end] in mappings
    && offset <= span.start <= span.end <= offset + |recovered.text|
    && recovered.text[span.start - offset..span.end - offset] == mappings[output[match'.start..match'.end]]
  }

  /** The first match, and the recovery of what follows it. */
  lemma RecoverFirst(output: string, cursor: int, offset: int, matches: seq<Range>, mappings: Mappings)
    returns (literal: string, value: string, rest: Recovery)
    requires 0 <= cursor && Successive(matches, cursor, |output|) && matches != []
    requires Recover(output, cursor, offset, matches, mappings).Ok?
    ensures literal == output[cursor..matches[0].start]
    ensures output[matches[0].start..matches[0].end] in mappings
        && value == mappings[output[matches[0].start..matches[0].end]]
    ensures Recover(output, matches[0].end, offset + |literal| + |value|, matches[1..], mappings) == Ok(rest)
    ensures Recover(output, cursor, offset, matches, mappings).value
         == Recovery(literal + value + rest.text,
                     [Range(offset + |literal|, offset + |literal| + |value|)] + rest.spans)
  {
    literal, value := output[cursor..matches[0].start], mappings[output[matches[0].start..matches[0].end]];
    rest := Recover(output, matches[0].end, offset + |literal| + |value|, matches[1..], mappings).value;
  }

  /** Any alignment that is accepted explains every match by the text it hides, in order. */
  lemma {:induction false} RecoveryExplains(output: string, cursor: int, offset: int, matches: seq<Range>,
                                            mappings: Mappings, all: Recovery, i: nat)
    requires 0 <= cursor && Successive(matches, cursor, |output|) && i < |matches|
    requires Recover(output, cursor, offset, matches, mappings) == Ok(all)
    ensures i < |all.spans| && Explains(all, offset, output, matches[i], i, mappings)
    decreases |matches|
  {
    var literal, value, rest := RecoverFirst(output, cursor, offset, matches, mappings);
    var end := offset + |literal| + |value|;
    var one := Range(offset + |literal|, end);
    assert all == Recovery(literal + value + rest.text, [one] + rest.spans);
    if i == 0 {
      ExplainsFirst(literal, value, rest, offset, output, matches[0], mappings);
    } else {
      var later := matches[1..];
      RecoveryExplains(output, matches[0].end, end, later, mappings, rest, i - 1);
      LaterExplained(literal, value, one, rest, all, offset, end, output, later[i - 1], i - 1, mappings);
      assert later[i - 1] == matches[i];
    }
  }

  lemma LaterExplained(literal: string, value: string, one: Range, rest: Recovery, all: Recovery, offset: int, end: int,
                       output: string, match': Range, i: nat, mappings: Mappings)
    requires all == Recovery(literal + value + rest.text, [one] + rest.spans) && end == offset + |literal| + |value|
    requires i < |rest.spans| && Explains(rest, end, output, match', i, mappings)
    ensures i + 1 < |all.spans| && Explains(all, offset, output, match', i + 1, mappings)
  {
    ExplainsLater(literal + value, [one], rest, offset, output, match', i, mappings);
  }

  lemma ExplainsFirst(literal: string, value: string, rest: Recovery, offset: int, output: string, match': Range,
                      mappings: Mappings)
    requires 0 <= match'.start <= match'.end <= |output| && output[match'.start..match'.end] in mappings
    requires mappings[output[match'.start..match'.end]] == value
    ensures var start := offset + |literal|;
            Explains(Recovery(literal + value + rest.text, [Range(start, start + |value|)] + rest.spans), offset,
                     output, match', 0, mappings)
  {
    LaterPart(literal, value + rest.text, 0, |value|);
    Associates(literal, value, rest.text);
  }

  /** What the rest explains, it explains behind more text. */
  lemma ExplainsLater(text: string, spans: seq<Range>, rest: Recovery, offset: int, output: string, match': Range,
                      i: nat, mappings: Mappings)
    requires |spans| == 1 && i < |rest.spans| && Explains(rest, offset + |text|, output, match', i, mappings)
    ensures Explains(Recovery(text + rest.text, spans + rest.spans), offset, output, match', i + 1, mappings)
  {
    var span := rest.spans[i];
    LaterPart(text, rest.text, span.start - offset - |text|, span.end - offset - |text|);
  }

  // ---- What an accepted alignment says of the output ---------------------------------------

  /** The text from `from` on, with ranges of it replaced in order. */
  function Replaced(text: string, from: int, spans: seq<Range>, tokens: seq<string>): string
    requires 0 <= from && Successive(spans, from, |text|) && |tokens| == |spans|
    decreases |spans|
  {
    if spans == [] then text[from..]
    else text[from..spans[0].start] + tokens[0] + Replaced(text, spans[0].end, spans[1..], tokens[1..])
  }

  /** The text of each match, from matches inside the output. */
  function TokensOf(output: string, cursor: int, matches: seq<Range>): (tokens: seq<string>)
    requires 0 <= cursor && Successive(matches, cursor, |output|)
    ensures |tokens| == |matches|
    decreases |matches|
  {
    if matches == [] then []
    else [output[matches[0].start..matches[0].end]] + TokensOf(output, matches[0].end, matches[1..])
  }

  lemma {:induction false} RecoveryReplaces(text: string, output: string, cursor: int, offset: int, matches: seq<Range>,
                                            mappings: Mappings, all: Recovery)
    requires 0 <= cursor && Successive(matches, cursor, |output|) && 0 <= offset <= |text|
    requires Recover(output, cursor, offset, matches, mappings) == Ok(all) && text[offset..] == all.text
    ensures |all.spans| == |matches| && Successive(all.spans, offset, |text|)
    ensures output[cursor..] == Replaced(text, offset, all.spans, TokensOf(output, cursor, matches))
    decreases |matches|
  {
    if matches != [] {
      var literal, value, rest := RecoverFirst(output, cursor, offset, matches, mappings);
      var start := offset + |literal|;
      RecoveredParts(text, offset, literal, value, rest.text);
      RecoveryReplaces(text, output, matches[0].end, start + |value|, matches[1..], mappings, rest);
      ReplacesFirst(text, output, cursor, offset, matches[0], literal, value, rest.spans,
                    TokensOf(output, matches[0].end, matches[1..]));
    }
  }

  /** One literal and one token, in front of what shows the rest. */
  lemma ReplacesFirst(text: string, output: string, cursor: int, offset: int, one: Range, literal: string,
                      value: string, spans: seq<Range>, later: seq<string>)
    requires 0 <= cursor <= one.start <= one.end <= |output| && literal == output[cursor..one.start]
    requires 0 <= offset && offset + |literal| + |value| <= |text| && text[offset..offset + |literal|] == literal
    requires Successive(spans, offset + |literal| + |value|, |text|) && |later| == |spans|
    requires output[one.end..] == Replaced(text, offset + |literal| + |value|, spans, later)
    ensures var span := Range(offset + |literal|, offset + |literal| + |value|);
            && Successive([span] + spans, offset, |text|)
            && output[cursor..] == Replaced(text, offset, [span] + spans, [output[one.start..one.end]] + later)
  {
    ReplacedFirst(text, offset, Range(offset + |literal|, offset + |literal| + |value|), spans,
                  output[one.start..one.end], later);
    OutputParts(output, cursor, one);
  }

  lemma RecoveredParts(text: string, offset: int, literal: string, value: string, rest: string)
    requires 0 <= offset <= |text| && text[offset..] == literal + value + rest
    ensures offset + |literal| + |value| <= |text| && text[offset..offset + |literal|] == literal
    ensures text[offset + |literal| + |value|..] == rest
  {
    assert |text[offset..]| == |literal| + |value| + |rest|;
    assert text[offset..][..|literal|] == literal && text[offset..][|literal| + |value|..] == rest;
  }

  lemma OutputParts(output: string, cursor: int, one: Range)
    requires 0 <= cursor <= one.start <= one.end <= |output|
    ensures output[cursor..] == output[cursor..one.start] + output[one.start..one.end] + output[one.end..]
  {
  }

  lemma ReplacedFirst(text: string, from: int, one: Range, rest: seq<Range>, token: string, later: seq<string>)
    requires 0 <= from <= one.start <= one.end <= |text| && Successive(rest, one.end, |text|) && |later| == |rest|
    ensures Successive([one] + rest, from, |text|)
    ensures Replaced(text, from, [one] + rest, [token] + later)
         == text[from..one.start] + token + Replaced(text, one.end, rest, later)
  {
    ConsTail(one, rest);
    ConsTail(token, later);
  }

  /** An output that aligns is the original with exactly the reported ranges replaced, by the tokens matched. */
  lemma AlignedIsReplaced(original: string, output: string, mappings: Mappings, matches: seq<Range>, spans: seq<Range>)
    requires Successive(matches, 0, |output|) && Aligned(original, output, mappings, matches) == Ok(spans)
    ensures |spans| == |matches| && Successive(spans, 0, |original|)
    ensures output == Replaced(original, 0, spans, TokensOf(output, 0, matches))
  {
    var all := Recover(output, 0, 0, matches, mappings).value;
    NothingMore(original);
    NothingMore(output);
    RecoveryReplaces(original, output, 0, 0, matches, mappings, all);
  }

  /** What no replaced range touches stands in the result as it was. */
  lemma {:induction false} UntouchedStands(text: string, from: int, spans: seq<Range>, tokens: seq<string>, kept: Range)
    returns (at: int)
    requires 0 <= from && Successive(spans, from, |text|) && |tokens| == |spans|
    requires from <= kept.start <= kept.end <= |text| && !Overlaps(kept.start, kept.end, spans)
    ensures var result, size := Replaced(text, from, spans, tokens), kept.end - kept.start;
            0 <= at <= at + size <= |result| && result[at..at + size] == text[kept.start..kept.end]
    decreases |spans|
  {
    if spans == [] {
      at := kept.start - from;
      assert text[from..][at..at + kept.end - kept.start] == text[kept.start..kept.end];
    } else if kept.end <= spans[0].start {
      at := kept.start - from;
      SliceBefore(text, from, spans[0].start, kept,
                  tokens[0] + Replaced(text, spans[0].end, spans[1..], tokens[1..]));
      Associates(text[from..spans[0].start], tokens[0], Replaced(text, spans[0].end, spans[1..], tokens[1..]));
    } else {
      assert !(spans[0].start < kept.end && kept.start < spans[0].end);
      assert forall i | 0 <= i < |spans| - 1 :: spans[1..][i] == spans[i + 1];
      var front := text[from..spans[0].start] + tokens[0];
      var later := UntouchedStands(text, spans[0].end, spans[1..], tokens[1..], kept);
      at := |front| + later;
      LaterPart(front, Replaced(text, spans[0].end, spans[1..], tokens[1..]), later, later + kept.end - kept.start);
    }
  }

  lemma SliceBefore(text: string, from: int, end: int, kept: Range, more: string)
    requires 0 <= from <= kept.start <= kept.end <= end <= |text|
    ensures (text[from..end] + more)[kept.start - from..kept.end - from] == text[kept.start..kept.end]
  {
    var slice, i, j := text[from..end], kept.start - from, kept.end - from;
    assert (slice + more)[i..j] == slice[i..j];
    assert forall k | i <= k < j :: slice[k] == text[from + k];
    assert slice[i..j] == text[from + i..from + j];
  }

  /** A range to keep that is judged a true negative stands verbatim in the output. */
  lemma TrueNegativeStands(original: string, output: string, mappings: Mappings, matches: seq<Range>,
                           spans: seq<Range>, check: Check) returns (at: int)
    requires Successive(matches, 0, |output|) && Aligned(original, output, mappings, matches) == Ok(spans)
    requires Valid(check, |original|) && VerdictOf(check, spans) == TN
    ensures var size := check.range.end - check.range.start;
            && 0 <= at <= at + size <= |output|
            && output[at..at + size] == original[check.range.start..check.range.end]
  {
    AlignedIsReplaced(original, output, mappings, matches, spans);
    at := UntouchedStands(original, 0, spans, TokensOf(output, 0, matches), check.range);
  }

  // ---- Verdicts ----------------------------------------------------------------------------

  lemma {:induction false} ProtectsIndex(checks: seq<Check>, k: nat) returns (m: nat)
    requires k < |checks| && checks[k].protect
    ensures m < |Protects(checks)| && Protects(checks)[m] == checks[k].range
  {
    if k == 0 {
      return 0;
    }
    m := ProtectsIndex(checks[1..], k - 1);
    if checks[0].protect {
      m := m + 1;
    }
  }

  lemma {:induction false} ProtectsFrom(checks: seq<Check>, m: nat) returns (k: nat)
    requires m < |Protects(checks)|
    ensures k < |checks| && checks[k].protect && checks[k].range == Protects(checks)[m]
  {
    if checks[0].protect && m == 0 {
      return 0;
    }
    k := ProtectsFrom(checks[1..], if checks[0].protect then m - 1 else m);
    k := k + 1;
  }

  lemma {:induction false} TilesApart(checks: seq<Check>, from: int, length: int, i: nat, j: nat)
    requires TilesFrom(checks, from, length) && AllValid(checks, length) && i < j < |checks|
    ensures checks[i].range.end <= checks[j].range.start
  {
    if i > 0 {
      TilesApart(checks[1..], checks[0].range.end, length, i - 1, j - 1);
    } else {
      assert TilesFrom(checks[1..], checks[0].range.end, length);
      TilesOrdered(checks[1..], checks[0].range.end, length);
      assert checks[j] == checks[1..][j - 1];
    }
  }

  /** Against the protected ranges themselves, every expectation of a partition is met. */
  lemma PartitionIsMet(checks: seq<Check>, length: int, k: nat)
    requires TilesFrom(checks, 0, length) && AllValid(checks, length) && k < |checks|
    ensures VerdictOf(checks[k], Protects(checks)) == if checks[k].protect then TP else TN
  {
    var spans, range := Protects(checks), checks[k].range;
    if checks[k].protect {
      var m := ProtectsIndex(checks, k);
      forall pos | range.start <= pos < range.end ensures Inside(spans, pos) {
        assert Holds(spans[m], pos);
      }
    } else {
      forall m | 0 <= m < |spans| ensures !(spans[m].start < range.end && range.start < spans[m].end) {
        var j := ProtectsFrom(checks, m);
        if j < k {
          TilesApart(checks, 0, length, j, k);
        } else {
          TilesApart(checks, 0, length, k, j);
        }
      }
    }
  }

  lemma {:induction false} VerdictsAre(checks: seq<Check>, spans: Spans)
    requires forall k | 0 <= k < |checks| :: checks[k].pointer in spans
    ensures Verdicts(checks, spans).Ok?
    ensures var verdicts := Verdicts(checks, spans).value;
            && |verdicts| == |checks|
            && forall k | 0 <= k < |checks| :: verdicts[k] == VerdictOf(checks[k], spans[checks[k].pointer])
  {
    if checks != [] {
      VerdictsAre(checks[1..], spans);
    }
  }

  // ---- End to end --------------------------------------------------------------------------

  /** The output shows this leaf with exactly its protected ranges replaced, and no other token matches. */
  ghost predicate Shows(leaf: Leaf, after: seq<Leaf>, checks: seq<Check>, token: Token, mappings: Mappings,
                        matcher: Matcher)
  {
    if leaf.value.Str? then
      var text, own := leaf.value.text, ChecksAt(checks, leaf.path);
      && AllValid(own, |text|) && Recoverable(text, own, token, mappings)
      && LeafAt(after, leaf.path) == Some(Str(Redacted(text, own, token)))
      && matcher(Redacted(text, own, token)) == TokenRanges(text, own, token, 0)
    else LeafAt(after, leaf.path) == Some(leaf.value)
  }

  /** The spans found for one leaf are its protected ranges. */
  lemma ShownAligns(leaf: Leaf, after: seq<Leaf>, checks: seq<Check>, token: Token, mappings: Mappings,
                    matcher: Matcher)
    requires leaf.value.Str? && Shows(leaf, after, checks, token, mappings, matcher)
    requires TilesFrom(ChecksAt(checks, leaf.path), 0, |leaf.value.text|)
    ensures LeafAt(after, leaf.path).Some? && LeafAt(after, leaf.path).value.Str?
    ensures var now := LeafAt(after, leaf.path).value.text;
            Successive(matcher(now), 0, |now|)
            && Aligned(leaf.value.text, now, mappings, matcher(now)) == Ok(Protects(ChecksAt(checks, leaf.path)))
  {
    AlignRedacted(leaf.value.text, ChecksAt(checks, leaf.path), token, mappings);
  }

  /** The spans recorded for the string leaves among the first are their protected ranges. */
  ghost predicate Recorded(leaves: seq<Leaf>, checks: seq<Check>, spans: Spans) {
    forall k | 0 <= k < |leaves| && leaves[k].value.Str? ::
      leaves[k].path in spans && spans[leaves[k].path] == Protects(ChecksAt(checks, leaves[k].path))
  }

  predicate LeafChecks(checks: seq<Check>, leaf: Leaf)
    requires leaf.value.Str?
  {
    TilesFrom(ChecksAt(checks, leaf.path), 0, |leaf.value.text|)
        && AllValid(ChecksAt(checks, leaf.path), |leaf.value.text|)
  }

  lemma RecordMore(leaves: seq<Leaf>, k: nat, checks: seq<Check>, spans: Spans)
    requires k < |leaves| && DistinctPaths(leaves) && Recorded(leaves[..k], checks, spans)
    ensures if leaves[k].value.Str?
            then Recorded(leaves[..k + 1], checks, spans[leaves[k].path := Protects(ChecksAt(checks, leaves[k].path))])
            else Recorded(leaves[..k + 1], checks, spans)
  {
    forall i | 0 <= i < k ensures leaves[..k][i] == leaves[..k + 1][i] && leaves[i].path != leaves[k].path {
    }
  }

  ghost predicate AllShown(leaves: seq<Leaf>, after: seq<Leaf>, checks: seq<Check>, token: Token, mappings: Mappings,
                           matcher: Matcher)
  {
    forall i | 0 <= i < |leaves| ::
      Shows(leaves[i], after, checks, token, mappings, matcher)
          && (leaves[i].value.Str? ==> LeafChecks(checks, leaves[i]))
  }

  lemma AlignOne(leaves: seq<Leaf>, k: nat, after: seq<Leaf>, checks: seq<Check>, token: Token, mappings: Mappings,
                 matcher: Matcher, done: Alignment)
    requires forall text :: Successive(matcher(text), 0, |text|)
    requires k < |leaves| && AllShown(leaves, after, checks, token, mappings, matcher)
    ensures AlignLeaves(leaves[k..], after, mappings, matcher, done)
         == AlignLeaves(leaves[k + 1..], after, mappings, matcher,
                        if leaves[k].value.Str?
                        then done.(spans := done.spans[leaves[k].path := Protects(ChecksAt(checks, leaves[k].path))])
                        else done)
  {
    assert leaves[k..][1..] == leaves[k + 1..];
    assert Shows(leaves[k], after, checks, token, mappings, matcher);
    if leaves[k].value.Str? {
      assert LeafChecks(checks, leaves[k]);
      ShownAligns(leaves[k], after, checks, token, mappings, matcher);
    }
  }

  lemma {:induction false} AlignAll(leaves: seq<Leaf>, k: nat, after: seq<Leaf>, checks: seq<Check>, token: Token,
                                    mappings: Mappings, matcher: Matcher, done: Alignment)
    requires forall text :: Successive(matcher(text), 0, |text|)
    requires k <= |leaves| && Recorded(leaves[..k], checks, done.spans) && DistinctPaths(leaves)
    requires AllShown(leaves, after, checks, token, mappings, matcher)
    ensures AlignLeaves(leaves[k..], after, mappings, matcher, done).Ok?
    ensures var aligned := AlignLeaves(leaves[k..], after, mappings, matcher, done).value;
            Recorded(leaves, checks, aligned.spans) && aligned.changed == done.changed
    decreases |leaves| - k
  {
    if k < |leaves| {
      AlignOne(leaves, k, after, checks, token, mappings, matcher, done);
      RecordMore(leaves, k, checks, done.spans);
      AlignAll(leaves, k + 1, after, checks, token, mappings, matcher,
               if leaves[k].value.Str?
               then done.(spans := done.spans[leaves[k].path := Protects(ChecksAt(checks, leaves[k].path))]) else done);
    } else {
      assert leaves[..k] == leaves;
    }
  }

  lemma StringChecksOf(pointer: string, text: string, selections: seq<Selection>)
    requires StringChecks(pointer, text, selections).Ok?
    ensures Of(StringChecks(pointer, text, selections).value, pointer)
  {
    StringChecksTile(pointer, text, selections);
  }

  /** Every check belongs to some string. */
  /** A check is of one of the strings. */
  predicate Belongs(leaves: seq<Leaf>, check: Check) {
    exists k | 0 <= k < |leaves| :: leaves[k].value.Str? && leaves[k].path == check.pointer
  }

  predicate AllBelong(leaves: seq<Leaf>, checks: seq<Check>) {
    forall i | 0 <= i < |checks| :: Belongs(leaves, checks[i])
  }

  lemma {:induction false} ChecksHaveLeaves(leaves: seq<Leaf>, protected: Protected, checks: seq<Check>)
    requires ChecksFrom(leaves, protected) == Ok(checks)
    ensures AllBelong(leaves, checks)
  {
    if checks != [] {
      var first, rest, tail := HeadChecks(leaves, protected, checks);
      ChecksHaveLeaves(tail, protected, rest);
      BelongTogether(leaves, first, rest);
    }
  }

  lemma BelongTogether(leaves: seq<Leaf>, first: seq<Check>, rest: seq<Check>)
    requires leaves != [] && Of(first, leaves[0].path) && (first != [] ==> leaves[0].value.Str?)
    requires AllBelong(leaves[1..], rest)
    ensures AllBelong(leaves, first + rest)
  {
    forall i | 0 <= i < |first + rest| ensures Belongs(leaves, (first + rest)[i]) {
      if i < |first| {
        assert (first + rest)[i] == first[i];
      } else {
        assert Belongs(leaves[1..], rest[i - |first|]);
        var k :| 0 <= k < |leaves| - 1 && leaves[1..][k].value.Str? && leaves[1..][k].path == rest[i - |first|].pointer;
        assert leaves[1..][k] == leaves[k + 1];
      }
    }
  }

  /** The checks of the first leaf, if it is a string, and those of the others. */
  lemma HeadChecks(leaves: seq<Leaf>, protected: Protected, checks: seq<Check>)
    returns (first: seq<Check>, rest: seq<Check>, tail: seq<Leaf>)
    requires ChecksFrom(leaves, protected) == Ok(checks) && checks != []
    ensures leaves != [] && tail == leaves[1..] && ChecksFrom(tail, protected) == Ok(rest)
    ensures checks == first + rest && Of(first, leaves[0].path) && (first != [] ==> leaves[0].value.Str?)
  {
    tail := leaves[1..];
    if leaves[0].value.Str? {
      first, rest := FirstChecks(leaves, protected, checks);
    } else {
      first, rest := [], checks;
      NothingMore(checks);
    }
  }

  /** The checks of the first string, and those of the rest. */
  lemma FirstChecks(leaves: seq<Leaf>, protected: Protected, checks: seq<Check>)
    returns (first: seq<Check>, rest: seq<Check>)
    requires leaves != [] && leaves[0].value.Str? && ChecksFrom(leaves, protected) == Ok(checks)
    ensures checks == first + rest && Of(first, leaves[0].path) && ChecksFrom(leaves[1..], protected) == Ok(rest)
  {
    var path, text := leaves[0].path, leaves[0].value.text;
    StringChecksOf(path, text, SelectionsFor(protected, path));
    first := StringChecks(path, text, SelectionsFor(protected, path)).value;
    rest := ChecksFrom(leaves[1..], protected).value;
  }

  lemma {:induction false} CheckIsAt(checks: seq<Check>, i: nat) returns (k: nat)
    requires i < |checks|
    ensures k < |ChecksAt(checks, checks[i].pointer)| && ChecksAt(checks, checks[i].pointer)[k] == checks[i]
  {
    if i == 0 {
      return 0;
    }
    k := CheckIsAt(checks[1..], i - 1);
    if checks[0].pointer == checks[i].pointer {
      k := k + 1;
    }
  }

  /**
   Scoring is exact. When the output differs from the input by recoverable tokens in exactly the
   protected ranges, and nothing else matches as a token, every range to protect is a true
   positive, every range to keep a true negative, and no other leaf is reported.
   */
  lemma ScoringIsExact(input: Json, protected: Protected, output: Json, token: Token, mappings: Mappings,
                       matcher: Matcher)
    requires Proper(input) && SecretChecks(input, protected).Ok? && SameShape(input, output)
    requires forall text :: Successive(matcher(text), 0, |text|)
    requires forall k | 0 <= k < |Leaves(input, [])| ::
               Shows(Leaves(input, [])[k], Leaves(output, []), SecretChecks(input, protected).value, token, mappings,
                     matcher)
    ensures var checks := SecretChecks(input, protected).value;
            var score := ScoreOf(input, output, checks, mappings, matcher);
            && score.Ok? && score.value.changed == [] && |score.value.verdicts| == |checks|
            && forall i | 0 <= i < |checks| :: score.value.verdicts[i] == if checks[i].protect then TP else TN
  {
    var leaves, checks := Leaves(input, []), SecretChecks(input, protected).value;
    forall j, k | 0 <= j < k < |leaves| ensures leaves[j].path != leaves[k].path {
      PointersAreDistinct(input, j, k);
    }
    forall k | 0 <= k < |leaves| && leaves[k].value.Str?
      ensures LeafChecks(checks, leaves[k])
    {
      ChecksAtLeaf(leaves, protected, k);
      StringChecksTile(leaves[k].path, leaves[k].value.text, SelectionsFor(protected, leaves[k].path));
    }
    AlignAll(leaves, 0, Leaves(output, []), checks, token, mappings, matcher, Alignment(map[], []));
    assert leaves[0..] == leaves;
    var aligned := AlignLeaves(leaves, Leaves(output, []), mappings, matcher, Alignment(map[], [])).value;
    forall i | 0 <= i < |checks|
      ensures checks[i].pointer in aligned.spans
      ensures VerdictOf(checks[i], aligned.spans[checks[i].pointer]) == if checks[i].protect then TP else TN
    {
      CheckIsMet(leaves, checks, protected, aligned.spans, i);
    }
    VerdictsAre(checks, aligned.spans);
  }

  lemma CheckIsMet(leaves: seq<Leaf>, checks: seq<Check>, protected: Protected, spans: Spans, i: nat)
    requires ChecksFrom(leaves, protected) == Ok(checks) && i < |checks| && Recorded(leaves, checks, spans)
    requires forall k | 0 <= k < |leaves| && leaves[k].value.Str? :: LeafChecks(checks, leaves[k])
    ensures checks[i].pointer in spans
    ensures VerdictOf(checks[i], spans[checks[i].pointer]) == if checks[i].protect then TP else TN
  {
    ChecksHaveLeaves(leaves, protected, checks);
    assert Belongs(leaves, checks[i]);
    var k :| 0 <= k < |leaves| && leaves[k].value.Str? && leaves[k].path == checks[i].pointer;
    assert LeafChecks(checks, leaves[k]);
    var own := CheckIsAt(checks, i);
    PartitionIsMet(ChecksAt(checks, checks[i].pointer), |leaves[k].value.text|, own);
  }

  /** The counts then say so. */
  lemma {:induction false} TallyOf(verdicts: seq<Verdict>)
    ensures var c := Tally(verdicts);
            && c.tp + c.fn + c.fp + c.tn == |verdicts|
            && ((forall i | 0 <= i < |verdicts| :: verdicts[i].TP? || verdicts[i].TN?) <==> c.fn == 0 && c.fp == 0)
  {
    if verdicts != [] {
      TallyOf(verdicts[..|verdicts| - 1]);
      assert verdicts == verdicts[..|verdicts| - 1] + [verdicts[|verdicts| - 1]];
    }
  }
}
