/** The names of a carrier in its directory, and reading a header without restoring it. */
module Carriers {
  import opened Wrappers
  import opened Lines
  import opened Sequences

  // ---- Names -------------------------------------------------------------------------------

  predicate EndsWith(name: string, suffix: string) {
    |suffix| <= |name| && name[|name| - |suffix|..] == suffix
  }

  const PLAIN: string := ".jsonl"

  const PACKED: string := ".zst"

  predicate IsCompressed(name: string) {
    EndsWith(name, PLAIN + PACKED)
  }

  function PlainName(name: string): string {
    if IsCompressed(name) then name[..|name| - |PACKED|] else name
  }

  function CompressedName(plain: string): string {
    plain + PACKED
  }

  /** A name that is only its suffix has no extension. */
  predicate HasPlainExtension(name: string) {
    EndsWith(name, PLAIN) && |name| > |PLAIN|
  }

  /** Whether a listing of this directory counts the name. */
  predicate IsCarrier(directory: set<string>, name: string) {
    if IsCompressed(name) then PlainName(name) !in directory else HasPlainExtension(name)
  }

  lemma LastFour(name: string, suffix: string)
    requires EndsWith(name, suffix) && |suffix| > 0
    ensures name[|name| - 1] == suffix[|suffix| - 1]
  {
    assert name[|name| - |suffix|..][|suffix| - 1] == name[|name| - 1];
  }

  /** A plain name and its compressed name lead to each other; nothing else compresses to it. */
  lemma NamesPair(name: string)
    ensures EndsWith(name, PLAIN) <==> IsCompressed(CompressedName(name))
    ensures EndsWith(name, PLAIN)
        ==> PlainName(CompressedName(name)) == name && !IsCompressed(name) && PlainName(name) == name
    ensures IsCompressed(name) ==> CompressedName(PlainName(name)) == name && EndsWith(PlainName(name), PLAIN)
  {
    var packed, suffix := CompressedName(name), PLAIN + PACKED;
    if |name| >= |PLAIN| {
      assert packed[|packed| - |suffix|..] == name[|name| - |PLAIN|..] + PACKED;
      assert packed[|packed| - |suffix|..][..|PLAIN|] == name[|name| - |PLAIN|..];
      assert suffix[..|PLAIN|] == PLAIN;
    }
    if EndsWith(name, PLAIN) {
      assert packed[..|packed| - |PACKED|] == name;
      LastFour(name, PLAIN);
      if IsCompressed(name) {
        LastFour(name, suffix);
      }
    }
    if IsCompressed(name) {
      var cut := |name| - |PACKED|;
      var tail := name[|name| - |suffix|..];
      assert tail[..|PLAIN|] == PLAIN && tail[|PLAIN|..] == PACKED;
      assert name[cut..] == tail[|PLAIN|..] && name[..cut] + name[cut..] == name;
      assert name[..cut][cut - |PLAIN|..] == tail[..|PLAIN|];
    }
  }

  /** One carrier, one entry: a listing counts exactly one of the two names, if either is there. */
  lemma OneEntry(directory: set<string>, plain: string)
    requires HasPlainExtension(plain) && (plain in directory || CompressedName(plain) in directory)
    ensures var counted := set name | name in directory && name in {plain, CompressedName(plain)}
        && IsCarrier(directory, name);
            counted == {if plain in directory then plain else CompressedName(plain)}
  {
    NamesPair(plain);
  }

  // ---- Headers -----------------------------------------------------------------------------

  datatype Failure = NoFrame | Undecodable

  /** A frame of a compressed carrier, as its decoder gives it back. */
  type Frame = Result<Bytes, Failure>

  /** The first line of a text with its newline, read no further than a limit. */
  function Capped(s: Bytes, limit: nat): Bytes {
    if s == [] || limit == 0 then [] else [s[0]] + if s[0] == LF then [] else Capped(s[1..], limit - 1)
  }

  lemma {:induction false} CappedMeans(s: Bytes, limit: nat)
    ensures Capped(s, limit) == s[..if FirstLine(s) <= limit then FirstLine(s) else limit]
  {
    if s != [] && limit > 0 && s[0] != LF {
      CappedMeans(s[1..], limit - 1);
      Uncons(s);
    }
  }

  predicate EndsLine(line: Bytes) {
    line != [] && line[|line| - 1] == LF
  }

  function Header(frames: seq<Frame>, line: Bytes, limit: nat): Result<Bytes, Failure>
    decreases |frames|
  {
    if |line| >= limit || EndsLine(line) then Ok(line)
    else if frames == [] then Err(NoFrame)
    else
      var text :- frames[0];
      var more := line + Capped(text, limit - |line|);
      if EndsLine(more) || |frames| == 1 then Ok(more) else Header(frames[1..], more, limit)
  }

  method FirstLineOf(frames: seq<Frame>, limit: nat) returns (r: Result<Bytes, Failure>)
    ensures r == Header(frames, [], limit)
  {
    var line: Bytes, i := [], 0;
    while |line| < limit && !EndsLine(line)
      invariant i <= |frames| && Header(frames, [], limit) == Header(frames[i..], line, limit)
      decreases |frames| - i
    {
      if i == |frames| {
        return Err(NoFrame);
      }
      if frames[i].Err? {
        return Err(frames[i].error);
      }
      assert frames[i..][1..] == frames[i + 1..];
      line := line + Capped(frames[i].value, limit - |line|);
      i := i + 1;
      if EndsLine(line) || i == |frames| {
        break;
      }
    }
    return Ok(line);
  }

  function Texts(frames: seq<Frame>): Bytes
    requires forall k | 0 <= k < |frames| :: frames[k].Ok?
  {
    if frames == [] then [] else frames[0].value + Texts(frames[1..])
  }

  lemma {:induction false} CappedFits(a: Bytes, limit: nat)
    ensures |Capped(a, limit)| <= limit
    ensures EndsLine(Capped(a, limit)) || |Capped(a, limit)| == limit || Capped(a, limit) == a
  {
    if a != [] && limit > 0 && a[0] != LF {
      CappedFits(a[1..], limit - 1);
      CappedUnfold(a, limit);
    }
  }

  /** Reading that ended in one text does not read on in a second. */
  lemma {:induction false} CappedStops(a: Bytes, b: Bytes, limit: nat)
    requires EndsLine(Capped(a, limit)) || |Capped(a, limit)| == limit
    ensures Capped(a + b, limit) == Capped(a, limit)
  {
    if a != [] && limit > 0 {
      TailOf(a, b);
      if a[0] != LF {
        CappedMore(a, b, limit);
        CappedStops(a[1..], b, limit - 1);
      }
    }
  }

  /** Reading that took all of one text goes on in a second. */
  lemma {:induction false} CappedGoesOn(a: Bytes, b: Bytes, limit: nat)
    requires Capped(a, limit) == a && !EndsLine(a) && |a| <= limit
    ensures Capped(a + b, limit) == a + Capped(b, limit - |a|)
  {
    if a == [] {
      NothingMore(b);
      NothingMore(Capped(b, limit));
    } else {
      TailOf(a, b);
      CappedMore(a, b, limit);
      Uncons(a);
      CappedGoesOn(a[1..], b, limit - 1);
    }
  }

  lemma CappedUnfold(a: Bytes, limit: nat)
    requires a != [] && limit > 0 && a[0] != LF
    ensures |Capped(a, limit)| == 1 + |Capped(a[1..], limit - 1)|
    ensures EndsLine(Capped(a, limit)) <==> EndsLine(Capped(a[1..], limit - 1))
    ensures Capped(a[1..], limit - 1) == a[1..] ==> Capped(a, limit) == a
  {
    Uncons(a);
    var rest := Capped(a[1..], limit - 1);
    assert rest != [] ==> ([a[0]] + rest)[|rest|] == rest[|rest| - 1];
  }

  lemma CappedMore(a: Bytes, b: Bytes, limit: nat)
    requires a != [] && limit > 0 && (a[0] != LF || a == Capped(a, limit)) && (a[0] == LF ==> !EndsLine(a))
    ensures a[0] != LF
    ensures Capped(a, limit) == [a[0]] + Capped(a[1..], limit - 1)
    ensures Capped(a + b, limit) == [a[0]] + Capped(a[1..] + b, limit - 1)
    ensures EndsLine(Capped(a, limit)) <==> EndsLine(Capped(a[1..], limit - 1))
    ensures Capped(a[1..], limit - 1) == a[1..] <==> Capped(a, limit) == a
    ensures |a| <= limit ==> [a[0]] + (a[1..] + Capped(b, limit - |a|)) == a + Capped(b, limit - |a|)
  {
    Uncons(a);
    TailOf(a, b);
    if |a| <= limit {
      Associates([a[0]], a[1..], Capped(b, limit - |a|));
    }
    var rest := Capped(a[1..], limit - 1);
    assert ([a[0]] + rest)[1..] == rest;
    assert rest != [] ==> ([a[0]] + rest)[|rest|] == rest[|rest| - 1];
  }

  /**
   Decoding frame by frame, only as far as the first newline or the limit, reads what cutting the
   whole decoded text there would read: its first line, or as much of that as the limit allows.
   */
  lemma HeaderReadsNoFurther(frames: seq<Frame>, limit: nat)
    requires frames != [] && forall k | 0 <= k < |frames| :: frames[k].Ok?
    ensures var text := Texts(frames);
            Header(frames, [], limit) == Ok(text[..if FirstLine(text) <= limit then FirstLine(text) else limit])
  {
    CappedMeans(Texts(frames), limit);
    HeaderFrom(frames, [], limit);
    assert [] + Capped(Texts(frames), limit) == Capped(Texts(frames), limit);
  }

  /** Reading one frame more, and whether anything of the rest is still wanted. */
  lemma HeaderJoins(line: Bytes, text: Bytes, rest: Bytes, limit: nat)
    requires |line| < limit && !EndsLine(line)
    ensures var more := line + Capped(text, limit - |line|);
            && |more| <= limit
            && line + Capped(text + rest, limit - |line|)
               == if EndsLine(more) then more else more + Capped(rest, limit - |more|)
  {
    var left := limit - |line|;
    var own := Capped(text, left);
    CappedFits(text, left);
    EndsWithOwn(line, own);
    if EndsLine(own) || |own| == left {
      CappedStops(text, rest, left);
      NothingMore(line + own);
    } else {
      CappedGoesOn(text, rest, left);
      Associates(line, own, Capped(rest, left - |own|));
    }
  }

  lemma EndsWithOwn(line: Bytes, own: Bytes)
    requires !EndsLine(line)
    ensures EndsLine(line + own) <==> EndsLine(own)
  {
    if own == [] {
      NothingMore(line);
    } else {
      assert (line + own)[|line + own| - 1] == own[|own| - 1];
    }
  }

  lemma {:induction false} HeaderFrom(frames: seq<Frame>, line: Bytes, limit: nat)
    requires frames != [] && forall k | 0 <= k < |frames| :: frames[k].Ok?
    requires |line| <= limit && !EndsLine(line)
    ensures Header(frames, line, limit) == Ok(line + Capped(Texts(frames), limit - |line|))
    decreases |frames|
  {
    if |line| < limit {
      var text, rest := frames[0].value, frames[1..];
      HeaderJoins(line, text, Texts(rest), limit);
      var more := line + Capped(text, limit - |line|);
      if rest == [] {
        assert more + Capped([], limit - |more|) == more;
      } else if !EndsLine(more) {
        HeaderFrom(rest, more, limit);
      }
    } else {
      assert line + Capped(Texts(frames), 0) == line;
    }
  }
}
