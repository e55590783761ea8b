/** Ranges of positions in a text: what they cover, what they touch, when they partition it. */
module Ranges {
  import opened Sorting

  datatype Range = Range(start: int, end: int)

  function RangeKey(r: Range): Key {
    (r.start, r.end)
  }

  predicate Holds(r: Range, pos: int) {
    r.start <= pos < r.end
  }

  predicate Inside(spans: seq<Range>, pos: int) {
    exists i | 0 <= i < |spans| :: Holds(spans[i], pos)
  }

  /** Every position of the range is in some span. */
  predicate Covered(start: int, end: int, spans: seq<Range>) {
    forall pos | start <= pos < end :: Inside(spans, pos)
  }

  lemma SortedSetInside(spans: seq<Range>, pos: int)
    ensures Inside(Sort(Distinct(spans), RangeKey), pos) <==> Inside(spans, pos)
  {
    var sorted := Sort(Distinct(spans), RangeKey);
    forall r: Range ensures r in sorted <==> r in spans {
      SortMembers(Distinct(spans), RangeKey, r);
      DistinctMembers(spans, r);
    }
    if i :| 0 <= i < |sorted| && Holds(sorted[i], pos) {
      assert sorted[i] in spans;
    }
    if i :| 0 <= i < |spans| && Holds(spans[i], pos) {
      assert spans[i] in sorted;
    }
  }

  lemma SortedStarts(spans: seq<Range>, i: nat, j: nat)
    requires Ordered(spans, RangeKey) && i < j < |spans|
    ensures spans[i].start <= spans[j].start
  {
    assert !Less(RangeKey(spans[j]), RangeKey(spans[i]));
  }

  /** The span extends a sweep that stands at a position it holds. */
  lemma SweepOn(spans: seq<Range>, i: nat, start: int, cursor: int)
    requires i < |spans| && Holds(spans[i], cursor) && Covered(start, cursor, spans)
    ensures Covered(start, spans[i].end, spans)
  {
    forall pos | start <= pos < spans[i].end ensures Inside(spans, pos) {
      assert pos >= cursor ==> Holds(spans[i], pos);
    }
  }

  /** A sweep past the first spans: covered up to the cursor, and none of them reaches beyond it. */
  ghost predicate Swept(sorted: seq<Range>, i: nat, start: int, cursor: int)
    requires i <= |sorted|
  {
    && start <= cursor && Covered(start, cursor, sorted)
    && forall k | 0 <= k < i :: sorted[k].start <= cursor ==> sorted[k].end <= cursor
  }

  lemma SweepStep(sorted: seq<Range>, i: nat, start: int, cursor: int)
    requires Ordered(sorted, RangeKey) && i < |sorted| && Swept(sorted, i, start, cursor)
    ensures Swept(sorted, i + 1, start, if Holds(sorted[i], cursor) then sorted[i].end else cursor)
  {
    if Holds(sorted[i], cursor) {
      SweepOn(sorted, i, start, cursor);
      forall k | 0 <= k < i ensures sorted[k].end <= cursor {
        SortedStarts(sorted, k, i);
      }
    }
  }

  /** One sweep over the sorted spans decides coverage. */
  method Coverage(start: int, end: int, spans: seq<Range>) returns (covered: bool)
    ensures covered <==> Covered(start, end, spans)
  {
    var cursor := start;
    var sorted := Sort(Distinct(spans), RangeKey);
    SortOrdered(Distinct(spans), RangeKey);
    for i := 0 to |sorted|
      invariant Swept(sorted, i, start, cursor)
    {
      SweepStep(sorted, i, start, cursor);
      if sorted[i].start <= cursor < sorted[i].end {
        cursor := sorted[i].end;
      }
    }
    covered := cursor >= end;
    SweepDecides(start, end, cursor, spans, sorted);
  }

  lemma SweepDecides(start: int, end: int, cursor: int, spans: seq<Range>, sorted: seq<Range>)
    requires sorted == Sort(Distinct(spans), RangeKey) && Swept(sorted, |sorted|, start, cursor)
    ensures Covered(start, end, spans) <==> cursor >= end
  {
    forall pos ensures Inside(sorted, pos) <==> Inside(spans, pos) {
      SortedSetInside(spans, pos);
    }
    assert !Inside(sorted, cursor);
  }

  predicate Overlaps(start: int, end: int, spans: seq<Range>) {
    exists i | 0 <= i < |spans| :: spans[i].start < end && start < spans[i].end
  }

  /** Touching a span is sharing a position with it, or holding an empty one strictly inside. */
  lemma OverlapsMeaning(start: int, end: int, spans: seq<Range>)
    requires start < end && forall i | 0 <= i < |spans| :: spans[i].start <= spans[i].end
    ensures Overlaps(start, end, spans)
            <==> || (exists pos | start <= pos < end :: Inside(spans, pos))
                 || (exists i | 0 <= i < |spans| :: start < spans[i].start == spans[i].end < end)
  {
    forall i | 0 <= i < |spans| && spans[i].start < end && start < spans[i].end && spans[i].start < spans[i].end
      ensures exists pos | start <= pos < end :: Inside(spans, pos)
    {
      var pos := if start < spans[i].start then spans[i].start else start;
      assert Holds(spans[i], pos);
      assert Inside(spans, pos);
    }
    forall pos | start <= pos < end && Inside(spans, pos) ensures Overlaps(start, end, spans) {
      var i :| 0 <= i < |spans| && Holds(spans[i], pos);
      assert spans[i].start < end && start < spans[i].end;
    }
  }

  // ---- Partitions --------------------------------------------------------------------------

  /** An expectation about one range of the string at a pointer. */
  datatype Check = Check(pointer: string, range: Range, protect: bool)

  function StartKey(c: Check): Key {
    (c.range.start, 0)
  }

  /** Each check starts where the one before it ended, and the last ends with the text. */
  predicate TilesFrom(checks: seq<Check>, cursor: int, length: int) {
    if checks == [] then cursor == length
    else checks[0].range.start == cursor && TilesFrom(checks[1..], checks[0].range.end, length)
  }

  predicate Valid(check: Check, length: int) {
    0 <= check.range.start < check.range.end <= length
  }

  method PartitionCheck(checks: seq<Check>, length: int) returns (ok: bool)
    ensures ok <==> TilesFrom(Sort(checks, StartKey), 0, length)
  {
    var sorted := Sort(checks, StartKey);
    var cursor := 0;
    for i := 0 to |sorted|
      invariant TilesFrom(sorted, 0, length) <==> TilesFrom(sorted[i..], cursor, length)
    {
      assert sorted[i..][1..] == sorted[i + 1..];
      if sorted[i].range.start != cursor {
        return false;
      }
      cursor := sorted[i].range.end;
    }
    return cursor == length;
  }

  /** How many checks hold a position. */
  function Count(checks: seq<Check>, pos: int): nat {
    if checks == [] then 0 else (if Holds(checks[0].range, pos) then 1 else 0) + Count(checks[1..], pos)
  }

  lemma {:induction false} InsertCounts(c: Check, checks: seq<Check>, pos: int)
    ensures Count(Insert(c, checks, StartKey), pos) == Count([c] + checks, pos)
  {
    if checks != [] && Less(StartKey(checks[0]), StartKey(c)) {
      InsertCounts(c, checks[1..], pos);
      assert ([c] + checks)[1..] == checks && ([c] + checks[1..])[1..] == checks[1..];
    }
  }

  lemma {:induction false} SortCounts(checks: seq<Check>, pos: int)
    ensures Count(Sort(checks, StartKey), pos) == Count(checks, pos)
  {
    if checks != [] {
      SortCounts(checks[1..], pos);
      InsertCounts(checks[0], Sort(checks[1..], StartKey), pos);
      assert ([checks[0]] + Sort(checks[1..], StartKey))[1..] == Sort(checks[1..], StartKey);
    }
  }

  lemma {:induction false} CountPositive(checks: seq<Check>, k: nat, pos: int)
    requires k < |checks| && Holds(checks[k].range, pos)
    ensures Count(checks, pos) >= 1
  {
    if k > 0 {
      CountPositive(checks[1..], k - 1, pos);
    }
  }

  lemma {:induction false} CountedSomewhere(checks: seq<Check>, pos: int) returns (k: nat)
    requires Count(checks, pos) >= 1
    ensures k < |checks| && Holds(checks[k].range, pos)
  {
    if Holds(checks[0].range, pos) {
      return 0;
    }
    k := CountedSomewhere(checks[1..], pos);
    k := k + 1;
  }

  lemma {:induction false} TilesCount(checks: seq<Check>, cursor: int, length: int, pos: int)
    requires TilesFrom(checks, cursor, length) && forall k | 0 <= k < |checks| ::
        checks[k].range.start < checks[k].range.end
    ensures cursor <= length
    ensures Count(checks, pos) == if cursor <= pos < length then 1 else 0
  {
    if checks != [] {
      TilesCount(checks[1..], checks[0].range.end, length, pos);
    }
  }

  lemma {:induction false} CountTiles(checks: seq<Check>, cursor: int, length: int)
    requires cursor <= length && Ordered(checks, StartKey)
    requires forall k | 0 <= k < |checks| :: cursor <= checks[k].range.start < checks[k].range.end <= length
    requires forall pos | cursor <= pos < length :: Count(checks, pos) == 1
    ensures TilesFrom(checks, cursor, length)
  {
    var none: seq<Check> := [];
    assert Count(none, cursor) == 0;
    if checks != none {
      var k := CountedSomewhere(checks, cursor);
      assert k > 0 ==> !Less(StartKey(checks[k]), StartKey(checks[0]));
      var rest, end := checks[1..], checks[0].range.end;
      forall k | 0 <= k < |rest| ensures end <= rest[k].range.start {
        var pos := rest[k].range.start;
        assert rest[k] == checks[k + 1];
        if pos < end {
          CountPositive(rest, k, pos);
          assert Count(checks, pos) == 1;
        }
      }
      forall pos | end <= pos < length ensures Count(rest, pos) == 1 {
        assert Count(checks, pos) == 1;
      }
      CountTiles(rest, end, length);
    }
  }

  /** Each position of the text is in exactly one range. */
  predicate Partition(checks: seq<Check>, length: int) {
    forall pos | 0 <= pos < length :: Count(checks, pos) == 1
  }

  /** The checker accepts valid ranges, in any order, exactly when each position is in one of them. */
  lemma PartitionMeaning(checks: seq<Check>, length: int)
    requires 0 <= length && forall k | 0 <= k < |checks| :: Valid(checks[k], length)
    ensures TilesFrom(Sort(checks, StartKey), 0, length) <==> Partition(checks, length)
  {
    var sorted := Sort(checks, StartKey);
    SortOrdered(checks, StartKey);
    forall k | 0 <= k < |sorted| ensures Valid(sorted[k], length) {
      SortMembers(checks, StartKey, sorted[k]);
    }
    forall pos ensures Count(sorted, pos) == Count(checks, pos) {
      SortCounts(checks, pos);
    }
    if TilesFrom(sorted, 0, length) {
      forall pos | 0 <= pos < length ensures Count(checks, pos) == 1 {
        TilesCount(sorted, 0, length, pos);
      }
    } else if Partition(checks, length) {
      CountTiles(sorted, 0, length);
    }
  }
}
