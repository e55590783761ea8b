/**
 Building a secret case: the occurrences to protect become ranges, and the rest of each string
 is to be kept.

 A selection is a value with either its explicit range or the occurrences of it to protect; the
 types of these fields are taken as checked.
 */
module Secret {
  import opened Wrappers
  import opened Pointer
  import opened PointerProofs
  import opened Ranges
  import opened Sequences
  import opened Sorting

  datatype Selection =
    | Explicit(value: string, start: int, end: int)
    | Found(value: string, count: Option<int>, occurrences: Option<seq<int>>)

  datatype CaseError = UnknownPointer | EmptyValue | BadRange | BadCount | BadOccurrences | Overlapping

  /** `text.find(value, start)`. */
  function FindFrom(text: string, value: string, start: nat): (r: Option<nat>)
    requires start <= |text|
    ensures r.Some? ==> start <= r.value <= |text| - |value| && text[r.value..r.value + |value|] == value
    decreases |text| - start
  {
    if start + |value| > |text| then None
    else if text[start..start + |value|] == value then Some(start)
    else if start == |text| then None
    else FindFrom(text, value, start + 1)
  }

  /** The occurrences of a value, left to right, none sharing a character with the one before. */
  function Occurrences(text: string, value: string, start: nat): (found: seq<Range>)
    requires start <= |text| && value != []
    ensures forall k | 0 <= k < |found| ::
              start <= found[k].start < found[k].end <= |text| && text[found[k].start..found[k].end] == value
    decreases |text| - start
  {
    match FindFrom(text, value, start)
    case None => []
    case Some(at) => [Range(at, at + |value|)] + Occurrences(text, value, at + |value|)
  }

  predicate NoRepeats(indexes: seq<int>) {
    forall i, j | 0 <= i < j < |indexes| :: indexes[i] != indexes[j]
  }

  /** The ranges one selection protects. */
  function Select(text: string, selection: Selection): (r: Result<seq<Range>, CaseError>)
    ensures r.Ok? ==> forall k | 0 <= k < |r.value| ::
              0 <= r.value[k].start < r.value[k].end <= |text|
              && text[r.value[k].start..r.value[k].end] == selection.value
  {
    if selection.value == [] then Err(EmptyValue)
    else
      match selection
      case Explicit(value, start, end) =>
        if 0 <= start < end <= |text| && text[start..end] == value then Ok([Range(start, end)]) else Err(BadRange)
      case Found(value, count, occurrences) =>
        var matches := Occurrences(text, value, 0);
        if matches == [] || (count.Some? && count.value != |matches|) then Err(BadCount)
        else if occurrences.None? then Ok(matches)
        else
          var chosen := occurrences.value;
          if chosen == [] || !NoRepeats(chosen) || (exists i | 0 <= i < |chosen| :: !(0 <= chosen[i] < |matches|)) then
            Err(BadOccurrences)
          else Ok(seq(|chosen|, i requires 0 <= i < |chosen| => matches[chosen[i]]))
  }

  function SelectAll(text: string, selections: seq<Selection>): (r: Result<seq<Range>, CaseError>)
    ensures r.Ok? ==> forall k | 0 <= k < |r.value| :: 0 <= r.value[k].start < r.value[k].end <= |text|
  {
    if selections == [] then Ok([])
    else
      var first :- Select(text, selections[0]);
      var rest :- SelectAll(text, selections[1..]);
      Ok(first + rest)
  }

  /** The checks from a position on: what lies between the protected ranges is kept. */
  function Emit(pointer: string, ranges: seq<Range>, cursor: int, length: int): Result<seq<Check>, CaseError> {
    if ranges == [] then Ok(if cursor < length then [Check(pointer, Range(cursor, length), false)] else [])
    else
      var first := ranges[0];
      if first.start < cursor then Err(Overlapping)
      else
        var rest :- Emit(pointer, ranges[1..], first.end, length);
        Ok((if first.start > cursor then [Check(pointer, Range(cursor, first.start), false)] else [])
           + [Check(pointer, first, true)] + rest)
  }

  function StringChecks(pointer: string, text: string, selections: seq<Selection>): Result<seq<Check>, CaseError> {
    var ranges :- SelectAll(text, selections);
    Emit(pointer, Sort(ranges, RangeKey), 0, |text|)
  }

  type Protected = map<string, seq<Selection>>

  function SelectionsFor(protected: Protected, pointer: string): seq<Selection> {
    if pointer in protected then protected[pointer] else []
  }

  function ChecksFrom(leaves: seq<Leaf>, protected: Protected): Result<seq<Check>, CaseError> {
    if leaves == [] then Ok([])
    else if !leaves[0].value.Str? then ChecksFrom(leaves[1..], protected)
    else
      var first :- StringChecks(leaves[0].path, leaves[0].value.text, SelectionsFor(protected, leaves[0].path));
      var rest :- ChecksFrom(leaves[1..], protected);
      Ok(first + rest)
  }

  predicate KnownPointers(leaves: seq<Leaf>, protected: Protected) {
    forall pointer | pointer in protected ::
      exists k | 0 <= k < |leaves| :: leaves[k].path == pointer && leaves[k].value.Str?
  }

  /** The annotations of a case, string by string. */
  function SecretChecks(input: Json, protected: Protected): Result<seq<Check>, CaseError> {
    if !KnownPointers(Leaves(input, []), protected) then Err(UnknownPointer)
    else ChecksFrom(Leaves(input, []), protected)
  }

  // ---- The loops ---------------------------------------------------------------------------

  lemma FoundOne(text: string, value: string, start: nat, matches: seq<Range>)
    requires value != [] && start <= |text| && FindFrom(text, value, start).Some?
    ensures var at := FindFrom(text, value, start).value;
            matches + Occurrences(text, value, start)
            == matches + [Range(at, at + |value|)] + Occurrences(text, value, at + |value|)
  {
    var at := FindFrom(text, value, start).value;
    Associates(matches, [Range(at, at + |value|)], Occurrences(text, value, at + |value|));
  }

  method FindAll(text: string, value: string) returns (matches: seq<Range>)
    requires value != []
    ensures matches == Occurrences(text, value, 0)
  {
    matches := [];
    var start := 0;
    ghost var all := Occurrences(text, value, 0);
    NothingMore(all);
    while true
      invariant start <= |text| && all == matches + Occurrences(text, value, start)
      decreases |text| - start
    {
      var found := FindFrom(text, value, start);
      if found.None? {
        assert Occurrences(text, value, start) == [];
        NothingMore(matches);
        return;
      }
      FoundOne(text, value, start, matches);
      matches := matches + [Range(found.value, found.value + |value|)];
      start := found.value + |value|;
    }
  }

  /** The first error found by a later step, or what earlier steps gathered before it. */
  function Onto(checks: seq<Check>, rest: Result<seq<Check>, CaseError>): Result<seq<Check>, CaseError> {
    match rest
    case Err(error) => Err(error)
    case Ok(more) => Ok(checks + more)
  }

  method EmitChecks(pointer: string, ranges: seq<Range>, length: int) returns (r: Result<seq<Check>, CaseError>)
    ensures r == Emit(pointer, Sort(ranges, RangeKey), 0, length)
  {
    var sorted := Sort(ranges, RangeKey);
    var cursor, checks: seq<Check> := 0, [];
    ghost var all := Emit(pointer, sorted, 0, length);
    assert all.Ok? ==> checks + all.value == all.value;
    for i := 0 to |sorted|
      invariant all == Onto(checks, Emit(pointer, sorted[i..], cursor, length))
    {
      var start, end := sorted[i].start, sorted[i].end;
      ghost var before, rest := checks, Emit(pointer, sorted[i + 1..], end, length);
      assert sorted[i..][1..] == sorted[i + 1..];
      if start < cursor {
        return Err(Overlapping);
      }
      if start > cursor {
        checks := checks + [Check(pointer, Range(cursor, start), false)];
      }
      checks := checks + [Check(pointer, Range(start, end), true)];
      ghost var gap := if start > cursor then [Check(pointer, Range(cursor, start), false)] else [];
      assert rest.Ok? ==>
               checks + rest.value == before + (gap + [Check(pointer, Range(start, end), true)] + rest.value);
      cursor := end;
    }
    if cursor < length {
      checks := checks + [Check(pointer, Range(cursor, length), false)];
    }
    assert checks + [] == checks;
    return Ok(checks);
  }

  // ---- What the checks are -----------------------------------------------------------------

  predicate Of(checks: seq<Check>, pointer: string) {
    forall k | 0 <= k < |checks| :: checks[k].pointer == pointer
  }

  /** Checks in emission order tile the rest of the text. */
  lemma {:induction false} EmitTiles(pointer: string, ranges: seq<Range>, cursor: int, length: int)
    requires 0 <= cursor <= length && Emit(pointer, ranges, cursor, length).Ok?
    requires forall k | 0 <= k < |ranges| :: 0 <= ranges[k].start < ranges[k].end <= length
    ensures var checks := Emit(pointer, ranges, cursor, length).value;
            && TilesFrom(checks, cursor, length) && Of(checks, pointer)
            && forall k | 0 <= k < |checks| :: cursor <= checks[k].range.start && Valid(checks[k], length)
  {
    if ranges != [] {
      var first := ranges[0];
      EmitTiles(pointer, ranges[1..], first.end, length);
      var rest := Emit(pointer, ranges[1..], first.end, length).value;
      var tail := [Check(pointer, first, true)] + rest;
      assert tail[1..] == rest;
      var gap := [Check(pointer, Range(cursor, first.start), false)];
      if first.start > cursor {
        assert Emit(pointer, ranges, cursor, length).value == gap + tail && (gap + tail)[1..] == tail;
      } else {
        assert Emit(pointer, ranges, cursor, length).value == tail;
      }
    }
  }

  lemma {:induction false} TilesOrdered(checks: seq<Check>, cursor: int, length: int)
    requires TilesFrom(checks, cursor, length) && forall k | 0 <= k < |checks| ::
        checks[k].range.start < checks[k].range.end
    ensures Ordered(checks, StartKey) && forall k | 0 <= k < |checks| :: cursor <= checks[k].range.start
  {
    if checks != [] {
      TilesOrdered(checks[1..], checks[0].range.end, length);
      assert forall k | 0 < k < |checks| :: checks[k] == checks[1..][k - 1];
    }
  }

  function Protects(checks: seq<Check>): seq<Range> {
    if checks == [] then []
    else (if checks[0].protect then [checks[0].range] else []) + Protects(checks[1..])
  }

  /** Exactly the selected ranges are protected, in order. */
  lemma {:induction false} EmitProtects(pointer: string, ranges: seq<Range>, cursor: int, length: int)
    requires Emit(pointer, ranges, cursor, length).Ok?
    ensures Protects(Emit(pointer, ranges, cursor, length).value) == ranges
  {
    var checks := Emit(pointer, ranges, cursor, length).value;
    if ranges == [] {
      assert checks == [] || (checks[1..] == [] && !checks[0].protect);
    } else {
      var first := ranges[0];
      EmitProtects(pointer, ranges[1..], first.end, length);
      var rest := Emit(pointer, ranges[1..], first.end, length).value;
      var tail := [Check(pointer, first, true)] + rest;
      assert tail[1..] == rest;
      assert ranges == [first] + ranges[1..];
      if first.start > cursor {
        var gap := [Check(pointer, Range(cursor, first.start), false)];
        assert checks == gap + tail && (gap + tail)[1..] == tail;
      } else {
        assert checks == tail;
      }
    }
  }

  // ---- The checker -------------------------------------------------------------------------

  function ChecksAt(checks: seq<Check>, pointer: string): seq<Check> {
    if checks == [] then []
    else (if checks[0].pointer == pointer then [checks[0]] else []) + ChecksAt(checks[1..], pointer)
  }

  /** The partition part of case validation: each string's checks tile it. */
  predicate PartitionsAll(leaves: seq<Leaf>, checks: seq<Check>) {
    forall k | 0 <= k < |leaves| && leaves[k].value.Str? ::
      TilesFrom(Sort(ChecksAt(checks, leaves[k].path), StartKey), 0, |leaves[k].value.text|)
  }

  lemma {:induction false} AtAppend(a: seq<Check>, b: seq<Check>, pointer: string)
    ensures ChecksAt(a + b, pointer) == ChecksAt(a, pointer) + ChecksAt(b, pointer)
  {
    if a == [] {
      NothingMore(b);
      NothingMore(ChecksAt(b, pointer));
    } else {
      TailOf(a, b);
      AtAppend(a[1..], b, pointer);
      Associates(if a[0].pointer == pointer then [a[0]] else [], ChecksAt(a[1..], pointer), ChecksAt(b, pointer));
    }
  }

  lemma {:induction false} AtSame(checks: seq<Check>, pointer: string, other: string)
    requires Of(checks, other)
    ensures ChecksAt(checks, pointer) == if pointer == other then checks else []
  {
    if checks != [] {
      AtSame(checks[1..], pointer, other);
      assert [checks[0]] + checks[1..] == checks;
    }
  }

  ghost predicate DistinctPaths(leaves: seq<Leaf>) {
    forall j, k | 0 <= j < k < |leaves| :: leaves[j].path != leaves[k].path
  }

  lemma StringChecksTile(pointer: string, text: string, selections: seq<Selection>)
    requires StringChecks(pointer, text, selections).Ok?
    ensures var checks := StringChecks(pointer, text, selections).value;
            && Of(checks, pointer) && TilesFrom(checks, 0, |text|) && Sort(checks, StartKey) == checks
            && (forall k | 0 <= k < |checks| :: Valid(checks[k], |text|))
            && Protects(checks) == Sort(SelectAll(text, selections).value, RangeKey)
  {
    var ranges := SelectAll(text, selections).value;
    var sorted := Sort(ranges, RangeKey);
    forall k | 0 <= k < |sorted| ensures 0 <= sorted[k].start < sorted[k].end <= |text| {
      SortMembers(ranges, RangeKey, sorted[k]);
    }
    EmitTiles(pointer, sorted, 0, |text|);
    EmitProtects(pointer, sorted, 0, |text|);
    TilesOrdered(StringChecks(pointer, text, selections).value, 0, |text|);
    SortSorted(StringChecks(pointer, text, selections).value, StartKey);
  }

  /** Adding one leaf's checks in front adds them at its own pointer and nowhere else. */
  lemma ChecksAtMore(leaves: seq<Leaf>, protected: Protected, pointer: string)
    requires leaves != [] && ChecksFrom(leaves, protected).Ok?
    ensures var first, later := leaves[0], ChecksAt(ChecksFrom(leaves[1..], protected).value, pointer);
            ChecksAt(ChecksFrom(leaves, protected).value, pointer)
            == if first.value.Str? && first.path == pointer
               then StringChecks(pointer, first.value.text, SelectionsFor(protected, pointer)).value + later else later
  {
    if leaves[0].value.Str? {
      var path, text := leaves[0].path, leaves[0].value.text;
      var first := StringChecks(path, text, SelectionsFor(protected, path)).value;
      StringChecksTile(path, text, SelectionsFor(protected, path));
      AtAppend(first, ChecksFrom(leaves[1..], protected).value, pointer);
      AtSame(first, pointer, path);
      NothingMore(ChecksAt(ChecksFrom(leaves[1..], protected).value, pointer));
    }
  }

  lemma {:induction false} NoneElsewhere(leaves: seq<Leaf>, protected: Protected, pointer: string)
    requires ChecksFrom(leaves, protected).Ok? && forall k | 0 <= k < |leaves| :: leaves[k].path != pointer
    ensures ChecksAt(ChecksFrom(leaves, protected).value, pointer) == []
  {
    if leaves != [] {
      ChecksAtMore(leaves, protected, pointer);
      NoneElsewhere(leaves[1..], protected, pointer);
    }
  }

  /** The checks at a string's pointer are the ones emitted for that string. */
  lemma {:induction false} ChecksAtLeaf(leaves: seq<Leaf>, protected: Protected, k: nat)
    requires DistinctPaths(leaves) && ChecksFrom(leaves, protected).Ok? && k < |leaves| && leaves[k].value.Str?
    ensures StringChecks(leaves[k].path, leaves[k].value.text, SelectionsFor(protected, leaves[k].path))
         == Ok(ChecksAt(ChecksFrom(leaves, protected).value, leaves[k].path))
  {
    var pointer := leaves[k].path;
    ChecksAtMore(leaves, protected, pointer);
    if k == 0 {
      NoneElsewhere(leaves[1..], protected, pointer);
      NothingMore(StringChecks(pointer, leaves[0].value.text, SelectionsFor(protected, pointer)).value);
    } else {
      assert leaves[0].path != pointer;
      ChecksAtLeaf(leaves[1..], protected, k - 1);
    }
  }

  /** The ranges a case is built with always pass the partition check. */
  lemma SecretPartitions(input: Json, protected: Protected)
    requires Proper(input) && SecretChecks(input, protected).Ok?
    ensures PartitionsAll(Leaves(input, []), SecretChecks(input, protected).value)
  {
    var leaves, checks := Leaves(input, []), SecretChecks(input, protected).value;
    forall j, k | 0 <= j < k < |leaves| ensures leaves[j].path != leaves[k].path {
      PointersAreDistinct(input, j, k);
    }
    forall k | 0 <= k < |leaves| && leaves[k].value.Str?
      ensures TilesFrom(Sort(ChecksAt(checks, leaves[k].path), StartKey), 0, |leaves[k].value.text|)
    {
      ChecksAtLeaf(leaves, protected, k);
      StringChecksTile(leaves[k].path, leaves[k].value.text, SelectionsFor(protected, leaves[k].path));
    }
  }
}
