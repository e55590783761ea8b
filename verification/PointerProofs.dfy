/** The leaves of a value and the pointers that reach one are in one-to-one correspondence. */
module PointerProofs {
  import opened Wrappers
  import opened Sequences
  import opened Text
  import opened Numerals
  import opened Pointer

  // ---- Escaping ----------------------------------------------------------------------------

  /** Escaping, one character at a time. */
  function Encoded(key: string): string {
    if key == [] then []
    else (if key[0] == '~' then TILDE_ZERO else if key[0] == '/' then TILDE_ONE else [key[0]]) + Encoded(key[1..])
  }

  /** After the slashes are restored, only tildes are still escaped. */
  function HalfEncoded(key: string): string {
    if key == [] then [] else (if key[0] == '~' then TILDE_ZERO else [key[0]]) + HalfEncoded(key[1..])
  }

  function Decoded(part: string): string
    decreases |part|
  {
    if part == [] then []
    else if part[0] == '~' && |part| > 1 then [if part[1] == '1' then '/' else '~'] + Decoded(part[2..])
    else [part[0]] + Decoded(part[1..])
  }

  /** A character that starts no match is copied. */
  lemma ReplaceCopies(c: char, rest: string, pattern: string, with: string)
    requires pattern != [] && (pattern[0] != c || (|pattern| > 1 && rest != [] && pattern[1] != rest[0]))
    ensures Replace([c] + rest, pattern, with) == [c] + Replace(rest, pattern, with)
  {
    var s := [c] + rest;
    assert s[1..] == rest && s[0] == c && (rest != [] ==> s[1] == rest[0]);
  }

  lemma ReplaceMatches(pattern: string, rest: string, with: string)
    requires pattern != []
    ensures Replace(pattern + rest, pattern, with) == with + Replace(rest, pattern, with)
  {
    assert (pattern + rest)[|pattern|..] == rest;
  }

  /** An escaped tilde is copied. */
  lemma TildeCopies(rest: string, pattern: string, with: string)
    requires pattern == SLASH || pattern == TILDE_ONE
    ensures Replace(TILDE_ZERO + rest, pattern, with) == TILDE_ZERO + Replace(rest, pattern, with)
  {
    ReplaceCopies('~', ['0'] + rest, pattern, with);
    ReplaceCopies('0', rest, pattern, with);
    assert TILDE_ZERO + rest == ['~'] + (['0'] + rest);
  }

  lemma {:induction false} TildesEscaped(key: string)
    ensures Replace(key, TILDE, TILDE_ZERO) == HalfEncoded(key)
  {
    if key != [] {
      TildesEscaped(key[1..]);
      assert key == [key[0]] + key[1..];
      if key[0] == '~' {
        ReplaceMatches(TILDE, key[1..], TILDE_ZERO);
      } else {
        ReplaceCopies(key[0], key[1..], TILDE, TILDE_ZERO);
      }
    }
  }

  lemma {:induction false} SlashesEscaped(key: string)
    ensures Replace(HalfEncoded(key), SLASH, TILDE_ONE) == Encoded(key)
  {
    if key != [] {
      SlashesEscaped(key[1..]);
      var rest := HalfEncoded(key[1..]);
      if key[0] == '~' {
        TildeCopies(rest, SLASH, TILDE_ONE);
      } else if key[0] == '/' {
        ReplaceMatches(SLASH, rest, TILDE_ONE);
      } else {
        ReplaceCopies(key[0], rest, SLASH, TILDE_ONE);
      }
    }
  }

  lemma {:induction false} SlashesRestored(key: string)
    ensures Replace(Encoded(key), TILDE_ONE, SLASH) == HalfEncoded(key)
  {
    if key != [] {
      SlashesRestored(key[1..]);
      var rest := Encoded(key[1..]);
      if key[0] == '~' {
        TildeCopies(rest, TILDE_ONE, SLASH);
      } else if key[0] == '/' {
        ReplaceMatches(TILDE_ONE, rest, SLASH);
      } else {
        ReplaceCopies(key[0], rest, TILDE_ONE, SLASH);
      }
    }
  }

  lemma {:induction false} TildesRestored(key: string)
    ensures Replace(HalfEncoded(key), TILDE_ZERO, TILDE) == key
  {
    if key != [] {
      TildesRestored(key[1..]);
      assert key == [key[0]] + key[1..];
      if key[0] == '~' {
        ReplaceMatches(TILDE_ZERO, HalfEncoded(key[1..]), TILDE);
      } else {
        ReplaceCopies(key[0], HalfEncoded(key[1..]), TILDE_ZERO, TILDE);
      }
    }
  }

  lemma EscapeEncodes(key: string)
    ensures Escape(key) == Encoded(key)
  {
    TildesEscaped(key);
    SlashesEscaped(key);
  }

  /** Whatever tildes and slashes a key holds, unescaping its escaped form gives it back. */
  lemma UnescapeEscape(key: string)
    ensures Unescape(Escape(key)) == key
  {
    EscapeEncodes(key);
    SlashesRestored(key);
    TildesRestored(key);
  }

  lemma ValidCons(c: char, rest: string)
    requires ValidEscapes(rest) && c != '~'
    ensures ValidEscapes([c] + rest)
  {
    var s := [c] + rest;
    assert forall i | 0 < i < |s| :: s[i] == rest[i - 1];
  }

  lemma {:induction false} EncodedShape(key: string)
    ensures ValidEscapes(Encoded(key)) && Lacks(Encoded(key), '/')
  {
    if key != [] {
      EncodedShape(key[1..]);
      var rest := Encoded(key[1..]);
      if key[0] == '~' || key[0] == '/' {
        var digit := if key[0] == '~' then '0' else '1';
        ValidCons(digit, rest);
        var s := [digit] + rest;
        assert Encoded(key) == ['~'] + s;
        assert forall i | 0 < i < |['~'] + s| :: (['~'] + s)[i] == s[i - 1];
      } else {
        ValidCons(key[0], rest);
      }
    }
  }

  lemma ValidTail(s: string, n: nat)
    requires ValidEscapes(s) && n <= |s|
    ensures ValidEscapes(s[n..])
  {
  }

  /** A part a reader accepts is the escaped form of what it reads. */
  lemma {:induction false} EncodeDecoded(part: string)
    requires ValidEscapes(part) && Lacks(part, '/')
    ensures Encoded(Decoded(part)) == part
    decreases |part|
  {
    if part != [] {
      if part[0] == '~' {
        ValidTail(part, 2);
        EncodeDecoded(part[2..]);
        assert part == [part[0], part[1]] + part[2..];
        assert Decoded(part)[1..] == Decoded(part[2..]);
      } else {
        ValidTail(part, 1);
        EncodeDecoded(part[1..]);
        assert part == [part[0]] + part[1..];
        assert Decoded(part)[1..] == Decoded(part[1..]);
      }
    }
  }

  lemma EscapeUnescape(part: string)
    requires ValidEscapes(part) && Lacks(part, '/')
    ensures Escape(Unescape(part)) == part
  {
    EncodeDecoded(part);
    EscapeEncodes(Decoded(part));
    UnescapeEscape(Decoded(part));
  }

  // ---- Whole pointers ----------------------------------------------------------------------

  /** The pointer that names these keys. */
  function Render(keys: seq<string>): string {
    if keys == [] then [] else ['/'] + Escape(keys[0]) + Render(keys[1..])
  }

  lemma ValidJoin(a: string, b: string)
    requires ValidEscapes(a) && ValidEscapes(b)
    ensures ValidEscapes(a + b)
  {
    var s := a + b;
    forall i | 0 <= i < |s| && s[i] == '~' ensures i + 1 < |s| && (s[i + 1] == '0' || s[i + 1] == '1') {
      if i < |a| {
        assert a[i] == '~';
        assert s[i + 1] == a[i + 1];
      } else {
        assert b[i - |a|] == '~';
        assert s[i + 1] == b[i - |a| + 1];
      }
    }
  }

  lemma {:induction false} RenderShape(keys: seq<string>)
    ensures ValidEscapes(Render(keys))
    ensures Split(Render(keys), '/') == [[]] + EscapedAll(keys)
  {
    if keys != [] {
      RenderShape(keys[1..]);
      EscapeEncodes(keys[0]);
      EncodedShape(keys[0]);
      var part, rest := Escape(keys[0]), Render(keys[1..]);
      ValidJoin(part, rest);
      ValidCons('/', part + rest);
      Associates(['/'], part, rest);
      assert Render(keys) == ['/'] + (part + rest);
      SplitRendered(part, keys[1..]);
      SplitSlash(part + rest);
      assert EscapedAll(keys) == [part] + EscapedAll(keys[1..]);
    }
  }

  lemma SplitSlash(rest: string)
    ensures Split(['/'] + rest, '/') == [[]] + Split(rest, '/')
  {
    ConsTail('/', rest);
  }

  function EscapedAll(keys: seq<string>): seq<string> {
    seq(|keys|, k requires 0 <= k < |keys| => Escape(keys[k]))
  }

  lemma SplitRendered(part: string, keys: seq<string>)
    requires Lacks(part, '/') && Split(Render(keys), '/') == [[]] + EscapedAll(keys)
    ensures Split(part + Render(keys), '/') == [part] + EscapedAll(keys)
  {
    if keys == [] {
      SplitOne(part, '/');
      assert part + Render(keys) == part;
    } else {
      var rest := Escape(keys[0]) + Render(keys[1..]);
      assert Render(keys) == ['/'] + rest && Render(keys)[1..] == rest;
      assert part + Render(keys) == part + ['/'] + rest;
      SplitLine(part, '/', rest);
      assert Split(Render(keys), '/') == [[]] + Split(rest, '/');
      assert ([[]] + Split(rest, '/'))[1..] == Split(rest, '/');
      assert ([[]] + EscapedAll(keys))[1..] == EscapedAll(keys);
    }
  }

  /** Reading a rendered pointer gives its keys. */
  lemma PartsOfRender(keys: seq<string>)
    ensures PointerParts(Render(keys)) == Ok(keys)
  {
    RenderShape(keys);
    var pieces := Split(Render(keys), '/')[1..];
    assert pieces == EscapedAll(keys);
    forall k | 0 <= k < |keys| ensures Unescape(pieces[k]) == keys[k] {
      UnescapeEscape(keys[k]);
    }
    assert Unescaped(pieces) == keys;
  }

  /** Any pointer that can be read is the rendering of what it reads as. */
  lemma RenderOfParts(path: string)
    requires PointerParts(path).Ok?
    ensures Render(PointerParts(path).value) == path
  {
    if path != [] {
      var rest := path[1..];
      assert Split(path, '/') == [[]] + Split(rest, '/');
      assert ([[]] + Split(rest, '/'))[1..] == Split(rest, '/');
      ValidTail(path, 1);
      RenderPieces(rest);
      assert path == ['/'] + rest;
    }
  }

  lemma {:induction false} RenderPieces(rest: string)
    requires ValidEscapes(rest)
    ensures Render(Unescaped(Split(rest, '/'))) == ['/'] + rest
  {
    JoinSplit(rest, '/');
    RenderJoined(Split(rest, '/'));
  }

  lemma {:induction false} RenderJoined(pieces: seq<string>)
    requires pieces != [] && ValidEscapes(Join(pieces, '/')) && forall k | 0 <= k < |pieces| :: Lacks(pieces[k], '/')
    ensures Render(Unescaped(pieces)) == ['/'] + Join(pieces, '/')
  {
    var first, keys := pieces[0], Unescaped(pieces);
    var text := Join(pieces, '/');
    assert first <= text;
    ValidHead(text, first);
    EscapeUnescape(first);
    assert keys[1..] == Unescaped(pieces[1..]);
    if |pieces| > 1 {
      var more := Join(pieces[1..], '/');
      assert text == first + ['/'] + more;
      ValidTail(text, |first| + 1);
      assert text[|first| + 1..] == more;
      RenderJoined(pieces[1..]);
      assert Render(keys) == ['/'] + first + (['/'] + more);
    } else {
      assert keys[1..] == [];
      assert Render(keys) == ['/'] + first + [];
    }
  }

  lemma ValidHead(s: string, head: string)
    requires ValidEscapes(s) && head <= s && (|head| < |s| ==> s[|head|] == '/')
    ensures ValidEscapes(head)
  {
  }

  // ---- Indexes -----------------------------------------------------------------------------

  lemma DigitRoundTrip(d: nat)
    requires d < 10
    ensures IsDigit(DigitChar(d)) && DigitOf(DigitChar(d)) == d && (DigitChar(d) == '0' <==> d == 0)
  {
    if d == 0 || d == 1 || d == 2 || d == 3 || d == 4 {
    } else {
    }
  }

  lemma CharRoundTrip(c: char)
    requires IsDigit(c)
    ensures DigitChar(DigitOf(c)) == c
  {
    DigitRoundTrip(DigitOf(c));
  }

  /** The index a list writes is the index its reader finds. */
  lemma DecimalIsIndex(n: nat)
    ensures IsIndex(Decimal(n)) && IndexOf(Decimal(n)) == n
  {
    var digits := Digits(n, 10);
    var part := Decimal(n);
    DigitsCanonical(n, 10);
    DigitsEvaluate(n, 10);
    forall i | 0 <= i < |part|
      ensures IsDigit(part[i]) && DigitOf(part[i]) == digits[i] && (part[i] == '0' <==> digits[i] == 0)
    {
      DigitRoundTrip(digits[i]);
    }
    assert seq(|part|, i requires 0 <= i < |part| => DigitOf(part[i])) == digits;
  }

  lemma IndexIsDecimal(part: string)
    requires IsIndex(part)
    ensures Decimal(IndexOf(part)) == part
  {
    var digits := seq(|part|, i requires 0 <= i < |part| => DigitOf(part[i]));
    forall i | 0 <= i < |part| ensures DigitChar(digits[i]) == part[i] {
      CharRoundTrip(part[i]);
    }
    CanonicalIsPrinted(digits, 10);
    assert Digits(IndexOf(part), 10) == digits;
  }

  // ---- Leaves ------------------------------------------------------------------------------

  /** A leaf, reached by its keys. */
  datatype Reached = Reached(keys: seq<string>, value: Json)

  function Below(key: string, reached: seq<Reached>): seq<Reached> {
    seq(|reached|, k requires 0 <= k < |reached| => Reached([key] + reached[k].keys, reached[k].value))
  }

  function Reaches(value: Json): seq<Reached>
    decreases value, Width(value) + 1
  {
    if IsLeaf(value) then [Reached([], value)] else ReachesFrom(value, 0)
  }

  function ReachesFrom(value: Json, i: nat): seq<Reached>
    requires i <= Width(value)
    decreases value, Width(value) - i
  {
    if i == Width(value) then []
    else Below(KeyAt(value, i), Reaches(ChildAt(value, i))) + ReachesFrom(value, i + 1)
  }

  function Written(reached: seq<Reached>, path: string): seq<Leaf> {
    seq(|reached|, k requires 0 <= k < |reached| => Leaf(path + Render(reached[k].keys), reached[k].value))
  }

  lemma WrittenBelow(key: string, reached: seq<Reached>, path: string)
    ensures Written(Below(key, reached), path) == Written(reached, path + ['/'] + Escape(key))
  {
    forall k | 0 <= k < |reached|
      ensures path + Render(Below(key, reached)[k].keys) == path + ['/'] + Escape(key) + Render(reached[k].keys)
    {
      var keys := [key] + reached[k].keys;
      assert keys[1..] == reached[k].keys;
      assert Render(keys) == ['/'] + Escape(key) + Render(reached[k].keys);
    }
  }

  /** The pointers written for the leaves are the rendered keys that reach them. */
  lemma {:induction false} LeavesAreWritten(value: Json, path: string)
    ensures Leaves(value, path) == Written(Reaches(value), path)
    decreases value, Width(value) + 1
  {
    if IsLeaf(value) {
      assert path + Render([]) == path;
    } else {
      LeavesFromAreWritten(value, 0, path);
    }
  }

  lemma {:induction false} LeavesFromAreWritten(value: Json, i: nat, path: string)
    requires i <= Width(value)
    ensures LeavesFrom(value, i, path) == Written(ReachesFrom(value, i), path)
    decreases value, Width(value) - i
  {
    if i < Width(value) {
      var key := KeyAt(value, i);
      LeavesAreWritten(ChildAt(value, i), path + ['/'] + Escape(key));
      WrittenBelow(key, Reaches(ChildAt(value, i)), path);
      LeavesFromAreWritten(value, i + 1, path);
    }
  }

  /** Every object holds each of its keys once, as a parsed JSON value does. */
  ghost predicate Proper(value: Json)
    decreases value, Width(value) + 1
  {
    && (value.Object? ==> forall i, j | 0 <= i < j < |value.fields| :: value.fields[i].key != value.fields[j].key)
    && forall i | 0 <= i < Width(value) :: Proper(ChildAt(value, i))
  }

  lemma {:induction false} FindAt(fields: seq<Field>, i: nat)
    requires i < |fields| && forall j, k | 0 <= j < k < |fields| :: fields[j].key != fields[k].key
    ensures Find(fields, fields[i].key) == Some(fields[i].value)
  {
    if i > 0 {
      assert fields[0].key != fields[i].key;
      FindAt(fields[1..], i - 1);
    }
  }

  lemma {:induction false} FoundAt(fields: seq<Field>, key: string) returns (i: nat)
    requires Find(fields, key).Some?
    ensures i < |fields| && fields[i].key == key && fields[i].value == Find(fields, key).value
  {
    if fields[0].key == key {
      return 0;
    }
    i := FoundAt(fields[1..], key);
    i := i + 1;
  }

  /** A child is found under its own key, and nothing else is. */
  lemma ChildUnderKey(value: Json, i: nat)
    requires Proper(value) && i < Width(value)
    ensures Child(value, KeyAt(value, i)) == Ok(ChildAt(value, i))
  {
    if value.Items? {
      DecimalIsIndex(i);
    } else {
      FindAt(value.fields, i);
    }
  }

  lemma ChildIsUnderKey(value: Json, part: string) returns (i: nat)
    requires Child(value, part).Ok?
    ensures i < Width(value) && KeyAt(value, i) == part && ChildAt(value, i) == Child(value, part).value
  {
    if value.Items? {
      i := IndexOf(part);
      IndexIsDecimal(part);
    } else {
      i := FoundAt(value.fields, part);
    }
  }

  lemma KeysDiffer(value: Json, i: nat, j: nat)
    requires Proper(value) && i < j < Width(value)
    ensures KeyAt(value, i) != KeyAt(value, j)
  {
    if value.Items? {
      DecimalIsIndex(i);
      DecimalIsIndex(j);
    }
  }

  predicate Reaching(value: Json, r: Reached) {
    IsLeaf(r.value) && At(value, r.keys) == Ok(r.value)
  }

  /** Every leaf is where its keys lead. */
  lemma {:induction false} LeavesReached(value: Json, k: nat)
    requires Proper(value) && k < |Reaches(value)|
    ensures Reaching(value, Reaches(value)[k])
    decreases value, Width(value) + 1
  {
    if !IsLeaf(value) {
      var i := LeavesFromReached(value, 0, k);
    }
  }

  lemma {:induction false} LeavesFromReached(value: Json, i: nat, k: nat) returns (child: nat)
    requires Proper(value) && i <= Width(value) && k < |ReachesFrom(value, i)| && !IsLeaf(value)
    ensures i <= child < Width(value) && Reaching(value, ReachesFrom(value, i)[k])
    ensures var keys := ReachesFrom(value, i)[k].keys; keys != [] && keys[0] == KeyAt(value, child)
    decreases value, Width(value) - i
  {
    var inner := Reaches(ChildAt(value, i));
    if k < |inner| {
      LeavesReached(ChildAt(value, i), k);
      ReachingBelow(value, i, inner[k]);
      assert ReachesFrom(value, i)[k] == Reached([KeyAt(value, i)] + inner[k].keys, inner[k].value);
      child := i;
    } else {
      child := LeavesFromReached(value, i + 1, k - |inner|);
      assert ReachesFrom(value, i)[k] == ReachesFrom(value, i + 1)[k - |inner|];
    }
  }

  lemma ReachingBelow(value: Json, i: nat, r: Reached)
    requires Proper(value) && i < Width(value) && Reaching(ChildAt(value, i), r)
    ensures Reaching(value, Reached([KeyAt(value, i)] + r.keys, r.value))
  {
    ChildUnderKey(value, i);
    ConsTail(KeyAt(value, i), r.keys);
  }

  /** Wherever keys lead to a leaf, that leaf is listed with those keys. */
  lemma {:induction false} ReachedIsListed(value: Json, keys: seq<string>) returns (k: nat)
    requires Proper(value) && At(value, keys).Ok? && IsLeaf(At(value, keys).value)
    ensures k < |Reaches(value)| && Reaches(value)[k] == Reached(keys, At(value, keys).value)
    decreases |keys|
  {
    if keys == [] {
      return 0;
    }
    var i := ChildIsUnderKey(value, keys[0]);
    assert Proper(ChildAt(value, i));
    var inner := ReachedIsListed(ChildAt(value, i), keys[1..]);
    k := ListedFrom(value, 0, i, inner);
    assert [keys[0]] + keys[1..] == keys;
  }

  lemma {:induction false} ListedFrom(value: Json, first: nat, i: nat, inner: nat) returns (k: nat)
    requires first <= i < Width(value) && inner < |Reaches(ChildAt(value, i))|
    ensures k < |ReachesFrom(value, first)|
    ensures var leaf := Reaches(ChildAt(value, i))[inner];
            ReachesFrom(value, first)[k] == Reached([KeyAt(value, i)] + leaf.keys, leaf.value)
    decreases i - first
  {
    var own := Below(KeyAt(value, first), Reaches(ChildAt(value, first)));
    var rest := ReachesFrom(value, first + 1);
    assert ReachesFrom(value, first) == own + rest;
    if first == i {
      assert (own + rest)[inner] == own[inner];
      return inner;
    }
    var later := ListedFrom(value, first + 1, i, inner);
    assert (own + rest)[|own| + later] == rest[later];
    return |own| + later;
  }

  /** Different leaves are reached by different keys. */
  lemma {:induction false} KeysDistinct(value: Json, j: nat, k: nat)
    requires Proper(value) && j < k < |Reaches(value)|
    ensures Reaches(value)[j].keys != Reaches(value)[k].keys
    decreases value, Width(value) + 1
  {
    KeysFromDistinct(value, 0, j, k);
  }

  lemma {:induction false} KeysFromDistinct(value: Json, i: nat, j: nat, k: nat)
    requires Proper(value) && i <= Width(value) && !IsLeaf(value) && j < k < |ReachesFrom(value, i)|
    ensures ReachesFrom(value, i)[j].keys != ReachesFrom(value, i)[k].keys
    decreases value, Width(value) - i
  {
    var key, inner := KeyAt(value, i), Reaches(ChildAt(value, i));
    var all, rest := ReachesFrom(value, i), ReachesFrom(value, i + 1);
    assert all == Below(key, inner) + rest;
    if k < |inner| {
      KeysDistinct(ChildAt(value, i), j, k);
      BelowDistinct(key, inner, j, k);
    } else if j < |inner| {
      var child := LeavesFromReached(value, i + 1, k - |inner|);
      KeysDiffer(value, i, child);
      assert all[j].keys[0] == key && all[k] == rest[k - |inner|];
    } else {
      KeysFromDistinct(value, i + 1, j - |inner|, k - |inner|);
    }
  }

  lemma BelowDistinct(key: string, reached: seq<Reached>, j: nat, k: nat)
    requires j < k < |reached| && reached[j].keys != reached[k].keys
    ensures Below(key, reached)[j].keys != Below(key, reached)[k].keys
  {
    var one, two := [key] + reached[j].keys, [key] + reached[k].keys;
    assert one[1..] == reached[j].keys && two[1..] == reached[k].keys;
  }

  // ---- The round trip ----------------------------------------------------------------------

  /** Each pointer written for a leaf reads back as that leaf. */
  lemma PointersReachTheirLeaves(value: Json, k: nat)
    requires Proper(value) && k < |Leaves(value, "")|
    ensures IsLeaf(Leaves(value, "")[k].value)
    ensures Lookup(value, Leaves(value, "")[k].path) == Ok(Leaves(value, "")[k].value)
  {
    LeavesAreWritten(value, "");
    LeavesReached(value, k);
    var reached := Reaches(value)[k];
    assert "" + Render(reached.keys) == Render(reached.keys);
    PartsOfRender(reached.keys);
  }

  /** Different leaves have different pointers. */
  lemma PointersAreDistinct(value: Json, j: nat, k: nat)
    requires Proper(value) && j < k < |Leaves(value, "")|
    ensures Leaves(value, "")[j].path != Leaves(value, "")[k].path
  {
    LeavesAreWritten(value, "");
    KeysDistinct(value, j, k);
    var one, two := Reaches(value)[j].keys, Reaches(value)[k].keys;
    assert "" + Render(one) == Render(one) && "" + Render(two) == Render(two);
    PartsOfRender(one);
    PartsOfRender(two);
  }

  /** And every pointer that reads as a leaf is the one written for it. */
  lemma PointersAreComplete(value: Json, path: string) returns (k: nat)
    requires Proper(value) && Lookup(value, path).Ok? && IsLeaf(Lookup(value, path).value)
    ensures k < |Leaves(value, "")| && Leaves(value, "")[k] == Leaf(path, Lookup(value, path).value)
  {
    var keys := PointerParts(path).value;
    LeavesAreWritten(value, "");
    k := ReachedIsListed(value, keys);
    RenderOfParts(path);
    assert "" + Render(keys) == Render(keys);
  }
}
