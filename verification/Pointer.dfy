/** JSON Pointer (RFC 6901) as the benchmark writes and reads it. */
module Pointer {
  import opened Wrappers
  import opened Text
  import opened Numerals

  datatype Field = Field(key: string, value: Json)

  /** Numbers, booleans and null are atoms. */
  datatype Json = Str(text: string) | Atom(kind: nat, id: nat) | Items(items: seq<Json>) | Object(fields: seq<Field>)

  datatype Failure = BadPointer | BadEscape | BadIndex | NoIndex | NoKey | NotContainer

  // ---- Escaping ----------------------------------------------------------------------------

  const TILDE: string := ['~']
  const SLASH: string := ['/']
  const TILDE_ZERO: string := ['~', '0']
  const TILDE_ONE: string := ['~', '1']

  function Escape(key: string): string {
    Replace(Replace(key, TILDE, TILDE_ZERO), SLASH, TILDE_ONE)
  }

  function Unescape(part: string): string {
    Replace(Replace(part, TILDE_ONE, SLASH), TILDE_ZERO, TILDE)
  }

  /** No tilde stands without the digit that makes it an escape. */
  predicate ValidEscapes(s: string) {
    forall i | 0 <= i < |s| && s[i] == '~' :: i + 1 < |s| && (s[i + 1] == '0' || s[i + 1] == '1')
  }

  // ---- Reading -----------------------------------------------------------------------------

  function PointerParts(path: string): Result<seq<string>, Failure> {
    if path != [] && path[0] != '/' then Err(BadPointer)
    else if !ValidEscapes(path) then Err(BadEscape)
    else Ok(Unescaped(Split(path, '/')[1..]))
  }

  function Unescaped(pieces: seq<string>): seq<string> {
    seq(|pieces|, k requires 0 <= k < |pieces| => Unescape(pieces[k]))
  }

  function DigitChar(d: nat): char
    requires d < 10
  {
    "0123456789"[d]
  }

  predicate IsDigit(c: char) {
    '0' <= c <= '9'
  }

  function DigitOf(c: char): (d: nat)
    requires IsDigit(c)
    ensures d < 10
  {
    c as int - '0' as int
  }

  predicate IsIndex(part: string) {
    part != [] && (forall i | 0 <= i < |part| :: IsDigit(part[i])) && (|part| > 1 ==> part[0] != '0')
  }

  function IndexOf(part: string): nat
    requires IsIndex(part)
  {
    Value(seq(|part|, i requires 0 <= i < |part| => DigitOf(part[i])), 10)
  }

  function Decimal(n: nat): string {
    var digits := Digits(n, 10);
    seq(|digits|, i requires 0 <= i < |digits| => DigitChar(digits[i]))
  }

  /** The value a key stands for; an object holds each key once. */
  function Find(fields: seq<Field>, key: string): Option<Json> {
    if fields == [] then None
    else if fields[0].key == key then Some(fields[0].value)
    else Find(fields[1..], key)
  }

  function Child(value: Json, part: string): Result<Json, Failure> {
    match value
    case Items(items) =>
      if !IsIndex(part) then Err(BadIndex)
      else if IndexOf(part) >= |items| then Err(NoIndex)
      else Ok(items[IndexOf(part)])
    case Object(fields) => if Find(fields, part).Some? then Ok(Find(fields, part).value) else Err(NoKey)
    case _ => Err(NotContainer)
  }

  function At(value: Json, parts: seq<string>): Result<Json, Failure>
    decreases |parts|
  {
    if parts == [] then Ok(value)
    else
      var child :- Child(value, parts[0]);
      At(child, parts[1..])
  }

  function Lookup(value: Json, path: string): Result<Json, Failure> {
    var parts :- PointerParts(path);
    At(value, parts)
  }

  method Evaluate(root: Json, path: string) returns (r: Result<Json, Failure>)
    ensures r == Lookup(root, path)
  {
    var read := PointerParts(path);
    if read.Err? {
      return Err(read.error);
    }
    var parts := read.value;
    var value := root;
    for i := 0 to |parts|
      invariant At(root, parts) == At(value, parts[i..])
    {
      var part := parts[i];
      assert parts[i..][1..] == parts[i + 1..];
      match value {
        case Items(items) =>
          if !IsIndex(part) {
            return Err(BadIndex);
          }
          if IndexOf(part) >= |items| {
            return Err(NoIndex);
          }
          value := items[IndexOf(part)];
        case Object(fields) =>
          var found := Find(fields, part);
          if found.None? {
            return Err(NoKey);
          }
          value := found.value;
        case _ =>
          return Err(NotContainer);
      }
    }
    return Ok(value);
  }

  // ---- Writing -----------------------------------------------------------------------------

  predicate IsLeaf(value: Json) {
    value.Str? || value.Atom?
  }

  function Width(value: Json): nat {
    match value
    case Items(items) => |items|
    case Object(fields) => |fields|
    case _ => 0
  }

  function KeyAt(value: Json, i: nat): string
    requires i < Width(value)
  {
    if value.Items? then Decimal(i) else value.fields[i].key
  }

  function ChildAt(value: Json, i: nat): (child: Json)
    requires i < Width(value)
    ensures child < value
  {
    if value.Items? then value.items[i] else value.fields[i].value
  }

  datatype Leaf = Leaf(path: string, value: Json)

  function Leaves(value: Json, path: string): seq<Leaf>
    decreases value, Width(value) + 1
  {
    if IsLeaf(value) then [Leaf(path, value)] else LeavesFrom(value, 0, path)
  }

  /** The leaves under the children from the `i`th on. */
  function LeavesFrom(value: Json, i: nat, path: string): seq<Leaf>
    requires i <= Width(value)
    decreases value, Width(value) - i
  {
    if i == Width(value) then []
    else Leaves(ChildAt(value, i), path + ['/'] + Escape(KeyAt(value, i))) + LeavesFrom(value, i + 1, path)
  }
}
