/**
 The names Codex appends to its index. A newer record hides every older one of its identity; the
 reader looks at the end of the log only, newest record first.

 Parsing a line is a given, and so is shortening a name for display.
 */
module Titles {
  import opened Wrappers
  import opened Lines
  import opened Sequences

  const INDEX_BYTES: nat := 4 * 1024 * 1024

  const RECORD_BYTES: nat := 64 * 1024

  datatype Name = Name(id: string, threadName: string)

  type Parser = Bytes -> Option<Name>

  function Min(a: nat, b: nat): nat {
    if a <= b then a else b
  }

  /** What a line records, when it is small enough to be read. */
  function Recorded(line: Bytes, parse: Parser): Option<Name> {
    if |line| > RECORD_BYTES then None else parse(line)
  }

  /** The meaning of the log: read forward, the last record of an identity wins. */
  function Names(lines: seq<Bytes>, parse: Parser): map<string, string> {
    if lines == [] then map[]
    else
      var names := Names(lines[..|lines| - 1], parse);
      match Recorded(lines[|lines| - 1], parse)
      case None => names
      case Some(name) => names[name.id := name.threadName]
  }

  function Chomped(lines: seq<Bytes>): seq<Bytes>
    requires forall k | 0 <= k < |lines| :: lines[k] != []
  {
    seq(|lines|, k requires 0 <= k < |lines| => lines[k][..|lines[k]| - 1])
  }

  /** The records a log holds whole, without their newlines. */
  function CompleteLines(s: Bytes): seq<Bytes> {
    Chomped(SplitInclusive(s[..WholeLen(s)]))
  }

  // ---- The window --------------------------------------------------------------------------

  /** Where reading starts in a log measured at `length`. */
  function WindowStart(length: nat): nat {
    if length > INDEX_BYTES then length - INDEX_BYTES else 0
  }

  /** The log up to where reading ends; it may have grown since it was measured. */
  function Seen(log: Bytes, length: nat): Bytes
    requires length <= |log|
  {
    log[..Min(|log|, WindowStart(length) + INDEX_BYTES)]
  }

  predicate HasLF(s: Bytes) {
    FirstLine(s) > 0 && s[FirstLine(s) - 1] == LF
  }

  /** The records of a window, which may start inside one. */
  function RecordsIn(window: Bytes, start: nat): seq<Bytes> {
    if start == 0 then CompleteLines(window)
    else if !HasLF(window) then []
    else CompleteLines(window[FirstLine(window)..])
  }

  /** The records the reader admits: those after the window's first newline, or all when it starts the log. */
  function WindowLines(log: Bytes, length: nat): seq<Bytes>
    requires length <= |log|
  {
    RecordsIn(Seen(log, length)[WindowStart(length)..], WindowStart(length))
  }

  // ---- Reading backwards -------------------------------------------------------------------

  /** The pieces between newlines. */
  function Between(s: Bytes): (pieces: seq<Bytes>)
    ensures pieces != []
    decreases |s|
  {
    if !HasLF(s) then [s] else [s[..FirstLine(s) - 1]] + Between(s[FirstLine(s)..])
  }

  function LastLF(s: Bytes): (r: Option<nat>)
    ensures r.Some? ==> r.value < |s| && s[r.value] == LF && forall i | r.value < i < |s| :: s[i] != LF
    ensures r.None? ==> NoLF(s)
  {
    if s == [] then None else if s[|s| - 1] == LF then Some(|s| - 1) else LastLF(s[..|s| - 1])
  }

  lemma ChompedAppend(a: seq<Bytes>, b: seq<Bytes>)
    requires (forall k | 0 <= k < |a| :: a[k] != []) && (forall k | 0 <= k < |b| :: b[k] != [])
    ensures forall k | 0 <= k < |a + b| :: (a + b)[k] != []
    ensures Chomped(a + b) == Chomped(a) + Chomped(b)
  {
  }

  /** Pieces between newlines are the lines of the text once its last newline is put back. */
  lemma {:induction false} BetweenChomped(front: Bytes)
    ensures Between(front) == Chomped(SplitInclusive(front + [LF]))
    decreases |front|
  {
    if !HasLF(front) {
      NoFirstLF(front);
      BetweenOne(front);
    } else {
      var line, rest := FirstAndRest(front);
      BetweenChomped(rest);
      BetweenFirst(line, rest);
    }
  }

  lemma {:induction false} NoFirstLF(s: Bytes)
    requires !HasLF(s)
    ensures NoLF(s)
  {
    if s != [] {
      NoFirstLF(s[1..]);
      Uncons(s);
    }
  }

  lemma FirstAndRest(s: Bytes) returns (line: Bytes, rest: Bytes)
    requires HasLF(s)
    ensures s == line + [LF] + rest && NoLF(line) && |rest| < |s|
  {
    line, rest := s[..FirstLine(s) - 1], s[FirstLine(s)..];
  }

  lemma BetweenOne(line: Bytes)
    requires NoLF(line)
    ensures Between(line) == Chomped(SplitInclusive(line + [LF]))
  {
    OneLine(line + [LF]);
  }

  /** The first piece, before the pieces of the rest. */
  lemma BetweenFirst(line: Bytes, rest: Bytes)
    requires NoLF(line) && Between(rest) == Chomped(SplitInclusive(rest + [LF]))
    ensures Between(line + [LF] + rest) == Chomped(SplitInclusive(line + [LF] + rest + [LF]))
  {
    Associates(line + [LF], rest, [LF]);
    SplitAppend(line + [LF], rest + [LF]);
    OneLine(line + [LF]);
    BetweenCons(line, rest);
    ChompedCons(line, SplitInclusive(rest + [LF]));
  }

  lemma BetweenCons(line: Bytes, rest: Bytes)
    requires NoLF(line)
    ensures Between(line + [LF] + rest) == [line] + Between(rest)
  {
    var s := line + [LF] + rest;
    FirstLineOf(line, rest);
    assert s[..|line|] == line && s[|line| + 1..] == rest;
  }

  lemma {:induction false} FirstLineOf(line: Bytes, rest: Bytes)
    requires NoLF(line)
    ensures FirstLine(line + [LF] + rest) == |line| + 1
  {
    var s := line + [LF] + rest;
    if line != [] {
      assert s[1..] == line[1..] + [LF] + rest;
      FirstLineOf(line[1..], rest);
    }
  }

  lemma ChompedCons(line: Bytes, rest: seq<Bytes>)
    requires forall k | 0 <= k < |rest| :: rest[k] != []
    ensures Chomped([line + [LF]] + rest) == [line] + Chomped(rest)
  {
    ChompedAppend([line + [LF]], rest);
  }

  lemma WholeOfRest(window: Bytes, begin: nat, end: nat)
    requires begin <= end < |window| && LastLF(window) == Some(end)
    ensures WholeLen(window[begin..]) == end - begin + 1
  {
    var rest, m := window[begin..], end - begin + 1;
    assert rest[..m][m - 1] == window[end];
    forall i | m <= i < |rest| ensures rest[i] != LF {
      assert rest[i] == window[begin + i];
    }
    WholeLenUnique(rest, m);
  }

  lemma CompleteOf(whole: Bytes, rest: Bytes)
    requires rest[..WholeLen(rest)] == whole
    ensures CompleteLines(rest) == Chomped(SplitInclusive(whole))
  {
  }

  lemma RestLines(rest: Bytes, m: nat)
    requires 0 < m <= |rest| && WholeLen(rest) == m
    ensures Between(rest[..m - 1]) == CompleteLines(rest)
  {
    TakeMore(rest, m - 1);
    assert rest[..m][m - 1] == LF;
    BetweenChomped(rest[..m - 1]);
    CompleteOf(rest[..m - 1] + [LF], rest);
  }

  /** What lies between two offsets of the window is its complete records. */
  lemma SliceLines(window: Bytes, begin: nat, end: nat)
    requires begin <= end < |window| && LastLF(window) == Some(end)
    ensures Between(window[begin..end]) == CompleteLines(window[begin..])
  {
    WholeOfRest(window, begin, end);
    RestLines(window[begin..], end - begin + 1);
    TakeOfDrop(window, begin, end);
  }

  lemma NoLines(window: Bytes)
    requires NoLF(window)
    ensures CompleteLines(window) == []
  {
    WholeLenUnique(window, 0);
  }

  lemma NamesSnoc(front: seq<Bytes>, line: Bytes, parse: Parser)
    ensures Names(front + [line], parse) == match Recorded(line, parse) case None => Names(front, parse)
                                            case Some(name) => Names(front, parse)[name.id := name.threadName]
  {
    assert (front + [line])[..|front|] == front;
  }

  /** Reading on overrides what was read before. */
  lemma {:induction false} NamesAppend(a: seq<Bytes>, b: seq<Bytes>, parse: Parser)
    ensures Names(a + b, parse) == Names(a, parse) + Names(b, parse)
  {
    if b == [] {
      assert a + b == a;
    } else {
      var front, line := b[..|b| - 1], b[|b| - 1];
      NamesAppend(a, front, parse);
      NamesSnoc(a + front, line, parse);
      NamesSnoc(front, line, parse);
      assert a + b == a + front + [line] && b == front + [line];
    }
  }

  lemma NamesCons(line: Bytes, rest: seq<Bytes>, parse: Parser)
    ensures Names([line] + rest, parse) == match Recorded(line, parse) case None => Names(rest, parse)
                                           case Some(name) => map[name.id := name.threadName] + Names(rest, parse)
  {
    NamesAppend([line], rest, parse);
    NamesSnoc([], line, parse);
    assert [] + [line] == [line];
  }

  // ---- The loop ----------------------------------------------------------------------------

  /** Distinct slots for distinct identities. */
  ghost predicate Slots(pending: map<string, nat>, n: nat) {
    && (forall id | id in pending :: pending[id] < n)
    && (forall a, b | a in pending && b in pending :: pending[a] == pending[b] ==> a == b)
  }

  /** Each slot shows its identity's name, where there is one; nothing else changed. */
  ghost predicate Shown(slots: map<string, nat>, names: map<string, string>,
                        was: seq<Option<string>>, now: seq<Option<string>>, show: string -> Option<string>)
    requires Slots(slots, |was|) && |now| == |was|
  {
    && (forall id | id in slots :: now[slots[id]] == if id in names then show(names[id]) else was[slots[id]])
    && (forall k | 0 <= k < |was| :: k !in slots.Values ==> now[k] == was[k])
  }

  /** The identities still pending once `names` is read. */
  ghost predicate Left(slots: map<string, nat>, pending: map<string, nat>, names: map<string, string>) {
    && (forall id :: id in pending <==> id in slots && id !in names)
    && (forall id | id in pending :: pending[id] == slots[id])
  }

  /** Reading back as far as `names`: the slots told so far, and the identities still pending. */
  ghost predicate Told(slots: map<string, nat>, pending: map<string, nat>, names: map<string, string>,
                       was: seq<Option<string>>, now: seq<Option<string>>, show: string -> Option<string>)
    requires Slots(slots, |was|) && |now| == |was|
  {
    Left(slots, pending, names) && Shown(slots, names, was, now, show)
  }

  lemma TellOne(slots: map<string, nat>, pending: map<string, nat>, names: map<string, string>,
                was: seq<Option<string>>, now: seq<Option<string>>, show: string -> Option<string>, name: Name)
    requires Slots(slots, |was|) && |now| == |was| && Told(slots, pending, names, was, now, show)
    ensures name.id in pending ==> pending[name.id] == slots[name.id]
    ensures var names' := map[name.id := name.threadName] + names;
            if name.id in pending
            then Told(slots, pending - {name.id}, names', was, now[slots[name.id] := show(name.threadName)], show)
            else Told(slots, pending, names', was, now, show)
  {
  }

  /** Writes the newest name of each pending identity into its slot and stops when none is left. */
  method ScanBack(lines: seq<Bytes>, slots: map<string, nat>, titles: array<Option<string>>,
                  show: string -> Option<string>, parse: Parser)
    requires Slots(slots, titles.Length)
    modifies titles
    ensures Shown(slots, Names(lines, parse), old(titles[..]), titles[..], show)
  {
    var pending := slots;
    ghost var names: map<string, string> := map[];
    for i := |lines| downto 0
      invariant names == Names(lines[i..], parse)
      invariant Told(slots, pending, names, old(titles[..]), titles[..], show)
    {
      NamesFrom(lines, i, parse);
      if |lines[i]| > RECORD_BYTES {
        continue;
      }
      var name := parse(lines[i]);
      if name.None? {
        continue;
      }
      names, pending := Tell(slots, pending, names, old(titles[..]), titles, show, name.value);
      if |pending| == 0 {
        NoneLeft(lines, i, parse, slots, pending, old(titles[..]), titles[..], show);
        return;
      }
    }
    NothingMore(lines);
  }

  /** One name: told if its identity is still pending, which it then no longer is. */
  method Tell(slots: map<string, nat>, pending: map<string, nat>, ghost names: map<string, string>,
              ghost was: seq<Option<string>>,
              titles: array<Option<string>>, show: string -> Option<string>, name: Name)
    returns (ghost names': map<string, string>, pending': map<string, nat>)
    requires |was| == titles.Length && Slots(slots, titles.Length) && Told(slots, pending, names, was, titles[..], show)
    modifies titles
    ensures names' == map[name.id := name.threadName] + names
    ensures Told(slots, pending', names', was, titles[..], show)
  {
    TellOne(slots, pending, names, was, titles[..], show, name);
    names', pending' := map[name.id := name.threadName] + names, pending;
    if name.id in pending {
      ghost var now := titles[..];
      titles[pending[name.id]] := show(name.threadName);
      assert titles[..] == now[slots[name.id] := show(name.threadName)];
      pending' := pending - {name.id};
    }
  }

  lemma NamesFrom(lines: seq<Bytes>, i: nat, parse: Parser)
    requires i < |lines|
    ensures Names(lines[i..], parse) == match Recorded(lines[i], parse) case None => Names(lines[i + 1..], parse)
                                        case Some(name) =>
                                          map[name.id := name.threadName] + Names(lines[i + 1..], parse)
  {
    DropMore(lines, i);
    NamesCons(lines[i], lines[i + 1..], parse);
  }

  /** When nothing is pending, older records change nothing that is shown. */
  lemma NoneLeft(lines: seq<Bytes>, i: nat, parse: Parser, slots: map<string, nat>, pending: map<string, nat>,
                 was: seq<Option<string>>, now: seq<Option<string>>, show: string -> Option<string>)
    requires i <= |lines| && |now| == |was| && Slots(slots, |was|) && |pending| == 0
    requires Told(slots, pending, Names(lines[i..], parse), was, now, show)
    ensures Shown(slots, Names(lines, parse), was, now, show)
  {
    NamesAppend(lines[..i], lines[i..], parse);
    TakeDrop(lines, i);
    forall id | id in slots ensures id in Names(lines[i..], parse) {
      assert id !in pending;
    }
  }

  /** What the index says of the pending identities; None stands for a log that is no file. */
  function Known(log: Option<Bytes>, length: nat, parse: Parser): map<string, string>
    requires log.Some? ==> length <= |log.value|
  {
    if log.None? then map[] else Names(WindowLines(log.value, length), parse)
  }

  /** Reads the end of the log and cuts it into the records that begin there. */
  method ReadWindow(log: Bytes, length: nat) returns (lines: seq<Bytes>)
    requires length <= |log|
    ensures lines == WindowLines(log, length)
  {
    var start := if length > INDEX_BYTES then length - INDEX_BYTES else 0;
    var bytes := log[start..Min(|log|, start + INDEX_BYTES)];
    WindowSlice(log, start, Min(|log|, start + INDEX_BYTES));
    lines := CutWindow(bytes, start);
  }

  method CutWindow(bytes: Bytes, start: nat) returns (lines: seq<Bytes>)
    ensures lines == RecordsIn(bytes, start)
  {
    var begin := 0;
    var last := LastLF(bytes);
    if start > 0 {
      if !HasLF(bytes) {
        return [];
      }
      begin := FirstLine(bytes);
    }
    NothingMore(bytes);
    assert RecordsIn(bytes, start) == CompleteLines(bytes[begin..]);
    if last.None? {
      AfterLast(bytes, begin);
      return [];
    }
    if begin > last.value {
      AfterLast(bytes, begin);
      return [];
    }
    SliceLines(bytes, begin, last.value);
    return Between(bytes[begin..last.value]);
  }

  lemma AfterLast(bytes: Bytes, begin: nat)
    requires begin <= |bytes| && (LastLF(bytes).None? || begin > LastLF(bytes).value)
    ensures CompleteLines(bytes[begin..]) == []
  {
    forall i | 0 <= i < |bytes[begin..]| ensures bytes[begin..][i] != LF {
      assert bytes[begin..][i] == bytes[begin + i];
    }
    NoLines(bytes[begin..]);
  }

  lemma WindowSlice(log: Bytes, start: nat, stop: nat)
    requires start <= stop <= |log|
    ensures log[..stop][start..] == log[start..stop]
  {
  }

  method LatestNames(log: Option<Bytes>, length: nat, pending: map<string, nat>, titles: array<Option<string>>,
                     show: string -> Option<string>, parse: Parser)
    requires (log.Some? ==> length <= |log.value|) && Slots(pending, titles.Length)
    modifies titles
    ensures forall id | id in pending ::
              titles[pending[id]] == if id in Known(log, length, parse) then show(Known(log, length, parse)[id])
                                     else old(titles[pending[id]])
    ensures forall k | 0 <= k < titles.Length :: k !in pending.Values ==> titles[k] == old(titles[k])
  {
    if |pending| == 0 || log.None? {
      return;
    }
    var lines := ReadWindow(log.value, length);
    ScanBack(lines, pending, titles, show, parse);
  }

  /** The slot of an identity is its last session. */
  ghost predicate LastOf(ids: seq<string>, k: nat)
    requires k < |ids|
  {
    forall j | k < j < |ids| :: ids[j] != ids[k]
  }

  method ApplyNames(log: Option<Bytes>, length: nat, ids: seq<string>, titles: array<Option<string>>,
                    preview: string -> Option<string>, parse: Parser)
    requires (log.Some? ==> length <= |log.value|) && |ids| == titles.Length
    modifies titles
    ensures forall k | 0 <= k < |ids| ::
              titles[k] == if LastOf(ids, k) && ids[k] in Known(log, length, parse)
                           then preview(Known(log, length, parse)[ids[k]]) else old(titles[k])
  {
    var pending: map<string, nat> := map[];
    for k := 0 to |ids|
      invariant forall id | id in pending :: pending[id] < k && ids[pending[id]] == id && LastOf(ids[..k], pending[id])
      invariant forall j | 0 <= j < k :: ids[j] in pending
    {
      pending := pending[ids[k] := k];
    }
    assert ids[..|ids|] == ids;
    LatestNames(log, length, pending, titles, preview, parse);
    forall k | 0 <= k < |ids|
      ensures titles[k] == if LastOf(ids, k) && ids[k] in Known(log, length, parse)
                           then preview(Known(log, length, parse)[ids[k]]) else old(titles[k])
    {
      if LastOf(ids, k) {
        assert pending[ids[k]] == k;
      } else {
        assert k !in pending.Values;
      }
    }
  }

  method NameOf(log: Option<Bytes>, length: nat, id: string, parse: Parser) returns (found: Option<string>)
    requires log.Some? ==> length <= |log.value|
    ensures found == if id in Known(log, length, parse) then Some(Known(log, length, parse)[id]) else None
  {
    var slot := new Option<string>[1](_ => None);
    LatestNames(log, length, map[id := 0], slot, name => Some(name), parse);
    assert map[id := 0 as nat][id] == 0;
    found := slot[0];
  }

  // ---- What the window knows ---------------------------------------------------------------

  lemma LinesAppend(a: Bytes, b: Bytes)
    requires Whole(a)
    ensures CompleteLines(a + b) == CompleteLines(a) + CompleteLines(b)
  {
    var n := WholeLen(b);
    assert WholeLen(a + b) == |a| + n by {
      WholeAppend(a, b, n);
    }
    assert (a + b)[..|a| + n] == a + b[..n];
    SplitAppend(a, b[..n]);
    ChompedAppend(SplitInclusive(a), SplitInclusive(b[..n]));
    assert a[..WholeLen(a)] == a;
  }

  lemma WholeAppend(a: Bytes, b: Bytes, n: nat)
    requires Whole(a) && n == WholeLen(b)
    ensures WholeLen(a + b) == |a| + n
  {
    assert n > 0 ==> b[..n][n - 1] == LF;
    WholeLenUnique(a + b, |a| + n);
  }

  /** The admitted records are the last records of the log. */
  lemma WindowIsSuffix(log: Bytes, length: nat) returns (older: seq<Bytes>)
    requires length <= |log|
    ensures CompleteLines(Seen(log, length)) == older + WindowLines(log, length)
    ensures length <= INDEX_BYTES ==> older == []
  {
    var start, seen := WindowStart(length), Seen(log, length);
    var window := seen[start..];
    if start == 0 {
      assert window == seen;
      return [];
    } else if !HasLF(window) {
      assert CompleteLines(seen) + [] == CompleteLines(seen);
      return CompleteLines(seen);
    } else {
      var n := start + FirstLine(window);
      NewlineAt(seen, start);
      LinesAppend(seen[..n], seen[n..]);
      TakeDrop(seen, n);
      return CompleteLines(seen[..n]);
    }
  }

  /** The text through the first newline after `start` is whole. */
  lemma NewlineAt(seen: Bytes, start: nat)
    requires start <= |seen| && HasLF(seen[start..])
    ensures var n := start + FirstLine(seen[start..]);
            n <= |seen| && Whole(seen[..n]) && seen[n..] == seen[start..][FirstLine(seen[start..])..]
  {
    var window := seen[start..];
    var n := start + FirstLine(window);
    assert seen[..n][n - 1] == window[FirstLine(window) - 1];
  }

  /** Unless it grew past the budget while being read, the whole log is what was seen. */
  lemma SeenAll(log: Bytes, length: nat)
    requires length <= |log|
    ensures log[..length] <= Seen(log, length)
    ensures |log| <= WindowStart(length) + INDEX_BYTES ==> Seen(log, length) == log
    ensures length == |log| ==> Seen(log, length) == log
  {
  }

  /**
   Any name the reader reports is the newest complete, readable record of that identity in the
   whole log, and a log within the budget has every identity's name reported.
   */
  lemma ReportsTheNewest(log: Bytes, length: nat, parse: Parser, id: string)
    requires length <= |log|
    ensures var whole, known := Names(CompleteLines(Seen(log, length)), parse), Known(Some(log), length, parse);
            && (id in known ==> id in whole && known[id] == whole[id])
            && (length <= INDEX_BYTES ==> known == whole)
            && (length == |log| ==> whole == Names(CompleteLines(log), parse))
  {
    SeenAll(log, length);
    var older := WindowIsSuffix(log, length);
    NamesAppend(older, WindowLines(log, length), parse);
    assert [] + WindowLines(log, length) == WindowLines(log, length);
  }

  /** An identity has a name exactly when one of the lines records one, and it is the last such. */
  lemma {:induction false} NamesMeaning(lines: seq<Bytes>, parse: Parser, id: string)
    ensures id in Names(lines, parse) <==> exists i | 0 <= i < |lines| :: Records(lines[i], id, parse)
    ensures forall i | 0 <= i < |lines| ::
              Records(lines[i], id, parse) && (forall j | i < j < |lines| :: !Records(lines[j], id, parse))
              ==> Names(lines, parse)[id] == Recorded(lines[i], parse).value.threadName
  {
    if lines != [] {
      var front, last := lines[..|lines| - 1], |lines| - 1;
      NamesMeaning(front, parse, id);
      assert forall i | 0 <= i < last :: front[i] == lines[i];
      if id in Names(lines, parse) && !Records(lines[last], id, parse) {
        var i :| 0 <= i < last && Records(front[i], id, parse);
        assert Records(lines[i], id, parse);
      }
      if Records(lines[last], id, parse) {
        assert id in Names(lines, parse);
      }
    }
  }

  predicate Records(line: Bytes, id: string, parse: Parser) {
    Recorded(line, parse).Some? && Recorded(line, parse).value.id == id
  }
}
