/** Newline-delimited byte text, the shape of every transcript and rollout carrier. */
module Lines {
  import opened Sequences

  type byte = b: int | 0 <= b < 256

  type Bytes = seq<byte>

  const LF: byte := 10

  /** Text made of whole lines only; the last write was not torn. */
  predicate Whole(s: Bytes) {
    s == [] || s[|s| - 1] == LF
  }

  predicate NoLF(s: Bytes) {
    forall i | 0 <= i < |s| :: s[i] != LF
  }

  /** The length of the first line with its newline, or of everything when there is none. */
  function FirstLine(s: Bytes): (n: nat)
    ensures n <= |s| && (s != [] ==> n > 0)
    ensures forall i | 0 <= i < n - 1 :: s[i] != LF
    ensures n < |s| ==> s[n - 1] == LF
  {
    if s == [] then 0
    else if s[0] == LF then 1
    else FirstLine(s[1..]) + 1
  }

  /** Lines with their newlines; the last one may lack it. */
  function SplitInclusive(s: Bytes): (lines: seq<Bytes>)
    ensures forall k | 0 <= k < |lines| :: lines[k] != []
    decreases |s|
  {
    if s == [] then []
    else [s[..FirstLine(s)]] + SplitInclusive(s[FirstLine(s)..])
  }

  function Joined(lines: seq<Bytes>): Bytes {
    if lines == [] then [] else Joined(lines[..|lines| - 1]) + lines[|lines| - 1]
  }

  lemma {:induction false} JoinedAppend(a: seq<Bytes>, b: seq<Bytes>)
    ensures Joined(a + b) == Joined(a) + Joined(b)
  {
    if b == [] {
      assert a + b == a;
    } else {
      var front := b[..|b| - 1];
      JoinedAppend(a, front);
      assert (a + b)[..|a + b| - 1] == a + front;
      assert Joined(a + b) == Joined(a + front) + b[|b| - 1];
    }
  }

  lemma JoinedOne(line: Bytes)
    ensures Joined([line]) == line
  {
    assert [line][..0] == [];
  }

  lemma {:induction false} JoinedSplit(s: Bytes)
    ensures Joined(SplitInclusive(s)) == s
    decreases |s|
  {
    if s != [] {
      var n := FirstLine(s);
      JoinedSplit(s[n..]);
      JoinedOne(s[..n]);
      JoinedAppend([s[..n]], SplitInclusive(s[n..]));
    }
  }

  lemma {:induction false} FirstLineAppend(a: Bytes, b: Bytes)
    requires a != [] && Whole(a)
    ensures FirstLine(a + b) == FirstLine(a)
  {
    if a[0] != LF {
      assert (a + b)[1..] == a[1..] + b;
      FirstLineAppend(a[1..], b);
    }
  }

  /** Whole text splits on its own, whatever is appended to it. */
  lemma {:induction false} SplitAppend(a: Bytes, b: Bytes)
    requires Whole(a)
    ensures SplitInclusive(a + b) == SplitInclusive(a) + SplitInclusive(b)
    decreases |a|
  {
    if a == [] {
      assert a + b == b;
    } else {
      var n := FirstLine(a);
      FirstLineAppend(a, b);
      assert (a + b)[..n] == a[..n];
      assert (a + b)[n..] == a[n..] + b;
      SplitAppend(a[n..], b);
      assert SplitInclusive(a + b) == [a[..n]] + (SplitInclusive(a[n..]) + SplitInclusive(b));
    }
  }

  lemma OneLine(line: Bytes)
    requires line != [] && forall i | 0 <= i < |line| - 1 :: line[i] != LF
    ensures SplitInclusive(line) == [line]
  {
    var n := FirstLine(line);
    assert line[..n] == line && line[n..] == [];
  }

  /** A piece has no newline before its end, and only the last piece can be torn. */
  lemma {:induction false} LineShape(s: Bytes, k: nat)
    requires k < |SplitInclusive(s)|
    ensures var piece := SplitInclusive(s)[k];
            (forall i | 0 <= i < |piece| - 1 :: piece[i] != LF)
                && (k + 1 < |SplitInclusive(s)| || Whole(s) ==> Whole(piece))
    decreases |s|
  {
    var n := FirstLine(s);
    if k > 0 {
      LineShape(s[n..], k - 1);
    }
  }

  /** Cutting the joined text after a number of its lines. */
  lemma JoinedTake(lines: seq<Bytes>, k: nat)
    requires k <= |lines|
    ensures Joined(lines[..k]) <= Joined(lines)
    ensures |Joined(lines[..k])| <= |Joined(lines)|
  {
    JoinedAppend(lines[..k], lines[k..]);
    assert lines[..k] + lines[k..] == lines;
  }

  /** The text before a line boundary is whole and splits into exactly the lines before it. */
  lemma {:induction false} SplitTake(s: Bytes, k: nat)
    requires k <= |SplitInclusive(s)|
    requires k < |SplitInclusive(s)| || Whole(s)
    ensures var front := Joined(SplitInclusive(s)[..k]);
            Whole(front) && SplitInclusive(front) == SplitInclusive(s)[..k]
  {
    if k > 0 {
      SplitTake(s, k - 1);
      LineShape(s, k - 1);
      SplitMore(s, k);
    }
  }

  /** One more line than a front that is whole. */
  lemma SplitMore(s: Bytes, k: nat)
    requires 0 < k <= |SplitInclusive(s)|
    requires var front := Joined(SplitInclusive(s)[..k - 1]);
             Whole(front) && SplitInclusive(front) == SplitInclusive(s)[..k - 1]
    requires var piece := SplitInclusive(s)[k - 1]; Whole(piece) && forall i | 0 <= i < |piece| - 1 :: piece[i] != LF
    ensures var front := Joined(SplitInclusive(s)[..k]);
            Whole(front) && SplitInclusive(front) == SplitInclusive(s)[..k]
  {
    var lines := SplitInclusive(s);
    TakeMore(lines, k - 1);
    assert Joined(lines[..k]) == Joined(lines[..k - 1]) + lines[k - 1];
    SplitAppend(Joined(lines[..k - 1]), lines[k - 1]);
    OneLine(lines[k - 1]);
  }

  /** The text through the `k`th line: a cut at a line's end, or everything. */
  lemma CutAtLine(s: Bytes, k: nat)
    requires 0 < k <= |SplitInclusive(s)|
    ensures var front := Joined(SplitInclusive(s)[..k]);
            && 0 < |front| <= |s| && front == s[..|front|] && SplitInclusive(front) == SplitInclusive(s)[..k]
            && (Whole(front) || |front| == |s|)
  {
    var lines := SplitInclusive(s);
    JoinedSplit(s);
    JoinedTake(lines, k);
    TakeMore(lines, k - 1);
    assert Joined(lines[..k]) == Joined(lines[..k - 1]) + lines[k - 1];
    if k < |lines| {
      SplitTake(s, k);
    } else {
      NothingMore(lines);
    }
  }

  /** The length of the longest whole prefix: everything through the last newline. */
  function WholeLen(s: Bytes): (n: nat)
    ensures n <= |s| && Whole(s[..n])
    ensures forall i | n <= i < |s| :: s[i] != LF
  {
    if Whole(s) then |s| else WholeLen(s[..|s| - 1])
  }

  lemma WholeLenUnique(s: Bytes, n: nat)
    requires n <= |s| && Whole(s[..n]) && forall i | n <= i < |s| :: s[i] != LF
    ensures WholeLen(s) == n
  {
    var m := WholeLen(s);
    assert n > 0 ==> s[..n][n - 1] == s[n - 1];
    assert m > 0 ==> s[..m][m - 1] == s[m - 1];
  }

  /** The whole part only grows. */
  lemma WholeLenGrows(a: Bytes, b: Bytes)
    ensures WholeLen(a) <= WholeLen(a + b)
  {
    var n := WholeLen(a);
    assert n > 0 ==> a[..n][n - 1] == (a + b)[n - 1];
  }
}
