/** The span map of a capture: a tiling of the stream by carrier bytes, and the lookup into it. */
module CaptureSpans {
  import opened Wrappers
  import opened Lines
  import opened Rollout
  import opened Capture
  import opened CaptureProofs

  /** The stream offset of the first span that copies the last byte of a carrier prefix. */
  function CaptureOffset(spans: seq<Span>, path: string, end: nat): Option<nat> {
    if spans == [] then None
    else if spans[0].path == path && spans[0].start < end <= spans[0].end then
      Some(spans[0].streamStart + (end - spans[0].start))
    else CaptureOffset(spans[1..], path, end)
  }

  /** Some span puts the end of a carrier prefix, the byte before it included, at this stream offset. */
  ghost predicate Places(spans: seq<Span>, path: string, end: nat, offset: nat) {
    exists k | 0 <= k < |spans| :: Covers(spans[k], path, end, offset)
  }

  predicate Covers(span: Span, path: string, end: nat, offset: nat) {
    span.path == path && span.start < end <= span.end && offset == span.streamStart + (end - span.start)
  }

  /** Spans follow each other without gap or overlap, from the start of the stream to `length`. */
  predicate Tiles(spans: seq<Span>, length: int) {
    if spans == [] then length == 0
    else
      var last := spans[|spans| - 1];
      last.start <= last.end && length == SpanEnd(last) && Tiles(spans[..|spans| - 1], last.streamStart)
  }

  function SpanEnd(span: Span): int {
    span.streamStart + (span.end - span.start)
  }

  lemma {:induction false} SpanAt(pieces: seq<Piece>, k: nat)
    requires k < |pieces|
    ensures |Spans(pieces)| == |pieces|
    ensures Spans(pieces)[k] == SpanOf(pieces[k], Total(pieces[..k]))
  {
    var n := |pieces| - 1;
    if k < n {
      SpanAt(pieces[..n], k);
      assert pieces[..n][..k] == pieces[..k];
    } else if n > 0 {
      SpanAt(pieces[..n], 0);
    }
  }

  lemma {:induction false} SpansLength(pieces: seq<Piece>)
    ensures |Spans(pieces)| == |pieces|
  {
    if pieces != [] { SpanAt(pieces, 0); }
  }

  predicate LiesAt(stream: Bytes, start: nat, slice: Bytes) {
    start + |slice| <= |stream| && stream[start..start + |slice|] == slice
  }

  lemma LiesStill(stream: Bytes, more: Bytes, start: nat, slice: Bytes)
    requires LiesAt(stream, start, slice)
    ensures LiesAt(stream + more, start, slice)
  {
  }

  lemma LiesLast(stream: Bytes, slice: Bytes)
    ensures LiesAt(stream + slice, |stream|, slice)
  {
  }

  lemma {:induction false} StreamAt(pieces: seq<Piece>, k: nat)
    requires k < |pieces| && forall t | 0 <= t < |pieces| :: Fitted(pieces[t], true)
    ensures LiesAt(Stream(pieces), Total(pieces[..k]), Slice(pieces[k])) && |Slice(pieces[k])| == pieces[k].kept
  {
    var n := |pieces| - 1;
    var front := FrontFits(pieces, k);
    var before, last := Stream(front), Slice(pieces[n]);
    assert Stream(pieces) == before + last;
    if k < n {
      StreamAt(front, k);
      LiesStill(before, last, Total(pieces[..k]), Slice(pieces[k]));
    } else {
      StreamLength(front);
      LiesLast(before, last);
    }
  }

  lemma FrontFits(pieces: seq<Piece>, k: nat) returns (front: seq<Piece>)
    requires k < |pieces| && forall t | 0 <= t < |pieces| :: Fitted(pieces[t], true)
    ensures front == pieces[..|pieces| - 1] && forall t | 0 <= t < |front| :: Fitted(front[t], true)
    ensures k < |front| ==> front[..k] == pieces[..k] && front[k] == pieces[k]
    ensures |Slice(pieces[k])| == pieces[k].kept
  {
    front := pieces[..|pieces| - 1];
    assert Fitted(pieces[k], true);
  }

  lemma {:induction false} SpansOfPiecesTile(pieces: seq<Piece>)
    requires forall t | 0 <= t < |pieces| :: Fitted(pieces[t], true)
    ensures Tiles(Spans(pieces), Total(pieces))
  {
    if pieces != [] {
      var n := |pieces| - 1;
      SpansOfPiecesTile(pieces[..n]);
      assert Fitted(pieces[n], true);
      assert Spans(pieces)[..|Spans(pieces)| - 1] == Spans(pieces[..n]);
    }
  }

  /** A piece is exactly the carrier bytes its span names. */
  ghost predicate Copies(disk: Disk, bytes: Bytes, span: Span) {
    var file := disk.file(span.path);
    && file.Some? && span.start <= span.end <= |file.value|
    && span.streamStart + (span.end - span.start) <= |bytes|
    && bytes[span.streamStart..span.streamStart + (span.end - span.start)] == file.value[span.start..span.end]
  }

  /** A carrier is its header followed by its body. */
  lemma CarrierBytes(disk: Disk, session: string, nodes: seq<Node>, j: nat)
    requires j < |nodes| && NodeHolds(disk, session, true, nodes, j)
    ensures disk.file(nodes[j].path) == Some(nodes[j].parts.header + nodes[j].parts.body)
    ensures nodes[j].parts.header != [] && Whole(nodes[j].parts.header)
  {
    var bytes := disk.file(nodes[j].path).value;
    assert bytes == bytes[..FirstLine(bytes)] + bytes[FirstLine(bytes)..];
  }

  lemma SliceCopies(piece: Piece, file: Bytes, start: nat)
    requires Fitted(piece, true) && file == piece.node.parts.header + piece.node.parts.body
    ensures var span := SpanOf(piece, start);
            span.start <= span.end <= |file| && span.end - span.start == piece.kept
            && Slice(piece) == file[span.start..span.end]
  {
  }

  lemma OnePieceCopies(disk: Disk, bytes: Bytes, piece: Piece, start: nat)
    requires Fitted(piece, true) && LiesAt(bytes, start, Slice(piece)) && |Slice(piece)| == piece.kept
    requires disk.file(piece.node.path) == Some(piece.node.parts.header + piece.node.parts.body)
    ensures Copies(disk, bytes, SpanOf(piece, start))
  {
    SliceCopies(piece, piece.node.parts.header + piece.node.parts.body, start);
  }

  lemma PieceCopies(disk: Disk, session: string, nodes: seq<Node>, pieces: seq<Piece>, k: nat, j: nat)
    requires j < |nodes| && NodeHolds(disk, session, true, nodes, j)
    requires k < |pieces| && pieces[k].node == nodes[j]
    requires forall t | 0 <= t < |pieces| :: Fitted(pieces[t], true)
    ensures Copies(disk, Stream(pieces), SpanOf(pieces[k], Total(pieces[..k])))
  {
    StreamAt(pieces, k);
    CarrierBytes(disk, session, nodes, j);
    assert Fitted(pieces[k], true);
    OnePieceCopies(disk, Stream(pieces), pieces[k], Total(pieces[..k]));
  }

  /** The spans of a full capture tile its stream and copy the right carrier bytes. */
  lemma SpansTile(disk: Disk, source: Source, limits: Limits)
    requires CaptureOf(disk, source, limits, true).Ok?
    ensures var c := CaptureOf(disk, source, limits, true).value;
            && Tiles(c.spans, |c.bytes|)
            && forall k | 0 <= k < |c.spans| :: Copies(disk, c.bytes, c.spans[k])
  {
    WalkFinds(disk, source.session, limits, true, UNREAD, source.path);
    var nodes := NodesOf(disk, source, limits, true);
    var pieces := Pieces(nodes, true, disk.json).value;
    NodesFit(disk, source.session, nodes);
    PiecesFitted(nodes, disk.json);
    StreamLength(pieces);
    PiecesForm(nodes, true, disk.json);
    SpansLength(pieces);
    SpansOfPiecesTile(pieces);
    forall k | 0 <= k < |pieces| ensures Copies(disk, Stream(pieces), Spans(pieces)[k]) {
      var j := if k == 0 then FirstOwn(nodes).value else |nodes| - k;
      assert k > 0 ==> PieceOf(nodes, true, disk.json, pieces[k], |nodes| - k);
      assert NodeHolds(disk, source.session, true, nodes, j);
      SpanAt(pieces, k);
      PieceCopies(disk, source.session, nodes, pieces, k, j);
    }
  }

  predicate Holds(span: Span, position: nat) {
    span.streamStart <= position < SpanEnd(span)
  }

  /** Every stream position is in exactly one span. */
  lemma {:induction false} TileOnce(spans: seq<Span>, length: int, position: nat)
    requires Tiles(spans, length)
    ensures position < length <==> exists k | 0 <= k < |spans| :: Holds(spans[k], position)
    ensures forall j, k | 0 <= j < |spans| && 0 <= k < |spans| && Holds(spans[j], position)
        && Holds(spans[k], position) :: j == k
  {
    if spans != [] {
      var n := |spans| - 1;
      TileOnce(spans[..n], spans[n].streamStart, position);
      assert forall k | 0 <= k < n :: spans[..n][k] == spans[k];
      if position < spans[n].streamStart {
        var k :| 0 <= k < n && Holds(spans[..n][k], position);
        assert Holds(spans[k], position);
      } else if position < length {
        assert Holds(spans[n], position);
      }
    }
  }

  /** No carrier byte is copied twice: paths differ, and a header ends where its body starts. */
  ghost predicate Apart(spans: seq<Span>) {
    forall j, k | 0 <= j < k < |spans| && spans[j].path == spans[k].path ::
      spans[j].end <= spans[k].start || spans[k].end <= spans[j].start
  }

  lemma PathsDistinct(disk: Disk, nodes: seq<Node>, i: nat, j: nat)
    requires Distinct(disk, nodes) && i < |nodes| && j < |nodes| && nodes[i].path == nodes[j].path
    ensures i == j
  {
  }

  lemma PathsDiffer(disk: Disk, nodes: seq<Node>, i: nat, j: nat)
    requires Distinct(disk, nodes) && i < |nodes| && j < |nodes| && i != j
    ensures nodes[i].path != nodes[j].path
  {
    assert i < j ==> disk.rolloutId(nodes[i].path) != disk.rolloutId(nodes[j].path);
    assert j < i ==> disk.rolloutId(nodes[j].path) != disk.rolloutId(nodes[i].path);
  }

  /** Two spans of one carrier are its header and its body. */
  lemma PairApart(disk: Disk, nodes: seq<Node>, first: nat, pieces: seq<Piece>, j: nat, k: nat)
    requires Distinct(disk, nodes) && |pieces| == |nodes| + 1 && j < k < |pieces| && first < |nodes|
    requires pieces[0] == Piece(nodes[first], true, |nodes[first].parts.header|)
    requires !pieces[k].header && pieces[k].node == nodes[|nodes| - k]
    requires j > 0 ==> !pieces[j].header && pieces[j].node == nodes[|nodes| - j]
    ensures var a, b := SpanOf(pieces[j], Total(pieces[..j])), SpanOf(pieces[k], Total(pieces[..k]));
            a.path == b.path ==> a.end <= b.start
  {
    if j > 0 {
      PathsDiffer(disk, nodes, |nodes| - j, |nodes| - k);
    } else if first != |nodes| - k {
      PathsDiffer(disk, nodes, first, |nodes| - k);
    }
  }

  lemma SpansApart(disk: Disk, nodes: seq<Node>)
    requires Distinct(disk, nodes) && Pieces(nodes, true, disk.json).Ok?
    ensures Apart(Spans(Pieces(nodes, true, disk.json).value))
  {
    var pieces := Pieces(nodes, true, disk.json).value;
    PiecesForm(nodes, true, disk.json);
    SpansLength(pieces);
    forall j, k | 0 <= j < k < |pieces|
      ensures Spans(pieces)[j].path == Spans(pieces)[k].path ==> Spans(pieces)[j].end <= Spans(pieces)[k].start
    {
      SpanAt(pieces, j);
      SpanAt(pieces, k);
      assert PieceOf(nodes, true, disk.json, pieces[k], |nodes| - k);
      assert j > 0 ==> PieceOf(nodes, true, disk.json, pieces[j], |nodes| - j);
      PairApart(disk, nodes, FirstOwn(nodes).value, pieces, j, k);
    }
  }

  lemma {:induction false} OffsetMeaning(spans: seq<Span>, path: string, end: nat)
    requires Apart(spans)
    ensures forall v: nat :: CaptureOffset(spans, path, end) == Some(v) <==> Places(spans, path, end, v)
  {
    if spans != [] {
      var rest := spans[1..];
      assert forall j | 0 <= j < |rest| :: rest[j] == spans[j + 1];
      OffsetMeaning(rest, path, end);
      forall v: nat ensures CaptureOffset(spans, path, end) == Some(v) <==> Places(spans, path, end, v) {
        if Places(rest, path, end, v) {
          var k :| 0 <= k < |rest| && Covers(rest[k], path, end, v);
          assert Covers(spans[k + 1], path, end, v);
        }
        if Covers(spans[0], path, end, v) {
          assert Places(spans, path, end, v);
        } else if Places(spans, path, end, v) {
          var k :| 0 <= k < |spans| && Covers(spans[k], path, end, v);
          assert Covers(rest[k - 1], path, end, v);
        }
      }
    }
  }

  lemma CoveredByte(disk: Disk, bytes: Bytes, span: Span, path: string, end: nat, v: nat)
    requires Copies(disk, bytes, span) && Covers(span, path, end, v)
    ensures 0 < v <= |bytes| && disk.file(path).Some? && end <= |disk.file(path).value|
    ensures bytes[v - 1] == disk.file(path).value[end - 1]
  {
    var i := end - 1 - span.start;
    assert bytes[span.streamStart..span.streamStart + (span.end - span.start)][i]
        == disk.file(path).value[span.start..span.end][i];
  }

  /**
   The lookup finds an offset exactly when the stream holds the byte before it, at the place that
   byte was copied to; and the stream then agrees with the carrier there.
   */
  lemma OffsetExact(disk: Disk, source: Source, limits: Limits, path: string, end: nat, v: nat)
    requires CaptureOf(disk, source, limits, true).Ok?
    ensures var c := CaptureOf(disk, source, limits, true).value;
            && (CaptureOffset(c.spans, path, end) == Some(v) <==> Places(c.spans, path, end, v))
            && (Places(c.spans, path, end, v) ==>
                  (&& 0 < v <= |c.bytes| && disk.file(path).Some? && 0 < end <= |disk.file(path).value|
                   && c.bytes[v - 1] == disk.file(path).value[end - 1]))
  {
    var c := CaptureOf(disk, source, limits, true).value;
    WalkFinds(disk, source.session, limits, true, UNREAD, source.path);
    SpansApart(disk, NodesOf(disk, source, limits, true));
    OffsetMeaning(c.spans, path, end);
    SpansTile(disk, source, limits);
    if Places(c.spans, path, end, v) {
      var k :| 0 <= k < |c.spans| && Covers(c.spans[k], path, end, v);
      CoveredByte(disk, c.bytes, c.spans[k], path, end, v);
    }
  }

  /** A full capture keeps its output within `bytes`, and what it read plus its output within `workingBytes`. */
  lemma CaptureWithinBudgets(disk: Disk, source: Source, limits: Limits)
    requires CaptureOf(disk, source, limits, true).Ok?
    ensures var c := CaptureOf(disk, source, limits, true).value;
            |c.bytes| <= limits.bytes
                && Held(disk, NodesOf(disk, source, limits, true)) + |c.bytes| <= limits.workingBytes
  {
    WalkFinds(disk, source.session, limits, true, UNREAD, source.path);
    WalkRetains(disk, source.session, limits, UNREAD, source.path);
    var nodes := NodesOf(disk, source, limits, true);
    NodesFit(disk, source.session, nodes);
    PiecesFitted(nodes, disk.json);
    StreamLength(Pieces(nodes, true, disk.json).value);
  }
}
