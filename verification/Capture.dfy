/**
 Reading a Codex conversation out of its chain of carriers.

 `CaptureOf` puts what the thread wrote, rewound parts included, behind the cut bodies of the
 threads it comes from, with a map from carrier bytes to stream offsets; it can be read in full or
 from headers and lengths alone. The methods are the source's loops, proved against it.
 */
module Capture {
  import opened Wrappers
  import opened Lines
  import opened Sequences
  import opened Rollout

  const MAX_FORK_DEPTH: nat := 64
  const MAX_HEADER_BYTES: nat := 0x10_0000
  const CHUNK: nat := 0x1_0000

  datatype Source = Source(path: string, session: string)

  /** What a read sees: the files, the rollout id in a file name, and the lookup of an id under a scan budget. */
  datatype Disk = Disk(
    json: Json,
    rolloutId: string -> Option<string>,
    file: string -> Option<Bytes>,
    lookup: (string, nat) -> Result<Source, Unavailable>)

  datatype Node = Node(
    path: string,
    parts: Parts,
    history: Option<History>,
    bodyLen: nat,
    completeLen: nat,
    sameThread: bool)

  datatype Read = Read(bytes: Bytes, fileLen: nat)

  function ReadFile(disk: Disk, path: string, limits: Limits): Result<Read, Unavailable> {
    match disk.file(path)
    case None => Err(ReadFailed)
    case Some(bytes) =>
      if |bytes| > limits.bytes || |bytes| > limits.workingBytes then Err(BudgetExceeded)
      else Ok(Read(bytes, |bytes|))
  }

  /** The header line and the current length, without reading the records. */
  function ReadHeader(disk: Disk, path: string): Result<Read, Unavailable> {
    match disk.file(path)
    case None => Err(ReadFailed)
    case Some(bytes) =>
      var window := if |bytes| <= MAX_HEADER_BYTES then bytes else bytes[..MAX_HEADER_BYTES];
      if HasNewline(window) then Ok(Read(window[..FirstLine(window)], |bytes|)) else Err(Incomplete)
  }

  function ReadCarrier(disk: Disk, path: string, limits: Limits, full: bool): Result<Read, Unavailable> {
    if full then ReadFile(disk, path, limits) else ReadHeader(disk, path)
  }

  /** The node a carrier contributes to a walk. */
  function NodeOf(disk: Disk, session: string, path: string, split: Split, fileLen: nat, follows: bool,
                  full: bool): Node
  {
    var header := split.parts.header;
    var bodyLen := if |header| <= fileLen then fileLen - |header| else 0;
    Node(path, split.parts, split.history, bodyLen,
         if full then WholeLen(split.parts.body) else DiskCompleteLen(disk, path, |header|),
         follows && HeaderThread(header, disk.json) == Some(session))
  }

  function DiskCompleteLen(disk: Disk, path: string, headerLen: nat): nat {
    match disk.file(path)
    case Some(bytes) => if headerLen <= |bytes| then WholeLen(bytes[headerLen..]) else 0
    case None => 0
  }

  function Follows(nodes: seq<Node>): bool {
    nodes == [] || nodes[|nodes| - 1].sameThread
  }

  function ExpectedThread(nodes: seq<Node>, session: string): Option<string> {
    if nodes == [] then Some(session) else None
  }

  function Less(a: nat, b: nat): nat {
    if a >= b then a - b else 0
  }

  /** How far a walk has come. */
  datatype Progress = Progress(nodes: seq<Node>, visited: set<string>, retained: nat)

  /** Reads the carrier at `path` and adds it to the walk. */
  function Visit(disk: Disk, session: string, limits: Limits, full: bool, p: Progress,
                 path: string): Result<Progress, Unavailable>
  {
    match disk.rolloutId(path)
    case None => Err(Incomplete)
    case Some(id) =>
      if |p.nodes| >= MAX_FORK_DEPTH || id in p.visited then Err(Incomplete)
      else
        var read :- ReadCarrier(disk, path, limits, full);
        if p.retained + |read.bytes| > limits.workingBytes then Err(BudgetExceeded)
        else
          match SplitRollout(read.bytes, ExpectedThread(p.nodes, session), disk.json)
          case Err(_) => Err(Incomplete)
          case Ok(split) =>
            var node := NodeOf(disk, session, path, split, read.fileLen, Follows(p.nodes), full);
            Ok(Progress(p.nodes + [node], p.visited + {id}, p.retained + |read.bytes|))
  }

  function Last(nodes: seq<Node>): Node
    requires nodes != []
  {
    nodes[|nodes| - 1]
  }

  /** Follows `history_base` links from `path` until a carrier has none. */
  function Walk(disk: Disk, session: string, limits: Limits, full: bool, p: Progress,
                path: string): Result<Progress, Unavailable>
    decreases Less(MAX_FORK_DEPTH, |p.nodes|)
  {
    var q :- Visit(disk, session, limits, full, p, path);
    if Last(q.nodes).history.None? then Ok(q)
    else
      var next :- disk.lookup(Last(q.nodes).history.value.sourceId, Less(limits.lookupEntries, |q.visited|));
      Walk(disk, session, limits, full, q, next.path)
  }

  const UNREAD := Progress([], {}, 0)

  // ---- From nodes to a stream --------------------------------------------------------------

  /** A slice of one carrier: its header, or a prefix of its body. */
  datatype Piece = Piece(node: Node, header: bool, kept: nat)

  /** The last node of the thread itself, whose header leads the stream. */
  function FirstOwn(nodes: seq<Node>): (first: Option<nat>)
    ensures first.Some? ==> first.value < |nodes| && nodes[first.value].sameThread
    ensures forall k | 0 <= k < |nodes| && nodes[k].sameThread :: first.Some? && k <= first.value
  {
    if nodes == [] then None
    else if nodes[|nodes| - 1].sameThread then Some(|nodes| - 1)
    else FirstOwn(nodes[..|nodes| - 1])
  }

  /** How much of a body the stream keeps. */
  function Kept(nodes: seq<Node>, index: nat, full: bool, json: Json): Result<nat, Unavailable>
    requires index < |nodes|
  {
    var node := nodes[index];
    if index == 0 then Ok(node.bodyLen)
    else
      match nodes[index - 1].history
      case None => Err(Incomplete)
      case Some(history) =>
        if history.byteOffset < |node.parts.header| || history.byteOffset - |node.parts.header| > node.completeLen then
          Err(Incomplete)
        else
          var cut := history.byteOffset - |node.parts.header|;
          var end :- if full then PrefixEnd(node.parts, history, None, json) else Ok(Prefix(cut, None));
          if end.end != cut then Err(Incomplete)
          else Ok(if node.sameThread then node.completeLen else cut)
  }

  function Gather(nodes: seq<Node>, index: nat, full: bool, json: Json,
                  pieces: seq<Piece>): Result<seq<Piece>, Unavailable>
    requires index <= |nodes|
  {
    if index == 0 then Ok(pieces)
    else
      var kept :- Kept(nodes, index - 1, full, json);
      Gather(nodes, index - 1, full, json, pieces + [Piece(nodes[index - 1], false, kept)])
  }

  function Pieces(nodes: seq<Node>, full: bool, json: Json): Result<seq<Piece>, Unavailable> {
    match FirstOwn(nodes)
    case None => Err(Incomplete)
    case Some(first) =>
      Gather(nodes, |nodes|, full, json, [Piece(nodes[first], true, |nodes[first].parts.header|)])
  }

  function Slice(piece: Piece): Bytes {
    if piece.header then piece.node.parts.header
    else if piece.kept <= |piece.node.parts.body| then piece.node.parts.body[..piece.kept] else []
  }

  function Stream(pieces: seq<Piece>): Bytes {
    if pieces == [] then [] else Stream(pieces[..|pieces| - 1]) + Slice(pieces[|pieces| - 1])
  }

  function Total(pieces: seq<Piece>): nat {
    if pieces == [] then 0 else Total(pieces[..|pieces| - 1]) + pieces[|pieces| - 1].kept
  }

  datatype Span = Span(path: string, start: nat, end: nat, streamStart: nat)

  function SpanOf(piece: Piece, streamStart: nat): Span {
    var headerLen := |piece.node.parts.header|;
    if piece.header then Span(piece.node.path, 0, headerLen, streamStart)
    else Span(piece.node.path, headerLen, headerLen + piece.kept, streamStart)
  }

  function Spans(pieces: seq<Piece>): seq<Span> {
    if pieces == [] then []
    else Spans(pieces[..|pieces| - 1]) + [SpanOf(pieces[|pieces| - 1], Total(pieces[..|pieces| - 1]))]
  }

  datatype Captured = Captured(bytes: Bytes, spans: seq<Span>)

  function OutputLimit(limits: Limits, retained: nat, full: bool): nat {
    var left := Less(limits.workingBytes, retained);
    if full && left < limits.bytes then left else limits.bytes
  }

  function CaptureOf(disk: Disk, source: Source, limits: Limits, full: bool): Result<Captured, Unavailable> {
    var walked :- Walk(disk, source.session, limits, full, UNREAD, source.path);
    var pieces :- Pieces(walked.nodes, full, disk.json);
    if Total(pieces) > OutputLimit(limits, walked.retained, full) then Err(BudgetExceeded)
    else Ok(Captured(if full then Stream(pieces) else [], Spans(pieces)))
  }

  // ---- The loops ---------------------------------------------------------------------------

  function LastNewline(chunk: Bytes): (r: Option<nat>)
    ensures r.Some? ==> r.value < |chunk| && chunk[r.value] == LF && forall i | r.value < i < |chunk| :: chunk[i] != LF
    ensures r.None? ==> NoLF(chunk)
  {
    if chunk == [] then None
    else if chunk[|chunk| - 1] == LF then Some(|chunk| - 1)
    else LastNewline(chunk[..|chunk| - 1])
  }

  /** The body length through the last complete record, scanning chunks backwards from the end. */
  method CompleteBodyLen(file: Bytes, headerLen: nat, fileLen: nat) returns (n: nat)
    requires headerLen <= fileLen == |file|
    ensures n == WholeLen(file[headerLen..])
  {
    var end := fileLen;
    while end > headerLen
      invariant headerLen <= end <= fileLen
      invariant forall i | end <= i < fileLen :: file[i] != LF
    {
      var start := if Less(end, CHUNK) > headerLen then Less(end, CHUNK) else headerLen;
      var chunk := file[start..end];
      var index := LastNewline(chunk);
      if index.Some? {
        n := start + index.value + 1 - headerLen;
        assert forall i | start + index.value < i < end :: file[i] == chunk[i - start];
        assert file[start + index.value] == chunk[index.value];
        WholeLenUnique(file[headerLen..], n);
        return;
      }
      assert forall i | start <= i < end :: file[i] == chunk[i - start];
      end := start;
    }
    WholeLenUnique(file[headerLen..], 0);
    return 0;
  }

  method AppendBounded(target: Bytes, bytes: Bytes, limits: Limits) returns (r: Result<Bytes, Unavailable>)
    ensures r == if |target| + |bytes| > limits.bytes || |target| + |bytes| > limits.workingBytes
                 then Err(BudgetExceeded) else Ok(target + bytes)
  {
    var length := |target| + |bytes|;
    if length > limits.bytes || length > limits.workingBytes {
      return Err(BudgetExceeded);
    }
    return Ok(target + bytes);
  }

  /** The lengths of a node agree with its carrier. */
  predicate Fits(node: Node, full: bool) {
    node.completeLen <= node.bodyLen
    && (full ==> node.bodyLen == |node.parts.body| && node.completeLen == WholeLen(node.parts.body))
  }

  predicate Fitted(piece: Piece, full: bool) {
    (piece.header ==> piece.kept == |piece.node.parts.header|)
    && (full && !piece.header ==> piece.kept <= |piece.node.parts.body|)
  }

  lemma {:induction false} TotalGrows(pieces: seq<Piece>, k: nat)
    requires k <= |pieces|
    ensures Total(pieces[..k]) <= Total(pieces)
  {
    if k < |pieces| {
      TotalGrows(pieces[..|pieces| - 1], k);
      assert pieces[..|pieces| - 1][..k] == pieces[..k];
    } else {
      assert pieces[..k] == pieces;
    }
  }

  lemma PiecesSnoc(front: seq<Piece>, piece: Piece)
    ensures Stream(front + [piece]) == Stream(front) + Slice(piece)
    ensures Total(front + [piece]) == Total(front) + piece.kept
    ensures Spans(front + [piece]) == Spans(front) + [SpanOf(piece, Total(front))]
  {
    assert (front + [piece])[..|front|] == front;
  }

  lemma ReadFits(disk: Disk, session: string, path: string, limits: Limits, full: bool, expected: Option<string>,
                 follows: bool)
    requires ReadCarrier(disk, path, limits, full).Ok?
    requires SplitRollout(ReadCarrier(disk, path, limits, full).value.bytes, expected, disk.json).Ok?
    ensures var read := ReadCarrier(disk, path, limits, full).value;
            var split := SplitRollout(read.bytes, expected, disk.json).value;
            && |split.parts.header| <= read.fileLen
            && disk.file(path).Some? && read.fileLen == |disk.file(path).value|
            && Fits(NodeOf(disk, session, path, split, read.fileLen, follows, full), full)
  {
  }

  lemma ReadLengths(disk: Disk, path: string, limits: Limits, full: bool, expected: Option<string>)
    requires ReadCarrier(disk, path, limits, full).Ok?
    requires SplitRollout(ReadCarrier(disk, path, limits, full).value.bytes, expected, disk.json).Ok?
    ensures var read := ReadCarrier(disk, path, limits, full).value;
            && |SplitRollout(read.bytes, expected, disk.json).value.parts.header| <= read.fileLen
            && disk.file(path).Some? && read.fileLen == |disk.file(path).value|
  {
  }

  /** One iteration of the walk's loop: reads the carrier at `path` and adds its node. */
  method VisitCarrier(session: string, limits: Limits, full: bool, disk: Disk, p: Progress, path: string)
    returns (r: Result<Progress, Unavailable>)
    ensures r == Visit(disk, session, limits, full, p, path)
  {
    var rolloutId := disk.rolloutId(path);
    if rolloutId.None? || |p.nodes| >= MAX_FORK_DEPTH || rolloutId.value in p.visited {
      return Err(Incomplete);
    }
    var read := ReadCarrier(disk, path, limits, full);
    if read.Err? {
      return Err(read.error);
    }
    var bytes, fileLen := read.value.bytes, read.value.fileLen;
    var retained := p.retained + |bytes|;
    if retained > limits.workingBytes {
      return Err(BudgetExceeded);
    }
    r := AddCarrier(session, limits, full, disk, p, path, rolloutId.value, read.value);
  }

  /** The rest of the iteration, once the carrier is read. */
  method AddCarrier(session: string, limits: Limits, full: bool, disk: Disk, p: Progress, path: string, id: string,
                    read: Read)
    returns (r: Result<Progress, Unavailable>)
    requires ReadCarrier(disk, path, limits, full) == Ok(read)
    ensures r == match SplitRollout(read.bytes, ExpectedThread(p.nodes, session), disk.json)
                 case Err(_) => Err(Incomplete)
                 case Ok(split) =>
                   Ok(Progress(p.nodes + [NodeOf(disk, session, path, split, read.fileLen, Follows(p.nodes), full)],
                               p.visited + {id}, p.retained + |read.bytes|))
  {
    var expectedThread := if p.nodes == [] then Some(session) else None;
    var split := SplitRollout(read.bytes, expectedThread, disk.json);
    if split.Err? {
      return Err(Incomplete);
    }
    ReadLengths(disk, path, limits, full, expectedThread);
    var node := MeasureNode(session, path, split.value, read.fileLen, Follows(p.nodes), full, disk);
    return Ok(Progress(p.nodes + [node], p.visited + {id}, p.retained + |read.bytes|));
  }

  /** The node of one carrier, with its complete length found in the body or by scanning the file. */
  method MeasureNode(session: string, path: string, split: Split, fileLen: nat, follows: bool, full: bool, disk: Disk)
    returns (node: Node)
    requires |split.parts.header| <= fileLen
    requires disk.file(path).Some? && fileLen == |disk.file(path).value|
    ensures node == NodeOf(disk, session, path, split, fileLen, follows, full)
  {
    var bodyLen := fileLen - |split.parts.header|;
    var completeLen;
    if full {
      completeLen := WholeLen(split.parts.body);
    } else {
      completeLen := CompleteBodyLen(disk.file(path).value, |split.parts.header|, fileLen);
    }
    var sameThread := follows && HeaderThread(split.parts.header, disk.json) == Some(session);
    return Node(path, split.parts, split.history, bodyLen, completeLen, sameThread);
  }

  lemma VisitFits(disk: Disk, session: string, limits: Limits, full: bool, p: Progress, path: string)
    requires Visit(disk, session, limits, full, p, path).Ok? && forall k | 0 <= k < |p.nodes| :: Fits(p.nodes[k], full)
    ensures var nodes := Visit(disk, session, limits, full, p, path).value.nodes;
            nodes != [] && forall k | 0 <= k < |nodes| :: Fits(nodes[k], full)
  {
    ReadFits(disk, session, path, limits, full, ExpectedThread(p.nodes, session), Follows(p.nodes));
  }

  /** Fewer than the depth limit remain after each visit. */
  lemma VisitProgress(disk: Disk, session: string, limits: Limits, full: bool, p: Progress, path: string)
    requires Visit(disk, session, limits, full, p, path).Ok?
    ensures |p.nodes| < MAX_FORK_DEPTH
    ensures |Visit(disk, session, limits, full, p, path).value.nodes| == |p.nodes| + 1
  {
  }

  method CaptureLineage(source: Source, limits: Limits, full: bool, disk: Disk)
    returns (r: Result<Captured, Unavailable>)
    ensures r == CaptureOf(disk, source, limits, full)
  {
    var p, current := UNREAD, source;
    while true
      invariant Walk(disk, source.session, limits, full, UNREAD, source.path)
             == Walk(disk, source.session, limits, full, p, current.path)
      invariant forall k | 0 <= k < |p.nodes| :: Fits(p.nodes[k], full)
      decreases Less(MAX_FORK_DEPTH, |p.nodes|)
    {
      var visit := VisitCarrier(source.session, limits, full, disk, p, current.path);
      if visit.Err? {
        return Err(visit.error);
      }
      VisitProgress(disk, source.session, limits, full, p, current.path);
      VisitFits(disk, source.session, limits, full, p, current.path);
      p := visit.value;
      var history := p.nodes[|p.nodes| - 1].history;
      if history.None? {
        break;
      }
      var next := disk.lookup(history.value.sourceId, Less(limits.lookupEntries, |p.visited|));
      if next.Err? {
        return Err(next.error);
      }
      current := next.value;
    }
    r := Assemble(p.nodes, p.retained, limits, full, disk.json);
  }

  /** How much of the body at `index` the stream keeps, or why its cut is not valid. */
  method KeptOf(nodes: seq<Node>, index: nat, full: bool, json: Json) returns (r: Result<nat, Unavailable>)
    requires index < |nodes|
    ensures r == Kept(nodes, index, full, json)
  {
    var node := nodes[index];
    if index == 0 {
      return Ok(node.bodyLen);
    }
    var history := nodes[index - 1].history;
    if history.None? || history.value.byteOffset < |node.parts.header|
       || history.value.byteOffset - |node.parts.header| > node.completeLen {
      return Err(Incomplete);
    }
    var cut := history.value.byteOffset - |node.parts.header|;
    if full {
      var end := ValidatedPrefixEnd(node.parts, history.value, None, json);
      if end.Err? {
        return Err(end.error);
      }
      if end.value.end != cut {
        return Err(Incomplete);
      }
    }
    return Ok(if node.sameThread then node.completeLen else cut);
  }

  lemma KeptFits(nodes: seq<Node>, index: nat, full: bool, json: Json)
    requires index < |nodes| && Fits(nodes[index], full) && Kept(nodes, index, full, json).Ok?
    ensures Fitted(Piece(nodes[index], false, Kept(nodes, index, full, json).value), full)
  {
  }

  method Assemble(nodes: seq<Node>, retained: nat, limits: Limits, full: bool, json: Json)
    returns (r: Result<Captured, Unavailable>)
    requires forall k | 0 <= k < |nodes| :: Fits(nodes[k], full)
    ensures r == match Pieces(nodes, full, json)
                 case Err(e) => Err(e)
                 case Ok(pieces) =>
                   if Total(pieces) > OutputLimit(limits, retained, full) then Err(BudgetExceeded)
                   else Ok(Captured(if full then Stream(pieces) else [], Spans(pieces)))
  {
    var first := FirstOwn(nodes);
    if first.None? {
      return Err(Incomplete);
    }
    var pieces := [Piece(nodes[first.value], true, |nodes[first.value].parts.header|)];
    for index := |nodes| downto 0
      invariant Pieces(nodes, full, json) == Gather(nodes, index, full, json, pieces)
      invariant pieces != [] && forall k | 0 <= k < |pieces| :: Fitted(pieces[k], full)
    {
      var kept := KeptOf(nodes, index, full, json);
      if kept.Err? {
        return Err(kept.error);
      }
      KeptFits(nodes, index, full, json);
      pieces := pieces + [Piece(nodes[index], false, kept.value)];
    }
    r := CopyOut(pieces, limits.(workingBytes := Less(limits.workingBytes, retained)), full);
  }

  /** One piece of the stream: copied, or only checked against the limit. */
  method CopyPiece(piece: Piece, bytes: Bytes, stream: nat, limits: Limits, full: bool)
    returns (r: Result<Bytes, Unavailable>)
    requires Fitted(piece, full) && (if full then |bytes| == stream else bytes == [])
    ensures r == if stream + piece.kept > OutputLimit(limits, 0, full) then Err(BudgetExceeded)
                 else Ok(if full then bytes + Slice(piece) else [])
  {
    if full {
      var slice := if piece.header then piece.node.parts.header else piece.node.parts.body[..piece.kept];
      r := AppendBounded(bytes, slice, limits);
    } else if stream + piece.kept > limits.bytes {
      return Err(BudgetExceeded);
    } else {
      return Ok([]);
    }
  }

  lemma CopyMore(pieces: seq<Piece>, i: nat)
    requires i < |pieces|
    ensures Stream(pieces[..i + 1]) == Stream(pieces[..i]) + Slice(pieces[i])
    ensures Total(pieces[..i + 1]) == Total(pieces[..i]) + pieces[i].kept <= Total(pieces)
    ensures Spans(pieces[..i + 1]) == Spans(pieces[..i]) + [SpanOf(pieces[i], Total(pieces[..i]))]
  {
    TotalGrows(pieces, i + 1);
    TakeMore(pieces, i);
    PiecesSnoc(pieces[..i], pieces[i]);
  }

  /** The last loop of the capture: copies the pieces, or only counts them. */
  method CopyOut(pieces: seq<Piece>, limits: Limits, full: bool) returns (r: Result<Captured, Unavailable>)
    requires pieces != [] && forall k | 0 <= k < |pieces| :: Fitted(pieces[k], full)
    ensures r == if Total(pieces) > OutputLimit(limits, 0, full) then Err(BudgetExceeded)
                 else Ok(Captured(if full then Stream(pieces) else [], Spans(pieces)))
  {
    var bytes: Bytes, spans: seq<Span>, stream: nat := [], [], 0;
    for i := 0 to |pieces|
      invariant spans == Spans(pieces[..i]) && stream == Total(pieces[..i])
      invariant bytes == if full then Stream(pieces[..i]) else []
      invariant full ==> |bytes| == stream
      invariant i > 0 ==> stream <= OutputLimit(limits, 0, full)
    {
      CopyMore(pieces, i);
      assert Fitted(pieces[i], full);
      var copied := CopyPiece(pieces[i], bytes, stream, limits, full);
      if copied.Err? {
        return Err(BudgetExceeded);
      }
      bytes := copied.value;
      spans := spans + [SpanOf(pieces[i], stream)];
      stream := stream + pieces[i].kept;
    }
    NothingMore(pieces);
    return Ok(Captured(bytes, spans));
  }
}
