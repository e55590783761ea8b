/** What a capture is made of: the chain of carriers, the span map, and the header-only form. */
module CaptureProofs {
  import opened Wrappers
  import opened Lines
  import opened Rollout
  import opened Capture

  // ---- The chain a walk finds --------------------------------------------------------------

  /** A node as the header-only read sees it. */
  function Trim(node: Node, full: bool): Node {
    if full then node else node.(parts := node.parts.(body := []))
  }

  function Trimmed(nodes: seq<Node>): seq<Node> {
    seq(|nodes|, k requires 0 <= k < |nodes| => Trim(nodes[k], false))
  }

  /** The node of a carrier read whole. */
  function CarrierNode(disk: Disk, session: string, path: string, expected: Option<string>, follows: bool): Option<Node>
  {
    match disk.file(path)
    case None => None
    case Some(bytes) =>
      match SplitRollout(bytes, expected, disk.json)
      case Err(_) => None
      case Ok(split) => Some(NodeOf(disk, session, path, split, |bytes|, follows, true))
  }

  /** A header line, alone and in the carrier it opens, is read as the same header. */
  lemma HeaderSplit(bytes: Bytes, window: Bytes, header: Bytes, expected: Option<string>, json: Json)
    requires window <= bytes && HasNewline(window) && header == window[..FirstLine(window)]
    ensures HasNewline(bytes) && FirstLine(bytes) == FirstLine(window)
    ensures SplitRollout(header, expected, json).Ok? == SplitRollout(bytes, expected, json).Ok?
    ensures SplitRollout(bytes, expected, json).Ok? ==>
              var short, whole := SplitRollout(header, expected, json).value, SplitRollout(bytes, expected, json).value;
              && short == whole.(parts := whole.parts.(body := []))
              && whole.parts.header == header && |header| <= |bytes| && whole.parts.body == bytes[|header|..]
  {
    var n := FirstLine(window);
    FirstLineSame(window, bytes);
    LineAlone(header);
    HeaderSlices(bytes, window, n);
    SameHeader(bytes, header, n, expected, json);
  }

  /** What a header line says, apart from where it stands. */
  function Headed(line: Bytes, expected: Option<string>,
                  json: Json): Result<(Option<nat>, Option<History>), SplitFailure>
  {
    match json.header(line)
    case Some(HeaderJson(true, ordinal, Some(payload))) =>
      if expected.Some? && payload.id != expected then Err(Unrecognized)
      else
        var history :- HistoryOf(payload);
        Ok((ordinal, history))
    case _ => Err(Unrecognized)
  }

  function PartsOf(header: Bytes, body: Bytes,
                   said: Result<(Option<nat>, Option<History>), SplitFailure>): Result<Split, SplitFailure>
  {
    match said
    case Err(failure) => Err(failure)
    case Ok((ordinal, history)) => Ok(Split(Parts(header, body, ordinal), history))
  }

  lemma SplitHeaded(bytes: Bytes, n: nat, expected: Option<string>, json: Json)
    requires HasNewline(bytes) && FirstLine(bytes) == n
    ensures SplitRollout(bytes, expected, json)
        == PartsOf(bytes[..n], bytes[n..], Headed(bytes[..n - 1], expected, json))
  {
  }

  lemma SameHeader(bytes: Bytes, header: Bytes, n: nat, expected: Option<string>, json: Json)
    requires HasNewline(bytes) && FirstLine(bytes) == n && HasNewline(header) && FirstLine(header) == n == |header|
    requires header == bytes[..n] && header[..n - 1] == bytes[..n - 1] && header[..n] == header && header[n..] == []
    ensures SplitRollout(header, expected, json) == PartsOf(header, [], Headed(header[..n - 1], expected, json))
    ensures SplitRollout(bytes, expected, json)
        == PartsOf(header, bytes[|header|..], Headed(header[..n - 1], expected, json))
  {
    SplitHeaded(header, n, expected, json);
    SplitHeaded(bytes, n, expected, json);
  }

  lemma LineAlone(header: Bytes)
    requires header != [] && header[|header| - 1] == LF && forall i | 0 <= i < |header| - 1 :: header[i] != LF
    ensures FirstLine(header) == |header| && HasNewline(header)
  {
  }

  lemma HeaderSlices(bytes: Bytes, window: Bytes, n: nat)
    requires window <= bytes && 0 < n <= |window|
    ensures var header := window[..n];
            header == bytes[..n] && header[..n - 1] == bytes[..n - 1] && header[..n] == header && header[n..] == []
  {
  }

  /** A carrier read either way yields the same node, but for the body. */
  lemma ReadNode(disk: Disk, session: string, path: string, limits: Limits, full: bool, expected: Option<string>,
                 follows: bool)
    requires ReadCarrier(disk, path, limits, full).Ok?
    ensures var read := ReadCarrier(disk, path, limits, full).value;
            var split, node := SplitRollout(read.bytes, expected, disk.json),
                CarrierNode(disk, session, path, expected, follows);
            && split.Ok? == node.Some?
            && (split.Ok? ==>
                  NodeOf(disk, session, path, split.value, read.fileLen, follows, full) == Trim(node.value, full))
  {
    var bytes := disk.file(path).value;
    if !full {
      var window := if |bytes| <= MAX_HEADER_BYTES then bytes else bytes[..MAX_HEADER_BYTES];
      HeaderSplit(bytes, window, window[..FirstLine(window)], expected, disk.json);
    }
  }

  ghost predicate LinkOf(nodes: seq<Node>, k: nat, resolve: string -> string)
    requires k + 1 < |nodes|
  {
    nodes[k].history.Some? && nodes[k + 1].path == resolve(nodes[k].history.value.sourceId)
  }

  ghost predicate NodeHolds(disk: Disk, session: string, full: bool, nodes: seq<Node>, k: nat)
    requires k < |nodes|
  {
    var node := CarrierNode(disk, session, nodes[k].path, if k == 0 then Some(session) else None,
                            k == 0 || nodes[k - 1].sameThread);
    node.Some? && nodes[k] == Trim(node.value, full)
  }

  /** Whatever the budget, an id is found at one path. */
  ghost predicate Resolves(disk: Disk, resolve: string -> string) {
    forall id, budget :: disk.lookup(id, budget).Ok? ==> disk.lookup(id, budget).value.path == resolve(id)
  }

  ghost predicate Distinct(disk: Disk, nodes: seq<Node>) {
    forall i, j | 0 <= i < j < |nodes| :: disk.rolloutId(nodes[i].path) != disk.rolloutId(nodes[j].path)
  }

  /** The base of `node` is found at `path`, within the lookups left after reading `count` carriers. */
  ghost predicate Leads(disk: Disk, limits: Limits, node: Node, count: nat, path: string) {
    node.history.Some?
    && var next := disk.lookup(node.history.value.sourceId, Less(limits.lookupEntries, count));
       next.Ok? && next.value.path == path
  }

  ghost predicate LedBy(disk: Disk, limits: Limits, nodes: seq<Node>, k: nat)
    requires k + 1 < |nodes|
  {
    Leads(disk, limits, nodes[k], k + 1, nodes[k + 1].path)
  }

  /** What a walk has read so far, at most 64 carriers with pairwise distinct rollout ids. */
  ghost predicate Partial(disk: Disk, session: string, limits: Limits, full: bool, p: Progress) {
    && |p.nodes| <= MAX_FORK_DEPTH && |p.visited| == |p.nodes|
    && (forall k | 0 <= k < |p.nodes| :: NodeHolds(disk, session, full, p.nodes, k))
    && (forall k | 0 <= k < |p.nodes| - 1 :: LedBy(disk, limits, p.nodes, k))
    && (forall k | 0 <= k < |p.nodes| ::
          disk.rolloutId(p.nodes[k].path).Some? && disk.rolloutId(p.nodes[k].path).value in p.visited)
    && Distinct(disk, p.nodes)
  }

  /** Where a walk goes on: anywhere at first, then to the base of the carrier read last. */
  ghost predicate Next(disk: Disk, limits: Limits, p: Progress, path: string) {
    p.nodes == [] || Leads(disk, limits, Last(p.nodes), |p.nodes|, path)
  }

  /**
   A whole walk: at most 64 carriers from `path` on, of pairwise distinct rollout ids, each found by
   looking up its successor's base, the last without one.
   */
  ghost predicate Walked(disk: Disk, session: string, limits: Limits, full: bool, nodes: seq<Node>, path: string) {
    && 0 < |nodes| <= MAX_FORK_DEPTH && nodes[0].path == path && Last(nodes).history.None?
    && (forall k | 0 <= k < |nodes| :: NodeHolds(disk, session, full, nodes, k))
    && (forall k | 0 <= k < |nodes| - 1 :: LedBy(disk, limits, nodes, k))
    && Distinct(disk, nodes)
  }

  /** Carriers from `path` on, each leading to the next by its header's base, the last without one. */
  ghost predicate Links(disk: Disk, session: string, full: bool, nodes: seq<Node>, path: string,
                        resolve: string -> string)
  {
    && nodes != [] && nodes[0].path == path && Last(nodes).history.None?
    && (forall k | 0 <= k < |nodes| :: NodeHolds(disk, session, full, nodes, k))
    && (forall k | 0 <= k < |nodes| - 1 :: LinkOf(nodes, k, resolve))
  }

  ghost predicate Chain(disk: Disk, session: string, full: bool, nodes: seq<Node>, path: string,
                        resolve: string -> string)
  {
    |nodes| <= MAX_FORK_DEPTH && Links(disk, session, full, nodes, path, resolve) && Distinct(disk, nodes)
  }

  lemma VisitNode(disk: Disk, session: string, limits: Limits, full: bool, p: Progress, path: string)
    requires Visit(disk, session, limits, full, p, path).Ok?
    ensures var q := Visit(disk, session, limits, full, p, path).value;
            var node := CarrierNode(disk, session, path, ExpectedThread(p.nodes, session), Follows(p.nodes));
            && node.Some? && q.nodes == p.nodes + [Trim(node.value, full)] && node.value.path == path
            && |p.nodes| < MAX_FORK_DEPTH && disk.rolloutId(path).Some?
            && disk.rolloutId(path).value !in p.visited && q.visited == p.visited + {disk.rolloutId(path).value}
  {
    ReadNode(disk, session, path, limits, full, ExpectedThread(p.nodes, session), Follows(p.nodes));
  }

  lemma VisitPartial(disk: Disk, session: string, limits: Limits, full: bool, p: Progress, path: string)
    requires Partial(disk, session, limits, full, p) && Next(disk, limits, p, path)
    requires Visit(disk, session, limits, full, p, path).Ok?
    ensures var q := Visit(disk, session, limits, full, p, path).value;
            && Partial(disk, session, limits, full, q) && |q.nodes| == |p.nodes| + 1 && q.nodes[..|p.nodes|] == p.nodes
            && Last(q.nodes).path == path
  {
    VisitNode(disk, session, limits, full, p, path);
    PartialMore(disk, session, limits, full, p, Visit(disk, session, limits, full, p, path).value, path);
  }

  lemma PartialMore(disk: Disk, session: string, limits: Limits, full: bool, p: Progress, q: Progress, path: string)
    requires Partial(disk, session, limits, full, p) && |p.nodes| < MAX_FORK_DEPTH && Next(disk, limits, p, path)
    requires var node := CarrierNode(disk, session, path, ExpectedThread(p.nodes, session), Follows(p.nodes));
             && node.Some? && q.nodes == p.nodes + [Trim(node.value, full)] && node.value.path == path
    requires disk.rolloutId(path).Some? && disk.rolloutId(path).value !in p.visited
    requires q.visited == p.visited + {disk.rolloutId(path).value}
    ensures Partial(disk, session, limits, full, q)
  {
    var n := |p.nodes|;
    forall k | 0 <= k < |q.nodes| ensures NodeHolds(disk, session, full, q.nodes, k) {
      if k < n { assert NodeHolds(disk, session, full, p.nodes, k); }
    }
    forall k | 0 <= k < |q.nodes| - 1 ensures LedBy(disk, limits, q.nodes, k) {
      if k < n - 1 { assert LedBy(disk, limits, p.nodes, k); }
    }
  }

  /** Whatever the lookup answers, a walk that succeeds ends with at most 64 carriers of distinct rollout ids. */
  lemma {:induction false} WalkFinds(disk: Disk, session: string, limits: Limits, full: bool, p: Progress, path: string)
    requires Partial(disk, session, limits, full, p) && Next(disk, limits, p, path)
    requires Walk(disk, session, limits, full, p, path).Ok?
    ensures var nodes := Walk(disk, session, limits, full, p, path).value.nodes;
            Walked(disk, session, limits, full, nodes, if p.nodes == [] then path else p.nodes[0].path)
    decreases Less(MAX_FORK_DEPTH, |p.nodes|)
  {
    var q := Visit(disk, session, limits, full, p, path).value;
    VisitPartial(disk, session, limits, full, p, path);
    if Last(q.nodes).history.Some? {
      var next := disk.lookup(Last(q.nodes).history.value.sourceId, Less(limits.lookupEntries, |q.visited|));
      WalkFinds(disk, session, limits, full, q, next.value.path);
    }
  }

  /** With a lookup that leads an id to one path, a walk follows that path from base to base. */
  lemma WalkChain(disk: Disk, session: string, limits: Limits, full: bool, path: string, resolve: string -> string)
    requires Resolves(disk, resolve) && Walk(disk, session, limits, full, UNREAD, path).Ok?
    ensures Chain(disk, session, full, Walk(disk, session, limits, full, UNREAD, path).value.nodes, path, resolve)
  {
    WalkFinds(disk, session, limits, full, UNREAD, path);
    var nodes := Walk(disk, session, limits, full, UNREAD, path).value.nodes;
    forall k | 0 <= k < |nodes| - 1 ensures LinkOf(nodes, k, resolve) {
      assert LedBy(disk, limits, nodes, k);
    }
  }

  /** The bytes the chain's carriers hold together. */
  function Held(disk: Disk, nodes: seq<Node>): nat {
    if nodes == [] then 0
    else
      Held(disk, nodes[..|nodes| - 1])
      + match disk.file(nodes[|nodes| - 1].path) { case Some(b) => |b| case None => 0 }
  }

  lemma {:induction false} WalkRetains(disk: Disk, session: string, limits: Limits, p: Progress, path: string)
    requires p.retained == Held(disk, p.nodes)
    requires Walk(disk, session, limits, true, p, path).Ok?
    ensures var q := Walk(disk, session, limits, true, p, path).value;
            q.retained == Held(disk, q.nodes) && q.retained <= limits.workingBytes
    decreases Less(MAX_FORK_DEPTH, |p.nodes|)
  {
    var q := Visit(disk, session, limits, true, p, path).value;
    assert q.nodes[..|q.nodes| - 1] == p.nodes;
    if Last(q.nodes).history.Some? {
      var next := disk.lookup(Last(q.nodes).history.value.sourceId, Less(limits.lookupEntries, |q.visited|));
      WalkRetains(disk, session, limits, q, next.value.path);
    }
  }

  // ---- The pieces --------------------------------------------------------------------------

  ghost predicate PieceOf(nodes: seq<Node>, full: bool, json: Json, piece: Piece, j: nat)
    requires j < |nodes|
  {
    piece.node == nodes[j] && !piece.header && Kept(nodes, j, full, json) == Ok(piece.kept)
  }

  lemma {:induction false} GatherForm(nodes: seq<Node>, index: nat, full: bool, json: Json, pieces: seq<Piece>)
    requires index <= |nodes| && Gather(nodes, index, full, json, pieces).Ok?
    ensures var all := Gather(nodes, index, full, json, pieces).value;
            && |all| == |pieces| + index && all[..|pieces|] == pieces
            && forall t | |pieces| <= t < |all| :: PieceOf(nodes, full, json, all[t], |all| - 1 - t)
  {
    if index > 0 {
      var kept := Kept(nodes, index - 1, full, json).value;
      var longer := pieces + [Piece(nodes[index - 1], false, kept)];
      GatherForm(nodes, index - 1, full, json, longer);
      var all := Gather(nodes, index - 1, full, json, longer).value;
      assert all == Gather(nodes, index, full, json, pieces).value;
      assert all[|pieces|] == all[..|longer|][|pieces|] == Piece(nodes[index - 1], false, kept);
      assert all[..|pieces|] == all[..|longer|][..|pieces|];
    }
  }

  /** The header of the thread's first segment, then one body piece a node, oldest first. */
  lemma PiecesForm(nodes: seq<Node>, full: bool, json: Json)
    requires Pieces(nodes, full, json).Ok?
    ensures var pieces := Pieces(nodes, full, json).value;
            && FirstOwn(nodes).Some? && |pieces| == |nodes| + 1
            && pieces[0] == Piece(nodes[FirstOwn(nodes).value], true, |nodes[FirstOwn(nodes).value].parts.header|)
            && forall t | 1 <= t < |pieces| :: PieceOf(nodes, full, json, pieces[t], |nodes| - t)
  {
    var first := FirstOwn(nodes).value;
    var lead := [Piece(nodes[first], true, |nodes[first].parts.header|)];
    GatherForm(nodes, |nodes|, full, json, lead);
    assert Pieces(nodes, full, json).value[..1] == lead;
  }

  // ---- Headers alone -----------------------------------------------------------------------

  lemma TrimmedSnoc(nodes: seq<Node>, node: Node)
    ensures Trimmed(nodes + [node]) == Trimmed(nodes) + [Trim(node, false)]
  {
  }

  lemma LastTrimmed(nodes: seq<Node>)
    ensures |Trimmed(nodes)| == |nodes| && (Trimmed(nodes) == [] <==> nodes == [])
    ensures nodes != [] ==> Last(Trimmed(nodes)) == Trim(Last(nodes), false)
  {
  }

  predicate ShortHeader(disk: Disk, path: string) {
    disk.file(path).Some? && FirstLine(disk.file(path).value) <= MAX_HEADER_BYTES
  }

  lemma ShortFirstLine(bytes: Bytes, window: Bytes)
    requires window <= bytes && HasNewline(bytes) && FirstLine(bytes) <= |window|
    ensures HasNewline(window)
  {
    assert window[FirstLine(bytes) - 1] == LF;
  }

  lemma ReadHeaderOf(disk: Disk, path: string, limits: Limits)
    requires ReadFile(disk, path, limits).Ok? && HasNewline(disk.file(path).value)
    ensures ShortHeader(disk, path) ==> ReadHeader(disk, path).Ok?
    ensures ReadHeader(disk, path).Ok? ==>
              |ReadHeader(disk, path).value.bytes| <= |disk.file(path).value|
  {
    var bytes := disk.file(path).value;
    var window := if |bytes| <= MAX_HEADER_BYTES then bytes else bytes[..MAX_HEADER_BYTES];
    if ShortHeader(disk, path) {
      ShortFirstLine(bytes, window);
    }
  }

  lemma VisitRefines(disk: Disk, session: string, limits: Limits, p: Progress, h: Progress, path: string)
    requires h.nodes == Trimmed(p.nodes) && h.visited == p.visited && h.retained <= p.retained
    requires Visit(disk, session, limits, true, p, path).Ok?
    ensures var q, r := Visit(disk, session, limits, true, p, path).value, Visit(disk, session, limits, false, h, path);
            && (r.Ok? ==>
                  r.value.nodes == Trimmed(q.nodes) && r.value.visited == q.visited && r.value.retained <= q.retained)
            && (ShortHeader(disk, path) ==> r.Ok?)
  {
    var q := Visit(disk, session, limits, true, p, path).value;
    var expected, follows := ExpectedThread(p.nodes, session), Follows(p.nodes);
    ReadNode(disk, session, path, limits, true, expected, follows);
    ReadHeaderOf(disk, path, limits);
    LastTrimmed(p.nodes);
    assert Follows(h.nodes) == follows && ExpectedThread(h.nodes, session) == expected;
    if ReadHeader(disk, path).Ok? {
      ReadNode(disk, session, path, limits, false, expected, follows);
      TrimmedSnoc(p.nodes, Last(q.nodes));
    }
  }

  lemma {:induction false} WalkRefines(disk: Disk, session: string, limits: Limits, p: Progress, h: Progress,
                                       path: string)
    requires h.nodes == Trimmed(p.nodes) && h.visited == p.visited && h.retained <= p.retained
    requires Walk(disk, session, limits, true, p, path).Ok?
    ensures var q, r := Walk(disk, session, limits, true, p, path).value, Walk(disk, session, limits, false, h, path);
            && p.nodes <= q.nodes
            && (r.Ok? ==> r.value.nodes == Trimmed(q.nodes))
            && ((forall k | |p.nodes| <= k < |q.nodes| :: ShortHeader(disk, q.nodes[k].path)) ==> r.Ok?)
    decreases Less(MAX_FORK_DEPTH, |p.nodes|)
  {
    VisitRefines(disk, session, limits, p, h, path);
    var q, r := Visit(disk, session, limits, true, p, path).value, Visit(disk, session, limits, false, h, path);
    if r.Ok? {
      assert Last(r.value.nodes).history == Last(q.nodes).history;
    }
    if Last(q.nodes).history.Some? {
      var next := disk.lookup(Last(q.nodes).history.value.sourceId, Less(limits.lookupEntries, |q.visited|));
      var shadow := if r.Ok? then r.value else Progress(Trimmed(q.nodes), q.visited, q.retained);
      WalkRefines(disk, session, limits, q, shadow, next.value.path);
      assert Last(q.nodes).path == path;
      assert Walk(disk, session, limits, true, p, path).value.nodes[|p.nodes|] == Last(q.nodes);
    } else {
      assert Last(q.nodes).path == path;
    }
  }

  function TrimmedPieces(pieces: seq<Piece>): seq<Piece> {
    seq(|pieces|, k requires 0 <= k < |pieces| => pieces[k].(node := Trim(pieces[k].node, false)))
  }

  lemma {:induction false} TrimmedPiecesSpans(pieces: seq<Piece>)
    ensures Spans(TrimmedPieces(pieces)) == Spans(pieces) && Total(TrimmedPieces(pieces)) == Total(pieces)
  {
    if pieces != [] {
      var front := pieces[..|pieces| - 1];
      TrimmedPiecesSpans(front);
      assert TrimmedPieces(pieces)[..|pieces| - 1] == TrimmedPieces(front);
    }
  }

  lemma {:induction false} FirstOwnTrimmed(nodes: seq<Node>)
    ensures FirstOwn(Trimmed(nodes)) == FirstOwn(nodes)
  {
    if nodes != [] {
      FirstOwnTrimmed(nodes[..|nodes| - 1]);
      assert Trimmed(nodes)[..|nodes| - 1] == Trimmed(nodes[..|nodes| - 1]);
    }
  }

  lemma KeptRefines(nodes: seq<Node>, index: nat, json: Json)
    requires index < |nodes| && Kept(nodes, index, true, json).Ok?
    ensures Kept(Trimmed(nodes), index, false, json) == Kept(nodes, index, true, json)
  {
    assert Trimmed(nodes)[index] == Trim(nodes[index], false);
    assert index > 0 ==> Trimmed(nodes)[index - 1] == Trim(nodes[index - 1], false);
  }

  lemma TrimmedMore(pieces: seq<Piece>, piece: Piece)
    requires !piece.header
    ensures TrimmedPieces(pieces + [piece])
        == TrimmedPieces(pieces) + [Piece(Trim(piece.node, false), false, piece.kept)]
  {
  }

  lemma {:induction false} GatherRefines(nodes: seq<Node>, index: nat, json: Json, pieces: seq<Piece>)
    requires index <= |nodes| && Gather(nodes, index, true, json, pieces).Ok?
    ensures Gather(Trimmed(nodes), index, false, json, TrimmedPieces(pieces))
         == Ok(TrimmedPieces(Gather(nodes, index, true, json, pieces).value))
  {
    if index > 0 {
      var kept := Kept(nodes, index - 1, true, json).value;
      KeptRefines(nodes, index - 1, json);
      var piece := Piece(nodes[index - 1], false, kept);
      GatherRefines(nodes, index - 1, json, pieces + [piece]);
      TrimmedMore(pieces, piece);
      assert Trimmed(nodes)[index - 1] == Trim(nodes[index - 1], false);
    }
  }

  lemma PiecesRefine(nodes: seq<Node>, json: Json)
    requires Pieces(nodes, true, json).Ok?
    ensures Pieces(Trimmed(nodes), false, json) == Ok(TrimmedPieces(Pieces(nodes, true, json).value))
  {
    FirstOwnTrimmed(nodes);
    var first := FirstOwn(nodes).value;
    var lead := [Piece(nodes[first], true, |nodes[first].parts.header|)];
    GatherRefines(nodes, |nodes|, json, lead);
    assert TrimmedPieces(lead) == [Piece(Trimmed(nodes)[first], true, |Trimmed(nodes)[first].parts.header|)];
  }

  function NodesOf(disk: Disk, source: Source, limits: Limits, full: bool): seq<Node>
    requires Walk(disk, source.session, limits, full, UNREAD, source.path).Ok?
  {
    Walk(disk, source.session, limits, full, UNREAD, source.path).value.nodes
  }

  /** Where the spans end in the stream. */
  function StreamEnd(spans: seq<Span>): nat {
    if spans == [] then 0
    else
      var last := spans[|spans| - 1];
      last.streamStart + if last.start <= last.end then last.end - last.start else 0
  }

  lemma NodesFit(disk: Disk, session: string, nodes: seq<Node>)
    requires forall k | 0 <= k < |nodes| :: NodeHolds(disk, session, true, nodes, k)
    ensures forall k | 0 <= k < |nodes| :: Fits(nodes[k], true)
  {
    forall k | 0 <= k < |nodes| ensures Fits(nodes[k], true) {
      assert NodeHolds(disk, session, true, nodes, k);
    }
  }

  lemma PiecesFitted(nodes: seq<Node>, json: Json)
    requires (forall k | 0 <= k < |nodes| :: Fits(nodes[k], true)) && Pieces(nodes, true, json).Ok?
    ensures forall t | 0 <= t < |Pieces(nodes, true, json).value| :: Fitted(Pieces(nodes, true, json).value[t], true)
  {
    PiecesForm(nodes, true, json);
    var pieces := Pieces(nodes, true, json).value;
    forall t | 0 <= t < |pieces| ensures Fitted(pieces[t], true) {
      if t > 0 { assert PieceOf(nodes, true, json, pieces[t], |nodes| - t); }
    }
  }

  lemma {:induction false} StreamLength(pieces: seq<Piece>)
    requires forall t | 0 <= t < |pieces| :: Fitted(pieces[t], true)
    ensures |Stream(pieces)| == Total(pieces) && StreamEnd(Spans(pieces)) == Total(pieces)
  {
    if pieces != [] {
      var front := pieces[..|pieces| - 1];
      StreamLength(front);
      assert Fitted(pieces[|pieces| - 1], true);
    }
  }

  /**
   The header-only capture refines the full one: when both succeed their spans are the same and
   end at the full stream's length; and it succeeds whenever the full one does, unless some
   header line is longer than the header reader's limit.
   */
  lemma HeaderOnlyRefinesFull(disk: Disk, source: Source, limits: Limits)
    requires CaptureOf(disk, source, limits, true).Ok?
    ensures var whole, short := CaptureOf(disk, source, limits, true).value, CaptureOf(disk, source, limits, false);
            && StreamEnd(whole.spans) == |whole.bytes|
            && (short.Ok? ==> short.value == Captured([], whole.spans))
            && ((forall node | node in NodesOf(disk, source, limits, true) :: ShortHeader(disk, node.path))
                ==> short.Ok?)
  {
    assert Trimmed([]) == [];
    WalkRefines(disk, source.session, limits, UNREAD, UNREAD, source.path);
    WalkFinds(disk, source.session, limits, true, UNREAD, source.path);
    var nodes := NodesOf(disk, source, limits, true);
    NodesFit(disk, source.session, nodes);
    PiecesFitted(nodes, disk.json);
    PiecesRefine(nodes, disk.json);
    var pieces := Pieces(nodes, true, disk.json).value;
    StreamLength(pieces);
    TrimmedPiecesSpans(pieces);
  }
}
