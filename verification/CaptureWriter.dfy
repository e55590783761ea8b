/**
 Captures while Codex writes: appending to the thread's newest segment, continuing the thread in
 a new segment from any cut (a rewind included), and other threads growing their own carriers.
 Whatever a capture settled is a prefix of every later capture, and keeps its offsets.
 */
module CaptureWriter {
  import opened Wrappers
  import opened Lines
  import opened Rollout
  import opened Capture
  import opened CaptureProofs
  import opened CaptureSpans

  /** What stays fixed over a run: the thread, the naming of carriers, and where an id leads. */
  datatype Setting = Setting(json: Json, session: string, rolloutId: string -> Option<string>,
                             resolve: string -> string)

  /** The carriers on disk and the thread's own segments, newest first. */
  datatype World = World(files: map<string, Bytes>, own: seq<string>)

  type Lookup = (string, nat) -> Result<Source, Unavailable>

  function DiskOf(s: Setting, w: World, lookup: Lookup): Disk {
    Disk(s.json, s.rolloutId, path => if path in w.files then Some(w.files[path]) else None, lookup)
  }

  datatype Step = AppendLeaf(bytes: Bytes) | RollOver(path: string, bytes: Bytes)
      | GrowOther(path: string, bytes: Bytes)

  function SplitOwn(s: Setting, bytes: Bytes): Result<Split, SplitFailure> {
    SplitRollout(bytes, Some(s.session), s.json)
  }

  /** A carrier whose header, once complete, names another thread. */
  predicate Foreign(s: Setting, bytes: Bytes) {
    HasNewline(bytes) ==> HeaderThread(bytes[..FirstLine(bytes)], s.json) != Some(s.session)
  }

  /** A new segment of the thread whose base is `leaf`, cut anywhere. */
  predicate Continues(s: Setting, bytes: Bytes, leaf: string) {
    var split := SplitOwn(s, bytes);
    split.Ok? && split.value.history.Some? && s.resolve(split.value.history.value.sourceId) == leaf
  }

  ghost predicate Next(s: Setting, w: World, w': World, step: Step) {
    w.own != [] && w.own[0] in w.files &&
    match step
    case AppendLeaf(bytes) => w' == w.(files := w.files[w.own[0] := w.files[w.own[0]] + bytes])
    case RollOver(path, bytes) =>
      path !in w.files && Continues(s, bytes, w.own[0]) && w' == World(w.files[path := bytes], [path] + w.own)
    case GrowOther(path, bytes) =>
      var grown := (if path in w.files then w.files[path] else []) + bytes;
      path !in w.own && Foreign(s, grown) && w' == w.(files := w.files[path := grown])
  }

  /** The thread was just created, alone or as a fork of other carriers. */
  ghost predicate Born(s: Setting, w: World) {
    && |w.own| == 1 && w.own[0] in w.files && SplitOwn(s, w.files[w.own[0]]).Ok?
    && forall path | path in w.files && path != w.own[0] :: Foreign(s, w.files[path])
  }

  ghost predicate OwnAt(s: Setting, w: World, k: nat)
    requires k < |w.own|
  {
    && w.own[k] in w.files && SplitOwn(s, w.files[w.own[k]]).Ok?
    && (k + 1 < |w.own| ==> Continues(s, w.files[w.own[k]], w.own[k + 1]))
  }

  /** Each of the thread's segments continues the one before it. */
  ghost predicate Segments(s: Setting, w: World) {
    w.own != [] && forall k | 0 <= k < |w.own| :: OwnAt(s, w, k)
  }

  ghost predicate WellFormed(s: Setting, w: World) {
    && Segments(s, w)
    && (forall j, k | 0 <= j < k < |w.own| :: w.own[j] != w.own[k])
    && (forall path | path in w.files && path !in w.own :: Foreign(s, w.files[path]))
  }

  ghost predicate Moves(s: Setting, w: World, w': World) {
    exists step :: Next(s, w, w', step)
  }

  ghost predicate Trace(s: Setting, trace: seq<World>) {
    trace != [] && Born(s, trace[0])
    && forall k | 0 < k < |trace| :: Moves(s, trace[k - 1], trace[k])
  }

  /** `w'` comes after `w`: segments were added, older segments are frozen, every carrier only grew. */
  ghost predicate Evolves(w: World, w': World) {
    var n := |w'.own| - |w.own|;
    && n >= 0 && w'.own[n..] == w.own
    && (forall path | path in w.files :: path in w'.files && w.files[path] <= w'.files[path])
    && (forall k | 1 <= k < |w.own| ::
          w.own[k] in w.files && w.own[k] in w'.files && w'.files[w.own[k]] == w.files[w.own[k]])
  }

  // ---- Invariants of a run -----------------------------------------------------------------

  /** A complete header stays what it is as the carrier grows. */
  lemma SplitGrows(a: Bytes, b: Bytes, expected: Option<string>, other: Option<string>, json: Json)
    requires a <= b && SplitRollout(a, expected, json).Ok?
    ensures SplitRollout(b, expected, json).Ok?
    ensures SplitRollout(b, other, json).Ok? ==>
      var x, y := SplitRollout(a, expected, json).value, SplitRollout(b, other, json).value;
      x.history == y.history && x.parts.header == y.parts.header && x.parts.ordinal == y.parts.ordinal
          && x.parts.body <= y.parts.body
  {
    FirstLineSame(a, b);
    GrownSlices(a, b, FirstLine(a));
  }

  lemma GrownSlices(a: Bytes, b: Bytes, n: nat)
    requires a <= b && 0 < n <= |a|
    ensures a[..n] == b[..n] && a[..n - 1] == b[..n - 1] && a[n..] <= b[n..]
  {
  }

  lemma BornWellFormed(s: Setting, w: World)
    requires Born(s, w)
    ensures WellFormed(s, w)
  {
    assert OwnAt(s, w, 0);
  }

  lemma NextOwn(s: Setting, w: World, w': World, step: Step, k: nat)
    requires WellFormed(s, w) && Next(s, w, w', step) && k < |w'.own|
    ensures OwnAt(s, w', k)
  {
    match step
    case AppendLeaf(bytes) =>
      assert OwnAt(s, w, k);
      var some := Some(s.session);
      if k == 0 { SplitGrows(w.files[w.own[0]], w'.files[w.own[0]], some, some, s.json); }
    case RollOver(path, bytes) =>
      if k > 0 { assert OwnAt(s, w, k - 1); }
    case GrowOther(path, bytes) =>
      assert OwnAt(s, w, k);
  }

  lemma NewSegment(s: Setting, w: World, w': World, step: Step)
    requires WellFormed(s, w) && Next(s, w, w', step) && step.RollOver?
    ensures forall j, k | 0 <= j < k < |w'.own| :: w'.own[j] != w'.own[k]
    ensures forall path | path in w.own :: path in w'.own
  {
    forall j, k | 0 <= j < k < |w'.own| ensures w'.own[j] != w'.own[k] {
      assert OwnAt(s, w, k - 1) && w'.own[k] == w.own[k - 1];
      if j > 0 { assert w.own[j - 1] != w.own[k - 1]; }
    }
    forall path | path in w.own ensures path in w'.own {
      assert w'.own == [step.path] + w.own;
    }
  }

  lemma NextWellFormed(s: Setting, w: World, w': World, step: Step)
    requires WellFormed(s, w) && Next(s, w, w', step)
    ensures WellFormed(s, w')
  {
    forall k | 0 <= k < |w'.own| ensures OwnAt(s, w', k) {
      NextOwn(s, w, w', step, k);
    }
    if step.RollOver? {
      NewSegment(s, w, w', step);
    }
  }

  lemma FilesGrow(s: Setting, w: World, w': World, step: Step, path: string)
    requires Next(s, w, w', step) && path in w.files
    ensures path in w'.files && w.files[path] <= w'.files[path]
    ensures path in w.own && path != w.own[0] ==> w'.files[path] == w.files[path]
  {
  }

  lemma OwnShifts(s: Setting, w: World, w': World, step: Step, own: seq<string>)
    requires Next(s, w, w', step) && |own| <= |w.own| && w.own[|w.own| - |own|..] == own
    ensures |own| <= |w'.own| && w'.own[|w'.own| - |own|..] == own
  {
    var n := |w.own| - |own|;
    if step.RollOver? {
      assert w'.own[n + 1..] == w.own[n..];
    }
  }

  lemma EvolvesNext(s: Setting, first: World, w: World, w': World, step: Step)
    requires WellFormed(s, w) && Evolves(first, w) && Next(s, w, w', step)
    ensures Evolves(first, w')
  {
    var n := |w.own| - |first.own|;
    OwnShifts(s, w, w', step, first.own);
    forall path | path in first.files ensures path in w'.files && first.files[path] <= w'.files[path] {
      FilesGrow(s, w, w', step, path);
    }
    forall k | 1 <= k < |first.own|
      ensures first.own[k] in w'.files && w'.files[first.own[k]] == w.files[first.own[k]]
    {
      assert w.own[n..][k] == w.own[n + k];
      assert OwnAt(s, w, n + k);
      assert w.own[0] != w.own[n + k];
      FilesGrow(s, w, w', step, w.own[n + k]);
    }
  }

  lemma EvolvesMoves(s: Setting, first: World, w: World, w': World)
    requires WellFormed(s, w) && Evolves(first, w) && Moves(s, w, w')
    ensures Evolves(first, w')
  {
    var step :| Next(s, w, w', step);
    EvolvesNext(s, first, w, w', step);
  }

  lemma {:induction false} TraceWellFormed(s: Setting, trace: seq<World>, i: nat)
    requires Trace(s, trace) && i < |trace|
    ensures WellFormed(s, trace[i])
  {
    if i == 0 {
      BornWellFormed(s, trace[0]);
    } else {
      TraceWellFormed(s, trace, i - 1);
      assert Moves(s, trace[i - 1], trace[i]);
      var step :| Next(s, trace[i - 1], trace[i], step);
      NextWellFormed(s, trace[i - 1], trace[i], step);
    }
  }

  lemma EvolvesSelf(s: Setting, w: World)
    requires WellFormed(s, w)
    ensures Evolves(w, w)
  {
    assert w.own[0..] == w.own;
    forall k | 1 <= k < |w.own| ensures w.own[k] in w.files {
      assert OwnAt(s, w, k);
    }
  }

  lemma MovesAt(s: Setting, trace: seq<World>, j: nat)
    requires Trace(s, trace) && 0 < j < |trace|
    ensures Moves(s, trace[j - 1], trace[j])
  {
  }

  lemma {:induction false} TraceEvolves(s: Setting, trace: seq<World>, i: nat, j: nat)
    requires Trace(s, trace) && i <= j < |trace|
    ensures Evolves(trace[i], trace[j])
    decreases j - i
  {
    if i < j {
      TraceEvolves(s, trace, i, j - 1);
      TraceWellFormed(s, trace, j - 1);
      MovesAt(s, trace, j);
      EvolvesMoves(s, trace[i], trace[j - 1], trace[j]);
    } else {
      TraceWellFormed(s, trace, i);
      EvolvesSelf(s, trace[i]);
    }
  }

  // ---- Chains as the world evolves ---------------------------------------------------------

  ghost predicate ChainIn(s: Setting, w: World, lookup: Lookup, nodes: seq<Node>) {
    w.own != [] && Chain(DiskOf(s, w, lookup), s.session, true, nodes, w.own[0], s.resolve)
  }

  ghost predicate LinksIn(s: Setting, w: World, lookup: Lookup, nodes: seq<Node>) {
    w.own != [] && Links(DiskOf(s, w, lookup), s.session, true, nodes, w.own[0], s.resolve)
  }

  lemma NodeSplit(s: Setting, w: World, lookup: Lookup, nodes: seq<Node>, k: nat)
    requires k < |nodes| && NodeHolds(DiskOf(s, w, lookup), s.session, true, nodes, k)
    ensures nodes[k].path in w.files
    ensures var split := SplitRollout(w.files[nodes[k].path], if k == 0 then Some(s.session) else None, s.json);
            && split == Ok(Split(nodes[k].parts, nodes[k].history))
            && nodes[k].bodyLen == |nodes[k].parts.body| && nodes[k].completeLen == WholeLen(nodes[k].parts.body)
            && nodes[k].sameThread
                == ((k == 0 || nodes[k - 1].sameThread)
                    && HeaderThread(nodes[k].parts.header, s.json) == Some(s.session))
  {
  }

  /** A header that splits for the thread names the thread. */
  lemma OwnHeader(s: Setting, bytes: Bytes)
    requires SplitOwn(s, bytes).Ok?
    ensures HasNewline(bytes) && SplitOwn(s, bytes).value.parts.header == bytes[..FirstLine(bytes)]
    ensures HeaderThread(bytes[..FirstLine(bytes)], s.json) == Some(s.session)
  {
    var n := FirstLine(bytes);
    assert bytes[..n][..n - 1] == bytes[..n - 1];
  }

  /** The carrier at one of the thread's segments splits as that segment does. */
  lemma OwnNode(s: Setting, w: World, lookup: Lookup, nodes: seq<Node>, k: nat)
    requires k < |nodes| && NodeHolds(DiskOf(s, w, lookup), s.session, true, nodes, k)
    requires nodes[k].path in w.files && SplitOwn(s, w.files[nodes[k].path]).Ok?
    ensures nodes[k].history == SplitOwn(s, w.files[nodes[k].path]).value.history
    ensures nodes[k].sameThread == (k == 0 || nodes[k - 1].sameThread)
  {
    var bytes := w.files[nodes[k].path];
    NodeSplit(s, w, lookup, nodes, k);
    OwnHeader(s, bytes);
    SplitGrows(bytes, bytes, Some(s.session), if k == 0 then Some(s.session) else None, s.json);
  }

  /** A chain starts with the thread's own segments, and has none after them. */
  lemma {:induction false} OwnFirst(s: Setting, w: World, lookup: Lookup, nodes: seq<Node>, k: nat)
    requires Segments(s, w) && LinksIn(s, w, lookup, nodes) && k < |w.own|
    ensures k < |nodes| && nodes[k].path == w.own[k] && nodes[k].sameThread
  {
    assert OwnAt(s, w, k);
    if k > 0 {
      OwnFirst(s, w, lookup, nodes, k - 1);
      assert OwnAt(s, w, k - 1);
      OwnNode(s, w, lookup, nodes, k - 1);
      assert LinkOf(nodes, k - 1, s.resolve);
    }
    OwnNode(s, w, lookup, nodes, k);
  }

  lemma {:induction false} OthersAfter(s: Setting, w: World, lookup: Lookup, nodes: seq<Node>, k: nat)
    requires WellFormed(s, w) && ChainIn(s, w, lookup, nodes) && |w.own| <= k < |nodes|
    ensures !nodes[k].sameThread
  {
    NodeSplit(s, w, lookup, nodes, k);
    if k > |w.own| {
      OthersAfter(s, w, lookup, nodes, k - 1);
    } else {
      var disk := DiskOf(s, w, lookup);
      if nodes[k].path in w.own {
        var j :| 0 <= j < |w.own| && w.own[j] == nodes[k].path;
        OwnFirst(s, w, lookup, nodes, j);
        PathsDistinct(disk, nodes, j, k);
      }
      assert nodes[k].parts.header == w.files[nodes[k].path][..FirstLine(w.files[nodes[k].path])];
    }
  }

  lemma FirstOwnIs(s: Setting, w: World, lookup: Lookup, nodes: seq<Node>)
    requires WellFormed(s, w) && ChainIn(s, w, lookup, nodes)
    ensures FirstOwn(nodes) == Some(|w.own| - 1)
  {
    OwnFirst(s, w, lookup, nodes, |w.own| - 1);
    var first := FirstOwn(nodes).value;
    if first >= |w.own| { OthersAfter(s, w, lookup, nodes, first); }
  }

  /** The same carrier in an earlier and a later chain. */
  ghost predicate Same(a: Node, b: Node) {
    && a.path == b.path && a.parts.header == b.parts.header && a.parts.ordinal == b.parts.ordinal
    && a.history == b.history && a.sameThread == b.sameThread && a.parts.body <= b.parts.body
  }

  /** One carrier, read in an earlier and a later chain: only its body may have grown. */
  lemma CarrierSame(s: Setting, w: World, w': World, l: Lookup, l': Lookup, nodes: seq<Node>, nodes': seq<Node>,
                    j: nat, m: nat)
    requires j < |nodes| && NodeHolds(DiskOf(s, w, l), s.session, true, nodes, j)
    requires m < |nodes'| && NodeHolds(DiskOf(s, w', l'), s.session, true, nodes', m)
    requires nodes[j].path == nodes'[m].path
    requires var path := nodes[j].path; path in w.files ==> path in w'.files && w.files[path] <= w'.files[path]
    ensures var a, b := nodes[j], nodes'[m];
            && a.parts.header == b.parts.header && a.parts.ordinal == b.parts.ordinal && a.history == b.history
            && a.parts.body <= b.parts.body
            && ((a.sameThread && b.sameThread)
                || (j > 0 && m > 0 && nodes[j - 1].sameThread == nodes'[m - 1].sameThread)
                ==> Same(a, b))
  {
    var path := nodes[j].path;
    NodeSplit(s, w, l, nodes, j);
    NodeSplit(s, w', l', nodes', m);
    SplitGrows(w.files[path], w'.files[path], if j == 0 then Some(s.session) else None,
               if m == 0 then Some(s.session) else None, s.json);
  }

  /** The thread's later segments are some new ones in front of the earlier ones, and every carrier only grew. */
  ghost predicate Longer(w: World, w': World) {
    && |w.own| <= |w'.own| && w'.own[|w'.own| - |w.own|..] == w.own
    && forall path | path in w.files :: path in w'.files && w.files[path] <= w'.files[path]
  }

  /** The later chain is the new segments followed by the earlier chain, carrier by carrier. */
  lemma {:induction false} ChainsMatch(s: Setting, w: World, w': World, l: Lookup, l': Lookup, nodes: seq<Node>,
                                       nodes': seq<Node>, j: nat, m: nat)
    requires Segments(s, w) && Segments(s, w') && Longer(w, w') && m == |w'.own| - |w.own| + j
    requires LinksIn(s, w, l, nodes) && LinksIn(s, w', l', nodes') && j < |nodes|
    ensures m < |nodes'| && Same(nodes[j], nodes'[m])
    decreases j
  {
    if j == 0 {
      LeavesMatch(s, w, w', l, l', nodes, nodes');
    } else {
      ChainsMatch(s, w, w', l, l', nodes, nodes', j - 1, m - 1);
      assert nodes[j - 1].sameThread == nodes'[m - 1].sameThread;
      NextPath(s, w', l', nodes, nodes', j, m, DiskOf(s, w, l));
    }
    GrownSame(s, w, w', l, l', nodes, nodes', j, m);
  }

  /** A carrier the two chains share, where both or neither of them are the thread's own. */
  lemma GrownSame(s: Setting, w: World, w': World, l: Lookup, l': Lookup, nodes: seq<Node>, nodes': seq<Node>, j: nat,
                  m: nat)
    requires LinksIn(s, w, l, nodes) && LinksIn(s, w', l', nodes') && Longer(w, w')
    requires j < |nodes| && m < |nodes'| && nodes[j].path == nodes'[m].path
    requires || (nodes[j].sameThread && nodes'[m].sameThread)
             || (j > 0 && m > 0 && nodes[j - 1].sameThread == nodes'[m - 1].sameThread)
    ensures Same(nodes[j], nodes'[m])
  {
    assert NodeHolds(DiskOf(s, w, l), s.session, true, nodes, j);
    assert NodeHolds(DiskOf(s, w', l'), s.session, true, nodes', m);
    CarrierSame(s, w, w', l, l', nodes, nodes', j, m);
  }

  lemma LeavesMatch(s: Setting, w: World, w': World, l: Lookup, l': Lookup, nodes: seq<Node>, nodes': seq<Node>)
    requires Segments(s, w) && Segments(s, w') && Longer(w, w')
    requires LinksIn(s, w, l, nodes) && LinksIn(s, w', l', nodes')
    ensures var n := |w'.own| - |w.own|;
            n < |nodes'| && nodes[0].path == nodes'[n].path && nodes[0].sameThread && nodes'[n].sameThread
  {
    var n := |w'.own| - |w.own|;
    OwnFirst(s, w', l', nodes', n);
    OwnFirst(s, w, l, nodes, 0);
    assert w'.own[n..][0] == w'.own[n];
  }

  /** Where equal carriers lead, the chains go on alike. */
  lemma NextPath(s: Setting, w': World, l': Lookup, nodes: seq<Node>, nodes': seq<Node>, j: nat, m: nat, disk: Disk)
    requires 1 <= j < |nodes| && 1 <= m && m - 1 < |nodes'| && nodes[j - 1].history == nodes'[m - 1].history
    requires Links(disk, s.session, true, nodes, nodes[0].path, s.resolve) && LinksIn(s, w', l', nodes')
    ensures m < |nodes'| && nodes[j].path == nodes'[m].path
  {
    assert LinkOf(nodes, j - 1, s.resolve);
    assert nodes'[m - 1].history.Some?;
    assert m < |nodes'|;
    assert LinkOf(nodes', m - 1, s.resolve);
  }

  lemma ChainsSameLength(s: Setting, w: World, w': World, l: Lookup, l': Lookup, nodes: seq<Node>, nodes': seq<Node>)
    requires WellFormed(s, w) && WellFormed(s, w') && Evolves(w, w')
    requires ChainIn(s, w, l, nodes) && ChainIn(s, w', l', nodes')
    ensures |nodes'| == |nodes| + (|w'.own| - |w.own|)
  {
    var n := |w'.own| - |w.own|;
    var j := |nodes| - 1;
    ChainsMatch(s, w, w', l, l', nodes, nodes', j, n + j);
    forall k | 0 <= k < |nodes'| - 1 ensures nodes'[k].history.Some? {
      assert LinkOf(nodes', k, s.resolve);
    }
  }

  // ---- Captures as the world evolves -------------------------------------------------------

  ghost predicate Captures(s: Setting, w: World, lookup: Lookup, limits: Limits) {
    w.own != [] && Resolves(DiskOf(s, w, lookup), s.resolve)
    && CaptureOf(DiskOf(s, w, lookup), Source(w.own[0], s.session), limits, true).Ok?
  }

  function TakenAt(s: Setting, w: World, lookup: Lookup, limits: Limits): Captured
    requires w.own != [] && CaptureOf(DiskOf(s, w, lookup), Source(w.own[0], s.session), limits, true).Ok?
  {
    CaptureOf(DiskOf(s, w, lookup), Source(w.own[0], s.session), limits, true).value
  }

  function NodesAt(s: Setting, w: World, lookup: Lookup, limits: Limits): seq<Node>
    requires w.own != [] && CaptureOf(DiskOf(s, w, lookup), Source(w.own[0], s.session), limits, true).Ok?
  {
    NodesOf(DiskOf(s, w, lookup), Source(w.own[0], s.session), limits, true)
  }

  lemma CaptureChain(s: Setting, w: World, lookup: Lookup, limits: Limits)
    requires Captures(s, w, lookup, limits)
    ensures var nodes := NodesAt(s, w, lookup, limits);
            ChainIn(s, w, lookup, nodes) && Pieces(nodes, true, s.json).Ok?
            && TakenAt(s, w, lookup, limits)
                == Captured(Stream(Pieces(nodes, true, s.json).value), Spans(Pieces(nodes, true, s.json).value))
            && Apart(Spans(Pieces(nodes, true, s.json).value))
  {
    var disk, source := DiskOf(s, w, lookup), Source(w.own[0], s.session);
    WalkChain(disk, s.session, limits, true, source.path, s.resolve);
    SpansApart(disk, NodesAt(s, w, lookup, limits));
  }

  /** A piece both captures copy alike. */
  predicate PieceSame(a: Piece, b: Piece) {
    Slice(a) == Slice(b) && SpanOf(a, 0) == SpanOf(b, 0) && a.kept == b.kept
  }

  /** The earlier leaf's body, of which the later capture keeps at least the complete records. */
  predicate LeafGrown(a: Piece, b: Piece) {
    && !a.header && !b.header && a.node.path == b.node.path && |a.node.parts.header| == |b.node.parts.header|
    && a.kept == |a.node.parts.body| && WholeLen(a.node.parts.body) <= b.kept
    && a.node.parts.body[..WholeLen(a.node.parts.body)] <= Slice(b)
  }

  /** The earlier pieces all recur, in place; only the last of them may have changed. */
  ghost predicate Shared(p: seq<Piece>, p': seq<Piece>) {
    p != [] && |p| <= |p'|
    && (forall k | 0 <= k < |p| - 1 :: PieceSame(p[k], p'[k]))
    && LeafGrown(p[|p| - 1], p'[|p| - 1])
  }

  lemma KeptSame(nodes: seq<Node>, nodes': seq<Node>, j: nat, m: nat, json: Json, a: Piece, b: Piece)
    requires 1 <= j < |nodes| && 1 <= m < |nodes'|
    requires PieceOf(nodes, true, json, a, j) && PieceOf(nodes', true, json, b, m)
    requires Same(nodes[j], nodes'[m]) && nodes[j - 1].history == nodes'[m - 1].history
    requires Fits(nodes[j], true) && Fits(nodes'[m], true)
    requires nodes[j].sameThread ==> nodes[j].parts.body == nodes'[m].parts.body
    ensures PieceSame(a, b)
  {
    var body, body' := nodes[j].parts.body, nodes'[m].parts.body;
    assert a.kept == b.kept && a.kept <= |body|;
    assert body[..a.kept] == body'[..a.kept];
  }

  lemma LeafGrows(nodes: seq<Node>, nodes': seq<Node>, m: nat, json: Json, a: Piece, b: Piece)
    requires 0 < |nodes| && m < |nodes'|
    requires PieceOf(nodes, true, json, a, 0) && PieceOf(nodes', true, json, b, m)
    requires Same(nodes[0], nodes'[m]) && nodes'[m].sameThread
    requires Fits(nodes[0], true) && Fits(nodes'[m], true)
    ensures LeafGrown(a, b)
  {
    var body, body' := nodes[0].parts.body, nodes'[m].parts.body;
    WholeLenGrows(body, body'[|body|..]);
    assert body + body'[|body|..] == body';
    assert b.kept == |body'| || b.kept == WholeLen(body');
    assert Slice(b) == body'[..b.kept];
  }

  /** The node at `j` and its counterpart after `n` more segments; `own` counts the thread's segments. */
  ghost predicate Matched(nodes: seq<Node>, nodes': seq<Node>, j: nat, n: nat, own: nat)
    requires j < |nodes| && n + j < |nodes'|
  {
    && Same(nodes[j], nodes'[n + j]) && Fits(nodes[j], true) && Fits(nodes'[n + j], true)
    && (nodes[j].sameThread <==> j < own)
    && (1 <= j < own ==> nodes[j].parts.body == nodes'[n + j].parts.body)
  }

  lemma OwnCount(s: Setting, w: World, lookup: Lookup, nodes: seq<Node>, j: nat)
    requires WellFormed(s, w) && ChainIn(s, w, lookup, nodes) && j < |nodes|
    ensures nodes[j].sameThread <==> j < |w.own|
    ensures j < |w.own| ==> nodes[j].path == w.own[j]
    ensures Fits(nodes[j], true)
  {
    NodeSplit(s, w, lookup, nodes, j);
    if j < |w.own| { OwnFirst(s, w, lookup, nodes, j); } else { OthersAfter(s, w, lookup, nodes, j); }
  }

  lemma FrozenBody(s: Setting, w: World, w': World, l: Lookup, l': Lookup, nodes: seq<Node>, nodes': seq<Node>, j: nat,
                   m: nat)
    requires j < |nodes| && NodeHolds(DiskOf(s, w, l), s.session, true, nodes, j)
    requires m < |nodes'| && NodeHolds(DiskOf(s, w', l'), s.session, true, nodes', m)
    requires nodes[j].path == nodes'[m].path
    requires nodes[j].path in w.files && nodes[j].path in w'.files && w.files[nodes[j].path] == w'.files[nodes[j].path]
    ensures nodes[j].parts.body == nodes'[m].parts.body
  {
    NodeSplit(s, w, l, nodes, j);
    NodeSplit(s, w', l', nodes', m);
    var bytes := w.files[nodes[j].path];
    SplitGrows(bytes, bytes, if j == 0 then Some(s.session) else None, if m == 0 then Some(s.session) else None,
               s.json);
  }

  lemma NodesMatched(s: Setting, w: World, w': World, l: Lookup, l': Lookup, nodes: seq<Node>, nodes': seq<Node>,
                     j: nat)
    requires WellFormed(s, w) && WellFormed(s, w') && Evolves(w, w')
    requires ChainIn(s, w, l, nodes) && ChainIn(s, w', l', nodes') && j < |nodes|
    ensures var n := |w'.own| - |w.own|; n + j < |nodes'| && Matched(nodes, nodes', j, n, |w.own|)
  {
    var m := |w'.own| - |w.own| + j;
    ChainsMatch(s, w, w', l, l', nodes, nodes', j, m);
    OwnCount(s, w, l, nodes, j);
    OwnCount(s, w', l', nodes', m);
    if 1 <= j < |w.own| {
      assert NodeHolds(DiskOf(s, w, l), s.session, true, nodes, j);
      assert NodeHolds(DiskOf(s, w', l'), s.session, true, nodes', m);
      FrozenBody(s, w, w', l, l', nodes, nodes', j, m);
    }
  }

  lemma PiecesShared(s: Setting, w: World, w': World, l: Lookup, l': Lookup, nodes: seq<Node>, nodes': seq<Node>)
    requires WellFormed(s, w) && WellFormed(s, w') && Evolves(w, w')
    requires ChainIn(s, w, l, nodes) && ChainIn(s, w', l', nodes')
    requires Pieces(nodes, true, s.json).Ok? && Pieces(nodes', true, s.json).Ok?
    ensures Shared(Pieces(nodes, true, s.json).value, Pieces(nodes', true, s.json).value)
  {
    var n := |w'.own| - |w.own|;
    ChainsSameLength(s, w, w', l, l', nodes, nodes');
    FirstOwnIs(s, w, l, nodes);
    FirstOwnIs(s, w', l', nodes');
    OwnFirst(s, w', l', nodes', n);
    forall j | 0 <= j < |nodes| ensures Matched(nodes, nodes', j, n, |w.own|) {
      NodesMatched(s, w, w', l, l', nodes, nodes', j);
    }
    PiecesForm(nodes, true, s.json);
    PiecesForm(nodes', true, s.json);
    MatchedPieces(nodes, nodes', n, |w.own|, s.json, Pieces(nodes, true, s.json).value,
                  Pieces(nodes', true, s.json).value);
  }

  /** The pieces of a chain whose first own segment is at `first`. */
  ghost predicate Formed(nodes: seq<Node>, first: nat, json: Json, p: seq<Piece>) {
    && first < |nodes| && |p| == |nodes| + 1 && p[0] == Piece(nodes[first], true, |nodes[first].parts.header|)
    && forall t | 1 <= t < |p| :: PieceOf(nodes, true, json, p[t], |nodes| - t)
  }

  lemma MatchedPieces(nodes: seq<Node>, nodes': seq<Node>, n: nat, own: nat, json: Json, p: seq<Piece>, p': seq<Piece>)
    requires |nodes'| == |nodes| + n && 0 < own <= |nodes|
    requires Formed(nodes, own - 1, json, p) && Formed(nodes', n + own - 1, json, p')
    requires nodes'[n].sameThread && 0 < |p| <= |p'|
    requires forall j | 0 <= j < |nodes| :: Matched(nodes, nodes', j, n, own)
    ensures Shared(p, p')
  {
    forall k | 0 <= k < |p| - 1 ensures PieceSame(p[k], p'[k]) {
      PieceSameAt(nodes, nodes', n, own, json, p, p', k);
    }
    LastGrown(nodes, nodes', n, own, json, p, p');
  }

  lemma PieceSameAt(nodes: seq<Node>, nodes': seq<Node>, n: nat, own: nat, json: Json, p: seq<Piece>, p': seq<Piece>,
                    k: nat)
    requires |nodes'| == |nodes| + n && 0 < own <= |nodes| && k < |p| - 1
    requires Formed(nodes, own - 1, json, p) && Formed(nodes', n + own - 1, json, p')
    requires forall j | 0 <= j < |nodes| :: Matched(nodes, nodes', j, n, own)
    ensures PieceSame(p[k], p'[k])
  {
    if k == 0 {
      HeaderSame(nodes, nodes', n, own);
    } else {
      MatchedPiece(nodes, nodes', n, own, json, |nodes| - k, p[k], p'[k]);
    }
  }

  lemma LastGrown(nodes: seq<Node>, nodes': seq<Node>, n: nat, own: nat, json: Json, p: seq<Piece>, p': seq<Piece>)
    requires |nodes'| == |nodes| + n && 0 < own <= |nodes|
    requires Formed(nodes, own - 1, json, p) && Formed(nodes', n + own - 1, json, p')
    requires nodes'[n].sameThread && Matched(nodes, nodes', 0, n, own)
    ensures LeafGrown(p[|nodes|], p'[|nodes|])
  {
    LeafGrows(nodes, nodes', n, json, p[|nodes|], p'[|nodes|]);
  }

  lemma HeaderSame(nodes: seq<Node>, nodes': seq<Node>, n: nat, own: nat)
    requires 0 < own <= |nodes| && n + own <= |nodes'| && Matched(nodes, nodes', own - 1, n, own)
    ensures var a, b := nodes[own - 1], nodes'[n + own - 1];
            PieceSame(Piece(a, true, |a.parts.header|), Piece(b, true, |b.parts.header|))
  {
  }

  lemma MatchedPiece(nodes: seq<Node>, nodes': seq<Node>, n: nat, own: nat, json: Json, j: nat, a: Piece, b: Piece)
    requires 1 <= j < |nodes| && n + j < |nodes'|
    requires Matched(nodes, nodes', j, n, own) && Matched(nodes, nodes', j - 1, n, own)
    requires PieceOf(nodes, true, json, a, j) && PieceOf(nodes', true, json, b, n + j)
    ensures PieceSame(a, b)
  {
    KeptSame(nodes, nodes', j, n + j, json, a, b);
  }

  lemma {:induction false} StreamShared(p: seq<Piece>, p': seq<Piece>, t: nat)
    requires Shared(p, p') && t < |p|
    ensures Stream(p[..t]) == Stream(p'[..t]) && Total(p[..t]) == Total(p'[..t])
  {
    if t > 0 {
      StreamShared(p, p', t - 1);
      assert p[..t][..t - 1] == p[..t - 1] && p'[..t][..t - 1] == p'[..t - 1];
      assert PieceSame(p[t - 1], p'[t - 1]);
    }
  }

  lemma {:induction false} StreamTake(p: seq<Piece>, t: nat)
    requires t <= |p|
    ensures Stream(p[..t]) <= Stream(p)
  {
    if t < |p| {
      StreamTake(p[..|p| - 1], t);
      assert p[..|p| - 1][..t] == p[..t];
    } else {
      assert p[..t] == p;
    }
  }

  lemma WholeLenConcat(a: Bytes, b: Bytes)
    ensures WholeLen(a + b) <= |a| + WholeLen(b)
  {
    var n := WholeLen(a + b);
    assert n > |a| ==> (a + b)[..n][n - 1] == b[n - 1 - |a|];
  }

  lemma SharedStreams(p: seq<Piece>, p': seq<Piece>)
    requires Shared(p, p')
    ensures Stream(p)[..WholeLen(Stream(p))] <= Stream(p')
  {
    var t := |p| - 1;
    var body := p[t].node.parts.body;
    var before := Stream(p[..t]);
    StreamShared(p, p', t);
    assert Slice(p[t]) == body;
    assert Stream(p) == before + body;
    WholeLenConcat(before, body);
    StreamTake(p', t + 1);
    assert p'[..t + 1][..t] == p'[..t];
    assert Stream(p'[..t + 1]) == before + Slice(p'[t]);
    PrefixBehind(before, body[..WholeLen(body)], Slice(p'[t]));
    assert Stream(p)[..WholeLen(Stream(p))] <= before + body[..WholeLen(body)];
  }

  lemma PrefixBehind(before: Bytes, a: Bytes, b: Bytes)
    requires a <= b
    ensures before + a <= before + b
  {
  }

  /** Both moments of a run, ready to be compared. */
  lemma MomentsShared(s: Setting, trace: seq<World>, i: nat, j: nat, l: Lookup, l': Lookup, limits: Limits,
                      limits': Limits)
    returns (p: seq<Piece>, p': seq<Piece>)
    requires Trace(s, trace) && i <= j < |trace|
    requires Captures(s, trace[i], l, limits) && Captures(s, trace[j], l', limits')
    ensures Shared(p, p')
    ensures TakenAt(s, trace[i], l, limits) == Captured(Stream(p), Spans(p)) && Apart(Spans(p))
    ensures TakenAt(s, trace[j], l', limits') == Captured(Stream(p'), Spans(p')) && Apart(Spans(p'))
    ensures var nodes := NodesAt(s, trace[i], l, limits);
            ChainIn(s, trace[i], l, nodes) && p[|p| - 1].node == nodes[0]
  {
    var w, w' := trace[i], trace[j];
    TraceWellFormed(s, trace, i);
    TraceWellFormed(s, trace, j);
    TraceEvolves(s, trace, i, j);
    CaptureChain(s, w, l, limits);
    CaptureChain(s, w', l', limits');
    var nodes, nodes' := NodesAt(s, w, l, limits), NodesAt(s, w', l', limits');
    PiecesShared(s, w, w', l, l', nodes, nodes');
    PiecesForm(nodes, true, s.json);
    p, p' := Pieces(nodes, true, s.json).value, Pieces(nodes', true, s.json).value;
    assert PieceOf(nodes, true, s.json, p[|nodes|], 0);
  }

  /**
   Capture monotonicity. Over any run of the writer, when the captures at two of its moments
   succeed, every complete record of the earlier stream is at the same place in the later one.
   */
  lemma CaptureOnlyGrows(s: Setting, trace: seq<World>, i: nat, j: nat, l: Lookup, l': Lookup, limits: Limits,
                         limits': Limits)
    requires Trace(s, trace) && i <= j < |trace|
    requires Captures(s, trace[i], l, limits) && Captures(s, trace[j], l', limits')
    ensures var early, late := TakenAt(s, trace[i], l, limits).bytes, TakenAt(s, trace[j], l', limits').bytes;
            early[..WholeLen(early)] <= late
  {
    var p, p' := MomentsShared(s, trace, i, j, l, l', limits, limits');
    SharedStreams(p, p');
  }

  lemma SharedPlaces(p: seq<Piece>, p': seq<Piece>, path: string, end: nat, v: nat)
    requires Shared(p, p') && Places(Spans(p), path, end, v)
    requires CutsLeafWhole(p[|p| - 1].node, path, end)
    ensures Places(Spans(p'), path, end, v)
  {
    SpansLength(p);
    SpansLength(p');
    var k :| 0 <= k < |p| && Covers(Spans(p)[k], path, end, v);
    SpanAt(p, k);
    SpanAt(p', k);
    StreamShared(p, p', k);
    assert k < |p| - 1 ==> PieceSame(p[k], p'[k]);
    assert Covers(Spans(p')[k], path, end, v);
  }

  /** An offset recorded at a complete record of a carrier keeps its value in every later capture. */
  lemma OffsetsKept(s: Setting, trace: seq<World>, i: nat, j: nat, l: Lookup, l': Lookup, limits: Limits,
                    limits': Limits, path: string, end: nat)
    requires Trace(s, trace) && i <= j < |trace|
    requires Captures(s, trace[i], l, limits) && Captures(s, trace[j], l', limits')
    requires path in trace[i].files && end <= |trace[i].files[path]| && Whole(trace[i].files[path][..end])
    requires CaptureOffset(TakenAt(s, trace[i], l, limits).spans, path, end).Some?
    ensures CaptureOffset(TakenAt(s, trace[j], l', limits').spans, path, end)
         == CaptureOffset(TakenAt(s, trace[i], l, limits).spans, path, end)
  {
    var p, p' := MomentsShared(s, trace, i, j, l, l', limits, limits');
    LeafByte(s, trace[i], l, NodesAt(s, trace[i], l, limits), path, end);
    SharedOffsets(p, p', path, end);
  }

  /** A cut inside the leaf's body comes right after a newline. */
  predicate CutsLeafWhole(node: Node, path: string, end: nat) {
    var header, body := |node.parts.header|, node.parts.body;
    path == node.path && header < end <= header + |body| ==> body[end - header - 1] == LF
  }

  lemma SharedOffsets(p: seq<Piece>, p': seq<Piece>, path: string, end: nat)
    requires Shared(p, p') && Apart(Spans(p)) && Apart(Spans(p')) && CutsLeafWhole(p[|p| - 1].node, path, end)
    requires CaptureOffset(Spans(p), path, end).Some?
    ensures CaptureOffset(Spans(p'), path, end) == CaptureOffset(Spans(p), path, end)
  {
    OffsetMeaning(Spans(p), path, end);
    OffsetMeaning(Spans(p'), path, end);
    SharedPlaces(p, p', path, end, CaptureOffset(Spans(p), path, end).value);
  }

  lemma LeafByte(s: Setting, w: World, lookup: Lookup, nodes: seq<Node>, path: string, end: nat)
    requires nodes != [] && NodeHolds(DiskOf(s, w, lookup), s.session, true, nodes, 0)
    requires path in w.files && end <= |w.files[path]| && Whole(w.files[path][..end])
    ensures CutsLeafWhole(nodes[0], path, end)
  {
    if path == nodes[0].path {
      CarrierBytes(DiskOf(s, w, lookup), s.session, nodes, 0);
      var file := w.files[path];
      assert end > 0 ==> file[..end][end - 1] == file[end - 1];
    }
  }
}
