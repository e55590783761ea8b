/**
 What the model of a Codex conversation sees next: the leaf's header, the validated prefix of
 each ancestor, oldest first, and the leaf's body.
 */
module Lineage {
  import opened Wrappers
  import opened Lines
  import opened Sequences
  import opened Rollout
  import opened Capture

  /** Splices ancestors `index - 1` down to 1 into `bytes`, sharing one record allowance. */
  function Splice(nodes: seq<Node>, index: nat, bytes: Bytes, left: Option<nat>, limit: nat,
                  json: Json): Result<Bytes, Unavailable>
    requires index <= |nodes|
  {
    if index <= 1 then Ok(bytes)
    else
      match nodes[index - 2].history
      case None => Err(Incomplete)
      case Some(history) =>
        var end :- PrefixEnd(nodes[index - 1].parts, history, left, json);
        var prefix := if end.end <= |nodes[index - 1].parts.body| then nodes[index - 1].parts.body[..end.end] else [];
        if |bytes| + |prefix| > limit then Err(BudgetExceeded)
        else Splice(nodes, index - 1, bytes + prefix, end.left, limit, json)
  }

  function Min(a: nat, b: nat): nat {
    if a <= b then a else b
  }

  function Spliced(nodes: seq<Node>, retained: nat, limits: Limits, left: Option<nat>,
                   json: Json): Result<Bytes, Unavailable>
    requires nodes != []
  {
    var limit := Min(limits.bytes, Less(limits.workingBytes, retained));
    if |nodes[0].parts.header| > limit then Err(BudgetExceeded)
    else
      var bytes :- Splice(nodes, |nodes|, nodes[0].parts.header, left, limit, json);
      if |bytes| + |nodes[0].parts.body| > limit then Err(BudgetExceeded)
      else Ok(bytes + nodes[0].parts.body)
  }

  /** A leaf that answers on its own: unrecognized but wanted raw, or without a base. */
  function LeafAlone(disk: Disk, source: Source, limits: Limits, allowUnrecognized: bool): Option<Bytes> {
    match ReadFile(disk, source.path, limits)
    case Err(_) => None
    case Ok(read) =>
      if disk.rolloutId(source.path).None? || |read.bytes| > limits.workingBytes then None
      else if allowUnrecognized && !RecognizedRollout(read.bytes, source.session, disk.json) then Some(read.bytes)
      else
        match SplitRollout(read.bytes, Some(source.session), disk.json)
        case Ok(split) => if split.history.None? then Some(split.parts.header + split.parts.body) else None
        case Err(_) => None
  }

  function LineageOf(disk: Disk, source: Source, limits: Limits, allowUnrecognized: bool,
                     left: Option<nat>): Result<Bytes, Unavailable>
  {
    match LeafAlone(disk, source, limits, allowUnrecognized)
    case Some(bytes) => Ok(bytes)
    case None =>
      var walked :- Walk(disk, source.session, limits, true, UNREAD, source.path);
      if walked.nodes == [] then Err(Incomplete)
      else Spliced(walked.nodes, walked.retained, limits, left, disk.json)
  }

  /** One round of the splice: the prefix of the carrier at `index` that its successor's header cuts. */
  method SpliceOne(nodes: seq<Node>, index: nat, bytes: Bytes, left: Option<nat>, output: Limits, json: Json)
    returns (r: Result<(Bytes, Option<nat>), Unavailable>)
    requires 1 <= index < |nodes| && Fits(nodes[index], true)
    ensures Splice(nodes, index + 1, bytes, left, Min(output.bytes, output.workingBytes), json)
         == match r
            case Err(error) => Err(error)
            case Ok((more, left')) => Splice(nodes, index, more, left', Min(output.bytes, output.workingBytes), json)
  {
    var history := nodes[index - 1].history;
    if history.None? {
      return Err(Incomplete);
    }
    var prefixEnd := ValidatedPrefixEnd(nodes[index].parts, history.value, left, json);
    if prefixEnd.Err? {
      return Err(prefixEnd.error);
    }
    var appended := AppendBounded(bytes, nodes[index].parts.body[..prefixEnd.value.end], output);
    if appended.Err? {
      return Err(appended.error);
    }
    return Ok((appended.value, prefixEnd.value.left));
  }

  method SpliceNodes(nodes: seq<Node>, retained: nat, limits: Limits, left: Option<nat>, json: Json)
    returns (r: Result<Bytes, Unavailable>)
    requires nodes != [] && forall k | 0 <= k < |nodes| :: Fits(nodes[k], true)
    ensures r == Spliced(nodes, retained, limits, left, json)
  {
    var output := limits.(workingBytes := Less(limits.workingBytes, retained));
    var limit := Min(output.bytes, output.workingBytes);
    var appended := AppendBounded([], nodes[0].parts.header, output);
    if appended.Err? {
      return Err(appended.error);
    }
    var bytes, recordsLeft := appended.value, left;
    NothingMore(nodes[0].parts.header);
    for index := |nodes| downto 1
      invariant Splice(nodes, |nodes|, nodes[0].parts.header, left, limit, json)
             == Splice(nodes, index, bytes, recordsLeft, limit, json)
    {
      assert Fits(nodes[index], true);
      var spliced := SpliceOne(nodes, index, bytes, recordsLeft, output, json);
      if spliced.Err? {
        return Err(spliced.error);
      }
      bytes, recordsLeft := spliced.value.0, spliced.value.1;
    }
    r := AppendBounded(bytes, nodes[0].parts.body, output);
  }

  method LineageBytes(source: Source, limits: Limits, allowUnrecognizedLeaf: bool, parentRecordsLeft: Option<nat>,
                      disk: Disk)
    returns (r: Result<Bytes, Unavailable>)
    ensures r == LineageOf(disk, source, limits, allowUnrecognizedLeaf, parentRecordsLeft)
  {
    var p, current := UNREAD, source;
    while true
      invariant p.nodes == [] ==> p == UNREAD && current == source
      invariant p.nodes != [] ==> LeafAlone(disk, source, limits, allowUnrecognizedLeaf) == None
      invariant Walk(disk, source.session, limits, true, UNREAD, source.path)
             == Walk(disk, source.session, limits, true, p, current.path)
      invariant forall k | 0 <= k < |p.nodes| :: Fits(p.nodes[k], true)
      decreases Less(MAX_FORK_DEPTH, |p.nodes|)
    {
      if p.nodes == [] {
        var alone := ReadLeaf(source, limits, allowUnrecognizedLeaf, disk);
        if alone.Some? {
          return Ok(alone.value);
        }
      }
      var visit := VisitCarrier(source.session, limits, true, disk, p, current.path);
      if visit.Err? {
        return Err(visit.error);
      }
      VisitProgress(disk, source.session, limits, true, p, current.path);
      VisitFits(disk, source.session, limits, true, p, current.path);
      p := visit.value;
      var history := p.nodes[|p.nodes| - 1].history;
      if history.None? {
        break;
      }
      var next := disk.lookup(history.value.sourceId, Less(limits.lookupEntries, |p.visited|));
      if next.Err? {
        return Err(next.error);
      }
      current := next.value;
    }
    r := SpliceNodes(p.nodes, p.retained, limits, parentRecordsLeft, disk.json);
  }

  /** The returns the source takes on the first carrier only. */
  method ReadLeaf(source: Source, limits: Limits, allowUnrecognizedLeaf: bool, disk: Disk)
    returns (alone: Option<Bytes>)
    ensures alone == LeafAlone(disk, source, limits, allowUnrecognizedLeaf)
  {
    var read := ReadFile(disk, source.path, limits);
    if disk.rolloutId(source.path).None? || read.Err? || |read.value.bytes| > limits.workingBytes {
      return None;
    }
    var bytes := read.value.bytes;
    if allowUnrecognizedLeaf && !RecognizedRollout(bytes, source.session, disk.json) {
      return Some(bytes);
    }
    var split := SplitRollout(bytes, Some(source.session), disk.json);
    if split.Err? || split.value.history.Some? {
      return None;
    }
    return Some(split.value.parts.header + split.value.parts.body);
  }
}
