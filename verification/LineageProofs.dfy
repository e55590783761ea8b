/** Lineage reads are exact splices: what they contain, what an allowance admits, how they grow. */
module LineageProofs {
  import opened Wrappers
  import opened Lines
  import opened Rollout
  import opened Capture
  import opened CaptureProofs
  import opened Lineage

  /** What the carrier at `k` contributes: the prefix its successor's header cuts. */
  function Selected(nodes: seq<Node>, k: nat): Bytes
    requires 1 <= k < |nodes|
  {
    match nodes[k - 1].history
    case None => []
    case Some(history) =>
      match Cut(nodes[k].parts, history)
      case None => []
      case Some(end) => nodes[k].parts.body[..end]
  }

  /** The prefixes of the ancestors `index - 1` down to 1, oldest first. */
  function Ancestors(nodes: seq<Node>, index: nat): Bytes
    requires index <= |nodes|
  {
    if index <= 1 then [] else Selected(nodes, index - 1) + Ancestors(nodes, index - 1)
  }

  function Records(nodes: seq<Node>, index: nat, json: Json): nat
    requires index <= |nodes|
  {
    if index <= 1 then 0
    else |Ordinals(SplitInclusive(Selected(nodes, index - 1)), json)| + Records(nodes, index - 1, json)
  }

  /** The successor's header cuts the carrier at `k` inside its body. */
  predicate Cuts(nodes: seq<Node>, k: nat)
    requires 1 <= k < |nodes|
  {
    nodes[k - 1].history.Some? && Cut(nodes[k].parts, nodes[k - 1].history.value).Some?
  }

  lemma PrefixEndSelects(nodes: seq<Node>, k: nat, left: Option<nat>, json: Json)
    requires 1 <= k < |nodes| && nodes[k - 1].history.Some?
    requires PrefixEnd(nodes[k].parts, nodes[k - 1].history.value, left, json).Ok?
    ensures var end := PrefixEnd(nodes[k].parts, nodes[k - 1].history.value, left, json).value.end;
            end <= |nodes[k].parts.body| && nodes[k].parts.body[..end] == Selected(nodes, k)
    ensures Whole(Selected(nodes, k)) && Cuts(nodes, k)
  {
  }

  /** One round of a splice that succeeds. */
  lemma SpliceStep(nodes: seq<Node>, k: nat, bytes: Bytes, left: Option<nat>, limit: nat, json: Json)
    returns (left': Option<nat>)
    requires 1 <= k < |nodes| && Splice(nodes, k + 1, bytes, left, limit, json).Ok?
    ensures Cuts(nodes, k) && Whole(Selected(nodes, k)) && |bytes| + |Selected(nodes, k)| <= limit
    ensures PrefixEnd(nodes[k].parts, nodes[k - 1].history.value, left, json).Ok?
    ensures Splice(nodes, k + 1, bytes, left, limit, json)
        == Splice(nodes, k, bytes + Selected(nodes, k), left', limit, json)
  {
    PrefixEndSelects(nodes, k, left, json);
    left' := PrefixEnd(nodes[k].parts, nodes[k - 1].history.value, left, json).value.left;
  }

  lemma {:induction false} SpliceForm(nodes: seq<Node>, index: nat, bytes: Bytes, left: Option<nat>, limit: nat,
                                      json: Json)
    requires index <= |nodes| && Splice(nodes, index, bytes, left, limit, json).Ok?
    ensures Splice(nodes, index, bytes, left, limit, json).value == bytes + Ancestors(nodes, index)
  {
    if index > 1 {
      var k := index - 1;
      var here := Selected(nodes, k);
      var left' := SpliceStep(nodes, k, bytes, left, limit, json);
      SpliceForm(nodes, k, bytes + here, left', limit, json);
      Associate(bytes, here, Ancestors(nodes, k));
    } else {
      assert bytes + [] == bytes;
    }
  }

  lemma {:induction false} SpliceFitsLimit(nodes: seq<Node>, index: nat, bytes: Bytes, left: Option<nat>, limit: nat,
                                           json: Json)
    requires index <= |nodes| && |bytes| <= limit && Splice(nodes, index, bytes, left, limit, json).Ok?
    ensures |bytes| + |Ancestors(nodes, index)| <= limit
  {
    if index > 1 {
      var left' := SpliceStep(nodes, index - 1, bytes, left, limit, json);
      SpliceFitsLimit(nodes, index - 1, bytes + Selected(nodes, index - 1), left', limit, json);
    }
  }

  /** A splice that succeeds cut every ancestor inside its body. */
  lemma {:induction false} SpliceCuts(nodes: seq<Node>, index: nat, bytes: Bytes, left: Option<nat>, limit: nat,
                                      json: Json, k: nat)
    requires 1 <= k < index <= |nodes| && Splice(nodes, index, bytes, left, limit, json).Ok?
    ensures Cuts(nodes, k)
  {
    var left' := SpliceStep(nodes, index - 1, bytes, left, limit, json);
    if k < index - 1 {
      SpliceCuts(nodes, index - 1, bytes + Selected(nodes, index - 1), left', limit, json, k);
    }
  }

  lemma Associate(a: Bytes, b: Bytes, c: Bytes)
    ensures a + b + c == a + (b + c)
  {
  }

  /** The splice, in full: leaf header, ancestor prefixes oldest first, leaf body. */
  lemma SplicedForm(nodes: seq<Node>, retained: nat, limits: Limits, left: Option<nat>, json: Json)
    requires nodes != [] && Spliced(nodes, retained, limits, left, json).Ok?
    ensures Spliced(nodes, retained, limits, left, json).value
         == nodes[0].parts.header + Ancestors(nodes, |nodes|) + nodes[0].parts.body
    ensures |Spliced(nodes, retained, limits, left, json).value| <= limits.bytes
    ensures retained <= limits.workingBytes ==>
              retained + |Spliced(nodes, retained, limits, left, json).value| <= limits.workingBytes
  {
    var limit := Min(limits.bytes, Less(limits.workingBytes, retained));
    SpliceForm(nodes, |nodes|, nodes[0].parts.header, left, limit, json);
    SpliceFitsLimit(nodes, |nodes|, nodes[0].parts.header, left, limit, json);
  }

  lemma SplicedCuts(nodes: seq<Node>, retained: nat, limits: Limits, left: Option<nat>, json: Json, k: nat)
    requires 1 <= k < |nodes| && Spliced(nodes, retained, limits, left, json).Ok?
    ensures Cuts(nodes, k)
  {
    SpliceCuts(nodes, |nodes|, nodes[0].parts.header, left, Min(limits.bytes, Less(limits.workingBytes, retained)),
               json, k);
  }

  // ---- The record allowance ----------------------------------------------------------------

  /** With an allowance, validating one prefix differs only in counting its records. */
  lemma PrefixAllowance(nodes: seq<Node>, k: nat, n: nat, json: Json)
    requires 1 <= k < |nodes| && nodes[k - 1].history.Some?
    ensures var some := PrefixEnd(nodes[k].parts, nodes[k - 1].history.value, Some(n), json);
            var none := PrefixEnd(nodes[k].parts, nodes[k - 1].history.value, None, json);
            var count := |Ordinals(SplitInclusive(Selected(nodes, k)), json)|;
            && (some.Ok? <==> none.Ok? && count <= n)
            && (some.Ok? ==> some.value == Prefix(none.value.end, Some(n - count)) && none.value.left == None)
  {
    var cut := Cut(nodes[k].parts, nodes[k - 1].history.value);
    if cut.Some? && nodes[k].parts.ordinal.Some? {
      var lines := SplitInclusive(nodes[k].parts.body[..cut.value]);
      AdmitMeaning(lines, nodes[k].parts.ordinal.value, Some(n), json);
      AdmitMeaning(lines, nodes[k].parts.ordinal.value, None, json);
    }
  }

  lemma {:induction false} SpliceAllowance(nodes: seq<Node>, index: nat, bytes: Bytes, n: nat, limit: nat, json: Json)
    requires index <= |nodes|
    ensures var some, none := Splice(nodes, index, bytes, Some(n), limit, json),
        Splice(nodes, index, bytes, None, limit, json);
            && (some.Ok? <==> none.Ok? && Records(nodes, index, json) <= n)
            && (some.Ok? ==> some == none)
  {
    if index > 1 && nodes[index - 2].history.Some? {
      var k := index - 1;
      PrefixAllowance(nodes, k, n, json);
      var history := nodes[k - 1].history.value;
      var some, none := PrefixEnd(nodes[k].parts, history, Some(n), json),
          PrefixEnd(nodes[k].parts, history, None, json);
      if none.Ok? {
        PrefixEndSelects(nodes, k, None, json);
        if some.Ok? {
          SpliceAllowance(nodes, k, bytes + Selected(nodes, k), some.value.left.value, limit, json);
        }
      }
    }
  }

  /** A finite allowance succeeds, with the same bytes, exactly when the selected ancestor records fit in it. */
  lemma AllowanceExact(disk: Disk, source: Source, limits: Limits, allowUnrecognized: bool, n: nat, bytes: Bytes)
    ensures LineageOf(disk, source, limits, allowUnrecognized, Some(n)) == Ok(bytes)
       <==> LineageOf(disk, source, limits, allowUnrecognized, None) == Ok(bytes)
            && (LeafAlone(disk, source, limits, allowUnrecognized).None? ==>
                  var nodes := NodesOf(disk, source, limits, true); Records(nodes, |nodes|, disk.json) <= n)
  {
    var walked := Walk(disk, source.session, limits, true, UNREAD, source.path);
    if LeafAlone(disk, source, limits, allowUnrecognized).None? && walked.Ok? && walked.value.nodes != [] {
      var nodes := walked.value.nodes;
      SpliceAllowance(nodes, |nodes|, nodes[0].parts.header, n,
                      Min(limits.bytes, Less(limits.workingBytes, walked.value.retained)), disk.json);
    }
  }

  /**
   Whatever the lookup answers, a spliced read comes from at most 64 carriers of pairwise distinct
   rollout ids, and keeps its output within `bytes`, and what it read plus its output within `workingBytes`.
   */
  lemma LineageWithinBudgets(disk: Disk, source: Source, limits: Limits, allowUnrecognized: bool, left: Option<nat>)
    requires LineageOf(disk, source, limits, allowUnrecognized, left).Ok?
    requires LeafAlone(disk, source, limits, allowUnrecognized).None?
    ensures var bytes, nodes := LineageOf(disk, source, limits, allowUnrecognized, left).value,
        NodesOf(disk, source, limits, true);
            && |nodes| <= MAX_FORK_DEPTH && Distinct(disk, nodes)
            && |bytes| <= limits.bytes && Held(disk, nodes) + |bytes| <= limits.workingBytes
  {
    var walked := Walk(disk, source.session, limits, true, UNREAD, source.path).value;
    WalkFinds(disk, source.session, limits, true, UNREAD, source.path);
    WalkRetains(disk, source.session, limits, UNREAD, source.path);
    SplicedForm(walked.nodes, walked.retained, limits, left, disk.json);
  }

  // ---- Ordinals ----------------------------------------------------------------------------

  lemma {:induction false} OrdinalsAppend(a: seq<Bytes>, b: seq<Bytes>, json: Json)
    ensures Ordinals(a + b, json) == Ordinals(a, json) + Ordinals(b, json)
  {
    if a == [] {
      assert a + b == b;
    } else {
      assert (a + b)[1..] == a[1..] + b;
      OrdinalsAppend(a[1..], b, json);
    }
  }

  lemma ClimbsConcat(a: seq<Option<nat>>, previous: nat, b: seq<Option<nat>>, next: nat)
    requires Climbs(a, previous) && Highest(a, previous) <= next && Climbs(b, next) && previous <= next
    ensures Climbs(a + b, previous) && Highest(a + b, previous) <= Highest(b, next)
  {
    var all := a + b;
    assert forall i | 0 <= i < |a| :: a[i].value <= Highest(a, previous);
    if b != [] {
      assert all[|all| - 1] == b[|b| - 1];
    } else {
      assert all == a;
    }
  }

  /** Each paginated header's ordinal is at least its base's exclusive ordinal. */
  ghost predicate Numbered(nodes: seq<Node>) {
    forall k | 0 <= k < |nodes| && nodes[k].history.Some? && nodes[k].parts.ordinal.Some? ::
      nodes[k].history.value.ordinalExclusive <= nodes[k].parts.ordinal.value
  }

  /** A validated prefix climbs from its header's ordinal to just below the cut. */
  lemma SelectedClimbs(nodes: seq<Node>, k: nat, left: Option<nat>, json: Json)
    requires 1 <= k < |nodes| && nodes[k - 1].history.Some?
    requires PrefixEnd(nodes[k].parts, nodes[k - 1].history.value, left, json).Ok?
    ensures nodes[k].parts.ordinal.Some?
    ensures var ordinals := Ordinals(SplitInclusive(Selected(nodes, k)), json);
            && Climbs(ordinals, nodes[k].parts.ordinal.value)
            && Highest(ordinals, nodes[k].parts.ordinal.value) + 1 == nodes[k - 1].history.value.ordinalExclusive
  {
    PrefixEndSelects(nodes, k, left, json);
    AdmitMeaning(SplitInclusive(Selected(nodes, k)), nodes[k].parts.ordinal.value, left, json);
  }

  lemma {:induction false} SpliceClimbs(nodes: seq<Node>, index: nat, bytes: Bytes, left: Option<nat>, limit: nat,
                                        json: Json)
    requires index <= |nodes| && Numbered(nodes) && Splice(nodes, index, bytes, left, limit, json).Ok?
    ensures Whole(Ancestors(nodes, index))
    ensures index > 1 ==> AncestorsFrom(nodes, index, json)
  {
    if index > 1 {
      var k := index - 1;
      var left' := SpliceStep(nodes, k, bytes, left, limit, json);
      SelectedClimbs(nodes, k, left, json);
      SpliceClimbs(nodes, k, bytes + Selected(nodes, k), left', limit, json);
      JoinClimbs(nodes, k, json);
    }
  }

  /** The ancestor records climb from the ordinal of the oldest header. */
  ghost predicate AncestorsFrom(nodes: seq<Node>, index: nat, json: Json)
    requires 1 < index <= |nodes|
  {
    nodes[index - 1].parts.ordinal.Some?
    && Climbs(Ordinals(SplitInclusive(Ancestors(nodes, index)), json), nodes[index - 1].parts.ordinal.value)
  }

  lemma JoinClimbs(nodes: seq<Node>, k: nat, json: Json)
    requires 1 <= k < |nodes| && Numbered(nodes) && nodes[k].parts.ordinal.Some? && nodes[k - 1].history.Some?
    requires Whole(Selected(nodes, k)) && Whole(Ancestors(nodes, k)) && (k > 1 ==> AncestorsFrom(nodes, k, json))
    requires var ordinals := Ordinals(SplitInclusive(Selected(nodes, k)), json);
             && Climbs(ordinals, nodes[k].parts.ordinal.value)
             && Highest(ordinals, nodes[k].parts.ordinal.value) + 1 == nodes[k - 1].history.value.ordinalExclusive
    ensures Whole(Ancestors(nodes, k + 1)) && AncestorsFrom(nodes, k + 1, json)
  {
    var here, rest := Selected(nodes, k), Ancestors(nodes, k);
    var first := nodes[k].parts.ordinal.value;
    SplitAppend(here, rest);
    OrdinalsAppend(SplitInclusive(here), SplitInclusive(rest), json);
    if k > 1 {
      HighestAtLeast(Ordinals(SplitInclusive(here), json), first);
      ClimbsConcat(Ordinals(SplitInclusive(here), json), first,
                   Ordinals(SplitInclusive(rest), json), nodes[k - 1].parts.ordinal.value);
    } else {
      assert here + rest == here;
    }
  }

  lemma HighestAtLeast(ordinals: seq<Option<nat>>, previous: nat)
    requires Climbs(ordinals, previous)
    ensures previous <= Highest(ordinals, previous)
  {
  }

  /** The ancestor records of a successful read have strictly increasing ordinals. */
  lemma AncestorsClimb(disk: Disk, source: Source, limits: Limits, allowUnrecognized: bool, left: Option<nat>)
    requires LineageOf(disk, source, limits, allowUnrecognized, left).Ok?
    requires LeafAlone(disk, source, limits, allowUnrecognized).None?
    requires Numbered(NodesOf(disk, source, limits, true))
    ensures var nodes := NodesOf(disk, source, limits, true);
            var ordinals := Ordinals(SplitInclusive(Ancestors(nodes, |nodes|)), disk.json);
            && nodes != [] && LineageOf(disk, source, limits, allowUnrecognized, left).value
                           == nodes[0].parts.header + Ancestors(nodes, |nodes|) + nodes[0].parts.body
            && (forall i | 0 <= i < |ordinals| :: ordinals[i].Some?)
            && (forall i, j | 0 <= i < j < |ordinals| :: ordinals[i].value < ordinals[j].value)
  {
    var walked := Walk(disk, source.session, limits, true, UNREAD, source.path).value;
    var nodes := walked.nodes;
    var limit := Min(limits.bytes, Less(limits.workingBytes, walked.retained));
    SpliceClimbs(nodes, |nodes|, nodes[0].parts.header, left, limit, disk.json);
    SplicedForm(nodes, walked.retained, limits, left, disk.json);
  }

  // ---- Growth ------------------------------------------------------------------------------

  /** The same carriers later: each only grew, and ids lead to the same paths. */
  ghost predicate Grown(a: Disk, b: Disk) {
    && a.json == b.json && a.rolloutId == b.rolloutId
    && forall path :: a.file(path).Some? ==> b.file(path).Some? && a.file(path).value <= b.file(path).value
  }

  ghost predicate SameCarrier(a: Node, b: Node) {
    && a.path == b.path && a.parts.header == b.parts.header && a.history == b.history && a.parts.body <= b.parts.body
  }

  lemma SplitExtends(a: Bytes, b: Bytes, expected: Option<string>, json: Json)
    requires a <= b && SplitRollout(a, expected, json).Ok?
    ensures SplitRollout(b, expected, json).Ok?
    ensures var x, y := SplitRollout(a, expected, json).value, SplitRollout(b, expected, json).value;
            x.history == y.history && x.parts.header == y.parts.header && y.parts.body == x.parts.body + b[|a|..]
  {
    SameFirstLine(a, b);
    PrefixSlices(a, b, FirstLine(a));
  }

  lemma SameFirstLine(a: Bytes, b: Bytes)
    requires a <= b && HasNewline(a)
    ensures HasNewline(b) && FirstLine(b) == FirstLine(a)
    ensures a[..FirstLine(a)] == b[..FirstLine(a)] && a[..FirstLine(a) - 1] == b[..FirstLine(a) - 1]
  {
    FirstLineSame(a, b);
    PrefixSlices(a, b, FirstLine(a));
    PrefixSlices(a, b, FirstLine(a) - 1);
  }

  lemma PrefixSlices(a: Bytes, b: Bytes, n: nat)
    requires a <= b && n <= |a|
    ensures a[..n] == b[..n] && b[n..] == a[n..] + b[|a|..]
  {
  }

  lemma NodeGrows(a: Disk, b: Disk, session: string, nodes: seq<Node>, nodes': seq<Node>, k: nat)
    requires Grown(a, b) && k < |nodes| && k < |nodes'| && nodes[k].path == nodes'[k].path
    requires NodeHolds(a, session, true, nodes, k) && NodeHolds(b, session, true, nodes', k)
    ensures SameCarrier(nodes[k], nodes'[k])
    ensures nodes'[k].parts.body == nodes[k].parts.body + b.file(nodes[k].path).value[|a.file(nodes[k].path).value|..]
  {
    SplitExtends(a.file(nodes[k].path).value, b.file(nodes[k].path).value, if k == 0 then Some(session) else None,
                 a.json);
  }

  lemma {:induction false} ChainGrows(a: Disk, b: Disk, session: string, nodes: seq<Node>, nodes': seq<Node>,
                                      path: string, resolve: string -> string, k: nat)
    requires Grown(a, b) && k < |nodes|
    requires Chain(a, session, true, nodes, path, resolve) && Chain(b, session, true, nodes', path, resolve)
    ensures k < |nodes'| && SameCarrier(nodes[k], nodes'[k])
    ensures k == |nodes| - 1 ==> |nodes'| == |nodes|
  {
    if k > 0 {
      ChainGrows(a, b, session, nodes, nodes', path, resolve, k - 1);
      assert LinkOf(nodes, k - 1, resolve);
      assert k < |nodes'|;
      assert LinkOf(nodes', k - 1, resolve);
    }
    assert NodeHolds(a, session, true, nodes, k) && NodeHolds(b, session, true, nodes', k);
    NodeGrows(a, b, session, nodes, nodes', k);
    forall i | 0 <= i < |nodes'| - 1 ensures nodes'[i].history.Some? {
      assert LinkOf(nodes', i, resolve);
    }
  }

  /** A cut that both reads validate selects the same bytes. */
  lemma {:induction false} AncestorsSame(nodes: seq<Node>, nodes': seq<Node>, index: nat)
    requires |nodes| == |nodes'| && index <= |nodes|
    requires forall k | 0 <= k < |nodes| :: SameCarrier(nodes[k], nodes'[k])
    requires forall k | 1 <= k < index :: Cuts(nodes, k)
    ensures Ancestors(nodes, index) == Ancestors(nodes', index)
  {
    if index > 1 {
      AncestorsSame(nodes, nodes', index - 1);
      assert SameCarrier(nodes[index - 1], nodes'[index - 1]) && SameCarrier(nodes[index - 2], nodes'[index - 2]);
      assert Cuts(nodes, index - 1);
    }
  }

  /**
   Exact splices. Between two successful reads of the same leaf, whatever its carriers gained in
   between, the later read is the earlier one followed by exactly what the leaf gained: growth of
   an ancestor changes nothing.
   */
  lemma LineageGrowsByLeaf(a: Disk, b: Disk, source: Source, limits: Limits, limits': Limits,
                           allowUnrecognized: bool, left: Option<nat>, left': Option<nat>, resolve: string -> string)
    requires Grown(a, b) && Resolves(a, resolve) && Resolves(b, resolve)
    requires a.file(source.path).Some? && HasNewline(a.file(source.path).value)
    requires LineageOf(a, source, limits, allowUnrecognized, left).Ok?
    requires LineageOf(b, source, limits', allowUnrecognized, left').Ok?
    ensures LineageOf(b, source, limits', allowUnrecognized, left').value
         == LineageOf(a, source, limits, allowUnrecognized, left).value
          + b.file(source.path).value[|a.file(source.path).value|..]
  {
    var file, file' := a.file(source.path).value, b.file(source.path).value;
    SameFirstLine(file, file');
    var alone, alone' := LeafAlone(a, source, limits, allowUnrecognized),
        LeafAlone(b, source, limits', allowUnrecognized);
    if alone.Some? {
      LeafAloneWhole(a, source, limits, allowUnrecognized);
      LeafAloneGrows(a, b, source, limits, limits', allowUnrecognized, left');
      LeafAloneWhole(b, source, limits', allowUnrecognized);
      PrefixRest(file, file');
    } else {
      LeafTogetherGrows(a, b, source, limits, limits', allowUnrecognized, left);
      SplicesGrow(a, b, source, limits, limits', left, left', resolve);
    }
  }

  lemma LeafAloneWhole(disk: Disk, source: Source, limits: Limits, allowUnrecognized: bool)
    requires LeafAlone(disk, source, limits, allowUnrecognized).Some?
    ensures LeafAlone(disk, source, limits, allowUnrecognized) == disk.file(source.path)
  {
    var bytes := disk.file(source.path).value;
    assert bytes[..FirstLine(bytes)] + bytes[FirstLine(bytes)..] == bytes;
  }

  /**
   A leaf whose header line is not complete answers raw, without the ancestors it turns out to have.
   The later read is then still the earlier one and what the leaf gained exactly when the leaf
   answers alone again or its ancestors contribute nothing.
   */
  lemma TornLeafGrows(a: Disk, b: Disk, source: Source, limits: Limits, limits': Limits,
                      allowUnrecognized: bool, left: Option<nat>, left': Option<nat>)
    requires Grown(a, b) && a.file(source.path).Some? && !HasNewline(a.file(source.path).value)
    requires LineageOf(a, source, limits, allowUnrecognized, left).Ok?
    requires LineageOf(b, source, limits', allowUnrecognized, left').Ok?
    ensures allowUnrecognized
    ensures LineageOf(b, source, limits', allowUnrecognized, left').value
         == LineageOf(a, source, limits, allowUnrecognized, left).value
             + b.file(source.path).value[|a.file(source.path).value|..]
       <==> LeafAlone(b, source, limits', allowUnrecognized).Some?
            || (var nodes := NodesOf(b, source, limits', true); Ancestors(nodes, |nodes|) == [])
  {
    var file, file' := a.file(source.path).value, b.file(source.path).value;
    if LeafAlone(a, source, limits, allowUnrecognized).None? {
      ReadTogether(a, source, limits, allowUnrecognized, left);
    }
    LeafAloneWhole(a, source, limits, allowUnrecognized);
    PrefixRest(file, file');
    if LeafAlone(b, source, limits', allowUnrecognized).Some? {
      LeafAloneWhole(b, source, limits', allowUnrecognized);
    } else {
      WalkFinds(b, source.session, limits', true, UNREAD, source.path);
      WalkedWhole(b, source, limits', left');
    }
  }

  lemma PrefixRest(a: Bytes, b: Bytes)
    requires a <= b
    ensures a + b[|a|..] == b
  {
  }

  /** A splice is just the leaf's carrier exactly when its ancestors contribute nothing. */
  lemma WalkedWhole(disk: Disk, source: Source, limits: Limits, left: Option<nat>)
    requires var walked := Walk(disk, source.session, limits, true, UNREAD, source.path);
             && walked.Ok? && Walked(disk, source.session, limits, true, walked.value.nodes, source.path)
             && Spliced(walked.value.nodes, walked.value.retained, limits, left, disk.json).Ok?
    ensures var walked := Walk(disk, source.session, limits, true, UNREAD, source.path).value;
            (Some(Spliced(walked.nodes, walked.retained, limits, left, disk.json).value) == disk.file(source.path)
             <==> Ancestors(walked.nodes, |walked.nodes|) == [])
  {
    var walked := Walk(disk, source.session, limits, true, UNREAD, source.path).value;
    SplicedForm(walked.nodes, walked.retained, limits, left, disk.json);
    assert NodeHolds(disk, source.session, true, walked.nodes, 0);
    Around(walked.nodes[0].parts.header, Ancestors(walked.nodes, |walked.nodes|), walked.nodes[0].parts.body);
    LeafBytes(disk.file(source.path).value, walked.nodes[0].parts, disk.json, source.session);
  }

  // One such leaf: its header line names a base with a record of its own.

  const EXAMPLE_JSON := Json(
    (line: Bytes) =>
      if line == [65] then
        Some(HeaderJson(true, Some(1),
                        Some(PayloadJson(Some(""), true, Some(BaseObject(Some("p"), Some(2), Some(4)))))))
      else if line == [66] then Some(HeaderJson(true, Some(0), Some(PayloadJson(None, false, None))))
      else None,
    (line: Bytes) => if line == [67] then Some(1) else None)

  const EXAMPLE_BASE: Bytes := [66, LF, 67, LF]

  function ExampleId(path: string): Option<string> {
    Some(path)
  }

  function ExampleLookup(id: string, budget: nat): Result<Source, Unavailable> {
    Ok(Source(id, ""))
  }

  function ExampleDisk(leaf: Bytes): Disk {
    var files := path => if path == "" then Some(leaf) else if path == "p" then Some(EXAMPLE_BASE) else None;
    Disk(EXAMPLE_JSON, ExampleId, files, ExampleLookup)
  }

  const EXAMPLE_LEAF: Bytes := [65, LF, 68, LF]
  const LEAF_PARTS := Parts([65, LF], [68, LF], Some(1))
  const BASE_PARTS := Parts([66, LF], [67, LF], Some(0))
  const EXAMPLE_HISTORY := History("p", 2, 4)

  lemma ExampleSplits()
    ensures SplitRollout(EXAMPLE_LEAF, Some(""), EXAMPLE_JSON) == Ok(Split(LEAF_PARTS, Some(EXAMPLE_HISTORY)))
    ensures SplitRollout(EXAMPLE_BASE, None, EXAMPLE_JSON) == Ok(Split(BASE_PARTS, None))
    ensures RecognizedRollout(EXAMPLE_LEAF, "", EXAMPLE_JSON)
  {
    HeaderOfTwo(65, 68);
    HeaderOfTwo(66, 67);
  }

  lemma HeaderOfTwo(a: byte, b: byte)
    requires a != LF
    ensures var bytes: Bytes := [a, LF, b, LF];
            HasNewline(bytes) && FirstLine(bytes) == 2 && bytes[..1] == [a] && bytes[..2] == [a, LF]
                && bytes[2..] == [b, LF]
  {
    var bytes: Bytes := [a, LF, b, LF];
    assert bytes[1..][0] == LF;
  }

  lemma ExampleWalk(limits: Limits) returns (nodes: seq<Node>)
    requires limits.bytes >= 8 && limits.workingBytes >= 16
    ensures var walked := Walk(ExampleDisk(EXAMPLE_LEAF), "", limits, true, UNREAD, "");
            walked.Ok? && walked.value.nodes == nodes && walked.value.retained == 8
    ensures |nodes| == 2 && nodes[0].parts == LEAF_PARTS && nodes[1].parts == BASE_PARTS
        && nodes[0].history == Some(EXAMPLE_HISTORY)
    ensures LeafAlone(ExampleDisk(EXAMPLE_LEAF), Source("", ""), limits, true).None?
  {
    ExampleSplits();
    var disk := ExampleDisk(EXAMPLE_LEAF);
    var leaf := NodeOf(disk, "", "", Split(LEAF_PARTS, Some(EXAMPLE_HISTORY)), 4, true, true);
    var first := Progress([leaf], {""}, 4);
    assert UNREAD.nodes + [leaf] == [leaf] && UNREAD.visited + {""} == {""};
    assert Visit(disk, "", limits, true, UNREAD, "") == Ok(first);
    var base := NodeOf(disk, "", "p", Split(BASE_PARTS, None), 4, Follows([leaf]), true);
    nodes := [leaf] + [base];
    assert "p" != "";
    var second := Progress(nodes, {""} + {"p"}, 8);
    assert Visit(disk, "", limits, true, first, "p") == Ok(second);
    assert Walk(disk, "", limits, true, first, "p") == Ok(second);
  }

  /** Read raw as `[65]`; once its header line is complete and records follow, the base's record comes between them. */
  lemma TornLeafExample(limits: Limits)
    requires limits.bytes >= 8 && limits.workingBytes >= 16
    ensures var a, b, source := ExampleDisk([65]), ExampleDisk(EXAMPLE_LEAF), Source("", "");
            && Grown(a, b)
            && LineageOf(a, source, limits, true, None) == Ok([65])
            && LineageOf(b, source, limits, true, None) == Ok([65, LF, 67, LF, 68, LF])
  {
    var nodes := ExampleWalk(limits);
    SplicedExample(nodes, limits);
    TornAlone(limits);
  }

  lemma TornAlone(limits: Limits)
    requires limits.bytes >= 8 && limits.workingBytes >= 16
    ensures LeafAlone(ExampleDisk([65]), Source("", ""), limits, true) == Some([65])
    ensures ExampleDisk([65]).file("").value <= EXAMPLE_LEAF
  {
    var torn: Bytes := [65];
    assert FirstLine(torn[1..]) == 0;
    assert !HasNewline(torn);
  }

  lemma SplicedExample(nodes: seq<Node>, limits: Limits)
    requires limits.bytes >= 8 && limits.workingBytes >= 16
    requires |nodes| == 2 && nodes[0].parts == LEAF_PARTS && nodes[1].parts == BASE_PARTS
        && nodes[0].history == Some(EXAMPLE_HISTORY)
    ensures Spliced(nodes, 8, limits, None, EXAMPLE_JSON) == Ok([65, LF, 67, LF, 68, LF])
  {
    ExampleCut();
    var limit := Min(limits.bytes, Less(limits.workingBytes, 8));
    var header, prefix: Bytes := [65, LF], [67, LF];
    assert BASE_PARTS.body[..2] == prefix;
    assert header + prefix == [65, LF, 67, LF];
    assert Splice(nodes, 1, header + prefix, None, limit, EXAMPLE_JSON) == Ok(header + prefix);
    assert Splice(nodes, 2, header, None, limit, EXAMPLE_JSON) == Ok(header + prefix);
    assert header + prefix + LEAF_PARTS.body == [65, LF, 67, LF, 68, LF];
  }

  lemma ExampleCut()
    ensures PrefixEnd(Parts([66, LF], [67, LF], Some(0)), History("p", 2, 4), None, EXAMPLE_JSON) == Ok(Prefix(2, None))
  {
    var body: Bytes := [67, LF];
    assert body[..2] == body;
    assert FirstLine(body) == 2 && body[2..] == [];
    assert SplitInclusive(body) == [body];
    assert Chomp(body) == [67];
    assert Admit([body][1..], 1, None, EXAMPLE_JSON) == Ok(Allowance(1, None));
  }

  lemma Around(header: Bytes, middle: Bytes, body: Bytes)
    ensures header + middle + body == header + body <==> middle == []
  {
    if middle == [] {
      assert header + middle == header;
    } else {
      assert |header + middle + body| > |header + body|;
    }
  }

  lemma LeafBytes(bytes: Bytes, parts: Parts, json: Json, session: string)
    requires SplitRollout(bytes, Some(session), json).Ok?
        && SplitRollout(bytes, Some(session), json).value.parts == parts
    ensures bytes == parts.header + parts.body
  {
    assert bytes[..FirstLine(bytes)] + bytes[FirstLine(bytes)..] == bytes;
  }

  lemma LeafAloneGrows(a: Disk, b: Disk, source: Source, limits: Limits, limits': Limits, allowUnrecognized: bool,
                       left': Option<nat>)
    requires Grown(a, b) && LeafAlone(a, source, limits, allowUnrecognized).Some?
    requires HasNewline(a.file(source.path).value) && LineageOf(b, source, limits', allowUnrecognized, left').Ok?
    ensures LeafAlone(b, source, limits', allowUnrecognized).Some?
  {
    var file, file' := a.file(source.path).value, b.file(source.path).value;
    SameFirstLine(file, file');
    assert RecognizedRollout(file', source.session, b.json) == RecognizedRollout(file, source.session, a.json);
    if SplitRollout(file, Some(source.session), a.json).Ok? {
      SplitExtends(file, file', Some(source.session), a.json);
    }
    if LeafAlone(b, source, limits', allowUnrecognized).None? {
      ReadTogether(b, source, limits', allowUnrecognized, left');
    }
  }

  /** A leaf that does not answer alone was read, within the budget, as a segment with a base. */
  lemma ReadTogether(b: Disk, source: Source, limits: Limits, allowUnrecognized: bool, left: Option<nat>)
    requires LeafAlone(b, source, limits, allowUnrecognized).None?
        && LineageOf(b, source, limits, allowUnrecognized, left).Ok?
    ensures b.file(source.path).Some? && ReadFile(b, source.path, limits).Ok? && b.rolloutId(source.path).Some?
    ensures ReadFile(b, source.path, limits).value.bytes == b.file(source.path).value
    ensures |b.file(source.path).value| <= limits.workingBytes
    ensures SplitRollout(b.file(source.path).value, Some(source.session), b.json).Ok?
  {
    assert Visit(b, source.session, limits, true, UNREAD, source.path).Ok?;
  }

  lemma LeafTogetherGrows(a: Disk, b: Disk, source: Source, limits: Limits, limits': Limits, allowUnrecognized: bool,
                          left: Option<nat>)
    requires Grown(a, b) && LeafAlone(a, source, limits, allowUnrecognized).None?
    requires a.file(source.path).Some? && HasNewline(a.file(source.path).value)
    requires LineageOf(a, source, limits, allowUnrecognized, left).Ok?
    ensures LeafAlone(b, source, limits', allowUnrecognized).None?
  {
    var file, file' := a.file(source.path).value, b.file(source.path).value;
    SameFirstLine(file, file');
    assert Visit(a, source.session, limits, true, UNREAD, source.path).Ok?;
    SplitExtends(file, file', Some(source.session), a.json);
  }

  lemma SplicesGrow(a: Disk, b: Disk, source: Source, limits: Limits, limits': Limits,
                    left: Option<nat>, left': Option<nat>, resolve: string -> string)
    requires Grown(a, b) && Resolves(a, resolve) && Resolves(b, resolve)
    requires var w, w' := Walk(a, source.session, limits, true, UNREAD, source.path),
        Walk(b, source.session, limits', true, UNREAD, source.path);
             && w.Ok? && w'.Ok? && w.value.nodes != [] && w'.value.nodes != []
             && Spliced(w.value.nodes, w.value.retained, limits, left, a.json).Ok?
             && Spliced(w'.value.nodes, w'.value.retained, limits', left', b.json).Ok?
    ensures var w, w' := Walk(a, source.session, limits, true, UNREAD, source.path).value,
        Walk(b, source.session, limits', true, UNREAD, source.path).value;
            && a.file(source.path).Some? && b.file(source.path).Some?
            && Spliced(w'.nodes, w'.retained, limits', left', b.json).value
            == Spliced(w.nodes, w.retained, limits, left, a.json).value
                + b.file(source.path).value[|a.file(source.path).value|..]
  {
    var w, w' := Walk(a, source.session, limits, true, UNREAD, source.path).value,
        Walk(b, source.session, limits', true, UNREAD, source.path).value;
    WalkChain(a, source.session, limits, true, source.path, resolve);
    WalkChain(b, source.session, limits', true, source.path, resolve);
    ChainPairs(a, b, source.session, w.nodes, w'.nodes, source.path, resolve);
    PairsGrow(w.nodes, w.retained, limits, left, w'.nodes, w'.retained, limits', left', a.json,
              b.file(source.path).value[|a.file(source.path).value|..]);
  }

  /** Node by node the same carriers, of which the leaf gained `more`. */
  lemma PairsGrow(nodes: seq<Node>, retained: nat, limits: Limits, left: Option<nat>,
                  nodes': seq<Node>, retained': nat, limits': Limits, left': Option<nat>, json: Json, more: Bytes)
    requires nodes != [] && |nodes| == |nodes'| && forall k | 0 <= k < |nodes| :: SameCarrier(nodes[k], nodes'[k])
    requires Spliced(nodes, retained, limits, left, json).Ok? && Spliced(nodes', retained', limits', left', json).Ok?
    requires nodes'[0].parts.body == nodes[0].parts.body + more
    ensures Spliced(nodes', retained', limits', left', json).value
        == Spliced(nodes, retained, limits, left, json).value + more
  {
    SplicedForm(nodes, retained, limits, left, json);
    SplicedForm(nodes', retained', limits', left', json);
    forall k | 1 <= k < |nodes| ensures Cuts(nodes, k) {
      SplicedCuts(nodes, retained, limits, left, json, k);
    }
    AncestorsSame(nodes, nodes', |nodes|);
    assert SameCarrier(nodes[0], nodes'[0]);
    Associate(nodes[0].parts.header + Ancestors(nodes, |nodes|), nodes[0].parts.body, more);
  }

  lemma ChainPairs(a: Disk, b: Disk, session: string, nodes: seq<Node>, nodes': seq<Node>, path: string,
                   resolve: string -> string)
    requires Grown(a, b)
    requires Chain(a, session, true, nodes, path, resolve) && Chain(b, session, true, nodes', path, resolve)
    ensures |nodes| == |nodes'| && forall k | 0 <= k < |nodes| :: SameCarrier(nodes[k], nodes'[k])
    ensures a.file(path).Some? && b.file(path).Some?
    ensures nodes'[0].parts.body == nodes[0].parts.body + b.file(path).value[|a.file(path).value|..]
  {
    ChainGrows(a, b, session, nodes, nodes', path, resolve, |nodes| - 1);
    forall k | 0 <= k < |nodes| ensures SameCarrier(nodes[k], nodes'[k]) {
      ChainGrows(a, b, session, nodes, nodes', path, resolve, k);
    }
    assert NodeHolds(a, session, true, nodes, 0) && NodeHolds(b, session, true, nodes', 0);
    NodeGrows(a, b, session, nodes, nodes', 0);
  }
}
