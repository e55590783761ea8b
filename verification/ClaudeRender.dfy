/**
 Writing a session as a Claude Code transcript. The identifiers of records come from a supply,
 taken in order; the fixed phrases are a parameter (`Wording`), stated in module ClaudeWording.
 */
module ClaudeRender {
  import opened Wrappers
  import opened ClaudeRecord
  import opened ClaudeSession

  datatype Wording = Wording(
    placeholder: string,              // the output of a call whose own output is not known
    note: Option<string> -> string,   // a filter boundary, with its own note when it has one
    time: string,                     // stands in for a missing timestamp
    callId: nat -> string)            // pairs a call with its result

  /** The arguments of a call, reduced to the paths a reader finds in them. */
  datatype Input = Input(isObject: bool, paths: seq<string>)

  datatype Detail = Detail(input: Option<Input>, output: Option<string>, error: bool)

  datatype Details = Details(calls: map<nat, Detail>, receipts: set<nat>)

  const NO_DETAILS := Details(map[], {})

  /** Where the transcript is written to, and the identifiers of its records. */
  datatype Target = Target(sessionId: string, cwd: string, uuid: nat -> string)

  /** What one written record says, before it is chained to the one before it. */
  datatype Body = Body(record: Record, timestamp: string)

  function Said(kind: Kind, content: Content): Record {
    Record(kind, content, false, false, false, false, false, kind.Assistant?, false, NoReason, false)
  }

  predicate IsCall(events: seq<Event>, i: nat, details: Details)
    requires i < |events|
  {
    events[i].kind.ToolUse? || (events[i].kind.FileEdit? && i !in details.receipts)
  }

  function DetailAt(details: Details, i: nat): Option<Detail> {
    if i in details.calls then Some(details.calls[i]) else None
  }

  function CallName(event: Event): string {
    if event.tool.Some? then event.tool.value else event.text.GetOr("tool")
  }

  /** The paths a reader finds in the written arguments. */
  function CallPaths(event: Event, detail: Option<Detail>): seq<string> {
    if detail.Some? && detail.value.input.Some? then
      if detail.value.input.value.isObject then detail.value.input.value.paths else []
    else if event.paths == [] || event.paths[0] == "" then []
    else [event.paths[0]]
  }

  function CallBodies(event: Event, detail: Option<Detail>, minted: nat, w: Wording): seq<Body> {
    var id := w.callId(minted);
    var output := if detail.Some? && detail.value.output.Some? then detail.value.output.value else w.placeholder;
    var time := event.timestamp.GetOr(w.time);
    [Body(Said(Assistant, Blocks([ToolUseBlock(Some(id), Some(CallName(event)), CallPaths(event, detail))])), time),
     Body(Said(User, Blocks([ToolResultBlock(Some(id), detail.Some? && detail.value.error, OneOutput(output))])), time)]
  }

  function NonBlank(text: Option<string>): Option<string> {
    if text.Some? && !Blank(text.value) then text else None
  }

  /** The text an event is written as, if it is written as text. */
  function WrittenText(event: Event, w: Wording): Option<string> {
    match event.kind
    case UserPrompt => NonBlank(event.text)
    case UserInterjection => NonBlank(event.text)
    case CompactSummary => NonBlank(event.text)
    case AssistantReply => NonBlank(event.text)
    case FileEdit => NonBlank(event.text)
    case CompactFiltered => Some(w.note(NonBlank(event.text)))
    case _ => None
  }

  predicate ByAssistant(kind: EventKind) {
    kind.AssistantReply? || kind.FileEdit?
  }

  function TextBody(event: Event, text: string, w: Wording): Body {
    Body(if ByAssistant(event.kind) then Said(Assistant, Blocks([TextBlock(Some(text))])) else Said(User, Plain(text)),
         event.timestamp.GetOr(w.time))
  }

  function EventBodies(events: seq<Event>, i: nat, details: Details, minted: nat, w: Wording): seq<Body>
    requires i < |events|
  {
    if IsCall(events, i, details) then CallBodies(events[i], DetailAt(details, i), minted, w)
    else
      match WrittenText(events[i], w)
      case None => []
      case Some(text) => [TextBody(events[i], text, w)]
  }

  /** How many calls the first `n` events mint. */
  function Minted(events: seq<Event>, n: nat, details: Details): nat
    requires n <= |events|
  {
    if n == 0 then 0 else Minted(events, n - 1, details) + if IsCall(events, n - 1, details) then 1 else 0
  }

  /** What the first `n` events are written as. */
  function Bodies(events: seq<Event>, n: nat, details: Details, w: Wording): seq<Body>
    requires n <= |events|
  {
    if n == 0 then []
    else Bodies(events, n - 1, details, w) + EventBodies(events, n - 1, details, Minted(events, n, details), w)
  }

  /** The record at `k`, chained to the one before it. */
  function Chained(body: Body, k: nat, target: Target): Entry {
    Entry(body.record, Some(target.sessionId), Some(target.cwd), Some(body.timestamp), Some(target.uuid(k)),
          if k == 0 then None else Some(target.uuid(k - 1)))
  }

  function Chain(bodies: seq<Body>, target: Target): seq<Entry> {
    seq(|bodies|, k requires 0 <= k < |bodies| => Chained(bodies[k], k, target))
  }

  function RenderOf(events: seq<Event>, target: Target, details: Details, w: Wording): seq<Entry> {
    Chain(Bodies(events, |events|, details, w), target)
  }

  lemma ChainMore(bodies: seq<Body>, body: Body, target: Target)
    ensures Chain(bodies + [body], target) == Chain(bodies, target) + [Chained(body, |bodies|, target)]
  {
  }

  method Render(events: seq<Event>, target: Target, details: Details, w: Wording) returns (out: seq<Entry>)
    ensures out == RenderOf(events, target, details, w)
  {
    out := [];
    var parent: Option<string>, minted: nat, used: nat := None, 0, 0;
    ghost var bodies: seq<Body> := [];
    for ei := 0 to |events|
      invariant bodies == Bodies(events, ei, details, w) && out == Chain(bodies, target)
      invariant minted == Minted(events, ei, details) && used == |bodies|
      invariant parent == if used == 0 then None else Some(target.uuid(used - 1))
    {
      var e := events[ei];
      if e.kind.ToolUse? || (e.kind.FileEdit? && ei !in details.receipts) {
        minted := minted + 1;
        var pair := CallBodies(e, DetailAt(details, ei), minted, w);
        var useUuid, resUuid := target.uuid(used), target.uuid(used + 1);
        ChainMore(bodies, pair[0], target);
        ChainMore(bodies + [pair[0]], pair[1], target);
        assert bodies + pair == bodies + [pair[0]] + [pair[1]];
        out := out + [Entry(pair[0].record, Some(target.sessionId), Some(target.cwd), Some(pair[0].timestamp),
                            Some(useUuid), parent)];
        out := out + [Entry(pair[1].record, Some(target.sessionId), Some(target.cwd), Some(pair[1].timestamp),
                            Some(resUuid), Some(useUuid))];
        parent := Some(resUuid);
        used := used + 2;
        bodies := bodies + pair;
        continue;
      }
      var text := WrittenText(e, w);
      if text.None? {
        assert bodies + [] == bodies;
        continue;
      }
      var uuid := target.uuid(used);
      var body := TextBody(e, text.value, w);
      ChainMore(bodies, body, target);
      out := out + [Entry(body.record, Some(target.sessionId), Some(target.cwd), Some(body.timestamp), Some(uuid),
                          parent)];
      parent := Some(uuid);
      used := used + 1;
      bodies := bodies + [body];
    }
  }
}
