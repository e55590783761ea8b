/** Rendering a session and reading it back reaches a normal form at once. */
module ClaudeNormal {
  import opened Wrappers
  import opened ClaudeRecord
  import opened ClaudeSession
  import opened ClaudeRender
  import opened Sequences

  /** What an event says, apart from when and on which line. */
  datatype View = View(kind: EventKind, text: Option<string>, paths: seq<string>, tool: Option<string>)

  function ViewOf(e: Event): View {
    View(e.kind, e.text, e.paths, e.tool)
  }

  function Views(events: seq<Event>): seq<View> {
    seq(|events|, i requires 0 <= i < |events| => ViewOf(events[i]))
  }

  /** An event that says this. */
  function Saying(v: View): Event {
    Event(v.kind, v.text, None, v.paths, v.tool, None)
  }

  /** What an event becomes: prompts, replies, and calls with the placeholder for their output. */
  function Normal(v: View, w: Wording): seq<View> {
    if v.kind.ToolUse? || v.kind.FileEdit? then
      var name, paths := CallName(Saying(v)), CallPaths(Saying(v), None);
      [View(if paths == [] then ToolUse else FileEdit, Some(name), paths, Some(name)),
       View(ToolResult, Some(w.placeholder), [], None)]
    else
      match WrittenText(Saying(v), w)
      case None => []
      case Some(text) => [View(if v.kind.AssistantReply? then AssistantReply else UserPrompt, Some(text), [], None)]
  }

  function NormalAll(views: seq<View>, w: Wording): seq<View> {
    if views == [] then [] else NormalAll(views[..|views| - 1], w) + Normal(views[|views| - 1], w)
  }

  /** A text the target takes for a person's: not blank, not an injection, none ahead of it. */
  predicate Human(text: string, rd: Reading) {
    !Blank(text) && !rd.notes.injected(text) && rd.split(Plain(text)).None?
  }

  /** What is written as a user's message is taken as one. */
  predicate Taken(v: View, w: Wording, rd: Reading) {
    v.kind.ToolUse? || ByAssistant(v.kind)
    || (WrittenText(Saying(v), w).Some? ==> Human(WrittenText(Saying(v), w).value, rd))
  }

  predicate AllTaken(views: seq<View>, w: Wording, rd: Reading) {
    forall i | 0 <= i < |views| :: Taken(views[i], w, rd)
  }

  function Lines(entries: seq<Entry>): seq<Option<Entry>> {
    seq(|entries|, k requires 0 <= k < |entries| => Some(entries[k]))
  }

  /** Written in Claude's form and read back. */
  function Again(events: seq<Event>, target: Target, w: Wording, rd: Reading): Session {
    ParseOf(Lines(RenderOf(events, target, NO_DETAILS, w)), rd)
  }

  // ---- Reading one written record ----------------------------------------------------------

  lemma OneBlockEvents(block: Block, entry: Entry, line: nat, of: (Block, Entry, nat) -> seq<Event>)
    ensures BlockEvents([block], entry, line, of) == of(block, entry, line)
  {
    assert [block][..0] == [];
    assert [] + of(block, entry, line) == of(block, entry, line);
  }

  lemma ReadPrompt(text: string, entry: Entry, line: nat, rd: Reading)
    requires entry.record == Said(User, Plain(text)) && Human(text, rd)
    ensures Views(EntryEvents(entry, line, rd)) == [View(UserPrompt, Some(text), [], None)]
  {
  }

  lemma ReadReply(text: string, entry: Entry, line: nat, rd: Reading)
    requires entry.record == Said(Assistant, Blocks([TextBlock(Some(text))])) && !Blank(text)
    ensures Views(EntryEvents(entry, line, rd)) == [View(AssistantReply, Some(text), [], None)]
  {
    OneBlockEvents(TextBlock(Some(text)), entry, line, AssistantEvent);
  }

  lemma ReadCall(id: string, name: string, paths: seq<string>, entry: Entry, line: nat, rd: Reading)
    requires entry.record == Said(Assistant, Blocks([ToolUseBlock(Some(id), Some(name), paths)]))
    ensures Views(EntryEvents(entry, line, rd))
         == [View(if paths == [] then ToolUse else FileEdit, Some(name), paths, Some(name))]
  {
    OneBlockEvents(ToolUseBlock(Some(id), Some(name), paths), entry, line, AssistantEvent);
  }

  lemma ReadResult(id: string, isError: bool, output: string, entry: Entry, line: nat, rd: Reading)
    requires entry.record == Said(User, Blocks([ToolResultBlock(Some(id), isError, OneOutput(output))]))
        && !Blank(output)
    ensures Views(EntryEvents(entry, line, rd)) == [View(ToolResult, Some(output), [], None)]
  {
    var block := ToolResultBlock(Some(id), isError, OneOutput(output));
    assert entry.record.content.blocks[0] == block;
    OneBlockEvents(block, entry, line, ResultEvent);
  }

  // ---- Reading everything back -------------------------------------------------------------

  lemma ParseMore(lines: seq<Option<Entry>>, entry: Entry, rd: Reading)
    ensures ParseOf(lines + [Some(entry)], rd) == ReadOne(ParseOf(lines, rd), entry, |lines|, rd)
  {
    assert (lines + [Some(entry)])[..|lines|] == lines;
  }

  lemma ViewsAppend(a: seq<Event>, b: seq<Event>)
    ensures Views(a + b) == Views(a) + Views(b)
  {
  }

  /** What a chain of bodies reads as. */
  function ReadBack(bodies: seq<Body>, target: Target, rd: Reading): seq<View> {
    Views(ParseOf(Lines(Chain(bodies, target)), rd).events)
  }

  lemma ReadBackMore(bodies: seq<Body>, body: Body, target: Target, rd: Reading)
    ensures ReadBack(bodies + [body], target, rd)
         == ReadBack(bodies, target, rd) + Views(EntryEvents(Chained(body, |bodies|, target), |bodies|, rd))
  {
    ChainMore(bodies, body, target);
    var entry := Chained(body, |bodies|, target);
    assert Lines(Chain(bodies, target) + [entry]) == Lines(Chain(bodies, target)) + [Some(entry)];
    ParseMore(Lines(Chain(bodies, target)), entry, rd);
    ViewsAppend(ParseOf(Lines(Chain(bodies, target)), rd).events, EntryEvents(entry, |bodies|, rd));
  }

  lemma CallReadBack(bodies: seq<Body>, event: Event, minted: nat, target: Target, w: Wording, rd: Reading)
    requires !Blank(w.placeholder) && (event.kind.ToolUse? || event.kind.FileEdit?)
    ensures ReadBack(bodies + CallBodies(event, None, minted, w), target, rd)
         == ReadBack(bodies, target, rd) + Normal(ViewOf(event), w)
  {
    var pair := CallBodies(event, None, minted, w);
    var n := |bodies|;
    ReadBackMore(bodies, pair[0], target, rd);
    ReadBackMore(bodies + [pair[0]], pair[1], target, rd);
    assert bodies + [pair[0]] + [pair[1]] == bodies + pair;
    var use, result := Chained(pair[0], n, target), Chained(pair[1], n + 1, target);
    ReadCall(w.callId(minted), CallName(event), CallPaths(event, None), use, n, rd);
    ReadResult(w.callId(minted), false, w.placeholder, result, n + 1, rd);
    var read := Views(EntryEvents(use, n, rd)) + Views(EntryEvents(result, n + 1, rd));
    assert read == Normal(ViewOf(event), w);
    assert ReadBack(bodies, target, rd) + read
        == ReadBack(bodies, target, rd) + Views(EntryEvents(use, n, rd)) + Views(EntryEvents(result, n + 1, rd));
  }

  lemma TextReadBack(bodies: seq<Body>, event: Event, target: Target, w: Wording, rd: Reading)
    requires WrittenText(event, w).Some? && !event.kind.FileEdit? && Taken(ViewOf(event), w, rd)
    ensures ReadBack(bodies + [TextBody(event, WrittenText(event, w).value, w)], target, rd)
         == ReadBack(bodies, target, rd) + Normal(ViewOf(event), w)
  {
    var text := WrittenText(event, w).value;
    var body := TextBody(event, text, w);
    ReadBackMore(bodies, body, target, rd);
    var entry := Chained(body, |bodies|, target);
    if event.kind.AssistantReply? {
      ReadReply(text, entry, |bodies|, rd);
    } else {
      ReadPrompt(text, entry, |bodies|, rd);
    }
  }

  lemma ViewsTake(events: seq<Event>, n: nat)
    requires 0 < n <= |events|
    ensures Views(events[..n])[..n - 1] == Views(events[..n - 1]) && Views(events[..n])[n - 1] == ViewOf(events[n - 1])
  {
  }

  lemma {:induction false} AllReadBack(events: seq<Event>, n: nat, target: Target, w: Wording, rd: Reading)
    requires n <= |events| && !Blank(w.placeholder) && AllTaken(Views(events), w, rd)
    ensures ReadBack(Bodies(events, n, NO_DETAILS, w), target, rd) == NormalAll(Views(events[..n]), w)
  {
    if n > 0 {
      var event, before := events[n - 1], Bodies(events, n - 1, NO_DETAILS, w);
      AllReadBack(events, n - 1, target, w, rd);
      assert Taken(Views(events)[n - 1], w, rd);
      var views := Views(events[..n]);
      ViewsTake(events, n);
      EventReadBack(events, n - 1, before, Minted(events, n, NO_DETAILS), target, w, rd);
    }
  }

  lemma EventReadBack(events: seq<Event>, i: nat, before: seq<Body>, minted: nat, target: Target, w: Wording,
                      rd: Reading)
    requires i < |events| && !Blank(w.placeholder) && Taken(ViewOf(events[i]), w, rd)
    ensures ReadBack(before + EventBodies(events, i, NO_DETAILS, minted, w), target, rd)
         == ReadBack(before, target, rd) + Normal(ViewOf(events[i]), w)
  {
    var event := events[i];
    if event.kind.ToolUse? || event.kind.FileEdit? {
      CallReadBack(before, event, minted, target, w, rd);
    } else if WrittenText(event, w).Some? {
      TextReadBack(before, event, target, w, rd);
    } else {
      NothingMore(before);
      NothingMore(ReadBack(before, target, rd));
    }
  }

  /** Rendered and read back, a session says the normal form of what it said. */
  lemma RenderThenParse(events: seq<Event>, target: Target, w: Wording, rd: Reading)
    requires !Blank(w.placeholder) && AllTaken(Views(events), w, rd)
    ensures Views(Again(events, target, w, rd).events) == NormalAll(Views(events), w)
  {
    AllReadBack(events, |events|, target, w, rd);
    assert events[..|events|] == events;
  }

  // ---- The normal form ---------------------------------------------------------------------

  lemma {:induction false} NormalAppend(a: seq<View>, b: seq<View>, w: Wording)
    ensures NormalAll(a + b, w) == NormalAll(a, w) + NormalAll(b, w)
  {
    if b == [] {
      assert a + b == a;
    } else {
      var n := |b| - 1;
      NormalAppend(a, b[..n], w);
      assert (a + b)[..|a + b| - 1] == a + b[..n];
      Associates(NormalAll(a, w), NormalAll(b[..n], w), Normal(b[n], w));
    }
  }

  lemma NormalOne(v: View, w: Wording)
    ensures NormalAll([v], w) == Normal(v, w)
  {
    assert [v][..0] == [];
  }

  lemma NormalTwo(u: View, v: View, w: Wording)
    ensures NormalAll([u, v], w) == Normal(u, w) + Normal(v, w)
  {
    assert [u, v][..1] == [u];
    NormalOne(u, w);
  }

  /** What an event becomes is normal, and taken as a person's where it is a prompt. */
  lemma NormalIsNormal(v: View, w: Wording, rd: Reading)
    requires Taken(v, w, rd)
    ensures NormalAll(Normal(v, w), w) == Normal(v, w) && AllTaken(Normal(v, w), w, rd)
  {
    if v.kind.ToolUse? || v.kind.FileEdit? {
      var pair := Normal(v, w);
      NormalTwo(pair[0], pair[1], w);
      assert Normal(pair[0], w) == pair;
    } else if WrittenText(Saying(v), w).Some? {
      NormalOne(Normal(v, w)[0], w);
    }
  }

  lemma {:induction false} NormalAllIsNormal(views: seq<View>, w: Wording, rd: Reading)
    requires AllTaken(views, w, rd)
    ensures NormalAll(NormalAll(views, w), w) == NormalAll(views, w) && AllTaken(NormalAll(views, w), w, rd)
  {
    if views != [] {
      var n := |views| - 1;
      NormalAllIsNormal(views[..n], w, rd);
      NormalIsNormal(views[n], w, rd);
      NormalAppend(NormalAll(views[..n], w), Normal(views[n], w), w);
    }
  }

  // ---- What is kept ------------------------------------------------------------------------

  datatype Totals = Totals(prompts: nat, notes: nat, replies: nat, calls: nat)

  function Counted(t: Totals, kind: EventKind): Totals {
    match kind
    case UserPrompt => t.(prompts := t.prompts + 1)
    case UserInterjection => t.(notes := t.notes + 1)
    case CompactSummary => t.(notes := t.notes + 1)
    case CompactFiltered => t.(notes := t.notes + 1)
    case AssistantReply => t.(replies := t.replies + 1)
    case ToolUse => t.(calls := t.calls + 1)
    case FileEdit => t.(calls := t.calls + 1)
    case _ => t
  }

  /** Prompts, what else a person or a compaction said, replies, and calls. */
  function TotalsOf(views: seq<View>): Totals {
    if views == [] then Totals(0, 0, 0, 0) else Counted(TotalsOf(views[..|views| - 1]), views[|views| - 1].kind)
  }

  lemma TotalsOne(views: seq<View>, v: View)
    ensures TotalsOf(views + [v]) == Counted(TotalsOf(views), v.kind)
  {
    assert (views + [v])[..|views|] == views;
  }

  lemma TotalsNormal(front: seq<View>, v: View, w: Wording)
    requires Spoken(v)
    ensures TotalsOf(front + Normal(v, w))
         == if Normal(v, w) == [] then TotalsOf(front) else Counted(TotalsOf(front), Normal(v, w)[0].kind)
  {
    var own := Normal(v, w);
    if |own| == 2 {
      TotalsOne(front, own[0]);
      TotalsOne(front + [own[0]], own[1]);
      assert front + own == front + [own[0]] + [own[1]];
    } else if |own| == 1 {
      TotalsOne(front, own[0]);
      assert own == [own[0]];
    } else {
      assert front + own == front;
    }
  }

  /** Nothing that is said is blank. */
  predicate Spoken(v: View) {
    v.kind.UserPrompt? || v.kind.UserInterjection? || v.kind.CompactSummary? || v.kind.AssistantReply?
    ==> NonBlank(v.text).Some?
  }

  /** Everything a person or a compaction said counts as a prompt. */
  function Folded(t: Totals): Totals {
    Totals(t.prompts + t.notes, 0, t.replies, t.calls)
  }

  lemma CountNormal(t: Totals, v: View, w: Wording)
    requires Spoken(v)
    ensures Folded(Counted(t, v.kind))
         == if Normal(v, w) == [] then Folded(t) else Counted(Folded(t), Normal(v, w)[0].kind)
  {
  }

  lemma {:induction false} NormalTotals(views: seq<View>, w: Wording)
    requires forall i | 0 <= i < |views| :: Spoken(views[i])
    ensures TotalsOf(NormalAll(views, w)) == Folded(TotalsOf(views))
  {
    if views != [] {
      var n := |views| - 1;
      NormalTotals(views[..n], w);
      TotalsNormal(NormalAll(views[..n], w), views[n], w);
      CountNormal(TotalsOf(views[..n]), views[n], w);
    }
  }

  /**
   One render and parse reaches a normal form: a second changes no event's kind, text, paths or
   tool. Replies and calls are kept one for one; prompts, interjections and compaction notes all
   become prompts.
   */
  lemma NormalFormAtOnce(events: seq<Event>, target: Target, again: Target, w: Wording, rd: Reading)
    requires !Blank(w.placeholder) && AllTaken(Views(events), w, rd)
    requires forall i | 0 <= i < |events| :: Spoken(ViewOf(events[i]))
    ensures var once := Again(events, target, w, rd).events;
            && Views(Again(once, again, w, rd).events) == Views(once)
            && var before, after := TotalsOf(Views(events)), TotalsOf(Views(once));
               after == Folded(before)
  {
    var once := Again(events, target, w, rd).events;
    RenderThenParse(events, target, w, rd);
    NormalAllIsNormal(Views(events), w, rd);
    RenderThenParse(once, again, w, rd);
    NormalTotals(Views(events), w);
  }

  /** The session read back is the one it was written for. */
  lemma {:induction false} TargetReadBack(bodies: seq<Body>, target: Target, rd: Reading)
    requires bodies != []
    ensures var session := ParseOf(Lines(Chain(bodies, target)), rd);
            && session.id == target.sessionId
            && session.cwd == (if target.cwd == "" then None else Some(target.cwd))
  {
    var front, body := bodies[..|bodies| - 1], bodies[|bodies| - 1];
    var entry := Chained(body, |front|, target);
    assert bodies == front + [body];
    ChainMore(front, body, target);
    assert Lines(Chain(front, target) + [entry]) == Lines(Chain(front, target)) + [Some(entry)];
    ParseMore(Lines(Chain(front, target)), entry, rd);
    if front != [] {
      TargetReadBack(front, target, rd);
    }
  }
}
