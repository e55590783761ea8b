/** The round trip of sessions under Claude Code's own tests on text and its own phrases. */
module ClaudeNative {
  import opened Wrappers
  import opened ClaudeRecord
  import opened ClaudeSession
  import opened ClaudeText
  import opened ClaudeRender
  import opened ClaudeWording
  import opened ClaudeNormal
  import opened Sequences

  /** The table of injected openings holds the opening of a reminder, whatever else it holds. */
  ghost predicate KnowsReminders(injected: string -> bool) {
    forall s :: REMINDER_OPEN <= TrimStart(s) ==> injected(s)
  }

  /** A text is taken for a person's exactly when it is not blank and opens with no injection. */
  lemma HumanNatively(text: string, injected: string -> bool)
    requires KnowsReminders(injected)
    ensures Human(text, NativeReading(injected)) <==> !Blank(text) && !injected(text)
  {
    if !injected(text) {
      assert !(REMINDER_OPEN <= TrimStart(text));
      assert LeadingReminders(TrimStart(text)) == Some(([], TrimStart(text)));
    }
  }

  /** What is written as a user's message opens with no injection. */
  predicate Unprompted(v: View, w: Wording, injected: string -> bool) {
    v.kind.ToolUse? || ByAssistant(v.kind)
    || (WrittenText(Saying(v), w).Some? ==> !injected(WrittenText(Saying(v), w).value))
  }

  ghost predicate Visible(w: Wording) {
    !Blank(w.placeholder) && forall note :: !Blank(w.note(note))
  }

  lemma TakenNatively(v: View, w: Wording, injected: string -> bool)
    requires KnowsReminders(injected) && Visible(w)
    ensures Taken(v, w, NativeReading(injected)) <==> Unprompted(v, w, injected)
  {
    var text := WrittenText(Saying(v), w);
    if text.Some? {
      assert v.kind.CompactFiltered? ==> text.value == w.note(NonBlank(v.text));
      HumanNatively(text.value, injected);
    }
  }

  /** The normal form, under Claude Code's own tests on text. */
  lemma NormalFormAtOnceNatively(events: seq<Event>, target: Target, again: Target, w: Wording,
                                 injected: string -> bool)
    requires KnowsReminders(injected) && Visible(w)
    requires forall i | 0 <= i < |events| :: Unprompted(ViewOf(events[i]), w, injected) && Spoken(ViewOf(events[i]))
    ensures var rd := NativeReading(injected);
            var once := Again(events, target, w, rd).events;
            && Views(once) == NormalAll(Views(events), w)
            && Views(Again(once, again, w, rd).events) == Views(once)
            && TotalsOf(Views(once)) == Folded(TotalsOf(Views(events)))
  {
    var views, rd := Views(events), NativeReading(injected);
    forall i | 0 <= i < |views| ensures Taken(views[i], w, rd) {
      TakenNatively(ViewOf(events[i]), w, injected);
    }
    RenderThenParse(events, target, w, rd);
    NormalFormAtOnce(events, target, again, w, rd);
  }

  // ---- Sessions that do not come back normal -----------------------------------------------

  /** Something is read back as an event the format does not model. */
  predicate HoldsUnmodelled(views: seq<View>) {
    exists k | 0 <= k < |views| :: views[k].kind == Unmodelled
  }

  lemma {:induction false} NormalIsModelled(views: seq<View>, w: Wording)
    ensures !HoldsUnmodelled(NormalAll(views, w))
  {
    if views != [] {
      NormalIsModelled(views[..|views| - 1], w);
    }
  }

  /** What is read back stays, whatever is written after it. */
  lemma {:induction false} ReadBackStays(bodies: seq<Body>, more: seq<Body>, target: Target, rd: Reading)
    ensures ReadBack(bodies, target, rd) <= ReadBack(bodies + more, target, rd)
  {
    if more == [] {
      assert bodies + more == bodies;
    } else {
      var front, last := more[..|more| - 1], more[|more| - 1];
      ReadBackStays(bodies, front, target, rd);
      ReadBackMore(bodies + front, last, target, rd);
      assert bodies + front + [last] == bodies + more;
    }
  }

  lemma ShowsStill(bodies: seq<Body>, more: seq<Body>, target: Target, rd: Reading)
    requires HoldsUnmodelled(ReadBack(bodies, target, rd))
    ensures HoldsUnmodelled(ReadBack(bodies + more, target, rd))
  {
    ReadBackStays(bodies, more, target, rd);
    var a, b := ReadBack(bodies, target, rd), ReadBack(bodies + more, target, rd);
    var k :| 0 <= k < |a| && a[k].kind == Unmodelled;
    assert b[k] == a[k];
  }

  /** A message that opens with an injection is read as one, with or without human words behind it. */
  lemma InjectedShows(text: string, entry: Entry, line: nat, injected: string -> bool)
    requires entry.record == Said(User, Plain(text)) && !Blank(text) && injected(text)
    ensures HoldsUnmodelled(Views(EntryEvents(entry, line, NativeReading(injected))))
  {
    var views := Views(EntryEvents(entry, line, NativeReading(injected)));
    assert views[|views| - 1].kind == Unmodelled;
  }

  lemma PromptedShows(before: seq<Body>, event: Event, target: Target, w: Wording, injected: string -> bool)
    requires Visible(w) && !Unprompted(ViewOf(event), w, injected)
    ensures WrittenText(event, w).Some?
    ensures var body := TextBody(event, WrittenText(event, w).value, w);
            HoldsUnmodelled(ReadBack(before + [body], target, NativeReading(injected)))
  {
    var text, rd := WrittenText(event, w).value, NativeReading(injected);
    var body := TextBody(event, text, w);
    var entry := Chained(body, |before|, target);
    assert event.kind.CompactFiltered? ==> text == w.note(NonBlank(event.text));
    ReadBackMore(before, body, target, rd);
    InjectedShows(text, entry, |before|, injected);
    var own := Views(EntryEvents(entry, |before|, rd));
    var k :| 0 <= k < |own| && own[k].kind == Unmodelled;
    assert (ReadBack(before, target, rd) + own)[|ReadBack(before, target, rd)| + k] == own[k];
  }

  lemma PromptedBody(events: seq<Event>, i: nat, minted: nat, w: Wording, injected: string -> bool)
    requires i < |events| && !Unprompted(ViewOf(events[i]), w, injected)
    ensures WrittenText(events[i], w).Some?
    ensures EventBodies(events, i, NO_DETAILS, minted, w) == [TextBody(events[i], WrittenText(events[i], w).value, w)]
  {
  }

  lemma LastShows(before: seq<Body>, events: seq<Event>, i: nat, minted: nat, target: Target, w: Wording,
                  injected: string -> bool, rd: Reading)
    requires i < |events| && Visible(w) && !Unprompted(ViewOf(events[i]), w, injected) && rd == NativeReading(injected)
    ensures HoldsUnmodelled(ReadBack(before + EventBodies(events, i, NO_DETAILS, minted, w), target, rd))
  {
    PromptedBody(events, i, minted, w, injected);
    PromptedShows(before, events[i], target, w, injected);
  }

  /** What the first events are written as comes first in what all are written as. */
  lemma {:induction false} BodiesRest(events: seq<Event>, n: nat, m: nat, w: Wording) returns (rest: seq<Body>)
    requires n <= m <= |events|
    ensures Bodies(events, m, NO_DETAILS, w) == Bodies(events, n, NO_DETAILS, w) + rest
  {
    if n == m {
      rest := [];
      NothingMore(Bodies(events, n, NO_DETAILS, w));
    } else {
      var front := BodiesRest(events, n, m - 1, w);
      var own := EventBodies(events, m - 1, NO_DETAILS, Minted(events, m, NO_DETAILS), w);
      rest := front + own;
      Associates(Bodies(events, n, NO_DETAILS, w), front, own);
    }
  }

  lemma PromptedAmong(events: seq<Event>, i: nat, target: Target, w: Wording, injected: string -> bool, rd: Reading)
    requires i < |events| && Visible(w) && !Unprompted(ViewOf(events[i]), w, injected) && rd == NativeReading(injected)
    ensures HoldsUnmodelled(ReadBack(Bodies(events, |events|, NO_DETAILS, w), target, rd))
  {
    LastShows(Bodies(events, i, NO_DETAILS, w), events, i, Minted(events, i + 1, NO_DETAILS), target, w, injected, rd);
    var rest := BodiesRest(events, i + 1, |events|, w);
    ShowsStill(Bodies(events, i + 1, NO_DETAILS, w), rest, target, rd);
  }

  /** A session comes back as its normal form exactly when nothing in it opens with an injection. */
  lemma NormalExactly(events: seq<Event>, target: Target, w: Wording, injected: string -> bool)
    requires KnowsReminders(injected) && Visible(w)
    ensures Views(Again(events, target, w, NativeReading(injected)).events) == NormalAll(Views(events), w)
       <==> forall i | 0 <= i < |events| :: Unprompted(ViewOf(events[i]), w, injected)
  {
    var views, rd := Views(events), NativeReading(injected);
    if i :| 0 <= i < |events| && !Unprompted(ViewOf(events[i]), w, injected) {
      PromptedAmong(events, i, target, w, injected, rd);
      NormalIsModelled(views, w);
    } else {
      forall i | 0 <= i < |views| ensures Taken(views[i], w, rd) {
        TakenNatively(ViewOf(events[i]), w, injected);
      }
      RenderThenParse(events, target, w, rd);
    }
  }

  // ---- Claude's own phrases ----------------------------------------------------------------

  lemma NativelyVisible()
    ensures Visible(NATIVE_WORDING)
  {
    forall note ensures !Blank(NATIVE_WORDING.note(note)) {
      NativeWordingFits(note, 0, 0);
    }
    NativeWordingFits(None, 0, 0);
  }

  /**
   And with Claude's own phrases, nothing is left open but the table of injected openings: a session
   comes back as its normal form, at once, exactly when no prompt, interjection or note opens with one.
   */
  lemma NormalFormNatively(events: seq<Event>, target: Target, again: Target, w: Wording, injected: string -> bool)
    requires w == NATIVE_WORDING && KnowsReminders(injected)
    ensures var rd := NativeReading(injected);
            var once := Again(events, target, w, rd).events;
            && (Views(once) == NormalAll(Views(events), w)
                <==> forall i | 0 <= i < |events| :: Unprompted(ViewOf(events[i]), w, injected))
            && ((forall i | 0 <= i < |events| ::
                   Unprompted(ViewOf(events[i]), w, injected) && Spoken(ViewOf(events[i])))
                ==> (&& Views(Again(once, again, w, rd).events) == Views(once)
                     && TotalsOf(Views(once)) == Folded(TotalsOf(Views(events)))))
  {
    NativelyVisible();
    NormalExactly(events, target, w, injected);
    if forall i | 0 <= i < |events| :: Unprompted(ViewOf(events[i]), w, injected) && Spoken(ViewOf(events[i])) {
      NormalFormAtOnceNatively(events, target, again, w, injected);
    }
  }

  /** A prompt that opens with an injection is read back as one, so the condition on texts cannot go. */
  lemma InjectedReadBack(text: string, target: Target, w: Wording, injected: string -> bool)
    requires !Blank(text) && injected(text) && SplitInjection(Plain(text), injected).None?
    ensures var prompt := Event(UserPrompt, Some(text), None, [], None, None);
            Views(Again([prompt], target, w, NativeReading(injected)).events)
                == [View(Unmodelled, Some(text), [], None)]
  {
    var prompt := Event(UserPrompt, Some(text), None, [], None, None);
    var rd := NativeReading(injected);
    var body := TextBody(prompt, text, w);
    var entry := Chained(body, 0, target);
    assert Bodies([prompt], 0, NO_DETAILS, w) + EventBodies([prompt], 0, NO_DETAILS, 0, w) == [body];
    ReadBackMore([], body, target, rd);
    assert [] + [body] == [body] && ReadBack([], target, rd) == [];
    assert Views(EntryEvents(entry, 0, rd)) == [View(Unmodelled, Some(text), [], None)];
  }
}
