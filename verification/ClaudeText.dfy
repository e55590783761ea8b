/** Claude Code's own tests on text; the table of injected openings stays a parameter. */
module ClaudeText {
  import opened Wrappers
  import opened ClaudeRecord
  import opened ClaudeSession

  function Find(s: string, needle: string): Option<nat>
    ensures Find(s, needle).Some? ==> Find(s, needle).value + |needle| <= |s|
  {
    if needle <= s then Some(0)
    else if s == [] then None
    else match Find(s[1..], needle)
         case None => None
         case Some(at) => Some(at + 1)
  }

  const REMINDER_OPEN := "<system-reminder>"
  const REMINDER_CLOSE := "</system-reminder>"

  lemma TrimShortens(s: string)
    ensures |TrimStart(s)| <= |s|
  {
  }

  /** Complete leading reminders and what is left; `None` when a reminder is not closed. */
  function LeadingReminders(rest: string): Option<(seq<string>, string)>
    decreases |rest|
  {
    if REMINDER_OPEN <= rest then
      match Find(rest, REMINDER_CLOSE)
      case None => None
      case Some(at) =>
        var end := at + |REMINDER_CLOSE|;
        TrimShortens(rest[end..]);
        match LeadingReminders(TrimStart(rest[end..]))
        case None => None
        case Some((more, left)) => Some(([rest[..end]] + more, left))
    else Some(([], rest))
  }

  /** The first text nobody injected. */
  function FirstHuman(texts: seq<string>, injected: string -> bool): (r: Option<nat>)
    ensures r.Some? ==> r.value < |texts|
  {
    if texts == [] then None
    else if !injected(texts[0]) then Some(0)
    else match FirstHuman(texts[1..], injected)
         case None => None
         case Some(k) => Some(k + 1)
  }

  /** Injections at the front of one record, and the human words that follow them. */
  function SplitInjection(content: Content, injected: string -> bool): Option<(string, string)> {
    match content
    case NoContent => None
    case Plain(text) =>
      (match LeadingReminders(TrimStart(text))
       case Some((reminders, rest)) =>
         if reminders == [] || Blank(rest) || injected(rest) then None else Some((Join(reminders), rest))
       case None => None)
    case Blocks(blocks) =>
      var texts := WithText(Texts(blocks));
      match FirstHuman(texts, injected)
      case Some(k) => if k == 0 then None else Some((Join(texts[..k]), Join(texts[k..])))
      case None => None
  }

  predicate Interruption(text: string) {
    "[Request interrupted" <= TrimStart(text)
  }

  predicate PastedImage(text: string) {
    "[Image: " <= TrimStart(text)
  }

  function NativeNotes(injected: string -> bool): Notes {
    Notes(injected, Interruption, PastedImage, (content: Content) => SplitInjection(content, injected).Some?)
  }

  function NativeReading(injected: string -> bool): Reading {
    Reading(NativeNotes(injected), (content: Content) => SplitInjection(content, injected))
  }
}
