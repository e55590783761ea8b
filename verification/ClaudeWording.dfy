/** The phrases the renderer writes, and what the round trip needs of them. */
module ClaudeWording {
  import opened Wrappers
  import opened ClaudeRecord
  import opened ClaudeRender
  import opened Pointer
  import opened PointerProofs

  // Each phrase opens with a part of its own: no proof looks further into it.

  function Placeholder(): string {
    "[agit]" + " this tool call was replayed from another runtime; its output was not carried over."
  }

  function FilterNote(text: Option<string>): string {
    "(this" + " context was compact-filtered by the source runtime: " + text.GetOr("window / kept-count unknown") + ")"
  }

  function CallId(n: nat): string {
    "toolu_agit_" + Decimal(n)
  }

  const NATIVE_WORDING := Wording(Placeholder(), FilterNote, "2026-01-01T00:00:00.000Z", CallId)

  /** The phrases are not blank, and no two calls of a transcript are paired by the same identifier. */
  lemma NativeWordingFits(note: Option<string>, m: nat, n: nat)
    ensures !Blank(NATIVE_WORDING.placeholder) && !Blank(NATIVE_WORDING.note(note))
    ensures NATIVE_WORDING.callId(m) == NATIVE_WORDING.callId(n) ==> m == n
  {
    assert Placeholder()[0] == '[';
    assert FilterNote(note)[0] == '(';
    var prefix := |"toolu_agit_"|;
    assert CallId(m)[prefix..] == Decimal(m) && CallId(n)[prefix..] == Decimal(n);
    DecimalIsIndex(m);
    DecimalIsIndex(n);
  }
}
