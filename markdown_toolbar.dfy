/** The note editor's markdown toolbar. Each button edits the textarea it is
    given through `setRangeText`; with no textarea attached it does nothing.
    Moving the focus back to the textarea is not modelled. */
module MarkdownToolbar {
  import opened TextControl

  /** The text `applyFormat` puts in place of the selection: the selection
      wrapped in `syntax`, or the placeholder wrapped in it when nothing is
      selected. */
  function Wrapped(syntax: string, selectedText: string, placeholder: string): string {
    if selectedText != "" then syntax + selectedText + syntax else syntax + placeholder + syntax
  }

  const LinkTemplate := "[Link Text](url)"
  const HeadingPrefix := "## "
  const ListPrefix := "- "

  /** `applyFormat(syntax, placeholder)`: the selection is replaced by its
      wrapped form, which ends up selected; the text around it is kept. */
  method ApplyFormat(textarea: TextArea?, syntax: string, placeholder: string)
    requires textarea != null ==> textarea.Valid()
    modifies textarea
    ensures textarea != null ==> textarea.Valid()
    ensures textarea != null ==> (
      var s, e := old(textarea.selectionStart), old(textarea.selectionEnd);
      var inserted := Wrapped(syntax, old(textarea.value)[s..e], placeholder);
      textarea.value == old(textarea.value)[..s] + inserted + old(textarea.value)[e..] &&
      textarea.selectionStart == s && textarea.selectionEnd == s + |inserted| &&
      textarea.value[..s] == old(textarea.value)[..s] &&
      textarea.value[s..textarea.selectionEnd] == inserted &&
      textarea.value[textarea.selectionEnd..] == old(textarea.value)[e..])
  {
    if textarea == null {
      return;
    }
    var start := textarea.selectionStart;
    var end := textarea.selectionEnd;
    var selectedText := textarea.value[start..end];
    var textToInsert := Wrapped(syntax, selectedText, placeholder);
    var _ := textarea.SetRangeText(textToInsert, start, end, Select);
    PartsOfReplacement(old(textarea.value)[..start], textToInsert, old(textarea.value)[end..]);
  }

  /** `applyHeading`: `"## "` is inserted at the selection start, nothing is
      deleted, and the cursor lands after the prefix. */
  method ApplyHeading(textarea: TextArea?)
    requires textarea != null ==> textarea.Valid()
    modifies textarea
    ensures textarea != null ==> textarea.Valid()
    ensures textarea != null ==> (
      var s := old(textarea.selectionStart);
      textarea.value == old(textarea.value)[..s] + HeadingPrefix + old(textarea.value)[s..] &&
      textarea.selectionStart == s + 3 && textarea.selectionEnd == s + 3 &&
      |textarea.value| == |old(textarea.value)| + 3)
  {
    if textarea == null {
      return;
    }
    var _ := textarea.SetRangeText(HeadingPrefix, textarea.selectionStart, textarea.selectionStart, End);
  }

  /** `applyList`: `"- "` is inserted at the selection start, nothing is
      deleted, and the cursor lands after the prefix. */
  method ApplyList(textarea: TextArea?)
    requires textarea != null ==> textarea.Valid()
    modifies textarea
    ensures textarea != null ==> textarea.Valid()
    ensures textarea != null ==> (
      var s := old(textarea.selectionStart);
      textarea.value == old(textarea.value)[..s] + ListPrefix + old(textarea.value)[s..] &&
      textarea.selectionStart == s + 2 && textarea.selectionEnd == s + 2 &&
      |textarea.value| == |old(textarea.value)| + 2)
  {
    if textarea == null {
      return;
    }
    var _ := textarea.SetRangeText(ListPrefix, textarea.selectionStart, textarea.selectionStart, End);
  }

  /** `applyLink`: the selection is replaced by the link template, which ends
      up selected; the text around it is kept. */
  method ApplyLink(textarea: TextArea?)
    requires textarea != null ==> textarea.Valid()
    modifies textarea
    ensures textarea != null ==> textarea.Valid()
    ensures textarea != null ==> (
      var s, e := old(textarea.selectionStart), old(textarea.selectionEnd);
      textarea.value == old(textarea.value)[..s] + LinkTemplate + old(textarea.value)[e..] &&
      textarea.selectionStart == s && textarea.selectionEnd == s + |LinkTemplate| &&
      textarea.value[..s] == old(textarea.value)[..s] &&
      textarea.value[s..textarea.selectionEnd] == LinkTemplate &&
      textarea.value[textarea.selectionEnd..] == old(textarea.value)[e..])
  {
    if textarea == null {
      return;
    }
    var start, end := textarea.selectionStart, textarea.selectionEnd;
    var _ := textarea.SetRangeText(LinkTemplate, start, end, Select);
    PartsOfReplacement(old(textarea.value)[..start], LinkTemplate, old(textarea.value)[end..]);
  }

  /** The three parts of `before + inserted + after` can be read back. */
  lemma PartsOfReplacement(before: string, inserted: string, after: string)
    ensures var v := before + inserted + after;
      v[..|before|] == before &&
      v[|before|..|before| + |inserted|] == inserted &&
      v[|before| + |inserted|..] == after
  {
  }
}
