/** `TruncateWithTooltip`: a text longer than `maxLength` is cut and followed
    by `"..."` (the full text goes into a tooltip); a shorter one is shown as
    it is. `maxLength` is any integer, as a JavaScript number may be. */
module Truncate {

  const Ellipsis := "..."

  /** `text.slice(0, end)`: a negative end counts from the end of the text and
      stops at its start; an end past the text stops at its end. */
  function SliceTo(text: string, end: int): (r: string)
    ensures r <= text
    ensures 0 <= end <= |text| ==> |r| == end
    ensures end < 0 ==> |r| == if |text| + end < 0 then 0 else |text| + end
  {
    if end < 0 then
      (if |text| + end < 0 then [] else text[..|text| + end])
    else if end > |text| then text
    else text[..end]
  }

  /** The text the component renders. A text that does not fit keeps exactly
      its first `maxLength` characters and gains the ellipsis. */
  function Truncated(text: string, maxLength: int): (r: string)
    ensures |text| > maxLength >= 0 ==>
      |r| == maxLength + 3 && r[..maxLength] == text[..maxLength] && r[maxLength..] == Ellipsis
  {
    if |text| <= maxLength then text
    else SliceTo(text, maxLength) + Ellipsis
  }

  /** What the component shows: the text itself when it fits, and otherwise
      its first `maxLength` characters and an ellipsis, `maxLength + 3`
      characters in all. Either way the output begins with a prefix of the
      text and is no longer than the text or `maxLength + 3`. */
  lemma TruncatedShape(text: string, maxLength: int)
    ensures |text| <= maxLength ==> Truncated(text, maxLength) == text
    ensures |text| > maxLength >= 0 ==>
      Truncated(text, maxLength) == text[..maxLength] + Ellipsis &&
      |Truncated(text, maxLength)| == maxLength + 3
    ensures maxLength >= 0 ==>
      |Truncated(text, maxLength)| <= if |text| > maxLength + 3 then |text| else maxLength + 3
    ensures exists k :: (0 <= k <= |text| &&
      (Truncated(text, maxLength) == text[..k] || Truncated(text, maxLength) == text[..k] + Ellipsis))
  {
    if |text| <= maxLength {
      assert Truncated(text, maxLength) == text[..|text|];
    } else {
      var k := |SliceTo(text, maxLength)|;
      assert SliceTo(text, maxLength) == text[..k];
    }
  }

  /** The output is left as it is exactly when the text fits, or when cutting
      it reproduces it: the text is `maxLength + 3` long and already ends in
      `"..."`. */
  lemma TruncatedUnchangedIff(text: string, maxLength: nat)
    ensures Truncated(text, maxLength) == text <==>
      |text| <= maxLength || (|text| == maxLength + 3 && text[maxLength..] == Ellipsis)
  {
    if |text| > maxLength && Truncated(text, maxLength) == text {
      assert text[maxLength..] == Truncated(text, maxLength)[maxLength..];
    }
    if |text| == maxLength + 3 && text[maxLength..] == Ellipsis {
      assert text == text[..maxLength] + text[maxLength..];
    }
  }

  /** Truncating a truncated text changes nothing. */
  lemma TruncatedIdempotent(text: string, maxLength: nat)
    ensures Truncated(Truncated(text, maxLength), maxLength) == Truncated(text, maxLength)
  {
    if |text| > maxLength {
      var once := Truncated(text, maxLength);
      assert once[..maxLength] == text[..maxLength];
    }
  }
}
