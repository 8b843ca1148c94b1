/** A textarea's value and selection, and `setRangeText()` as section
    4.10.19 of the WHATWG HTML Living Standard ("APIs for the text control
    selections") defines it, for the "select" and "end" modes. */
module TextControl {

  datatype SelectionMode = Select | End

  datatype RangeOutcome = Replaced | IndexSizeError

  function Min(a: nat, b: nat): nat {
    if a <= b then a else b
  }

  class TextArea {
    var value: string
    var selectionStart: nat
    var selectionEnd: nat

    /** The selection always lies within the value, start before end. */
    ghost predicate Valid()
      reads this
    {
      selectionStart <= selectionEnd <= |value|
    }

    constructor (value: string, selectionStart: nat, selectionEnd: nat)
      requires selectionStart <= selectionEnd <= |value|
      ensures Valid()
      ensures this.value == value
      ensures this.selectionStart == selectionStart && this.selectionEnd == selectionEnd
    {
      this.value := value;
      this.selectionStart := selectionStart;
      this.selectionEnd := selectionEnd;
    }

    /** `setRangeText(replacement, start, end, mode)`: a start after the end
        throws; otherwise both are clamped to the value's length, the range is
        replaced, and the selection becomes the inserted text ("select") or
        the point after it ("end"). */
    method SetRangeText(replacement: string, start: nat, end: nat, mode: SelectionMode)
      returns (outcome: RangeOutcome)
      requires Valid()
      modifies this
      ensures Valid()
      ensures start > end ==>
        outcome == IndexSizeError && value == old(value) &&
        selectionStart == old(selectionStart) && selectionEnd == old(selectionEnd)
      ensures start <= end ==>
        var s := Min(start, |old(value)|);
        var e := Min(end, |old(value)|);
        outcome == Replaced &&
        value == old(value)[..s] + replacement + old(value)[e..] &&
        (mode == Select ==> selectionStart == s && selectionEnd == s + |replacement|) &&
        (mode == End ==> selectionStart == s + |replacement| && selectionEnd == s + |replacement|)
    {
      if start > end {
        return IndexSizeError;
      }
      var s := Min(start, |value|);
      var e := Min(end, |value|);
      value := value[..s] + replacement + value[e..];
      var newEnd := s + |replacement|;
      match mode {
        case Select =>
          selectionStart, selectionEnd := s, newEnd;
        case End =>
          selectionStart, selectionEnd := newEnd, newEnd;
      }
      outcome := Replaced;
    }
  }
}
