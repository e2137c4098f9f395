/** The one-time-code entry boxes (components/OtpInput.tsx): one slot per
    digit, `length` slots (OTP_LENGTH = 4 by default, constants.ts). */
module OtpInput {
  import opened Wrappers
  import Text

  /** constants.ts `OTP_LENGTH` */
  const OtpLength: nat := 4

  /** The slots as first rendered: `length` empty strings. */
  function Initial(length: nat): (slots: seq<string>)
    ensures |slots| == length
    ensures forall i :: 0 <= i < length ==> slots[i] == ""
  {
    seq(length, _ => "")
  }

  /** Every slot holds at most one character. */
  predicate SlotsWellFormed(slots: seq<string>)
  {
    forall i :: 0 <= i < |slots| ==> |slots[i]| <= 1
  }

  /** `slots.join('')` */
  function Concat(slots: seq<string>): string
  {
    if slots == [] then "" else Concat(slots[..|slots| - 1]) + slots[|slots| - 1]
  }

  /** Joining slots of exactly one character each gives one character per
      slot, in slot order. */
  lemma {:induction false} ConcatOfSingles(slots: seq<string>)
    requires forall i :: 0 <= i < |slots| ==> |slots[i]| == 1
    ensures |Concat(slots)| == |slots|
    ensures forall i :: 0 <= i < |slots| ==> Concat(slots)[i] == slots[i][0]
  {
    if slots != [] {
      ConcatOfSingles(slots[..|slots| - 1]);
    }
  }

  /** The slots after a change, whether `onComplete` fired and with what, and
      which slot takes the focus next, if the focus moves. */
  datatype Change = Change(slots: seq<string>, completed: Option<string>, focus: Option<nat>)

  /** `handleChange(index, value)`. `numeric` is whether `Number(value)` is a
      number rather than NaN; it is a parameter because JavaScript's number
      coercion is not modelled, and the one thing assumed of it is that it
      holds of digit strings, the empty one included. Non-numeric input changes
      nothing. Otherwise slot `index` becomes the last character of `value`
      (empty if `value` is), the focus moves right after a non-empty value
      unless this is the last slot, and `onComplete` fires, with the slots
      joined, exactly when no slot is empty. */
  function HandleChange(slots: seq<string>, index: nat, value: string, numeric: bool): (r: Change)
    requires index < |slots|
    requires Text.AllDigits(value) ==> numeric
    ensures !numeric ==> r == Change(slots, None, None)
    ensures |r.slots| == |slots|
    ensures forall i :: 0 <= i < |slots| && i != index ==> r.slots[i] == slots[i]
    ensures numeric && value == "" ==> r.slots[index] == ""
    ensures numeric && value != "" ==> r.slots[index] == [value[|value| - 1]]
    ensures r.completed.Some? <==> numeric && forall i :: 0 <= i < |r.slots| ==> r.slots[i] != ""
    ensures r.completed.Some? ==> r.completed.value == Concat(r.slots)
    ensures r.focus.Some? <==> numeric && value != "" && index + 1 < |slots|
    ensures r.focus.Some? ==> r.focus.value == index + 1
  {
    if !numeric then Change(slots, None, None)
    else
      var slot := if value == "" then "" else value[|value| - 1..];
      var next := slots[index := slot];
      var completed := if forall i :: 0 <= i < |next| ==> next[i] != "" then Some(Concat(next)) else None;
      var focus := if value != "" && index + 1 < |slots| then Some(index + 1) else None;
      Change(next, completed, focus)
  }

  /** `handleKeyDown`: Backspace in an empty slot moves the focus left. */
  function FocusOnBackspace(slots: seq<string>, index: nat): (focus: Option<nat>)
    requires index < |slots|
    ensures focus.Some? <==> slots[index] == "" && index > 0
    ensures focus.Some? ==> focus.value == index - 1
  {
    if slots[index] == "" && index > 0 then Some(index - 1) else None
  }

  /** Clearing a slot other than the first and then pressing Backspace in it
      moves the focus one slot left; in a slot just filled with a character,
      Backspace leaves the focus where it is. */
  lemma BackspaceAfterChange(slots: seq<string>, index: nat, value: string)
    requires index < |slots|
    requires Text.AllDigits(value)
    ensures index > 0 ==> FocusOnBackspace(HandleChange(slots, index, "", true).slots, index) == Some(index - 1)
    ensures value != "" ==> FocusOnBackspace(HandleChange(slots, index, value, true).slots, index).None?
  {
  }

  /** Slots start well formed and every change keeps them so; a completed code
      then has exactly one character per slot, and typing only digits yields a
      code of digits. */
  lemma SlotsStayWellFormed(slots: seq<string>, index: nat, value: string, numeric: bool)
    requires index < |slots|
    requires Text.AllDigits(value) ==> numeric
    requires SlotsWellFormed(slots)
    ensures SlotsWellFormed(Initial(OtpLength))
    ensures SlotsWellFormed(HandleChange(slots, index, value, numeric).slots)
    ensures var r := HandleChange(slots, index, value, numeric);
      r.completed.Some? ==> |r.completed.value| == |slots|
  {
    var r := HandleChange(slots, index, value, numeric);
    if r.completed.Some? {
      ConcatOfSingles(r.slots);
    }
  }

  /** Filling the default four slots with digits completes a four-digit code. */
  lemma DigitsComplete(slots: seq<string>, index: nat, value: string)
    requires |slots| == OtpLength && index < |slots|
    requires forall i :: 0 <= i < |slots| && i != index ==> |slots[i]| == 1 && Text.IsDigit(slots[i][0])
    requires value != "" && Text.AllDigits(value)
    ensures var r := HandleChange(slots, index, value, true);
      && r.completed.Some? && |r.completed.value| == 4 && Text.AllDigits(r.completed.value)
  {
    var r := HandleChange(slots, index, value, true);
    assert forall i :: 0 <= i < |r.slots| ==> |r.slots[i]| == 1;
    ConcatOfSingles(r.slots);
    assert r.slots[index][0] == value[|value| - 1];
  }
}
