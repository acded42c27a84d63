/** Keypad entry on the console: a row of text fields with a cursor, filled
    one digit at a time. The same mechanism serves the four test parameters
    (test number, maximum throttle, increment, markers) and the two known
    calibration loads (torque, thrust). */
module Entry {
  import opened Text

  const EnterKey: char := '#'
  const BackKey: char := 'D'

  datatype Kind = Parameters | Tare

  function FieldCount(k: Kind): nat {
    if k == Parameters then 4 else 2
  }

  /** How many digits the field under the cursor takes: 3 for the test
      number, 4 for the maximum throttle, 2 for the increment and the markers
      and none past the last parameter; 2 in tare mode wherever the cursor is. */
  function DigitLimit(k: Kind, index: int): nat {
    if k == Tare then 2
    else if index == 0 then 3
    else if index == 1 then 4
    else if index == 2 || index == 3 then 2
    else 0
  }

  /** Committed values and the cursor. */
  datatype Form = Form(values: seq<string>, index: int)

  /** A form together with the text typed so far. */
  datatype Entering = Entering(form: Form, input: string)

  /** An access outside the fields: what the source does there is undefined. */
  datatype Outcome<T> = Ok(value: T) | OutOfBounds(index: int)

  /** Every field empty, cursor on the first. */
  function Blank(k: Kind): (f: Form)
    ensures |f.values| == FieldCount(k) && f.index == 0
    ensures forall i :: 0 <= i < |f.values| ==> f.values[i] == ""
  {
    Form(seq(FieldCount(k), _ => ""), 0)
  }

  /** Whether every field holds something; the gate for sending. */
  predicate AllEntered(values: seq<string>) {
    forall i :: 0 <= i < |values| ==> values[i] != ""
  }

  /** The source's scan for an empty field, returning at the first one. */
  method AllEnteredScan(values: seq<string>) returns (entered: bool)
    ensures entered <==> AllEntered(values)
  {
    var i := 0;
    while i < |values|
      invariant 0 <= i <= |values|
      invariant forall j :: 0 <= j < i ==> values[j] != ""
    {
      if values[i] == "" {
        return false;
      }
      i := i + 1;
    }
    return true;
  }

  /** The most text the input can hold at a cursor position: the field's own
      limit, and past the last field that of the last field, whose text the
      summary screen keeps. */
  function InputBound(k: Kind, index: int): nat {
    if index < FieldCount(k) then DigitLimit(k, index) else DigitLimit(k, FieldCount(k) - 1)
  }

  /** The shape every reachable entry state has: the right number of
      fields, the cursor on a field or just past the last, and only digits
      within each field's limit. */
  predicate Valid(k: Kind, e: Entering) {
    && |e.form.values| == FieldCount(k)
    && 0 <= e.form.index <= FieldCount(k)
    && (forall i :: 0 <= i < FieldCount(k) ==>
          AllDigits(e.form.values[i]) && |e.form.values[i]| <= DigitLimit(k, i))
    && AllDigits(e.input)
    && |e.input| <= InputBound(k, e.form.index)
  }

  /** A digit key: appended only while the input is below the field's
      limit, otherwise ignored. */
  function TypeDigit(e: Entering, k: Kind, key: char): (r: Entering)
    requires IsDigit(key)
    ensures r.form == e.form
    ensures |e.input| < DigitLimit(k, e.form.index) ==> r.input == e.input + [key]
    ensures |e.input| >= DigitLimit(k, e.form.index) ==> r.input == e.input
    ensures |r.input| <= if |e.input| < DigitLimit(k, e.form.index) then DigitLimit(k, e.form.index) else |e.input|
  {
    if |e.input| < DigitLimit(k, e.form.index) then e.(input := e.input + [key]) else e
  }

  /** ENTER as written: the input is stored at the cursor without a bounds
      check and the cursor moves on; the screen is redrawn, clearing the
      input, unless the cursor has passed the last field. */
  function CommitAsWritten(e: Entering): (r: Outcome<Entering>)
    ensures r.OutOfBounds? <==> !(0 <= e.form.index < |e.form.values|)
    ensures r.OutOfBounds? ==> r.index == e.form.index
  {
    var f := e.form;
    if 0 <= f.index < |f.values| then
      var next := f.index + 1;
      Ok(Entering(Form(f.values[f.index := e.input], next), if next >= |f.values| then e.input else ""))
    else
      OutOfBounds(f.index)
  }

  /** ENTER, corrected: the same as written while the cursor is on a field,
      and ignored once it has passed the last one. It stores the input at
      the cursor, changes no other field and advances the cursor by one. */
  function Commit(e: Entering): (r: Entering)
    ensures 0 <= e.form.index < |e.form.values| ==>
      && CommitAsWritten(e) == Ok(r)
      && r.form.values == e.form.values[e.form.index := e.input]
      && r.form.index == e.form.index + 1
    ensures !(0 <= e.form.index < |e.form.values|) ==> r == e
  {
    match CommitAsWritten(e)
    case Ok(next) => next
    case OutOfBounds(_) => e
  }

  /** What the entry screen shows after a redraw: the field under the
      cursor with its stored value, or the prompt to send once the cursor
      has passed the last field. */
  datatype Screen = FieldScreen(index: nat, value: string) | SendPrompt

  /** The redraw as written: it prints the name and stored value at the
      cursor, wherever the cursor is. */
  function RedrawAsWritten(f: Form): (r: Outcome<Screen>)
    ensures r.OutOfBounds? <==> !(0 <= f.index < |f.values|)
    ensures r.OutOfBounds? ==> r.index == f.index
    ensures r.Ok? ==> r.value == FieldScreen(f.index, f.values[f.index])
  {
    if 0 <= f.index < |f.values| then Ok(FieldScreen(f.index, f.values[f.index]))
    else OutOfBounds(f.index)
  }

  /** The redraw, corrected: the field under the cursor when there is one,
      and otherwise the prompt to send. It agrees with the redraw as
      written wherever that stays within the fields. */
  function Redraw(f: Form): (r: Screen)
    ensures 0 <= f.index < |f.values| ==> RedrawAsWritten(f) == Ok(r)
    ensures r.FieldScreen? ==> r.index < |f.values| && r.value == f.values[r.index]
    ensures !(0 <= f.index < |f.values|) ==> r == SendPrompt
  {
    match RedrawAsWritten(f)
    case Ok(screen) => screen
    case OutOfBounds(_) => SendPrompt
  }

  /** BACK as written: the cursor moves back one, with no lower bound, and
      the screen is redrawn at the new cursor, which clears the input; on
      the first field that redraw reads before the start of the arrays. */
  function RetreatAsWritten(e: Entering): (r: Outcome<Entering>)
    ensures r.OutOfBounds? <==> !(0 <= e.form.index - 1 < |e.form.values|)
    ensures r.OutOfBounds? ==> r.index == e.form.index - 1
    ensures r.Ok? ==>
      r.value.form.values == e.form.values && r.value.form.index == e.form.index - 1 && r.value.input == ""
  {
    var f := e.form.(index := e.form.index - 1);
    match RedrawAsWritten(f)
    case Ok(_) => Ok(Entering(f, ""))
    case OutOfBounds(i) => OutOfBounds(i)
  }

  /** BACK, corrected: the cursor moves back one and the input is cleared,
      except that the first field stays put. No stored value changes, and
      from any cursor position on the fields or just past them it is the
      press as written. */
  function Retreat(e: Entering): (r: Entering)
    ensures 0 < e.form.index <= |e.form.values| ==> RetreatAsWritten(e) == Ok(r)
    ensures e.form.index > 0 ==> r.form.index == e.form.index - 1
    ensures e.form.index <= 0 ==> r.form.index == e.form.index
    ensures r.form.values == e.form.values && r.input == ""
  {
    if e.form.index > 0 then Entering(e.form.(index := e.form.index - 1), "") else e.(input := "")
  }

  /** A key press as written; a read or write outside the fields is
      reported. */
  function PressAsWritten(e: Entering, k: Kind, key: char): (r: Outcome<Entering>)
    ensures r.OutOfBounds? <==>
      || (key == EnterKey && e.input != "" && !(0 <= e.form.index < |e.form.values|))
      || (key == BackKey && !(0 <= e.form.index - 1 < |e.form.values|))
    ensures r.Ok? && !(key == EnterKey && e.input != "") ==> r.value.form.values == e.form.values
    ensures r.Ok? && IsDigit(key) ==> r.value.form == e.form
  {
    if IsDigit(key) then Ok(TypeDigit(e, k, key))
    else if key == EnterKey && e.input != "" then CommitAsWritten(e)
    else if key == BackKey then RetreatAsWritten(e)
    else Ok(e)
  }

  /** A key press with the corrected ENTER and BACK. Every key keeps the
      entry state valid: the cursor stays on the fields, and no field or
      input outgrows its limit. Where the press as written stays within the
      fields, the corrected press does the same thing. */
  function Press(e: Entering, k: Kind, key: char): (r: Entering)
    ensures Valid(k, e) ==> Valid(k, r)
    ensures PressAsWritten(e, k, key).Ok? ==> PressAsWritten(e, k, key) == Ok(r)
  {
    if IsDigit(key) then TypeDigit(e, k, key)
    else if key == EnterKey && e.input != "" then Commit(e)
    else if key == BackKey then Retreat(e)
    else e
  }

  /** The navigation keys: ENTER does nothing on empty input and otherwise
      stores the input at the cursor and advances by exactly one; BACK never
      changes a stored value. */
  lemma NavigationKeys(e: Entering, k: Kind)
    ensures e.input == "" ==> Press(e, k, EnterKey) == e
    ensures e.input != "" && 0 <= e.form.index < |e.form.values| ==>
      && Press(e, k, EnterKey).form.values == e.form.values[e.form.index := e.input]
      && Press(e, k, EnterKey).form.index == e.form.index + 1
    ensures Press(e, k, BackKey).form.values == e.form.values
    ensures Press(e, k, BackKey).input == ""
  {
  }

  function PressAllAsWritten(e: Entering, k: Kind, keys: string): Outcome<Entering>
    decreases |keys|
  {
    if |keys| == 0 then Ok(e)
    else
      match PressAsWritten(e, k, keys[0])
      case Ok(next) => PressAllAsWritten(next, k, keys[1..])
      case OutOfBounds(i) => OutOfBounds(i)
  }

  function PressAll(e: Entering, k: Kind, keys: string): Entering
    decreases |keys|
  {
    if |keys| == 0 then e else PressAll(Press(e, k, keys[0]), k, keys[1..])
  }

  /** Whatever keys are pressed, the corrected entry stays valid. */
  lemma {:induction false} PressAllValid(e: Entering, k: Kind, keys: string)
    requires Valid(k, e)
    ensures Valid(k, PressAll(e, k, keys))
    decreases |keys|
  {
    if |keys| > 0 {
      PressAllValid(Press(e, k, keys[0]), k, keys[1..]);
    }
  }

  /** Finding, as written: four parameters typed and entered, then ENTER once
      more writes the fifth element of a four-element array. */
  lemma ParamOverrun()
    ensures PressAllAsWritten(Entering(Blank(Parameters), ""), Parameters, "1#1#1#1##") == OutOfBounds(4)
  {
    var e0 := Entering(Blank(Parameters), "");
    var e1 := Entering(Form(["1", "", "", ""], 1), "");
    var e2 := Entering(Form(["1", "1", "", ""], 2), "");
    var e3 := Entering(Form(["1", "1", "1", ""], 3), "");
    var e4 := Entering(Form(["1", "1", "1", "1"], 4), "1");
    assert PressAllAsWritten(e4, Parameters, "#") == OutOfBounds(4);
    assert PressAllAsWritten(e3, Parameters, "1##") == PressAllAsWritten(e4, Parameters, "#") by {
      assert "1##"[1..] == "##";
      assert "##"[1..] == "#";
    }
    assert PressAllAsWritten(e2, Parameters, "1#1##") == PressAllAsWritten(e3, Parameters, "1##") by {
      assert "1#1##"[1..] == "#1##";
      assert "#1##"[1..] == "1##";
    }
    assert PressAllAsWritten(e1, Parameters, "1#1#1##") == PressAllAsWritten(e2, Parameters, "1#1##") by {
      assert "1#1#1##"[1..] == "#1#1##";
      assert "#1#1##"[1..] == "1#1##";
    }
    assert PressAllAsWritten(e0, Parameters, "1#1#1#1##") == PressAllAsWritten(e1, Parameters, "1#1#1##") by {
      assert e0.form.values == ["", "", "", ""];
      assert "1#1#1#1##"[1..] == "#1#1#1##";
      assert "#1#1#1##"[1..] == "1#1#1##";
    }
  }

  /** Finding, as written: in tare mode BACK on the first field moves the
      cursor to -1, and its redraw already reads before the start of the
      arrays; digits are still accepted there, and ENTER writes before the
      start of the array. */
  lemma TareUnderrun()
    ensures PressAsWritten(Entering(Blank(Tare), ""), Tare, BackKey) == OutOfBounds(-1)
    ensures PressAllAsWritten(Entering(Blank(Tare).(index := -1), ""), Tare, "5#") == OutOfBounds(-1)
  {
    var e1 := Entering(Blank(Tare).(index := -1), "");
    var e2 := e1.(input := "5");
    assert PressAllAsWritten(e2, Tare, "#") == OutOfBounds(-1);
    assert PressAllAsWritten(e1, Tare, "5#") == PressAllAsWritten(e2, Tare, "#") by {
      assert "5#"[1..] == "#";
    }
  }

  /** Finding, as written: on the parameter screen, once BACK has taken
      the cursor to -1, no key brings it back onto the fields. Digits are
      ignored there, so ENTER has no input to store, and every other key
      either leaves the entry unchanged or reads further out of bounds. */
  lemma ParamCursorStuck(e: Entering, key: char)
    requires e.form.index == -1 && e.input == ""
    ensures PressAsWritten(e, Parameters, key) == Ok(e) || PressAsWritten(e, Parameters, key).OutOfBounds?
  {
  }

  /** The corrected keys on the same sequences keep the cursor on the
      fields: the extra ENTER is ignored and BACK on the first field stays
      there. */
  lemma CorrectedKeysStayInBounds()
    ensures Valid(Parameters, PressAll(Entering(Blank(Parameters), ""), Parameters, "1#1#1#1##"))
    ensures Valid(Tare, PressAll(Entering(Blank(Tare), ""), Tare, "D5#"))
  {
    assert Valid(Parameters, Entering(Blank(Parameters), ""));
    assert Valid(Tare, Entering(Blank(Tare), ""));
    PressAllValid(Entering(Blank(Parameters), ""), Parameters, "1#1#1#1##");
    PressAllValid(Entering(Blank(Tare), ""), Tare, "D5#");
  }
}
