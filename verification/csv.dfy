/** The log file's line format: fields separated by a comma and a space. */
module Csv {

  /** The column names of the header row, in order. */
  const Columns: seq<string> := ["Current", "Voltage", "Torque", "Thrust", "RPM", "Airspeed"]

  /** The header row the acquisition node writes first into every new file. */
  const Header: string := Join(Columns)

  predicate NoComma(s: string) {
    forall i :: 0 <= i < |s| ==> s[i] != ','
  }

  /** The fields written one after the other with ", " between neighbours. */
  function Join(fields: seq<string>): (line: string)
    ensures |fields| == 1 ==> line == fields[0]
  {
    if |fields| == 0 then ""
    else if |fields| == 1 then fields[0]
    else fields[0] + ", " + Join(fields[1..])
  }

  /** The position of the first comma in `s`, or `|s|` if there is none. */
  function FirstComma(s: string): (k: nat)
    ensures k <= |s|
    ensures k < |s| ==> s[k] == ','
    ensures forall i :: 0 <= i < k ==> s[i] != ','
  {
    if |s| == 0 || s[0] == ',' then 0 else 1 + FirstComma(s[1..])
  }

  /** The reader's side of the format: cut at each comma and drop the one
      space that follows it. */
  function Split(line: string): (fields: seq<string>)
    ensures |fields| >= 1
    decreases |line|
  {
    var k := FirstComma(line);
    if k == |line| then [line]
    else
      var rest := line[k + 1..];
      [line[..k]] + Split(if |rest| > 0 && rest[0] == ' ' then rest[1..] else rest)
  }

  /** Splitting a joined line gives back the fields, provided no field holds
      a comma (numbers and the column names never do). */
  lemma {:induction false} SplitJoin(fields: seq<string>)
    requires |fields| >= 1
    requires forall i :: 0 <= i < |fields| ==> NoComma(fields[i])
    ensures Split(Join(fields)) == fields
  {
    var line := Join(fields);
    if |fields| == 1 {
      assert FirstComma(line) == |line| by { FirstCommaOf(fields[0], ""); }
    } else {
      var tail := Join(fields[1..]);
      assert line == fields[0] + (", " + tail);
      FirstCommaOf(fields[0], ", " + tail);
      assert line[|fields[0]| + 1..] == " " + tail;
      SplitJoin(fields[1..]);
      assert line[..|fields[0]|] == fields[0];
      assert [fields[0]] + fields[1..] == fields;
    }
  }

  /** A comma-free head does not move the first comma of what follows it. */
  lemma {:induction false} FirstCommaOf(head: string, tail: string)
    requires NoComma(head)
    requires |tail| == 0 || tail[0] == ','
    ensures FirstComma(head + tail) == |head|
  {
    if |head| > 0 {
      assert (head + tail)[1..] == head[1..] + tail;
      FirstCommaOf(head[1..], tail);
    } else {
      assert head + tail == tail;
    }
  }


  /** The header row reads back as the six column names. */
  lemma HeaderColumns()
    ensures Split(Header) == Columns && |Split(Header)| == 6
  {
    forall i | 0 <= i < |Columns|
      ensures NoComma(Columns[i])
    {
    }
    SplitJoin(Columns);
  }
}
