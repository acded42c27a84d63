/** The command frames the console sends the acquisition node over the bus:
    one tag byte followed by the payload bytes, decimal text where the
    payload is a number. */
module Protocol {

  const FileTag: char := 'f'     // open a log file named after the payload
  const MarkerTag: char := 'm'   // set the marker count used for RPM
  const TorqueTag: char := 'q'   // known torque for calibration
  const ThrustTag: char := 'r'   // known thrust for calibration
  const ZeroTag: char := 'z'     // run the calibration
  const BeginTag: char := 'b'    // start logging
  const EndTag: char := 'e'      // stop logging and close the file
  const TareTag: char := 't'     // enter taring mode

  /** What the first read of an empty frame yields: `Wire.read()` returns -1,
      which as a `char` is the byte 0xFF. It is no known tag. */
  const NoByte: char := '\U{FF}'

  datatype Message = Message(tag: char, payload: string)

  /** The console's frame: the tag, then the payload. Decoding the frame
      gives back exactly what was encoded. */
  function Encode(m: Message): (frame: string)
    ensures |frame| == |m.payload| + 1
    ensures Decode(frame) == m
  {
    [m.tag] + m.payload
  }

  /** The acquisition node's reading of a frame: the first byte is the tag
      and the remaining bytes, in order, the payload. Every non-empty frame
      is the encoding of what it decodes to. */
  function Decode(frame: string): (m: Message)
    ensures |frame| > 0 ==> [m.tag] + m.payload == frame
    ensures |frame| == 0 ==> m == Message(NoByte, "")
  {
    if |frame| == 0 then Message(NoByte, "") else Message(frame[0], frame[1..])
  }

  /** The receive handler's byte loop: one read for the tag, then one append
      per remaining byte while bytes are available. */
  method ReadFrame(frame: string) returns (tag: char, payload: string)
    ensures Message(tag, payload) == Decode(frame)
    ensures |payload| == if |frame| == 0 then 0 else |frame| - 1
  {
    payload := "";
    if |frame| == 0 {
      tag := NoByte;
      return;
    }
    tag := frame[0];
    var i := 1;
    while i < |frame|
      invariant 1 <= i <= |frame|
      invariant payload == frame[1..i]
    {
      payload := payload + [frame[i]];
      i := i + 1;
    }
  }
}
