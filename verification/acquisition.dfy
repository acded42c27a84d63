/** The acquisition node (the bus slave): it takes command frames from the
    console, counts tachometer pulses, turns them into RPM once a second,
    and logs rate-limited rows of readings to a file on the SD card.

    The node is a record of the source's global variables; the receive
    handler, the pulse interrupt and one pass of the main loop are pure
    functions of it. Hardware calls become `Effect`s, the clock is an input,
    and sensor readings arrive as opaque numbers. */
module Acquisition {
  import opened Text
  import opened Protocol
  import Csv

  /** Length of the RPM counting window, in milliseconds. */
  const RpmWindowMs: int := 1000
  /** Minimum spacing of log rows, in milliseconds (the source file's value). */
  const SerialPrintInterval: int := 300
  /** Markers per revolution before any marker command arrives. */
  const DefaultMarkers: int := 1

  /** RPM is a float in the source; a marker count of 0 makes the division
      yield infinity, or NaN when no pulse was seen either. */
  datatype Rpm = Finite(value: real) | Infinity | NotANumber

  /** One log row, in the order of the header's columns. */
  datatype Row = Row(current: real, voltage: real, torque: real, thrust: real, rpm: Rpm, airspeed: real)

  /** Converted sensor values for one pass of the loop. */
  datatype Readings = Readings(current: real, voltage: real, torque: real, thrust: real, airspeed: real)

  /** What one pass of the main loop observes: the clock, whether opening a
      file succeeds, whether both load cells have a fresh sample, and the
      readings. */
  datatype Tick = Tick(now: nat, openOk: bool, sensorsReady: bool, readings: Readings)

  /** What the node does to the outside world. */
  datatype Effect =
    | OpenFile(name: string)
    | AppendLine(text: string)
    | AppendRow(row: Row)
    | CloseFile
    | Calibrate(knownTorque: int, knownThrust: int)

  datatype Node = Node(
    signal: string,          // payload of the last frame
    torqueSignal: string,    // payload of the last 'q' frame
    thrustSignal: string,    // payload of the last 'r' frame
    readingOn: bool,
    stop: bool,
    newFileCreated: bool,    // a file command is pending
    markerSent: bool,        // a marker command is pending
    zero: bool,
    taring: bool,
    markers: int,
    rpm: Rpm,
    objects: nat,            // pulses counted in the current window
    prevSecond: int,         // start of the current window
    seeObject: bool,         // pulse latch set by the interrupt
    lastRowTime: int,        // time of the last row written
    fileOpen: bool)

  datatype Step = Step(node: Node, effects: seq<Effect>)

  /** The command flags a frame can raise. */
  datatype Flag = NewFile | Marker | Zero | Reading | Stopping | Taring

  /** Whether `f` is raised in `s`. */
  predicate Raised(s: Node, f: Flag) {
    match f
    case NewFile => s.newFileCreated
    case Marker => s.markerSent
    case Zero => s.zero
    case Reading => s.readingOn
    case Stopping => s.stop
    case Taring => s.taring
  }

  /** Two nodes agree on everything that is neither a pending flag nor the
      last payload. */
  predicate SameData(a: Node, b: Node) {
    a.torqueSignal == b.torqueSignal && a.thrustSignal == b.thrustSignal &&
    a.markers == b.markers && a.rpm == b.rpm && a.objects == b.objects &&
    a.prevSecond == b.prevSecond && a.seeObject == b.seeObject &&
    a.lastRowTime == b.lastRowTime && a.fileOpen == b.fileOpen
  }

  /** The flag reset at the top of `setup`, which also runs after a file is
      closed. It leaves the marker count, the pulse count, the calibration
      payloads and the clocks alone. */
  function Reset(s: Node): (r: Node)
    ensures forall f :: !Raised(r, f)
    ensures !r.seeObject
    ensures r.signal == "" && r.rpm == Finite(0.0)
    ensures r.markers == s.markers && r.objects == s.objects
    ensures r.torqueSignal == s.torqueSignal && r.thrustSignal == s.thrustSignal
    ensures r.prevSecond == s.prevSecond && r.lastRowTime == s.lastRowTime && r.fileOpen == s.fileOpen
  {
    s.(signal := "", readingOn := false, stop := false, newFileCreated := false,
       markerSent := false, zero := false, taring := false, rpm := Finite(0.0), seeObject := false)
  }

  /** The node after power-on: zero-initialised globals, one marker, then `setup`. */
  function PowerOn(): (r: Node)
    ensures forall f :: !Raised(r, f)
    ensures !r.fileOpen && r.markers == DefaultMarkers
  {
    Reset(Node("", "", "", false, false, false, false, false, false,
               DefaultMarkers, Finite(0.0), 0, 0, false, 0, false))
  }

  /** The bus receive handler: the payload replaces `signal`, then the tag
      raises its flag. Only the payload, the flags and the two calibration
      payloads can change. */
  function Receive(s: Node, frame: string): (r: Node)
    ensures r.signal == Decode(frame).payload
    ensures r.markers == s.markers && r.rpm == s.rpm && r.objects == s.objects
    ensures r.prevSecond == s.prevSecond && r.seeObject == s.seeObject
    ensures r.lastRowTime == s.lastRowTime && r.fileOpen == s.fileOpen
  {
    var m := Decode(frame);
    var t := s.(signal := m.payload);
    if m.tag == FileTag then t.(newFileCreated := true)
    else if m.tag == MarkerTag then t.(markerSent := true)
    else if m.tag == TorqueTag then t.(torqueSignal := m.payload)
    else if m.tag == ThrustTag then t.(thrustSignal := m.payload)
    else if m.tag == ZeroTag then t.(zero := true)
    else if m.tag == BeginTag then t.(readingOn := true)
    else if m.tag == EndTag then t.(stop := true, readingOn := false)
    else if m.tag == TareTag then t.(taring := true)
    else t
  }

  /** The tags that raise one flag each. */
  function FlagOf(tag: char): Flag
    requires tag in {FileTag, MarkerTag, ZeroTag, BeginTag, TareTag}
  {
    if tag == FileTag then NewFile
    else if tag == MarkerTag then Marker
    else if tag == ZeroTag then Zero
    else if tag == BeginTag then Reading
    else Taring
  }

  /** Tag dispatch for the flag tags: 'f', 'm', 'z', 'b' and 't' each raise
      exactly their own flag; nothing but the flags and `signal` changes. */
  lemma DispatchFlag(s: Node, frame: string)
    requires Decode(frame).tag in {FileTag, MarkerTag, ZeroTag, BeginTag, TareTag}
    ensures forall f :: Raised(Receive(s, frame), f) <==> Raised(s, f) || f == FlagOf(Decode(frame).tag)
    ensures SameData(Receive(s, frame), s)
  {
  }

  /** Tag dispatch for 'e': the stop flag goes up and reading goes down. */
  lemma DispatchEnd(s: Node, frame: string)
    requires Decode(frame).tag == EndTag
    ensures forall f :: Raised(Receive(s, frame), f) <==> (Raised(s, f) && f != Reading) || f == Stopping
    ensures SameData(Receive(s, frame), s)
  {
  }

  /** Tag dispatch for 'q' and 'r': the payload becomes the known torque or
      thrust text and no flag moves. */
  lemma DispatchPayload(s: Node, frame: string)
    requires Decode(frame).tag in {TorqueTag, ThrustTag}
    ensures var m := Decode(frame);
      Receive(s, frame) ==
        if m.tag == TorqueTag then s.(signal := m.payload, torqueSignal := m.payload)
        else s.(signal := m.payload, thrustSignal := m.payload)
  {
  }

  /** Tag dispatch for any other tag: only `signal` changes. */
  lemma DispatchUnknown(s: Node, frame: string)
    requires Decode(frame).tag !in {FileTag, MarkerTag, TorqueTag, ThrustTag, ZeroTag, BeginTag, EndTag, TareTag}
    ensures Receive(s, frame) == s.(signal := Decode(frame).payload)
  {
  }

  lemma HasRowConcat(a: seq<Effect>, b: seq<Effect>)
    ensures HasRow(a + b) <==> HasRow(a) || HasRow(b)
  {
    if HasRow(a + b) {
      var i :| 0 <= i < |a + b| && (a + b)[i].AppendRow?;
      if i >= |a| {
        assert b[i - |a|].AppendRow?;
      }
    }
    if HasRow(a) {
      var i :| 0 <= i < |a| && a[i].AppendRow?;
      assert (a + b)[i].AppendRow?;
    }
    if HasRow(b) {
      var i :| 0 <= i < |b| && b[i].AppendRow?;
      assert (a + b)[|a| + i].AppendRow?;
    }
  }

  /** The tachometer interrupt: it only sets the pulse latch. */
  function Count(s: Node): (r: Node)
    ensures r.seeObject && r.(seeObject := s.seeObject) == s
  {
    s.(seeObject := true)
  }

  /** Consuming the latch: one pulse is added exactly when the latch was
      set, and the latch ends up clear. */
  function Increment(s: Node): (r: Node)
    ensures !r.seeObject
    ensures r.objects == if s.seeObject then s.objects + 1 else s.objects
    ensures r.(objects := s.objects, seeObject := s.seeObject) == s
  {
    if s.seeObject then s.(objects := s.objects + 1, seeObject := false) else s
  }

  /** RPM of one window: pulses per marker per second, times sixty. */
  function WindowRpm(objects: nat, markers: int): (r: Rpm)
    ensures markers != 0 ==> r.Finite? && r.value * (markers as real) == (objects as real) * 60.0
    ensures markers == 0 && objects == 0 ==> r.NotANumber?
    ensures markers == 0 && objects > 0 ==> r.Infinity?
  {
    if markers != 0 then Finite((objects as real / markers as real) * 60.0)
    else if objects == 0 then NotANumber
    else Infinity
  }

  /** The one-second window: once a second has passed since the window
      opened, RPM is recomputed, the count restarts and a new window opens
      now; otherwise nothing changes. */
  function CloseWindow(s: Node, now: int): (r: Node)
    ensures now >= s.prevSecond + RpmWindowMs ==>
      r.rpm == WindowRpm(s.objects, s.markers) && r.objects == 0 && r.prevSecond == now
    ensures now < s.prevSecond + RpmWindowMs ==> r == s
    ensures r.(rpm := s.rpm, objects := s.objects, prevSecond := s.prevSecond) == s
  {
    if now >= s.prevSecond + RpmWindowMs then
      s.(rpm := WindowRpm(s.objects, s.markers), objects := 0, prevSecond := now)
    else s
  }

  predicate HasRow(effects: seq<Effect>) {
    exists i :: 0 <= i < |effects| && effects[i].AppendRow?
  }

  /** A row as a line of the log file: the six fields rendered in the
      header's column order and joined with ", ". How numbers are rendered
      is a parameter. */
  function RowLine(row: Row, show: real -> string, showRpm: Rpm -> string): (line: string)
    ensures (forall x :: Csv.NoComma(show(x))) && (forall x :: Csv.NoComma(showRpm(x))) ==>
      Csv.Split(line) == [show(row.current), show(row.voltage), show(row.torque), show(row.thrust),
                          showRpm(row.rpm), show(row.airspeed)]
  {
    var fields := [show(row.current), show(row.voltage), show(row.torque), show(row.thrust),
                   showRpm(row.rpm), show(row.airspeed)];
    assert (forall x :: Csv.NoComma(show(x))) && (forall x :: Csv.NoComma(showRpm(x))) ==>
      Csv.Split(Csv.Join(fields)) == fields
    by {
      if (forall x :: Csv.NoComma(show(x))) && (forall x :: Csv.NoComma(showRpm(x))) {
        forall i | 0 <= i < |fields|
          ensures Csv.NoComma(fields[i])
        {
        }
        Csv.SplitJoin(fields);
      }
    }
    Csv.Join(fields)
  }

  /** Provided rendered numbers hold no comma, a row line reads back as six
      fields, one per column, each the rendering of that column's value. */
  lemma RowLineColumns(row: Row, show: real -> string, showRpm: Rpm -> string)
    requires forall x :: Csv.NoComma(show(x))
    requires forall x :: Csv.NoComma(showRpm(x))
    ensures var fields := Csv.Split(RowLine(row, show, showRpm));
      && |fields| == |Csv.Columns|
      && fields == [show(row.current), show(row.voltage), show(row.torque), show(row.thrust),
                    showRpm(row.rpm), show(row.airspeed)]
  {
    var fields := [show(row.current), show(row.voltage), show(row.torque), show(row.thrust),
                   showRpm(row.rpm), show(row.airspeed)];
    forall i | 0 <= i < |fields|
      ensures Csv.NoComma(fields[i])
    {
    }
    Csv.SplitJoin(fields);
  }

  /** The rate-limited row write: a row only when both load cells have a
      sample and more than the print interval has passed since the last row;
      the row carries the current RPM and restamps the last-row time. */
  function WriteRow(s: Node, tick: Tick): (r: Step)
    ensures HasRow(r.effects) <==> tick.sensorsReady && tick.now > s.lastRowTime + SerialPrintInterval
    ensures HasRow(r.effects) ==>
      r.node == s.(lastRowTime := tick.now) && |r.effects| == 1 && r.effects[0].row.rpm == s.rpm
    ensures HasRow(r.effects) ==>
      r.effects == [AppendRow(Row(tick.readings.current, tick.readings.voltage, tick.readings.torque,
                                  tick.readings.thrust, s.rpm, tick.readings.airspeed))]
    ensures !HasRow(r.effects) ==> r == Step(s, [])
  {
    if tick.sensorsReady && tick.now > s.lastRowTime + SerialPrintInterval then
      var x := tick.readings;
      var row := Row(x.current, x.voltage, x.torque, x.thrust, s.rpm, x.airspeed);
      assert [AppendRow(row)][0].AppendRow?;
      Step(s.(lastRowTime := tick.now), [AppendRow(row)])
    else Step(s, [])
  }

  /** Logging with reading on: the RPM window, then the row, then the latch.
      A row is due exactly when both load cells have a sample and the print
      interval has passed, and it carries the RPM this very pass computed. */
  function Acquire(s: Node, tick: Tick): (r: Step)
    ensures !r.node.seeObject
    ensures HasRow(r.effects) <==> tick.sensorsReady && tick.now > s.lastRowTime + SerialPrintInterval
    ensures HasRow(r.effects) ==>
      r.effects == [AppendRow(Row(tick.readings.current, tick.readings.voltage, tick.readings.torque,
                                  tick.readings.thrust, r.node.rpm, tick.readings.airspeed))]
    ensures r.node.(rpm := s.rpm, objects := s.objects, prevSecond := s.prevSecond,
                    lastRowTime := s.lastRowTime, seeObject := s.seeObject) == s
    ensures HasRow(r.effects) ==> tick.now > s.lastRowTime + SerialPrintInterval && r.node.lastRowTime == tick.now
    ensures !HasRow(r.effects) ==> r.node.lastRowTime == s.lastRowTime && r.effects == []
    ensures tick.now >= s.prevSecond + RpmWindowMs ==>
      && r.node.rpm == WindowRpm(s.objects, s.markers) && r.node.prevSecond == tick.now
      && r.node.objects == (if s.seeObject then 1 else 0)
    ensures tick.now < s.prevSecond + RpmWindowMs ==>
      && r.node.rpm == s.rpm && r.node.prevSecond == s.prevSecond
      && r.node.objects == s.objects + (if s.seeObject then 1 else 0)
  {
    var c := CloseWindow(s, tick.now);
    var w := WriteRow(c, tick);
    assert w.node.(lastRowTime := c.lastRowTime) == c;
    assert w.node.rpm == c.rpm && w.node.objects == c.objects && w.node.prevSecond == c.prevSecond;
    var n := Increment(w.node);
    assert n.rpm == c.rpm && n.prevSecond == c.prevSecond && n.lastRowTime == w.node.lastRowTime;
    Step(n, w.effects)
  }

  /** The log file named after a test number. */
  function FileName(id: string): (name: string)
    ensures |name| == |id| + 9
    ensures name[..5] == "Test_" && name[5..|name| - 4] == id && name[|name| - 4..] == ".csv"
  {
    "Test_" + id + ".csv"
  }

  /** Pending commands: a file command wins over a marker command in the
      same pass, and each is cleared once handled. A new file starts with
      the header row. */
  function HandleCommands(s: Node, openOk: bool): (r: Step)
    ensures s.newFileCreated ==>
      && r.node == s.(newFileCreated := false, fileOpen := openOk)
      && r.effects == (if openOk then [OpenFile(FileName(s.signal)), AppendLine(Csv.Header)] else [])
    ensures !s.newFileCreated && s.markerSent ==>
      r == Step(s.(markers := ToInt(s.signal), markerSent := false), [])
    ensures !s.newFileCreated && !s.markerSent ==> r == Step(s, [])
  {
    if s.newFileCreated then
      var header := if openOk then [OpenFile(FileName(s.signal)), AppendLine(Csv.Header)] else [];
      Step(s.(newFileCreated := false, fileOpen := openOk), header)
    else if s.markerSent then
      Step(s.(markers := ToInt(s.signal), markerSent := false), [])
    else
      Step(s, [])
  }

  /** One pass of the main loop as the source writes it.

      Taring gates everything: while taring, the only effect is the
      calibration, once `zero` is set, which then lowers both flags. At most
      one pulse is counted per pass, and only while a file is open and
      reading is on. A row is written only more than the print interval
      after the previous one. */
  function LoopAsWritten(s: Node, tick: Tick): (r: Step)
    ensures s.taring && s.zero ==>
      r == Step(s.(zero := false, taring := false), [Calibrate(ToInt(s.torqueSignal), ToInt(s.thrustSignal))])
    ensures s.taring && !s.zero ==> r == Step(s, [])
    ensures r.node.objects <= s.objects + 1
    ensures r.node.objects == s.objects + 1 ==>
      s.seeObject && !s.taring && r.node.fileOpen && r.node.readingOn && !r.node.seeObject
    ensures HasRow(r.effects) ==>
      tick.now > s.lastRowTime + SerialPrintInterval && r.node.lastRowTime == tick.now
    ensures !HasRow(r.effects) ==> r.node.lastRowTime == s.lastRowTime
    ensures HasRow(r.effects) ==> s.readingOn && !s.taring && r.node.fileOpen
  {
    if s.taring then
      if s.zero then
        Step(s.(zero := false, taring := false), [Calibrate(ToInt(s.torqueSignal), ToInt(s.thrustSignal))])
      else
        Step(s, [])
    else
      var c := HandleCommands(s, tick.openOk);
      assert !HasRow(c.effects);
      if !c.node.fileOpen then c
      else if c.node.readingOn then
        var a := Acquire(c.node, tick);
        HasRowConcat(c.effects, a.effects);
        Step(a.node, c.effects + a.effects)
      else if c.node.stop then
        HasRowConcat(c.effects, [CloseFile]);
        Step(Reset(c.node).(fileOpen := false), c.effects + [CloseFile])
      else c
  }

  /** One pass of the main loop, with a stop that arrives while no file is
      open discarded instead of latched (see the findings in README.md); in
      every other respect it is the pass as written. */
  function Loop(s: Node, tick: Tick): (r: Step)
    ensures s.taring && s.zero ==>
      r == Step(s.(zero := false, taring := false), [Calibrate(ToInt(s.torqueSignal), ToInt(s.thrustSignal))])
    ensures s.taring && !s.zero ==> r == Step(s, [])
    ensures r.node.objects <= s.objects + 1
    ensures r.node.objects == s.objects + 1 ==>
      s.seeObject && !s.taring && r.node.fileOpen && r.node.readingOn && !r.node.seeObject
    ensures HasRow(r.effects) ==>
      tick.now > s.lastRowTime + SerialPrintInterval && r.node.lastRowTime == tick.now
    ensures !HasRow(r.effects) ==> r.node.lastRowTime == s.lastRowTime
    ensures HasRow(r.effects) ==> s.readingOn && !s.taring && r.node.fileOpen
    ensures !s.taring && !r.node.fileOpen ==> !r.node.stop
    ensures r.effects == LoopAsWritten(s, tick).effects
    ensures r.node == LoopAsWritten(s, tick).node.(stop := r.node.stop)
  {
    var w := LoopAsWritten(s, tick);
    if !s.taring && !w.node.fileOpen && w.node.stop then Step(w.node.(stop := false), w.effects) else w
  }

  /** Events reaching the node between and during passes of the main loop:
      a bus frame, a falling edge on the tachometer pin, or one pass. */
  datatype Event = Frame(bytes: string) | Edge | Pass(tick: Tick)

  function Apply(s: Node, e: Event): (r: Step)
    ensures HasRow(r.effects) ==>
      e.Pass? && e.tick.now > s.lastRowTime + SerialPrintInterval && r.node.lastRowTime == e.tick.now
    ensures !HasRow(r.effects) ==> r.node.lastRowTime == s.lastRowTime
  {
    match e
    case Frame(bytes) => Step(Receive(s, bytes), [])
    case Edge => Step(Count(s), [])
    case Pass(tick) => Loop(s, tick)
  }

  /** The times of the passes that wrote a row, in order. */
  function RowTimes(s: Node, events: seq<Event>): seq<int>
    decreases |events|
  {
    if |events| == 0 then []
    else
      var st := Apply(s, events[0]);
      (if events[0].Pass? && HasRow(st.effects) then [events[0].tick.now] else []) +
      RowTimes(st.node, events[1..])
  }

  /** Rate limiting over any run: consecutive rows are more than the print
      interval apart, and the first is more than the interval after the
      last row before the run. No monotone clock is needed for this. */
  lemma {:induction false} RowsSpaced(s: Node, events: seq<Event>)
    ensures var ts := RowTimes(s, events);
      && (|ts| > 0 ==> ts[0] > s.lastRowTime + SerialPrintInterval)
      && (forall i :: 0 < i < |ts| ==> ts[i] > ts[i - 1] + SerialPrintInterval)
    decreases |events|
  {
    if |events| > 0 {
      var st := Apply(s, events[0]);
      var rest := RowTimes(st.node, events[1..]);
      RowsSpaced(st.node, events[1..]);
      if events[0].Pass? && HasRow(st.effects) {
        assert RowTimes(s, events) == [events[0].tick.now] + rest;
      } else {
        assert RowTimes(s, events) == rest;
      }
    }
  }

  /** Stop handling: with a file open, reading off and a stop pending, the
      pass closes the file and runs the flag reset, and nothing else. */
  lemma StopClosesSession(s: Node, tick: Tick)
    requires !s.taring && !s.newFileCreated && !s.markerSent
    requires s.fileOpen && !s.readingOn && s.stop
    ensures Loop(s, tick) == Step(Reset(s).(fileOpen := false), [CloseFile])
  {
  }

  /** A file command and a marker command pending together: the file is
      opened, with its header first, and the marker count is not touched in
      that pass; the marker command stays pending unless the pass closes the
      session. */
  lemma FileBeforeMarker(s: Node, tick: Tick)
    requires !s.taring && s.newFileCreated && s.markerSent && tick.openOk
    ensures var r := Loop(s, tick);
      && |r.effects| >= 2
      && r.effects[..2] == [OpenFile(FileName(s.signal)), AppendLine(Csv.Header)]
      && r.node.markers == s.markers
      && (s.readingOn || !s.stop ==> r.node.markerSent)
  {
    var c := HandleCommands(s, tick.openOk);
    assert c.effects == [OpenFile(FileName(s.signal)), AppendLine(Csv.Header)];
    if s.readingOn {
      var a := Acquire(c.node, tick);
      assert (c.effects + a.effects)[..2] == c.effects;
    } else if s.stop {
      assert (c.effects + [CloseFile])[..2] == c.effects;
    }
  }

  /** A node that is logging: not taring, a file open, reading on, and no
      file or marker command pending. */
  predicate Logging(s: Node) {
    !s.taring && s.fileOpen && s.readingOn && !s.newFileCreated && !s.markerSent
  }

  /** Passes each preceded by one tachometer edge. */
  function PulsedPasses(s: Node, ticks: seq<Tick>): Node
    decreases |ticks|
  {
    if |ticks| == 0 then s else PulsedPasses(Loop(Count(s), ticks[0]).node, ticks[1..])
  }

  /** One pulse per pass is counted while the window stays open, and the
      node keeps logging with the same window and marker count. */
  lemma {:induction false} PulsesCounted(s: Node, ticks: seq<Tick>)
    requires Logging(s)
    requires forall i :: 0 <= i < |ticks| ==> ticks[i].now < s.prevSecond + RpmWindowMs
    ensures var r := PulsedPasses(s, ticks);
      && Logging(r) && r.objects == s.objects + |ticks|
      && r.prevSecond == s.prevSecond && r.markers == s.markers
      && (|ticks| > 0 ==> !r.seeObject)
    decreases |ticks|
  {
    if |ticks| > 0 {
      var c := Count(s);
      var a := Acquire(c, ticks[0]);
      assert Loop(c, ticks[0]).node == a.node;
      assert a.node.objects == s.objects + 1;
      PulsesCounted(a.node, ticks[1..]);
    }
  }

  /** The one-window scenario: forty pulses with four markers, then a pass
      after the window has run out, gives 600 RPM and a fresh count. */
  lemma FortyPulsesFourMarkers(s: Node, ticks: seq<Tick>, last: Tick)
    requires Logging(s) && s.objects == 0 && s.markers == 4
    requires |ticks| == 40
    requires forall i :: 0 <= i < |ticks| ==> ticks[i].now < s.prevSecond + RpmWindowMs
    requires last.now >= s.prevSecond + RpmWindowMs
    ensures var r := Loop(PulsedPasses(s, ticks), last);
      r.node.rpm == Finite(600.0) && r.node.objects == 0 && r.node.prevSecond == last.now
  {
    PulsesCounted(s, ticks);
    var p := PulsedPasses(s, ticks);
    assert WindowRpm(40, 4) == Finite(600.0);
    assert Loop(p, last).node == Acquire(p, last).node;
  }

  /** A pass of a logging node writes exactly one row when one is due, and
      that row holds this tick's readings with the RPM the pass leaves. */
  lemma LoggingPassWritesRow(s: Node, tick: Tick)
    requires Logging(s) && tick.sensorsReady && tick.now > s.lastRowTime + SerialPrintInterval
    ensures var r := Loop(s, tick);
      r.effects == [AppendRow(Row(tick.readings.current, tick.readings.voltage, tick.readings.torque,
                                  tick.readings.thrust, r.node.rpm, tick.readings.airspeed))]
  {
    var a := Acquire(s, tick);
    assert LoopAsWritten(s, tick) == a;
  }

  /** The one-window scenario as logged: when the pass that closes the
      window of forty pulses with four markers is due for a row, that row
      records 600 RPM. */
  lemma FortyPulsesLogged(s: Node, ticks: seq<Tick>, last: Tick)
    requires Logging(s) && s.objects == 0 && s.markers == 4
    requires |ticks| == 40
    requires forall i :: 0 <= i < |ticks| ==> ticks[i].now < s.prevSecond + RpmWindowMs
    requires last.now >= s.prevSecond + RpmWindowMs
    requires last.sensorsReady && last.now > PulsedPasses(s, ticks).lastRowTime + SerialPrintInterval
    ensures Loop(PulsedPasses(s, ticks), last).effects ==
      [AppendRow(Row(last.readings.current, last.readings.voltage, last.readings.torque,
                     last.readings.thrust, Finite(600.0), last.readings.airspeed))]
  {
    FortyPulsesFourMarkers(s, ticks, last);
    PulsesCounted(s, ticks);
    LoggingPassWritesRow(PulsedPasses(s, ticks), last);
  }

  /** The stop latch as written: an 'e' that arrives while no file is open
      stays pending, so the next file command opens a file that the same
      pass closes again; the session it was meant for logs nothing. */
  lemma StaleStopClosesNextSession(s: Node, t1: Tick, id: string, t2: Tick)
    requires !s.taring && !s.fileOpen && !s.newFileCreated && !s.markerSent
    requires t2.openOk
    ensures var n1 := LoopAsWritten(Receive(s, Encode(Message(EndTag, ""))), t1).node;
      var r := LoopAsWritten(Receive(n1, Encode(Message(FileTag, id))), t2);
      && n1.stop
      && r.effects == [OpenFile(FileName(id)), AppendLine(Csv.Header), CloseFile]
      && !r.node.fileOpen
  {
    var n0 := Receive(s, Encode(Message(EndTag, "")));
    assert n0.stop && !n0.readingOn;
    var n1 := LoopAsWritten(n0, t1).node;
    assert n1 == n0;
    var n2 := Receive(n1, Encode(Message(FileTag, id)));
    assert n2.newFileCreated && n2.signal == id && n2.stop && !n2.readingOn && !n2.taring;
  }

  /** The corrected stop: with no file open (and not taring), a pending stop
      is dropped and nothing else happens. */
  lemma StopWithoutFileIsDiscarded(s: Node, tick: Tick)
    requires !s.taring && !s.fileOpen && !s.newFileCreated && !s.markerSent
    ensures Loop(s, tick) == Step(s.(stop := false), [])
  {
  }

  /** With the corrected stop, the same sequence keeps the new file open. */
  lemma SessionSurvivesStaleStop(s: Node, t1: Tick, id: string, t2: Tick)
    requires !s.taring && !s.fileOpen && !s.newFileCreated && !s.markerSent
    requires t2.openOk
    ensures var n1 := Loop(Receive(s, Encode(Message(EndTag, ""))), t1).node;
      var r := Loop(Receive(n1, Encode(Message(FileTag, id))), t2);
      && !n1.stop
      && r.effects == [OpenFile(FileName(id)), AppendLine(Csv.Header)]
      && r.node.fileOpen
  {
    var n0 := Receive(s, Encode(Message(EndTag, "")));
    assert n0.stop && !n0.readingOn;
    StopWithoutFileIsDiscarded(n0, t1);
    var n1 := Loop(n0, t1).node;
    var n2 := Receive(n1, Encode(Message(FileTag, id)));
    assert n2.newFileCreated && n2.signal == id && !n2.stop && !n2.readingOn && !n2.taring;
  }
}
