/** The operator console (the bus master): keypad entry of the calibration
    loads and the test parameters, the frames it sends the acquisition node,
    the throttle ramp, and the emergency stop.

    The console is a record of the source's global variables; the stop
    button's interrupt and one pass of the main loop are pure functions of
    it. Bus writes become `Frame` outputs and speed-controller writes become
    `Pulse` outputs; the pressed key and the clock are inputs. */
module Console {
  import opened Text
  import opened Protocol
  import opened Entry
  import opened Throttle

  const SendKey: char := '*'
  const TareKey: char := 'B'
  /** What the keypad reports when no key is pressed. */

  /** Parameter fields, in order. */
  const TestNumber: nat := 0
  const MaxThrottle: nat := 1
  const IncrementField: nat := 2
  const MarkerField: nat := 3
  /** Tare fields, in order. */
  const KnownTorque: nat := 0
  const KnownThrust: nat := 1

  datatype Output = Frame(bytes: string) | Pulse(width: int)

  datatype Console = Console(
    input: string,            // digits typed into the field under the cursor
    params: Form,             // test number, max throttle, increment, markers
    tare: Form,               // known torque, known thrust
    tared: bool,
    startMotor: bool,
    interrupted: bool,
    throttleIncrement: int,   // the increment in percent
    ramp: Ramp)

  datatype Step = Step(state: Console, out: seq<Output>)

  /** The fixed sizes of the two field arrays. */
  predicate Shaped(s: Console) {
    |s.params.values| == FieldCount(Parameters) && |s.tare.values| == FieldCount(Tare)
  }

  function Pulses(ws: seq<int>): (out: seq<Output>)
    ensures |out| == |ws|
    ensures forall i :: 0 <= i < |ws| ==> out[i] == Pulse(ws[i])
  {
    seq(|ws|, i requires 0 <= i < |ws| => Pulse(ws[i]))
  }

  function Send(tag: char, payload: string): Output {
    Frame(Encode(Message(tag, payload)))
  }

  /** The console tags and the longest frame the keypad limits allow: a
      tag and at most three digits, far below the bus buffer. */
  predicate FrameOk(bytes: string) {
    && 1 <= |bytes| <= 4
    && bytes[0] in {FileTag, MarkerTag, TorqueTag, ThrustTag, ZeroTag, BeginTag, EndTag, TareTag}
    && AllDigits(bytes[1..])
  }

  /** Widths within [1000, 2000] and well-formed frames. */
  predicate OutputOk(o: Output) {
    match o
    case Pulse(w) => MinThrottle <= w <= CeilingLimit
    case Frame(bytes) => FrameOk(bytes)
  }

  predicate OutputsOk(out: seq<Output>) {
    forall i :: 0 <= i < |out| ==> OutputOk(out[i])
  }

  lemma OutputsOkConcat(a: seq<Output>, b: seq<Output>)
    ensures OutputsOk(a + b) <==> OutputsOk(a) && OutputsOk(b)
  {
    if OutputsOk(a) && OutputsOk(b) {
      forall i | 0 <= i < |a + b|
        ensures OutputOk((a + b)[i])
      {
        if i >= |a| {
          assert (a + b)[i] == b[i - |a|];
        }
      }
    }
    if OutputsOk(a + b) {
      forall i | 0 <= i < |b|
        ensures OutputOk(b[i])
      {
        assert (a + b)[i + |a|] == b[i];
      }
      forall i | 0 <= i < |a|
        ensures OutputOk(a[i])
      {
        assert (a + b)[i] == a[i];
      }
    }
  }

  /** A frame with a console tag and up to three digits is well formed. */
  lemma SendOk(tag: char, payload: string)
    requires tag in {FileTag, MarkerTag, TorqueTag, ThrustTag, ZeroTag, BeginTag, EndTag, TareTag}
    requires AllDigits(payload) && |payload| <= 3
    ensures OutputOk(Send(tag, payload))
  {
    assert Encode(Message(tag, payload))[1..] == payload;
  }

  lemma ThreeOk(a: Output, b: Output, c: Output)
    requires OutputOk(a) && OutputOk(b) && OutputOk(c)
    ensures OutputsOk([a, b, c])
  {
  }

  /** The input as seen by each entry mode: the typed text belongs to the
      tare fields until taring is done and to the parameters after. */
  function ParamEntry(s: Console): Entering {
    Entering(s.params, if s.tared then s.input else "")
  }

  function TareEntry(s: Console): Entering {
    Entering(s.tare, if s.tared then "" else s.input)
  }

  /** What holds between passes of the loop: both entry modes valid, the
      width within [1000, 2000], a non-negative step, and while the motor
      runs a ceiling within [1000, 2000]. */
  predicate Inv(s: Console) {
    && Valid(Parameters, ParamEntry(s))
    && Valid(Tare, TareEntry(s))
    && MinThrottle <= s.ramp.cycleLength <= CeilingLimit
    && s.ramp.pwmIncrement >= 0
    && (s.startMotor ==> MinThrottle <= s.ramp.ceiling <= CeilingLimit)
  }

  /** The reset in `setup`: parameters cleared, cursor home, motor flags
      down, the width back at the minimum (which is written to arm the
      controller), and tare mode entered unless taring was done before. The
      tare values and the calibration status survive. */
  function Reset(s: Console): (r: Step)
    ensures r.state.params == Blank(Parameters) && r.state.input == ""
    ensures !r.state.startMotor && !r.state.interrupted && !r.state.ramp.done
    ensures r.state.ramp.cycleLength == MinThrottle
    ensures r.state.tared == s.tared && r.state.tare.values == s.tare.values
    ensures s.tared ==> r.state.tare == s.tare && r.out == [Pulse(MinThrottle)]
    ensures !s.tared ==> r.state.tare.index == 0 && r.out == [Pulse(MinThrottle), Send(TareTag, "")]
    ensures r.state.ramp.(cycleLength := s.ramp.cycleLength, done := s.ramp.done) == s.ramp
    ensures Inv(s) ==> Inv(r.state) && OutputsOk(r.out)
  {
    var base := s.(input := "", params := Blank(Parameters), startMotor := false, interrupted := false,
                   ramp := s.ramp.(cycleLength := MinThrottle, done := false));
    if s.tared then Step(base, [Pulse(MinThrottle)])
    else Step(base.(tare := base.tare.(index := 0)), [Pulse(MinThrottle), Send(TareTag, "")])
  }

  /** The console after power-on: zero-initialised globals, then `setup`,
      which enters tare mode since nothing has been tared yet. */
  function PowerOn(): (r: Step)
    ensures Inv(r.state) && OutputsOk(r.out)
    ensures !r.state.tared && r.out == [Pulse(MinThrottle), Send(TareTag, "")]
  {
    Reset(Console("", Blank(Parameters), Blank(Tare), false, false, false, 0, Ramp(0, 0, 0, 0, false)))
  }

  /** The stop button's interrupt handler: it raises the flag and does
      nothing else. */
  function Interrupt(s: Console): (r: Console)
    ensures r.interrupted && r.(interrupted := s.interrupted) == s
  {
    s.(interrupted := true)
  }

  /** Ramp-down: every width from the current one down to the minimum, then
      the end command, then the reset. */
  function ThrottleDown(s: Console): (r: Step)
    ensures var sweep := Pulses(Descending(s.ramp.cycleLength, MinThrottle));
      && |r.out| >= |sweep| + 1
      && r.out[..|sweep|] == sweep
      && r.out[|sweep|] == Send(EndTag, "")
      && r.out[|sweep| + 1..] == Reset(s).out
      && r.state == Reset(s).state
    ensures Inv(s) ==> Inv(r.state) && OutputsOk(r.out)
  {
    var sweep := Pulses(Descending(s.ramp.cycleLength, MinThrottle));
    var reset := Reset(s);
    var out := sweep + [Send(EndTag, "")] + reset.out;
    assert out[..|sweep|] == sweep;
    assert out[|sweep| + 1..] == reset.out;
    SendOk(EndTag, "");
    OutputsOkConcat(sweep, [Send(EndTag, "")]);
    OutputsOkConcat(sweep + [Send(EndTag, "")], reset.out);
    Step(reset.state, out)
  }

  /** The top of every pass: a raised stop flag is lowered and the ramp
      comes down, whatever phase it was in. */
  function CheckInterrupt(s: Console): (r: Step)
    ensures s.interrupted ==> r == ThrottleDown(s.(interrupted := false))
    ensures !s.interrupted ==> r == Step(s, [])
    ensures Inv(s) ==> Inv(r.state) && OutputsOk(r.out)
  {
    if s.interrupted then ThrottleDown(s.(interrupted := false)) else Step(s, [])
  }

  /** One ramp-up check of a running motor, writing the widths. */
  function RampStep(s: Console, now: int): (r: Step)
    ensures var u := ThrottleUp(s.ramp, now);
      r.state == s.(ramp := u.ramp) && r.out == Pulses(u.widths)
    ensures Inv(s) && s.startMotor ==> Inv(r.state) && OutputsOk(r.out)
  {
    var u := ThrottleUp(s.ramp, now);
    var r := Step(s.(ramp := u.ramp), Pulses(u.widths));
    assert Inv(s) && s.startMotor ==> Inv(r.state) && OutputsOk(r.out) by {
      if Inv(s) && s.startMotor && s.ramp.cycleLength <= s.ramp.ceiling {
        ThrottleUpBounds(s.ramp, now);
      }
    }
    r
  }

  /** Entering tare mode from the parameter screen: cursor on the first
      tare field, taring status cleared, and the node told to start taring.
      The previous tare values are kept. */
  function EnterTareMode(s: Console): (r: Step)
    ensures r.state == s.(tare := s.tare.(index := 0), tared := false, input := "")
    ensures r.out == [Send(TareTag, "")]
    ensures Inv(s) ==> Inv(r.state) && OutputsOk(r.out)
  {
    Step(s.(tare := s.tare.(index := 0), tared := false, input := ""), [Send(TareTag, "")])
  }

  /** Sending the calibration loads: the known torque, the known thrust,
      then the zero command, in that order; taring is then done and the
      parameter screen shown. */
  function SendTareInputs(s: Console): (r: Step)
    requires Shaped(s)
    ensures r.out == [Send(TorqueTag, s.tare.values[KnownTorque]),
                      Send(ThrustTag, s.tare.values[KnownThrust]),
                      Send(ZeroTag, "")]
    ensures r.state == s.(tared := true, input := "")
    ensures Inv(s) ==> Inv(r.state) && OutputsOk(r.out)
  {
    var out := [Send(TorqueTag, s.tare.values[KnownTorque]),
                Send(ThrustTag, s.tare.values[KnownThrust]),
                Send(ZeroTag, "")];
    var r := Step(s.(tared := true, input := ""), out);
    assert Inv(s) ==> Inv(r.state) && OutputsOk(r.out) by {
      SendOk(ZeroTag, "");
      if Inv(s) {
        SendOk(TorqueTag, s.tare.values[KnownTorque]);
        SendOk(ThrustTag, s.tare.values[KnownThrust]);
      }
    }
    r
  }

  /** Calibration as written: after sending, the home screen is redrawn at
      the parameter cursor, which tare mode left wherever it was; off the
      fields the redraw reads out of bounds. */
  function SendTareInputsAsWritten(s: Console): (r: Outcome<Step>)
    requires Shaped(s)
    ensures r.OutOfBounds? <==> !(0 <= s.params.index < FieldCount(Parameters))
    ensures r.Ok? ==> r.value == SendTareInputs(s)
  {
    match RedrawAsWritten(s.params)
    case OutOfBounds(i) => OutOfBounds(i)
    case Ok(_) => Ok(SendTareInputs(s))
  }

  /** Sending the test: the file command with the test number, then the
      marker command, then begin. The ceiling is the typed maximum held to
      [1000, 2000] and the step is the increment mapped onto the span above
      the minimum; the motor starts. */
  function SendInputs(s: Console): (r: Step)
    requires Shaped(s)
    ensures r.out == [Send(FileTag, s.params.values[TestNumber]),
                      Send(MarkerTag, s.params.values[MarkerField]),
                      Send(BeginTag, "")]
    ensures r.state.startMotor
    ensures r.state.ramp.ceiling == ClampCeiling(ToInt(s.params.values[MaxThrottle]))
    ensures r.state.throttleIncrement == ToInt(s.params.values[IncrementField])
    ensures r.state.ramp.pwmIncrement == PwmIncrement(r.state.throttleIncrement, r.state.ramp.ceiling)
    ensures r.state.(startMotor := s.startMotor, throttleIncrement := s.throttleIncrement,
                     ramp := r.state.ramp.(ceiling := s.ramp.ceiling, pwmIncrement := s.ramp.pwmIncrement)) == s
    ensures Inv(s) ==> Inv(r.state) && OutputsOk(r.out)
  {
    var ceiling := ClampCeiling(ToInt(s.params.values[MaxThrottle]));
    var increment := ToInt(s.params.values[IncrementField]);
    var out := [Send(FileTag, s.params.values[TestNumber]),
                Send(MarkerTag, s.params.values[MarkerField]),
                Send(BeginTag, "")];
    var r := Step(s.(throttleIncrement := increment,
                     ramp := s.ramp.(ceiling := ceiling, pwmIncrement := PwmIncrement(increment, ceiling)),
                     startMotor := true),
                  out);
    assert Inv(s) ==> Inv(r.state) && OutputsOk(r.out) by {
      if Inv(s) {
        StartKeepsInv(s, ceiling, increment);
        TestFramesOk(s);
      }
    }
    r
  }

  /** Starting the motor with a clamped ceiling and a typed increment keeps
      the invariant. */
  lemma StartKeepsInv(s: Console, ceiling: int, increment: int)
    requires Shaped(s) && Inv(s)
    requires ceiling == ClampCeiling(ToInt(s.params.values[MaxThrottle]))
    requires increment == ToInt(s.params.values[IncrementField])
    ensures Inv(s.(throttleIncrement := increment,
                   ramp := s.ramp.(ceiling := ceiling, pwmIncrement := PwmIncrement(increment, ceiling)),
                   startMotor := true))
  {
    assert AllDigits(s.params.values[IncrementField]);
    assert increment >= 0 && ceiling >= MinThrottle;
  }

  /** The three frames that start a test are well formed. */
  lemma TestFramesOk(s: Console)
    requires Shaped(s) && Inv(s)
    ensures OutputsOk([Send(FileTag, s.params.values[TestNumber]),
                       Send(MarkerTag, s.params.values[MarkerField]),
                       Send(BeginTag, "")])
  {
    SendOk(BeginTag, "");
    SendOk(FileTag, s.params.values[TestNumber]);
    SendOk(MarkerTag, s.params.values[MarkerField]);
    ThreeOk(Send(FileTag, s.params.values[TestNumber]), Send(MarkerTag, s.params.values[MarkerField]),
            Send(BeginTag, ""));
  }

  /** A key in tare mode: SEND once both loads are entered, otherwise the
      entry keys on the tare fields (two digits each). */
  function TareKeyPress(s: Console, key: char): (r: Step)
    requires Shaped(s)
    ensures key == SendKey && AllEntered(s.tare.values) ==> r == SendTareInputs(s)
    ensures !(key == SendKey && AllEntered(s.tare.values)) ==>
      && r.out == []
      && var e := Press(Entering(s.tare, s.input), Tare, key);
         r.state == s.(tare := e.form, input := e.input)
    ensures Inv(s) && !s.tared ==> Inv(r.state) && OutputsOk(r.out)
  {
    if key == SendKey && AllEntered(s.tare.values) then SendTareInputs(s)
    else
      var e := Press(Entering(s.tare, s.input), Tare, key);
      Step(s.(tare := e.form, input := e.input), [])
  }

  /** A key on the parameter screen: SEND once all four parameters are
      entered, the tare key only while the motor is stopped, otherwise the
      entry keys on the parameter fields. */
  function ParamKeyPress(s: Console, key: char): (r: Step)
    requires Shaped(s)
    ensures key == SendKey && AllEntered(s.params.values) ==> r == SendInputs(s)
    ensures key == TareKey && !s.startMotor ==> r == EnterTareMode(s)
    ensures key == TareKey && s.startMotor ==> r == Step(s, [])
    ensures !(key == SendKey && AllEntered(s.params.values)) && key != TareKey ==>
      && r.out == []
      && var e := Press(Entering(s.params, s.input), Parameters, key);
         r.state == s.(params := e.form, input := e.input)
    ensures Inv(s) && s.tared ==> Inv(r.state) && OutputsOk(r.out)
  {
    if key == SendKey && AllEntered(s.params.values) then SendInputs(s)
    else if key == TareKey && !s.startMotor then EnterTareMode(s)
    else
      var e := Press(Entering(s.params, s.input), Parameters, key);
      Step(s.(params := e.form, input := e.input), [])
  }

  /** One pass of the main loop: the stop flag first; then, in tare mode,
      only the key; otherwise a ramp-up check while the motor runs, the
      ramp-down once the ceiling has been held, and then the key. Every
      pass keeps the invariant and emits only widths within [1000, 2000]
      and well-formed frames of at most four bytes. */
  function LoopStep(s: Console, key: char, now: int): (r: Step)
    requires Shaped(s)
    ensures Shaped(r.state)
    ensures Inv(s) ==> Inv(r.state) && OutputsOk(r.out)
  {
    var c := CheckInterrupt(s);
    if !c.state.tared then
      var k := TareKeyPress(c.state, key);
      OutputsOkConcat(c.out, k.out);
      Step(k.state, c.out + k.out)
    else
      var u := if c.state.startMotor then RampStep(c.state, now) else Step(c.state, []);
      var d := if u.state.ramp.done then ThrottleDown(u.state) else Step(u.state, []);
      var k := ParamKeyPress(d.state, key);
      OutputsOkConcat(c.out, u.out);
      OutputsOkConcat(c.out + u.out, d.out);
      OutputsOkConcat(c.out + u.out + d.out, k.out);
      Step(k.state, c.out + u.out + d.out + k.out)
  }

  /** After a ramp-down no key restarts the motor or moves the width: the
      parameters are blank, so SEND is refused, and the other keys only
      edit or enter tare mode. */
  lemma KeyAfterStop(d: Console, key: char)
    requires Shaped(d) && !d.startMotor && d.params == Blank(Parameters)
    ensures ParamKeyPress(d, key).state.ramp == d.ramp && !ParamKeyPress(d, key).state.startMotor
  {
    assert d.params.values[TestNumber] == "";
  }

  /** While the motor runs no key stops it. */
  lemma KeyWhileRunning(d: Console, key: char)
    requires Shaped(d) && d.startMotor
    ensures ParamKeyPress(d, key).state.startMotor
  {
  }

  /** The pass of a tared console with the motor running and no stop
      pending: the ramp-up check, the ramp-down if the ramp is done, then
      the key. */
  lemma RunningPassSteps(s: Console, key: char, now: int)
    requires Shaped(s) && s.tared && !s.interrupted && s.startMotor
    ensures var p := RampStep(s, now);
      var d := if p.state.ramp.done then ThrottleDown(p.state) else Step(p.state, []);
      var k := ParamKeyPress(d.state, key);
      LoopStep(s, key, now) == Step(k.state, p.out + d.out + k.out)
  {
    assert CheckInterrupt(s) == Step(s, []);
    assert [] + RampStep(s, now).out == RampStep(s, now).out;
  }

  /** The output of such a pass, once the ramp is done: the ramp-up
      widths, the sweep down, the end command, and what the reset and the
      key write. */
  lemma DonePassOutput(pre: seq<Output>, down: Step, key: Step, sweep: seq<Output>)
    requires |down.out| >= |sweep| + 1
    requires down.out[..|sweep|] == sweep
    requires down.out[|sweep|] == Send(EndTag, "")
    ensures var out := pre + down.out + key.out;
      && |out| > |pre| + |sweep|
      && out[..|pre|] == pre
      && out[|pre|..|pre| + |sweep|] == sweep
      && out[|pre| + |sweep|] == Send(EndTag, "")
  {
    var out := pre + down.out + key.out;
    assert out[|pre|..] == down.out + key.out;
  }

  /** A pass of a running motor whose ramp is done after its check: the
      sweep down, the end command, and the motor stopped at the minimum. */
  lemma DoneRampStops(s: Console, key: char, now: int)
    requires Shaped(s) && Inv(s) && s.tared && !s.interrupted && s.startMotor
    requires ThrottleUp(s.ramp, now).ramp.done
    ensures var u := ThrottleUp(s.ramp, now);
      var r := LoopStep(s, key, now);
      var sweep := Pulses(Descending(u.ramp.cycleLength, MinThrottle));
      && |r.out| > |u.widths| + |sweep|
      && r.out[..|u.widths|] == Pulses(u.widths)
      && r.out[|u.widths|..|u.widths| + |sweep|] == sweep
      && r.out[|u.widths| + |sweep|] == Send(EndTag, "")
      && r.state.ramp.cycleLength == MinThrottle && !r.state.startMotor
  {
    var u := ThrottleUp(s.ramp, now);
    var p := RampStep(s, now);
    var d := ThrottleDown(p.state);
    var k := ParamKeyPress(d.state, key);
    var sweep := Pulses(Descending(u.ramp.cycleLength, MinThrottle));
    assert p.state.ramp == u.ramp && p.out == Pulses(u.widths);
    assert LoopStep(s, key, now) == Step(k.state, p.out + d.out + k.out) by {
      RunningPassSteps(s, key, now);
    }
    assert k.state.ramp.cycleLength == MinThrottle && !k.state.startMotor by {
      assert d.state == Reset(p.state).state;
      KeyAfterStop(d.state, key);
    }
    assert |p.out + d.out + k.out| > |u.widths| + |sweep|
      && (p.out + d.out + k.out)[..|u.widths|] == Pulses(u.widths)
      && (p.out + d.out + k.out)[|u.widths|..|u.widths| + |sweep|] == sweep
      && (p.out + d.out + k.out)[|u.widths| + |sweep|] == Send(EndTag, "")
    by {
      assert |p.out| == |u.widths|;
      DonePassOutput(p.out, d, k, sweep);
    }
  }

  /** A pass of a running motor whose ramp is not done: the widths of the
      check come first and the motor keeps running. */
  lemma RampContinues(s: Console, key: char, now: int)
    requires Shaped(s) && Inv(s) && s.tared && !s.interrupted && s.startMotor
    requires !ThrottleUp(s.ramp, now).ramp.done
    ensures var u := ThrottleUp(s.ramp, now);
      var r := LoopStep(s, key, now);
      && |r.out| >= |u.widths|
      && r.out[..|u.widths|] == Pulses(u.widths)
      && r.state.startMotor
  {
    var u := ThrottleUp(s.ramp, now);
    var p := RampStep(s, now);
    RunningPassSteps(s, key, now);
    var k := ParamKeyPress(p.state, key);
    KeyWhileRunning(p.state, key);
    assert (p.out + [] + k.out)[..|u.widths|] == p.out;
  }

  /** A pass of a running motor: the ramp-up check comes first and its
      widths open the pass's output; once the ramp is done the same pass
      sweeps down to the minimum, sends the end command and stops the
      motor; while it is not done the motor keeps running. */
  lemma RunningPassRamps(s: Console, key: char, now: int)
    requires Shaped(s) && Inv(s) && s.tared && !s.interrupted && s.startMotor
    ensures var u := ThrottleUp(s.ramp, now);
      var r := LoopStep(s, key, now);
      var sweep := Pulses(Descending(u.ramp.cycleLength, MinThrottle));
      && |r.out| >= |u.widths|
      && r.out[..|u.widths|] == Pulses(u.widths)
      && (u.ramp.done ==>
            && |r.out| > |u.widths| + |sweep|
            && r.out[|u.widths|..|u.widths| + |sweep|] == sweep
            && r.out[|u.widths| + |sweep|] == Send(EndTag, "")
            && r.state.ramp.cycleLength == MinThrottle && !r.state.startMotor)
      && (!u.ramp.done ==> r.state.startMotor)
  {
    if ThrottleUp(s.ramp, now).ramp.done {
      DoneRampStops(s, key, now);
    } else {
      RampContinues(s, key, now);
    }
  }

  /** The stop button wins: after an interrupt the very next pass starts
      with the full ramp-down from the current width to the minimum and the
      end command, and leaves the motor stopped at the minimum with the
      parameters cleared, whatever key is pressed. */
  lemma AbortPreempts(s: Console, key: char, now: int)
    requires Shaped(s)
    ensures var sweep := Pulses(Descending(s.ramp.cycleLength, MinThrottle));
      var r := LoopStep(Interrupt(s), key, now);
      && |r.out| > |sweep|
      && r.out[..|sweep|] == sweep
      && r.out[|sweep|] == Send(EndTag, "")
      && !r.state.startMotor && !r.state.interrupted
      && r.state.ramp.cycleLength == MinThrottle
      && r.state.params.values == Blank(Parameters).values
  {
    var sweep := Pulses(Descending(s.ramp.cycleLength, MinThrottle));
    var c := CheckInterrupt(Interrupt(s));
    assert c == ThrottleDown(s);
    assert !AllEntered(c.state.params.values) by {
      assert c.state.params.values[0] == "";
    }
    var r := LoopStep(Interrupt(s), key, now);
    if c.state.tared {
      var d := Step(c.state, []);
      var k := ParamKeyPress(d.state, key);
      assert r.out == c.out + [] + [] + k.out;
    } else {
      var k := TareKeyPress(c.state, key);
      assert r.out == c.out + k.out;
    }
    assert r.out[..|sweep|] == c.out[..|sweep|];
  }

  /** The tare key is ignored while the motor runs. */
  lemma TareKeyIgnoredWhileRunning(s: Console)
    requires Shaped(s) && s.startMotor
    ensures ParamKeyPress(s, TareKey) == Step(s, [])
  {
  }

  /** The motor only starts from SEND on the parameter screen with all
      four parameters entered, and not in a pass that begins by stopping. */
  lemma MotorStartsOnlyBySend(s: Console, key: char, now: int)
    requires Shaped(s) && !s.startMotor
    ensures LoopStep(s, key, now).state.startMotor ==>
      key == SendKey && s.tared && !s.interrupted && !s.ramp.done && AllEntered(s.params.values)
  {
    var c := CheckInterrupt(s);
    if s.interrupted || (c.state.tared && c.state.ramp.done) {
      var d := if s.interrupted then c else ThrottleDown(c.state);
      assert d.state.params.values[0] == "";
    }
  }

  /** Finding, as written: after the fourth ENTER the parameter cursor is
      past the last field; the tare key then enters tare mode without
      moving it, and SEND after calibration redraws the home screen at
      parameter index 4, past the end of the arrays. */
  lemma TareReturnReadsPastFields(s: Console)
    requires Shaped(s) && s.tared && !s.startMotor
    requires s.params.index == FieldCount(Parameters) && AllEntered(s.tare.values)
    ensures var t := ParamKeyPress(s, TareKey).state;
      && !t.tared && Shaped(t)
      && TareKeyPress(t, SendKey) == SendTareInputs(t)
      && SendTareInputsAsWritten(t) == OutOfBounds(FieldCount(Parameters))
  {
  }

  /** Corrected: the home screen after calibration, drawn with the
      corrected redraw, shows a parameter field that exists or the prompt
      to send, for every state the console can reach. */
  lemma TareReturnStaysInFields(s: Console)
    requires Shaped(s) && Inv(s)
    ensures var home := Redraw(SendTareInputs(s).state.params);
      && (home.FieldScreen? ==> home.index < FieldCount(Parameters))
      && (s.params.index == FieldCount(Parameters) ==> home == SendPrompt)
  {
  }

  /** Events between and during passes of the console loop. */
  datatype Event = Key(key: char, now: int) | StopButton

  function Apply(s: Console, e: Event): (r: Step)
    requires Shaped(s)
    ensures Shaped(r.state)
  {
    match e
    case Key(key, now) => LoopStep(s, key, now)
    case StopButton => Step(Interrupt(s), [])
  }

  function Run(s: Console, events: seq<Event>): (r: Step)
    requires Shaped(s)
    ensures Shaped(r.state)
    decreases |events|
  {
    if |events| == 0 then Step(s, [])
    else
      var a := Apply(s, events[0]);
      var rest := Run(a.state, events[1..]);
      Step(rest.state, a.out + rest.out)
  }

  /** Whatever keys are pressed, whenever, and however often the stop
      button is hit, the console keeps its invariant and writes only widths
      within [1000, 2000] and well-formed frames. */
  lemma {:induction false} RunSafe(s: Console, events: seq<Event>)
    requires Shaped(s) && Inv(s)
    ensures Inv(Run(s, events).state) && OutputsOk(Run(s, events).out)
    decreases |events|
  {
    if |events| > 0 {
      var a := Apply(s, events[0]);
      RunSafe(a.state, events[1..]);
      OutputsOkConcat(a.out, Run(a.state, events[1..]).out);
    }
  }

  /** From power-on, every run is safe in the same sense. */
  lemma PowerOnRunSafe(events: seq<Event>)
    ensures var p := PowerOn(); Shaped(p.state) && Inv(Run(p.state, events).state)
    ensures var p := PowerOn(); OutputsOk(p.out + Run(p.state, events).out)
  {
    var p := PowerOn();
    RunSafe(p.state, events);
    OutputsOkConcat(p.out, Run(p.state, events).out);
  }
}
