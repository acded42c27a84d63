/** The two nodes together: what the console's frames make the acquisition
    node do. The bus delivers the console's frames in order; how the node's
    loop passes interleave with them is a parameter of each lemma, since
    every frame overwrites the node's one payload buffer. */
module Session {
  import opened Text
  import opened Protocol
  import Entry
  import Console
  import Acquisition
  import Csv
  import Throttle

  /** The bus frames among the console's outputs, in order. */
  function Frames(out: seq<Console.Output>): (frames: seq<string>)
    ensures |frames| <= |out|
    ensures forall i :: 0 <= i < |out| && out[i].Frame? ==> out[i].bytes in frames
    decreases |out|
  {
    if |out| == 0 then []
    else
      var rest := Frames(out[1..]);
      assert forall i :: 1 <= i < |out| ==> out[i] == out[1..][i - 1];
      if out[0].Frame? then [out[0].bytes] + rest else rest
  }

  /** The node's receive handler run on each frame in turn, with no loop
      pass in between. */
  function Deliver(n: Acquisition.Node, frames: seq<string>): (r: Acquisition.Node)
    ensures r.markers == n.markers && r.objects == n.objects && r.fileOpen == n.fileOpen
    ensures r.prevSecond == n.prevSecond && r.lastRowTime == n.lastRowTime
    decreases |frames|
  {
    if |frames| == 0 then n else Deliver(Acquisition.Receive(n, frames[0]), frames[1..])
  }

  /** A node with no command pending and no file open. */
  predicate Idle(n: Acquisition.Node) {
    && (forall f :: !Acquisition.Raised(n, f))
    && !n.fileOpen
  }

  /** Frames of three console frames are their bytes. */
  lemma FramesOfThree(x: string, y: string, z: string)
    ensures Frames([Console.Frame(x), Console.Frame(y), Console.Frame(z)]) == [x, y, z]
  {
    var out := [Console.Frame(x), Console.Frame(y), Console.Frame(z)];
    assert out[1..] == [Console.Frame(y), Console.Frame(z)];
    assert out[1..][1..] == [Console.Frame(z)];
    assert Frames([Console.Frame(z)]) == [z] by {
      assert [Console.Frame(z)][1..] == [];
    }
  }

  /** Delivering frames one after the other. */
  lemma DeliverTwo(n: Acquisition.Node, x: string, y: string)
    ensures Deliver(n, [x, y]) == Acquisition.Receive(Acquisition.Receive(n, x), y)
  {
    var n1 := Acquisition.Receive(n, x);
    assert [x, y][1..] == [y];
    assert Deliver(n, [x, y]) == Deliver(n1, [y]);
    assert [y][1..] == [];
    assert Deliver(n1, [y]) == Deliver(Acquisition.Receive(n1, y), []);
  }

  lemma DeliverThree(n: Acquisition.Node, x: string, y: string, z: string)
    ensures Deliver(n, [x, y, z]) ==
      Acquisition.Receive(Acquisition.Receive(Acquisition.Receive(n, x), y), z)
  {
    assert [x, y, z][1..] == [y, z];
    DeliverTwo(Acquisition.Receive(n, x), y, z);
  }

  /** The pass that handles a file command, with reading off and no stop. */
  lemma OpenPass(r: Acquisition.Node, tick: Acquisition.Tick)
    requires !r.taring && r.newFileCreated && !r.readingOn && !r.stop && tick.openOk
    ensures Acquisition.Loop(r, tick) ==
      Acquisition.Step(r.(newFileCreated := false, fileOpen := true),
                       [Acquisition.OpenFile(Acquisition.FileName(r.signal)), Acquisition.AppendLine(Csv.Header)])
  {
  }

  /** The pass that handles a marker command, with a file open, reading off
      and no stop. */
  lemma MarkerPass(r: Acquisition.Node, tick: Acquisition.Tick)
    requires !r.taring && !r.newFileCreated && r.markerSent && r.fileOpen && !r.readingOn && !r.stop
    ensures Acquisition.Loop(r, tick) ==
      Acquisition.Step(r.(markers := ToInt(r.signal), markerSent := false), [])
  {
  }

  /** Calibration end to end: a taring node that receives the console's
      three calibration frames back to back calibrates, on its next pass,
      with exactly the two loads typed on the console, and leaves taring.
      No pass is needed between these frames, because the loads are copied
      out of the payload buffer as they arrive. */
  lemma {:induction false} TareSession(c: Console.Console, n: Acquisition.Node, tick: Acquisition.Tick)
    requires Console.Shaped(c) && Console.Inv(c)
    requires n.taring
    ensures var frames := Frames(Console.SendTareInputs(c).out);
      var r := Acquisition.Loop(Deliver(n, frames), tick);
      && r.effects == [Acquisition.Calibrate(DecimalValue(c.tare.values[0]), DecimalValue(c.tare.values[1]))]
      && !r.node.taring && !r.node.zero
  {
    var out := Console.SendTareInputs(c).out;
    var q := Encode(Message(TorqueTag, c.tare.values[0]));
    var t := Encode(Message(ThrustTag, c.tare.values[1]));
    var z := Encode(Message(ZeroTag, ""));
    FramesOfThree(q, t, z);
    var n1 := Acquisition.Receive(n, q);
    var n2 := Acquisition.Receive(n1, t);
    var n3 := Acquisition.Receive(n2, z);
    DeliverThree(n, q, t, z);
    assert n3.torqueSignal == c.tare.values[0] && n3.thrustSignal == c.tare.values[1];
    assert n3.taring && n3.zero;
    assert Entry.Valid(Entry.Tare, Console.TareEntry(c));
    assert AllDigits(c.tare.values[0]) && AllDigits(c.tare.values[1]);
  }

  /** What the three test-start frames do on arrival. */
  lemma StartFrames(n: Acquisition.Node, id: string, markers: string)
    ensures Acquisition.Receive(n, Encode(Message(FileTag, id))) == n.(signal := id, newFileCreated := true)
    ensures Acquisition.Receive(n, Encode(Message(MarkerTag, markers))) == n.(signal := markers, markerSent := true)
    ensures Acquisition.Receive(n, Encode(Message(BeginTag, ""))) == n.(signal := "", readingOn := true)
  {
    assert Decode(Encode(Message(FileTag, id))) == Message(FileTag, id);
    assert Decode(Encode(Message(MarkerTag, markers))) == Message(MarkerTag, markers);
    assert Decode(Encode(Message(BeginTag, ""))) == Message(BeginTag, "");
  }

  /** The node's side of starting a test: a file frame, a pass, a marker
      frame, a pass, then the begin frame. */
  lemma StartSequence(n: Acquisition.Node, id: string, markers: string, t1: Acquisition.Tick, t2: Acquisition.Tick)
    requires Idle(n) && t1.openOk && AllDigits(markers)
    ensures var p1 := Acquisition.Loop(Acquisition.Receive(n, Encode(Message(FileTag, id))), t1);
      var p2 := Acquisition.Loop(Acquisition.Receive(p1.node, Encode(Message(MarkerTag, markers))), t2);
      var n3 := Acquisition.Receive(p2.node, Encode(Message(BeginTag, "")));
      && p1.effects == [Acquisition.OpenFile(Acquisition.FileName(id)), Acquisition.AppendLine(Csv.Header)]
      && p2.effects == []
      && n3.markers == DecimalValue(markers)
      && Acquisition.Logging(n3)
  {
    assert !n.readingOn && !n.stop && !n.taring && !n.markerSent by {
      assert !Acquisition.Raised(n, Acquisition.Reading) && !Acquisition.Raised(n, Acquisition.Stopping);
      assert !Acquisition.Raised(n, Acquisition.Taring) && !Acquisition.Raised(n, Acquisition.Marker);
    }
    StartFrames(n, id, markers);
    var r1 := n.(signal := id, newFileCreated := true);
    OpenPass(r1, t1);
    var p1 := r1.(newFileCreated := false, fileOpen := true);
    StartFrames(p1, id, markers);
    var r2 := p1.(signal := markers, markerSent := true);
    MarkerPass(r2, t2);
    var p2 := r2.(markers := ToInt(markers), markerSent := false);
    StartFrames(p2, id, markers);
  }

  /** A test started end to end, when the node runs a pass after the file
      frame and after the marker frame (the console waits after the file
      frame; see the coalescing lemma below for what happens otherwise):
      the node opens the file named after the typed test number and writes
      the header, takes the typed marker count, and is then logging. */
  lemma TestSession(c: Console.Console, n: Acquisition.Node, t1: Acquisition.Tick, t2: Acquisition.Tick)
    requires Console.Shaped(c) && Console.Inv(c)
    requires Idle(n) && t1.openOk
    ensures var frames := Frames(Console.SendInputs(c).out);
      && |frames| == 3
      && var p1 := Acquisition.Loop(Acquisition.Receive(n, frames[0]), t1);
         var p2 := Acquisition.Loop(Acquisition.Receive(p1.node, frames[1]), t2);
         var n3 := Acquisition.Receive(p2.node, frames[2]);
         && p1.effects == [Acquisition.OpenFile(Acquisition.FileName(c.params.values[0])),
                           Acquisition.AppendLine(Csv.Header)]
         && p2.effects == []
         && n3.markers == DecimalValue(c.params.values[3])
         && Acquisition.Logging(n3)
  {
    var f := Encode(Message(FileTag, c.params.values[0]));
    var m := Encode(Message(MarkerTag, c.params.values[3]));
    var b := Encode(Message(BeginTag, ""));
    FramesOfThree(f, m, b);
    assert Console.SendInputs(c).out == [Console.Frame(f), Console.Frame(m), Console.Frame(b)];
    assert Frames(Console.SendInputs(c).out) == [f, m, b];
    assert AllDigits(c.params.values[3]) by {
      assert Entry.Valid(Entry.Parameters, Console.ParamEntry(c));
    }
    StartSequence(n, c.params.values[0], c.params.values[3], t1, t2);
  }

  /** The payload buffer is shared: when the begin frame reaches the node
      before a pass has consumed the marker frame, the pass reads the
      begin frame's empty payload and sets the marker count to zero, so
      every RPM of the session is infinite or undefined. */
  lemma CoalescedMarkerIsLost(n: Acquisition.Node, markers: string, tick: Acquisition.Tick)
    requires !n.taring && n.fileOpen && !n.newFileCreated && !n.stop
    ensures var d := Deliver(n, [Encode(Message(MarkerTag, markers)), Encode(Message(BeginTag, ""))]);
      Acquisition.Loop(d, tick).node.markers == 0
  {
    var m := Encode(Message(MarkerTag, markers));
    var b := Encode(Message(BeginTag, ""));
    DeliverTwo(n, m, b);
    StartFrames(n, "", markers);
    var n1 := n.(signal := markers, markerSent := true);
    StartFrames(n1, "", markers);
    var d := n1.(signal := "", readingOn := true);
    assert ToInt("") == 0;
    var c := Acquisition.HandleCommands(d, tick.openOk);
    assert c.node == d.(markers := 0, markerSent := false);
    assert Acquisition.LoopAsWritten(d, tick).node == Acquisition.Acquire(c.node, tick).node;
  }

  /** Stopping end to end: the end frame that follows the console's
      ramp-down reaches a logging node, whose next pass closes the file and
      resets the node's flags. */
  lemma EndSession(c: Console.Console, n: Acquisition.Node, tick: Acquisition.Tick)
    requires Acquisition.Logging(n)
    ensures var sweep := Console.Pulses(Throttle.Descending(c.ramp.cycleLength, Throttle.MinThrottle));
      var out := Console.ThrottleDown(c).out;
      && out[|sweep|].Frame?
      && var r := Acquisition.Loop(Acquisition.Receive(n, out[|sweep|].bytes), tick);
         && r.effects == [Acquisition.CloseFile]
         && !r.node.fileOpen
         && (forall f :: !Acquisition.Raised(r.node, f))
  {
    var e := Encode(Message(EndTag, ""));
    var r := Acquisition.Receive(n, e);
    Acquisition.DispatchEnd(n, e);
    assert !r.readingOn && r.stop && r.fileOpen && !r.taring && !r.newFileCreated && !r.markerSent;
    Acquisition.StopClosesSession(r, tick);
  }
}
