/** The console's throttle ramp: pulse widths, in microseconds, written to
    the motor's speed controller. Ramp-up raises the width once per
    increment interval by a step derived from the typed increment; ramp-down
    walks back to the minimum one microsecond at a time. */
module Throttle {

  /** The armed minimum pulse width. */
  const MinThrottle: int := 1000
  /** The highest ceiling the console accepts. */
  const CeilingLimit: int := 2000
  /** Time between ramp-up steps, in milliseconds. */
  const IncrementTime: int := 4000

  function Min(a: int, b: int): int {
    if a <= b then a else b
  }

  function Max(a: int, b: int): int {
    if a >= b then a else b
  }

  /** The typed maximum throttle held to [1000, 2000]. */
  function ClampCeiling(v: int): (c: int)
    ensures MinThrottle <= c <= CeilingLimit
    ensures MinThrottle <= v <= CeilingLimit ==> c == v
    ensures v < MinThrottle ==> c == MinThrottle
    ensures v > CeilingLimit ==> c == CeilingLimit
  {
    Min(Max(v, MinThrottle), CeilingLimit)
  }

  /** C's integer division, which rounds toward zero. */
  function TruncDiv(a: int, b: int): (q: int)
    requires b != 0
    ensures a >= 0 && b > 0 ==> q == a / b
    ensures a < 0 && b > 0 ==> q == -((-a) / b)
  {
    var m := (if a < 0 then -a else a) / (if b < 0 then -b else b);
    if (a < 0) == (b < 0) then m else -m
  }

  /** Arduino's `map`: the linear rescaling of `x` from one range to another,
      with C's truncating division. */
  function ArduinoMap(x: int, inMin: int, inMax: int, outMin: int, outMax: int): (y: int)
    requires inMax != inMin
    ensures x == inMin ==> y == outMin
    ensures x == inMax ==> y == outMax
    ensures inMin < inMax && outMin <= outMax && inMin <= x <= inMax ==> outMin <= y <= outMax
  {
    MapScaled(x - inMin, outMax - outMin, inMax - inMin);
    TruncDiv((x - inMin) * (outMax - outMin), inMax - inMin) + outMin
  }

  /** The scaled offset `map` adds to the low end of the output range: none
      at the low end of the input, the whole output span at the high end,
      and between the two inside the input range. */
  lemma MapScaled(dx: int, span: int, d: int)
    requires d != 0
    ensures dx == 0 ==> TruncDiv(dx * span, d) == 0
    ensures dx == d ==> TruncDiv(dx * span, d) == span
    ensures 0 < d && 0 <= span && 0 <= dx <= d ==> 0 <= TruncDiv(dx * span, d) <= span
  {
    assert dx == 0 ==> TruncDiv(dx * span, d) == 0 by {
      if dx == 0 {
        assert dx * span == 0;
      }
    }
    assert dx == d ==> TruncDiv(dx * span, d) == span by {
      if dx == d {
        assert dx * span == span * d;
        DivExact(span, d);
      }
    }
    assert 0 < d && 0 <= span && 0 <= dx <= d ==> 0 <= TruncDiv(dx * span, d) <= span by {
      if 0 < d && 0 <= span && 0 <= dx <= d {
        MulBounded(dx, span, d);
        DivBounded(dx * span, d, span);
      }
    }
  }

  /** Dividing a multiple of `d` by `d` in C gives the factor back. */
  lemma DivExact(k: int, d: int)
    requires d != 0
    ensures TruncDiv(k * d, d) == k
  {
    var ak := if k < 0 then -k else k;
    var ad := if d < 0 then -d else d;
    AbsProduct(k, d);
    DivOfProduct(ak, ad);
  }

  lemma AbsProduct(k: int, d: int)
    ensures (if k * d < 0 then -(k * d) else k * d) == (if k < 0 then -k else k) * (if d < 0 then -d else d)
    ensures k * d < 0 <==> (k < 0) != (d < 0) && k != 0 && d != 0
  {
    if k < 0 && d < 0 {
      assert k * d == (-k) * (-d);
    } else if k < 0 {
      assert k * d == -((-k) * d);
    } else if d < 0 {
      assert k * d == -(k * (-d));
    }
  }

  lemma DivOfProduct(p: int, q: int)
    requires p >= 0 && q > 0
    ensures (p * q) / q == p
  {
    var r := (p * q) / q;
    assert q * r <= q * p && q * p < q * (r + 1) by {
      assert p * q == q * r + (p * q) % q;
      assert q * (r + 1) == q * r + q;
    }
    MulCancel(q, r, p);
    MulCancelStrict(q, p, r + 1);
  }

  lemma MulCancelStrict(d: int, a: int, b: int)
    requires d > 0 && d * a < d * b
    ensures a < b
  {
    assert d * (b - a) == d * b - d * a;
  }

  /** A quotient of a value in [0, d * c] by d lies in [0, c]. */
  lemma DivBounded(n: int, d: int, c: int)
    requires d > 0 && c >= 0 && 0 <= n <= d * c
    ensures 0 <= n / d <= c
  {
    assert d * (n / d) <= n;
    MulCancel(d, n / d, c);
  }

  lemma MulCancel(d: int, q: int, c: int)
    requires d > 0 && d * q <= d * c
    ensures q <= c
  {
    assert d * (c - q) == d * c - d * q;
  }

  lemma MulBounded(x: int, y: int, n: int)
    requires 0 <= x <= n && 0 <= y
    ensures 0 <= x * y <= n * y
  {
  }

  /** The ramp-up step in microseconds for an increment in percent: the
      largest step whose hundredfold does not exceed increment times the
      span above the minimum, so for 0..100 percent it lies within the span. */
  function PwmIncrement(increment: int, ceiling: int): (p: int)
    ensures increment >= 0 && ceiling >= MinThrottle ==>
      p * 100 <= increment * (ceiling - MinThrottle) < p * 100 + 100
    ensures increment >= 0 && ceiling >= MinThrottle ==> p >= 0
    ensures 0 <= increment <= 100 && ceiling >= MinThrottle ==> 0 <= p <= ceiling - MinThrottle
  {
    var span := ceiling - MinThrottle;
    if increment >= 0 && ceiling >= MinThrottle then
      MulBounded(increment, span, if increment <= 100 then 100 else increment);
      ArduinoMap(increment, 0, 100, 0, span)
    else
      ArduinoMap(increment, 0, 100, 0, span)
  }

  /** The widths `lo`, `lo + 1`, ..., `hi`, as the ramp-up loop writes them. */
  function Ascending(lo: int, hi: int): (ws: seq<int>)
    ensures |ws| == if lo <= hi then hi - lo + 1 else 0
    ensures forall i :: 0 <= i < |ws| ==> ws[i] == lo + i
    decreases hi - lo
  {
    if lo > hi then [] else [lo] + Ascending(lo + 1, hi)
  }

  /** The widths `hi`, `hi - 1`, ..., `lo`, as the ramp-down loop writes them. */
  function Descending(hi: int, lo: int): (ws: seq<int>)
    ensures |ws| == if lo <= hi then hi - lo + 1 else 0
    ensures forall i :: 0 <= i < |ws| ==> ws[i] == hi - i
    decreases hi - lo
  {
    if lo > hi then [] else [hi] + Descending(hi - 1, lo)
  }

  /** The ramp's part of the console state: the ceiling, the step, the last
      width written, when the last step was taken, and whether the ceiling
      has been held for a full interval. */
  datatype Ramp = Ramp(ceiling: int, pwmIncrement: int, cycleLength: int, lastStep: int, done: bool)

  datatype Up = Up(ramp: Ramp, widths: seq<int>)

  predicate Elapsed(r: Ramp, now: int) {
    now >= r.lastStep + IncrementTime
  }

  /** One ramp-up check. Before the interval has elapsed nothing happens.
      Once it has, a ramp below its ceiling writes every width from the
      current one up to the current one plus the step, but never above the
      ceiling, and stays at the last one written; a ramp at or above its
      ceiling instead reports that it is done. */
  function ThrottleUp(r: Ramp, now: int): (u: Up)
    ensures !Elapsed(r, now) ==> u == Up(r, [])
    ensures Elapsed(r, now) && r.cycleLength >= r.ceiling ==> u == Up(r.(done := true), [])
    ensures Elapsed(r, now) && r.cycleLength < r.ceiling ==>
      && u.ramp.done == r.done
      && u.ramp.lastStep == now
      && u.ramp.cycleLength == Min(r.cycleLength + r.pwmIncrement, r.ceiling)
      && u.widths == Ascending(r.cycleLength, u.ramp.cycleLength)
    ensures u.ramp.ceiling == r.ceiling && u.ramp.pwmIncrement == r.pwmIncrement
  {
    if Elapsed(r, now) && r.cycleLength >= r.ceiling then
      Up(r.(done := true), [])
    else if Elapsed(r, now) then
      var top := Min(r.cycleLength + r.pwmIncrement, r.ceiling);
      Up(r.(cycleLength := top, lastStep := now), Ascending(r.cycleLength, top))
    else
      Up(r, [])
  }

  /** What one ramp-up check promises: with a non-negative step the width
      never falls, a ramp within its ceiling stays within it, every width
      written lies between the old width and the ceiling, consecutive widths
      differ by one and end at the new width, and `done` is only ever raised
      by an elapsed interval at the ceiling. */
  lemma ThrottleUpBounds(r: Ramp, now: int)
    requires r.pwmIncrement >= 0 && r.cycleLength <= r.ceiling
    ensures var u := ThrottleUp(r, now);
      && r.cycleLength <= u.ramp.cycleLength <= r.ceiling
      && (forall i :: 0 <= i < |u.widths| ==> r.cycleLength <= u.widths[i] <= r.ceiling)
      && (forall i :: 0 < i < |u.widths| ==> u.widths[i] == u.widths[i - 1] + 1)
      && (|u.widths| > 0 ==> u.widths[|u.widths| - 1] == u.ramp.cycleLength)
      && (u.ramp.done && !r.done ==> Elapsed(r, now) && r.cycleLength >= r.ceiling)
  {
  }

  /** Ramp-up checks at a series of times, with all widths written. */
  function RampUp(r: Ramp, times: seq<int>): Up
    decreases |times|
  {
    if |times| == 0 then Up(r, [])
    else
      var u := ThrottleUp(r, times[0]);
      var rest := RampUp(u.ramp, times[1..]);
      Up(rest.ramp, u.widths + rest.widths)
  }

  predicate NonDecreasing(ws: seq<int>) {
    forall i, j :: 0 <= i <= j < |ws| ==> ws[i] <= ws[j]
  }

  /** Over any series of checks the written widths form one non-decreasing
      sweep from the starting width, never above the ceiling, and the ramp
      ends at or above where it started and within the ceiling. */
  lemma {:induction false} RampUpSweep(r: Ramp, times: seq<int>)
    requires r.pwmIncrement >= 0 && r.cycleLength <= r.ceiling
    ensures var u := RampUp(r, times);
      && NonDecreasing(u.widths)
      && (forall i :: 0 <= i < |u.widths| ==> r.cycleLength <= u.widths[i] <= u.ramp.cycleLength)
      && r.cycleLength <= u.ramp.cycleLength <= r.ceiling
      && u.ramp.ceiling == r.ceiling && u.ramp.pwmIncrement == r.pwmIncrement
    decreases |times|
  {
    if |times| > 0 {
      var u := ThrottleUp(r, times[0]);
      ThrottleUpBounds(r, times[0]);
      RampUpSweep(u.ramp, times[1..]);
      var rest := RampUp(u.ramp, times[1..]);
      var ws := u.widths + rest.widths;
      forall i, j | 0 <= i <= j < |ws|
        ensures ws[i] <= ws[j]
      {
        if j < |u.widths| {
          assert ws[i] == u.widths[i] && ws[j] == u.widths[j];
        } else if i >= |u.widths| {
          assert ws[i] == rest.widths[i - |u.widths|] && ws[j] == rest.widths[j - |u.widths|];
        } else {
          assert ws[i] == u.widths[i] <= u.ramp.cycleLength;
          assert ws[j] == rest.widths[j - |u.widths|] >= u.ramp.cycleLength;
        }
      }
    }
  }

  /** The ramp-down sweep: from the current width down to the minimum in
      steps of one, ending on the minimum. */
  lemma RampDownSweep(cycleLength: int)
    requires cycleLength >= MinThrottle
    ensures var ws := Descending(cycleLength, MinThrottle);
      && |ws| > 0 && ws[0] == cycleLength && ws[|ws| - 1] == MinThrottle
      && (forall i :: 0 < i < |ws| ==> ws[i] == ws[i - 1] - 1)
      && (forall i :: 0 <= i < |ws| ==> MinThrottle <= ws[i] <= cycleLength)
  {
  }
}
